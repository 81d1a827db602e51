# NGIN.Base: verified core

A Dafny model of the parts of NGIN.Base, a C++ foundation library, that carry the hardest
promises, with proofs that hold for every input, every run or every reachable state.

| files | component |
|---|---|
| `BigIntLimbs` `BigIntDigits` `BigIntSigned` `BigIntDivision` `BigIntOperators` `BigIntDecimal` | arbitrary-precision integers: limb vectors, schoolbook and Karatsuba products, four division algorithms, decimal text. The specification is integer arithmetic |
| `PowersOfTwo` `ProbeTable` `FlatHashMap` | the open-addressing map: linear probing with wraparound, backward-shift deletion, growth. The specification is a mathematical map |
| `HashChains` `ShardTables` `ConcurrentHashMap` | writers of the sharded map: copy-on-write chains, rebuilt tables, ownership of every node |
| `ConcurrentReaders` `ReaderVisibility` | lock-free readers of one shard against its writer and the epoch reclaimer, step by step; which writes a reader sees |
| `Bits` `CrcAlgebra` `Crc` `CrcDetection` `CrcBursts` `CrcResidue` `CrcNumbers` `CrcCheckValues` | CRC engines of any width, reflected or not: table and slicing-by-8 forms against the bitwise form, and that against arithmetic and a published check value; which errors they detect |
| `Adler` `WordChecksums` `CheckDigits` | Adler-32, Internet checksum, Fletcher-32, Damm and Luhn digits |
| `CancellationList` | the list of cancellation registrations with its remembered indices, updated in place |
| `CancellationSteps` `CancellationInvariant` `CancellationGuarantees` | every interleaving of Register, Reset, moves and Cancel, and what follows for callbacks |
| `CancellationWitnesses` `CancellationExamples` | the exact steps after which a callback can go wrong, and runs that reach them |
| `PoolQueue` `PoolSteps` `PoolWakeup` `PoolBalance` `PoolEmptyItems` `PoolCounting` `PoolConservation` `PoolDelivery` | the thread pool: its queues, its sleep and wake protocol and the exact limit of its wake-up guarantee, where every item is and how it gets to a worker |
| `TaskPromises` `TaskEffects` `TaskGuarantees` `TaskPayloads` | task promises: outcomes, awaiting, failures climbing the await chain, and who gets their payload |
| `WhenAny` | the state shared by the watchers and the awaiter of WhenAny |
| `MachineWords` `Options` `Arithmetic` `Numerals` | fixed-width unsigned types, optional values, laws of products and remainders, decimal digits |

Unsigned machine types are subset types, so every assignment carries the obligation that the
operation does not wrap. Objects that the source updates in place are classes whose methods are
proved against functions of their old state; protocols are step systems in which each lock section
and each atomic access is one step, under sequential consistency.

Verify with `dafny verify dfyconfig.toml`.

## Where the code and the expectation part

Each of these is kept as the code has it, shown by the members named, and fenced by a condition that
is proved to be exact.

- `%` of a negative dividend smaller in magnitude than the divisor comes back positive
  (`BigIntOperators.Modulo`: right if and only if that is not the case).
- `-` and `*` can leave the sign flag set on zero, exactly in the cases that `BigIntSigned.Subtract`
  and `BigIntSigned.Multiply` state; `BigIntSigned.EqualityExactly` says what that does to `==`.
- A lone minus sign, and no other text, parses to a number without limbs (`BigIntDecimal.Parse`). As a
  divisor it is not recognised as zero. With a nonzero dividend of at most four limbs, or one without limbs,
  division never returns (`BigIntOperators.Returns` is the exact class, `BigIntOperators.StillDividing` shows
  that the loop goes on outside it, `BigIntOperators.LoneMinusDivisor` is BigInt(5) / BigInt("-")).
  `BigIntOperators.DivMod` says what happens with the longer ones.
- `Rehash` to fewer buckets than entries fails halfway (`FlatHashMap.FlatHashMap.Rehash`, if and only if).
- CRC error detection holds exactly for reversible polynomials (`CrcDetection.DetectionExactly` for byte
  windows, `CrcBursts.BurstDetectionExactly` for bursts of bits at any offset).
- Luhn misses exactly the exchange of 0 and 9 (`CheckDigits.LuhnDetectsSwap`).
- A cancellation callback can run twice or never, and its continuation can be scheduled twice, unasked or
  never. The steps after which that can happen to a registration are exactly those that
  `CancellationSteps.Disturbs` names, in every run (`CancellationWitnesses.DisturbsExactly`): registering in
  an object that Cancel is still to fire or to schedule; moving a registration into or out of such an object,
  unless it has nothing left to lose; and swapping the list while a move has copied a registration but not
  yet relinked it. Each is reached by a run from the start (`CancellationExamples`). A caller avoids them
  all by leaving the registrations of a token alone while it is being canceled, Reset excepted
  (`CancellationGuarantees.PeaceIsUndisturbed`).
- A pool worker takes a queue whose next item is an empty WorkItem for empty, and so all workers can come to sleep
  in front of a job that nobody will be notified of. A pool of n workers can lose a wake-up by the time m empty
  items have been submitted if and only if n <= m (`PoolEmptyItems.LossExactly`): fewer never do it
  (`PoolBalance.NoLostWakeup`), and as many as workers suffice in a pool of any size
  (`PoolEmptyItems.EmptyItemsLoseWakeups`).
- Propagation moves the payload of a failure out of the child. So, if the payload is of a type that a move empties,
  a task that awaits a failed task gets its error or message if and only if the failed task was the last of its
  await chain when it failed, that is, its failure went no further, and nobody has taken the payload since
  (`TaskPayloads.AwaitDeliversExactly`). A second awaiter gets one without content
  (`TaskPayloads.SecondAwaiterFindsNothing`), and so does the first to come after a failure that has climbed
  (`TaskPayloads.LateAwaiterFindsNothing`).
- The comment on WhenAny promises that the winner's failure is propagated. The code discards the winner's
  outcome and returns its index, so the comment holds if and only if the winner succeeded
  (`WhenAny.ResultIgnoresOutcome`; `WhenAny.FailedWinnerReturnsIndex` is a run where it does not).
- WhenAny with a context whose executor is not valid faults every watcher before it starts, and suspends its caller
  for ever. Every schedule returns if and only if the executor is valid (`WhenAny.ReturnsExactly`;
  `WhenAny.HangsWithoutExecutor` is the hanging run).

## Model

| member | source | states |
|---|---|---|
| `BigIntLimbs.TrimmedIsUnique` | include/NGIN/Math/BigInt.hpp:656-660 | a stripped limb vector is determined by the integer it denotes, so equal values have equal digits |
| `BigIntDigits.Strip` | include/NGIN/Math/BigInt.hpp:656-660 | stripping zero limbs keeps the value, yields the canonical vector and never drops the last limb |
| `BigIntDigits.AddDigits` | include/NGIN/Math/BigInt.hpp:317-332 | the result denotes the sum, every limb below the base, at most one limb longer; no 64-bit overflow |
| `BigIntDigits.SubtractDigits` | include/NGIN/Math/BigInt.hpp:334-359 | for a minuend not smaller than the subtrahend the result denotes the exact difference, stripped, with no borrow left over |
| `BigIntDigits.MultiplyRow` | include/NGIN/Math/BigInt.hpp:374-384 | one schoolbook row adds a[i] * b * BASE^i; `cur` fits 64 bits, the carry never runs past the vector, the cells above stay zero |
| `BigIntDigits.MultiplySchoolbook` | include/NGIN/Math/BigInt.hpp:371-389 | the schoolbook branch denotes the exact product for vectors of any length, the empty one included |
| `BigIntDigits.AddAtOffset` | include/NGIN/Math/BigInt.hpp:423-433 | adding a part in place adds part * BASE^offset, and limbs stay within 32 bits over all three parts |
| `BigIntDigits.PropagateCarries` | include/NGIN/Math/BigInt.hpp:435-442 | carry propagation keeps the value and leaves no carry behind |
| `BigIntDigits.Split` | include/NGIN/Math/BigInt.hpp:396-404 | a vector is low + high * BASE^half, also when it is shorter than half |
| `BigIntDigits.Recombine` | include/NGIN/Math/BigInt.hpp:419-446 | the three parts fit the result vector and recombine to z0 + z1 * BASE^half + z2 * BASE^(2 half) |
| `BigIntDigits.CombineParts` | include/NGIN/Math/BigInt.hpp:409-446 | both inner subtractions are non-negative and the Karatsuba parts recombine to the product |
| `BigIntDigits.MultiplyDigits` | include/NGIN/Math/BigInt.hpp:361-446 | the exact product for limb vectors of any length through both branches and all recursion depths; terminates because the longer operand shrinks |
| `BigIntSigned.FromUInt64` | include/NGIN/Math/BigInt.hpp:78-96 | the canonical big integer with the given value |
| `BigIntSigned.FromInt64` | include/NGIN/Math/BigInt.hpp:97-128 | the canonical big integer with the given value, also for the most negative one |
| `BigIntSigned.AbsLess` | include/NGIN/Math/BigInt.hpp:637-654 | true exactly if the first magnitude is smaller |
| `BigIntSigned.Less` | include/NGIN/Math/BigInt.hpp:264-272 | `<` is integer order on canonical operands; on all operands, those without limbs included, it says what decides: the sign flags first, which is where a negative zero goes wrong |
| `BigIntSigned.LessOrEqual` | include/NGIN/Math/BigInt.hpp:277-280 | `<=` is integer order on canonical operands, and on all operands what decides |
| `BigIntSigned.EqualityIsNumeric` | include/NGIN/Math/BigInt.hpp:256-259 | `==` of canonical operands is equality of integers, both ways |
| `BigIntSigned.EqualityExactly` | include/NGIN/Math/BigInt.hpp:256-259 | `==` agrees with the integers exactly unless both operands are zero and differ in sign flag or in having limbs |
| `BigIntSigned.Negate` | include/NGIN/Math/BigInt.hpp:245-253 | unary minus negates the integer and never yields a negative zero |
| `BigIntSigned.Add` | include/NGIN/Math/BigInt.hpp:164-179 | `+` denotes the sum of any signed operands and keeps canonical form |
| `BigIntSigned.Subtract` | include/NGIN/Math/BigInt.hpp:182-208 | `-` denotes the difference; on canonical operands the result is canonical unless both are the same negative number |
| `BigIntSigned.Multiply` | include/NGIN/Math/BigInt.hpp:211-218 | `*` denotes the product; on canonical operands the result is canonical unless a zero meets a negative number |
| `BigIntDivision.DivisionIsUnique` | include/NGIN/Math/BigInt.hpp:449-490 | quotient and remainder are determined by a = q * b + r, 0 <= r < b, so the choice of algorithm cannot change them |
| `BigIntDivision.DivByUInt32` | include/NGIN/Math/BigInt.hpp:17-34 | quotient and remainder of the magnitude by a word, without 64-bit overflow; the sign is kept |
| `BigIntDivision.DivModBySingleLimb` | include/NGIN/Math/BigInt.hpp:493-500 | single-limb division is the division of magnitudes |
| `BigIntDivision.NaiveDivMod` | include/NGIN/Math/BigInt.hpp:502-514 | repeated subtraction is the division of magnitudes and terminates |
| `BigIntDivision.NaivePasses` | include/NGIN/Math/BigInt.hpp:502-514 | with a divisor without limbs repeated subtraction is still to go on after any number of passes, having subtracted nothing |
| `BigIntDivision.SearchDigit` | include/NGIN/Math/BigInt.hpp:528-542 | the binary search finds the largest quotient digit, which is below the base; against a divisor without limbs it finds BASE - 1 |
| `BigIntDivision.KnuthDivMod` | include/NGIN/Math/BigInt.hpp:516-552 | limb-by-limb long division is the division of magnitudes; by a number without limbs it returns BASE^n - 1 and the dividend |
| `BigIntDivision.ShiftLeftLimbs` | include/NGIN/Math/BigInt.hpp:597-603 | prepending zero limbs multiplies by BASE^limbs, also for zero |
| `BigIntDivision.SplitBlocks` | include/NGIN/Math/BigInt.hpp:579-594 | the blocks a number is cut into are valid, below BASE^k, enough of them and no more, and together denote the number |
| `BigIntDivision.RunBlocks` | include/NGIN/Math/BigInt.hpp:606-634 | the block loop leaves the division of the whole dividend, whatever the number of blocks |
| `BigIntDivision.FastDivMod` | include/NGIN/Math/BigInt.hpp:554-634 | blockwise division is the division of magnitudes for operands of any size, and fails exactly on a divisor that is zero or has no limbs; which remainders keep the sign |
| `BigIntOperators.RemainderHasDividendSign` | include/NGIN/Math/BigInt.hpp:232-243 | the remainder of truncating division has the dividend's sign and the remainder's magnitude |
| `BigIntOperators.Dispatch` | include/NGIN/Math/BigInt.hpp:468-490 | every size threshold leads to the same quotient and remainder, and what each does with a divisor without limbs |
| `BigIntOperators.DivMod` | include/NGIN/Math/BigInt.hpp:449-490 | on exactly the operands on which division returns: refused exactly for a divisor that is zero, or has no limbs and meets 256 limbs or more; otherwise the quotient truncates toward zero; which remainders come back signed; what division by a number without limbs gives |
| `BigIntOperators.StillDividing` | include/NGIN/Math/BigInt.hpp:468-482 | on all other operands the dispatcher is still in the subtraction loop, however many passes it is given |
| `BigIntOperators.LoneMinusDivisor` | include/NGIN/Math/BigInt.hpp:468-482 | BigInt(5) / BigInt("-") is such a case |
| `BigIntOperators.Divide` | include/NGIN/Math/BigInt.hpp:221-229 | `/` truncates toward zero, canonically; it fails exactly where DivMod does, and its value for a divisor without limbs |
| `BigIntOperators.Modulo` | include/NGIN/Math/BigInt.hpp:232-243 | the magnitude of `%` is always right; its sign is right if and only if the dividend is not a negative number smaller in magnitude than the divisor; it fails exactly where DivMod does |
| `BigIntDecimal.NormalNumeralIsUnique` | include/NGIN/Math/BigInt.hpp:287-304 | two digit strings without leading zeros and with one value are one string |
| `BigIntDecimal.ValueOfText` | include/NGIN/Math/BigInt.hpp:134-161 | the decimal text of an integer reads back as that integer |
| `BigIntDecimal.TextOfValue` | include/NGIN/Math/BigInt.hpp:287-304 | the text of the value of a digit string is the string without leading zeros and without a minus on zero |
| `BigIntDecimal.TextExamples` | include/NGIN/Math/BigInt.hpp:287-304 | -1203 is written as its sign and its digits, highest first, and -0042 read as -42 |
| `BigIntDecimal.Parse` | include/NGIN/Math/BigInt.hpp:134-161 | every optionally signed digit string gives the canonical number it denotes, the empty string zero; of all texts exactly a lone minus gives a number without limbs |
| `BigIntDecimal.Print` | include/NGIN/Math/BigInt.hpp:287-304 | printing gives the decimal text of the denoted integer, with each lower limb padded to nine digits; a number without limbs prints as a zero that keeps its sign |
| `BigIntDecimal.ParsePrinted` | include/NGIN/Math/BigInt.hpp:134-161 | parsing the printed form of a canonical number gives that number back |
| `BigIntDecimal.PrintParsed` | include/NGIN/Math/BigInt.hpp:287-304 | printing a parsed digit string normalises it |
| `ProbeTable.CyclicArithmetic` | include/NGIN/Containers/FlatHashMap.hpp:46-49 | stepping and cyclic distance are arithmetic modulo the capacity |
| `ProbeTable.InsertTable` | include/NGIN/Containers/FlatHashMap.hpp:742-757 | filling the first free bucket from the home keeps every entry reachable and adds exactly one binding |
| `ProbeTable.AssignTable` | include/NGIN/Containers/FlatHashMap.hpp:735-740 | overwriting a value keeps the probe invariant and changes exactly that binding |
| `ProbeTable.ProbeStopsAtFree` | include/NGIN/Containers/FlatHashMap.hpp:678-694 | a probe that meets a free bucket first proves the key absent |
| `ProbeTable.ShiftStart` | include/NGIN/Containers/FlatHashMap.hpp:784-799 | freeing a bucket breaks probe paths only across the hole |
| `ProbeTable.ShiftSkip` | include/NGIN/Containers/FlatHashMap.hpp:801-813 | an entry that may stay leaves nothing to repair up to it |
| `ProbeTable.ShiftMove` | include/NGIN/Containers/FlatHashMap.hpp:801-813 | moving an entry into the hole repairs its path and opens the hole where it was |
| `ProbeTable.ShiftEnd` | include/NGIN/Containers/FlatHashMap.hpp:801-814 | the scan may stop at the first free bucket, across wraparound: all entries are reachable again |
| `ProbeTable.MoveKeepsContents` | include/NGIN/Containers/FlatHashMap.hpp:816-828 | a bucket move keeps the bindings and their number |
| `ProbeTable.RemoveContents` | include/NGIN/Containers/FlatHashMap.hpp:784-794 | freeing the bucket of a key removes exactly that binding |
| `ProbeTable.MoveLowersDisplacement` | include/NGIN/Containers/FlatHashMap.hpp:801-814 | each move lowers the total distance from home, so the shift loop terminates |
| `FlatHashMap.FlatHashMap.SizeIsCardinality` | include/NGIN/Containers/FlatHashMap.hpp:355-356 | the size field is the number of bindings |
| `FlatHashMap.FlatHashMap.constructor` | include/NGIN/Containers/FlatHashMap.hpp:86-96 | an empty map with a power-of-two capacity |
| `FlatHashMap.TargetIsLeast` | include/NGIN/Containers/FlatHashMap.hpp:374-380 | the capacity is the least power of two that is enough and at least the initial one |
| `FlatHashMap.FlatHashMap.FindIndex` | include/NGIN/Containers/FlatHashMap.hpp:678-694 | finds a bucket exactly if the key is bound, and that bucket holds the bound value |
| `FlatHashMap.FlatHashMap.FindInsertSlot` | include/NGIN/Containers/FlatHashMap.hpp:696-709 | the key's bucket, or the first free one from its home, or none exactly when an unbound key meets a full table |
| `FlatHashMap.FlatHashMap.Get` | include/NGIN/Containers/FlatHashMap.hpp:239-249 | the bound value or the missing-key error |
| `FlatHashMap.FlatHashMap.InsertExisting` | include/NGIN/Containers/FlatHashMap.hpp:760-781 | inserts unless the table is full, which is reported |
| `FlatHashMap.FlatHashMap.Rehash` | include/NGIN/Containers/FlatHashMap.hpp:374-403 | keeps all bindings if and only if the new capacity is at least the size; otherwise it fails with part of them |
| `FlatHashMap.FlatHashMap.Reserve` | include/NGIN/Containers/FlatHashMap.hpp:359-369 | keeps the bindings and makes room for the requested number below the load limit |
| `FlatHashMap.FlatHashMap.MaybeGrow` | include/NGIN/Containers/FlatHashMap.hpp:664-669 | keeps the bindings and leaves room for one more entry and a free bucket |
| `FlatHashMap.FlatHashMap.InsertKey` | include/NGIN/Containers/FlatHashMap.hpp:722-758 | the map gains or replaces exactly that binding, a bucket stays free, from every state including a moved-from one |
| `FlatHashMap.FlatHashMap.RemoveKey` | include/NGIN/Containers/FlatHashMap.hpp:784-794 | the map loses exactly that binding; absent keys change nothing |
| `FlatHashMap.FlatHashMap.BackwardShiftFrom` | include/NGIN/Containers/FlatHashMap.hpp:796-814 | restores the probe invariant after a removal across wraparound, keeps all other bindings, terminates |
| `FlatHashMap.FlatHashMap.ClearAll` | include/NGIN/Containers/FlatHashMap.hpp:334-347 | the map becomes empty |
| `FlatHashMap.FlatHashMap.TakeFrom` | include/NGIN/Containers/FlatHashMap.hpp:155-188 | a move hands over the bindings and leaves an empty, usable source |
| `FlatHashMap.FlatHashMap.Do` | include/NGIN/Containers/FlatHashMap.hpp:359-403 | one operation from any state: its effect on the map, and that it fails exactly for a rehash below the size, which leaves a full table |
| `FlatHashMap.FlatHashMap.Run` | include/NGIN/Containers/FlatHashMap.hpp:213-235 | any sequence of insertions, removals, clears, reservations, rehashes and moves, moved-from and full tables included, succeeds if and only if every rehash has room, and then the table denotes the map those operations build |
| `ShardTables.BucketCountForElements` | include/NGIN/Containers/ConcurrentHashMap.hpp:450-457 | a power of two that keeps the load at 3/4 or less |
| `ShardTables.BucketCountIsTight` | include/NGIN/Containers/ConcurrentHashMap.hpp:450-457 | no more buckets than twice what that load takes, or the minimum |
| `ShardTables.CeilDivideCovers` | include/NGIN/Containers/detail/ConcurrentHashMapDetail.hpp:565-569 | the least share of which as many as there are shards make up the whole |
| `HashChains.FindReplacing` | include/NGIN/Containers/ConcurrentHashMap.hpp:630-664 | a clone with one value replaced looks up like the chain with that binding changed |
| `HashChains.FindWithout` | include/NGIN/Containers/ConcurrentHashMap.hpp:666-693 | a clone without a key looks up like the chain without that binding |
| `HashChains.WithoutKeeps` | include/NGIN/Containers/ConcurrentHashMap.hpp:666-693 | cloning without a key keeps keys distinct and drops exactly one entry |
| `HashChains.FindNodeInChain` | include/NGIN/Containers/ConcurrentHashMap.hpp:391-403 | finds exactly the value the chain binds to the key |
| `HashChains.CloneReplacing` | include/NGIN/Containers/ConcurrentHashMap.hpp:630-664 | new nodes throughout, the same entries but for the replaced value |
| `HashChains.CloneWithout` | include/NGIN/Containers/ConcurrentHashMap.hpp:666-693 | new nodes throughout, the same entries but for the removed key |
| `HashChains.CloneWithPrepended` | include/NGIN/Containers/ConcurrentHashMap.hpp:695-707 | new nodes throughout, the new entry before the cloned ones |
| `ShardTables.Rebuild` | include/NGIN/Containers/ConcurrentHashMap.hpp:710-743 | the rebuilt table binds every key as before, in the bucket its hash selects, with new nodes only |
| `ShardTables.RetireChain` | include/NGIN/Containers/ConcurrentHashMap.hpp:594-597 | after a chain is replaced every node is owned exactly once, by a live table or by the retired set |
| `ShardTables.RetireTable` | include/NGIN/Containers/ConcurrentHashMap.hpp:599-602 | the same after a table is replaced |
| `ShardTables.StoreKeepsMap` | include/NGIN/Containers/ConcurrentHashMap.hpp:785-793 | publishing one bucket's clone changes the denoted map in that key only, sizes included |
| `ShardTables.ResizeKeepsMap` | include/NGIN/Containers/ConcurrentHashMap.hpp:745-757 | publishing a rebuilt table keeps the denoted map |
| `ShardTables.ClearKeepsMap` | include/NGIN/Containers/ConcurrentHashMap.hpp:267-292 | publishing an empty table removes exactly that shard's bindings |
| `ConcurrentHashMap.ConcurrentHashMap.constructor` | include/NGIN/Containers/ConcurrentHashMap.hpp:68-84 | all shards empty, with room for the requested number at load 3/4 |
| `ConcurrentHashMap.ConcurrentHashMap.TryGet` | include/NGIN/Containers/ConcurrentHashMap.hpp:240-252 | the bound value or nothing |
| `ConcurrentHashMap.ConcurrentHashMap.EnsureShardCapacity` | include/NGIN/Containers/ConcurrentHashMap.hpp:745-757 | keeps all bindings and makes room at load 3/4 |
| `ConcurrentHashMap.ConcurrentHashMap.Upsert` | include/NGIN/Containers/ConcurrentHashMap.hpp:799-834 | inserts, or combines with the present value; tells which; everything else unchanged |
| `ConcurrentHashMap.ConcurrentHashMap.InsertOrAssign` | include/NGIN/Containers/ConcurrentHashMap.hpp:759-797 | binds the key and tells whether it was absent |
| `ConcurrentHashMap.ConcurrentHashMap.Remove` | include/NGIN/Containers/ConcurrentHashMap.hpp:193-220 | unbinds the key and tells whether it was bound |
| `ConcurrentHashMap.ConcurrentHashMap.Clear` | include/NGIN/Containers/ConcurrentHashMap.hpp:267-292 | every shard in turn is emptied; the size becomes zero |
| `ConcurrentHashMap.ConcurrentHashMap.Reserve` | include/NGIN/Containers/ConcurrentHashMap.hpp:294-303 | keeps all bindings and leaves every shard room, at load 3/4, for its share of the requested number, so that all shards together have room for it |
| `ConcurrentHashMap.InsertKeepsMap` | include/NGIN/Containers/ConcurrentHashMap.hpp:785-797 | an insertion keeps one copy of each key in its shard and bucket and all sizes exact |
| `ConcurrentHashMap.RemoveKeepsMap` | include/NGIN/Containers/ConcurrentHashMap.hpp:212-219 | the same for a removal |
| `ConcurrentReaders.StepKeepsInv` | include/NGIN/Containers/ConcurrentHashMap.hpp:405-421 | every reader, writer and reclaimer step keeps the invariant: published chains never change, an unlinked table shows one past map for ever |
| `ConcurrentReaders.RunKeepsInv` | include/NGIN/Containers/ConcurrentHashMap.hpp:405-421 | the invariant in every state of every run |
| `ConcurrentReaders.LookupIsLinearizable` | include/NGIN/Containers/ConcurrentHashMap.hpp:240-252 | a lookup returns the binding that its key had at some instant between its load of the table pointer and its load of the bucket head |
| `ReaderVisibility.StepChanges` | include/NGIN/Containers/ConcurrentHashMap.hpp:759-797 | what each step does to the binding of each key, in the published table and in the present map alike |
| `ReaderVisibility.PutBinds` | include/NGIN/Containers/ConcurrentHashMap.hpp:780-793 | after a put its key is bound to its value, bound before or not, and every other key as before |
| `ReaderVisibility.EraseUnbinds` | include/NGIN/Containers/ConcurrentHashMap.hpp:193-220 | after an erase its key is unbound and every other key as before |
| `ReaderVisibility.ClearUnbinds` | include/NGIN/Containers/ConcurrentHashMap.hpp:267-292 | after a clear every key is unbound |
| `ReaderVisibility.ResizeChangesNothing` | include/NGIN/Containers/ConcurrentHashMap.hpp:745-757 | a resize changes no binding |
| `ReaderVisibility.ShowsLastWrite` | include/NGIN/Containers/ConcurrentHashMap.hpp:405-421 | at every moment of every run the published table shows for each key what was last written to it |
| `ReaderVisibility.LookupReturnsAWrite` | include/NGIN/Containers/ConcurrentHashMap.hpp:240-252 | a lookup returns the last value written to its key at some instant between its two loads |
| `ReaderVisibility.FinishedPutIsSeen` | include/NGIN/Containers/ConcurrentHashMap.hpp:240-252 | a lookup that starts after a put, with no other write to that key before its second load, returns the value put |
| `ReaderVisibility.WriterCanStore` | include/NGIN/Containers/ConcurrentHashMap.hpp:759-797 | a ready writer can put or erase any key |
| `ReaderVisibility.ReaderCanLookUp` | include/NGIN/Containers/ConcurrentHashMap.hpp:240-252 | an idle reader can run a whole lookup, which gives the present binding if nothing else happens |
| `ConcurrentReaders.ReadersTouchLiveMemory` | include/NGIN/Containers/detail/ConcurrentHashMapDetail.hpp:148-180 | under the epoch reclaimer no reader ever touches a freed table or chain |
| `ReaderVisibility.RetiredCanBeFreed` | include/NGIN/Containers/detail/ConcurrentHashMapDetail.hpp:171-248 | a poll frees what was retired in an epoch that all registered readers have left behind |
| `Crc.BitwiseUpdate` | include/NGIN/Hashing/CRC.hpp:217-250 | the bit-at-a-time engine computes the reference update for every model |
| `Crc.MakeTable0` | include/NGIN/Hashing/CRC.hpp:74-106 | entry i is eight shift-xor steps of the byte i |
| `Crc.TableByteCorrect` | include/NGIN/Hashing/CRC.hpp:163-185 | one table look-up is eight bit steps, reflected or not, for every register width |
| `Crc.TableUpdate` | include/NGIN/Hashing/CRC.hpp:361-371 | the single-table engine equals the bit-at-a-time one on every message and start state |
| `Crc.MakeTables` | include/NGIN/Hashing/CRC.hpp:117-148 | slice k holds 8 (k + 1) steps of each byte |
| `Crc.SliceBlock` | include/NGIN/Hashing/CRC.hpp:297-306 | one eight-byte slicing step equals eight byte updates, for 32-bit and 64-bit registers |
| `Crc.SlicingUpdate` | include/NGIN/Hashing/CRC.hpp:287-342 | the slicing-by-8 engines equal the bit-at-a-time one on every message, with any tail |
| `Crc.BitReverse` | include/NGIN/Hashing/CRC.hpp:54-66 | reverses the bits of a word of any width |
| `Crc.Finalize` | include/NGIN/Hashing/CRC.hpp:400-405 | reflects when input and output reflection differ, then xors; the six rows that follow state what that amounts to |
| `CrcResidue.OppositeOrders` | include/NGIN/Hashing/CRC.hpp:400-405 | models that differ in output order alone give each other's bits reversed, masks apart |
| `CrcResidue.FinalizedBits` | include/NGIN/Hashing/CRC.hpp:400-405 | each bit of the output: the register's, from the other end if the orders differ, masked |
| `CrcResidue.ChecksumLeavesResidue` | include/NGIN/Hashing/CRC.hpp:400-405 | a message with its checksum appended in the order in which the register takes bytes leaves a register that depends on the model alone |
| `CrcResidue.ResidueExactly` | include/NGIN/Hashing/CRC.hpp:400-405 | with a reversible polynomial, no other word of that length does |
| `CrcNumbers.ChecksumNumber` | include/NGIN/Hashing/CRC.hpp:217-250 | for every model and message, the checksum is the number that shifts, exclusive or and reversal of natural numbers give |
| `CrcCheckValues.IeeeCheck` | tests/HashCrcChecksumTests.cpp:43 | CRC-32 of the text 123456789 is 0xCBF43926 |
| `Crc.FinalizedInjective` | include/NGIN/Hashing/CRC.hpp:400-405 | finalizing loses nothing |
| `Crc.UpdateConcat` | include/NGIN/Hashing/CRC.hpp:500-513 | updating with two pieces is updating with their concatenation |
| `Crc.CrcState.Append` | include/NGIN/Hashing/CRC.hpp:500-503 | the state after any pieces stands for their concatenation |
| `Crc.CrcState.Result` | include/NGIN/Hashing/CRC.hpp:515-518 | the checksum of everything appended, in whatever pieces |
| `CrcAlgebra.StepLinear` | include/NGIN/Hashing/CRC.hpp:229-247 | the shift-xor step is linear |
| `CrcAlgebra.BlockIsSum` | include/NGIN/Hashing/CRC.hpp:297-306 | a block update is the sum of its bytes' separate contributions |
| `CrcDetection.ChecksumDetects` | include/NGIN/Hashing/CRC.hpp:400-405 | with a reversible polynomial, changing a message inside any window of the register's width changes the finalized checksum |
| `CrcDetection.ChecksumMisses` | include/NGIN/Hashing/CRC.hpp:229-247 | without one, two messages of the register's width collide |
| `CrcDetection.DetectionExactly` | include/NGIN/Hashing/CRC.hpp:229-247 | window errors are always detected if and only if the polynomial has its top (reflected) or low bit set |
| `CrcBursts.ChecksumDetectsBurst` | include/NGIN/Hashing/CRC.hpp:229-247 | with a reversible polynomial, changing at most as many consecutive bits as the register has, at any bit offset and in the order in which the register takes them, changes the finalized checksum |
| `CrcBursts.BurstDetectionExactly` | include/NGIN/Hashing/CRC.hpp:229-247 | all such bursts are detected if and only if the polynomial is reversible |
| `Adler.ChunkFits` | include/NGIN/Hashing/Checksum.hpp:556-557 | 5552 bytes from reduced sums stay within 32 bits |
| `Adler.Adler32State.AddChunk` | include/NGIN/Hashing/Checksum.hpp:519-530 | a chunk without reductions inside stays in range and stands for the bytes consumed |
| `Adler.Adler32State.Update` | include/NGIN/Hashing/Checksum.hpp:514-533 | after any pieces the state is the Adler-32 sums of their concatenation |
| `Adler.Adler32State.UpdateByte` | include/NGIN/Hashing/Checksum.hpp:533-537 | reducing after each byte gives the same state |
| `Adler.Adler32State.Finalize` | include/NGIN/Hashing/Checksum.hpp:539-542 | the Adler-32 value of everything consumed |
| `Adler.ClosedForms` | include/NGIN/Hashing/Checksum.hpp:514-533 | the two sums: one plus the bytes, and each byte as often as there are bytes from it to the end |
| `Adler.LargestChunk` | include/NGIN/Hashing/Checksum.hpp:556-557 | 5552 is the largest number of bytes that can go unreduced |
| `Adler.AdlerCheck` | tests/HashCrcChecksumTests.cpp:63 | Adler-32 of the text 123456789 is 0x091E01DE |
| `WordChecksums.FoldUInt32ToUInt16` | include/NGIN/Hashing/Checksum.hpp:78-83 | folding is reduction modulo 65535 with 65535 in place of 0 for positive sums |
| `WordChecksums.OnesSumIsResidue` | include/NGIN/Hashing/Checksum.hpp:78-83 | the folded sum is the total modulo 65535, and zero for the empty total alone |
| `WordChecksums.ChecksumVerifies` | include/NGIN/Hashing/Checksum.hpp:456-463 | a message of even length with its Internet checksum appended has checksum 0 |
| `WordChecksums.Checksum16State.AddWord` | include/NGIN/Hashing/Checksum.hpp:478-482 | the sum stays within 16 bits and is the one's-complement sum |
| `WordChecksums.Checksum16State.Update` | include/NGIN/Hashing/Checksum.hpp:422-447 | any division into pieces, odd ones included, gives the state of the whole |
| `WordChecksums.Checksum16State.Finalize` | include/NGIN/Hashing/Checksum.hpp:456-463 | the complement of the one's-complement sum, an odd byte padded with zero |
| `WordChecksums.Fletcher32State.Update` | include/NGIN/Hashing/Checksum.hpp:637-662 | any division into pieces, odd ones included, gives the state of the whole |
| `WordChecksums.Fletcher32State.Finalize` | include/NGIN/Hashing/Checksum.hpp:671-683 | both sums modulo 65535 of the padded message |
| `WordChecksums.SumOfSumsIsWeighted` | include/NGIN/Hashing/Checksum.hpp:637-662 | the second sum counts each word as often as there are words from it to the end |
| `WordChecksums.PaddingIsSilent` | include/NGIN/Hashing/Checksum.hpp:456-463 | a zero byte after an odd number of bytes changes neither checksum |
| `WordChecksums.WordChecks` | tests/HashCrcChecksumTests.cpp:62-65 | of the text 123456789 the Internet checksum is 0xF62A and Fletcher-32 0x09DF09D5 |
| `CheckDigits.DistinctDigitsSeparate` | include/NGIN/Hashing/Checksum.hpp:787-798 | rows of the Damm table are permutations and the table is totally anti-symmetric |
| `CheckDigits.Damm` | include/NGIN/Hashing/Checksum.hpp:858-871 | the fold of the table over the digits, or the marker exactly for a string with a non-digit |
| `CheckDigits.DammDetectsChange` | include/NGIN/Hashing/Checksum.hpp:858-871 | every single-digit change changes the digit, at any length |
| `CheckDigits.DammDetectsSwap` | include/NGIN/Hashing/Checksum.hpp:858-871 | every exchange of adjacent distinct digits changes the digit |
| `CheckDigits.DammCompletes` | include/NGIN/Hashing/Checksum.hpp:858-871 | a number with a digit appended has check digit 0 exactly if that digit was its check digit |
| `CheckDigits.DammCheck` | tests/HashCrcChecksumTests.cpp:69 | 572 has Damm digit 4 |
| `CheckDigits.Luhn` | include/NGIN/Hashing/Checksum.hpp:802-825 | ten's complement of the alternating sum, or the marker exactly for a string with a non-digit |
| `CheckDigits.LuhnDetectsChange` | include/NGIN/Hashing/Checksum.hpp:802-825 | every single-digit change changes the digit |
| `CheckDigits.LuhnDetectsSwap` | include/NGIN/Hashing/Checksum.hpp:802-825 | an exchange of adjacent distinct digits goes unnoticed exactly for 0 and 9 |
| `CheckDigits.LuhnCompletes` | include/NGIN/Hashing/Checksum.hpp:802-825 | the digit is the only one that completes the number to a multiple of ten |
| `CheckDigits.LuhnCheck` | tests/HashCrcChecksumTests.cpp:67 | 7992739871 has Luhn digit 3 |
| `CancellationList.SwapRemoveKeepsOthers` | include/NGIN/Async/Cancellation.hpp:169-180 | swap-removal removes one entry and no other |
| `CancellationList.CancellationState.TryRegister` | include/NGIN/Async/Cancellation.hpp:146-160 | appends at the index it stores, unless the flag is set |
| `CancellationList.CancellationState.Unregister` | include/NGIN/Async/Cancellation.hpp:162-197 | removes the registration wherever it is, and every other listed index stays its position |
| `CancellationList.CancellationState.Relink` | include/NGIN/Async/Cancellation.hpp:452-471 | puts the moved-to object in the moved-from one's place, whatever index was copied |
| `CancellationList.CancellationState.Cancel` | include/NGIN/Async/Cancellation.hpp:199-211 | the first call sets the flag and takes the whole list, every later one takes nothing |
| `CancellationInvariant.StepKeepsInv` | include/NGIN/Async/Cancellation.hpp:299-346 | every step of Register, Reset, moves and Cancel keeps the invariant tying each callback to one place or one outcome |
| `CancellationInvariant.RunKeepsInv` | include/NGIN/Async/Cancellation.hpp:146-220 | the invariant in every state of every run |
| `CancellationGuarantees.RegisterEffects` | include/NGIN/Async/Cancellation.hpp:146-160 | Register is listed exactly while the flag is not set, and left to run its callback otherwise |
| `CancellationGuarantees.CancelEffects` | include/NGIN/Async/Cancellation.hpp:199-220 | Cancel takes the whole list once and fires it in order |
| `CancellationGuarantees.StepEffects` | include/NGIN/Async/Cancellation.hpp:496-511 | which steps call a callback, when it counts as asking for its continuation, and when a refused Register schedules it |
| `CancellationGuarantees.AtMostOnce` | include/NGIN/Async/Cancellation.hpp:199-220 | an undisturbed callback runs at most once and its continuation is scheduled at most once, and only if the callback asked for it, at every moment of every run |
| `CancellationGuarantees.ExactlyOnce` | include/NGIN/Async/Cancellation.hpp:199-220 | when the winning Cancel has finished, every undisturbed registration that was not reset has been served exactly once, listed or refused: the callback once, the continuation once if it is wanted and asked for |
| `CancellationGuarantees.NothingBeforeCancel` | include/NGIN/Async/Cancellation.hpp:199-206 | no callback runs before the flag is set |
| `CancellationGuarantees.ResetInTimeNeverRuns` | include/NGIN/Async/Cancellation.hpp:480-494 | a callback whose Reset takes the lock before the swap never runs |
| `CancellationGuarantees.IndexIsPosition` | include/NGIN/Async/Cancellation.hpp:146-197 | until the swap every listed registration's index is its position, and the attached registrations are listed |
| `CancellationGuarantees.PeaceIsUndisturbed` | include/NGIN/Async/Cancellation.hpp:199-220 | for callers: if no move is in progress when Cancel sets the flag, and none and no Register begins before it has finished, nothing is disturbed |
| `CancellationWitnesses.UndisturbedIsRight` | include/NGIN/Async/Cancellation.hpp:199-220 | an undisturbed registration that was not reset never goes wrong: called or scheduled twice, scheduled unasked, or lost |
| `CancellationWitnesses.DisturbsExactly` | include/NGIN/Async/Cancellation.hpp:199-220 | after every run, a next step allows a registration to go wrong, whatever else happens, if and only if that step disturbs it |
| `CancellationWitnesses.DisturbanceGoesWrong` | include/NGIN/Async/Cancellation.hpp:442-478 | from every reachable state each disturbing step has a continuation in which the registration goes wrong |
| `CancellationWitnesses.StoreGoesWrong` | include/NGIN/Async/Cancellation.hpp:299-325 | registering in an object that Cancel is about to fire, or to schedule: served a second time |
| `CancellationWitnesses.MoveIntoGoesWrong` | include/NGIN/Async/Cancellation.hpp:442-478 | moving a registration into an object that is still to be fired: called twice |
| `CancellationWitnesses.MoveAwayGoesWrong` | include/NGIN/Async/Cancellation.hpp:442-478 | moving one that is still to be fired: never called |
| `CancellationWitnesses.MoveFromCurrentGoesWrong` | include/NGIN/Async/Cancellation.hpp:442-478 | moving one between its callback and the scheduling it asked for: never scheduled |
| `CancellationWitnesses.MoveIntoCurrentGoesWrong` | include/NGIN/Async/Cancellation.hpp:442-478 | moving an armed one into the object about to be scheduled: scheduled unasked or twice |
| `CancellationWitnesses.MoveBareGoesWrong` | include/NGIN/Async/Cancellation.hpp:442-478 | moving one without a callback, still armed, to where Cancel will not come: never scheduled |
| `CancellationWitnesses.SwapGoesWrong` | include/NGIN/Async/Cancellation.hpp:207-211 | swapping the list while a move has copied but not yet relinked: lost |
| `CancellationExamples.ReuseHappens` | include/NGIN/Async/Cancellation.hpp:299-325 | a run from the start that reaches the reuse of an object still to be fired |
| `CancellationExamples.ReuseOfCurrentHappens` | include/NGIN/Async/Cancellation.hpp:496-511 | a run from the start that reaches the reuse of the object about to be scheduled |
| `CancellationExamples.MoveAwayHappens` | include/NGIN/Async/Cancellation.hpp:442-478 | a run from the start that reaches the move of a registration still to be fired |
| `CancellationExamples.MoveIntoHappens` | include/NGIN/Async/Cancellation.hpp:442-478 | a run from the start that reaches the move of a fired one into an object still to be fired |
| `CancellationExamples.MoveFromCurrentHappens` | include/NGIN/Async/Cancellation.hpp:442-478 | a run from the start that reaches the move out of the object about to be scheduled |
| `CancellationExamples.MoveIntoCurrentHappens` | include/NGIN/Async/Cancellation.hpp:442-478 | a run from the start that reaches the move into it |
| `CancellationExamples.SwapHappens` | include/NGIN/Async/Cancellation.hpp:207-211 | a run from the start that reaches the swap in the middle of a move |
| `PoolQueue.WorkerQueue.Push` | include/NGIN/Execution/ThreadPoolScheduler.hpp:230-234 | appends at the back of the deque |
| `PoolQueue.WorkerQueue.TryPop` | include/NGIN/Execution/ThreadPoolScheduler.hpp:236-251 | takes the newest item of the deque, or nothing from an empty one |
| `PoolQueue.WorkerQueue.TrySteal` | include/NGIN/Execution/ThreadPoolScheduler.hpp:253-280 | takes the oldest item, through head advance and compaction, and bounds the dead prefix |
| `PoolQueue.WorkerQueue.Compact` | include/NGIN/Execution/ThreadPoolScheduler.hpp:267-277 | the copy loop moves exactly the live items to the front |
| `PoolQueue.WorkerQueue.TryDequeueInjection` | include/NGIN/Execution/ThreadPoolScheduler.hpp:313-328 | takes the oldest item |
| `PoolSteps.TargetOfPosition` | include/NGIN/Execution/ThreadPoolScheduler.hpp:344-370 | a worker's scan tries every queue |
| `PoolDelivery.ScanOrder` | include/NGIN/Execution/ThreadPoolScheduler.hpp:344-370 | a worker takes the newest item of its own deque first, then the oldest of the injection queue, then of the others in cyclic order |
| `PoolDelivery.StealsInOrder` | include/NGIN/Execution/ThreadPoolScheduler.hpp:253-280 | stealing a whole queue yields the items in the order in which they were pushed |
| `PoolDelivery.PopsInReverse` | include/NGIN/Execution/ThreadPoolScheduler.hpp:236-251 | popping it yields them in the opposite order |
| `PoolWakeup.NotifyEffects` | include/NGIN/Execution/ThreadPoolScheduler.hpp:82-90 | every notification advances the generation, for NotifyAll too, and is used up by one wake-up |
| `PoolWakeup.SleepEffects` | include/NGIN/Execution/ThreadPoolScheduler.hpp:441-455 | a worker sleeps exactly on the generation it has seen, and wakes only when told to, or spuriously |
| `PoolWakeup.StepKeepsInv` | include/NGIN/Execution/ThreadPoolScheduler.hpp:425-460 | every step keeps: an item in a queue that a worker with the current generation has passed is still owed a notification, and all workers sleep on an old generation only while a wake-up is on its way |
| `PoolWakeup.EveryItemIsOwed` | include/NGIN/Execution/ThreadPoolScheduler.hpp:425-460 | with only non-empty items submitted, all workers sleep in front of a queued item only if a notification is owed; with no wake-up on its way, every item of that queue is itself still owed one |
| `PoolWakeup.NobodySleepsOnWork` | include/NGIN/Execution/ThreadPoolScheduler.hpp:441-455 | a worker that falls asleep leaves no item in any queue but those whose own Execute call has yet to notify |
| `PoolBalance.StepKeepsBalance` | include/NGIN/Execution/ThreadPoolScheduler.hpp:344-370 | every step keeps: each empty item submitted misleads at most one worker, and the awake workers that are not misled, with the wake-ups and notifications of empty items on their way, outnumber the empty items queued while a notified job waits |
| `PoolBalance.NoLostWakeup` | include/NGIN/Execution/ThreadPoolScheduler.hpp:425-460 | in no state reached with fewer empty items than workers are all workers asleep while a job is queued and no notification is owed |
| `PoolEmptyItems.EmptyItemsLoseWakeups` | include/NGIN/Execution/ThreadPoolScheduler.hpp:344-370 | in a pool of any size, a run with as many empty items as workers that ends with all asleep, a job queued, nothing owed |
| `PoolEmptyItems.LossExactly` | include/NGIN/Execution/ThreadPoolScheduler.hpp:344-370 | a pool of n workers can lose a wake-up with at most m empty items if and only if n <= m |
| `PoolConservation.StepKeepsCopies` | include/NGIN/Execution/ThreadPoolScheduler.hpp:82-108 | every step moves items and creates none but those submitted |
| `PoolConservation.ExactlyOnePlace` | include/NGIN/Execution/ThreadPoolScheduler.hpp:82-139 | every non-empty item submitted is always in exactly one of timer heap, timer's ready list, a call in progress, the queues, taken or discarded |
| `PoolDelivery.OnlyCancelDiscards` | include/NGIN/Execution/ThreadPoolScheduler.hpp:128-139 | only CancelAll discards anything, and only what it finds in a queue or in the heap |
| `PoolDelivery.SubmittedIsDelivered` | include/NGIN/Execution/ThreadPoolScheduler.hpp:82-139 | over every run a submitted job that no CancelAll found is on its way in exactly one place, or has been taken exactly once |
| `PoolDelivery.FromCaller` | include/NGIN/Execution/ThreadPoolScheduler.hpp:82-108 | Execute makes a call, ExecuteAt a heap entry with its time |
| `PoolDelivery.FromHeap` | include/NGIN/Execution/ThreadPoolScheduler.hpp:384-389 | a timed item leaves the heap for the ready list, when its time has come and none is earlier, or is discarded with the heap |
| `PoolDelivery.FromReady` | include/NGIN/Execution/ThreadPoolScheduler.hpp:398-401 | the oldest ready item becomes an Execute call on the injection queue, and the others wait |
| `PoolDelivery.FromCall` | include/NGIN/Execution/ThreadPoolScheduler.hpp:82-92 | a call pushes its item at the back of its queue |
| `PoolDelivery.FromQueue` | include/NGIN/Execution/ThreadPoolScheduler.hpp:236-280 | a queued job stays, is taken, or is discarded with its queue |
| `PoolDelivery.TakenIsRun` | include/NGIN/Execution/ThreadPoolScheduler.hpp:425-455 | what a worker takes it runs, and what it runs it has taken |
| `PoolDelivery.TimedJobRuns` | include/NGIN/Execution/ThreadPoolScheduler.hpp:372-401 | in a pool of any size, a timed job passes every station and is run |
| `PoolConservation.StepKeepsDue` | include/NGIN/Execution/ThreadPoolScheduler.hpp:372-401 | each step keeps everything outside the heap due |
| `PoolConservation.NothingRunsEarly` | include/NGIN/Execution/ThreadPoolScheduler.hpp:94-108 | no item is queued or taken before its due time |
| `TaskEffects.EndingCalls` | include/NGIN/Async/Task.hpp:413-449 | a task that returns ends as what it returned, and one whose await is canceled as canceled |
| `TaskEffects.StartCalls` | include/NGIN/Async/Task.hpp:745-772 | a start gives the task to the executor once, or faults it with invalid usage |
| `TaskEffects.RefusedAwaits` | include/NGIN/Async/Task.hpp:774-800 | an await of no task, or of one already awaited, faults the awaiting task, with which code |
| `TaskEffects.LinkingAwaits` | include/NGIN/Async/Task.hpp:801-830 | an await of an unfinished task links the two and starts the awaited one, or faults that without an executor |
| `TaskEffects.LateAwaits` | include/NGIN/Async/Task.hpp:783-792 | an await of a finished task goes on, or fails as that task did |
| `TaskEffects.FaultClimbs` | include/NGIN/Async/Task.hpp:192-214 | a fault that climbs stays a fault of its code below, without its message, and is the same fault above |
| `TaskPromises.TaskRuntime.SetCompletion` | include/NGIN/Async/Task.hpp:159-165 | an outcome is recorded once |
| `TaskPromises.TaskRuntime.MarkFinishedAndResume` | include/NGIN/Async/Task.hpp:100-131 | finishes the promise and settles its continuation, moving a failure's payload upward; the recursion through the handler terminates because fewer promises are unfinished |
| `TaskPromises.TaskRuntime.PropagateFromChild` | include/NGIN/Async/Task.hpp:192-214 | the parent records the child's failure unless it has an outcome, and the child's payload is moved out either way |
| `TaskPromises.TaskRuntime.PropagateChildCompletion` | include/NGIN/Async/Task.hpp:854-875 | a finished parent is left alone, a success resumes it, a failure finishes it and climbs on |
| `TaskPromises.TaskRuntime.AwaitSuspend` | include/NGIN/Async/Task.hpp:774-830 | all six ways an await can go, with the faults of a missing task, a second continuation and a missing executor; a failed task hands on what payload it has left |
| `TaskPromises.TaskRuntime.AwaitResume` | include/NGIN/Async/Task.hpp:589-595 | a successful await moves the value out of the child |
| `TaskPromises.TaskRuntime.AwaitOperation` | include/NGIN/Async/Task.hpp:1517-1546 | links a continuation that will get the outcome as a value, or faults on a second one |
| `TaskPromises.TaskRuntime.StartWithExecutor` | include/NGIN/Async/Task.hpp:745-772 | starts once; without an executor the task faults |
| `TaskPromises.TaskRuntime.CancelAwaitingContinuation` | include/NGIN/Async/Task.hpp:895-914 | cancels the awaiting task unless it has finished |
| `TaskPromises.TaskRuntime.Return` | include/NGIN/Async/Task.hpp:413-449 | records the outcome and settles |
| `TaskPromises.Operation.TryTakeResult` | include/NGIN/Async/Task.hpp:1478-1487 | hands out the outcome of a finished task once, emptying its payload, and nothing before or after |
| `TaskGuarantees.EmptiedIsSpent` | include/NGIN/Async/Task.hpp:200-212 | moving a payload out leaves the kind of the outcome and the code of a fault |
| `TaskGuarantees.SettleExtends` | include/NGIN/Async/Task.hpp:100-131 | a settlement never changes a recorded outcome's kind, or the code of a fault, a link or a finished flag, can only empty a payload, and finishes its promise |
| `TaskGuarantees.FailureClimbs` | include/NGIN/Async/Task.hpp:854-875 | when the first task of a maximal await chain of any depth fails, every task of the chain finishes with that kind of failure, the payload rests with exactly the last one, and every other promise is unchanged |
| `TaskGuarantees.FailureResumes` | include/NGIN/Async/Task.hpp:854-875 | the executor gets nothing but the continuation of that last task, and only if it awaits an Operation |
| `TaskGuarantees.SuccessResumesParent` | include/NGIN/Async/Task.hpp:854-875 | a success changes one promise and hands its continuation to the executor unless that has finished |
| `TaskGuarantees.ApplyKeepsInv` | include/NGIN/Async/Task.hpp:100-131 | every call keeps: finished exactly if the outcome is recorded, finished once, resumed and launched at most once |
| `TaskGuarantees.HistoryKeepsInv` | include/NGIN/Async/Task.hpp:100-131 | the same over every sequence of calls |
| `TaskGuarantees.OutcomesAreWrittenOnce` | include/NGIN/Async/Task.hpp:159-165 | over every sequence of calls the kinds of recorded outcomes, links and finished flags never change, and a payload changes only by being moved out |
| `TaskGuarantees.CompleteClimbs` | include/NGIN/Async/Task.hpp:192-213 | the same in every reachable state for a task that ends with an error, a fault or a cancellation: the exact effect on every promise |
| `TaskGuarantees.CompleteChangesOnlyTheChain` | include/NGIN/Async/Task.hpp:192-213 | whatever the end of a task changes, with any outcome, lies on an await chain that starts with it |
| `TaskPayloads.PayloadStep` | include/NGIN/Async/Task.hpp:192-214 | a call empties the payload of a finished task exactly if it is one that takes it |
| `TaskPayloads.PayloadIffUntaken` | include/NGIN/Async/Task.hpp:192-214 | over every sequence of calls a finished task keeps its payload if and only if no call has taken it |
| `TaskPayloads.AwaitDelivers` | include/NGIN/Async/Task.hpp:783-792 | an await of a finished failed task gives the last task of the chain above the awaiting one what that task has left |
| `TaskPayloads.AwaitDeliversWhatIsLeft` | include/NGIN/Async/Task.hpp:783-792 | an await of a finished failed task hands on what that task had at any earlier moment after its end, if and only if nobody has taken it since |
| `TaskPayloads.EndedChain` | include/NGIN/Async/Task.hpp:774-830 | every call that finishes a task ends a maximal await chain, and which task it ends first and with which outcome |
| `TaskPayloads.PayloadAtTheEnd` | include/NGIN/Async/Task.hpp:192-213 | a task that ends with a failure keeps the payload if and only if it is the last of that chain |
| `TaskPayloads.AwaitDeliversExactly` | include/NGIN/Async/Task.hpp:783-792 | from the call that ends a task: a later await of it delivers the payload it failed with if and only if the task was the last of its chain and nobody has taken the payload since |
| `TaskPayloads.LateAwaiterFindsNothing` | include/NGIN/Async/Task.hpp:854-875 | a run of six calls in which a failure climbs to a task that awaited it, and an await after that gets an error without content though nobody has taken anything |
| `TaskPayloads.SecondAwaiterFindsNothing` | include/NGIN/Async/Task.hpp:783-792 | a run of six calls in which two tasks await one failed task and the second gets an error without content |
| `WhenAny.SharedState.SetContinuation` | include/NGIN/Async/WhenAny.hpp:32-42 | registers the awaiter unless a child has completed |
| `WhenAny.SharedState.Complete` | include/NGIN/Async/WhenAny.hpp:44-58 | the first completion records its index and says whether to resume; later ones change nothing |
| `WhenAny.StepKeepsInv` | include/NGIN/Async/WhenAny.hpp:32-96 | every interleaving step keeps the invariant on winner, owed resumption and awaiter |
| `WhenAny.OneIndexForever` | include/NGIN/Async/WhenAny.hpp:44-58 | exactly one index is recorded and it never changes |
| `WhenAny.WinnerCameFirst` | include/NGIN/Async/WhenAny.hpp:44-58 | it is the index of the first watcher to complete |
| `WhenAny.ResumedOnceAfterWinner` | include/NGIN/Async/WhenAny.hpp:59-69 | a resumption meets a suspended awaiter, after the winner is recorded, and happens at most once |
| `WhenAny.ResultIgnoresOutcome` | include/NGIN/Async/WhenAny.hpp:102-108 | the awaiter returns the winner's index whatever its outcome, so the result is the documented one if and only if the winner succeeded |
| `WhenAny.FailedWinnerReturnsIndex` | include/NGIN/Async/WhenAny.hpp:102-108 | a run in which the winner failed and the awaiter returns a value |
| `WhenAny.EveryScheduleReturns` | include/NGIN/Async/WhenAny.hpp:81-96 | every schedule is finite; one that cannot go on has returned the recorded index if the executor is valid, and otherwise leaves the awaiter suspended |
| `WhenAny.ReturnsExactly` | include/NGIN/Async/WhenAny.hpp:133-137 | every schedule that cannot go on has returned if and only if the executor is valid |
| `WhenAny.HangsWithoutExecutor` | include/NGIN/Async/Task.hpp:1930-1964 | for any number of children, the run in which an invalid executor leaves the awaiter suspended for ever |

## Left out

- C++ memory ordering: all protocols are modelled as sequentially consistent interleavings.
- Allocation failure, exceptions thrown by user types, placement new, destructors and coroutine frame lifetime.
- Sizes near the top of size_t, and the rounding of load factors computed in double (Reserve for 2^51 entries or more).
- FlatHashMap: copying, iterators, references and heterogeneous lookup; element-wise move assignment.
- ConcurrentHashMap: the hazard-pointer and manual reclaimers, ForEach and snapshots; a null chain is an empty chain; bucket selection by mask is written as a remainder.
- ConcurrentReaders.LookupIsLinearizable: states the result for one shard, which is all a lookup touches; the sizes of several shards are not read atomically.
- BigIntDecimal.Parse: of text with characters other than digits after an optional minus, which the source accepts and turns into meaningless limbs, only the presence of limbs is stated.
- CRC presets and overloads: they instantiate the engines modelled here.
- CheckDigits.Luhn: the sum is unbounded where the source uses int, which overflows past about 238 million digits.
- Verhoeff digits, BSD, SysV, sum and xor checksums and Fletcher-16: not modelled.
- CancellationInvariant.StepKeepsInv: a registration object destroyed while Cancel still holds a pointer to it is not modelled, only its Reset is; one cancellation state is modelled, so linked sources are not; each registration is identified by a ticket of its own.
- CancelAt and CancelAfter: timers and clocks.
- PoolBalance.NoLostWakeup: the wake generation is unbounded where the source wraps at 2^32, and the destructor and its stop flag are not modelled.
- PoolSteps: the timer heap is a collection whose earliest entry can be taken; the heap algorithm of the standard library and the timer thread's own sleep are not modelled.
- TaskGuarantees.FailureClimbs: every call runs to completion on one thread, so the race between setting a continuation and finishing is not covered.
- TaskPromises: a payload type either stays in a place it is moved out of or leaves that place empty, and a moved-out fault message is empty; a continuation resumed inline for lack of an executor counts as handed to the executor; captured exception pointers and detached frames are not modelled.
- WhenAny.ResultIgnoresOutcome: the early return of a call whose context is already canceled is not modelled.
- WhenAny.EveryScheduleReturns: a schedule that never lets a child complete is not one that cannot go on.
- IO, networking, serialization, threads and fibers, units and time: wrappers and interfaces that would only add easy members.

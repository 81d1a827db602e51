/**
 * What the steps of a shard's writer mean to its readers: the effect of each write on every key, that a lookup which
 * starts after a write sees it, and that retired memory can be freed as soon as no reader is left that might hold it.
 */
module ReaderVisibility {
  import opened Options
  import opened HashChains
  import opened ConcurrentReaders

  // ----- the effect of one write

  /** The binding of x in the present map, which is what the current table shows for it. */
  ghost predicate Binds<K(!new), V>(s: State<K, V>, hash: K -> nat, x: K, binding: Option<V>) {
    && |s.history| > 0 && WellFormedTable(s, s.current)
    && Shows(s, s.current, hash, x) == binding
    && (x in Now(s) <==> binding.Some?) && (x in Now(s) ==> Some(Now(s)[x]) == binding)
  }

  lemma BindsOne<K(!new), V>(s: State<K, V>, hash: K -> nat, x: K) returns (binding: Option<V>)
    requires Inv(s, hash)
    ensures Binds(s, hash, x, binding)
  {
    binding := Shows(s, s.current, hash, x);
  }

  /** The binding of x after a step, given the one before it. */
  function After<K(==), V>(step: Step<K, V>, x: K, binding: Option<V>): Option<V> {
    match step
    case Put(k, v) => if x == k then Some(v) else binding
    case Erase(k) => if x == k then None else binding
    case Clear => None
    case _ => binding
  }

  /** A put binds its key to its value, whether the key was bound or not; an erase unbinds its key; a clear unbinds
      all; no other step changes a binding, a resize included. */
  lemma StepChanges<K(!new), V>(s: State<K, V>, s': State<K, V>, hash: K -> nat, step: Step<K, V>, x: K,
                                binding: Option<V>)
    requires Inv(s, hash) && Enabled(s, s', hash, step) && Binds(s, hash, x, binding)
    ensures Binds(s', hash, x, After(step, x, binding))
  {
    StepKeepsInv(s, s', hash, step);
    var now := BindsOne(s', hash, x);
    assert Shows(s', s'.current, hash, x) == Bound(Now(s'), x);
  }

  lemma PutBinds<K(!new), V>(s: State<K, V>, s': State<K, V>, hash: K -> nat, k: K, v: V)
    requires Inv(s, hash) && Enabled(s, s', hash, Put(k, v))
    ensures Binds(s', hash, k, Some(v))
    ensures forall x: K, b: Option<V> :: x != k && Binds(s, hash, x, b) ==> Binds(s', hash, x, b)
  {
    var before := BindsOne(s, hash, k);
    StepChanges(s, s', hash, Put(k, v), k, before);
    forall x: K, b: Option<V> | x != k && Binds(s, hash, x, b)
      ensures Binds(s', hash, x, b)
    {
      StepChanges(s, s', hash, Put(k, v), x, b);
    }
  }

  lemma EraseUnbinds<K(!new), V>(s: State<K, V>, s': State<K, V>, hash: K -> nat, k: K)
    requires Inv(s, hash) && Enabled(s, s', hash, Erase(k))
    ensures Binds(s', hash, k, None)
    ensures forall x: K, b: Option<V> :: x != k && Binds(s, hash, x, b) ==> Binds(s', hash, x, b)
  {
    var before := BindsOne(s, hash, k);
    StepChanges(s, s', hash, Erase(k), k, before);
    forall x: K, b: Option<V> | x != k && Binds(s, hash, x, b)
      ensures Binds(s', hash, x, b)
    {
      StepChanges(s, s', hash, Erase(k), x, b);
    }
  }

  lemma ClearUnbinds<K(!new), V>(s: State<K, V>, s': State<K, V>, hash: K -> nat, x: K)
    requires Inv(s, hash) && Enabled(s, s', hash, Clear)
    ensures Binds(s', hash, x, None)
  {
    var before := BindsOne(s, hash, x);
    StepChanges(s, s', hash, Clear, x, before);
  }

  lemma ResizeChangesNothing<K(!new), V>(s: State<K, V>, s': State<K, V>, hash: K -> nat, n: nat, x: K, b: Option<V>)
    requires Inv(s, hash) && Enabled(s, s', hash, Resize(n)) && Binds(s, hash, x, b)
    ensures Binds(s', hash, x, b)
  {
    StepChanges(s, s', hash, Resize(n), x, b);
  }

  // ----- over whole runs

  /** The last write to x before state i, counting from nothing bound. */
  ghost function Written<K, V>(steps: seq<Step<K, V>>, i: nat, x: K): Option<V>
    requires i <= |steps|
  {
    if i == 0 then None else After(steps[i - 1], x, Written(steps, i - 1, x))
  }

  /** At every moment the current table shows for every key what was last written to it. */
  lemma {:induction false} ShowsLastWrite<K(!new), V>(states: seq<State<K, V>>, steps: seq<Step<K, V>>,
      hash: K -> nat, i: nat, x: K)
    requires Run(states, steps, hash) && i < |states|
    ensures Binds(states[i], hash, x, Written(steps, i, x))
  {
    if i == 0 {
      StartsUnbound(states[0], hash, x);
    } else {
      ShowsLastWrite(states, steps, hash, i - 1, x);
      RunKeepsInv(states, steps, hash, i - 1);
      StepChanges(states[i - 1], states[i], hash, steps[i - 1], x, Written(steps, i - 1, x));
    }
  }

  lemma StartsUnbound<K(!new), V>(s: State<K, V>, hash: K -> nat, x: K)
    requires Init(s, hash)
    ensures Binds(s, hash, x, None)
  {
    InitKeeps(s, hash);
    var binding := BindsOne(s, hash, x);
    assert Bound(Now(s), x) == None;
  }

  lemma {:induction false} WrittenStays<K, V>(steps: seq<Step<K, V>>, i: nat, j: nat, x: K)
    requires i <= j <= |steps|
    requires forall k :: i <= k < j ==> After(steps[k], x, Written(steps, i, x)) == Written(steps, i, x)
    ensures Written(steps, j, x) == Written(steps, i, x)
    decreases j
  {
    if i < j {
      WrittenStays(steps, i, j - 1, x);
    }
  }

  /** A lookup returns the last value written to its key at some moment between its two loads. */
  lemma LookupReturnsAWrite<K(!new), V>(states: seq<State<K, V>>, steps: seq<Step<K, V>>, hash: K -> nat, i: nat,
      r: nat)
    returns (tableLoad: nat, instant: nat, headLoad: nat)
    requires Run(states, steps, hash) && i < |states|
    requires r < |states[i].readers| && states[i].readers[r].Done?
    ensures tableLoad <= instant <= headLoad < i && steps[tableLoad] == LoadTable(r) && steps[headLoad] == LoadHead(r)
    ensures states[i].readers[r].result == Written(steps, instant, states[i].readers[r].key)
  {
    tableLoad, instant, headLoad := LookupIsLinearizable(states, steps, hash, i, r);
    ShowsLastWrite(states, steps, hash, instant, states[i].readers[r].key);
  }

  /** So a lookup that loads its table after a put of its key, and its head before any other write to that key,
      returns the value put. */
  lemma FinishedPutIsSeen<K(!new), V>(states: seq<State<K, V>>, steps: seq<Step<K, V>>, hash: K -> nat, i: nat,
      r: nat, put: nat, v: V)
    returns (tableLoad: nat, headLoad: nat)
    requires Run(states, steps, hash) && i < |states|
    requires r < |states[i].readers| && states[i].readers[r].Done?
    requires put < i && steps[put] == Put(states[i].readers[r].key, v)
    ensures tableLoad < headLoad < i && steps[tableLoad] == LoadTable(r) && steps[headLoad] == LoadHead(r)
    ensures put < tableLoad
            && (forall k :: put < k < headLoad ==> steps[k].Put? ==> steps[k].pk != states[i].readers[r].key)
            && (forall k :: put < k < headLoad ==> steps[k].Erase? ==> steps[k].ek != states[i].readers[r].key)
            && (forall k :: put < k < headLoad ==> !steps[k].Clear?)
            ==> states[i].readers[r].result == Some(v)
  {
    var instant;
    tableLoad, instant, headLoad := LookupReturnsAWrite(states, steps, hash, i, r);
    var x := states[i].readers[r].key;
    assert tableLoad != headLoad;
    if put < tableLoad
       && (forall k :: put < k < headLoad ==> After(steps[k], x, Some(v)) == Some(v))
    {
      assert Written(steps, put + 1, x) == Some(v);
      WrittenStays(steps, put + 1, instant, x);
    }
  }

  // ----- reclamation

  /** Nothing was retired in an epoch to come. */
  ghost predicate EpochsOk<K, V>(s: State<K, V>) {
    && (forall t :: 0 <= t < |s.tables| && s.tables[t].status.Retired? ==> s.tables[t].status.epoch <= s.epoch)
    && (forall c :: 0 <= c < |s.chains| && s.chains[c].status.Retired? ==> s.chains[c].status.epoch <= s.epoch)
  }

  lemma StepKeepsEpochs<K(!new), V>(s: State<K, V>, s': State<K, V>, hash: K -> nat, step: Step<K, V>)
    requires Inv(s, hash) && EpochsOk(s) && Enabled(s, s', hash, step)
    ensures EpochsOk(s')
  {
    if step.Resize? || step.Clear? {
      StoredTableEpochs(s, s', hash, step);
    }
  }

  lemma StoredTableEpochs<K(!new), V>(s: State<K, V>, s': State<K, V>, hash: K -> nat, step: Step<K, V>)
    requires Inv(s, hash) && EpochsOk(s) && Enabled(s, s', hash, step) && (step.Resize? || step.Clear?)
    ensures EpochsOk(s')
  {
    StepKeepsInv(s, s', hash, step);
    var n := |s.tables|;
    forall t | 0 <= t < |s'.tables| && s'.tables[t].status.Retired?
      ensures s'.tables[t].status.epoch <= s'.epoch
    {
      assert t < n ==> s'.tables[t] == s'.tables[..n][t];
    }
    forall c | 0 <= c < |s'.chains| && s'.chains[c].status.Retired?
      ensures s'.chains[c].status.epoch <= s'.epoch
    {
      assert c < |s.chains| && s'.chains[c] == s'.chains[..|s.chains|][c];
    }
  }

  lemma {:induction false} RunKeepsEpochs<K(!new), V>(states: seq<State<K, V>>, steps: seq<Step<K, V>>,
      hash: K -> nat, i: nat)
    requires Run(states, steps, hash) && i < |states|
    ensures EpochsOk(states[i])
  {
    if i > 0 {
      RunKeepsEpochs(states, steps, hash, i - 1);
      RunKeepsInv(states, steps, hash, i - 1);
      StepKeepsEpochs(states[i - 1], states[i], hash, steps[i - 1]);
    }
  }

  /** The status of an object, and the state in which it is freed. */
  ghost predicate IsRetired<K, V>(s: State<K, V>, victim: Object, e: nat) {
    match victim
    case ATable(t) => t < |s.tables| && s.tables[t].status == Retired(e)
    case AChain(c) => c < |s.chains| && s.chains[c].status == Retired(e)
  }

  ghost predicate IsFreed<K, V>(s: State<K, V>, victim: Object) {
    match victim
    case ATable(t) => t < |s.tables| && s.tables[t].status.Freed?
    case AChain(c) => c < |s.chains| && s.chains[c].status.Freed?
  }

  /** The least of a bound and the epochs of the registered ones of the first n readers. */
  lemma {:induction false} LeastEpoch<K, V>(readers: seq<Reader<K, V>>, n: nat, bound: nat) returns (least: nat)
    requires n <= |readers|
    ensures least <= bound
    ensures forall r :: 0 <= r < n && IsRegistered(readers[r]) ==> least <= readers[r].epoch
    ensures least == bound || exists r :: 0 <= r < n && IsRegistered(readers[r]) && least == readers[r].epoch
  {
    if n == 0 {
      least := bound;
    } else {
      least := LeastEpoch(readers, n - 1, bound);
      if IsRegistered(readers[n - 1]) && readers[n - 1].epoch < least {
        least := readers[n - 1].epoch;
      }
    }
  }

  /** A poll of the writer frees what was retired in an epoch that all registered readers have left behind; with no
      reader registered, everything that is retired. */
  lemma RetiredCanBeFreed<K(!new), V>(states: seq<State<K, V>>, steps: seq<Step<K, V>>, hash: K -> nat, i: nat,
      victim: Object, e: nat)
    returns (s1: State<K, V>, s2: State<K, V>, s3: State<K, V>)
    requires Run(states, steps, hash) && i < |states| && states[i].writer.Ready? && IsRetired(states[i], victim, e)
    requires forall r :: 0 <= r < |states[i].readers| && IsRegistered(states[i].readers[r]) ==>
               e < states[i].readers[r].epoch
    ensures Enabled(states[i], s1, hash, PollBump) && Enabled(s1, s2, hash, PollMinimum)
    ensures Enabled(s2, s3, hash, PollFree(victim)) && IsFreed(s3, victim)
  {
    RunKeepsEpochs(states, steps, hash, i);
    var s := states[i];
    var least := LeastEpoch(s.readers, |s.readers|, s.epoch + 1);
    s1 := s.(epoch := s.epoch + 1, writer := Bumped);
    s2 := s1.(writer := Reclaiming(least));
    match victim
    case ATable(t) => s3 := s2.(tables := s.tables[t := s.tables[t].(status := Freed)]);
    case AChain(c) => s3 := s2.(chains := s.chains[c := s.chains[c].(status := Freed)]);
  }

  // ----- steps that are always possible

  /** A writer that is ready can put or erase any key. */
  lemma WriterCanStore<K(!new), V>(s: State<K, V>, hash: K -> nat, k: K, v: V)
    returns (put: State<K, V>, erased: State<K, V>)
    requires Inv(s, hash) && s.writer.Ready?
    ensures Enabled(s, put, hash, Put(k, v)) && Enabled(s, erased, hash, Erase(k))
  {
    var old' := HeadOf(s, s.current, hash, k);
    var b := hash(k) % |s.tables[s.current].heads|;
    var cell := s.tables[s.current];
    var es := s.chains[old'].entries;
    var entries := if Find(es, k).None? then [Entry(hash(k), k, v)] + es else Replacing(es, k, v);
    var stored := s.(tables := s.tables[s.current := cell.(heads := cell.heads[b := |s.chains|])],
                     writer := MustRetireChain(old'));
    var unlinked := s.chains[old' := s.chains[old'].(status := Unlinked)];
    put := stored.(chains := unlinked + [ChainCell(entries, s.current, Linked)],
                   history := s.history + [Now(s)[k := v]]);
    erased := stored.(chains := unlinked + [ChainCell(Without(es, k), s.current, Linked)],
                      history := s.history + [Now(s) - {k}]);
  }

  /** An idle reader can look up any key, and what it gets if nothing else happens is the present binding. */
  lemma ReaderCanLookUp<K(!new), V>(s: State<K, V>, hash: K -> nat, r: nat, k: K, binding: Option<V>)
    returns (states: seq<State<K, V>>)
    requires Inv(s, hash) && r < |s.readers| && s.readers[r].Idle? && Binds(s, hash, k, binding)
    ensures |states| == 6 && states[0] == s
    ensures Enabled(states[0], states[1], hash, LoadEpoch(r, k)) && Enabled(states[1], states[2], hash, Register(r))
    ensures Enabled(states[2], states[3], hash, LoadTable(r)) && Enabled(states[3], states[4], hash, LoadHead(r))
    ensures Enabled(states[4], states[5], hash, ReadChain(r))
    ensures r < |states[5].readers| && states[5].readers[r].Done? && states[5].readers[r].result == binding
  {
    var e, now := s.epoch, |s.history| - 1;
    var c := HeadOf(s, s.current, hash, k);
    var s1 := s.(readers := s.readers[r := EpochLoaded(k, e)]);
    var s2 := s.(readers := s.readers[r := Registered(k, e)]);
    var s3 := s.(readers := s.readers[r := HasTable(k, e, s.current, now)]);
    var s4 := s.(readers := s.readers[r := HasChain(k, e, c, now, now, now)]);
    var s5 := s.(readers := s.readers[r := Done(k, e, binding, now, now, now)]);
    states := [s, s1, s2, s3, s4, s5];
    assert WellFormedTable(s3, s.current) && HeadOf(s3, s.current, hash, k) == c;
    assert s1.readers[r := Registered(k, e)] == s2.readers;
    assert s2.readers[r := HasTable(k, e, s.current, now)] == s3.readers;
    assert s3.readers[r := HasChain(k, e, c, now, now, now)] == s4.readers;
    assert s4.readers[r := Done(k, e, binding, now, now, now)] == s5.readers;
  }
}

/** Bucket tables of one shard of ConcurrentHashMap, and the whole-map state they add up to. */
module ShardTables {
  import opened Options
  import opened HashChains
  import opened PowersOfTwo

  const MIN_BUCKETS_PER_SHARD := 8

  type Table<K, V> = seq<Chain<K, V>>
  datatype Shard<K, V> = Shard(table: Table<K, V>, size: nat)

  function CeilDivide(numerator: nat, denominator: nat): nat {
    if denominator == 0 then 0 else (numerator + denominator - 1) / denominator
  }

  /** The least share of which `denominator` make up the numerator. */
  lemma CeilDivideCovers(n: nat, d: nat)
    requires d > 0
    ensures n <= d * CeilDivide(n, d) < n + d
  {
    var sum := n + d - 1;
    assert sum == d * (sum / d) + sum % d && 0 <= sum % d < d;
  }

  /** BucketCountForElements: enough buckets to keep the load at most 3/4. */
  function BucketCountForElements(desired: nat): (n: nat)
    ensures IsPowerOfTwo(n) && n >= MIN_BUCKETS_PER_SHARD && 4 * desired <= 3 * n
  {
    var wanted := if desired == 0 then MIN_BUCKETS_PER_SHARD else CeilDivide(desired * 4 + 2, 3);
    NextPow2(if wanted < MIN_BUCKETS_PER_SHARD then MIN_BUCKETS_PER_SHARD else wanted)
  }

  /** And no more than twice what that takes, or the minimum. */
  lemma BucketCountIsTight(desired: nat)
    ensures BucketCountForElements(desired) == MIN_BUCKETS_PER_SHARD
            || 3 * BucketCountForElements(desired) < 2 * (4 * desired + 5)
  {
    CeilDivideCovers(desired * 4 + 2, 3);
    assert DoubleUntil(1, 8) == 8;
  }

  /** Every entry is in the bucket its hash selects, in the shard its hash selects, once. */
  ghost predicate TableOk<K, V>(t: Table<K, V>, hash: K -> nat, shardCount: nat, s: nat)
    requires shardCount > 0
  {
    && |t| > 0
    && forall b :: 0 <= b < |t| ==> ChainOk(t, b, hash, shardCount, s)
  }

  ghost predicate ChainOk<K, V>(t: Table<K, V>, b: nat, hash: K -> nat, shardCount: nat, s: nat)
    requires shardCount > 0 && b < |t|
  {
    var es := Entries(t[b]);
    && DistinctKeys(es) && HashedBy(es, hash)
    && forall i :: 0 <= i < |es| ==> es[i].hash % |t| == b && es[i].hash % shardCount == s
  }

  /** FindNodeInTable, as a function of the table. */
  ghost function LookupIn<K, V>(t: Table<K, V>, hash: K -> nat, k: K): Option<V>
    requires |t| > 0
  {
    Find(Entries(t[hash(k) % |t|]), k)
  }

  // ----- node identities

  ghost function TableOccurs<K, V>(t: Table<K, V>, id: nat): nat {
    if t == [] then 0 else TableOccurs(t[..|t| - 1], id) + Occurs(t[|t| - 1], id)
  }

  ghost function LiveOccurs<K, V>(shards: seq<Shard<K, V>>, id: nat): nat {
    if shards == [] then 0 else LiveOccurs(shards[..|shards| - 1], id) + TableOccurs(shards[|shards| - 1].table, id)
  }

  ghost predicate FreshTable<K, V>(t: Table<K, V>, from: nat, to: nat) {
    forall id: nat :: TableOccurs(t, id) == if from <= id < to then 1 else 0
  }

  /** Every node ever allocated is in a live table or retired, and in one place only. */
  ghost predicate OwnedOnce<K, V>(shards: seq<Shard<K, V>>, retired: Table<K, V>, next: nat) {
    forall id: nat :: LiveOccurs(shards, id) + TableOccurs(retired, id) == if id < next then 1 else 0
  }

  lemma {:induction false} TableOccursUpdate<K, V>(t: Table<K, V>, b: nat, c: Chain<K, V>, id: nat)
    requires b < |t|
    ensures TableOccurs(t[b := c], id) == TableOccurs(t, id) - Occurs(t[b], id) + Occurs(c, id)
  {
    if b == |t| - 1 {
      assert t[b := c][..|t| - 1] == t[..|t| - 1];
    } else {
      TableOccursUpdate(t[..|t| - 1], b, c, id);
      assert t[b := c][..|t| - 1] == t[..|t| - 1][b := c];
    }
  }

  lemma {:induction false} LiveOccursUpdate<K, V>(shards: seq<Shard<K, V>>, s: nat, x: Shard<K, V>, id: nat)
    requires s < |shards|
    ensures LiveOccurs(shards[s := x], id) ==
              LiveOccurs(shards, id) - TableOccurs(shards[s].table, id) + TableOccurs(x.table, id)
  {
    if s == |shards| - 1 {
      assert shards[s := x][..|shards| - 1] == shards[..|shards| - 1];
    } else {
      LiveOccursUpdate(shards[..|shards| - 1], s, x, id);
      assert shards[s := x][..|shards| - 1] == shards[..|shards| - 1][s := x];
    }
  }

  lemma {:induction false} TableOccursConcat<K, V>(t: Table<K, V>, u: Table<K, V>, id: nat)
    ensures TableOccurs(t + u, id) == TableOccurs(t, id) + TableOccurs(u, id)
  {
    if u == [] {
      assert t + u == t;
    } else {
      TableOccursConcat(t, u[..|u| - 1], id);
      assert (t + u)[..|t + u| - 1] == t + u[..|u| - 1];
    }
  }

  lemma {:induction false} EmptyTableOccurs<K, V>(t: Table<K, V>, id: nat)
    requires forall b :: 0 <= b < |t| ==> t[b] == []
    ensures TableOccurs(t, id) == 0
  {
    if t != [] {
      EmptyTableOccurs(t[..|t| - 1], id);
    }
  }

  /** A new table for a shard; the old one is retired. */
  lemma RetireTable<K, V>(shards: seq<Shard<K, V>>, retired: Table<K, V>, next: nat, s: nat, sh: Shard<K, V>,
      next': nat)
    requires OwnedOnce(shards, retired, next) && s < |shards| && next <= next' && FreshTable(sh.table, next, next')
    ensures OwnedOnce(shards[s := sh], retired + shards[s].table, next')
  {
    forall id: nat
      ensures LiveOccurs(shards[s := sh], id) + TableOccurs(retired + shards[s].table, id) ==
        if id < next' then 1 else 0 {
      LiveOccursUpdate(shards, s, sh, id);
      TableOccursConcat(retired, shards[s].table, id);
      assert LiveOccurs(shards, id) + TableOccurs(retired, id) == if id < next then 1 else 0;
    }
  }

  /** A new chain for a bucket; the old one is retired. */
  lemma RetireChain<K, V>(shards: seq<Shard<K, V>>, retired: Table<K, V>, next: nat, s: nat, b: nat, c: Chain<K, V>,
      size': nat, next': nat)
    requires OwnedOnce(shards, retired, next) && s < |shards| && b < |shards[s].table|
    requires next <= next' && FreshChain(c, next, next')
    ensures OwnedOnce(shards[s := Shard(shards[s].table[b := c], size')], retired + [shards[s].table[b]], next')
  {
    var sh := Shard(shards[s].table[b := c], size');
    var gone := [shards[s].table[b]];
    forall id: nat
      ensures LiveOccurs(shards[s := sh], id) + TableOccurs(retired + gone, id) == if id < next' then 1 else 0 {
      LiveOccursUpdate(shards, s, sh, id);
      TableOccursUpdate(shards[s].table, b, c, id);
      TableOccursConcat(retired, gone, id);
      assert gone[..0] == [] && TableOccurs(gone, id) == Occurs(gone[0], id);
      assert LiveOccurs(shards, id) + TableOccurs(retired, id) == if id < next then 1 else 0;
    }
  }

  // ----- rebuilding a table with more buckets

  /** All entries of the buckets below b, in scan order. */
  ghost function Scan<K, V>(t: Table<K, V>, b: nat): seq<Entry<K, V>>
    requires b <= |t|
  {
    if b == 0 then [] else Scan(t, b - 1) + Entries(t[b - 1])
  }

  lemma {:induction false} FindConcat<K, V>(xs: seq<Entry<K, V>>, ys: seq<Entry<K, V>>, k: K)
    ensures Find(xs + ys, k) == if Find(xs, k).Some? then Find(xs, k) else Find(ys, k)
  {
    if xs == [] {
      assert xs + ys == ys;
    } else {
      FindConcat(xs[1..], ys, k);
      assert (xs + ys)[1..] == xs[1..] + ys;
    }
  }

  /** Scanning a well-formed table finds what the bucket of the key holds. */
  lemma {:induction false} FindScan<K, V>(t: Table<K, V>, b: nat, hash: K -> nat, shardCount: nat, s: nat, k: K)
    requires shardCount > 0 && b <= |t| && TableOk(t, hash, shardCount, s)
    ensures Find(Scan(t, b), k) == if hash(k) % |t| < b then LookupIn(t, hash, k) else None
  {
    if b != 0 {
      FindScan(t, b - 1, hash, shardCount, s, k);
      FindConcat(Scan(t, b - 1), Entries(t[b - 1]), k);
      if hash(k) % |t| != b - 1 {
        FindIsMembership(Entries(t[b - 1]), k);
        assert ChainOk(t, b - 1, hash, shardCount, s);
      }
    }
  }

  /** A table under construction holds the entries seen so far, each in its own bucket. */
  ghost predicate Holds<K(!new), V>(r: Table<K, V>, seen: seq<Entry<K, V>>, hash: K -> nat, shardCount: nat, s: nat)
    requires shardCount > 0
  {
    && TableOk(r, hash, shardCount, s)
    && forall k: K :: LookupIn(r, hash, k) == Find(seen, k)
  }

  /** Placing one more entry at the head of its bucket. */
  lemma PlaceEntry<K(!new), V>(r: Table<K, V>, seen: seq<Entry<K, V>>, c: Chain<K, V>, e: Entry<K, V>,
                         hash: K -> nat, shardCount: nat, s: nat)
    requires shardCount > 0 && Holds(r, seen, hash, shardCount, s)
    requires e.hash == hash(e.key) && e.hash % shardCount == s && Find(seen, e.key).None?
    requires Entries(c) == [e] + Entries(r[e.hash % |r|])
    ensures Holds(r[e.hash % |r| := c], seen + [e], hash, shardCount, s)
  {
    var b := e.hash % |r|;
    var r' := r[b := c];
    var es := Entries(r[b]);
    FindIsMembership(es, e.key);
    assert LookupIn(r, hash, e.key) == None;
    forall x | 0 <= x < |r'| ensures ChainOk(r', x, hash, shardCount, s) {
      assert ChainOk(r, x, hash, shardCount, s);
    }
    forall k: K ensures LookupIn(r', hash, k) == Find(seen + [e], k) {
      FindConcat(seen, [e], k);
      assert [e][1..] == [] && ([e] + es)[1..] == es;
      assert LookupIn(r, hash, k) == Find(seen, k);
    }
  }

  /** One copied node: it goes to the head of the bucket that its hash selects. */
  method PlaceCopy<K(!new), V>(r: Table<K, V>, ghost seen: seq<Entry<K, V>>, e: Entry<K, V>, next: nat,
                         ghost from: nat, ghost hash: K -> nat, ghost shardCount: nat, ghost s: nat)
    returns (r': Table<K, V>)
    requires shardCount > 0 && Holds(r, seen, hash, shardCount, s)
    requires from <= next && FreshTable(r, from, next)
    requires e.hash == hash(e.key) && e.hash % shardCount == s && Find(seen, e.key).None?
    ensures |r'| == |r| && Holds(r', seen + [e], hash, shardCount, s)
    ensures FreshTable(r', from, next + 1)
  {
    var target := e.hash % |r|;
    var copy := [Node(next, e)] + r[target];
    PlaceEntry(r, seen, copy, e, hash, shardCount, s);
    r' := r[target := copy];
    CopyIds(r, target, copy, from, next);
  }

  lemma CopyIds<K, V>(r: Table<K, V>, target: nat, copy: Chain<K, V>, from: nat, id: nat)
    requires target < |r| && |copy| >= 1 && copy[0].id == id && copy[1..] == r[target]
    requires from <= id && FreshTable(r, from, id)
    ensures FreshTable(r[target := copy], from, id + 1)
  {
    var r' := r[target := copy];
    forall x: nat ensures TableOccurs(r', x) == if from <= x < id + 1 then 1 else 0 {
      TableOccursUpdate(r, target, copy, x);
      assert TableOccurs(r, x) == if from <= x < id then 1 else 0;
    }
  }

  /** The inner loop of ResizeTable: copies of one chain's nodes go to their new buckets. */
  method CopyChain<K(!new), V>(chain: Chain<K, V>, r: Table<K, V>, ghost seen: seq<Entry<K, V>>, next: nat,
                         ghost from: nat, ghost hash: K -> nat, ghost shardCount: nat, ghost s: nat)
    returns (r': Table<K, V>, next': nat)
    requires shardCount > 0 && Holds(r, seen, hash, shardCount, s)
    requires from <= next && FreshTable(r, from, next)
    requires HashedBy(Entries(chain), hash) && DistinctKeys(Entries(chain))
    requires forall i :: 0 <= i < |chain| ==>
        chain[i].entry.hash % shardCount == s && Find(seen, chain[i].entry.key).None?
    ensures |r'| == |r| && Holds(r', seen + Entries(chain), hash, shardCount, s)
    ensures next <= next' && FreshTable(r', from, next')
  {
    r', next' := r, next;
    var i := 0;
    ghost var es := Entries(chain);
    assert seen + es[..0] == seen;
    while i < |chain|
      invariant i <= |chain| && |r'| == |r| && next <= next'
      invariant Holds(r', seen + es[..i], hash, shardCount, s)
      invariant FreshTable(r', from, next')
    {
      NotYetSeen(seen, es, i);
      assert chain[i].entry == es[i];
      r' := PlaceCopy(r', seen + es[..i], chain[i].entry, next', from, hash, shardCount, s);
      next' := next' + 1;
      assert seen + es[..i] + [es[i]] == seen + es[..i + 1];
      i := i + 1;
    }
    assert es[..|chain|] == es;
  }

  lemma NotYetSeen<K, V>(seen: seq<Entry<K, V>>, es: seq<Entry<K, V>>, i: nat)
    requires i < |es| && DistinctKeys(es) && Find(seen, es[i].key).None?
    ensures Find(seen + es[..i], es[i].key).None?
  {
    FindConcat(seen, es[..i], es[i].key);
    FindIsMembership(es[..i], es[i].key);
  }

  lemma ChainNotScanned<K, V>(t: Table<K, V>, b: nat, hash: K -> nat, shardCount: nat, s: nat)
    requires shardCount > 0 && b < |t| && TableOk(t, hash, shardCount, s)
    ensures HashedBy(Entries(t[b]), hash) && DistinctKeys(Entries(t[b]))
    ensures forall i :: 0 <= i < |t[b]| ==>
        t[b][i].entry.hash % shardCount == s && Find(Scan(t, b), t[b][i].entry.key).None?
  {
    assert ChainOk(t, b, hash, shardCount, s);
    forall i | 0 <= i < |t[b]|
      ensures t[b][i].entry.hash % shardCount == s && Find(Scan(t, b), t[b][i].entry.key).None? {
      FindScan(t, b, hash, shardCount, s, t[b][i].entry.key);
      assert Entries(t[b])[i] == t[b][i].entry;
    }
  }

  lemma ScanHoldsAll<K(!new), V>(t: Table<K, V>, r: Table<K, V>, hash: K -> nat, shardCount: nat, s: nat)
    requires shardCount > 0 && TableOk(t, hash, shardCount, s) && Holds(r, Scan(t, |t|), hash, shardCount, s)
    ensures forall k: K :: LookupIn(r, hash, k) == LookupIn(t, hash, k)
  {
    forall k: K ensures LookupIn(r, hash, k) == LookupIn(t, hash, k) {
      FindScan(t, |t|, hash, shardCount, s, k);
    }
  }

  lemma NoFreshNodes<K, V>(t: Table<K, V>, next: nat)
    requires forall b :: 0 <= b < |t| ==> t[b] == []
    ensures FreshTable(t, next, next)
  {
    forall id: nat ensures TableOccurs(t, id) == 0 {
      EmptyTableOccurs(t, id);
    }
  }

  lemma EmptyHoldsNothing<K(!new), V>(t: Table<K, V>, hash: K -> nat, shardCount: nat, s: nat)
    requires shardCount > 0 && |t| > 0 && forall b :: 0 <= b < |t| ==> t[b] == []
    ensures Holds(t, [], hash, shardCount, s)
  {
    forall b | 0 <= b < |t| ensures ChainOk(t, b, hash, shardCount, s) {
      assert Entries(t[b]) == [];
    }
  }

  /** ResizeTable, once a larger bucket count has been decided: the bindings are preserved. */
  method Rebuild<K(!new), V>(current: Table<K, V>, newBucketCount: nat, next: nat,
                       ghost hash: K -> nat, ghost shardCount: nat, ghost s: nat)
    returns (r: Table<K, V>, next': nat)
    requires shardCount > 0 && newBucketCount > 0 && TableOk(current, hash, shardCount, s)
    ensures |r| == newBucketCount && TableOk(r, hash, shardCount, s)
    ensures forall k: K :: LookupIn(r, hash, k) == LookupIn(current, hash, k)
    ensures next <= next' && FreshTable(r, next, next')
  {
    r := seq(newBucketCount, _ => []);
    next' := next;
    EmptyHoldsNothing(r, hash, shardCount, s);
    NoFreshNodes(r, next);
    assert Scan(current, 0) == [];
    var b := 0;
    while b < |current|
      invariant b <= |current| && |r| == newBucketCount && next <= next'
      invariant Holds(r, Scan(current, b), hash, shardCount, s)
      invariant FreshTable(r, next, next')
    {
      ChainNotScanned(current, b, hash, shardCount, s);
      r, next' := CopyChain(current[b], r, Scan(current, b), next', next, hash, shardCount, s);
      assert Scan(current, b + 1) == Scan(current, b) + Entries(current[b]);
      b := b + 1;
    }
    ScanHoldsAll(current, r, hash, shardCount, s);
  }

  // ----- the whole map

  /** Keys of the map whose hash selects shard s. */
  ghost function KeysOf<K, V>(m: map<K, V>, hash: K -> nat, shardCount: nat, s: nat): set<K>
    requires shardCount > 0
  {
    set k | k in m && hash(k) % shardCount == s
  }

  ghost predicate IsTableSize(n: nat) {
    IsPowerOfTwo(n) && n >= MIN_BUCKETS_PER_SHARD
  }

  ghost predicate ShardOk<K(!new), V>(sh: Shard<K, V>, m: map<K, V>, hash: K -> nat, shardCount: nat, s: nat)
    requires shardCount > 0
  {
    && TableOk(sh.table, hash, shardCount, s)
    && IsTableSize(|sh.table|)
    && sh.size == |KeysOf(m, hash, shardCount, s)|
    && 4 * sh.size <= 3 * |sh.table|
    && forall k: K :: hash(k) % shardCount == s ==> LookupIn(sh.table, hash, k) == Bound(m, k)
  }

  /** What every writer operation keeps: the shards denote the map m and sizes count its bindings. */
  ghost predicate Denotes<K(!new), V>(shards: seq<Shard<K, V>>, size: nat, m: map<K, V>, hash: K -> nat) {
    && |shards| > 0
    && (forall s :: 0 <= s < |shards| ==> ShardOk(shards[s], m, hash, |shards|, s))
    && size == |m|
  }

  /** Replacing one shard: the rule behind every writer operation. */
  lemma ReplaceShard<K(!new), V>(shards: seq<Shard<K, V>>, size: nat, m: map<K, V>, hash: K -> nat, s: nat,
                           sh: Shard<K, V>, m': map<K, V>)
    requires Denotes(shards, size, m, hash) && s < |shards|
    requires ShardOk(sh, m', hash, |shards|, s)
    requires forall k: K :: hash(k) % |shards| != s ==> Bound(m', k) == Bound(m, k)
    ensures Denotes(shards[s := sh], |m'|, m', hash)
  {
    var shards' := shards[s := sh];
    forall x | 0 <= x < |shards'| ensures ShardOk(shards'[x], m', hash, |shards'|, x) {
      if x != s {
        assert ShardOk(shards[x], m, hash, |shards|, x);
        forall k ensures k in KeysOf(m', hash, |shards|, x) <==> k in KeysOf(m, hash, |shards|, x) {
          assert hash(k) % |shards| != s ==> Bound(m', k) == Bound(m, k);
        }
        assert KeysOf(m', hash, |shards|, x) == KeysOf(m, hash, |shards|, x);
      }
    }
  }

  // ----- changes of one bucket

  /** A chain c may take the place of bucket b: it is well formed and binds `key` as m' does,
      everything else as before. */
  ghost predicate Successor<K(!new), V>(t: Table<K, V>, b: nat, c: Chain<K, V>, hash: K -> nat, shardCount: nat, s: nat,
                                  key: K, binding: Option<V>)
    requires shardCount > 0 && b < |t|
  {
    && ChainOk(t[b := c], b, hash, shardCount, s)
    && forall k: K :: Find(Entries(c), k) == if k == key then binding else Find(Entries(t[b]), k)
  }

  lemma PrependSuccessor<K(!new), V>(t: Table<K, V>, b: nat, c: Chain<K, V>, hash: K -> nat, shardCount: nat, s: nat,
      e: Entry<K, V>)
    requires shardCount > 0 && b < |t| && ChainOk(t, b, hash, shardCount, s)
    requires e.hash == hash(e.key) && e.hash % |t| == b && e.hash % shardCount == s
    requires Find(Entries(t[b]), e.key).None? && Entries(c) == [e] + Entries(t[b])
    ensures Successor(t, b, c, hash, shardCount, s, e.key, Some(e.value))
  {
    FindIsMembership(Entries(t[b]), e.key);
    assert Entries(c)[1..] == Entries(t[b]);
  }

  lemma ReplaceSuccessor<K(!new), V>(t: Table<K, V>, b: nat, c: Chain<K, V>, hash: K -> nat, shardCount: nat, s: nat,
      key: K, value: V)
    requires shardCount > 0 && b < |t| && ChainOk(t, b, hash, shardCount, s)
    requires Find(Entries(t[b]), key).Some? && Entries(c) == Replacing(Entries(t[b]), key, value)
    ensures Successor(t, b, c, hash, shardCount, s, key, Some(value))
  {
    var es := Entries(t[b]);
    ReplacingKeeps(es, key, value);
    forall k: K ensures Find(Entries(c), k) == if k == key then Some(value) else Find(es, k) {
      FindReplacing(es, key, value, k);
    }
  }

  lemma WithoutSuccessor<K(!new), V>(t: Table<K, V>, b: nat, c: Chain<K, V>, hash: K -> nat, shardCount: nat, s: nat,
      key: K)
    requires shardCount > 0 && b < |t| && ChainOk(t, b, hash, shardCount, s)
    requires Entries(c) == Without(Entries(t[b]), key)
    ensures Successor(t, b, c, hash, shardCount, s, key, None)
  {
    var es, es' := Entries(t[b]), Entries(c);
    WithoutKeeps(es, key);
    forall i | 0 <= i < |es'|
      ensures es'[i].hash == hash(es'[i].key) && es'[i].hash % |t| == b && es'[i].hash % shardCount == s {
      assert es'[i] in es;
    }
    forall k: K ensures Find(es', k) == if k == key then None else Find(es, k) {
      FindWithout(es, key, k);
    }
  }

  /** Storing a successor chain in the bucket of `key`. */
  lemma StoreChain<K(!new), V>(sh: Shard<K, V>, m: map<K, V>, hash: K -> nat, shardCount: nat, s: nat,
                         key: K, c: Chain<K, V>, m': map<K, V>, size': nat)
    requires shardCount > 0 && ShardOk(sh, m, hash, shardCount, s) && hash(key) % shardCount == s
    requires Successor(sh.table, hash(key) % |sh.table|, c, hash, shardCount, s, key, Bound(m', key))
    requires forall k: K :: k != key ==> Bound(m', k) == Bound(m, k)
    requires size' == |KeysOf(m', hash, shardCount, s)| && 4 * size' <= 3 * |sh.table|
    ensures ShardOk(Shard(sh.table[hash(key) % |sh.table| := c], size'), m', hash, shardCount, s)
  {
    var b := hash(key) % |sh.table|;
    var t := sh.table[b := c];
    forall x | 0 <= x < |t| ensures ChainOk(t, x, hash, shardCount, s) {
      if x != b {
        assert ChainOk(sh.table, x, hash, shardCount, s);
      }
    }
    forall k: K | hash(k) % shardCount == s ensures LookupIn(t, hash, k) == Bound(m', k) {
      assert LookupIn(sh.table, hash, k) == Bound(m, k);
    }
  }

  /** The whole map after the bucket of `key` has been replaced. */
  lemma StoreKeepsMap<K(!new), V>(shards: seq<Shard<K, V>>, size: nat, m: map<K, V>, hash: K -> nat,
                            key: K, c: Chain<K, V>, m': map<K, V>, size': nat)
    requires Denotes(shards, size, m, hash) && |shards[hash(key) % |shards|].table| > 0
    requires var s := hash(key) % |shards|;
             Successor(shards[s].table, hash(key) % |shards[s].table|, c, hash, |shards|, s, key, Bound(m', key))
    requires var s := hash(key) % |shards|;
             size' == |KeysOf(m', hash, |shards|, s)| && 4 * size' <= 3 * |shards[s].table|
    requires forall k: K :: k != key ==> Bound(m', k) == Bound(m, k)
    ensures var s := hash(key) % |shards|;
            Denotes(shards[s := Shard(shards[s].table[hash(key) % |shards[s].table| := c], size')], |m'|, m', hash)
  {
    var s := hash(key) % |shards|;
    assert ShardOk(shards[s], m, hash, |shards|, s);
    StoreChain(shards[s], m, hash, |shards|, s, key, c, m', size');
    ReplaceShard(shards, size, m, hash, s, Shard(shards[s].table[hash(key) % |shards[s].table| := c], size'), m');
  }

  lemma KeysOfInsert<K, V>(m: map<K, V>, hash: K -> nat, shardCount: nat, key: K, value: V)
    requires shardCount > 0
    ensures var s := hash(key) % shardCount;
            |KeysOf(m[key := value], hash, shardCount, s)| ==
              |KeysOf(m, hash, shardCount, s)| + (if key in m then 0 else 1)
    ensures |m[key := value]| == |m| + if key in m then 0 else 1
  {
    var s := hash(key) % shardCount;
    assert KeysOf(m[key := value], hash, shardCount, s) == KeysOf(m, hash, shardCount, s) + {key};
    assert m[key := value].Keys == m.Keys + {key};
  }

  lemma KeysOfRemove<K, V>(m: map<K, V>, hash: K -> nat, shardCount: nat, key: K)
    requires shardCount > 0 && key in m
    ensures var s := hash(key) % shardCount;
            |KeysOf(m - {key}, hash, shardCount, s)| == |KeysOf(m, hash, shardCount, s)| - 1
    ensures |m - {key}| == |m| - 1
  {
    var s := hash(key) % shardCount;
    assert KeysOf(m - {key}, hash, shardCount, s) == KeysOf(m, hash, shardCount, s) - {key};
    assert (m - {key}).Keys == m.Keys - {key};
  }

  lemma KeysOfClear<K(!new), V>(m: map<K, V>, hash: K -> nat, shardCount: nat, s: nat)
    requires shardCount > 0
    ensures var gone := KeysOf(m, hash, shardCount, s);
            KeysOf(m - gone, hash, shardCount, s) == {} && |m - gone| == |m| - |gone|
    ensures var gone := KeysOf(m, hash, shardCount, s);
            forall k: K :: hash(k) % shardCount != s ==> Bound(m - gone, k) == Bound(m, k)
  {
    var gone := KeysOf(m, hash, shardCount, s);
    assert (m - gone).Keys == m.Keys - gone;
  }

  lemma NothingLeft<K, V>(m: map<K, V>, hash: K -> nat, shardCount: nat)
    requires shardCount > 0 && forall k :: k in m ==> hash(k) % shardCount >= shardCount
    ensures m == map[]
  {
    forall k ensures k !in m {
      assert hash(k) % shardCount < shardCount;
    }
  }

  /** The whole map after a shard has been given another table with the same bindings. */
  lemma ResizeKeepsMap<K(!new), V>(shards: seq<Shard<K, V>>, size: nat, m: map<K, V>, hash: K -> nat, s: nat,
      r: Table<K, V>)
    requires Denotes(shards, size, m, hash) && s < |shards|
    requires TableOk(r, hash, |shards|, s) && IsTableSize(|r|) && |shards[s].table| <= |r|
    requires TableOk(shards[s].table, hash, |shards|, s)
    requires forall k: K :: LookupIn(r, hash, k) == LookupIn(shards[s].table, hash, k)
    ensures Denotes(shards[s := Shard(r, shards[s].size)], size, m, hash)
  {
    assert ShardOk(shards[s], m, hash, |shards|, s);
    forall k: K | hash(k) % |shards| == s ensures LookupIn(r, hash, k) == Bound(m, k) {
      assert LookupIn(shards[s].table, hash, k) == Bound(m, k);
    }
    ReplaceShard(shards, size, m, hash, s, Shard(r, shards[s].size), m);
  }

  lemma ClearedShard<K(!new), V>(sh: Shard<K, V>, m: map<K, V>, hash: K -> nat, shardCount: nat, s: nat)
    requires shardCount > 0 && sh.size == 0 && KeysOf(m, hash, shardCount, s) == {}
    requires IsTableSize(|sh.table|) && forall b :: 0 <= b < |sh.table| ==> sh.table[b] == []
    ensures ShardOk(sh, m, hash, shardCount, s)
  {
    EmptyHoldsNothing(sh.table, hash, shardCount, s);
    forall k: K | hash(k) % shardCount == s ensures Bound(m, k) == None {
      assert k !in KeysOf(m, hash, shardCount, s);
    }
  }

  /** The whole map after a shard has been emptied. */
  lemma ClearKeepsMap<K(!new), V>(shards: seq<Shard<K, V>>, size: nat, m: map<K, V>, hash: K -> nat, s: nat,
      sh: Shard<K, V>)
    requires Denotes(shards, size, m, hash) && s < |shards|
    requires sh.size == 0 && |sh.table| == |shards[s].table| && forall b :: 0 <= b < |sh.table| ==> sh.table[b] == []
    ensures shards[s].size <= size
    ensures Denotes(shards[s := sh], size - shards[s].size, m - KeysOf(m, hash, |shards|, s), hash)
  {
    var m' := m - KeysOf(m, hash, |shards|, s);
    assert ShardOk(shards[s], m, hash, |shards|, s);
    KeysOfClear(m, hash, |shards|, s);
    ClearedShard(sh, m', hash, |shards|, s);
    ReplaceShard(shards, size, m, hash, s, sh, m');
  }
}

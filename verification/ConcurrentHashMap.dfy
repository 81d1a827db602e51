/** Writer operations of ConcurrentHashMap.  Each runs under the lock of its shard, so here it runs
    alone; ConcurrentReaders.dfy adds the lock-free readers. */
module ConcurrentHashMap {
  import opened Arithmetic
  import opened Options
  import opened HashChains
  import opened ShardTables

  class ConcurrentHashMap<K(==, !new), V> {
    const hash: K -> nat
    var shards: seq<Shard<K, V>>
    var size: nat
    /** Number of nodes allocated so far; it also names the next node. */
    var next: nat
    /** Chains handed to the reclaimer. */
    ghost var retired: Table<K, V>
    /** The map that the shards denote. */
    ghost var contents: map<K, V>

    ghost predicate Valid()
      reads this
    {
      Denotes(shards, size, contents, hash) && OwnedOnce(shards, retired, next)
    }

    constructor (initialCapacity: nat, shardCount: nat, hash: K -> nat)
      requires shardCount > 0
      ensures Valid() && contents == map[] && |shards| == shardCount && this.hash == hash
      ensures initialCapacity <= Room(shards)
    {
      this.hash := hash;
      var wanted := if initialCapacity < shardCount then shardCount else initialCapacity;
      var bucketCount := BucketCountForElements(CeilDivide(wanted, shardCount));
      var all: seq<Shard<K, V>> := seq(shardCount, _ => Shard(seq(bucketCount, _ => []), 0));
      shards := all;
      size, next, retired, contents := 0, 0, [], map[];
      new;
      EmptyShards(shards, bucketCount, hash);
      CeilDivideCovers(wanted, shardCount);
      SharesMakeRoom(shards, CeilDivide(wanted, shardCount));
    }

    /** ShardIndex and BucketIndex. */
    function ShardIndex(h: nat): (s: nat)
      reads this
      requires |shards| > 0
      ensures s < |shards|
    {
      h % |shards|
    }

    /** TryGet, on a quiescent map. */
    method TryGet(key: K) returns (r: Option<V>)
      requires Valid()
      ensures r == Bound(contents, key)
    {
      var h := hash(key);
      var head, found := FindInShard(key, h, ShardIndex(h));
      r := found;
    }

    /** The stores that make a prepared state current. */
    method Install(shards': seq<Shard<K, V>>, size': nat, next': nat, ghost retired': Table<K, V>,
        ghost contents': map<K, V>)
      requires Denotes(shards', size', contents', hash) && OwnedOnce(shards', retired', next')
      modifies this
      ensures Valid() && shards == shards' && size == size' && next == next' && retired == retired'
      ensures contents == contents'
    {
      shards, size, next := shards', size', next';
      retired, contents := retired', contents';
    }

    /** EnsureShardCapacity with ResizeTable: a larger table replaces the current one, which is
        retired; the bindings do not change. */
    method EnsureShardCapacity(s: nat, desiredElements: nat)
      requires Valid() && s < |shards|
      modifies this
      ensures Valid() && |shards| == old(|shards|) && contents == old(contents) && size == old(size)
      ensures shards[s].size == old(shards[s].size) && 4 * desiredElements <= 3 * |shards[s].table|
      ensures forall j :: 0 <= j < |shards| && j != s ==> shards[j] == old(shards[j])
    {
      var current := shards[s];
      assert ShardOk(current, contents, hash, |shards|, s);
      var newBucketCount := BucketCountForElements(desiredElements);
      if |current.table| >= newBucketCount {
        return;
      }
      var replacement, next' := Rebuild(current.table, newBucketCount, next, hash, |shards|, s);
      ResizeKeepsMap(shards, size, contents, hash, s, replacement);
      RetireTable(shards, retired, next, s, Shard(replacement, shards[s].size), next');
      Install(shards[s := Shard(replacement, shards[s].size)], size, next', retired + shards[s].table, contents);
    }

    /** The chain that a key hashes to, under a lookup of that key. */
    method FindInShard(key: K, h: nat, s: nat) returns (head: Chain<K, V>, found: Option<V>)
      requires Valid() && h == hash(key) && s == h % |shards|
      ensures |shards[s].table| > 0 && head == shards[s].table[h % |shards[s].table|]
      ensures ChainOk(shards[s].table, h % |shards[s].table|, hash, |shards|, s)
      ensures found == Find(Entries(head), key) == Bound(contents, key)
    {
      var table := shards[s].table;
      assert ShardOk(shards[s], contents, hash, |shards|, s);
      head := table[h % |table|];
      assert ChainOk(table, h % |table|, hash, |shards|, s);
      assert LookupIn(table, hash, key) == Bound(contents, key);
      found := FindNodeInChain(head, key, h, hash);
    }

    /** The clone of the bucket of `key` in which it is bound to `result`. */
    method CloneWith(key: K, h: nat, s: nat, result: V, inserting: bool) returns (newHead: Chain<K, V>, next': nat)
      requires |shards| > 0 && h == hash(key) && s == h % |shards| && |shards[s].table| > 0
      requires ChainOk(shards[s].table, h % |shards[s].table|, hash, |shards|, s)
      requires inserting <==> Find(Entries(shards[s].table[h % |shards[s].table|]), key).None?
      ensures NewHead(shards, hash, key, newHead, Some(result))
      ensures next <= next' && FreshChain(newHead, next, next')
    {
      var table := shards[s].table;
      var oldHead := table[h % |table|];
      if inserting {
        newHead, next' := CloneWithPrepended(oldHead, Entry(h, key, result), next);
        PrependSuccessor(table, h % |table|, newHead, hash, |shards|, s, Entry(h, key, result));
      } else {
        newHead, next' := CloneReplacing(oldHead, key, h, result, next, hash);
        ReplaceSuccessor(table, h % |table|, newHead, hash, |shards|, s, key, result);
      }
    }

    /** UpsertInternal: inserts, or combines the present value with the new one. */
    method Upsert(key: K, value: V, updater: (V, V) -> V) returns (inserted: bool)
      requires Valid()
      modifies this
      ensures Valid() && |shards| == old(|shards|)
      ensures inserted <==> key !in old(contents)
      ensures contents == old(contents)[key := if inserted then value else updater(old(contents)[key], value)]
    {
      var h := hash(key);
      var s := ShardIndex(h);
      EnsureShardCapacity(s, shards[s].size + 1);
      var oldHead, found := FindInShard(key, h, s);
      inserted := found.None?;
      var result := if inserted then value else updater(found.value, value);
      var newHead, next' := CloneWith(key, h, s, result, inserted);
      StoreHead(key, h, s, oldHead, newHead, next', result, if inserted then 1 else 0);
    }

    /** Publishes the clone in which `key` is bound to `result`, and retires the chain it replaces. */
    method StoreHead(key: K, h: nat, s: nat, oldHead: Chain<K, V>, newHead: Chain<K, V>, next': nat, result: V,
        one: nat)
      requires Valid() && h == hash(key) && s == h % |shards| && |shards[s].table| > 0
      requires oldHead == shards[s].table[h % |shards[s].table|]
      requires NewHead(shards, hash, key, newHead, Some(result)) && next <= next' && FreshChain(newHead, next, next')
      requires one == if key in contents then 0 else 1
      requires 4 * (shards[s].size + 1) <= 3 * |shards[s].table|
      modifies this
      ensures Valid() && |shards| == old(|shards|) && contents == old(contents)[key := result]
    {
      InsertKeepsMap(shards, size, contents, hash, key, newHead, result, one);
      var shards' := WithHead(shards, hash, key, newHead, shards[s].size + one);
      HeadIsOwned(shards, retired, next, hash, key, s, oldHead, newHead, shards[s].size + one, next', shards');
      Install(shards', size + one, next', retired + [oldHead], contents[key := result]);
    }

    /** InsertOrAssignInternal. */
    method InsertOrAssign(key: K, value: V) returns (inserted: bool)
      requires Valid()
      modifies this
      ensures Valid() && |shards| == old(|shards|)
      ensures inserted <==> key !in old(contents)
      ensures contents == old(contents)[key := value]
    {
      inserted := Upsert(key, value, (_, v) => v);
    }

    method Remove(key: K) returns (removed: bool)
      requires Valid()
      modifies this
      ensures Valid() && |shards| == old(|shards|)
      ensures removed <==> key in old(contents)
      ensures contents == old(contents) - {key}
    {
      var h := hash(key);
      var s := ShardIndex(h);
      var oldHead, found := FindInShard(key, h, s);
      var table := shards[s].table;
      if found.None? {
        return false;
      }
      var newHead, next' := CloneWithout(oldHead, key, h, next, hash);
      WithoutSuccessor(table, h % |table|, newHead, hash, |shards|, s, key);
      DropHead(key, h, s, oldHead, newHead, next');
      return true;
    }

    /** Publishes the clone in which `key` is unbound, and retires the chain it replaces. */
    method DropHead(key: K, h: nat, s: nat, oldHead: Chain<K, V>, newHead: Chain<K, V>, next': nat)
      requires Valid() && h == hash(key) && s == h % |shards| && |shards[s].table| > 0 && key in contents
      requires oldHead == shards[s].table[h % |shards[s].table|]
      requires NewHead(shards, hash, key, newHead, None) && next <= next' && FreshChain(newHead, next, next')
      modifies this
      ensures Valid() && |shards| == old(|shards|) && contents == old(contents) - {key}
    {
      RemoveKeepsMap(shards, size, contents, hash, key, newHead);
      var shards' := WithHead(shards, hash, key, newHead, shards[s].size - 1);
      HeadIsOwned(shards, retired, next, hash, key, s, oldHead, newHead, shards[s].size - 1, next', shards');
      Install(shards', size - 1, next', retired + [oldHead], contents - {key});
    }

    /** Clear: every shard in turn gets an empty table of the same bucket count. */
    method Clear()
      requires Valid()
      modifies this
      ensures Valid() && contents == map[] && |shards| == old(|shards|) && size == 0
    {
      ghost var n := |shards|;
      var s := 0;
      while s < |shards|
        invariant s <= |shards| == n && Valid()
        invariant forall k :: k in contents ==> hash(k) % n >= s
      {
        ClearShard(s);
        s := s + 1;
      }
      NothingLeft(contents, hash, |shards|);
    }

    method ClearShard(s: nat)
      requires Valid() && s < |shards|
      modifies this
      ensures Valid() && |shards| == old(|shards|)
      ensures contents == old(contents) - KeysOf(old(contents), hash, |shards|, s)
    {
      var current := shards[s];
      var sh := Shard(seq(|current.table|, _ => []), 0);
      ClearKeepsMap(shards, size, contents, hash, s, sh);
      NoFreshNodes(sh.table, next);
      RetireTable(shards, retired, next, s, sh, next);
      Install(shards[s := sh], size - shards[s].size, next, retired + shards[s].table,
              contents - KeysOf(contents, hash, |shards|, s));
    }

    /** Reserve: every shard gets room for its share of the capacity at a load of 3/4, so that together
        they have room for all of it. */
    method Reserve(desiredCapacity: nat)
      requires Valid()
      modifies this
      ensures Valid() && contents == old(contents) && |shards| == old(|shards|) > 0
      ensures forall s :: 0 <= s < |shards| ==>
                4 * CeilDivide(if desiredCapacity < |shards| then |shards| else desiredCapacity, |shards|)
                <= 3 * |shards[s].table|
      ensures desiredCapacity <= Room(shards)
      ensures forall s :: 0 <= s < |shards| ==> desiredCapacity <= |shards| * ShardRoom(shards[s])
    {
      var wanted := if desiredCapacity < |shards| then |shards| else desiredCapacity;
      var perShard := CeilDivide(wanted, |shards|);
      ghost var n := |shards|;
      var s := 0;
      while s < |shards|
        invariant s <= |shards| == n && Valid() && contents == old(contents)
        invariant forall j :: 0 <= j < s ==> 4 * perShard <= 3 * |shards[j].table|
      {
        EnsureShardCapacity(s, perShard);
        s := s + 1;
      }
      CeilDivideCovers(wanted, n);
      SharesMakeRoom(shards, perShard);
      forall j | 0 <= j < n
        ensures desiredCapacity <= n * ShardRoom(shards[j])
      {
        MulMonotonic(perShard, ShardRoom(shards[j]), n);
      }
    }
  }

  // ----- supporting facts

  /** How many entries fit a shard at a load of 3/4. */
  function ShardRoom<K, V>(shard: Shard<K, V>): nat {
    3 * |shard.table| / 4
  }

  function Room<K, V>(shards: seq<Shard<K, V>>): nat {
    if shards == [] then 0 else Room(shards[1..]) + ShardRoom(shards[0])
  }

  lemma {:induction false} SharesMakeRoom<K, V>(shards: seq<Shard<K, V>>, share: nat)
    requires forall s :: 0 <= s < |shards| ==> 4 * share <= 3 * |shards[s].table|
    ensures |shards| * share <= Room(shards)
  {
    if shards != [] {
      SharesMakeRoom(shards[1..], share);
      Distribute(|shards| - 1, 1, share);
    }
  }

  lemma EmptyShards<K(!new), V>(shards: seq<Shard<K, V>>, bucketCount: nat, hash: K -> nat)
    requires |shards| > 0 && bucketCount == |shards[0].table|
    requires exists desired :: bucketCount == BucketCountForElements(desired)
    requires forall s :: 0 <= s < |shards| ==> shards[s].size == 0 && |shards[s].table| == bucketCount
    requires forall s, b :: 0 <= s < |shards| && 0 <= b < bucketCount ==> shards[s].table[b] == []
    ensures Denotes(shards, 0, map[], hash) && OwnedOnce(shards, [], 0)
  {
    forall s | 0 <= s < |shards| ensures ShardOk(shards[s], map[], hash, |shards|, s) {
      ClearedShard(shards[s], map[], hash, |shards|, s);
    }
    forall id: nat ensures LiveOccurs(shards, id) == 0 {
      NoLiveNodes(shards, id);
    }
  }

  lemma {:induction false} NoLiveNodes<K, V>(shards: seq<Shard<K, V>>, id: nat)
    requires forall s, b :: 0 <= s < |shards| && 0 <= b < |shards[s].table| ==> shards[s].table[b] == []
    ensures LiveOccurs(shards, id) == 0
  {
    if shards != [] {
      NoLiveNodes(shards[..|shards| - 1], id);
      EmptyTableOccurs(shards[|shards| - 1].table, id);
    }
  }

  /** The shards with a new head for the bucket of `key`. */
  function WithHead<K, V>(shards: seq<Shard<K, V>>, hash: K -> nat, key: K, c: Chain<K, V>, size': nat)
      : seq<Shard<K, V>>
    requires |shards| > 0 && |shards[hash(key) % |shards|].table| > 0
  {
    var s := hash(key) % |shards|;
    shards[s := Shard(shards[s].table[hash(key) % |shards[s].table| := c], size')]
  }

  lemma HeadIsOwned<K(!new), V>(shards: seq<Shard<K, V>>, retired: Table<K, V>, next: nat, hash: K -> nat, key: K,
      s: nat, oldHead: Chain<K, V>, newHead: Chain<K, V>, size': nat, next': nat, shards': seq<Shard<K, V>>)
    requires OwnedOnce(shards, retired, next) && |shards| > 0 && s == hash(key) % |shards| && |shards[s].table| > 0
    requires oldHead == shards[s].table[hash(key) % |shards[s].table|]
    requires next <= next' && FreshChain(newHead, next, next')
    requires shards' == WithHead(shards, hash, key, newHead, size')
    ensures OwnedOnce(shards', retired + [oldHead], next')
  {
    RetireChain(shards, retired, next, s, hash(key) % |shards[s].table|, newHead, size', next');
  }

  /** c may become the head of the bucket of `key`. */
  ghost predicate NewHead<K(!new), V>(shards: seq<Shard<K, V>>, hash: K -> nat, key: K, c: Chain<K, V>,
      binding: Option<V>) {
    && |shards| > 0
    && var s := hash(key) % |shards|;
       |shards[s].table| > 0
           && Successor(shards[s].table, hash(key) % |shards[s].table|, c, hash, |shards|, s, key, binding)
  }

  lemma InsertKeepsMap<K(!new), V>(shards: seq<Shard<K, V>>, size: nat, m: map<K, V>, hash: K -> nat,
                             key: K, c: Chain<K, V>, value: V, one: nat)
    requires Denotes(shards, size, m, hash) && NewHead(shards, hash, key, c, Some(value))
    requires var s := hash(key) % |shards|; 4 * (shards[s].size + 1) <= 3 * |shards[s].table|
    requires one == if key in m then 0 else 1
    ensures Denotes(WithHead(shards, hash, key, c, shards[hash(key) % |shards|].size + one), size + one,
        m[key := value], hash)
  {
    var s := hash(key) % |shards|;
    assert ShardOk(shards[s], m, hash, |shards|, s);
    KeysOfInsert(m, hash, |shards|, key, value);
    StoreKeepsMap(shards, size, m, hash, key, c, m[key := value], shards[s].size + one);
  }

  lemma RemoveKeepsMap<K(!new), V>(shards: seq<Shard<K, V>>, size: nat, m: map<K, V>, hash: K -> nat, key: K,
      c: Chain<K, V>)
    requires Denotes(shards, size, m, hash) && key in m && NewHead(shards, hash, key, c, None)
    ensures shards[hash(key) % |shards|].size > 0 && size > 0
    ensures Denotes(WithHead(shards, hash, key, c, shards[hash(key) % |shards|].size - 1), size - 1, m - {key}, hash)
  {
    var s := hash(key) % |shards|;
    assert ShardOk(shards[s], m, hash, |shards|, s);
    KeysOfRemove(m, hash, |shards|, key);
    StoreKeepsMap(shards, size, m, hash, key, c, m - {key}, shards[s].size - 1);
  }
}

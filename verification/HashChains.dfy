/** Copy-on-write collision chains of ConcurrentHashMap.  A chain is a sequence of nodes; a node has
    an identity (its allocation number) and an entry.  Cloning copies entries into new nodes. */
module HashChains {
  import opened Options

  /** The value that a map binds to k. */
  ghost function Bound<K, V>(m: map<K, V>, k: K): Option<V> {
    if k in m then Some(m[k]) else None
  }

  datatype Entry<K, V> = Entry(hash: nat, key: K, value: V)
  datatype Node<K, V> = Node(id: nat, entry: Entry<K, V>)
  type Chain<K, V> = seq<Node<K, V>>

  /** What a chain stores, without node identities. */
  ghost function Entries<K, V>(c: Chain<K, V>): (es: seq<Entry<K, V>>)
    ensures |es| == |c| && forall i :: 0 <= i < |c| ==> es[i] == c[i].entry
  {
    seq(|c|, i requires 0 <= i < |c| => c[i].entry)
  }

  /** The value bound to a key by a sequence of entries: the first match. */
  ghost function Find<K, V>(es: seq<Entry<K, V>>, key: K): Option<V> {
    if es == [] then None
    else if es[0].key == key then Some(es[0].value)
    else Find(es[1..], key)
  }

  ghost predicate DistinctKeys<K, V>(es: seq<Entry<K, V>>) {
    forall i, j :: 0 <= i < j < |es| ==> es[i].key != es[j].key
  }

  ghost predicate HashedBy<K, V>(es: seq<Entry<K, V>>, hash: K -> nat) {
    forall i :: 0 <= i < |es| ==> es[i].hash == hash(es[i].key)
  }

  // ----- what the clone routines compute

  ghost function Replacing<K, V>(es: seq<Entry<K, V>>, key: K, value: V): seq<Entry<K, V>> {
    if es == [] then []
    else [if es[0].key == key then Entry(es[0].hash, es[0].key, value) else es[0]] + Replacing(es[1..], key, value)
  }

  ghost function Without<K, V>(es: seq<Entry<K, V>>, key: K): seq<Entry<K, V>> {
    if es == [] then []
    else (if es[0].key == key then [] else [es[0]]) + Without(es[1..], key)
  }

  lemma {:induction false} FindReplacing<K, V>(es: seq<Entry<K, V>>, key: K, value: V, k: K)
    ensures Find(Replacing(es, key, value), k) ==
              if k == key && Find(es, key).Some? then Some(value) else Find(es, k)
  {
    if es != [] {
      FindReplacing(es[1..], key, value, k);
      assert Replacing(es, key, value)[1..] == Replacing(es[1..], key, value);
    }
  }

  lemma {:induction false} FindWithout<K, V>(es: seq<Entry<K, V>>, key: K, k: K)
    ensures Find(Without(es, key), k) == if k == key then None else Find(es, k)
  {
    if es != [] {
      FindWithout(es[1..], key, k);
      if es[0].key == key {
        assert Without(es, key) == Without(es[1..], key);
      } else {
        assert Without(es, key)[1..] == Without(es[1..], key);
      }
    }
  }

  lemma {:induction false} FindIsMembership<K, V>(es: seq<Entry<K, V>>, k: K)
    ensures Find(es, k).Some? <==> exists i :: 0 <= i < |es| && es[i].key == k
  {
    if es != [] {
      FindIsMembership(es[1..], k);
      if Find(es[1..], k).Some? {
        var i :| 0 <= i < |es[1..]| && es[1..][i].key == k;
        assert es[i + 1].key == k;
      }
      if i :| 0 <= i < |es| && es[i].key == k {
        if i > 0 {
          assert es[1..][i - 1].key == k;
        }
      }
    }
  }

  lemma {:induction false} ReplacingKeeps<K, V>(es: seq<Entry<K, V>>, key: K, value: V)
    ensures var r := Replacing(es, key, value);
            |r| == |es| && forall i :: 0 <= i < |es| ==> r[i].key == es[i].key && r[i].hash == es[i].hash
  {
    if es != [] {
      ReplacingKeeps(es[1..], key, value);
    }
  }

  /** Removal keeps entries, and their keys stay distinct. */
  lemma {:induction false} WithoutKeeps<K, V>(es: seq<Entry<K, V>>, key: K)
    requires DistinctKeys(es)
    ensures DistinctKeys(Without(es, key))
    ensures forall e :: e in Without(es, key) ==> e in es
    ensures |Without(es, key)| == |es| - if Find(es, key).Some? then 1 else 0
  {
    if es != [] {
      WithoutKeeps(es[1..], key);
      var rest := Without(es[1..], key);
      if es[0].key == key {
        FindIsMembership(es[1..], key);
      } else {
        forall j | 0 <= j < |rest| ensures rest[j].key != es[0].key {
          assert rest[j] in es[1..];
        }
      }
    }
  }

  // ----- node identities

  /** How often a node identity occurs in a chain. */
  ghost function Occurs<K, V>(c: Chain<K, V>, id: nat): nat {
    if c == [] then 0 else (if c[0].id == id then 1 else 0) + Occurs(c[1..], id)
  }

  /** The nodes of the chain are exactly those allocated from `from` up to `to`, each once. */
  ghost predicate FreshChain<K, V>(c: Chain<K, V>, from: nat, to: nat) {
    forall id: nat :: Occurs(c, id) == if from <= id < to then 1 else 0
  }

  // ----- the clone routines

  /** FindNodeInChain. */
  method FindNodeInChain<K(==), V>(c: Chain<K, V>, key: K, h: nat, ghost hash: K -> nat) returns (found: Option<V>)
    requires HashedBy(Entries(c), hash) && h == hash(key)
    ensures found == Find(Entries(c), key)
  {
    var i := 0;
    assert Entries(c)[0..] == Entries(c);
    while i < |c|
      invariant i <= |c|
      invariant Find(Entries(c)[i..], key) == Find(Entries(c), key)
    {
      if c[i].entry.hash == h && c[i].entry.key == key {
        return Some(c[i].entry.value);
      }
      assert Entries(c)[i..][1..] == Entries(c)[i + 1..];
      i := i + 1;
    }
    return None;
  }

  /** CloneChain: same entries, new nodes. */
  method CloneChain<K, V>(c: Chain<K, V>, next: nat) returns (r: Chain<K, V>, next': nat)
    ensures Entries(r) == Entries(c) && next <= next' && FreshChain(r, next, next')
  {
    r, next' := [], next;
    var i := |c|;
    while i > 0
      invariant 0 <= i <= |c| && next <= next'
      invariant Entries(r) == Entries(c)[i..] && FreshChain(r, next, next')
    {
      i := i - 1;
      r, next' := Allocate(r, next, next', c[i].entry);
    }
  }

  /** AllocateNode in front of a chain that is under construction. */
  method Allocate<K, V>(c: Chain<K, V>, ghost from: nat, next: nat, e: Entry<K, V>) returns (r: Chain<K, V>, next': nat)
    requires from <= next && FreshChain(c, from, next)
    ensures next' == next + 1 && FreshChain(r, from, next')
    ensures Entries(r) == [e] + Entries(c)
  {
    r := [Node(next, e)] + c;
    next' := next + 1;
    assert r[1..] == c;
  }

  /** CloneChainReplacingValue. */
  method CloneReplacing<K(==), V>(c: Chain<K, V>, key: K, h: nat, value: V, next: nat, ghost hash: K -> nat)
    returns (r: Chain<K, V>, next': nat)
    requires HashedBy(Entries(c), hash) && h == hash(key)
    ensures Entries(r) == Replacing(Entries(c), key, value) && next <= next' && FreshChain(r, next, next')
  {
    ghost var es := Entries(c);
    r, next' := [], next;
    var i := |c|;
    while i > 0
      invariant 0 <= i <= |c| && next <= next'
      invariant Entries(r) == Replacing(es[i..], key, value) && FreshChain(r, next, next')
    {
      i := i - 1;
      assert es[i..][1..] == es[i + 1..];
      var e := c[i].entry;
      if e.hash == h && e.key == key {
        r, next' := Allocate(r, next, next', Entry(e.hash, e.key, value));
      } else {
        r, next' := Allocate(r, next, next', e);
      }
    }
    assert es[0..] == es;
  }

  /** CloneChainWithoutKey. */
  method CloneWithout<K(==), V>(c: Chain<K, V>, key: K, h: nat, next: nat, ghost hash: K -> nat)
    returns (r: Chain<K, V>, next': nat)
    requires HashedBy(Entries(c), hash) && h == hash(key)
    ensures Entries(r) == Without(Entries(c), key) && next <= next' && FreshChain(r, next, next')
  {
    ghost var es := Entries(c);
    r, next' := [], next;
    var i := |c|;
    while i > 0
      invariant 0 <= i <= |c| && next <= next'
      invariant Entries(r) == Without(es[i..], key) && FreshChain(r, next, next')
    {
      i := i - 1;
      assert es[i..][1..] == es[i + 1..];
      var e := c[i].entry;
      if !(e.hash == h && e.key == key) {
        r, next' := Allocate(r, next, next', e);
      }
    }
    assert es[0..] == es;
  }

  /** CloneChainWithPrepended. */
  method CloneWithPrepended<K, V>(c: Chain<K, V>, e: Entry<K, V>, next: nat) returns (r: Chain<K, V>, next': nat)
    ensures Entries(r) == [e] + Entries(c) && next <= next' && FreshChain(r, next, next')
  {
    r, next' := CloneChain(c, next);
    r, next' := Allocate(r, next, next', e);
  }
}

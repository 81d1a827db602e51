/** Open-addressed bucket arrays with linear probing: the facts about FlatHashMap that do not
    depend on how its methods are written.  A table is a sequence of buckets; positions are cyclic. */
module ProbeTable {
  datatype Bucket<K, V> = Free | Occupied(hash: nat, key: K, value: V)

  /** `hash & m_mask` for a capacity that is a power of two. */
  function Home(hash: nat, capacity: nat): (home: nat)
    requires capacity > 0
    ensures home < capacity
  {
    hash % capacity
  }

  /** `(i + 1) & m_mask`. */
  function Next(i: nat, capacity: nat): (next: nat)
    requires i < capacity
    ensures next < capacity
  {
    if i + 1 == capacity then 0 else i + 1
  }

  /** `(to - from) & m_mask`, the number of probes from one position to another. */
  function Distance(from: nat, to: nat, capacity: nat): (d: nat)
    requires from < capacity && to < capacity
    ensures d < capacity
  {
    if from <= to then to - from else to + capacity - from
  }

  /** The cyclic arithmetic is arithmetic modulo the capacity. */
  lemma CyclicArithmetic(from: nat, to: nat, capacity: nat)
    requires from < capacity && to < capacity
    ensures Next(from, capacity) == (from + 1) % capacity
    ensures Distance(from, to, capacity) == (to - from) % capacity
  {
    if from + 1 < capacity {
      Small(from + 1, capacity);
    }
    if from <= to {
      Small(to - from, capacity);
    } else {
      Small(to + capacity - from, capacity);
      assert (to - from) == -1 * capacity + (to + capacity - from);
    }
  }

  lemma Small(x: nat, m: nat)
    requires x < m
    ensures x % m == x && (x - m) % m == x
  {
    assert x - m == (-1) * m + x;
    assert (x - m) / m == -1;
  }

  /** Home of the entry in bucket i. */
  function HomeAt<K, V>(b: seq<Bucket<K, V>>, i: nat): nat
    requires i < |b| && b[i].Occupied?
  {
    Home(b[i].hash, |b|)
  }

  /** Position j lies strictly before i on the probe path of the entry in bucket i. */
  ghost predicate OnPath<K, V>(b: seq<Bucket<K, V>>, i: nat, j: nat)
    requires i < |b| && j < |b| && b[i].Occupied?
  {
    Distance(HomeAt(b, i), j, |b|) < Distance(HomeAt(b, i), i, |b|)
  }

  /** Every bucket from an entry's home to its slot is occupied. */
  ghost predicate Reachable<K, V>(b: seq<Bucket<K, V>>) {
    forall i, j :: 0 <= i < |b| && 0 <= j < |b| && b[i].Occupied? && OnPath(b, i, j) ==> b[j].Occupied?
  }

  /** No key is stored twice. */
  ghost predicate Distinct<K, V>(b: seq<Bucket<K, V>>) {
    forall i, j :: 0 <= i < |b| && 0 <= j < |b| && i != j && b[i].Occupied? && b[j].Occupied? ==> b[i].key != b[j].key
  }

  /** Every stored hash is the hash of its key. */
  ghost predicate Hashed<K, V>(b: seq<Bucket<K, V>>, hash: K -> nat) {
    forall i :: 0 <= i < |b| && b[i].Occupied? ==> b[i].hash == hash(b[i].key)
  }

  ghost predicate Table<K, V>(b: seq<Bucket<K, V>>, hash: K -> nat) {
    Reachable(b) && Distinct(b) && Hashed(b, hash)
  }

  /** The bindings of the first n buckets. */
  ghost function Bindings<K, V>(b: seq<Bucket<K, V>>, n: nat): map<K, V>
    requires n <= |b|
  {
    if n == 0 then map[]
    else if b[n - 1].Free? then Bindings(b, n - 1)
    else Bindings(b, n - 1)[b[n - 1].key := b[n - 1].value]
  }

  /** The mathematical map that a table denotes. */
  ghost function Contents<K, V>(b: seq<Bucket<K, V>>): map<K, V> {
    Bindings(b, |b|)
  }

  ghost predicate Stored<K, V>(b: seq<Bucket<K, V>>, n: nat, k: K)
    requires n <= |b|
  {
    exists i :: 0 <= i < n && b[i].Occupied? && b[i].key == k
  }

  /** Number of occupied buckets among the first n. */
  ghost function Count<K, V>(b: seq<Bucket<K, V>>, n: nat): (c: nat)
    requires n <= |b|
    ensures c <= n
  {
    if n == 0 then 0 else Count(b, n - 1) + if b[n - 1].Occupied? then 1 else 0
  }

  // ----- the denoted map

  lemma {:induction false} BoundIsStored<K, V>(b: seq<Bucket<K, V>>, n: nat, k: K)
    requires n <= |b| && k in Bindings(b, n)
    ensures Stored(b, n, k)
  {
    if b[n - 1].Occupied? && b[n - 1].key == k {
    } else {
      BoundIsStored(b, n - 1, k);
      var i :| 0 <= i < n - 1 && b[i].Occupied? && b[i].key == k;
    }
  }

  lemma {:induction false} StoredIsBound<K, V>(b: seq<Bucket<K, V>>, n: nat, i: nat)
    requires i < n <= |b| && Distinct(b) && b[i].Occupied?
    ensures b[i].key in Bindings(b, n) && Bindings(b, n)[b[i].key] == b[i].value
    decreases n
  {
    if i < n - 1 {
      StoredIsBound(b, n - 1, i);
    }
  }

  lemma {:induction false} BindingsCount<K, V>(b: seq<Bucket<K, V>>, n: nat)
    requires n <= |b| && Distinct(b)
    ensures |Bindings(b, n)| == Count(b, n)
  {
    if n != 0 {
      BindingsCount(b, n - 1);
      var m := Bindings(b, n - 1);
      if b[n - 1].Occupied? {
        if b[n - 1].key in m {
          BoundIsStored(b, n - 1, b[n - 1].key);
        }
        assert Bindings(b, n).Keys == m.Keys + {b[n - 1].key};
      }
    }
  }

  /** The denoted map binds exactly the stored keys, and counts them. */
  lemma BindingsAreStored<K, V>(b: seq<Bucket<K, V>>, n: nat)
    requires n <= |b| && Distinct(b)
    ensures forall i :: 0 <= i < n && b[i].Occupied? ==>
        b[i].key in Bindings(b, n) && Bindings(b, n)[b[i].key] == b[i].value
    ensures forall k :: k in Bindings(b, n) ==> Stored(b, n, k)
    ensures |Bindings(b, n)| == Count(b, n)
  {
    forall i | 0 <= i < n && b[i].Occupied?
      ensures b[i].key in Bindings(b, n) && Bindings(b, n)[b[i].key] == b[i].value {
      StoredIsBound(b, n, i);
    }
    forall k | k in Bindings(b, n) ensures Stored(b, n, k) {
      BoundIsStored(b, n, k);
    }
    BindingsCount(b, n);
  }

  /** What a lookup needs: a key is bound exactly when some bucket holds it. */
  lemma ContentsAt<K, V>(b: seq<Bucket<K, V>>, i: nat)
    requires Distinct(b) && i < |b| && b[i].Occupied?
    ensures b[i].key in Contents(b) && Contents(b)[b[i].key] == b[i].value
  {
    BindingsAreStored(b, |b|);
  }

  lemma NotStoredNotBound<K, V>(b: seq<Bucket<K, V>>, k: K)
    requires Distinct(b)
    requires forall i :: 0 <= i < |b| && b[i].Occupied? ==> b[i].key != k
    ensures k !in Contents(b)
  {
    BindingsAreStored(b, |b|);
  }

  /** Two tables whose occupied buckets hold the same bindings denote the same map. */
  lemma SameContents<K, V>(b: seq<Bucket<K, V>>, m: map<K, V>)
    requires Distinct(b)
    requires forall i :: 0 <= i < |b| && b[i].Occupied? ==> b[i].key in m && m[b[i].key] == b[i].value
    requires forall k :: k in m ==> Stored(b, |b|, k)
    ensures Contents(b) == m
  {
    BindingsAreStored(b, |b|);
    var c := Contents(b);
    forall k | k in c ensures k in m && m[k] == c[k] {
      var i :| 0 <= i < |b| && b[i].Occupied? && b[i].key == k;
    }
    forall k | k in m ensures k in c {
      var i :| 0 <= i < |b| && b[i].Occupied? && b[i].key == k;
    }
  }

  // ----- counting

  lemma {:induction false} CountUpdate<K, V>(b: seq<Bucket<K, V>>, i: nat, x: Bucket<K, V>, n: nat)
    requires i < |b| && n <= |b|
    ensures Count(b[i := x], n) == Count(b, n) +
              (if i < n && x.Occupied? then 1 else 0) - (if i < n && b[i].Occupied? then 1 else 0)
  {
    if n != 0 {
      CountUpdate(b, i, x, n - 1);
    }
  }

  lemma {:induction false} CountFull<K, V>(b: seq<Bucket<K, V>>, n: nat)
    requires n <= |b|
    ensures Count(b, n) == n <==> forall i :: 0 <= i < n ==> b[i].Occupied?
  {
    if n != 0 {
      CountFull(b, n - 1);
    }
  }

  lemma {:induction false} CountEmpty<K, V>(b: seq<Bucket<K, V>>, n: nat)
    requires n <= |b| && forall i :: 0 <= i < |b| ==> b[i].Free?
    ensures Count(b, n) == 0 && Bindings(b, n) == map[]
  {
    if n != 0 {
      CountEmpty(b, n - 1);
    }
  }

  // ----- insertion

  /** Slot i is where a probe for a key with this home stops: it is free and everything on the way
      is occupied. */
  ghost predicate FirstFree<K, V>(b: seq<Bucket<K, V>>, home: nat, i: nat) {
    && home < |b| && i < |b| && b[i].Free?
    && forall j :: 0 <= j < |b| && Distance(home, j, |b|) < Distance(home, i, |b|) ==> b[j].Occupied?
  }

  lemma InsertReachable<K, V>(b: seq<Bucket<K, V>>, i: nat, x: Bucket<K, V>)
    requires x.Occupied? && Reachable(b) && |b| > 0 && FirstFree(b, Home(x.hash, |b|), i)
    ensures Reachable(b[i := x])
  {
    var t := b[i := x];
    forall p, q | 0 <= p < |t| && 0 <= q < |t| && t[p].Occupied? && OnPath(t, p, q) ensures t[q].Occupied? {
      if p != i && q != i {
        assert OnPath(b, p, q);
      }
    }
  }

  lemma InsertTable<K, V>(b: seq<Bucket<K, V>>, i: nat, x: Bucket<K, V>, hash: K -> nat)
    requires Table(b, hash) && x.Occupied? && x.hash == hash(x.key) && |b| > 0
    requires FirstFree(b, Home(x.hash, |b|), i) && x.key !in Contents(b)
    ensures Table(b[i := x], hash) && Contents(b[i := x]) == Contents(b)[x.key := x.value]
    ensures Count(b[i := x], |b|) == Count(b, |b|) + 1
  {
    var t := b[i := x];
    InsertReachable(b, i, x);
    CountUpdate(b, i, x, |b|);
    BindingsAreStored(b, |b|);
    var m := Contents(b)[x.key := x.value];
    forall k | k in m ensures Stored(t, |t|, k) {
      if k == x.key {
        assert t[i].Occupied? && t[i].key == k;
      } else {
        assert Stored(b, |b|, k);
        var j :| 0 <= j < |b| && b[j].Occupied? && b[j].key == k;
        assert t[j].Occupied? && t[j].key == k;
      }
    }
    SameContents(t, m);
  }

  /** Assigning a new value to a present key. */
  lemma AssignTable<K, V>(b: seq<Bucket<K, V>>, i: nat, v: V, hash: K -> nat)
    requires Table(b, hash) && i < |b| && b[i].Occupied?
    ensures var t := b[i := Occupied(b[i].hash, b[i].key, v)];
            Table(t, hash) && Contents(t) == Contents(b)[b[i].key := v] && Count(t, |t|) == Count(b, |b|)
  {
    var t := b[i := Occupied(b[i].hash, b[i].key, v)];
    forall p, q | 0 <= p < |t| && 0 <= q < |t| && t[p].Occupied? && OnPath(t, p, q) ensures t[q].Occupied? {
      assert OnPath(b, p, q);
    }
    CountUpdate(b, i, t[i], |b|);
    BindingsAreStored(b, |b|);
    var m := Contents(b)[b[i].key := v];
    forall k | k in m ensures Stored(t, |t|, k) {
      if k == b[i].key {
        assert t[i].Occupied? && t[i].key == k;
      } else {
        assert Stored(b, |b|, k);
        var j :| 0 <= j < |b| && b[j].Occupied? && b[j].key == k;
        assert t[j].Occupied? && t[j].key == k;
      }
    }
    SameContents(t, m);
  }

  // ----- lookup

  /** From its home, an entry comes before every free bucket. */
  lemma StoredBeforeFree<K, V>(b: seq<Bucket<K, V>>, hash: K -> nat, p: nat, i: nat)
    requires Table(b, hash) && p < |b| && i < |b| && b[p].Occupied? && b[i].Free?
    ensures Distance(Home(hash(b[p].key), |b|), p, |b|) < Distance(Home(hash(b[p].key), |b|), i, |b|)
  {
    assert HomeAt(b, p) == Home(hash(b[p].key), |b|);
    assert !OnPath(b, p, i);
  }

  /** A probe that meets a free bucket before the key proves the key absent. */
  lemma ProbeStopsAtFree<K, V>(b: seq<Bucket<K, V>>, k: K, hash: K -> nat, i: nat)
    requires Table(b, hash) && i < |b| && b[i].Free?
    requires forall j :: 0 <= j < |b| && Distance(Home(hash(k), |b|), j, |b|) < Distance(Home(hash(k), |b|), i, |b|)
                     ==> b[j].Occupied? && b[j].key != k
    ensures k !in Contents(b) && FirstFree(b, Home(hash(k), |b|), i)
  {
    var home := Home(hash(k), |b|);
    forall p | 0 <= p < |b| && b[p].Occupied? ensures b[p].key != k {
      StoredBeforeFree(b, hash, p, i);
    }
    NotStoredNotBound(b, k);
  }

  // ----- backward-shift deletion

  /** Progress of the shift: how many positions from the hole to the next bucket to examine. */
  ghost function Scanned(hole: nat, next: nat, capacity: nat): (p: nat)
    requires hole < capacity && next < capacity
    ensures 1 <= p <= capacity
  {
    if next == hole then capacity else Distance(hole, next, capacity)
  }

  /** The loop invariant of BackwardShiftFrom_: probe paths are intact except at the hole, and only
      entries not yet examined may still lead across it. */
  ghost predicate Shifting<K, V>(b: seq<Bucket<K, V>>, hole: nat, next: nat) {
    && hole < |b| && next < |b| && b[hole].Free?
    && (forall i, j :: 0 <= i < |b| && 0 <= j < |b| && b[i].Occupied? && OnPath(b, i, j) && j != hole ==>
        b[j].Occupied?)
    && (forall i :: 0 <= i < |b| && b[i].Occupied? && OnPath(b, i, hole) ==>
        Scanned(hole, next, |b|) <= Distance(hole, i, |b|))
  }

  lemma ShiftStart<K, V>(b: seq<Bucket<K, V>>, hole: nat)
    requires Reachable(b) && hole < |b| && |b| > 1
    ensures Shifting(b[hole := Free], hole, Next(hole, |b|))
  {
    var t := b[hole := Free];
    forall i, j | 0 <= i < |t| && 0 <= j < |t| && t[i].Occupied? && OnPath(t, i, j) && j != hole
      ensures t[j].Occupied? {
      assert OnPath(b, i, j);
    }
  }

  /** The loop stops at a free bucket, and then every probe path is intact again. */
  lemma ShiftEnd<K, V>(b: seq<Bucket<K, V>>, hole: nat, next: nat)
    requires Shifting(b, hole, next) && b[next].Free?
    ensures Reachable(b)
  {
    forall i, j | 0 <= i < |b| && 0 <= j < |b| && b[i].Occupied? && OnPath(b, i, j) ensures b[j].Occupied? {
      if j == hole {
        if next != hole {
          assert OnPath(b, i, next);
        }
        assert false;
      }
    }
  }

  /** Skipping an entry whose path does not cross the hole. */
  lemma ShiftSkip<K, V>(b: seq<Bucket<K, V>>, hole: nat, next: nat)
    requires Shifting(b, hole, next) && b[next].Occupied?
    requires !(Distance(HomeAt(b, next), hole, |b|) < Distance(HomeAt(b, next), next, |b|))
    ensures Shifting(b, hole, Next(next, |b|))
  {
    forall i | 0 <= i < |b| && b[i].Occupied? && OnPath(b, i, hole)
      ensures Scanned(hole, Next(next, |b|), |b|) <= Distance(hole, i, |b|)
    {
      assert i != next;
    }
  }

  ghost function Moved<K, V>(b: seq<Bucket<K, V>>, hole: nat, next: nat): seq<Bucket<K, V>>
    requires hole < |b| && next < |b|
  {
    b[hole := b[next]][next := Free]
  }

  /** Moving an entry into the hole opens a new hole where it was. */
  lemma ShiftMove<K, V>(b: seq<Bucket<K, V>>, hole: nat, next: nat)
    requires Shifting(b, hole, next) && b[next].Occupied?
    requires Distance(HomeAt(b, next), hole, |b|) < Distance(HomeAt(b, next), next, |b|)
    ensures Shifting(Moved(b, hole, next), next, Next(next, |b|))
  {
    var t := Moved(b, hole, next);
    forall i, j | 0 <= i < |t| && 0 <= j < |t| && t[i].Occupied? && OnPath(t, i, j) && j != next
      ensures t[j].Occupied? {
      if j != hole {
        assert OnPath(b, if i == hole then next else i, j);
      }
    }
  }

  lemma MoveKeepsContents<K, V>(b: seq<Bucket<K, V>>, hole: nat, next: nat, hash: K -> nat)
    requires hole < |b| && next < |b| && b[hole].Free? && b[next].Occupied?
    requires Distinct(b) && Hashed(b, hash)
    ensures var t := Moved(b, hole, next);
            Distinct(t) && Hashed(t, hash) && Contents(t) == Contents(b) && Count(t, |t|) == Count(b, |b|)
  {
    var t := Moved(b, hole, next);
    CountUpdate(b, hole, b[next], |b|);
    CountUpdate(b[hole := b[next]], next, Free, |b|);
    BindingsAreStored(b, |b|);
    forall k | k in Contents(b) ensures Stored(t, |t|, k) {
      assert Stored(b, |b|, k);
      var j :| 0 <= j < |b| && b[j].Occupied? && b[j].key == k;
      var j' := if j == next then hole else j;
      assert t[j'].Occupied? && t[j'].key == k;
    }
    SameContents(t, Contents(b));
  }

  /** Removing the entry in bucket i, before the shift. */
  lemma RemoveContents<K, V>(b: seq<Bucket<K, V>>, i: nat, hash: K -> nat)
    requires Distinct(b) && Hashed(b, hash) && i < |b| && b[i].Occupied?
    ensures var t := b[i := Free];
            Distinct(t) && Hashed(t, hash) && Contents(t) == Contents(b) - {b[i].key}
                && Count(t, |t|) == Count(b, |b|) - 1
  {
    var t := b[i := Free];
    CountUpdate(b, i, Free, |b|);
    BindingsAreStored(b, |b|);
    var m := Contents(b) - {b[i].key};
    forall k | k in m ensures Stored(t, |t|, k) {
      assert Stored(b, |b|, k);
      var j :| 0 <= j < |b| && b[j].Occupied? && b[j].key == k;
      assert t[j].Occupied? && t[j].key == k;
    }
    SameContents(t, m);
  }

  /** Sum over the first n buckets of how far each entry sits from its home; every move lowers it,
      so the shift terminates even on a table that was completely full. */
  ghost function Displacement<K, V>(b: seq<Bucket<K, V>>, n: nat): nat
    requires n <= |b|
  {
    if n == 0 then 0
    else Displacement(b, n - 1) + if b[n - 1].Occupied? then Distance(HomeAt(b, n - 1), n - 1, |b|) else 0
  }

  ghost function Offset<K, V>(b: seq<Bucket<K, V>>, i: nat, x: Bucket<K, V>): nat
    requires i < |b|
  {
    if x.Occupied? then Distance(Home(x.hash, |b|), i, |b|) else 0
  }

  lemma {:induction false} DisplacementUpdate<K, V>(b: seq<Bucket<K, V>>, i: nat, x: Bucket<K, V>, n: nat)
    requires i < |b| && n <= |b|
    ensures Displacement(b[i := x], n) == Displacement(b, n) +
              (if i < n then Offset(b, i, x) - Offset(b, i, b[i]) else 0)
  {
    if n != 0 {
      DisplacementUpdate(b, i, x, n - 1);
    }
  }

  lemma MoveLowersDisplacement<K, V>(b: seq<Bucket<K, V>>, hole: nat, next: nat)
    requires hole < |b| && next < |b| && b[hole].Free? && b[next].Occupied?
    requires Distance(HomeAt(b, next), hole, |b|) < Distance(HomeAt(b, next), next, |b|)
    ensures Displacement(Moved(b, hole, next), |b|) < Displacement(b, |b|)
  {
    DisplacementUpdate(b, hole, b[next], |b|);
    DisplacementUpdate(b[hole := b[next]], next, Free, |b|);
  }
}

/** FlatHashMap: the class with its bucket array, probing loops, growth and backward-shift deletion,
    proved to implement a mathematical map. */
module FlatHashMap {
  import opened PowersOfTwo
  import opened ProbeTable

  const INITIAL_CAPACITY := 16

  // ----- capacities

  /** The bucket count that Initialize_ and Rehash settle on. */
  function TargetCapacity(requested: nat): (r: nat)
    ensures IsPowerOfTwo(r) && r >= INITIAL_CAPACITY && requested <= r
  {
    var p := NextPow2(requested);
    assert IsPowerOfTwo(2) && IsPowerOfTwo(4) && IsPowerOfTwo(8) && IsPowerOfTwo(16);
    if p < INITIAL_CAPACITY then INITIAL_CAPACITY else p
  }

  /** It is the least power of two that is enough. */
  lemma TargetIsLeast(requested: nat, capacity: nat)
    requires IsPowerOfTwo(capacity) && capacity >= INITIAL_CAPACITY && capacity >= requested
    ensures TargetCapacity(requested) <= capacity
  {
    NextPow2IsLeast(requested, capacity);
  }

  datatype Slot = NotFound | Found(index: nat)
  datatype Lookup<V> = Absent | Present(value: V)

  /** The mutating operations, for statements about whole runs.  MoveAway makes another map of this one's
      entries. */
  datatype Operation<K, V> =
    | Insert(key: K, value: V)
    | Remove(key: K)
    | Clear
    | Reserve(count: nat)
    | Rehash(bucketCount: nat)
    | MoveAway

  ghost function Apply<K, V>(m: map<K, V>, op: Operation<K, V>): map<K, V> {
    match op
    case Insert(k, v) => m[k := v]
    case Remove(k) => m - {k}
    case Clear => map[]
    case Reserve(_) => m
    case Rehash(_) => m
    case MoveAway => map[]
  }

  /** A caller's Rehash needs room for the entries there are. */
  ghost predicate Fits<K, V>(m: map<K, V>, op: Operation<K, V>) {
    op.Rehash? ==> |m| <= TargetCapacity(op.bucketCount)
  }

  ghost function ApplyAll<K, V>(m: map<K, V>, ops: seq<Operation<K, V>>): map<K, V>
    decreases |ops|
  {
    if ops == [] then m else ApplyAll(Apply(m, ops[0]), ops[1..])
  }

  ghost predicate AllFit<K, V>(m: map<K, V>, ops: seq<Operation<K, V>>)
    decreases |ops|
  {
    ops != [] ==> Fits(m, ops[0]) && AllFit(Apply(m, ops[0]), ops[1..])
  }

  class FlatHashMap<K(==), V> {
    const hash: K -> nat
    var buckets: array<Bucket<K, V>>
    var size: nat

    /** A map that was moved from has no buckets; otherwise the capacity is a power of two. */
    ghost predicate Valid()
      reads this, buckets
    {
      && (buckets.Length == 0 || (IsPowerOfTwo(buckets.Length) && buckets.Length >= INITIAL_CAPACITY))
      && Table(buckets[..], hash)
      && size == Count(buckets[..], buckets.Length)
    }

    /** The map that this object denotes. */
    ghost function Model(): map<K, V>
      reads this, buckets
    {
      Contents(buckets[..])
    }

    /** Size() is the number of bindings. */
    lemma SizeIsCardinality()
      requires Valid()
      ensures size == |Model()| && size <= buckets.Length
    {
      BindingsAreStored(buckets[..], buckets.Length);
    }

    constructor (requestedCapacity: nat, hash: K -> nat)
      ensures Valid() && fresh(buckets) && Model() == map[] && this.hash == hash
      ensures buckets.Length == TargetCapacity(requestedCapacity)
    {
      this.hash := hash;
      size := 0;
      var capacity := TargetCapacity(requestedCapacity);
      buckets := new Bucket<K, V>[capacity](_ => Free);
      new;
      CountEmpty(buckets[..], buckets.Length);
    }

    /** Initialize_: an empty table of the given capacity. */
    method Initialize(requestedCapacity: nat)
      modifies this
      ensures Valid() && fresh(buckets) && Model() == map[] && size == 0
      ensures buckets.Length == TargetCapacity(requestedCapacity)
    {
      size := 0;
      buckets := new Bucket<K, V>[TargetCapacity(requestedCapacity)](_ => Free);
      CountEmpty(buckets[..], buckets.Length);
    }

    /** FindIndex_; it runs the same loop as FindInsertSlot_ and differs only in what it reports for
        a free bucket. */
    method FindIndex(key: K, h: nat) returns (slot: Slot)
      requires Valid() && h == hash(key)
      ensures slot.NotFound? <==> key !in Model()
      ensures slot.Found? ==> slot.index < buckets.Length && buckets[slot.index].Occupied?
      ensures slot.Found? ==> buckets[slot.index].key == key && Model()[key] == buckets[slot.index].value
    {
      var s := FindInsertSlot(key, h);
      if s.Found? && buckets[s.index].Occupied? {
        ContentsAt(buckets[..], s.index);
        return s;
      }
      return NotFound;
    }

    /** FindInsertSlot_: the bucket that holds the key, or the first free one on its path, or none
        when the table is full. */
    method FindInsertSlot(key: K, h: nat) returns (slot: Slot)
      requires Valid() && h == hash(key)
      ensures slot.Found? ==> slot.index < buckets.Length
      ensures slot.Found? && buckets[slot.index].Occupied? ==> buckets[slot.index].key == key
      ensures slot.Found? && buckets[slot.index].Free? ==>
                key !in Model() && FirstFree(buckets[..], Home(h, buckets.Length), slot.index)
      ensures slot.NotFound? ==> key !in Model() && size == buckets.Length
    {
      var capacity := buckets.Length;
      ghost var b := buckets[..];
      if capacity == 0 {
        return NotFound;
      }
      var home := Home(h, capacity);
      var index: nat := home;
      var probed := 0;
      while probed < capacity
        invariant probed <= capacity && index < capacity
        invariant probed < capacity ==> Distance(home, index, capacity) == probed
        invariant forall j :: 0 <= j < capacity && Distance(home, j, capacity) < probed ==>
            b[j].Occupied? && b[j].key != key
      {
        if buckets[index].Free? {
          ProbeStopsAtFree(b, key, hash, index);
          return Found(index);
        }
        if buckets[index].hash == h && buckets[index].key == key {
          return Found(index);
        }
        index := Next(index, capacity);
        probed := probed + 1;
      }
      NotStoredNotBound(b, key);
      CountFull(b, capacity);
      return NotFound;
    }

    /** GetPtr. */
    method Get(key: K) returns (r: Lookup<V>)
      requires Valid()
      ensures r == if key in Model() then Present(Model()[key]) else Absent
    {
      var slot := FindIndex(key, hash(key));
      match slot {
        case NotFound => r := Absent;
        case Found(i) => r := Present(buckets[i].value);
      }
    }

    /** Writing a fresh entry into the slot found for it. */
    method Place(index: nat, h: nat, key: K, value: V)
      requires Valid() && index < buckets.Length && h == hash(key) && key !in Model()
      requires FirstFree(buckets[..], Home(h, buckets.Length), index)
      modifies this`size, buckets
      ensures Valid() && Model() == old(Model())[key := value] && size == old(size) + 1
    {
      InsertTable(buckets[..], index, Occupied(h, key, value), hash);
      ghost var b := buckets[..];
      buckets[index] := Occupied(h, key, value);
      assert buckets[..] == b[index := Occupied(h, key, value)];
      size := size + 1;
    }

    /** InsertExisting_: reports failure where the source throws std::bad_alloc. */
    method InsertExisting(h: nat, key: K, value: V) returns (ok: bool)
      requires Valid() && h == hash(key) && key !in Model()
      modifies this`size, buckets
      ensures Valid() && (ok <==> old(size) < buckets.Length)
      ensures ok ==> Model() == old(Model())[key := value] && size == old(size) + 1
      ensures !ok ==> Model() == old(Model()) && size == old(size)
    {
      var slot := FindInsertSlot(key, h);
      if slot.NotFound? {
        return false;
      }
      if buckets[slot.index].Occupied? {
        ContentsAt(buckets[..], slot.index);
        assert false;
      }
      CountFull(buckets[..], buckets.Length);
      Place(slot.index, h, key, value);
      return true;
    }

    /** The copying loop of Rehash into a fresh table. */
    method Refill(source: array<Bucket<K, V>>) returns (ok: bool)
      requires Valid() && Model() == map[] && source != buckets && Table(source[..], hash)
      modifies this`size, buckets
      ensures Valid()
      ensures ok <==> Count(source[..], source.Length) <= buckets.Length
      ensures ok ==> Model() == Contents(source[..])
      ensures !ok ==> size == buckets.Length
      ensures forall k :: k in Model() ==> k in Contents(source[..]) && Model()[k] == Contents(source[..])[k]
    {
      ghost var b := source[..];
      SizeIsCardinality();
      var i := 0;
      while i < source.Length
        invariant i <= source.Length && source[..] == b
        invariant Valid() && Model() == Bindings(b, i) && size == Count(b, i)
      {
        if source[i].Occupied? {
          KeyNotBefore(b, i);
          var placed := InsertExisting(source[i].hash, source[i].key, source[i].value);
          if !placed {
            SizeIsCardinality();
            CountMonotonic(b, i + 1, |b|);
            PrefixBindings(b, i);
            return false;
          }
        }
        i := i + 1;
      }
      SizeIsCardinality();
      return true;
    }

    /** Rehash succeeds, and keeps the map, exactly when the new bucket count can hold every entry;
        otherwise the source throws and what is left is a full table with some of the entries. */
    method Rehash(newBucketCount: nat) returns (ok: bool)
      requires Valid()
      modifies this
      ensures Valid() && (buckets == old(buckets) || fresh(buckets))
      ensures buckets.Length == TargetCapacity(newBucketCount)
      ensures ok <==> old(size) <= TargetCapacity(newBucketCount)
      ensures ok ==> Model() == old(Model()) && size == old(size)
      ensures !ok ==> size == buckets.Length
      ensures forall k :: k in Model() ==> k in old(Model()) && Model()[k] == old(Model())[k]
    {
      var target := TargetCapacity(newBucketCount);
      SizeIsCardinality();
      if target == buckets.Length {
        return true;
      }
      var oldBuckets := buckets;
      Initialize(target);
      TargetIsFixed(newBucketCount);
      ok := Refill(oldBuckets);
      SizeIsCardinality();
      BindingsAreStored(oldBuckets[..], oldBuckets.Length);
    }

    /** Reserve: afterwards `count` entries fit without exceeding the load limit of 3/4. */
    method Reserve(count: nat)
      requires Valid()
      modifies this
      ensures Valid() && (buckets == old(buckets) || fresh(buckets))
      ensures Model() == old(Model()) && size == old(size)
      ensures 4 * count <= 3 * buckets.Length && old(buckets.Length) <= buckets.Length
    {
      SizeIsCardinality();
      var wanted := count * 4 / 3 + 1;
      var target := TargetCapacity(wanted);
      if target <= buckets.Length {
        return;
      }
      TargetIsFixed(wanted);
      var ok := Rehash(target);
    }

    /** MaybeGrow_: doubles the capacity when the load factor exceeds 3/4. */
    method MaybeGrow()
      requires Valid()
      modifies this
      ensures Valid() && (buckets == old(buckets) || fresh(buckets))
      ensures Model() == old(Model()) && size == old(size)
      ensures buckets.Length > 0 ==> size + 1 < buckets.Length
      ensures old(buckets.Length) == 0 ==> buckets.Length == 0
      ensures old(buckets.Length) > 0 ==> buckets.Length > 0
    {
      SizeIsCardinality();
      if buckets.Length == 0 || 4 * size <= 3 * buckets.Length {
        return;
      }
      var ok := Rehash(buckets.Length * 2);
    }

    /** InsertImpl_: binds the key, and leaves at least one bucket free. */
    method InsertKey(key: K, value: V)
      requires Valid()
      modifies this, buckets
      ensures Valid() && (buckets == old(buckets) || fresh(buckets))
      ensures Model() == old(Model())[key := value]
      ensures size < buckets.Length
      decreases if buckets.Length == 0 then 1 else 0
    {
      MaybeGrow();
      var h := hash(key);
      var slot := FindInsertSlot(key, h);
      if slot.NotFound? {
        // Only a table without buckets is full after MaybeGrow, so the larger of the initial capacity
        // and twice the present one is the initial capacity.
        SizeIsCardinality();
        var ok := Rehash(INITIAL_CAPACITY);
        InsertKey(key, value);
        return;
      }
      if buckets[slot.index].Occupied? {
        AssignTable(buckets[..], slot.index, value, hash);
        ContentsAt(buckets[..], slot.index);
        ghost var b := buckets[..];
        var updated := Occupied(buckets[slot.index].hash, buckets[slot.index].key, value);
        buckets[slot.index] := updated;
        assert buckets[..] == b[slot.index := updated];
      } else {
        Place(slot.index, h, key, value);
      }
      SizeIsCardinality();
    }

    /** RemoveImpl_. */
    method RemoveKey(key: K)
      requires Valid()
      modifies this`size, buckets
      ensures Valid() && Model() == old(Model()) - {key}
      ensures key in old(Model()) ==> size == old(size) - 1 && size < buckets.Length
      ensures key !in old(Model()) ==> size == old(size)
    {
      var slot := FindIndex(key, hash(key));
      if slot.NotFound? {
        return;
      }
      ghost var b := buckets[..];
      SizeIsCardinality();
      RemoveContents(b, slot.index, hash);
      CountUpdate(b, slot.index, Free, |b|);
      ShiftStart(b, slot.index);
      buckets[slot.index] := Free;
      assert buckets[..] == b[slot.index := Free];
      size := size - 1;
      BackwardShiftFrom(slot.index);
    }

    /** BackwardShiftFrom_: repairs every probe path that crossed the hole. */
    method BackwardShiftFrom(holeIndex: nat)
      requires holeIndex < buckets.Length && buckets.Length > 1
      requires Distinct(buckets[..]) && Hashed(buckets[..], hash)
      requires Shifting(buckets[..], holeIndex, Next(holeIndex, buckets.Length))
      modifies buckets
      ensures Table(buckets[..], hash)
      ensures Contents(buckets[..]) == old(Contents(buckets[..]))
      ensures Count(buckets[..], buckets.Length) == old(Count(buckets[..], buckets.Length))
    {
      var capacity := buckets.Length;
      var hole := holeIndex;
      var next := Next(hole, capacity);
      while buckets[next].Occupied?
        invariant Distinct(buckets[..]) && Hashed(buckets[..], hash)
        invariant Shifting(buckets[..], hole, next)
        invariant Contents(buckets[..]) == old(Contents(buckets[..]))
        invariant Count(buckets[..], capacity) == old(Count(buckets[..], capacity))
        decreases Displacement(buckets[..], capacity), Distance(next, hole, capacity)
      {
        ghost var b := buckets[..];
        var home := Home(buckets[next].hash, capacity);
        if Distance(home, hole, capacity) < Distance(home, next, capacity) {
          ShiftMove(b, hole, next);
          MoveKeepsContents(b, hole, next, hash);
          MoveLowersDisplacement(b, hole, next);
          buckets[hole] := buckets[next];
          buckets[next] := Free;
          assert buckets[..] == Moved(b, hole, next);
          hole := next;
        } else {
          ShiftSkip(b, hole, next);
        }
        next := Next(next, capacity);
      }
      ShiftEnd(buckets[..], hole, next);
    }

    /** Clear keeps the capacity. */
    method ClearAll()
      requires Valid()
      modifies this`size, buckets
      ensures Valid() && Model() == map[] && size == 0
    {
      var i := 0;
      while i < buckets.Length
        invariant i <= buckets.Length
        invariant forall j :: 0 <= j < i ==> buckets[j].Free?
        modifies buckets
      {
        if buckets[i].Occupied? {
          buckets[i] := Free;
        }
        i := i + 1;
      }
      size := 0;
      CountEmpty(buckets[..], buckets.Length);
    }

    /** Moving from another map takes its buckets and leaves it without any. */
    method TakeFrom(other: FlatHashMap<K, V>)
      requires other.Valid() && other != this && other.hash == hash
      modifies this, other
      ensures Valid() && Model() == old(other.Model()) && buckets == old(other.buckets)
      ensures other.Valid() && other.Model() == map[] && other.buckets.Length == 0 && fresh(other.buckets)
    {
      buckets := other.buckets;
      size := other.size;
      other.buckets := new Bucket<K, V>[0](_ => Free);
      other.size := 0;
      CountEmpty(other.buckets[..], 0);
    }

    method Do(op: Operation<K, V>) returns (ok: bool)
      requires Valid()
      modifies this, buckets
      ensures Valid() && (buckets == old(buckets) || fresh(buckets))
      ensures ok <==> Fits(old(Model()), op)
      ensures ok ==> Model() == Apply(old(Model()), op)
      ensures !ok ==> size == buckets.Length
      ensures !op.Rehash? && !op.MoveAway? && old(size < buckets.Length) ==> size < buckets.Length
    {
      ok := true;
      match op {
        case Insert(k, v) => InsertKey(k, v);
        case Remove(k) => RemoveKey(k);
        case Clear => ClearAll();
        case Reserve(n) => Reserve(n);
        case Rehash(n) =>
          SizeIsCardinality();
          ok := Rehash(n);
        case MoveAway =>
          var taker := new FlatHashMap<K, V>(0, hash);
          taker.TakeFrom(this);
      }
    }

    /** After any sequence of operations the object denotes the map that the sequence builds, unless it comes to a
        Rehash without room, which fails; from full tables and from tables that were moved away too. */
    method Run(ops: seq<Operation<K, V>>) returns (ok: bool)
      requires Valid()
      modifies this, buckets
      ensures Valid() && (buckets == old(buckets) || fresh(buckets))
      ensures ok <==> AllFit(old(Model()), ops)
      ensures ok ==> Model() == ApplyAll(old(Model()), ops)
    {
      var i := 0;
      ok := true;
      while i < |ops|
        invariant i <= |ops|
        invariant Valid() && (buckets == old(buckets) || fresh(buckets))
        invariant ok && ApplyAll(Model(), ops[i..]) == ApplyAll(old(Model()), ops)
        invariant AllFit(Model(), ops[i..]) == AllFit(old(Model()), ops)
        modifies this, buckets
      {
        assert ops[i..][0] == ops[i] && ops[i..][1..] == ops[i + 1..];
        ok := Do(ops[i]);
        if !ok {
          return;
        }
        i := i + 1;
      }
    }
  }

  // ----- facts used by Rehash

  lemma KeyNotBefore<K, V>(b: seq<Bucket<K, V>>, i: nat)
    requires i < |b| && b[i].Occupied? && Distinct(b)
    ensures b[i].key !in Bindings(b, i)
  {
    if b[i].key in Bindings(b, i) {
      BoundIsStored(b, i, b[i].key);
      assert false;
    }
  }

  lemma PrefixBindings<K, V>(b: seq<Bucket<K, V>>, n: nat)
    requires n <= |b| && Distinct(b)
    ensures forall k :: k in Bindings(b, n) ==> k in Contents(b) && Bindings(b, n)[k] == Contents(b)[k]
  {
    BindingsAreStored(b, n);
    BindingsAreStored(b, |b|);
    forall k | k in Bindings(b, n) ensures k in Contents(b) && Bindings(b, n)[k] == Contents(b)[k] {
      var i :| 0 <= i < n && b[i].Occupied? && b[i].key == k;
    }
  }

  lemma {:induction false} CountMonotonic<K, V>(b: seq<Bucket<K, V>>, m: nat, n: nat)
    requires m <= n <= |b|
    ensures Count(b, m) <= Count(b, n)
    decreases n
  {
    if m < n {
      CountMonotonic(b, m, n - 1);
    }
  }

  lemma TargetIsFixed(n: nat)
    ensures TargetCapacity(TargetCapacity(n)) == TargetCapacity(n)
  {
    PowerIsFixed(TargetCapacity(n), 1);
  }
}

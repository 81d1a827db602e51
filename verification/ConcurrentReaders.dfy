/** Lock-free readers of one shard of ConcurrentHashMap against its writer, with the LocalEpoch
    reclaimer (include/NGIN/Containers/detail/ConcurrentHashMapDetail.hpp).

    A lookup touches only the shard that its hash selects, and the writers of a shard exclude each
    other by its lock; so the model is one shard, one writer and any number of readers, stepping in
    any order.  A step is one access to shared memory, or one section under the records lock. */
module ConcurrentReaders {
  import opened Options
  import opened HashChains

  /** What has become of a heap object. */
  datatype Status = Linked | Unlinked | Retired(epoch: nat) | Freed

  /** A chain is allocated for one bucket table and never changes afterwards.  It is freed with that
      table unless it was replaced in its bucket before. */
  datatype ChainCell<K, V> = ChainCell(entries: seq<Entry<K, V>>, owner: nat, status: Status)

  /** A bucket table.  Once it is unlinked, asOf says which of the past maps it still shows. */
  datatype TableCell = TableCell(heads: seq<nat>, status: Status, asOf: nat)

  /** Progress of one lookup.  Epochs and indices into the history of maps are recorded as read. */
  datatype Reader<K, V> =
    | Idle
    | EpochLoaded(key: K, epoch: nat)
    | Registered(key: K, epoch: nat)
    | HasTable(key: K, epoch: nat, table: nat, since: nat)
    | HasChain(key: K, epoch: nat, chain: nat, since: nat, at: nat, until: nat)
    | Done(key: K, epoch: nat, result: Option<V>, since: nat, at: nat, until: nat)

  /** What the writer still has to do before it may start something else. */
  datatype Writer = Ready | MustRetireTable(table: nat) | MustRetireChain(chain: nat) | Bumped
    | Reclaiming(minimum: nat)

  datatype State<K, V> = State(
    tables: seq<TableCell>,
    chains: seq<ChainCell<K, V>>,
    current: nat,
    epoch: nat,
    writer: Writer,
    readers: seq<Reader<K, V>>,
    history: seq<map<K, V>>)

  datatype Step<K, V> =
    | LoadEpoch(r: nat, k: K) | Register(r: nat) | LoadTable(r: nat) | LoadHead(r: nat) | ReadChain(r: nat)
    | Unregister(r: nat)
    | Put(pk: K, pv: V) | Erase(ek: K) | Resize(bucketCount: nat) | Clear
    | RetireTable | RetireChain | PollBump | PollMinimum | PollFree(victim: Object) | PollEnd

  datatype Object = ATable(t: nat) | AChain(c: nat)

  // ----- reading the state

  ghost predicate WellFormedTable<K, V>(s: State<K, V>, t: nat) {
    && t < |s.tables| && |s.tables[t].heads| > 0
    && forall b :: 0 <= b < |s.tables[t].heads| ==> s.tables[t].heads[b] < |s.chains|
  }

  ghost function HeadOf<K, V>(s: State<K, V>, t: nat, hash: K -> nat, k: K): (c: nat)
    requires WellFormedTable(s, t)
    ensures c < |s.chains|
  {
    s.tables[t].heads[hash(k) % |s.tables[t].heads|]
  }

  /** What a table shows for a key. */
  ghost function Shows<K, V>(s: State<K, V>, t: nat, hash: K -> nat, k: K): Option<V>
    requires WellFormedTable(s, t)
  {
    Find(s.chains[HeadOf(s, t, hash, k)].entries, k)
  }

  ghost function Now<K, V>(s: State<K, V>): map<K, V>
    requires |s.history| > 0
  {
    s.history[|s.history| - 1]
  }

  ghost predicate IsRegistered<K, V>(r: Reader<K, V>) {
    r.Registered? || r.HasTable? || r.HasChain? || r.Done?
  }

  // ----- steps

  ghost predicate ReaderStep<K, V>(s: State<K, V>, s': State<K, V>, r: nat, next: Reader<K, V>) {
    r < |s.readers| && s' == s.(readers := s.readers[r := next])
  }

  /** The table stored for a bucket-chain update: a fresh chain in one bucket. */
  ghost predicate StoresChain<K, V>(s: State<K, V>, s': State<K, V>, hash: K -> nat, k: K, entries: seq<Entry<K, V>>,
      m: map<K, V>)
  {
    && s.writer.Ready? && WellFormedTable(s, s.current)
    && var old' := HeadOf(s, s.current, hash, k);
       var b := hash(k) % |s.tables[s.current].heads|;
       var cell := s.tables[s.current];
       s' == s.(chains := s.chains[old' := s.chains[old'].(status := Unlinked)]
           + [ChainCell(entries, s.current, Linked)],
                tables := s.tables[s.current := cell.(heads := cell.heads[b := |s.chains|])],
                writer := MustRetireChain(old'),
                history := s.history + [m])
  }

  /** A table stored in place of the current one, with chains of its own that show the map m. */
  ghost predicate StoresTable<K(!new), V>(s: State<K, V>, s': State<K, V>, hash: K -> nat, m: map<K, V>,
      history: seq<map<K, V>>) {
    && s.writer.Ready? && s.current < |s.tables| && |s.history| > 0
    && var n := |s.tables|;
       && |s'.tables| == n + 1 && |s'.chains| >= |s.chains|
       && s'.tables[..n] == s.tables[s.current := s.tables[s.current].(status := Unlinked, asOf := |s.history| - 1)]
       && s'.chains[..|s.chains|] == s.chains
       && WellFormedTable(s', n) && s'.tables[n].status.Linked?
       && (forall i, j :: 0 <= i < j < |s'.tables[n].heads| ==> s'.tables[n].heads[i] != s'.tables[n].heads[j])
       && (forall b :: 0 <= b < |s'.tables[n].heads| ==>
            var c := s'.tables[n].heads[b]; |s.chains| <= c && s'.chains[c].owner == n && s'.chains[c].status.Linked?)
       && (forall c :: |s.chains| <= c < |s'.chains| ==> s'.chains[c].owner == n && s'.chains[c].status.Linked?)
       && (forall k: K :: Shows(s', n, hash, k) == Bound(m, k))
       && s' == s.(tables := s'.tables, chains := s'.chains, current := n, writer := MustRetireTable(s.current),
           history := history)
  }

  /** MinimumActiveEpoch: the least of the epoch and the epochs of the registered readers. */
  ghost predicate IsMinimum<K, V>(s: State<K, V>, minimum: nat) {
    && minimum <= s.epoch
    && (forall r :: 0 <= r < |s.readers| && IsRegistered(s.readers[r]) ==> minimum <= s.readers[r].epoch)
    && (minimum == s.epoch || exists r ::
        0 <= r < |s.readers| && IsRegistered(s.readers[r]) && minimum == s.readers[r].epoch)
  }

  ghost predicate Enabled<K(!new), V>(s: State<K, V>, s': State<K, V>, hash: K -> nat, step: Step<K, V>) {
    match step
    case LoadEpoch(r, k) => r < |s.readers| && s.readers[r].Idle? && ReaderStep(s, s', r, EpochLoaded(k, s.epoch))
    case Register(r) =>
      r < |s.readers| && s.readers[r].EpochLoaded?
          && ReaderStep(s, s', r, Registered(s.readers[r].key, s.readers[r].epoch))
    case LoadTable(r) =>
      && r < |s.readers| && s.readers[r].Registered? && |s.history| > 0
      && ReaderStep(s, s', r, HasTable(s.readers[r].key, s.readers[r].epoch, s.current, |s.history| - 1))
    case LoadHead(r) =>
      && r < |s.readers| && s.readers[r].HasTable? && |s.history| > 0 && WellFormedTable(s, s.readers[r].table)
      && var q := s.readers[r];
         var at := if q.table == s.current then |s.history| - 1 else s.tables[q.table].asOf;
         ReaderStep(s, s', r, HasChain(q.key, q.epoch, HeadOf(s, q.table, hash, q.key), q.since, at, |s.history| - 1))
    case ReadChain(r) =>
      && r < |s.readers| && s.readers[r].HasChain? && s.readers[r].chain < |s.chains|
      && var q := s.readers[r];
         ReaderStep(s, s', r, Done(q.key, q.epoch, Find(s.chains[q.chain].entries, q.key), q.since, q.at, q.until))
    case Unregister(r) => r < |s.readers| && s.readers[r].Done? && ReaderStep(s, s', r, Idle)
    case Put(k, v) =>
      && WellFormedTable(s, s.current) && |s.history| > 0
      && var es := s.chains[HeadOf(s, s.current, hash, k)].entries;
         StoresChain(s, s', hash, k,
                     if Find(es, k).None? then [Entry(hash(k), k, v)] + es else Replacing(es, k, v), Now(s)[k := v])
    case Erase(k) =>
      && WellFormedTable(s, s.current) && |s.history| > 0
      && StoresChain(s, s', hash, k, Without(s.chains[HeadOf(s, s.current, hash, k)].entries, k), Now(s) - {k})
    case Resize(n) =>
      |s.history| > 0 && StoresTable(s, s', hash, Now(s), s.history) && |s'.tables[s'.current].heads| == n
    case Clear => StoresTable(s, s', hash, map[], s.history + [map[]])
    case RetireTable =>
      && s.writer.MustRetireTable? && s.writer.table < |s.tables|
      && s' == s.(tables := s.tables[s.writer.table := s.tables[s.writer.table].(status := Retired(s.epoch))],
          writer := Ready)
    case RetireChain =>
      && s.writer.MustRetireChain? && s.writer.chain < |s.chains|
      && s' == s.(chains := s.chains[s.writer.chain := s.chains[s.writer.chain].(status := Retired(s.epoch))],
          writer := Ready)
    case PollBump => s.writer.Ready? && s' == s.(epoch := s.epoch + 1, writer := Bumped)
    case PollMinimum =>
      && s.writer.Bumped? && s'.writer.Reclaiming? && IsMinimum(s, s'.writer.minimum)
      && s' == s.(writer := s'.writer)
    case PollFree(ATable(t)) =>
      && s.writer.Reclaiming? && t < |s.tables| && s.tables[t].status.Retired?
          && s.tables[t].status.epoch < s.writer.minimum
      && s' == s.(tables := s.tables[t := s.tables[t].(status := Freed)])
    case PollFree(AChain(c)) =>
      && s.writer.Reclaiming? && c < |s.chains| && s.chains[c].status.Retired?
          && s.chains[c].status.epoch < s.writer.minimum
      && s' == s.(chains := s.chains[c := s.chains[c].(status := Freed)])
    case PollEnd => s.writer.Reclaiming? && s' == s.(writer := Ready)
  }

  ghost predicate Init<K(!new), V>(s: State<K, V>, hash: K -> nat) {
    && |s.tables| == 1 && s.current == 0 && WellFormedTable(s, 0) && s.tables[0].status.Linked?
    && (forall c :: 0 <= c < |s.chains| ==> s.chains[c] == ChainCell([], 0, Linked))
    && s.epoch == 1 && s.writer.Ready? && s.history == [map[]]
    && (forall r :: 0 <= r < |s.readers| ==> s.readers[r].Idle?)
    && HeadsDistinct(s)
  }

  // ----- what holds in every reachable state

  /** Buckets of the current table have chains of their own. */
  ghost predicate HeadsDistinct<K, V>(s: State<K, V>) {
    s.current < |s.tables| &&
    var heads := s.tables[s.current].heads;
    forall i, j :: 0 <= i < j < |heads| ==> heads[i] != heads[j]
  }

  /** Every table is well formed; its chains were allocated for it and are still in place. */
  ghost predicate TablesOk<K, V>(s: State<K, V>) {
    && s.current < |s.tables|
    && (forall t :: 0 <= t < |s.tables| ==> WellFormedTable(s, t) && (s.tables[t].status.Linked? <==> t == s.current))
    && (forall t, b :: 0 <= t < |s.tables| && 0 <= b < |s.tables[t].heads| ==>
          s.chains[s.tables[t].heads[b]].owner == t && s.chains[s.tables[t].heads[b]].status.Linked?)
    && (forall c :: 0 <= c < |s.chains| ==> s.chains[c].owner < |s.tables|)
  }

  /** The current table shows the present map, a replaced table the map of the moment it was replaced. */
  ghost predicate ShowsOk<K(!new), V>(s: State<K, V>, hash: K -> nat)
    requires TablesOk(s)
  {
    && |s.history| > 0
    && (forall k: K :: Shows(s, s.current, hash, k) == Bound(Now(s), k))
    && (forall t :: 0 <= t < |s.tables| && t != s.current ==> s.tables[t].asOf < |s.history|)
    && (forall t, k: K :: 0 <= t < |s.tables| && t != s.current ==>
          Shows(s, t, hash, k) == Bound(s.history[s.tables[t].asOf], k))
  }

  /** A reader of epoch e may still touch the object. */
  ghost predicate SafeTable<K, V>(s: State<K, V>, t: nat, e: nat) {
    t < |s.tables| && !s.tables[t].status.Freed? && (s.tables[t].status.Retired? ==> e <= s.tables[t].status.epoch)
  }

  ghost predicate SafeChain<K, V>(s: State<K, V>, c: nat, e: nat) {
    c < |s.chains| &&
    match s.chains[c].status
    case Linked => SafeTable(s, s.chains[c].owner, e)
    case Unlinked => true
    case Retired(r) => e <= r
    case Freed => false
  }

  /** What the running reclamation must leave alone. */
  ghost predicate Spared<K, V>(s: State<K, V>, r: Reader<K, V>) {
    s.writer.Reclaiming? ==>
      && (r.HasTable? ==> SafeTable(s, r.table, s.writer.minimum))
      && (r.HasChain? ==> SafeChain(s, r.chain, s.writer.minimum))
  }

  ghost predicate ReaderOk<K, V>(s: State<K, V>, hash: K -> nat, r: Reader<K, V>)
    requires TablesOk(s)
  {
    && Spared(s, r)
    && match r
       case Idle => true
       case EpochLoaded(_, e) => e <= s.epoch
       case Registered(_, e) => e <= s.epoch
       case HasTable(_, e, t, since) =>
         && e <= s.epoch && SafeTable(s, t, e) && since < |s.history|
         && (t != s.current ==> since <= s.tables[t].asOf < |s.history|)
       case HasChain(k, e, c, since, at, until) =>
         && e <= s.epoch && SafeChain(s, c, e) && since <= at <= until < |s.history|
         && Find(s.chains[c].entries, k) == Bound(s.history[at], k)
       case Done(k, e, result, since, at, until) =>
         && e <= s.epoch && since <= at <= until < |s.history| && result == Bound(s.history[at], k)
  }

  ghost predicate WriterOk<K, V>(s: State<K, V>) {
    match s.writer
    case Ready => true
    case Bumped => true
    case MustRetireTable(t) => t < |s.tables| && s.tables[t].status.Unlinked?
    case MustRetireChain(c) => c < |s.chains| && s.chains[c].status.Unlinked?
    case Reclaiming(minimum) => minimum <= s.epoch
  }

  ghost predicate Inv<K(!new), V>(s: State<K, V>, hash: K -> nat) {
    && TablesOk(s) && HeadsDistinct(s) && ShowsOk(s, hash) && WriterOk(s)
    && forall r :: 0 <= r < |s.readers| ==> ReaderOk(s, hash, s.readers[r])
  }

  // ----- every step keeps it

  lemma InitKeeps<K(!new), V>(s: State<K, V>, hash: K -> nat)
    requires Init(s, hash)
    ensures Inv(s, hash)
  {
    forall k: K ensures Shows(s, 0, hash, k) == None {
      assert s.chains[HeadOf(s, 0, hash, k)].entries == [];
    }
  }

  /** Reader steps change one reader and nothing else. */
  lemma ReaderStepKeeps<K(!new), V>(s: State<K, V>, s': State<K, V>, hash: K -> nat, r: nat, next: Reader<K, V>)
    requires Inv(s, hash) && ReaderStep(s, s', r, next) && ReaderOk(s, hash, next)
    ensures Inv(s', hash)
  {
    assert TablesOk(s');
    forall t, k: K | 0 <= t < |s.tables| ensures Shows(s', t, hash, k) == Shows(s, t, hash, k) {
    }
    forall i | 0 <= i < |s'.readers| ensures ReaderOk(s', hash, s'.readers[i]) {
      assert ReaderOk(s, hash, if i == r then next else s.readers[i]);
    }
  }

  /** Loading the head of a bucket fixes the instant at which the lookup takes effect. */
  lemma LoadHeadOk<K(!new), V>(s: State<K, V>, hash: K -> nat, q: Reader<K, V>)
    requires Inv(s, hash) && q.HasTable? && ReaderOk(s, hash, q)
    ensures WellFormedTable(s, q.table)
    ensures var at := if q.table == s.current then |s.history| - 1 else s.tables[q.table].asOf;
            ReaderOk(s, hash, HasChain(q.key, q.epoch, HeadOf(s, q.table, hash, q.key), q.since, at, |s.history| - 1))
  {
    var b := hash(q.key) % |s.tables[q.table].heads|;
    var c := s.tables[q.table].heads[b];
    assert s.chains[c].owner == q.table && s.chains[c].status.Linked?;
    assert Shows(s, q.table, hash, q.key) == Find(s.chains[c].entries, q.key);
  }

  /** A replaced bucket: the table shows the new map, older tables are untouched. */
  lemma StoreChainTables<K(!new), V>(s: State<K, V>, s': State<K, V>, hash: K -> nat, k: K,
      entries: seq<Entry<K, V>>, m: map<K, V>)
    requires Inv(s, hash) && StoresChain(s, s', hash, k, entries, m)
    ensures TablesOk(s') && HeadsDistinct(s')
    ensures forall t, x: K :: 0 <= t < |s.tables| && t != s.current ==> Shows(s', t, hash, x) == Shows(s, t, hash, x)
    ensures forall x: K :: Shows(s', s.current, hash, x) ==
              if hash(x) % |s.tables[s.current].heads| == hash(k) % |s.tables[s.current].heads| then Find(entries, x)
              else Shows(s, s.current, hash, x)
  {
    var b := hash(k) % |s.tables[s.current].heads|;
    var old' := s.tables[s.current].heads[b];
    forall t, i | 0 <= t < |s'.tables| && 0 <= i < |s'.tables[t].heads|
      ensures s'.tables[t].heads[i] < |s'.chains|
      ensures s'.chains[s'.tables[t].heads[i]].owner == t && s'.chains[s'.tables[t].heads[i]].status.Linked?
      ensures t != s.current || i != b ==> s'.tables[t].heads[i] == s.tables[t].heads[i] != old'
    {
      assert WellFormedTable(s, t);
      var c := s.tables[t].heads[i];
      assert s.chains[c].owner == t && s.chains[c].status.Linked?;
      assert s.chains[old'].owner == s.current;
    }
    forall t | 0 <= t < |s'.tables|
      ensures WellFormedTable(s', t) && (s'.tables[t].status.Linked? <==> t == s'.current) {
      assert WellFormedTable(s, t);
    }
    forall t, x: K | 0 <= t < |s.tables| && t != s.current ensures Shows(s', t, hash, x) == Shows(s, t, hash, x) {
      assert s'.tables[t] == s.tables[t];
      var i := hash(x) % |s.tables[t].heads|;
      assert s'.tables[t].heads[i] == s.tables[t].heads[i] != old';
    }
    forall x: K ensures Shows(s', s.current, hash, x) ==
              if hash(x) % |s.tables[s.current].heads| == b then Find(entries, x) else Shows(s, s.current, hash, x)
    {
      var i := hash(x) % |s.tables[s.current].heads|;
      assert i != b ==> s'.tables[s.current].heads[i] == s.tables[s.current].heads[i] != old';
    }
  }

  /** Readers survive the replacement of a bucket: what they hold is at most unlinked. */
  lemma StoreChainReaders<K(!new), V>(s: State<K, V>, s': State<K, V>, hash: K -> nat, k: K,
      entries: seq<Entry<K, V>>, m: map<K, V>, r: Reader<K, V>)
    requires Inv(s, hash) && StoresChain(s, s', hash, k, entries, m) && TablesOk(s') && ReaderOk(s, hash, r)
    ensures ReaderOk(s', hash, r)
  {
    assert forall i :: 0 <= i < |s.history| ==> s'.history[i] == s.history[i];
    assert forall t :: 0 <= t < |s.tables| ==>
        s'.tables[t].status == s.tables[t].status && s'.tables[t].asOf == s.tables[t].asOf;
  }

  lemma StoreChainKeeps<K(!new), V>(s: State<K, V>, s': State<K, V>, hash: K -> nat, k: K, entries: seq<Entry<K, V>>,
      m: map<K, V>)
    requires Inv(s, hash) && StoresChain(s, s', hash, k, entries, m)
    requires forall x: K :: Find(entries, x) == if x == k then Bound(m, k)
        else Find(s.chains[HeadOf(s, s.current, hash, k)].entries, x)
    requires forall x: K :: x != k ==> Bound(m, x) == Bound(Now(s), x)
    ensures Inv(s', hash)
  {
    StoreChainTables(s, s', hash, k, entries, m);
    forall x: K ensures Shows(s', s'.current, hash, x) == Bound(Now(s'), x) {
      assert Shows(s, s.current, hash, x) == Bound(Now(s), x);
      assert Shows(s', s.current, hash, x) ==
             if hash(x) % |s.tables[s.current].heads| == hash(k) % |s.tables[s.current].heads| then Find(entries, x)
             else Shows(s, s.current, hash, x);
    }
    forall t, x: K | 0 <= t < |s'.tables| && t != s'.current
      ensures s'.tables[t].asOf < |s'.history| && Shows(s', t, hash, x) == Bound(s'.history[s'.tables[t].asOf], x)
    {
      assert Shows(s', t, hash, x) == Shows(s, t, hash, x) == Bound(s.history[s.tables[t].asOf], x);
    }
    forall i | 0 <= i < |s'.readers| ensures ReaderOk(s', hash, s'.readers[i]) {
      StoreChainReaders(s, s', hash, k, entries, m, s.readers[i]);
    }
  }

  lemma PutKeeps<K(!new), V>(s: State<K, V>, s': State<K, V>, hash: K -> nat, k: K, v: V)
    requires Inv(s, hash) && Enabled(s, s', hash, Put(k, v))
    ensures Inv(s', hash)
  {
    var es := s.chains[HeadOf(s, s.current, hash, k)].entries;
    var entries := if Find(es, k).None? then [Entry(hash(k), k, v)] + es else Replacing(es, k, v);
    forall x: K ensures Find(entries, x) == if x == k then Some(v) else Find(es, x) {
      FindReplacing(es, k, v, x);
      assert ([Entry(hash(k), k, v)] + es)[1..] == es;
    }
    StoreChainKeeps(s, s', hash, k, entries, Now(s)[k := v]);
  }

  lemma EraseKeeps<K(!new), V>(s: State<K, V>, s': State<K, V>, hash: K -> nat, k: K)
    requires Inv(s, hash) && Enabled(s, s', hash, Erase(k))
    ensures Inv(s', hash)
  {
    var es := s.chains[HeadOf(s, s.current, hash, k)].entries;
    forall x: K ensures Find(Without(es, k), x) == if x == k then None else Find(es, x) {
      FindWithout(es, k, x);
    }
    StoreChainKeeps(s, s', hash, k, Without(es, k), Now(s) - {k});
  }

  /** A replaced table: it keeps showing the map of this moment. */
  lemma StoreTableKeeps<K(!new), V>(s: State<K, V>, s': State<K, V>, hash: K -> nat, m: map<K, V>,
      history: seq<map<K, V>>)
    requires Inv(s, hash) && StoresTable(s, s', hash, m, history)
    requires s.history <= history && history[|history| - 1] == m
    ensures Inv(s', hash)
  {
    var n := |s.tables|;
    StoreTableTables(s, s', hash, m, history);
    forall t, x: K | 0 <= t < n
      ensures s'.tables[t].asOf < |history| && Shows(s', t, hash, x) == Bound(history[s'.tables[t].asOf], x)
    {
      assert s'.tables[t] == s'.tables[..n][t];
      assert Shows(s', t, hash, x) == Shows(s, t, hash, x);
      assert t == s.current ==> Shows(s, t, hash, x) == Bound(Now(s), x);
      assert t != s.current ==> Shows(s, t, hash, x) == Bound(s.history[s.tables[t].asOf], x);
    }
    forall i | 0 <= i < |s'.readers| ensures ReaderOk(s', hash, s'.readers[i]) {
      StoreTableReaders(s, s', hash, m, history, s.readers[i]);
    }
  }

  lemma StoreTableTables<K(!new), V>(s: State<K, V>, s': State<K, V>, hash: K -> nat, m: map<K, V>,
      history: seq<map<K, V>>)
    requires Inv(s, hash) && StoresTable(s, s', hash, m, history)
    ensures TablesOk(s') && HeadsDistinct(s')
    ensures forall t, x: K :: 0 <= t < |s.tables| ==> Shows(s', t, hash, x) == Shows(s, t, hash, x)
  {
    var n := |s.tables|;
    forall t, b | 0 <= t < n && 0 <= b < |s.tables[t].heads|
      ensures s'.tables[t].heads == s.tables[t].heads
      ensures s'.tables[t].heads[b] < |s.chains| && s'.chains[s'.tables[t].heads[b]] == s.chains[s.tables[t].heads[b]]
    {
      assert s'.tables[t] == s'.tables[..n][t];
      assert WellFormedTable(s, t);
      var c := s.tables[t].heads[b];
      assert s'.chains[c] == s'.chains[..|s.chains|][c];
    }
    forall t | 0 <= t < |s'.tables|
      ensures WellFormedTable(s', t) && (s'.tables[t].status.Linked? <==> t == s'.current) {
      if t < n {
        assert s'.tables[t] == s'.tables[..n][t];
        assert WellFormedTable(s, t);
      }
    }
    forall c | 0 <= c < |s'.chains| ensures s'.chains[c].owner < |s'.tables| {
      if c < |s.chains| {
        assert s'.chains[c] == s'.chains[..|s.chains|][c];
      }
    }
    forall t, x: K | 0 <= t < n ensures Shows(s', t, hash, x) == Shows(s, t, hash, x) {
      var b := hash(x) % |s.tables[t].heads|;
      assert s'.tables[t].heads[b] == s.tables[t].heads[b];
    }
  }

  lemma StoreTableReaders<K(!new), V>(s: State<K, V>, s': State<K, V>, hash: K -> nat, m: map<K, V>,
      history: seq<map<K, V>>, r: Reader<K, V>)
    requires Inv(s, hash) && StoresTable(s, s', hash, m, history) && s.history <= history
    requires TablesOk(s') && ReaderOk(s, hash, r)
    ensures ReaderOk(s', hash, r)
  {
    var n := |s.tables|;
    forall t | 0 <= t < n
      ensures s'.tables[t].status == (if t == s.current then Unlinked else s.tables[t].status)
      ensures s'.tables[t].asOf == if t == s.current then |s.history| - 1 else s.tables[t].asOf
    {
      assert s'.tables[t] == s'.tables[..n][t];
    }
    assert forall i :: 0 <= i < |s.history| ==> history[i] == s.history[i];
    if r.HasChain? {
      assert s'.chains[r.chain] == s'.chains[..|s.chains|][r.chain];
    }
  }

  /** Steps that only move objects through retirement: tables and chains keep what they hold. */
  ghost predicate OnlyStatus<K, V>(s: State<K, V>, s': State<K, V>) {
    && |s'.tables| == |s.tables| && |s'.chains| == |s.chains| && s'.current == s.current
    && (forall t :: 0 <= t < |s.tables| ==>
        s'.tables[t].heads == s.tables[t].heads && s'.tables[t].asOf == s.tables[t].asOf)
    && (forall c :: 0 <= c < |s.chains| ==>
        s'.chains[c].entries == s.chains[c].entries && s'.chains[c].owner == s.chains[c].owner)
    && (forall t :: 0 <= t < |s.tables| ==> (s'.tables[t].status.Linked? <==> s.tables[t].status.Linked?))
    && (forall c :: 0 <= c < |s.chains| ==> (s'.chains[c].status.Linked? <==> s.chains[c].status.Linked?))
    && s'.readers == s.readers && s'.history == s.history
  }

  lemma OnlyStatusKeeps<K(!new), V>(s: State<K, V>, s': State<K, V>, hash: K -> nat)
    requires Inv(s, hash) && OnlyStatus(s, s') && WriterOk(s')
    requires TablesOk(s') ==> forall r :: 0 <= r < |s.readers| ==> ReaderOk(s', hash, s.readers[r])
    ensures Inv(s', hash)
  {
    forall t | 0 <= t < |s'.tables| ensures WellFormedTable(s', t) {
      assert WellFormedTable(s, t);
    }
    assert TablesOk(s');
    forall t, k: K | 0 <= t < |s.tables| ensures Shows(s', t, hash, k) == Shows(s, t, hash, k) {
      assert WellFormedTable(s, t);
      var b := hash(k) % |s.tables[t].heads|;
      assert s'.tables[t].heads[b] == s.tables[t].heads[b];
    }
  }

  /** Retirement tags an object with the present epoch, which no registered reader has passed. */
  lemma RetireKeeps<K(!new), V>(s: State<K, V>, s': State<K, V>, hash: K -> nat, step: Step<K, V>)
    requires Inv(s, hash) && (step.RetireTable? || step.RetireChain?) && Enabled(s, s', hash, step)
    ensures Inv(s', hash)
  {
    if TablesOk(s') {
      forall i | 0 <= i < |s.readers| ensures ReaderOk(s', hash, s.readers[i]) {
        assert ReaderOk(s, hash, s.readers[i]);
      }
    }
    OnlyStatusKeeps(s, s', hash);
  }

  /** Taking the minimum: everything a registered reader holds was retired at or after it. */
  lemma PollMinimumKeeps<K(!new), V>(s: State<K, V>, s': State<K, V>, hash: K -> nat)
    requires Inv(s, hash) && Enabled(s, s', hash, PollMinimum)
    ensures Inv(s', hash)
  {
    if TablesOk(s') {
      forall i | 0 <= i < |s.readers| ensures ReaderOk(s', hash, s.readers[i]) {
        assert ReaderOk(s, hash, s.readers[i]);
        assert IsRegistered(s.readers[i]) ==> s'.writer.minimum <= s.readers[i].epoch;
      }
    }
    OnlyStatusKeeps(s, s', hash);
  }

  /** Freeing leaves alone what a reader holds. */
  lemma PollFreeKeeps<K(!new), V>(s: State<K, V>, s': State<K, V>, hash: K -> nat, x: Object)
    requires Inv(s, hash) && Enabled(s, s', hash, PollFree(x))
    ensures Inv(s', hash)
  {
    if TablesOk(s') {
      forall i | 0 <= i < |s.readers| ensures ReaderOk(s', hash, s.readers[i]) {
        FreeSparesReader(s, s', hash, x, s.readers[i]);
      }
    }
    OnlyStatusKeeps(s, s', hash);
  }

  lemma FreeSparesReader<K(!new), V>(s: State<K, V>, s': State<K, V>, hash: K -> nat, x: Object, r: Reader<K, V>)
    requires TablesOk(s) && TablesOk(s') && ReaderOk(s, hash, r) && Enabled(s, s', hash, PollFree(x))
    ensures ReaderOk(s', hash, r)
  {
  }

  lemma PollKeeps<K(!new), V>(s: State<K, V>, s': State<K, V>, hash: K -> nat, step: Step<K, V>)
    requires Inv(s, hash) && Enabled(s, s', hash, step) && (step.PollBump? || step.PollEnd?)
    ensures Inv(s', hash)
  {
    if TablesOk(s') {
      forall i | 0 <= i < |s.readers| ensures ReaderOk(s', hash, s.readers[i]) {
        assert ReaderOk(s, hash, s.readers[i]);
      }
    }
    OnlyStatusKeeps(s, s', hash);
  }

  ghost predicate IsReaderStep<K, V>(step: Step<K, V>) {
    step.LoadEpoch? || step.Register? || step.LoadTable? || step.LoadHead? || step.ReadChain? || step.Unregister?
  }

  lemma ReadersKeepInv<K(!new), V>(s: State<K, V>, s': State<K, V>, hash: K -> nat, step: Step<K, V>)
    requires Inv(s, hash) && IsReaderStep(step) && Enabled(s, s', hash, step)
    ensures Inv(s', hash)
  {
    assert ReaderOk(s, hash, s.readers[step.r]);
    if step.LoadHead? {
      LoadHeadOk(s, hash, s.readers[step.r]);
    }
    ReaderStepKeeps(s, s', hash, step.r, s'.readers[step.r]);
  }

  lemma StepKeepsInv<K(!new), V>(s: State<K, V>, s': State<K, V>, hash: K -> nat, step: Step<K, V>)
    requires Inv(s, hash) && Enabled(s, s', hash, step)
    ensures Inv(s', hash)
  {
    if IsReaderStep(step) {
      ReadersKeepInv(s, s', hash, step);
    } else if step.Put? {
      PutKeeps(s, s', hash, step.pk, step.pv);
    } else if step.Erase? {
      EraseKeeps(s, s', hash, step.ek);
    } else if step.Resize? {
      StoreTableKeeps(s, s', hash, Now(s), s.history);
    } else if step.Clear? {
      StoreTableKeeps(s, s', hash, map[], s.history + [map[]]);
    } else if step.RetireTable? || step.RetireChain? {
      RetireKeeps(s, s', hash, step);
    } else if step.PollMinimum? {
      PollMinimumKeeps(s, s', hash);
    } else if step.PollFree? {
      PollFreeKeeps(s, s', hash, step.victim);
    } else {
      PollKeeps(s, s', hash, step);
    }
  }

  // ----- whole runs

  /** A run: a state after every step, starting from an initial one. */
  ghost predicate Run<K(!new), V>(states: seq<State<K, V>>, steps: seq<Step<K, V>>, hash: K -> nat) {
    && |states| == |steps| + 1 && Init(states[0], hash)
    && forall i :: 0 <= i < |steps| ==> Enabled(states[i], states[i + 1], hash, steps[i])
  }

  lemma {:induction false} RunKeepsInv<K(!new), V>(states: seq<State<K, V>>, steps: seq<Step<K, V>>, hash: K -> nat,
      i: nat)
    requires Run(states, steps, hash) && i < |states|
    ensures Inv(states[i], hash)
  {
    if i == 0 {
      InitKeeps(states[0], hash);
    } else {
      RunKeepsInv(states, steps, hash, i - 1);
      StepKeepsInv(states[i - 1], states[i], hash, steps[i - 1]);
    }
  }

  /** History only grows, by at most one map a step. */
  lemma HistoryGrows<K(!new), V>(s: State<K, V>, s': State<K, V>, hash: K -> nat, step: Step<K, V>)
    requires Enabled(s, s', hash, step)
    ensures s.history <= s'.history && |s'.history| <= |s.history| + 1
  {
  }

  lemma {:induction false} HistoryPrefix<K(!new), V>(states: seq<State<K, V>>, steps: seq<Step<K, V>>,
      hash: K -> nat, i: nat, j: nat)
    requires Run(states, steps, hash) && i <= j < |states|
    ensures states[i].history <= states[j].history
    decreases j
  {
    if i < j {
      HistoryPrefix(states, steps, hash, i, j - 1);
      HistoryGrows(states[j - 1], states[j], hash, steps[j - 1]);
    }
  }

  /** So every map of the history was the present map of some state in between. */
  lemma {:induction false} WasPresent<K(!new), V>(states: seq<State<K, V>>, steps: seq<Step<K, V>>, hash: K -> nat,
      i: nat, j: nat, at: nat) returns (x: nat)
    requires Run(states, steps, hash) && i <= j < |states|
    requires |states[i].history| - 1 <= at <= |states[j].history| - 1
    ensures i <= x <= j && |states[x].history| - 1 == at
    decreases j
  {
    if |states[j].history| - 1 == at {
      x := j;
    } else {
      assert i < j;
      HistoryGrows(states[j - 1], states[j], hash, steps[j - 1]);
      x := WasPresent(states, steps, hash, i, j - 1, at);
    }
  }

  /** The steps at which a reader in mid-lookup loaded its table and, if it has, its bucket head. */
  lemma {:induction false} LoadsOf<K(!new), V>(states: seq<State<K, V>>, steps: seq<Step<K, V>>, hash: K -> nat,
      i: nat, r: nat)
    returns (tableLoad: nat, headLoad: nat)
    requires Run(states, steps, hash) && i < |states| && r < |states[i].readers|
    requires var q := states[i].readers[r]; q.HasTable? || q.HasChain? || q.Done?
    ensures var q := states[i].readers[r];
            tableLoad < i && steps[tableLoad] == LoadTable(r) && |states[tableLoad].history| - 1 == q.since
    ensures var q := states[i].readers[r];
            !q.HasTable? ==>
              tableLoad < headLoad < i && steps[headLoad] == LoadHead(r)
              && |states[headLoad].history| - 1 == q.until
    decreases i
  {
    assert i > 0;
    ReaderTransition(states[i - 1], states[i], hash, steps[i - 1], r);
    if steps[i - 1] == LoadTable(r) {
      tableLoad, headLoad := i - 1, 0;
    } else {
      tableLoad, headLoad := LoadsOf(states, steps, hash, i - 1, r);
      if steps[i - 1] == LoadHead(r) {
        headLoad := i - 1;
      }
    }
  }

  /** How a reader comes to hold a table, a chain or a result. */
  lemma ReaderTransition<K(!new), V>(s: State<K, V>, s': State<K, V>, hash: K -> nat, step: Step<K, V>, r: nat)
    requires Enabled(s, s', hash, step) && r < |s'.readers|
    requires s'.readers[r].HasTable? || s'.readers[r].HasChain? || s'.readers[r].Done?
    ensures r < |s.readers|
    ensures var q, q' := s.readers[r], s'.readers[r];
            if step == LoadTable(r) then q'.HasTable? && q'.since == |s.history| - 1
            else if step == LoadHead(r) then q.HasTable? && q'.HasChain? && q'.since == q.since
                && q'.until == |s.history| - 1
            else if step == ReadChain(r) then q.HasChain? && q'.Done? && q'.since == q.since && q'.until == q.until
            else q' == q
  {
  }

  /** Linearizability of lookups: a finished lookup returned the binding that its key had in the
      present map of some state between its load of the table pointer and its load of the head. */
  lemma LookupIsLinearizable<K(!new), V>(states: seq<State<K, V>>, steps: seq<Step<K, V>>, hash: K -> nat, i: nat,
      r: nat)
    returns (tableLoad: nat, instant: nat, headLoad: nat)
    requires Run(states, steps, hash) && i < |states|
    requires r < |states[i].readers| && states[i].readers[r].Done?
    ensures tableLoad <= instant <= headLoad < i && steps[tableLoad] == LoadTable(r) && steps[headLoad] == LoadHead(r)
    ensures |states[instant].history| > 0
    ensures states[i].readers[r].result == Bound(Now(states[instant]), states[i].readers[r].key)
  {
    RunKeepsInv(states, steps, hash, i);
    var q := states[i].readers[r];
    assert ReaderOk(states[i], hash, q);
    tableLoad, headLoad := LoadsOf(states, steps, hash, i, r);
    instant := WasPresent(states, steps, hash, tableLoad, headLoad, q.at);
    HistoryPrefix(states, steps, hash, instant, i);
  }

  /** No reader ever touches memory that has been freed: the table it loads a head from and the
      chain it walks are still allocated. */
  lemma ReadersTouchLiveMemory<K(!new), V>(states: seq<State<K, V>>, steps: seq<Step<K, V>>, hash: K -> nat, i: nat,
      r: nat)
    requires Run(states, steps, hash) && i < |states| && r < |states[i].readers|
    ensures var s := states[i];
            s.readers[r].HasTable? ==> s.readers[r].table < |s.tables| && !s.tables[s.readers[r].table].status.Freed?
    ensures var s := states[i];
            s.readers[r].HasChain? ==>
              && s.readers[r].chain < |s.chains| && !s.chains[s.readers[r].chain].status.Freed?
              && s.chains[s.readers[r].chain].owner < |s.tables|
              && (s.chains[s.readers[r].chain].status.Linked? ==>
                  !s.tables[s.chains[s.readers[r].chain].owner].status.Freed?)
  {
    RunKeepsInv(states, steps, hash, i);
    assert ReaderOk(states[i], hash, states[i].readers[r]);
  }
}

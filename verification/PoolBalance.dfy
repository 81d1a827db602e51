/**
 * No lost wake-up with fewer empty items than workers.  A scan that dequeues an empty item takes the queue for
 * empty and may walk past a job, but only one worker per empty item can be misled.  The awake workers that have
 * not been, together with the wake-ups on their way, outnumber the empty items still queued while a job waits.
 */
module PoolBalance {
  import opened PoolQueue
  import opened PoolSteps
  import opened PoolCounting
  import opened PoolWakeup

  // ------------------------------------------------------------ counting workers

  function Trues(flags: seq<bool>): (n: nat) {
    if flags == [] then 0 else Trues(flags[1..]) + if flags[0] then 1 else 0
  }

  lemma {:induction false} TruesGrow(a: seq<bool>, b: seq<bool>)
    requires |a| == |b| && forall i :: 0 <= i < |a| && a[i] ==> b[i]
    ensures Trues(a) <= Trues(b)
  {
    if a != [] {
      TruesGrow(a[1..], b[1..]);
    }
  }

  lemma {:induction false} TruesDrop(a: seq<bool>, b: seq<bool>, w: nat)
    requires w < |a| == |b| && forall i :: 0 <= i < |a| && a[i] && i != w ==> b[i]
    ensures Trues(a) <= Trues(b) + 1
    ensures b[w] && !a[w] ==> Trues(a) + 1 <= Trues(b)
  {
    if w == 0 {
      TruesGrow(a[1..], b[1..]);
    } else {
      TruesDrop(a[1..], b[1..], w - 1);
    }
  }

  lemma {:induction false} TruesComplement(a: seq<bool>, b: seq<bool>)
    requires |a| == |b| && forall i :: 0 <= i < |a| ==> a[i] == !b[i]
    ensures Trues(a) + Trues(b) == |a|
  {
    if a != [] {
      TruesComplement(a[1..], b[1..]);
    }
  }

  lemma {:induction false} TruesNone(a: seq<bool>)
    requires forall i :: 0 <= i < |a| ==> !a[i]
    ensures Trues(a) == 0
  {
    if a != [] {
      TruesNone(a[1..]);
    }
  }

  // ------------------------------------------------------------ counting empty items

  function OwedBlanks(owed: seq<multiset<Work>>): (n: nat) {
    if owed == [] then 0 else OwedBlanks(owed[1..]) + owed[0][Nothing]
  }

  lemma {:induction false} OwedUpdate(owed: seq<multiset<Work>>, q: nat, m: multiset<Work>)
    requires q < |owed|
    ensures OwedBlanks(owed[q := m]) + owed[q][Nothing] == OwedBlanks(owed) + m[Nothing]
  {
    if q == 0 {
      assert owed[q := m][1..] == owed[1..];
    } else {
      assert owed[q := m][1..] == owed[1..][q - 1 := m];
      OwedUpdate(owed[1..], q - 1, m);
    }
  }

  function QueuedBlanks(queues: seq<seq<Work>>): (n: nat) {
    Occurs(Nothing, Gather(queues))
  }

  lemma {:induction false} OwedCover(queues: seq<seq<Work>>, owed: seq<multiset<Work>>)
    requires |queues| == |owed| && forall q :: 0 <= q < |queues| ==> Occurs(Nothing, queues[q]) <= owed[q][Nothing]
    ensures QueuedBlanks(queues) <= OwedBlanks(owed)
  {
    if queues != [] {
      OccursConcat(Nothing, queues[0], Gather(queues[1..]));
      OwedCover(queues[1..], owed[1..]);
    }
  }

  // ------------------------------------------------------------ misled workers

  /** The queue holds an item that no Execute call has still to notify of. */
  ghost predicate Behind(queue: seq<Work>, owed: multiset<Work>) {
    exists x :: Occurs(x, queue) > owed[x]
  }

  /** The worker has seen the current generation and has passed a queue in which such an item is left. */
  ghost predicate Misled(n: nat, w: nat, worker: Worker, generation: nat, queues: seq<seq<Work>>,
                         owed: seq<multiset<Work>>)
    requires w < n && |queues| == |owed| == n + 1
  {
    && Saw(worker, generation)
    && exists q :: 0 <= q <= n && Passed(n, w, worker, q) && Behind(queues[q], owed[q])
  }

  ghost predicate IsMisled(s: State, w: nat)
    requires Widths(s) && w < |s.workers|
  {
    Misled(|s.workers|, w, s.workers[w], s.generation, s.queues, s.owed)
  }

  ghost predicate IsFree(s: State, w: nat)
    requires Widths(s) && w < |s.workers|
  {
    !s.workers[w].Asleep? && !IsMisled(s, w)
  }

  ghost function MisledFlags(s: State): (flags: seq<bool>)
    requires Widths(s)
    ensures |flags| == |s.workers| && forall w :: 0 <= w < |flags| ==> flags[w] == IsMisled(s, w)
  {
    seq(|s.workers|, w requires 0 <= w < |s.workers| => IsMisled(s, w))
  }

  ghost function FreeFlags(s: State): (flags: seq<bool>)
    requires Widths(s)
    ensures |flags| == |s.workers| && forall w :: 0 <= w < |flags| ==> flags[w] == IsFree(s, w)
  {
    seq(|s.workers|, w requires 0 <= w < |s.workers| => IsFree(s, w))
  }

  ghost function MisledCount(s: State): nat
    requires Widths(s)
  {
    Trues(MisledFlags(s))
  }

  ghost function FreeCount(s: State): nat
    requires Widths(s)
  {
    Trues(FreeFlags(s))
  }

  /** A job is queued whose Execute call has notified. */
  ghost predicate JobWaits(queues: seq<seq<Work>>, owed: seq<multiset<Work>>)
    requires |queues| == |owed|
  {
    exists q: nat, x: Work :: q < |queues| && x.Job? && Occurs(x, queues[q]) > owed[q][x]
  }

  // ------------------------------------------------------------ the invariant

  ghost function Once(b: bool): nat {
    if b then 1 else 0
  }

  ghost predicate Balanced(s: State)
    requires Widths(s)
  {
    FreeCount(s) + s.bumped + OwedBlanks(s.owed) >= QueuedBlanks(s.queues) + Once(JobWaits(s.queues, s.owed))
  }

  /** Empty items on their way to a queue. */
  function Coming(s: State): nat {
    Occurs(Nothing, Items(s.calls)) + Occurs(Nothing, s.ready) + Occurs(Nothing, TimedItems(s.heap))
  }

  /** Every empty item submitted misleads one worker at most, and only once it is gone. */
  ghost predicate Budgeted(s: State)
    requires Widths(s)
  {
    QueuedBlanks(s.queues) + MisledCount(s) + Coming(s) <= s.blanks
  }

  ghost predicate BalanceInv(s: State) {
    && Widths(s) && SeenOk(s.workers, s.generation) && Budgeted(s)
    && (s.blanks < |s.workers| ==> Balanced(s))
  }

  // ------------------------------------------------------------ steps that mislead nobody

  /** No worker becomes misled, and none falls asleep. */
  ghost predicate Follows(s: State, s': State) {
    && Widths(s) && Widths(s') && |s'.workers| == |s.workers|
    && (forall w :: 0 <= w < |s.workers| && IsMisled(s', w) ==> IsMisled(s, w))
    && (forall w :: 0 <= w < |s.workers| && s'.workers[w].Asleep? ==> s.workers[w].Asleep?)
  }

  lemma CountsFollow(s: State, s': State)
    requires Follows(s, s')
    ensures MisledCount(s') <= MisledCount(s) && FreeCount(s) <= FreeCount(s')
  {
    TruesGrow(MisledFlags(s'), MisledFlags(s));
    TruesGrow(FreeFlags(s), FreeFlags(s'));
  }

  // ------------------------------------------------------------ submitting and pushing

  lemma ComingLater(s: State, s': State, step: Step)
    requires (step.Submit? || step.SubmitLater?) && Enabled(s, step) && s' == Next(s, step)
    ensures Coming(s') - Coming(s) == s'.blanks - s.blanks
  {
    if step.Submit? {
      assert Items(s'.calls) == Items(s.calls) + [step.item];
      OccursAppend(Nothing, Items(s.calls), step.item);
    } else {
      assert TimedItems(s'.heap) == TimedItems(s.heap) + [step.item];
      OccursAppend(Nothing, TimedItems(s.heap), step.item);
    }
  }

  lemma ComingTimed(s: State, s': State, step: Step)
    requires (step.TimerPop? || step.TimerExecute? || step.DiscardHeap?) && Enabled(s, step) && s' == Next(s, step)
    ensures Coming(s') <= Coming(s)
  {
    if step.TimerPop? {
      var items := TimedItems(s.heap);
      assert TimedItems(s'.heap) == items[..step.i] + items[step.i + 1..];
      OccursRemove(Nothing, items, step.i);
      OccursAppend(Nothing, s.ready, items[step.i]);
    } else if step.TimerExecute? {
      assert Items(s'.calls) == Items(s.calls) + [s.ready[0]];
      OccursAppend(Nothing, Items(s.calls), s.ready[0]);
    } else {
      assert TimedItems(s'.heap) == [];
    }
  }

  predicate IsOutside(step: Step) {
    step.Submit? || step.SubmitLater? || step.TimerPop? || step.TimerExecute? || step.DiscardHeap? || step.Tick?
  }

  lemma OutsideKeeps(s: State, s': State, step: Step)
    requires BalanceInv(s) && IsOutside(step) && Enabled(s, step) && s' == Next(s, step)
    ensures BalanceInv(s')
  {
    if step.Submit? || step.SubmitLater? {
      ComingLater(s, s', step);
    } else if !step.Tick? {
      ComingTimed(s, s', step);
    }
    assert Follows(s, s');
    CountsFollow(s, s');
  }

  lemma PushBehind(queue: seq<Work>, owed: multiset<Work>, x: Work, queue': seq<Work>, owed': multiset<Work>)
    requires queue' == queue + [x] && owed' == owed + multiset{x}
    ensures forall y :: Occurs(y, queue') - owed'[y] == Occurs(y, queue) - owed[y]
    ensures Behind(queue', owed') ==> Behind(queue, owed)
  {
    forall y
      ensures Occurs(y, queue') - owed'[y] == Occurs(y, queue) - owed[y]
    {
      OccursAppend(y, queue, x);
    }
    if Behind(queue', owed') {
      var y :| Occurs(y, queue') > owed'[y];
      assert Occurs(y, queue) > owed[y];
    }
  }

  /** What was pushed is owed, so it misleads nobody. */
  lemma PushMisleadsNobody(s: State, s': State, c: nat)
    requires Widths(s) && Enabled(s, Push(c)) && s' == Next(s, Push(c))
    ensures Follows(s, s') && (JobWaits(s'.queues, s'.owed) ==> JobWaits(s.queues, s.owed))
  {
    var q := s.calls[c].queue;
    PushBehind(s.queues[q], s.owed[q], s.calls[c].item, s'.queues[q], s'.owed[q]);
    forall w | 0 <= w < |s.workers| && IsMisled(s', w)
      ensures IsMisled(s, w)
    {
      var p :| 0 <= p <= |s.workers| && Passed(|s.workers|, w, s.workers[w], p) && Behind(s'.queues[p], s'.owed[p]);
      assert Behind(s.queues[p], s.owed[p]);
    }
    if JobWaits(s'.queues, s'.owed) {
      var p: nat, y: Work :| p < |s'.queues| && y.Job? && Occurs(y, s'.queues[p]) > s'.owed[p][y];
      assert Occurs(y, s.queues[p]) > s.owed[p][y];
    }
  }

  lemma PushCounts(s: State, s': State, c: nat)
    requires Widths(s) && Enabled(s, Push(c)) && s' == Next(s, Push(c))
    ensures QueuedBlanks(s'.queues) - QueuedBlanks(s.queues) == OwedBlanks(s'.owed) - OwedBlanks(s.owed)
    ensures QueuedBlanks(s'.queues) + Coming(s') == QueuedBlanks(s.queues) + Coming(s)
  {
    var q, x := s.calls[c].queue, s.calls[c].item;
    GatherUpdate(Nothing, s.queues, q, s'.queues[q]);
    OwedUpdate(s.owed, q, s'.owed[q]);
    OccursAppend(Nothing, s.queues[q], x);
    assert Items(s'.calls) == Items(s.calls)[..c] + Items(s.calls)[c + 1..];
    OccursRemove(Nothing, Items(s.calls), c);
  }

  lemma PushKeeps(s: State, s': State, c: nat)
    requires BalanceInv(s) && Enabled(s, Push(c)) && s' == Next(s, Push(c))
    ensures BalanceInv(s')
  {
    PushMisleadsNobody(s, s', c);
    CountsFollow(s, s');
    PushCounts(s, s', c);
  }

  // ------------------------------------------------------------ notifying

  /** Nobody has seen a generation that is new. */
  lemma BumpMisleadsNobody(s: State, s': State)
    requires Widths(s) && Widths(s') && SeenOk(s.workers, s.generation)
    requires s'.workers == s.workers && s'.generation == s.generation + 1
    ensures Follows(s, s') && SeenOk(s'.workers, s'.generation)
  {
    forall w | 0 <= w < |s.workers|
      ensures !IsMisled(s', w) && WorkerOk(s'.workers[w], |s'.workers|, s'.generation)
    {
      assert WorkerOk(s.workers[w], |s.workers|, s.generation);
    }
  }

  lemma BumpKeeps(s: State, s': State, q: nat, item: Work)
    requires BalanceInv(s) && Enabled(s, Bump(q, item)) && s' == Next(s, Bump(q, item))
    ensures BalanceInv(s')
  {
    BumpMisleadsNobody(s, s');
    CountsFollow(s, s');
    OwedUpdate(s.owed, q, s'.owed[q]);
    if JobWaits(s'.queues, s'.owed) && item.Nothing? {
      var p: nat, y: Work :| p < |s'.queues| && y.Job? && Occurs(y, s'.queues[p]) > s'.owed[p][y];
      assert Occurs(y, s.queues[p]) > s.owed[p][y];
    }
  }

  lemma BumpAllKeeps(s: State, s': State)
    requires BalanceInv(s) && s' == Next(s, BumpAll)
    ensures BalanceInv(s')
  {
    BumpMisleadsNobody(s, s');
    CountsFollow(s, s');
  }

  // ------------------------------------------------------------ waking

  lemma WakeKeeps(s: State, s': State, step: Step)
    requires BalanceInv(s) && (step.Wake? || step.Spurious?) && Enabled(s, step) && s' == Next(s, step)
    ensures BalanceInv(s')
  {
    var w := step.w;
    assert !IsMisled(s', w);
    assert forall v :: 0 <= v < |s.workers| && v != w ==> IsMisled(s', v) == IsMisled(s, v);
    assert Follows(s, s');
    CountsFollow(s, s');
    assert !IsFree(s, w) && IsFree(s', w);
    TruesDrop(FreeFlags(s), FreeFlags(s'), w);
  }

  /** When all workers are awake, those that are not free are misled, which is fewer than all. */
  lemma AllAwake(s: State)
    requires Widths(s) && Budgeted(s) && s.blanks < |s.workers|
    requires forall w :: 0 <= w < |s.workers| ==> !s.workers[w].Asleep?
    ensures FreeCount(s) >= QueuedBlanks(s.queues) + 1
  {
    TruesComplement(FreeFlags(s), MisledFlags(s));
  }

  lemma NobodyToWakeKeeps(s: State, s': State, step: Step)
    requires BalanceInv(s) && (step.WakeNobody? || step.WakeEverybody?) && Enabled(s, step) && s' == Next(s, step)
    ensures BalanceInv(s')
  {
    assert Follows(s, s');
    CountsFollow(s, s');
    if s'.blanks < |s'.workers| {
      AllAwake(s');
    }
  }

  // ------------------------------------------------------------ workers

  predicate IsOwn(step: Step) {
    step.Observe? || step.Finish?
  }

  lemma OwnKeeps(s: State, s': State, step: Step)
    requires BalanceInv(s) && IsOwn(step) && Enabled(s, step) && s' == Next(s, step)
    ensures BalanceInv(s')
  {
    assert !IsMisled(s', step.w);
    assert forall v :: 0 <= v < |s.workers| && v != step.w ==> IsMisled(s', v) == IsMisled(s, v);
    assert Follows(s, s');
    CountsFollow(s, s');
  }

  /** A drowsy worker that is not misled leaves nothing behind. */
  lemma NothingBehind(s: State, w: nat)
    requires Widths(s) && w < |s.workers| && s.workers[w] == Drowsy(s.generation) && !IsMisled(s, w)
    ensures QueuedBlanks(s.queues) <= OwedBlanks(s.owed) && !JobWaits(s.queues, s.owed)
  {
    forall q, x | 0 <= q < |s.queues|
      ensures Occurs(x, s.queues[q]) <= s.owed[q][x]
    {
      assert Passed(|s.workers|, w, s.workers[w], q);
      assert !Behind(s.queues[q], s.owed[q]);
    }
    OwedCover(s.queues, s.owed);
  }

  lemma WaitMisled(s: State, s': State, w: nat)
    requires Widths(s) && Enabled(s, Wait(w)) && s' == Next(s, Wait(w)) && w < |s.workers|
    ensures Widths(s') && |s'.workers| == |s.workers|
    ensures forall v :: 0 <= v < |s.workers| ==> IsMisled(s', v) == IsMisled(s, v)
  {
    if s.workers[w].seen == s.generation {
      assert forall q :: 0 <= q <= |s.workers| ==>
        Passed(|s.workers|, w, s.workers[w], q) && Passed(|s.workers|, w, s'.workers[w], q);
    }
  }

  lemma WaitKeeps(s: State, s': State, w: nat)
    requires BalanceInv(s) && Enabled(s, Wait(w)) && s' == Next(s, Wait(w))
    ensures BalanceInv(s')
  {
    WaitMisled(s, s', w);
    TruesGrow(MisledFlags(s'), MisledFlags(s));
    if s.workers[w] == Drowsy(s.generation) && !IsMisled(s, w) {
      NothingBehind(s, w);
    } else {
      TruesGrow(FreeFlags(s), FreeFlags(s'));
    }
  }

  // ------------------------------------------------------------ taking

  /** What taking from one queue leaves of it. */
  lemma TakenBehind(queue: seq<Work>, back: bool, owed: multiset<Work>)
    ensures forall y :: Occurs(y, Left(queue, back)) <= Occurs(y, queue)
    ensures Behind(Left(queue, back), owed) ==> Behind(queue, owed)
  {
    forall y
      ensures Occurs(y, Left(queue, back)) <= Occurs(y, queue)
    {
      if queue != [] {
        OccursTaken(y, queue, back);
      }
    }
    if Behind(Left(queue, back), owed) {
      var y :| Occurs(y, Left(queue, back)) > owed[y];
      assert Occurs(y, queue) > owed[y];
    }
  }

  /** Each queue holds no more than before. */
  ghost predicate Fewer(queues: seq<seq<Work>>, queues': seq<seq<Work>>) {
    && |queues| == |queues'|
    && forall q, x :: 0 <= q < |queues| ==> Occurs(x, queues'[q]) <= Occurs(x, queues[q])
  }

  lemma FewerWait(queues: seq<seq<Work>>, queues': seq<seq<Work>>, owed: seq<multiset<Work>>)
    requires Fewer(queues, queues') && |queues| == |owed|
    ensures JobWaits(queues', owed) ==> JobWaits(queues, owed)
    ensures forall q :: 0 <= q < |queues| && Behind(queues'[q], owed[q]) ==> Behind(queues[q], owed[q])
  {
    if JobWaits(queues', owed) {
      var p: nat, y: Work :| p < |queues'| && y.Job? && Occurs(y, queues'[p]) > owed[p][y];
      assert Occurs(y, queues[p]) > owed[p][y];
    }
    forall q | 0 <= q < |queues| && Behind(queues'[q], owed[q])
      ensures Behind(queues[q], owed[q])
    {
      var y :| Occurs(y, queues'[q]) > owed[q][y];
      assert Occurs(y, queues[q]) > owed[q][y];
    }
  }

  /** A worker that goes on as it was is misled only if it was before. */
  lemma FewerMislead(n: nat, w: nat, worker: Worker, generation: nat, queues: seq<seq<Work>>,
                     queues': seq<seq<Work>>, owed: seq<multiset<Work>>)
    requires w < n && |queues| == |owed| == n + 1 && Fewer(queues, queues')
    ensures Misled(n, w, worker, generation, queues', owed) ==> Misled(n, w, worker, generation, queues, owed)
  {
    FewerWait(queues, queues', owed);
  }

  lemma TakeFewer(queues: seq<seq<Work>>, q: nat, back: bool, queues': seq<seq<Work>>)
    requires q < |queues| && queues' == queues[q := Left(queues[q], back)]
    ensures Fewer(queues, queues')
    ensures QueuedBlanks(queues') + Once(queues[q] != [] && Taken(queues[q], back).Nothing?) == QueuedBlanks(queues)
  {
    TakenBehind(queues[q], back, multiset{});
    GatherUpdate(Nothing, queues, q, queues'[q]);
    if queues[q] != [] {
      OccursTaken(Nothing, queues[q], back);
    }
  }

  lemma HelpKeeps(s: State, s': State, step: Step)
    requires BalanceInv(s) && (step.Help? || step.DiscardQueue?) && Enabled(s, step) && s' == Next(s, step)
    ensures BalanceInv(s')
  {
    if step.Help? {
      TakeFewer(s.queues, step.q, step.back, s'.queues);
    } else {
      GatherUpdate(Nothing, s.queues, step.q, []);
      assert Fewer(s.queues, s'.queues);
    }
    FewerWait(s.queues, s'.queues, s.owed);
    forall w | 0 <= w < |s.workers| && IsMisled(s', w)
      ensures IsMisled(s, w)
    {
      FewerMislead(|s.workers|, w, s.workers[w], s.generation, s.queues, s'.queues, s.owed);
    }
    assert Follows(s, s');
    CountsFollow(s, s');
  }

  /** What the other workers can make of a step of worker w's scan. */
  lemma OthersTry(s: State, s': State, w: nat)
    requires BalanceInv(s) && Enabled(s, Try(w)) && s' == TryNext(s, w)
    ensures Widths(s') && |s'.workers| == |s.workers|
    ensures forall v :: 0 <= v < |s.workers| && v != w && IsMisled(s', v) ==> IsMisled(s, v)
    ensures JobWaits(s'.queues, s'.owed) ==> JobWaits(s.queues, s.owed)
  {
    var n, k := |s.workers|, Scanned(s.workers[w]);
    TakeFewer(s.queues, Target(n, w, k), FromBack(k), s'.queues);
    FewerWait(s.queues, s'.queues, s.owed);
    forall v | 0 <= v < n && v != w && IsMisled(s', v)
      ensures IsMisled(s, v)
    {
      FewerMislead(n, v, s.workers[v], s.generation, s.queues, s'.queues, s.owed);
    }
  }

  /** A scan that finds a job, or finds a queue empty, does not mislead its worker. */
  lemma HonestTry(s: State, s': State, w: nat)
    requires BalanceInv(s) && Enabled(s, Try(w)) && s' == TryNext(s, w)
    requires var k := Scanned(s.workers[w]);
             var queue := s.queues[Target(|s.workers|, w, k)];
             queue == [] || Taken(queue, FromBack(k)).Job?
    ensures IsMisled(s', w) ==> IsMisled(s, w)
  {
    var n, k := |s.workers|, Scanned(s.workers[w]);
    var target := Target(n, w, k);
    if IsMisled(s', w) {
      var q :| 0 <= q <= n && Passed(n, w, s'.workers[w], q) && Behind(s'.queues[q], s'.owed[q]);
      TargetOfPosition(n, w, q);
      assert s.queues[target] == [] && s'.queues[target] == [];
      assert q != target by { assert forall x :: Occurs(x, []) == 0; }
      assert Passed(n, w, s.workers[w], q);
    }
  }

  lemma TryKeepsSeen(s: State, s': State, w: nat)
    requires BalanceInv(s) && Enabled(s, Try(w)) && s' == TryNext(s, w)
    ensures SeenOk(s'.workers, s'.generation)
  {
    assert WorkerOk(s.workers[w], |s.workers|, s.generation);
  }

  lemma TryKeeps(s: State, s': State, w: nat)
    requires BalanceInv(s) && Enabled(s, Try(w)) && s' == TryNext(s, w)
    ensures BalanceInv(s')
  {
    var n, k := |s.workers|, Scanned(s.workers[w]);
    var queue := s.queues[Target(n, w, k)];
    TryKeepsSeen(s, s', w);
    OthersTry(s, s', w);
    TakeFewer(s.queues, Target(n, w, k), FromBack(k), s'.queues);
    if queue == [] || Taken(queue, FromBack(k)).Job? {
      HonestTry(s, s', w);
      assert Follows(s, s');
      CountsFollow(s, s');
    } else {
      TruesDrop(MisledFlags(s'), MisledFlags(s), w);
      TruesDrop(FreeFlags(s), FreeFlags(s'), w);
    }
  }

  // ------------------------------------------------------------ every step

  lemma StepKeepsBalance(s: State, s': State, step: Step)
    requires BalanceInv(s) && Enabled(s, step) && s' == Next(s, step)
    ensures BalanceInv(s')
  {
    match step
    case Push(c) => PushKeeps(s, s', c);
    case Bump(q, item) => BumpKeeps(s, s', q, item);
    case BumpAll => BumpAllKeeps(s, s');
    case Wake(w) => WakeKeeps(s, s', step);
    case Spurious(w) => WakeKeeps(s, s', step);
    case WakeNobody => NobodyToWakeKeeps(s, s', step);
    case WakeEverybody => NobodyToWakeKeeps(s, s', step);
    case Try(w) => TryKeeps(s, s', w);
    case Observe(w) => OwnKeeps(s, s', step);
    case Finish(w) => OwnKeeps(s, s', step);
    case Wait(w) => WaitKeeps(s, s', w);
    case Help(q, back) => HelpKeeps(s, s', step);
    case DiscardQueue(q) => HelpKeeps(s, s', step);
    case _ => OutsideKeeps(s, s', step);
  }

  lemma InitIsBalanced(s: State)
    requires Init(s)
    ensures BalanceInv(s)
  {
    GatherNothing(Nothing, s.queues);
    assert TimedItems(s.heap) == [] && Items(s.calls) == [];
    TruesNone(MisledFlags(s));
    TruesComplement(FreeFlags(s), MisledFlags(s));
  }

  lemma {:induction false} RunKeepsBalance(states: seq<State>, steps: seq<Step>, i: nat)
    requires Run(states, steps) && i < |states|
    ensures BalanceInv(states[i]) && |states[i].workers| == |states[0].workers|
  {
    if i == 0 {
      InitIsBalanced(states[0]);
    } else {
      RunKeepsBalance(states, steps, i - 1);
      StepKeepsBalance(states[i - 1], states[i], steps[i - 1]);
    }
  }

  // ------------------------------------------------------------ the result

  /** A job is queued, all workers are asleep, and nobody is going to wake one. */
  ghost predicate Lost(s: State) {
    AllAsleep(s.workers) && !Owing(s) && exists q, x :: 0 <= q < |s.queues| && x in s.queues[q] && x.Job?
  }

  /** In no state that was reached with fewer empty items than workers. */
  lemma NoLostWakeup(states: seq<State>, steps: seq<Step>, i: nat)
    requires Run(states, steps) && i < |states| && states[i].blanks < |states[i].workers|
    ensures !Lost(states[i])
  {
    RunKeepsBalance(states, steps, i);
    var s := states[i];
    if Lost(s) {
      var q, x :| 0 <= q < |s.queues| && x in s.queues[q] && x.Job?;
      OccursNone(x, s.queues[q]);
      assert Occurs(x, s.queues[q]) > s.owed[q][x];
      TruesNone(FreeFlags(s));
      OwedNothing(s.owed);
    }
  }

  lemma {:induction false} OwedNothing(owed: seq<multiset<Work>>)
    requires forall q :: 0 <= q < |owed| ==> owed[q] == multiset{}
    ensures OwedBlanks(owed) == 0
  {
    if owed != [] {
      OwedNothing(owed[1..]);
    }
  }
}

/**
 * The way of a job through the pool: from the timer heap to the timer's ready list, from there to an Execute call, to a
 * queue, and to whoever takes it.  It never goes back, skips a station or leaves the way, unless CancelAll discards it.
 */
module PoolDelivery {
  import opened PoolQueue
  import opened PoolSteps
  import opened PoolCounting
  import opened PoolConservation

  // ------------------------------------------------------------ the order of a queue

  /** The owner of a deque gets back what it pushed last. */
  lemma PopTakesNewest(q: seq<Work>, x: Work)
    ensures Taken(q + [x], true) == x && Left(q + [x], true) == q
  {
  }

  /** Thieves, and the readers of the injection queue, get what was pushed first. */
  lemma StealTakesOldest(x: Work, q: seq<Work>)
    ensures Taken([x] + q, false) == x && Left([x] + q, false) == q
  {
  }

  /** What the given number of takes from one end yields. */
  function Takes(q: seq<Work>, back: bool, n: nat): (r: seq<Work>)
    decreases n
  {
    if n == 0 then [] else [Taken(q, back)] + Takes(Left(q, back), back, n - 1)
  }

  /** Stealing a whole queue yields the items in the order in which they were pushed. */
  lemma {:induction false} StealsInOrder(q: seq<Work>)
    ensures Takes(q, false, |q|) == q
  {
    if q != [] {
      assert q == [q[0]] + q[1..];
      StealTakesOldest(q[0], q[1..]);
      StealsInOrder(q[1..]);
    }
  }

  /** Popping a whole queue yields them in the opposite order. */
  lemma {:induction false} PopsInReverse(q: seq<Work>, i: nat)
    requires i < |q|
    ensures |Takes(q, true, |q|)| == |q| && Takes(q, true, |q|)[i] == q[|q| - 1 - i]
  {
    var n := |q| - 1;
    var front := q[..n];
    assert q == front + [q[n]];
    PopTakesNewest(front, q[n]);
    if n > 0 {
      PopsInReverse(front, if i > 0 then i - 1 else 0);
    }
  }

  /** A worker looks into its own deque first and takes the newest item, then into the injection queue, and then into
      the deques of the workers after it, cyclically, of which it takes the oldest. */
  lemma ScanOrder(s: State, w: nat, q: nat, queue: seq<Work>)
    requires Enabled(s, Try(w)) && w < |s.workers| && queue != []
    requires q == Target(|s.workers|, w, Scanned(s.workers[w])) && s.queues[q] == queue
    ensures var k := Scanned(s.workers[w]);
            && (q == w + 1 <== k == 0) && (q == 0 <==> k == 1)
            && (k >= 2 ==> q == 1 + (w + k - 1) % |s.workers|)
    ensures var s' := Next(s, Try(w));
            var item := if Scanned(s.workers[w]) == 0 then queue[|queue| - 1] else queue[0];
            item.Job? ==>
              && s'.workers[w] == Running(item)
              && s'.queues[q] == if Scanned(s.workers[w]) == 0 then queue[..|queue| - 1] else queue[1..]
  {
  }

  // ------------------------------------------------------------ one station to the next

  /** A submitted item starts as an Execute call, or in the heap with its time. */
  lemma FromCaller(s: State, s': State, step: Step)
    requires Enabled(s, step) && s' == Next(s, step)
    ensures step.Submit? ==> s'.calls == s.calls + [Call(step.item, step.q)] && s'.heap == s.heap
    ensures step.SubmitLater? ==> s'.heap == s.heap + [Timed(step.at, step.item)] && s'.calls == s.calls
    ensures s'.submitted != s.submitted ==>
              (step.Submit? || step.SubmitLater?) && step.item.Job? && s'.submitted == s.submitted + [step.item]
  {
  }

  /** A timed item leaves the heap for the ready list, when its time has come and no item is due earlier, or is
      discarded with the whole heap. */
  lemma FromHeap(s: State, s': State, step: Step, i: nat)
    requires Enabled(s, step) && s' == Next(s, step) && i < |s.heap|
    ensures s.heap[i] in s'.heap || step.DiscardHeap? || step.TimerPop?
    ensures step.TimerPop? ==>
              && step.i < |s.heap| && s'.ready == s.ready + [s.heap[step.i].item]
              && s.heap[step.i].at <= s.clock && s.heap[step.i].at <= s.heap[i].at
              && (i != step.i ==> s.heap[i] in s'.heap)
    ensures step.DiscardHeap? ==> s.heap[i].item in s'.discarded
  {
    if step.TimerPop? && i != step.i {
      var rest := s.heap[..step.i] + s.heap[step.i + 1..];
      assert rest[if i < step.i then i else i - 1] == s.heap[i];
    } else if step.SubmitLater? {
      assert s'.heap[i] == s.heap[i];
    } else if step.DiscardHeap? {
      assert TimedItems(s.heap)[i] in TimedItems(s.heap);
    }
  }

  /** The oldest ready item becomes an Execute call on the injection queue, and the others wait. */
  lemma FromReady(s: State, s': State, step: Step)
    requires Enabled(s, step) && s' == Next(s, step) && s.ready != []
    ensures if step == TimerExecute then s'.ready == s.ready[1..] && s'.calls == s.calls + [Call(s.ready[0], 0)]
            else s.ready <= s'.ready
  {
  }

  /** A call pushes its item on its queue, at the back. */
  lemma FromCall(s: State, s': State, step: Step, c: nat)
    requires Enabled(s, step) && s' == Next(s, step) && c < |s.calls|
    ensures step == Push(c) ==>
              && s.calls[c].queue < |s.queues| == |s'.queues|
              && s'.queues[s.calls[c].queue] == s.queues[s.calls[c].queue] + [s.calls[c].item]
    ensures step != Push(c) ==> s.calls[c] in s'.calls
  {
    if step.Push? && step.c != c {
      var rest := s.calls[..step.c] + s.calls[step.c + 1..];
      assert rest[if c < step.c then c else c - 1] == s.calls[c];
    } else if step != Push(c) {
      assert s'.calls[c] == s.calls[c];
    }
  }

  /** A queued job stays queued, is taken, or is discarded with its queue. */
  lemma FromQueue(s: State, s': State, step: Step, q: nat, x: Work)
    requires Enabled(s, step) && s' == Next(s, step) && x.Job? && q < |s.queues| && x in s.queues[q]
    ensures |s'.queues| == |s.queues|
    ensures x in s'.queues[q]
            || ((step.Try? || step.Help?) && s'.taken == s.taken + [x])
            || (step == DiscardQueue(q) && x in s'.discarded)
  {
    if step.Try? {
      var k := Scanned(s.workers[step.w]);
      StaysOrTaken(s.queues[q], FromBack(k), x);
    } else if step.Help? {
      StaysOrTaken(s.queues[q], step.back, x);
    } else if step == DiscardQueue(q) {
      assert x in s.discarded + s.queues[q];
    }
  }

  lemma StaysOrTaken(q: seq<Work>, back: bool, x: Work)
    requires x in q
    ensures x in Left(q, back) || x == Taken(q, back)
  {
    OccursTaken(x, q, back);
    OccursNone(x, q);
    OccursNone(x, Left(q, back));
  }

  /** What a worker takes, it runs, and what it runs it has taken. */
  lemma TakenIsRun(s: State, s': State, step: Step, w: nat)
    requires Enabled(s, step) && s' == Next(s, step) && w < |s.workers|
    ensures |s'.workers| == |s.workers|
    ensures s'.workers[w].Running? && s'.workers[w] != s.workers[w] ==>
              step == Try(w) && s'.taken == s.taken + [s'.workers[w].job]
    ensures step == Try(w) && s'.taken != s.taken ==>
              s'.workers[w].Running? && s'.taken == s.taken + [s'.workers[w].job]
    ensures s.workers[w].Running? ==> s'.workers[w] == s.workers[w] || step == Finish(w)
  {
  }

  // ------------------------------------------------------------ nothing leaves the way

  /** Only CancelAll discards, and what it discards it found in a queue or in the heap. */
  lemma OnlyCancelDiscards(s: State, s': State, step: Step, x: Work)
    requires Enabled(s, step) && s' == Next(s, step)
    ensures !step.DiscardQueue? && !step.DiscardHeap? ==> s'.discarded == s.discarded
    ensures x in s'.discarded && x !in s.discarded ==>
              if step.DiscardQueue? then step.q < |s.queues| && x in s.queues[step.q]
              else step.DiscardHeap? && x in TimedItems(s.heap)
  {
  }

  /** Before step i nothing of CancelAll has discarded x. */
  ghost predicate Uncanceled(states: seq<State>, steps: seq<Step>, i: nat, x: Work)
    requires i <= |steps| < |states|
  {
    forall k :: 0 <= k < i ==> !Discards(states[k], steps[k], x)
  }

  /** CancelAll finds x where it clears. */
  predicate Discards(s: State, step: Step, x: Work) {
    match step
    case DiscardQueue(q) => q < |s.queues| && x in s.queues[q]
    case DiscardHeap => x in TimedItems(s.heap)
    case _ => false
  }

  lemma {:induction false} NotDiscarded(states: seq<State>, steps: seq<Step>, i: nat, x: Work)
    requires Run(states, steps) && i < |states| && Uncanceled(states, steps, i, x)
    ensures x !in states[i].discarded
  {
    if i > 0 {
      NotDiscarded(states, steps, i - 1, x);
      assert !Discards(states[i - 1], steps[i - 1], x);
      OnlyCancelDiscards(states[i - 1], states[i], steps[i - 1], x);
    }
  }

  /** Where a job is that has been neither taken nor discarded. */
  function Underway(x: Work, s: State): nat {
    Occurs(x, TimedItems(s.heap)) + Occurs(x, s.ready) + Occurs(x, Items(s.calls)) + Occurs(x, Gather(s.queues))
  }

  /** Over every run: a submitted job that no CancelAll found is still on its way, in exactly one place, or has been
      taken exactly once. */
  lemma SubmittedIsDelivered(states: seq<State>, steps: seq<Step>, i: nat, x: Work)
    requires Run(states, steps) && i < |states| && x.Job? && x in states[i].submitted
    requires Uncanceled(states, steps, i, x)
    ensures Underway(x, states[i]) + Occurs(x, states[i].taken) == 1
  {
    ExactlyOnePlace(states, steps, i, x);
    NotDiscarded(states, steps, i, x);
    OccursNone(x, states[i].discarded);
  }

  // ------------------------------------------------------------ a whole way

  /** With nothing else about, a timed job gets through to a worker: every station of the way can be passed. */
  lemma TimedJobRuns(s: State, job: Work)
    returns (s1: State, s2: State, s3: State, s4: State, s5: State, s6: State, s7: State)
    requires Init(s) && job.Job? && s.clock <= job.due
    ensures Enabled(s, SubmitLater(job, job.due)) && s1 == Next(s, SubmitLater(job, job.due))
    ensures Enabled(s1, Tick(job.due)) && s2 == Next(s1, Tick(job.due))
    ensures Enabled(s2, TimerPop(0)) && s3 == Next(s2, TimerPop(0))
    ensures Enabled(s3, TimerExecute) && s4 == Next(s3, TimerExecute)
    ensures Enabled(s4, Push(0)) && s5 == Next(s4, Push(0))
    ensures Enabled(s5, Try(0)) && s6 == Next(s5, Try(0)) && Enabled(s6, Try(0)) && s7 == Next(s6, Try(0))
    ensures s7.workers != [] && s7.workers[0] == Running(job) && s7.taken == [job]
  {
    s1, s2 := JobIsTimed(s, job);
    s3, s4, s5 := JobIsQueued(s2, job);
    s6, s7 := JobIsTaken(s5, job);
  }

  /** All workers are about to scan empty queues. */
  ghost predicate Waiting(s: State) {
    && |s.workers| > 0 && |s.queues| == |s.owed| == |s.workers| + 1 && s.workers[0] == Scanning(0)
    && s.queues[1] == [] && s.calls == [] && s.ready == [] && s.taken == []
  }

  lemma JobIsTimed(s: State, job: Work) returns (s1: State, s2: State)
    requires Init(s) && job.Job? && s.clock <= job.due
    ensures Enabled(s, SubmitLater(job, job.due)) && s1 == Next(s, SubmitLater(job, job.due))
    ensures Enabled(s1, Tick(job.due)) && s2 == Next(s1, Tick(job.due))
    ensures Waiting(s2) && s2.queues[0] == [] && s2.heap == [Timed(job.due, job)] && s2.clock == job.due
  {
    s1 := Next(s, SubmitLater(job, job.due));
    s2 := Next(s1, Tick(job.due));
  }

  lemma JobIsQueued(s: State, job: Work) returns (s1: State, s2: State, s3: State)
    requires Waiting(s) && s.queues[0] == [] && job.Job? && s.heap == [Timed(job.due, job)] && s.clock == job.due
    ensures Enabled(s, TimerPop(0)) && s1 == Next(s, TimerPop(0))
    ensures Enabled(s1, TimerExecute) && s2 == Next(s1, TimerExecute)
    ensures Enabled(s2, Push(0)) && s3 == Next(s2, Push(0))
    ensures Waiting(s3) && s3.queues[0] == [job]
  {
    s1 := Next(s, TimerPop(0));
    assert s1.ready == [job];
    s2 := Next(s1, TimerExecute);
    assert s2.calls == [Call(job, 0)];
    s3 := Next(s2, Push(0));
    assert s3.queues[0] == [job];
  }

  lemma JobIsTaken(s: State, job: Work) returns (s1: State, s2: State)
    requires Waiting(s) && s.queues[0] == [job] && job.Job?
    ensures Enabled(s, Try(0)) && s1 == Next(s, Try(0)) && Enabled(s1, Try(0)) && s2 == Next(s1, Try(0))
    ensures s2.workers != [] && s2.workers[0] == Running(job) && s2.taken == [job]
  {
    s1 := Next(s, Try(0));
    assert s1.queues[0] == [job] && s1.workers[0] == Scanning(1);
    s2 := Next(s1, Try(0));
  }
}

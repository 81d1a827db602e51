/**
 * Sleeping and waking while only non-empty items are submitted: the workers are never all asleep while an item is
 * queued, unless some notification is still on its way, and no worker sleeps on an item that nobody will notify of.
 */
module PoolWakeup {
  import opened PoolQueue
  import opened PoolSteps

  // ------------------------------------------------------------ the invariant

  /** Worker w has looked at queue q since it loaded the generation it last saw. */
  predicate Passed(n: nat, w: nat, worker: Worker, q: nat)
    requires w < n && q <= n
  {
    match worker
    case Rescanning(_, k) => Position(n, w, q) < k
    case Drowsy(_) => true
    case Asleep(_) => true
    case _ => false
  }

  predicate Saw(worker: Worker, generation: nat) {
    (worker.Rescanning? || worker.Drowsy? || worker.Asleep?) && worker.seen == generation
  }

  ghost predicate Widths(s: State) {
    |s.workers| > 0 && |s.queues| == |s.owed| == |s.workers| + 1
  }

  /** If a worker that passed q has seen the current generation, every item now in q arrived later, and the
      call that pushed it has yet to bump the generation. */
  ghost predicate LateOk(queues: seq<seq<Work>>, workers: seq<Worker>, generation: nat, owed: seq<multiset<Work>>)
    requires |queues| == |owed| == |workers| + 1
  {
    forall w, q | 0 <= w < |workers| && 0 <= q <= |workers| ::
      Saw(workers[w], generation) && Passed(|workers|, w, workers[w], q) ==> AllOwed(queues[q], owed[q])
  }

  /** The Execute calls that pushed these items have yet to bump the generation. */
  ghost predicate AllOwed(queue: seq<Work>, owed: multiset<Work>) {
    forall i :: 0 <= i < |queue| ==> queue[i] in owed
  }

  ghost predicate SeenOk(workers: seq<Worker>, generation: nat) {
    forall w :: 0 <= w < |workers| ==> WorkerOk(workers[w], |workers|, generation)
  }

  predicate WorkerOk(worker: Worker, n: nat, generation: nat) {
    match worker
    case Scanning(k) => k <= n
    case Rescanning(seen, k) => seen <= generation && k <= n
    case Drowsy(seen) => seen <= generation
    case Asleep(seen) => seen <= generation
    case _ => true
  }

  predicate AllAsleep(workers: seq<Worker>) {
    forall w :: 0 <= w < |workers| ==> workers[w].Asleep?
  }

  /** All workers sleep on an old generation only while a wake-up is on its way. */
  ghost predicate SleepOk(workers: seq<Worker>, generation: nat, bumped: nat) {
    AllAsleep(workers) ==> bumped > 0 || exists w :: 0 <= w < |workers| && Saw(workers[w], generation)
  }

  /** No empty item is on its way to a queue or in one. */
  ghost predicate NoneEmpty(queues: seq<seq<Work>>, calls: seq<Call>, ready: seq<Work>, heap: seq<Timed>) {
    && (forall q, i :: 0 <= q < |queues| && 0 <= i < |queues[q]| ==> queues[q][i].Job?)
    && (forall c :: 0 <= c < |calls| ==> calls[c].item.Job?)
    && (forall i :: 0 <= i < |ready| ==> ready[i].Job?)
    && (forall i :: 0 <= i < |heap| ==> heap[i].item.Job?)
  }

  ghost predicate Inv(s: State) {
    && Widths(s)
    && LateOk(s.queues, s.workers, s.generation, s.owed)
    && SeenOk(s.workers, s.generation)
    && SleepOk(s.workers, s.generation, s.bumped)
    && NoneEmpty(s.queues, s.calls, s.ready, s.heap)
  }

  predicate SubmitsEmpty(step: Step) {
    (step.Submit? || step.SubmitLater?) && step.item.Nothing?
  }

  lemma StepKeepsNoneEmpty(s: State, s': State, step: Step)
    requires Inv(s) && Enabled(s, step) && s' == Next(s, step) && !SubmitsEmpty(step)
    ensures NoneEmpty(s'.queues, s'.calls, s'.ready, s'.heap)
  {
  }

  /** Steps that leave the workers and the generation alone, or advance the generation, or only take. */
  lemma QueuesKeepLate(s: State, s': State, step: Step)
    requires Inv(s) && Enabled(s, step) && s' == Next(s, step)
    requires step.Push? || step.Bump? || step.BumpAll? || step.Help? || step.DiscardQueue?
    ensures Widths(s') && LateOk(s'.queues, s'.workers, s'.generation, s'.owed)
  {
  }

  /** Steps that leave the queues alone. */
  lemma WorkersKeepLate(s: State, s': State, step: Step)
    requires Inv(s) && Enabled(s, step) && s' == Next(s, step)
    requires !(step.Push? || step.Bump? || step.BumpAll? || step.Help? || step.DiscardQueue?) && !step.Try?
    ensures Widths(s') && LateOk(s'.queues, s'.workers, s'.generation, s'.owed)
  {
  }

  /** A scan that moves on found its queue empty. */
  lemma TryKeepsLate(s: State, s': State, w: nat)
    requires Inv(s) && Enabled(s, Try(w)) && s' == TryNext(s, w)
    ensures Widths(s') && LateOk(s'.queues, s'.workers, s'.generation, s'.owed)
  {
    var n := |s.workers|;
    var k := Scanned(s.workers[w]);
    var target := Target(n, w, k);
    forall v, q | 0 <= v < n && 0 <= q <= n && Saw(s'.workers[v], s.generation) && Passed(n, v, s'.workers[v], q)
      ensures AllOwed(s'.queues[q], s.owed[q])
    {
      TargetOfPosition(n, w, q);
      if v == w && q != target {
        assert Passed(n, w, s.workers[w], q);
      }
    }
  }

  lemma StepKeepsLate(s: State, s': State, step: Step)
    requires Inv(s) && Enabled(s, step) && s' == Next(s, step)
    ensures Widths(s') && LateOk(s'.queues, s'.workers, s'.generation, s'.owed)
  {
    if step.Push? || step.Bump? || step.BumpAll? || step.Help? || step.DiscardQueue? {
      QueuesKeepLate(s, s', step);
    } else if step.Try? {
      TryKeepsLate(s, s', step.w);
    } else {
      WorkersKeepLate(s, s', step);
    }
  }

  lemma StepKeepsSleep(s: State, s': State, step: Step)
    requires Inv(s) && Enabled(s, step) && s' == Next(s, step)
    ensures SeenOk(s'.workers, s'.generation) && SleepOk(s'.workers, s'.generation, s'.bumped)
  {
    if step.Try? || step.Wake? || step.Spurious? || step.Observe? || step.Finish? {
      assert !s'.workers[step.w].Asleep?;
    } else if step.WakeNobody? || step.WakeEverybody? {
      assert !s'.workers[0].Asleep?;
    } else if step.Wait? && s.workers[step.w].seen == s.generation {
      assert Saw(s'.workers[step.w], s'.generation);
    } else if step.Wait? {
      assert !s'.workers[step.w].Asleep?;
    }
  }

  lemma StepKeepsInv(s: State, step: Step)
    requires Inv(s) && Enabled(s, step) && !SubmitsEmpty(step)
    ensures Inv(Next(s, step))
  {
    StepKeepsNoneEmpty(s, Next(s, step), step);
    StepKeepsLate(s, Next(s, step), step);
    StepKeepsSleep(s, Next(s, step), step);
  }

  lemma InitKeeps(s: State)
    requires Init(s)
    ensures Inv(s)
  {
    assert !s.workers[0].Asleep?;
  }

  /** Only non-empty items are submitted before step i. */
  ghost predicate SubmitsJobs(steps: seq<Step>, i: nat)
    requires i <= |steps|
  {
    forall k :: 0 <= k < i ==> !SubmitsEmpty(steps[k])
  }

  lemma {:induction false} RunKeepsInv(states: seq<State>, steps: seq<Step>, i: nat)
    requires Run(states, steps) && i < |states| && SubmitsJobs(steps, i)
    ensures Inv(states[i])
  {
    if i == 0 {
      InitKeeps(states[0]);
    } else {
      RunKeepsInv(states, steps, i - 1);
      StepKeepsInv(states[i - 1], steps[i - 1]);
    }
  }

  /** Every notification advances the generation, and goes to one sleeper if there is one. */
  lemma NotifyEffects(s: State, s': State, step: Step)
    requires Enabled(s, step) && s' == Next(s, step)
    ensures s'.generation == s.generation + (if step.Bump? || step.BumpAll? then 1 else 0)
    ensures step.Bump? || step.BumpAll? ==> s'.bumped == s.bumped + 1
    ensures step.Wake? || step.WakeNobody? || step.WakeEverybody? ==> s'.bumped == s.bumped - 1
    ensures step.WakeNobody? ==> !exists w :: 0 <= w < |s.workers| && s.workers[w].Asleep?
    ensures step.WakeEverybody? ==> !exists w :: 0 <= w < |s'.workers| && s'.workers[w].Asleep?
    ensures step.Bump? ==>
              && step.q < |s.owed| == |s'.owed| && step.item in s.owed[step.q]
              && s'.owed == s.owed[step.q := s.owed[step.q] - multiset{step.item}]
  {
  }

  /** A worker goes to sleep only on the generation it has seen, and wakes only when it is told to, or spuriously; then
      it scans again from the start. */
  lemma SleepEffects(s: State, s': State, step: Step, w: nat)
    requires Enabled(s, step) && s' == Next(s, step) && w < |s.workers|
    ensures |s'.workers| == |s.workers|
    ensures s'.workers[w].Asleep? && !s.workers[w].Asleep? ==> step == Wait(w) && s.workers[w] == Drowsy(s.generation)
    ensures step == Wait(w) && s.workers[w] != Drowsy(s.generation) ==> s'.workers[w] == Scanning(0)
    ensures step == Wait(w) && s.workers[w] == Drowsy(s.generation) ==> s'.workers[w] == Asleep(s.generation)
    ensures s.workers[w].Asleep? && !s'.workers[w].Asleep? ==>
              (step == Wake(w) || step == Spurious(w) || step.WakeEverybody?) && s'.workers[w] == Scanning(0)
    ensures step == Wake(w) || step == Spurious(w) ==> s'.workers[w] == Scanning(0)
    ensures step == Observe(w) ==> s'.workers[w] == Rescanning(s.generation, 0)
  {
  }

  // ------------------------------------------------------------ the results

  /** A notification is still owed: a call has pushed and not bumped, or bumped and not woken. */
  ghost predicate Owing(s: State) {
    s.bumped > 0 || exists q :: 0 <= q < |s.owed| && s.owed[q] != multiset{}
  }

  /** All workers sleep while a queue holds an item only if a notification is owed: one on its way to a worker, or
      one for each item of that queue. */
  lemma EveryItemIsOwed(states: seq<State>, steps: seq<Step>, i: nat, q: nat)
    requires Run(states, steps) && i < |states| && SubmitsJobs(steps, i)
    requires q < |states[i].queues| && states[i].queues[q] != []
    ensures AllAsleep(states[i].workers) ==> Owing(states[i])
    ensures AllAsleep(states[i].workers) && states[i].bumped == 0 ==>
              q < |states[i].owed| && AllOwed(states[i].queues[q], states[i].owed[q])
  {
    RunKeepsInv(states, steps, i);
    var s := states[i];
    if AllAsleep(s.workers) && s.bumped == 0 {
      var w :| 0 <= w < |s.workers| && Saw(s.workers[w], s.generation);
      assert s.workers[w].Asleep? && Passed(|s.workers|, w, s.workers[w], q);
      assert s.queues[q][0] in s.owed[q];
    }
  }

  /** Stronger, for one worker and one item: nobody falls asleep while a queue holds an item whose own Execute call
      has bumped the generation. */
  lemma NobodySleepsOnWork(states: seq<State>, steps: seq<Step>, i: nat, w: nat, q: nat, x: Work)
    requires Run(states, steps) && i < |steps| && SubmitsJobs(steps, i) && steps[i] == Wait(w)
    requires q < |states[i].queues| == |states[i].owed| && w < |states[i + 1].workers| && x in states[i].queues[q]
    ensures states[i + 1].workers[w].Asleep? ==> x in states[i].owed[q]
  {
    RunKeepsInv(states, steps, i);
    var s := states[i];
    if s.workers[w].seen == s.generation {
      assert Saw(s.workers[w], s.generation) && Passed(|s.workers|, w, s.workers[w], q);
      assert AllOwed(s.queues[q], s.owed[q]);
    }
  }
}

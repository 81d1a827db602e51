/**
 * No item is lost, duplicated or run early: every non-empty item submitted is at all times in exactly one
 * place, and a timed item leaves the timer heap only once its time has come.
 */
module PoolConservation {
  import opened PoolQueue
  import opened PoolSteps
  import opened PoolCounting

  // ------------------------------------------------------------ the invariant

  /** How many copies of x there are, over all places an item can be in. */
  function Copies(x: Work, s: State): nat {
    Occurs(x, TimedItems(s.heap)) + Occurs(x, s.ready) + Occurs(x, Items(s.calls)) + Occurs(x, Gather(s.queues))
    + Occurs(x, s.taken) + Occurs(x, s.discarded)
  }

  lemma KeptOccurs(x: Work, s: seq<Work>, y: Work)
    requires x.Job?
    ensures Occurs(x, s + Keep(y)) == Occurs(x, s) + if x == y then 1 else 0
  {
    if y.Job? {
      OccursAppend(x, s, y);
    } else {
      assert s + Keep(y) == s;
    }
  }

  /** Taking from queue q hands over exactly the item taken. */
  lemma TakeKeeps(x: Work, queues: seq<seq<Work>>, taken: seq<Work>, q: nat, back: bool)
    requires x.Job? && q < |queues|
    ensures var item := Taken(queues[q], back);
            Occurs(x, Gather(queues[q := Left(queues[q], back)])) + Occurs(x, taken + Keep(item)) ==
            Occurs(x, Gather(queues)) + Occurs(x, taken)
  {
    GatherUpdate(x, queues, q, Left(queues[q], back));
    KeptOccurs(x, taken, Taken(queues[q], back));
    if queues[q] != [] {
      OccursTaken(x, queues[q], back);
    }
  }

  lemma SubmitCopies(x: Work, s: State, s': State, step: Step)
    requires x.Job? && (step.Submit? || step.SubmitLater?) && Enabled(s, step) && s' == Next(s, step)
    ensures Copies(x, s') - Copies(x, s) == Occurs(x, s'.submitted) - Occurs(x, s.submitted) ==
        if x == step.item then 1 else 0
  {
    KeptOccurs(x, s.submitted, step.item);
    if step.Submit? {
      assert Items(s'.calls) == Items(s.calls) + [step.item];
      OccursAppend(x, Items(s.calls), step.item);
    } else {
      assert TimedItems(s'.heap) == TimedItems(s.heap) + [step.item];
      OccursAppend(x, TimedItems(s.heap), step.item);
    }
  }

  lemma PushCopies(x: Work, s: State, s': State, c: nat)
    requires Enabled(s, Push(c)) && s' == Next(s, Push(c))
    ensures Copies(x, s') == Copies(x, s)
  {
    var call := s.calls[c];
    assert Items(s'.calls) == Items(s.calls)[..c] + Items(s.calls)[c + 1..];
    OccursRemove(x, Items(s.calls), c);
    GatherUpdate(x, s.queues, call.queue, s.queues[call.queue] + [call.item]);
    OccursAppend(x, s.queues[call.queue], call.item);
  }

  lemma TimerCopies(x: Work, s: State, s': State, step: Step)
    requires (step.TimerPop? || step.TimerExecute?) && Enabled(s, step) && s' == Next(s, step)
    ensures Copies(x, s') == Copies(x, s)
  {
    if step.TimerPop? {
      var items := TimedItems(s.heap);
      assert TimedItems(s'.heap) == items[..step.i] + items[step.i + 1..];
      OccursRemove(x, items, step.i);
      OccursAppend(x, s.ready, items[step.i]);
    } else {
      assert Items(s'.calls) == Items(s.calls) + [s.ready[0]];
      OccursAppend(x, Items(s.calls), s.ready[0]);
    }
  }

  lemma DiscardCopies(x: Work, s: State, s': State, step: Step)
    requires (step.DiscardQueue? || step.DiscardHeap?) && Enabled(s, step) && s' == Next(s, step)
    ensures Copies(x, s') == Copies(x, s)
  {
    if step.DiscardQueue? {
      GatherUpdate(x, s.queues, step.q, []);
      OccursConcat(x, s.discarded, s.queues[step.q]);
    } else {
      OccursConcat(x, s.discarded, TimedItems(s.heap));
    }
  }

  /** Each step moves items about and creates none but those submitted. */
  lemma StepKeepsCopies(x: Work, s: State, s': State, step: Step)
    requires x.Job? && Enabled(s, step) && s' == Next(s, step)
    ensures Copies(x, s') - Copies(x, s) == Occurs(x, s'.submitted) - Occurs(x, s.submitted)
    ensures Occurs(x, s'.submitted) == Occurs(x, s.submitted)
        || (Occurs(x, s.submitted) == 0 && Occurs(x, s'.submitted) == 1)
  {
    match step
    case Submit(item, q) => SubmitCopies(x, s, s', step); OccursNone(x, s.submitted);
    case SubmitLater(item, at) => SubmitCopies(x, s, s', step); OccursNone(x, s.submitted);
    case Push(c) => PushCopies(x, s, s', c);
    case TimerPop(i) => TimerCopies(x, s, s', step);
    case TimerExecute => TimerCopies(x, s, s', step);
    case Try(w) =>
      var k := Scanned(s.workers[w]);
      TakeKeeps(x, s.queues, s.taken, Target(|s.workers|, w, k), FromBack(k));
    case Help(q, back) => TakeKeeps(x, s.queues, s.taken, q, back);
    case DiscardQueue(q) => DiscardCopies(x, s, s', step);
    case DiscardHeap => DiscardCopies(x, s, s', step);
    case _ =>
  }

  /** At every moment of every run, a non-empty item that was submitted is in exactly one place, once, and an
      item that was not submitted is nowhere. */
  lemma {:induction false} ExactlyOnePlace(states: seq<State>, steps: seq<Step>, i: nat, x: Work)
    requires Run(states, steps) && i < |states| && x.Job?
    ensures Copies(x, states[i]) == if x in states[i].submitted then 1 else 0
  {
    if i == 0 {
      GatherNothing(x, states[0].queues);
      assert Items(states[0].calls) == [];
    } else {
      ExactlyOnePlace(states, steps, i - 1, x);
      StepKeepsCopies(x, states[i - 1], states[i], steps[i - 1]);
      OccursNone(x, states[i - 1].submitted);
    }
    SubmittedOnce(states, steps, i, x);
    OccursNone(x, states[i].submitted);
  }

  lemma {:induction false} SubmittedOnce(states: seq<State>, steps: seq<Step>, i: nat, x: Work)
    requires Run(states, steps) && i < |states| && x.Job?
    ensures Occurs(x, states[i].submitted) <= 1
  {
    if i > 0 {
      SubmittedOnce(states, steps, i - 1, x);
      StepKeepsCopies(x, states[i - 1], states[i], steps[i - 1]);
    }
  }

  // ------------------------------------------------------------ timed items

  predicate Due(s: seq<Work>, clock: nat) {
    forall i :: 0 <= i < |s| && s[i].Job? ==> s[i].due <= clock
  }

  /** Timed items carry their time, and everything outside the heap, short of discarded items, has come due. */
  ghost predicate DueOk(s: State) {
    && (forall i :: 0 <= i < |s.heap| && s.heap[i].item.Job? ==> s.heap[i].item.due == s.heap[i].at)
    && Due(s.ready, s.clock) && Due(s.taken, s.clock)
    && (forall c :: 0 <= c < |s.calls| && s.calls[c].item.Job? ==> s.calls[c].item.due <= s.clock)
    && (forall q :: 0 <= q < |s.queues| ==> Due(s.queues[q], s.clock))
  }

  lemma StepKeepsDue(s: State, step: Step)
    requires DueOk(s) && Enabled(s, step)
    ensures DueOk(Next(s, step)) && s.clock <= Next(s, step).clock
  {
  }

  /** No item is queued or taken before its due time. */
  lemma {:induction false} NothingRunsEarly(states: seq<State>, steps: seq<Step>, i: nat)
    requires Run(states, steps) && i < |states|
    ensures DueOk(states[i])
  {
    if i > 0 {
      NothingRunsEarly(states, steps, i - 1);
      StepKeepsDue(states[i - 1], steps[i - 1]);
    }
  }
}

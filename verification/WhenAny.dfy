/**
 * The state that the watchers of WhenAny share with its one awaiter: the class with its two lock
 * sections, and every interleaving of those sections for n watchers and one awaiter, whatever the outcomes of
 * the children.
 */
module WhenAny {
  import opened Options

  datatype Shared = Shared(completed: bool, index: nat, continuation: bool)

  class SharedState {
    var completed: bool
    var index: nat
    var continuation: bool

    ghost function View(): (v: Shared)
      reads this
    {
      Shared(completed, index, continuation)
    }

    constructor ()
      ensures View() == Shared(false, 0, false)
    {
      completed, index, continuation := false, 0, false;
    }

    /** Registers the awaiter, unless a child has already completed. */
    method SetContinuation() returns (registered: bool)
      modifies this
      ensures registered == !old(completed)
      ensures View() == AfterRegister(old(View()))
    {
      if completed {
        return false;
      }
      continuation := true;
      return true;
    }

    /** The lock section of Complete: says whether the caller has to resume the awaiter. */
    method Complete(completedIndex: nat) returns (toResume: bool)
      modifies this
      ensures toResume == (!old(completed) && old(continuation))
      ensures View() == AfterComplete(old(View()), completedIndex)
    {
      if completed {
        return false;
      }
      completed := true;
      index := completedIndex;
      return continuation;
    }
  }

  function AfterRegister(v: Shared): Shared {
    if v.completed then v else v.(continuation := true)
  }

  function AfterComplete(v: Shared, i: nat): Shared {
    if v.completed then v else v.(completed := true, index := i)
  }

  // ------------------------------------------------------------ the threads

  /** How a child ends. */
  datatype Outcome = Succeeded | DomainError | Canceled | Faulted

  /** A watcher faulted before it started, awaits its operation, holds the handle it must resume, or is done. */
  datatype Watcher = Unstarted | Running | MustResume | Finished

  /** What the task that WhenAny returns ends with. */
  datatype Result = Index(value: nat) | Failure(outcome: Outcome)

  /** The awaiter before await_ready, before await_suspend, suspended, running on, or returned. */
  datatype Awaiter = Starting | NotReady | Suspended | Runnable | Returned(result: Result)

  /** onExecutor: the context has a valid executor.  Without one no watcher starts: Spawn faults it on the spot.
      With one, resuming posts a job, and jobs counts the posted ones.  outcomes holds the
      outcomes that the watchers' co_await delivered.  recorded and resumed are the history: the indices written
      and the resumptions made. */
  datatype State = State(
    shared: Shared, watchers: seq<Watcher>, outcomes: seq<Option<Outcome>>, awaiter: Awaiter, onExecutor: bool,
    jobs: nat, recorded: seq<nat>, resumed: nat)

  datatype Step = Complete(w: nat, outcome: Outcome) | Resume(w: nat) | RunJob | CheckReady | Suspend | Read

  ghost predicate Init(s: State) {
    && s.shared == Shared(false, 0, false) && |s.watchers| == |s.outcomes| > 0
    && (forall w :: 0 <= w < |s.outcomes| ==> s.outcomes[w] == None)
    && (forall w :: 0 <= w < |s.watchers| ==>
          s.watchers[w] == if s.onExecutor then Running else Unstarted)
    && s.awaiter == Starting && s.jobs == 0 && s.recorded == [] && s.resumed == 0
  }

  function SetWatcher(s: State, w: nat, next: Watcher): State
    requires w < |s.watchers|
  {
    s.(watchers := s.watchers[w := next])
  }

  predicate Enabled(s: State, step: Step) {
    match step
    case Complete(w, _) => w < |s.watchers| == |s.outcomes| && s.watchers[w] == Running
    case Resume(w) => w < |s.watchers| && s.watchers[w] == MustResume
    case RunJob => s.jobs > 0
    case CheckReady => s.awaiter == Starting
    case Suspend => s.awaiter == NotReady
    case Read => s.awaiter == Runnable
  }

  function Next(s: State, step: Step): State
    requires Enabled(s, step)
  {
    match step
    case Complete(w, outcome) =>
      // the outcome of the co_await is discarded
      var wins := !s.shared.completed;
      var t := SetWatcher(s, w, if wins && s.shared.continuation then MustResume else Finished);
      t.(shared := AfterComplete(s.shared, w), outcomes := s.outcomes[w := Some(outcome)],
      recorded := if wins then s.recorded + [w] else s.recorded)
    case Resume(w) =>
      var t := SetWatcher(s, w, Finished);
      if s.onExecutor then t.(jobs := s.jobs + 1) else t.(awaiter := Runnable, resumed := s.resumed + 1)
    case RunJob => s.(jobs := s.jobs - 1, awaiter := Runnable, resumed := s.resumed + 1)
    case CheckReady => s.(awaiter := if s.shared.completed then Runnable else NotReady)
    case Suspend =>
      s.(awaiter := if s.shared.completed then Runnable else Suspended, shared := AfterRegister(s.shared))
    case Read => s.(awaiter := Returned(Index(s.shared.index)))
  }

  ghost predicate Run(states: seq<State>, steps: seq<Step>) {
    && |states| == |steps| + 1 && Init(states[0])
    && forall i {:trigger steps[i]} :: 0 <= i < |steps| ==>
      Enabled(states[i], steps[i]) && states[i + 1] == Next(states[i], steps[i])
  }

  // ------------------------------------------------------------ the invariant

  /** Resumptions decided on and not yet made. */
  function Owed(s: State): nat {
    s.jobs + if s.shared.index < |s.watchers| && s.watchers[s.shared.index] == MustResume then 1 else 0
  }

  /** The watcher has not got past its co_await. */
  predicate Awaiting(watcher: Watcher) {
    watcher == Running || watcher == Unstarted
  }

  ghost predicate WatchersOk(s: State) {
    && s.shared.index < |s.watchers| == |s.outcomes|
    && (s.shared.completed ==> s.watchers[s.shared.index] in {MustResume, Finished})
    && (!s.shared.completed ==> s.jobs == 0 && forall w :: 0 <= w < |s.watchers| ==> Awaiting(s.watchers[w]))
    && (forall w :: 0 <= w < |s.watchers| && s.watchers[w] == MustResume ==> w == s.shared.index)
    && (forall w :: 0 <= w < |s.watchers| ==> (Awaiting(s.watchers[w]) <==> s.outcomes[w] == None))
    && (forall w :: 0 <= w < |s.watchers| ==> (s.watchers[w] == Unstarted <==> !s.onExecutor))
  }

  ghost predicate Inv(s: State) {
    && s.recorded == (if s.shared.completed then [s.shared.index] else [])
    && WatchersOk(s) && AwaiterOk(s)
  }

  ghost predicate AwaiterOk(s: State) {
    match s.awaiter
    case Starting => !s.shared.continuation && s.resumed == Owed(s) == 0
    case NotReady => !s.shared.continuation && s.resumed == Owed(s) == 0
    case Suspended => s.shared.continuation && s.resumed == 0 && (s.shared.completed ==> Owed(s) == 1)
    case Runnable => s.shared.completed && Owed(s) == 0 && s.resumed == if s.shared.continuation then 1 else 0
    case Returned(result) =>
      && s.shared.completed && result == Index(s.shared.index)
      && Owed(s) == 0 && s.resumed == if s.shared.continuation then 1 else 0
  }

  lemma CompleteKeepsInv(s: State, w: nat, outcome: Outcome)
    requires Inv(s) && Enabled(s, Complete(w, outcome))
    ensures Inv(Next(s, Complete(w, outcome)))
  {
  }

  lemma ResumeKeepsInv(s: State, w: nat)
    requires Inv(s) && Enabled(s, Resume(w))
    ensures Inv(Next(s, Resume(w)))
  {
  }

  /** The steps of the awaiter and of its executor. */
  lemma AwaiterKeepsInv(s: State, step: Step)
    requires Inv(s) && Enabled(s, step) && !step.Complete? && !step.Resume?
    ensures Inv(Next(s, step))
  {
  }

  lemma StepKeepsInv(s: State, step: Step)
    requires Inv(s) && Enabled(s, step)
    ensures Inv(Next(s, step))
  {
    match step
    case Complete(w, outcome) => CompleteKeepsInv(s, w, outcome);
    case Resume(w) => ResumeKeepsInv(s, w);
    case _ => AwaiterKeepsInv(s, step);
  }

  lemma {:induction false} RunKeepsInv(states: seq<State>, steps: seq<Step>, i: nat)
    requires Run(states, steps) && i < |states|
    ensures Inv(states[i])
  {
    if i > 0 {
      RunKeepsInv(states, steps, i - 1);
      StepKeepsInv(states[i - 1], steps[i - 1]);
    }
  }

  // ------------------------------------------------------------ the results

  /** Once an index is recorded it is the only one, and no later step changes it. */
  lemma {:induction false} OneIndexForever(states: seq<State>, steps: seq<Step>, i: nat, j: nat)
    requires Run(states, steps) && i <= j < |states| && states[i].shared.completed
    ensures states[j].shared.completed && states[j].shared.index == states[i].shared.index
    ensures states[j].recorded == [states[i].shared.index]
    decreases j
  {
    RunKeepsInv(states, steps, j);
    if i < j {
      OneIndexForever(states, steps, i, j - 1);
      assert Enabled(states[j - 1], steps[j - 1]);
    }
  }

  /** The recorded index is that of a watcher that ran Complete earlier in the run, before any other. */
  lemma {:induction false} WinnerCameFirst(states: seq<State>, steps: seq<Step>, i: nat) returns (k: nat)
    requires Run(states, steps) && i < |states| && states[i].shared.completed
    ensures k < i && steps[k].Complete? && steps[k].w == states[i].shared.index
    ensures forall j :: 0 <= j < k ==> !steps[j].Complete?
    decreases i
  {
    RunKeepsInv(states, steps, i - 1);
    assert Enabled(states[i - 1], steps[i - 1]);
    if states[i - 1].shared.completed {
      k := WinnerCameFirst(states, steps, i - 1);
    } else {
      k := i - 1;
      forall j | 0 <= j < k
        ensures !steps[j].Complete?
      {
        if steps[j].Complete? {
          OneIndexForever(states, steps, j + 1, i - 1);
        }
      }
    }
  }

  /** A resumption only ever meets a suspended awaiter, after the winner is recorded, and happens once:
      not at all if the awaiter never suspended. */
  lemma ResumedOnceAfterWinner(states: seq<State>, steps: seq<Step>, i: nat)
    requires Run(states, steps) && i < |steps|
    ensures states[i + 1].resumed > states[i].resumed ==>
              && states[i].awaiter == Suspended && states[i].shared.completed
              && states[i].resumed == 0 && states[i + 1].resumed == 1
    ensures !states[i].shared.continuation ==> states[i].resumed == 0
    ensures states[i].awaiter.Returned? ==>
              && states[i].awaiter.result == Index(states[i].shared.index) && states[i].shared.completed
              && states[i].resumed == if states[i].shared.continuation then 1 else 0
  {
    RunKeepsInv(states, steps, i);
    RunKeepsInv(states, steps, i + 1);
    assert Enabled(states[i], steps[i]);
  }

  // ------------------------------------------------------------ termination

  function Weights(watchers: seq<Watcher>): nat {
    if watchers == [] then 0
    else Weights(watchers[1..]) + match watchers[0] case Running => 3 case MustResume => 2 case _ => 0
  }

  lemma {:induction false} SetWeight(watchers: seq<Watcher>, w: nat, next: Watcher)
    requires w < |watchers|
    ensures Weights(watchers[w := next]) - Weights([next]) == Weights(watchers) - Weights([watchers[w]])
  {
    if w > 0 {
      assert watchers[w := next][1..] == watchers[1..][w - 1 := next];
      SetWeight(watchers[1..], w - 1, next);
    } else {
      assert watchers[w := next][1..] == watchers[1..];
    }
  }

  function Remaining(s: State): nat {
    Weights(s.watchers) + s.jobs + Left(s.awaiter)
  }

  function Left(awaiter: Awaiter): nat {
    match awaiter
    case Starting => 4
    case NotReady => 3
    case Suspended => 2
    case Runnable => 1
    case Returned(_) => 0
  }

  lemma StepsDecrease(s: State, step: Step)
    requires Inv(s) && Enabled(s, step)
    ensures Remaining(Next(s, step)) < Remaining(s)
  {
    if step.Complete? || step.Resume? {
      SetWeight(s.watchers, step.w, Next(s, step).watchers[step.w]);
    }
  }

  lemma {:induction false} InitialWeight(watchers: seq<Watcher>)
    ensures Weights(watchers) <= 3 * |watchers|
  {
    if watchers != [] {
      InitialWeight(watchers[1..]);
    }
  }

  lemma {:induction false} RunIsBounded(states: seq<State>, steps: seq<Step>, i: nat)
    requires Run(states, steps) && i < |states|
    ensures i + Remaining(states[i]) <= 3 * |states[0].watchers| + 4
  {
    if i == 0 {
      InitialWeight(states[0].watchers);
    } else {
      RunIsBounded(states, steps, i - 1);
      RunKeepsInv(states, steps, i - 1);
      StepsDecrease(states[i - 1], steps[i - 1]);
    }
  }

  /** No thread can move. */
  ghost predicate Stuck(s: State) {
    forall step :: !Enabled(s, step)
  }

  /** No schedule runs for ever.  With a valid executor, one that stops has returned the index of the first child to
      complete: the awaiter is never left suspended.  Without one, it is left suspended by every schedule that
      stops. */
  lemma EveryScheduleReturns(states: seq<State>, steps: seq<Step>)
    requires Run(states, steps)
    ensures |steps| <= 3 * |states[0].watchers| + 4
    ensures var s := states[|steps|];
            Stuck(s) ==>
              if states[0].onExecutor then
                s.awaiter == Returned(Index(s.shared.index)) && s.recorded == [s.shared.index]
              else s.awaiter == Suspended && s.recorded == []
  {
    RunIsBounded(states, steps, |steps|);
    RunKeepsInv(states, steps, |steps|);
    ExecutorStays(states, steps, |steps|);
    var s := states[|steps|];
    if Stuck(s) {
      assert !Enabled(s, Complete(s.shared.index, Succeeded)) && !Enabled(s, Resume(s.shared.index));
      assert !Enabled(s, RunJob) && !Enabled(s, CheckReady) && !Enabled(s, Suspend) && !Enabled(s, Read);
    }
  }

  lemma {:induction false} ExecutorStays(states: seq<State>, steps: seq<Step>, i: nat)
    requires Run(states, steps) && i < |states|
    ensures states[i].onExecutor == states[0].onExecutor
    ensures !states[0].onExecutor ==> !states[i].shared.completed && !states[i].awaiter.Returned?
  {
    if i > 0 {
      ExecutorStays(states, steps, i - 1);
      RunKeepsInv(states, steps, i - 1);
      assert Enabled(states[i - 1], steps[i - 1]);
    }
  }

  /** Every schedule from s that stops has returned. */
  ghost predicate AlwaysReturns(s: State) {
    forall states: seq<State>, steps: seq<Step> ::
      Run(states, steps) && states[0] == s && Stuck(states[|steps|]) ==>
      states[|steps|].awaiter.Returned?
  }

  /** A call without a valid executor, for any number of children: nobody will ever resume the awaiter. */
  lemma HangsWithoutExecutor(s: State) returns (states: seq<State>, steps: seq<Step>)
    requires Init(s) && !s.onExecutor
    ensures Run(states, steps) && states[0] == s
    ensures Stuck(states[|steps|]) && states[|steps|].awaiter == Suspended
  {
    var s1 := s.(awaiter := NotReady);
    var s2 := s.(awaiter := Suspended, shared := AfterRegister(s.shared));
    states, steps := [s, s1, s2], [CheckReady, Suspend];
  }

  /** The exact condition for the call to return. */
  lemma ReturnsExactly(s: State)
    requires Init(s)
    ensures AlwaysReturns(s) <==> s.onExecutor
  {
    if s.onExecutor {
      forall states: seq<State>, steps: seq<Step> | Run(states, steps) && states[0] == s && Stuck(states[|steps|])
        ensures states[|steps|].awaiter.Returned?
      {
        EveryScheduleReturns(states, steps);
      }
    } else {
      var states, steps := HangsWithoutExecutor(s);
    }
  }

  // ------------------------------------------------------------ outcomes

  /** The documented result: the winner's index, or its failure. */
  predicate AsDocumented(s: State)
    requires s.awaiter.Returned? && s.shared.index < |s.outcomes| && s.outcomes[s.shared.index].Some?
  {
    var outcome := s.outcomes[s.shared.index].value;
    s.awaiter.result == if outcome == Succeeded then Index(s.shared.index) else Failure(outcome)
  }

  /** The awaiter returns the index whatever the outcome of the winner; so the result is the documented one if and
      only if the winner succeeded. */
  lemma ResultIgnoresOutcome(states: seq<State>, steps: seq<Step>, i: nat)
    requires Run(states, steps) && i < |states| && states[i].awaiter.Returned?
    ensures states[i].shared.index < |states[i].outcomes| && states[i].outcomes[states[i].shared.index].Some?
    ensures states[i].awaiter.result == Index(states[i].shared.index)
    ensures AsDocumented(states[i]) <==> states[i].outcomes[states[i].shared.index] == Some(Succeeded)
  {
    RunKeepsInv(states, steps, i);
  }

  /** A winner that failed, and a result that is a success. */
  lemma FailedWinnerReturnsIndex(failure: Outcome) returns (states: seq<State>, steps: seq<Step>)
    requires failure != Succeeded
    ensures Run(states, steps) && states[|steps|].awaiter == Returned(Index(0))
    ensures states[|steps|].shared.index == 0 && states[|steps|].outcomes == [Some(failure)]
    ensures !AsDocumented(states[|steps|])
  {
    var s0 := State(Shared(false, 0, false), [Running], [None], Starting, true, 0, [], 0);
    var s1 := s0.(shared := Shared(true, 0, false), watchers := [Finished], outcomes := [Some(failure)],
        recorded := [0]);
    var s2 := s1.(awaiter := Runnable);
    var s3 := s1.(awaiter := Returned(Index(0)));
    states, steps := [s0, s1, s2, s3], [Complete(0, failure), CheckReady, Read];
  }
}

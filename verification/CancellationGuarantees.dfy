/**
 * What cancellation guarantees over every run: the callback of a registration that no disturbing step has
 * touched runs exactly once, or never if it was reset in time, and its continuation is scheduled accordingly.
 */
module CancellationGuarantees {
  import opened Options
  import opened CancellationList
  import opened CancellationSteps
  import opened CancellationInvariant

  // ------------------------------------------------------------ how a ticket's fate develops

  /** step is the start of a Reset of the object that holds t. */
  predicate Resets(s: State, step: Step, t: Ticket) {
    step.ResetBegin? && step.r < |s.held| && s.held[step.r] == Some(t)
  }

  /** A step disturbs exactly the tickets that Disturbs names, and withdraws none that it does not reset. */
  lemma FateStep(s: State, s': State, step: Step, t: Ticket)
    requires Enabled(s, step) && s' == Next(s, step)
    ensures t in s'.disturbed <==> t in s.disturbed || Disturbs(s, step, t)
    ensures t in s'.withdrawn ==> t in s.withdrawn || Resets(s, step, t)
  {
  }

  /** It forgets no ticket. */
  lemma StatusStep(s: State, s': State, step: Step, t: Ticket)
    requires Enabled(s, step) && s' == Next(s, step) && t in s.status
    ensures t in s'.status
  {
  }

  predicate ByOwner(step: Step) {
    !(step.CancelExchange? || step.CancelSwap? || step.FireCall? || step.FireResume? || step.CancelEnd?)
  }

  lemma OwnerLeavesGone(s: State, s': State, step: Step, t: Ticket)
    requires Enabled(s, step) && ByOwner(step) && s' == Next(s, step)
    requires t in s.status && t in s'.status && s.status[t] == Gone
    ensures s'.status[t] == Gone
  {
  }

  lemma CancelLeavesGone(s: State, s': State, step: Step, t: Ticket)
    requires Enabled(s, step) && !ByOwner(step) && s' == Next(s, step)
    requires t in s.status && t in s'.status && s.status[t] == Gone
    ensures s'.status[t] == Gone
  {
    if step.FireCall? {
      FireLeavesGone(s, s', step.answer, t);
    }
  }

  lemma FireLeavesGone(s: State, s': State, answer: bool, t: Ticket)
    requires CanFire(s) && s' == FireCallNext(s, answer) && t in s.status && s.status[t] == Gone
    ensures t in s'.status && s'.status[t] == Gone
  {
  }

  /** It brings no withdrawn one back. */
  lemma GoneStays(s: State, s': State, step: Step, t: Ticket)
    requires Enabled(s, step) && s' == Next(s, step) && t in s.status && t in s'.status && s.status[t] == Gone
    ensures s'.status[t] == Gone
  {
    if ByOwner(step) {
      OwnerLeavesGone(s, s', step, t);
    } else {
      CancelLeavesGone(s, s', step, t);
    }
  }

  /** The callback of an object that is not being reset cannot be gone. */
  lemma GoneIsNotDisturbed(s: State, step: Step, t: Ticket)
    requires Shape(s) && Enabled(s, step) && t in s.status && TicketOk(s, t) && s.status[t] == Gone
    ensures !Disturbs(s, step, t)
  {
    forall r | 0 <= r < |s.ops| && (s.ops[r].MovingIn? || s.ops[r].Free?)
      ensures s.held[r] != Some(t)
    {
      assert s.held[r] == Some(t) ==> HolderOk(t, s.ops[r], s.home, r);
    }
  }

  /** No step before i disturbs t. */
  ghost predicate Undisturbed(states: seq<State>, steps: seq<Step>, i: nat, t: Ticket)
    requires i <= |steps| < |states|
  {
    forall k :: 0 <= k < i ==> !Disturbs(states[k], steps[k], t)
  }

  ghost predicate NeverReset(states: seq<State>, steps: seq<Step>, i: nat, t: Ticket)
    requires i <= |steps| < |states|
  {
    forall k :: 0 <= k < i ==> !Resets(states[k], steps[k], t)
  }

  lemma {:induction false} FateOfRun(states: seq<State>, steps: seq<Step>, i: nat, t: Ticket)
    requires Run(states, steps) && i < |states|
    ensures Undisturbed(states, steps, i, t) <==> t !in states[i].disturbed
    ensures NeverReset(states, steps, i, t) ==> t !in states[i].withdrawn
  {
    if i > 0 {
      FateStep(states[i - 1], states[i], steps[i - 1], t);
      FateOfRun(states, steps, i - 1, t);
      UndisturbedStep(states, steps, i, t);
    }
  }

  lemma UndisturbedStep(states: seq<State>, steps: seq<Step>, i: nat, t: Ticket)
    requires 0 < i <= |steps| < |states|
    ensures Undisturbed(states, steps, i, t) <==>
            Undisturbed(states, steps, i - 1, t) && !Disturbs(states[i - 1], steps[i - 1], t)
    ensures NeverReset(states, steps, i, t) ==> NeverReset(states, steps, i - 1, t)
    ensures NeverReset(states, steps, i, t) ==> !Resets(states[i - 1], steps[i - 1], t)
  {
  }

  lemma {:induction false} StatusStays(states: seq<State>, steps: seq<Step>, i: nat, j: nat, t: Ticket)
    requires Run(states, steps) && i <= j < |states| && t in states[i].status
    ensures t in states[j].status
    decreases j
  {
    if i < j {
      StatusStays(states, steps, i, j - 1, t);
      StatusStep(states[j - 1], states[j], steps[j - 1], t);
    }
  }

  lemma GoneStep(s: State, s': State, step: Step, t: Ticket)
    requires Inv(s) && Enabled(s, step) && s' == Next(s, step)
    requires t in s.status && t !in s.disturbed && s.status[t] == Gone
    ensures t in s'.status && t !in s'.disturbed && s'.status[t] == Gone
  {
    FateStep(s, s', step, t);
    StatusStep(s, s', step, t);
    GoneStays(s, s', step, t);
    GoneIsNotDisturbed(s, step, t);
  }

  lemma {:induction false} GoneForever(states: seq<State>, steps: seq<Step>, i: nat, j: nat, t: Ticket)
    requires Run(states, steps) && i <= j < |states|
    requires t in states[i].status && t !in states[i].disturbed && states[i].status[t] == Gone
    ensures t in states[j].status && t !in states[j].disturbed && states[j].status[t] == Gone
    decreases j
  {
    if i < j {
      GoneForever(states, steps, i, j - 1, t);
      RunKeepsInv(states, steps, j - 1);
      GoneStep(states[j - 1], states[j], steps[j - 1], t);
    }
  }

  // ------------------------------------------------------------ what a step does to a callback

  /** The step calls the callback of t: Fire, or a refused Register. */
  predicate Calls(s: State, step: Step, t: Ticket) {
    match step
    case RunInline(r, _) => CanRunInline(s, r) && s.ops[r] == Inline(t) && t.hasCallback
    case FireCall(_) => CanFire(s) && s.held[s.phase.rest[0]] == Some(t) && t.hasCallback
    case _ => false
  }

  /** The callback asks for its continuation. */
  predicate Asks(s: State, step: Step, t: Ticket) {
    Calls(s, step, t) && match step case RunInline(_, answer) => answer case FireCall(answer) => answer case _ => false
  }

  /** Each step calls and asks at most once, as its answer says; a refused Register schedules at once, what the
      callback, if there is one, asks for. */
  lemma StepEffects(s: State, s': State, step: Step, t: Ticket)
    requires Enabled(s, step) && s' == Next(s, step)
    ensures s'.called[t] == s.called[t] + Once(Calls(s, step, t))
    ensures s'.asked[t] == s.asked[t] + Once(Asks(s, step, t))
    ensures step.RunInline? ==>
              s'.scheduled[t] == s.scheduled[t]
                + Once(s.ops[step.r] == Inline(t) && t.wantsResume && (t.hasCallback ==> step.answer))
    ensures s'.scheduled[t] != s.scheduled[t] ==> step.RunInline? || step.FireResume?
  {
    if step.FireCall? {
      FireEffects(s, s', step.answer, t);
    }
  }

  /** Register is accepted exactly while the flag is not set, into the list; otherwise its callback is still to run. */
  lemma RegisterEffects(s: State, s': State, r: nat)
    requires Enabled(s, TryRegister(r)) && s' == Next(s, TryRegister(r))
    ensures r < |s.ops| == |s'.ops| && s.ops[r].Storing?
    ensures s.phase.Idle? ==> s'.list == s.list + [r] && s'.ops[r] == Free && s'.held == s.held
    ensures !s.phase.Idle? ==> s'.list == s.list && s'.ops[r] == Inline(s.ops[r].t) && s'.held[r] == None
  {
  }

  /** Cancel takes the whole list away, and fires it in order. */
  lemma CancelEffects(s: State, s': State, step: Step)
    requires Enabled(s, step) && s' == Next(s, step)
    ensures step.CancelExchange? ==> !s'.phase.Idle? && (!s.phase.Idle? ==> s' == s)
    ensures step.CancelSwap? ==> s'.phase == Firing(s.list) && s'.list == []
    ensures step.FireCall? ==>
              s'.phase.Resuming? && s'.phase.current == s.phase.rest[0] && s'.phase.rest == s.phase.rest[1..]
    ensures step.FireResume? ==> s'.phase == Firing(s.phase.rest)
    ensures step.CancelEnd? ==> s.phase == Firing([]) && s'.phase.Finished?
    ensures s'.phase != s.phase ==>
              step.CancelExchange? || step.CancelSwap? || step.FireCall? || step.FireResume? || step.CancelEnd?
  {
  }

  lemma FireEffects(s: State, s': State, answer: bool, t: Ticket)
    requires CanFire(s) && s' == FireCallNext(s, answer)
    ensures s'.called[t] == s.called[t] + Once(Calls(s, FireCall(answer), t))
    ensures s'.asked[t] == s.asked[t] + Once(Asks(s, FireCall(answer), t)) && s'.scheduled == s.scheduled
  {
  }

  // ------------------------------------------------------------ the guarantees

  lemma CountsOf(s: State, t: Ticket)
    requires Inv(s) && t !in s.disturbed
    ensures s.called[t] <= Once(t.hasCallback) && s.asked[t] <= s.called[t]
    ensures s.scheduled[t] <= if t.hasCallback then s.asked[t] else 1
    ensures s.phase.Idle? ==> s.called[t] == s.scheduled[t] == 0
  {
    if t in s.status {
      assert TicketOk(s, t);
    } else {
      assert Untouched(s, t);
    }
  }

  /** At every moment of every run an undisturbed callback has run at most once, and its continuation was
      scheduled at most once, and only if the callback asked for it. */
  lemma AtMostOnce(states: seq<State>, steps: seq<Step>, i: nat, t: Ticket)
    requires Run(states, steps) && i < |states| && Undisturbed(states, steps, i, t)
    ensures states[i].called[t] <= 1 && states[i].scheduled[t] <= 1
    ensures t.hasCallback ==> states[i].scheduled[t] <= states[i].asked[t] <= states[i].called[t]
  {
    RunKeepsInv(states, steps, i);
    FateOfRun(states, steps, i, t);
    CountsOf(states[i], t);
  }

  /** Nothing runs before the flag is set, disturbed or not. */
  lemma NothingBeforeCancel(states: seq<State>, steps: seq<Step>, i: nat, t: Ticket)
    requires Run(states, steps) && i < |states| && states[i].phase.Idle?
    ensures states[i].called[t] == 0 && states[i].scheduled[t] == 0
  {
    RunKeepsInv(states, steps, i);
    CountsOf(states[i], t);
  }

  /** The Register call for t has not returned yet. */
  predicate Registering(s: State, t: Ticket) {
    exists r :: 0 <= r < |s.ops| && (s.ops[r] == Storing(t) || s.ops[r] == Inline(t))
  }

  /** What is due to a registration by the time the winning Cancel has finished: the callback once, and the
      continuation once if it is wanted and the callback, when there is one, asked for it. */
  predicate Served(s: State, t: Ticket) {
    && s.called[t] == Once(t.hasCallback)
    && s.scheduled[t] == Once(t.wantsResume && (t.hasCallback ==> s.asked[t] > 0))
  }

  /** By the time the winning Cancel has finished, every Register call that has returned has been served exactly
      once, whether it was listed before the swap or refused after the exchange, provided it was neither reset nor
      disturbed. */
  lemma ExactlyOnce(states: seq<State>, steps: seq<Step>, i: nat, t: Ticket)
    requires Run(states, steps) && i < |states| && t in states[i].status
    requires states[i].phase.Finished? && !Registering(states[i], t)
    requires Undisturbed(states, steps, i, t) && NeverReset(states, steps, i, t)
    ensures Served(states[i], t)
  {
    RunKeepsInv(states, steps, i);
    FateOfRun(states, steps, i, t);
    AllServed(states[i], t);
  }

  lemma AllServed(s: State, t: Ticket)
    requires Inv(s) && s.phase.Finished? && !Registering(s, t)
    requires t in s.status && t !in s.disturbed && t !in s.withdrawn
    ensures Served(s, t)
  {
    assert TicketOk(s, t);
    assert s.status[t].Ran?;
  }

  lemma UnregisteredIsGone(s: State, r: nat, t: Ticket)
    requires Inv(s) && CanUnregister(s, r) && s.held[r] == Some(t) && !Swapped(s.phase)
    ensures t in s.status
    ensures UnregisterNext(s, r).status[t] == Gone && t !in UnregisterNext(s, r).disturbed
  {
    assert TicketOk(s, t);
    assert HolderOk(t, s.ops[r], s.home, r) && AtHome(s, t);
    assert s.status[t] == Entry(r) || s.status[t] == Gone by {
      var e := s.status[t];
      assert e.Entry? ==> HolderOk(t, s.ops[e.r], s.home, e.r);
    }
    LocateIsPosition(s.list, s.index, s.waiting, s.index[r], r);
  }

  /** A callback whose Reset takes the lock before Cancel swaps the list never runs, then or later. */
  lemma ResetInTimeNeverRuns(states: seq<State>, steps: seq<Step>, k: nat, i: nat, t: Ticket)
    requires Run(states, steps) && k < i < |states| && steps[k].Unregister?
    requires states[k].held[steps[k].r] == Some(t) && !Swapped(states[k].phase)
    ensures states[i].called[t] == 0 && states[i].scheduled[t] == 0
  {
    RunKeepsInv(states, steps, k);
    UnregisteredIsGone(states[k], steps[k].r, t);
    GoneForever(states, steps, k + 1, i, t);
    RunKeepsInv(states, steps, i);
    assert TicketOk(states[i], t);
  }

  /** While the list is not swapped out, it holds exactly the attached registrations, each at its index: those that
      hold a ticket, except where a Register or a Reset is on its way, and except one of the two objects of a move. */
  lemma IndexIsPosition(states: seq<State>, steps: seq<Step>, i: nat, r: nat)
    requires Run(states, steps) && i < |states| && !Swapped(states[i].phase)
    ensures var s := states[i];
            forall j :: 0 <= j < |s.list| ==> s.list[j] < |s.index| && s.index[s.list[j]] == j
    ensures var s := states[i];
            r < |s.ops| == |s.held| && s.held[r].Some?
                && (s.ops[r].Free? || s.ops[r].Unregistering? || s.ops[r].MovedIn?)
            ==> r in s.list
  {
    RunKeepsInv(states, steps, i);
  }

  // ------------------------------------------------------------ for callers

  /** No move is in progress when Cancel sets the flag, and until Cancel has finished no move and no registration
      begins. */
  ghost predicate LeftInPeace(states: seq<State>, steps: seq<Step>, i: nat)
    requires Run(states, steps) && i < |states|
  {
    && (forall k :: 0 <= k < i && !states[k].phase.Idle? && !states[k].phase.Finished? ==>
          !steps[k].RegisterBegin? && !steps[k].MoveCopy?)
    && (forall k :: 0 <= k < i && states[k].phase.Idle? && steps[k].CancelExchange? ==> NoMoves(states[k].ops))
  }

  predicate NoMoves(ops: seq<Op>) {
    forall r :: 0 <= r < |ops| ==> !ops[r].MovingIn?
  }

  lemma PeacefulStep(s: State, step: Step, t: Ticket)
    requires !s.phase.Idle? && !s.phase.Finished? ==> !step.RegisterBegin? && !step.MoveCopy?
    requires step.CancelSwap? ==> NoMoves(s.ops)
    ensures !Disturbs(s, step, t)
  {
  }

  lemma NoMovesStep(s: State, step: Step)
    requires Enabled(s, step) && NoMoves(s.ops) && !step.MoveCopy?
    ensures NoMoves(Next(s, step).ops)
  {
  }

  lemma PhaseStep(s: State, step: Step)
    requires Enabled(s, step) && Next(s, step).phase.Exchanged?
    ensures s.phase.Exchanged? || (s.phase.Idle? && step.CancelExchange?)
    ensures s.phase.Idle? ==> Next(s, step).ops == s.ops
  {
  }

  lemma {:induction false} NoMovesBeforeSwap(states: seq<State>, steps: seq<Step>, i: nat)
    requires Run(states, steps) && i < |states| && LeftInPeace(states, steps, i) && states[i].phase.Exchanged?
    ensures NoMoves(states[i].ops)
  {
    if i > 0 {
      PhaseStep(states[i - 1], steps[i - 1]);
      if states[i - 1].phase.Exchanged? {
        NoMovesBeforeSwap(states, steps, i - 1);
        NoMovesStep(states[i - 1], steps[i - 1]);
      }
    }
  }

  /** A Cancel that is left in peace disturbs nobody, so all of the above holds for every registration. */
  lemma PeaceIsUndisturbed(states: seq<State>, steps: seq<Step>, i: nat, t: Ticket)
    requires Run(states, steps) && i < |states| && LeftInPeace(states, steps, i)
    ensures Undisturbed(states, steps, i, t)
  {
    forall k | 0 <= k < i
      ensures !Disturbs(states[k], steps[k], t)
    {
      PeaceAtStep(states, steps, i, k, t);
    }
  }

  lemma PeaceAtStep(states: seq<State>, steps: seq<Step>, i: nat, k: nat, t: Ticket)
    requires Run(states, steps) && k < i < |states| && LeftInPeace(states, steps, i)
    ensures !Disturbs(states[k], steps[k], t)
  {
    if steps[k].CancelSwap? {
      PeaceEarlier(states, steps, i, k);
      assert states[k].phase.Exchanged?;
      NoMovesBeforeSwap(states, steps, k);
    }
    PeacefulStep(states[k], steps[k], t);
  }

  lemma PeaceEarlier(states: seq<State>, steps: seq<Step>, i: nat, k: nat)
    requires Run(states, steps) && k <= i < |states| && LeftInPeace(states, steps, i)
    ensures LeftInPeace(states, steps, k)
  {
  }
}

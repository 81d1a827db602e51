/**
 * The condition of the cancellation guarantees is exact: from every reachable state in which a step disturbs a
 * ticket there is a way to go on, without disturbing or resetting it again, to a state in which it has been called
 * or scheduled too often, or in which Cancel has finished without serving it.
 */
module CancellationWitnesses {
  import opened Options
  import opened CancellationList
  import opened CancellationSteps
  import opened CancellationInvariant
  import opened CancellationGuarantees

  /** What can never be seen of a ticket that was neither disturbed nor reset. */
  predicate Wrong(s: State, t: Ticket) {
    || s.called[t] > 1 || s.scheduled[t] > 1
    || (t.hasCallback && s.scheduled[t] > s.asked[t])
    || (s.phase.Finished? && t in s.status && !Registering(s, t) && !Served(s, t))
  }

  lemma UndisturbedIsRight(states: seq<State>, steps: seq<Step>, i: nat, t: Ticket)
    requires Run(states, steps) && i < |states|
    requires Undisturbed(states, steps, i, t) && NeverReset(states, steps, i, t)
    ensures !Wrong(states[i], t)
  {
    AtMostOnce(states, steps, i, t);
    if states[i].phase.Finished? && t in states[i].status && !Registering(states[i], t) {
      ExactlyOnce(states, steps, i, t);
    }
  }

  // ------------------------------------------------------------ going on

  /** Steps that neither register nor reset nor move anything, and do not swap the list. */
  predicate IsQuiet(step: Step) {
    || step.TryRegister? || step.RunInline? || step.Relink? || step.MoveClear?
    || step.FireCall? || step.FireResume? || step.CancelEnd?
  }

  ghost predicate QuietPath(states: seq<State>, steps: seq<Step>) {
    Path(states, steps) && forall i :: 0 <= i < |steps| ==> IsQuiet(steps[i])
  }

  lemma PathConcat(states: seq<State>, steps: seq<Step>, states': seq<State>, steps': seq<Step>)
    requires Path(states, steps) && Path(states', steps') && states[|steps|] == states'[0]
    ensures Path(states[..|steps|] + states', steps + steps')
    ensures (states[..|steps|] + states')[|steps| + |steps'|] == states'[|steps'|]
  {
    var more, also := states[..|steps|] + states', steps + steps';
    forall i | 0 <= i < |also|
      ensures Enabled(more[i], also[i]) && more[i + 1] == Next(more[i], also[i])
    {
      if i < |steps| {
        assert also[i] == steps[i] && more[i] == states[i] && more[i + 1] == states[i + 1];
      } else {
        assert also[i] == steps'[i - |steps|] && more[i] == states'[i - |steps|];
        assert more[i + 1] == states'[i + 1 - |steps|];
      }
    }
  }

  lemma OneStep(s: State, step: Step)
    requires Enabled(s, step)
    ensures Path([s, Next(s, step)], [step])
  {
  }

  /** One step, and then a quiet path. */
  lemma ThenQuiet(s: State, s': State, step: Step, states: seq<State>, steps: seq<Step>)
    requires Enabled(s, step) && s' == Next(s, step) && QuietPath(states, steps) && states[0] == s'
    ensures Path([s] + states, [step] + steps)
    ensures ([s] + states)[|steps| + 1] == states[|steps|]
    ensures IsQuiet(step) ==> QuietPath([s] + states, [step] + steps)
  {
    OneStep(s, step);
    PathConcat([s, s'], [step], states, steps);
    assert [s, s'][..1] + states == [s] + states;
  }

  lemma QuietThen(states: seq<State>, steps: seq<Step>, step: Step, s': State)
    requires QuietPath(states, steps) && IsQuiet(step) && Enabled(states[|steps|], step)
    requires s' == Next(states[|steps|], step)
    ensures QuietPath(states + [s'], steps + [step])
    ensures (states + [s'])[0] == states[0] && (states + [s'])[|steps| + 1] == s'
  {
    OneStep(states[|steps|], step);
    PathConcat(states, steps, [states[|steps|], s'], [step]);
    assert states[..|steps|] + [states[|steps|], s'] == states + [s'];
  }

  function Rest(phase: Phase): seq<nat> {
    match phase
    case Firing(rest) => rest
    case Resuming(_, rest, _, _) => rest
    case _ => []
  }

  /** How many objects Cancel is still going to call hold t. */
  function Holders(rest: seq<nat>, held: seq<Option<Ticket>>, t: Ticket): (n: nat) {
    if rest == [] then 0
    else Holders(rest[1..], held, t) + Once(rest[0] < |held| && held[rest[0]] == Some(t))
  }

  lemma {:induction false} HoldersIsZero(rest: seq<nat>, held: seq<Option<Ticket>>, t: Ticket)
    requires forall r :: r in rest && r < |held| ==> held[r] != Some(t)
    ensures Holders(rest, held, t) == 0
  {
    if rest != [] {
      assert rest[0] in rest && forall r :: r in rest[1..] ==> r in rest;
      HoldersIsZero(rest[1..], held, t);
    }
  }

  lemma {:induction false} HoldersIsPositive(rest: seq<nat>, held: seq<Option<Ticket>>, t: Ticket, r: nat)
    requires r in rest && r < |held| && held[r] == Some(t)
    ensures Holders(rest, held, t) >= 1
  {
    if r != rest[0] {
      HoldersIsPositive(rest[1..], held, t, r);
    }
  }

  lemma {:induction false} TwoHolders(rest: seq<nat>, held: seq<Option<Ticket>>, t: Ticket, p: nat, q: nat)
    requires p in rest && q in rest && p != q && p < |held| && q < |held| && held[p] == held[q] == Some(t)
    ensures Holders(rest, held, t) >= 2
  {
    if rest[0] == p {
      HoldersIsPositive(rest[1..], held, t, q);
    } else if rest[0] == q {
      HoldersIsPositive(rest[1..], held, t, p);
    } else {
      TwoHolders(rest[1..], held, t, p, q);
    }
  }

  /** r is going to be called and holds t armed. */
  predicate ArmedHolder(s: State, rest: seq<nat>, r: nat, t: Ticket) {
    r in rest && r < |s.held| && r < |s.armed| && s.held[r] == Some(t) && s.armed[r]
  }

  ghost predicate SomeArmed(s: State, rest: seq<nat>, t: Ticket) {
    exists r :: ArmedHolder(s, rest, r, t)
  }

  ghost predicate Below(rest: seq<nat>, n: nat) {
    forall i :: 0 <= i < |rest| ==> rest[i] < n
  }

  ghost predicate InBounds(s: State) {
    Columns(s) && Below(Rest(s.phase), |s.held|)
  }

  /** What Cancel does to t, and to the objects, from s until it has finished at s'. */
  ghost predicate Drained(s: State, s': State, t: Ticket) {
    && s'.phase.Finished? && s'.held == s.held && s'.ops == s.ops && s'.disturbed == s.disturbed && Columns(s')
    && (t in s.status ==> t in s'.status)
    && s'.called[t] == s.called[t] + (if t.hasCallback then Holders(Rest(s.phase), s.held, t) else 0)
    && s'.asked[t] == s.asked[t] + (if t.hasCallback then Holders(Rest(s.phase), s.held, t) else 0)
    && s'.scheduled[t] >= s.scheduled[t]
  }

  lemma CallOne(s: State, s1: State, t: Ticket)
    requires InBounds(s) && CanFire(s) && s1 == FireCallNext(s, true)
    ensures InBounds(s1) && s1.phase.Resuming? && s1.phase.current == s.phase.rest[0] && s1.phase.should
    ensures s1.phase.rest == s.phase.rest[1..]
    ensures s1.held == s.held && s1.ops == s.ops && s1.armed == s.armed && s1.disturbed == s.disturbed
    ensures t in s.status ==> t in s1.status
    ensures var n := Once(t.hasCallback && s.held[s.phase.rest[0]] == Some(t));
            s1.called[t] == s.called[t] + n && s1.asked[t] == s.asked[t] + n
    ensures s1.scheduled == s.scheduled
  {
  }

  lemma ResumeOne(s: State, s1: State, t: Ticket)
    requires InBounds(s) && CanResume(s) && s1 == FireResumeNext(s)
    ensures InBounds(s1) && s1.phase == Firing(s.phase.rest) && Rest(s1.phase) == s.phase.rest
    ensures s1.held == s.held && s1.ops == s.ops && s1.disturbed == s.disturbed
    ensures s1.armed == s.armed[s.phase.current := false]
    ensures t in s.status ==> t in s1.status
    ensures s1.called == s.called && s1.asked == s.asked
    ensures s1.scheduled[t] == s.scheduled[t] + Once(Schedules(s, s.phase.current, t))
  {
  }

  /** Firing one object, from its call to the end of its Fire. */
  lemma FireOne(s: State, t: Ticket) returns (s1: State, s2: State)
    requires InBounds(s) && s.phase.Firing? && s.phase.rest != []
    ensures s.phase.rest[0] < |s.held|
    ensures Enabled(s, FireCall(true)) && s1 == Next(s, FireCall(true))
    ensures Enabled(s1, FireResume) && s2 == Next(s1, FireResume)
    ensures InBounds(s2) && s2.phase == Firing(s.phase.rest[1..]) && Rest(s2.phase) == s.phase.rest[1..]
    ensures s2.held == s.held && s2.ops == s.ops && s2.disturbed == s.disturbed
    ensures s2.armed == s.armed[s.phase.rest[0] := false]
    ensures t in s.status ==> t in s2.status
    ensures var n := Once(t.hasCallback && s.held[s.phase.rest[0]] == Some(t));
            s2.called[t] == s.called[t] + n && s2.asked[t] == s.asked[t] + n
    ensures s2.scheduled[t] >= s.scheduled[t]
    ensures !(s.held[s.phase.rest[0]] == Some(t) && s.armed[s.phase.rest[0]]) ==> s2.scheduled[t] == s.scheduled[t]
    ensures t.wantsResume && s.held[s.phase.rest[0]] == Some(t) && s.armed[s.phase.rest[0]] ==>
              s2.scheduled[t] > s.scheduled[t]
  {
    assert Below(s.phase.rest, |s.held|);
    s1 := FireCallNext(s, true);
    CallOne(s, s1, t);
    s2 := FireResumeNext(s1);
    ResumeOne(s1, s2, t);
  }

  lemma DrainedAfterOne(s: State, s2: State, s': State, t: Ticket)
    requires s.phase.Firing? && s.phase.rest != [] && s.phase.rest[0] < |s.held|
    requires s2.phase == Firing(s.phase.rest[1..]) && Drained(s2, s', t)
    requires s2.held == s.held && s2.ops == s.ops && s2.disturbed == s.disturbed && (t in s.status ==> t in s2.status)
    requires var n := Once(t.hasCallback && s.held[s.phase.rest[0]] == Some(t));
             s2.called[t] == s.called[t] + n && s2.asked[t] == s.asked[t] + n
    requires s2.scheduled[t] >= s.scheduled[t]
    ensures Drained(s, s', t)
  {
  }

  /** Firing the rest of the local list. */
  lemma {:induction false} Drain(s: State, t: Ticket) returns (states: seq<State>, steps: seq<Step>)
    requires InBounds(s) && s.phase.Firing?
    ensures QuietPath(states, steps) && states[0] == s && Drained(s, states[|steps|], t)
    ensures !SomeArmed(s, s.phase.rest, t) ==> states[|steps|].scheduled[t] == s.scheduled[t]
    ensures !t.hasCallback && t.wantsResume && SomeArmed(s, s.phase.rest, t) ==>
              states[|steps|].scheduled[t] > s.scheduled[t]
    decreases |s.phase.rest|
  {
    if s.phase.rest == [] {
      states, steps := [s, s.(phase := Finished)], [CancelEnd];
    } else {
      var s1, s2 := FireOne(s, t);
      ArmedAfterOne(s, s2, t);
      states, steps := Drain(s2, t);
      DrainedAfterOne(s, s2, states[|steps|], t);
      ThenQuiet(s1, s2, FireResume, states, steps);
      states, steps := [s1] + states, [FireResume] + steps;
      ThenQuiet(s, s1, FireCall(true), states, steps);
      states, steps := [s] + states, [FireCall(true)] + steps;
    }
  }

  lemma ArmedAfterOne(s: State, s2: State, t: Ticket)
    requires InBounds(s) && s.phase.Firing? && s.phase.rest != [] && s.phase.rest[0] < |s.held|
    requires s2.phase == Firing(s.phase.rest[1..]) && s2.held == s.held && s2.armed == s.armed[s.phase.rest[0] := false]
    ensures var r0 := s.phase.rest[0];
            SomeArmed(s, s.phase.rest, t) <==>
              (s.held[r0] == Some(t) && s.armed[r0]) || SomeArmed(s2, s2.phase.rest, t)
  {
    var rest := s.phase.rest;
    assert rest[0] in rest && forall r :: r in rest <==> r == rest[0] || r in rest[1..];
    if s.held[rest[0]] == Some(t) && s.armed[rest[0]] {
      assert ArmedHolder(s, rest, rest[0], t);
    }
    forall r | ArmedHolder(s2, s2.phase.rest, r, t)
      ensures ArmedHolder(s, rest, r, t)
    {
    }
    forall r | ArmedHolder(s, rest, r, t) && r != rest[0]
      ensures ArmedHolder(s2, s2.phase.rest, r, t)
    {
    }
  }

  /** t is not going to be scheduled by the firing that is under way. */
  predicate NotNow(s: State, t: Ticket) {
    CanResume(s) ==> !Schedules(s, s.phase.current, t)
  }

  /** Cancel goes on to its end, whether it is about to call or about to resume. */
  lemma Finish(s: State, t: Ticket) returns (states: seq<State>, steps: seq<Step>)
    requires InBounds(s) && (s.phase.Firing? || (s.phase.Resuming? && s.phase.current < |s.held|))
    ensures QuietPath(states, steps) && states[0] == s && Drained(s, states[|steps|], t)
    ensures NotNow(s, t) && !SomeArmed(s, Rest(s.phase), t) ==> states[|steps|].scheduled[t] == s.scheduled[t]
    ensures !t.hasCallback && t.wantsResume
            && (exists r :: ArmedHolder(s, Rest(s.phase), r, t) && (s.phase.Resuming? ==> r != s.phase.current)) ==>
              states[|steps|].scheduled[t] > s.scheduled[t]
    ensures !NotNow(s, t) ==> states[|steps|].scheduled[t] > s.scheduled[t]
  {
    if s.phase.Firing? {
      states, steps := Drain(s, t);
    } else {
      var s1 := FireResumeNext(s);
      ResumeOne(s, s1, t);
      states, steps := Drain(s1, t);
      forall r | ArmedHolder(s1, s1.phase.rest, r, t)
        ensures ArmedHolder(s, Rest(s.phase), r, t)
      {
      }
      forall r | ArmedHolder(s, Rest(s.phase), r, t) && r != s.phase.current
        ensures ArmedHolder(s1, s1.phase.rest, r, t)
      {
      }
      ThenQuiet(s, s1, FireResume, states, steps);
      states, steps := [s] + states, [FireResume] + steps;
    }
  }

  // ------------------------------------------------------------ each way to go wrong

  lemma {:induction false} CoversMembers(list: seq<nat>, waiting: set<nat>, r: nat)
    requires Covers(list, waiting)
    ensures r in list <==> r in waiting
  {
    if list != [] {
      CoversMembers(list[1..], waiting - {list[0]}, r);
    }
  }

  lemma RestIsWaiting(s: State)
    requires Shape(s) && (s.phase.Firing? || s.phase.Resuming?)
    ensures forall r :: r in Rest(s.phase) <==> r in s.waiting
    ensures InBounds(s) && (s.phase.Resuming? ==> s.phase.current < |s.held|)
  {
    var rest := Rest(s.phase);
    forall r
      ensures r in rest <==> r in s.waiting
    {
      CoversMembers(rest, s.waiting, r);
    }
    assert forall i :: 0 <= i < |rest| ==> rest[i] in rest;
  }

  lemma HolderIsUnique(s: State, r: nat, t: Ticket)
    requires Shape(s) && r < |s.held| && s.held[r] == Some(t) && s.ops[r] == Free
    ensures HomeIs(s, t, r)
    ensures forall o :: 0 <= o < |s.held| && s.held[o] == Some(t) ==> o == r
  {
    assert HolderOk(t, s.ops[r], s.home, r);
    forall o | 0 <= o < |s.held| && s.held[o] == Some(t)
      ensures o == r
    {
      assert HolderOk(t, s.ops[o], s.home, o);
    }
  }

  lemma NotRegistering(s: State, ops: seq<Op>, t: Ticket)
    requires Shape(s) && PlacesOk(s) && t in s.status && t !in s.disturbed
    requires !s.status[t].AtStore? && !s.status[t].AtInline?
    requires |ops| == |s.ops| && forall r :: 0 <= r < |ops| ==>
        ops[r] == s.ops[r] || (!ops[r].Storing? && !ops[r].Inline?)
    ensures NoneRegisters(ops, t)
  {
  }

  /** A Register call that is refused after Cancel has finished runs its callback in place. */
  lemma InlineAlso(s: State, r: nat, t: Ticket, before: seq<State>, upTo: seq<Step>)
    returns (states: seq<State>, steps: seq<Step>)
    requires QuietPath(before, upTo) && before[|upTo|] == s
    requires s.phase.Finished? && Columns(s) && r < |s.ops| && s.ops[r] == Storing(t)
    ensures QuietPath(states, steps) && states[0] == before[0]
    ensures states[|steps|].called[t] == s.called[t] + Once(t.hasCallback)
    ensures states[|steps|].scheduled[t] == s.scheduled[t] + Once(t.wantsResume)
  {
    var s1 := RefuseNext(s, r);
    QuietThen(before, upTo, TryRegister(r), s1);
    states, steps := before + [s1], upTo + [TryRegister(r)];
    var s2 := RunInlineNext(s1, r, true);
    QuietThen(states, steps, RunInline(r, true), s2);
    states, steps := states + [s2], steps + [RunInline(r, true)];
  }

  lemma StoredIsFired(s: State, s1: State, r: nat, t: Ticket)
    requires Inv(s) && CanRegister(s, r, t) && StoresIntoLocal(s, r, t) && s1 == RegisterBeginNext(s, r, t)
    ensures InBounds(s1) && (s1.phase.Firing? || (s1.phase.Resuming? && s1.phase.current < |s1.held|))
    ensures t.hasCallback && ToBeFired(s.phase, s.waiting, r) ==> Holders(Rest(s1.phase), s1.held, t) >= 1
    ensures !t.hasCallback && ToBeFired(s.phase, s.waiting, r) ==>
              ArmedHolder(s1, Rest(s1.phase), r, t) && (s1.phase.Resuming? ==> r != s1.phase.current)
    ensures !ToBeFired(s.phase, s.waiting, r) ==> !NotNow(s1, t)
  {
    RegisterBeginShape(s, s1, r, t);
    RestIsWaiting(s1);
    if ToBeFired(s.phase, s.waiting, r) {
      HoldersIsPositive(Rest(s1.phase), s1.held, t, r);
    }
  }

  /** Registering in an object that is about to be fired: once as Cancel reaches the object, once in place. */
  lemma StoreGoesWrong(s: State, r: nat, t: Ticket) returns (states: seq<State>, steps: seq<Step>)
    requires Inv(s) && CanRegister(s, r, t) && StoresIntoLocal(s, r, t)
    ensures QuietPath(states, steps) && states[0] == RegisterBeginNext(s, r, t) && Wrong(states[|steps|], t)
  {
    var s1 := RegisterBeginNext(s, r, t);
    StoredIsFired(s, s1, r, t);
    states, steps := Finish(s1, t);
    states, steps := InlineAlso(states[|steps|], r, t, states, steps);
  }

  predicate NoneRegisters(ops: seq<Op>, t: Ticket) {
    forall r :: 0 <= r < |ops| ==> ops[r] != Storing(t) && ops[r] != Inline(t)
  }

  /** A ticket that nobody holds any more goes unserved. */
  lemma LostGoesWrong(s: State, t: Ticket) returns (states: seq<State>, steps: seq<Step>)
    requires InBounds(s) && (s.phase.Firing? || (s.phase.Resuming? && s.phase.current < |s.held|))
    requires t in s.status && NoneRegisters(s.ops, t) && Holders(Rest(s.phase), s.held, t) == 0
    requires Counts(s, t, 0, 0, 0)
    requires t.hasCallback || (t.wantsResume && NotNow(s, t) && !SomeArmed(s, Rest(s.phase), t))
    ensures QuietPath(states, steps) && states[0] == s && Wrong(states[|steps|], t)
  {
    states, steps := Finish(s, t);
  }

  // ------------------------------------------------------------ moves

  /** The ticket that a move takes along while Cancel is firing has a callback still to be called, or has been
      called, or is live. */
  lemma MovedTicket(s: State, from: nat, t: Ticket)
    requires Inv(s) && from < |s.held| && s.held[from] == Some(t) && s.ops[from] == Free && t !in s.disturbed
    requires s.phase.Firing? || s.phase.Resuming?
    ensures t in s.status && !s.status[t].AtStore? && !s.status[t].AtInline?
    ensures t.hasCallback && from in s.waiting ==> Counts(s, t, 0, 0, 0)
    ensures t.hasCallback && from !in s.waiting ==> s.called[t] == 1
    ensures t.hasCallback && t.wantsResume && s.armed[from] && AtResume(s.phase, from) ==> Counts(s, t, 1, 1, 0)
    ensures t.hasCallback && t.wantsResume && s.armed[from] && from !in s.waiting && !AtResume(s.phase, from)
            && (s.phase.Resuming? ==> s.phase.should)
            ==> Counts(s, t, 1, 0, 0)
    ensures !t.hasCallback && s.armed[from] ==> t.wantsResume && Counts(s, t, 0, 0, 0)
  {
    assert TicketOk(s, t);
    HolderIsUnique(s, from, t);
  }

  lemma MoveFields(s: State, s1: State, r: nat, from: nat, t: Ticket)
    requires Inv(s) && CanMove(s, r, from) && s.held[from] == Some(t) && s1 == MoveCopyNext(s, r, from)
    requires s.phase.Firing? || s.phase.Resuming?
    ensures s1.held == s.held[r := Some(t)] && s1.armed == s.armed[r := s.armed[from]][from := false]
    ensures s1.phase == s.phase && s1.called == s.called && s1.asked == s.asked && s1.scheduled == s.scheduled
    ensures s1.ops == s.ops[r := MovingIn(from)][from := MovingOut(r)] && Columns(s1) && s1.list == []
    ensures t in s.status ==> t in s1.status
    ensures forall o :: 0 <= o < |s1.held| && s1.held[o] == Some(t) ==> o == r || o == from
    ensures forall o :: o in Rest(s.phase) <==> o in s.waiting
    ensures InBounds(s1) && (s1.phase.Resuming? ==> s1.phase.current < |s1.held|)
  {
    HolderIsUnique(s, from, t);
    RestIsWaiting(s);
  }

  /** Moving a registration into an object that is about to be fired: its callback runs twice. */
  lemma MoveIntoGoesWrong(s: State, r: nat, from: nat, t: Ticket) returns (states: seq<State>, steps: seq<Step>)
    requires Inv(s) && CanMove(s, r, from) && s.held[from] == Some(t) && t !in s.disturbed && t.hasCallback
    requires ToBeFired(s.phase, s.waiting, r)
    ensures QuietPath(states, steps) && states[0] == MoveCopyNext(s, r, from) && Wrong(states[|steps|], t)
  {
    var s1 := MoveCopyNext(s, r, from);
    MoveFields(s, s1, r, from, t);
    MovedTicket(s, from, t);
    states, steps := Finish(s1, t);
    HoldersIsPositive(Rest(s1.phase), s1.held, t, r);
    if from in s.waiting {
      TwoHolders(Rest(s1.phase), s1.held, t, r, from);
    }
  }

  lemma CompleteMove(s: State, s1: State, r: nat, from: nat, t: Ticket) returns (s2: State, s3: State)
    requires Inv(s) && CanMove(s, r, from) && s.held[from] == Some(t) && s1 == MoveCopyNext(s, r, from)
    requires s.phase.Firing? || s.phase.Resuming?
    ensures Enabled(s1, Relink(r)) && s2 == Next(s1, Relink(r))
    ensures Enabled(s2, MoveClear(r)) && s3 == Next(s2, MoveClear(r))
    ensures s3.held == s.held[r := Some(t)][from := None] && s3.ops == s.ops && Columns(s3)
    ensures s3.phase == s.phase && s3.called == s.called && s3.asked == s.asked && s3.scheduled == s.scheduled
    ensures t in s.status ==> t in s3.status
  {
    MoveFields(s, s1, r, from, t);
    s2 := RelinkNext(s1, r);
    s3 := MoveClearNext(s2, r);
  }

  /** The rest of a move, and then a quiet path. */
  lemma AfterMove(s1: State, s2: State, s3: State, r: nat, states: seq<State>, steps: seq<Step>)
    returns (states': seq<State>, steps': seq<Step>)
    requires Enabled(s1, Relink(r)) && s2 == Next(s1, Relink(r))
    requires Enabled(s2, MoveClear(r)) && s3 == Next(s2, MoveClear(r))
    requires QuietPath(states, steps) && states[0] == s3
    ensures QuietPath(states', steps') && states'[0] == s1 && states'[|steps'|] == states[|steps|]
  {
    ThenQuiet(s2, s3, MoveClear(r), states, steps);
    states', steps' := [s2] + states, [MoveClear(r)] + steps;
    ThenQuiet(s1, s2, Relink(r), states', steps');
    states', steps' := [s1] + states', [Relink(r)] + steps';
  }

  /** Moving a registration away from Cancel: its callback does not run. */
  lemma MoveAwayGoesWrong(s: State, r: nat, from: nat, t: Ticket) returns (states: seq<State>, steps: seq<Step>)
    requires Inv(s) && CanMove(s, r, from) && s.held[from] == Some(t) && t !in s.disturbed && t.hasCallback
    requires ToBeFired(s.phase, s.waiting, from) && !ToBeFired(s.phase, s.waiting, r)
    ensures QuietPath(states, steps) && states[0] == MoveCopyNext(s, r, from) && Wrong(states[|steps|], t)
  {
    var s1 := MoveCopyNext(s, r, from);
    var s2, s3 := CompleteMove(s, s1, r, from, t);
    MovedTicket(s, from, t);
    HolderIsUnique(s, from, t);
    RestIsWaiting(s);
    assert forall o :: 0 <= o < |s3.held| && s3.held[o] == Some(t) ==> o == r;
    HoldersIsZero(Rest(s3.phase), s3.held, t);
    NotRegistering(s, s3.ops, t);
    states, steps := LostGoesWrong(s3, t);
    states, steps := AfterMove(s1, s2, s3, r, states, steps);
  }

  lemma NotArmed(s1: State, r: nat, from: nat, t: Ticket)
    requires Columns(s1) && r < |s1.held| && from < |s1.held| && !s1.armed[from]
    requires forall o :: 0 <= o < |s1.held| && s1.held[o] == Some(t) ==> o == r || o == from
    requires r !in Rest(s1.phase)
    ensures !SomeArmed(s1, Rest(s1.phase), t)
  {
  }

  /** Moving a registration between its callback and the scheduling it asked for: the continuation is lost. */
  lemma MoveFromCurrentGoesWrong(s: State, r: nat, from: nat, t: Ticket) returns (states: seq<State>, steps: seq<Step>)
    requires Inv(s) && CanMove(s, r, from) && s.held[from] == Some(t) && t !in s.disturbed && t.hasCallback
    requires t.wantsResume && s.armed[from] && AtResume(s.phase, from) && r !in s.waiting
    ensures QuietPath(states, steps) && states[0] == MoveCopyNext(s, r, from) && Wrong(states[|steps|], t)
  {
    var s1 := MoveCopyNext(s, r, from);
    MoveFields(s, s1, r, from, t);
    MovedTicket(s, from, t);
    NotArmed(s1, r, from, t);
    HoldersIsZero(Rest(s1.phase), s1.held, t);
    states, steps := Finish(s1, t);
    NotRegistering(s, states[|steps|].ops, t);
  }

  /** Moving a registration whose callback did not ask for its continuation into an object whose callback did: the
      continuation is scheduled all the same. */
  lemma MoveIntoCurrentGoesWrong(s: State, r: nat, from: nat, t: Ticket) returns (states: seq<State>, steps: seq<Step>)
    requires Inv(s) && CanMove(s, r, from) && s.held[from] == Some(t) && t !in s.disturbed && t.hasCallback
    requires t.wantsResume && s.armed[from] && AtResume(s.phase, r) && from !in s.waiting
    ensures QuietPath(states, steps) && states[0] == MoveCopyNext(s, r, from) && Wrong(states[|steps|], t)
  {
    var s1 := MoveCopyNext(s, r, from);
    MoveFields(s, s1, r, from, t);
    MovedTicket(s, from, t);
    var s2 := FireResumeNext(s1);
    ResumeOne(s1, s2, t);
    OneStep(s1, FireResume);
    states, steps := [s1, s2], [FireResume];
  }

  /** Moving a registration without a callback to an object that Cancel will not fire: the continuation is lost. */
  lemma MoveBareGoesWrong(s: State, r: nat, from: nat, t: Ticket) returns (states: seq<State>, steps: seq<Step>)
    requires Inv(s) && CanMove(s, r, from) && s.held[from] == Some(t) && t !in s.disturbed && !t.hasCallback
    requires (s.phase.Firing? || s.phase.Resuming?) && s.armed[from]
    requires !ToBeFired(s.phase, s.waiting, r) && !AtResume(s.phase, r)
    ensures QuietPath(states, steps) && states[0] == MoveCopyNext(s, r, from) && Wrong(states[|steps|], t)
  {
    var s1 := MoveCopyNext(s, r, from);
    MoveFields(s, s1, r, from, t);
    MovedTicket(s, from, t);
    NotArmed(s1, r, from, t);
    states, steps := Finish(s1, t);
    NotRegistering(s, states[|steps|].ops, t);
  }

  lemma MoveGoesWrong(s: State, r: nat, from: nat, t: Ticket) returns (states: seq<State>, steps: seq<Step>)
    requires Inv(s) && CanMove(s, r, from) && s.held[from] == Some(t) && t !in s.disturbed
    requires (s.phase.Firing? || s.phase.Resuming?) && MovesInLocal(s, r, from, t)
    ensures QuietPath(states, steps) && states[0] == MoveCopyNext(s, r, from) && Wrong(states[|steps|], t)
  {
    if !t.hasCallback {
      states, steps := MoveBareGoesWrong(s, r, from, t);
    } else if ToBeFired(s.phase, s.waiting, r) {
      states, steps := MoveIntoGoesWrong(s, r, from, t);
    } else if ToBeFired(s.phase, s.waiting, from) {
      states, steps := MoveAwayGoesWrong(s, r, from, t);
    } else if AtResume(s.phase, from) {
      states, steps := MoveFromCurrentGoesWrong(s, r, from, t);
    } else {
      states, steps := MoveIntoCurrentGoesWrong(s, r, from, t);
    }
  }

  // ------------------------------------------------------------ the swap

  lemma TransitTicket(s: State, r: nat, t: Ticket)
    requires Inv(s) && s.phase == Exchanged && r < |s.ops| && s.ops[r].MovingIn? && s.held[r] == Some(t)
    ensures t in s.status && t !in s.disturbed && !s.status[t].AtStore? && !s.status[t].AtInline?
    ensures Counts(s, t, 0, 0, 0) && (t.hasCallback || t.wantsResume)
    ensures r !in s.waiting && s.ops[r].from < |s.ops| && s.ops[r].from != r
    ensures forall o :: 0 <= o < |s.held| && s.held[o] == Some(t) ==> o == r || o == s.ops[r].from
  {
    assert TicketOk(s, t);
    assert HolderOk(t, s.ops[r], s.home, r) && AtHome(s, t);
    forall o | 0 <= o < |s.held| && s.held[o] == Some(t)
      ensures o == r || o == s.ops[r].from
    {
      assert HolderOk(t, s.ops[o], s.home, o);
    }
  }

  lemma SwapFields(s: State, s1: State)
    requires Inv(s) && s.phase == Exchanged && s1 == SwapNext(s)
    ensures InBounds(s1) && s1.phase == Firing(s.list) && Rest(s1.phase) == s.list && s1.list == []
    ensures s1.held == s.held && s1.ops == s.ops && s1.armed == s.armed && s1.status == s.status && s1.index == s.index
    ensures s1.called == s.called && s1.asked == s.asked && s1.scheduled == s.scheduled
    ensures forall o :: o in s.list <==> o in s.waiting
  {
    SwapShape(s, s1);
    RestIsWaiting(s1);
  }

  lemma CompleteTransit(s: State, s1: State, r: nat, t: Ticket) returns (s2: State, s3: State)
    requires Inv(s) && s.phase == Exchanged && r < |s.ops| && s.ops[r].MovingIn? && s.held[r] == Some(t)
    requires s1 == SwapNext(s)
    ensures s.ops[r].from < |s.held|
    ensures Enabled(s1, Relink(r)) && s2 == Next(s1, Relink(r))
    ensures Enabled(s2, MoveClear(r)) && s3 == Next(s2, MoveClear(r))
    ensures s3.held == s.held[s.ops[r].from := None] && s3.ops == s.ops[r := Free][s.ops[r].from := Free] && Columns(s3)
    ensures s3.phase == s1.phase && s3.called == s.called && s3.asked == s.asked && s3.scheduled == s.scheduled
    ensures t in s.status ==> t in s3.status
  {
    s2 := RelinkNext(s1, r);
    s3 := MoveClearNext(s2, r);
  }

  lemma TransitIsLost(s: State, s1: State, s3: State, r: nat, t: Ticket)
    requires Inv(s) && s.phase == Exchanged && r < |s.ops| && s.ops[r].MovingIn? && s.held[r] == Some(t)
    requires s1 == SwapNext(s) && s.ops[r].from < |s.held| && Columns(s3)
    requires s3.held == s.held[s.ops[r].from := None] && s3.ops == s.ops[r := Free][s.ops[r].from := Free]
    requires s3.phase == s1.phase
    ensures InBounds(s3) && s3.phase.Firing? && NoneRegisters(s3.ops, t)
    ensures Holders(Rest(s3.phase), s3.held, t) == 0 && !SomeArmed(s3, Rest(s3.phase), t)
  {
    SwapFields(s, s1);
    TransitTicket(s, r, t);
    HoldersIsZero(Rest(s3.phase), s3.held, t);
    NotRegistering(s, s3.ops, t);
  }

  /** A swap in the middle of a move: the local list names the object that is being emptied. */
  lemma SwapGoesWrong(s: State, t: Ticket) returns (states: seq<State>, steps: seq<Step>)
    requires Inv(s) && s.phase == Exchanged && InTransit(s.held, s.ops, t)
    ensures QuietPath(states, steps) && states[0] == SwapNext(s) && Wrong(states[|steps|], t)
  {
    var r :| 0 <= r < |s.ops| && r < |s.held| && s.ops[r].MovingIn? && s.held[r] == Some(t);
    TransitTicket(s, r, t);
    var s1 := SwapNext(s);
    var s2, s3 := CompleteTransit(s, s1, r, t);
    TransitIsLost(s, s1, s3, r, t);
    states, steps := LostGoesWrong(s3, t);
    states, steps := AfterMove(s1, s2, s3, r, states, steps);
  }

  // ------------------------------------------------------------ the exact condition

  lemma DisturbanceGoesWrong(s: State, step: Step, t: Ticket) returns (states: seq<State>, steps: seq<Step>)
    requires Inv(s) && Enabled(s, step) && t !in s.disturbed && Disturbs(s, step, t)
    ensures QuietPath(states, steps) && states[0] == Next(s, step) && Wrong(states[|steps|], t)
  {
    match step
    case RegisterBegin(r, t') => states, steps := StoreGoesWrong(s, r, t);
    case MoveCopy(r, from) => states, steps := MoveGoesWrong(s, r, from, t);
    case CancelSwap => states, steps := SwapGoesWrong(s, t);
  }

  predicate Begins(states: seq<State>, steps: seq<Step>, step: Step, states': seq<State>, steps': seq<Step>) {
    && |states| == |steps| + 1 <= |states'| && |steps| < |steps'|
    && states'[..|states|] == states && steps'[..|steps|] == steps && steps'[|steps|] == step
  }

  /** After step number `from`, no step disturbs or resets t. */
  predicate LeavesAlone(states: seq<State>, steps: seq<Step>, from: nat, t: Ticket)
    requires |steps| <= |states|
  {
    forall k :: from < k < |steps| ==> !Disturbs(states[k], steps[k], t) && !Resets(states[k], steps[k], t)
  }

  /** The run steps' goes on from steps with the given step, and later neither disturbs nor resets t. */
  ghost predicate GoesOn(states: seq<State>, steps: seq<Step>, step: Step, t: Ticket,
                         states': seq<State>, steps': seq<Step>)
  {
    && Run(states', steps') && Begins(states, steps, step, states', steps')
    && LeavesAlone(states', steps', |steps|, t)
  }

  ghost predicate CanGoWrong(states: seq<State>, steps: seq<Step>, step: Step, t: Ticket) {
    exists states', steps' :: GoesOn(states, steps, step, t, states', steps') && Wrong(states'[|steps'|], t)
  }

  /** The runs that go on from an undisturbed one by a step that neither disturbs nor resets stay undisturbed. */
  lemma StaysUndisturbed(states: seq<State>, steps: seq<Step>, step: Step, t: Ticket,
                         states': seq<State>, steps': seq<Step>)
    requires |steps'| < |states'| && Begins(states, steps, step, states', steps')
    requires LeavesAlone(states', steps', |steps|, t)
    requires Undisturbed(states, steps, |steps|, t) && NeverReset(states, steps, |steps|, t)
    requires !Disturbs(states[|steps|], step, t) && !Resets(states[|steps|], step, t)
    ensures Undisturbed(states', steps', |steps'|, t) && NeverReset(states', steps', |steps'|, t)
  {
    forall k | 0 <= k < |steps'|
      ensures !Disturbs(states'[k], steps'[k], t) && !Resets(states'[k], steps'[k], t)
    {
      assert k <= |steps| ==> states'[k] == states'[..|states|][k] == states[k];
      assert k < |steps| ==> steps'[k] == steps'[..|steps|][k] == steps[k];
    }
  }

  lemma ConcatBegins(states: seq<State>, steps: seq<Step>, step: Step, more: seq<State>, also: seq<Step>)
    requires |states| == |steps| + 1 && |more| == |also| + 1
    ensures Begins(states, steps, step, states + more, steps + ([step] + also))
    ensures |states + more| == |steps + ([step] + also)| + 1
    ensures (states + more)[|steps + ([step] + also)|] == more[|also|]
  {
  }

  lemma QuietLeavesAlone(states': seq<State>, steps: seq<Step>, step: Step, also: seq<Step>, t: Ticket)
    requires forall i :: 0 <= i < |also| ==> IsQuiet(also[i])
    requires |steps + ([step] + also)| <= |states'|
    ensures LeavesAlone(states', steps + ([step] + also), |steps|, t)
  {
    var steps' := steps + ([step] + also);
    forall k | |steps| < k < |steps'|
      ensures IsQuiet(steps'[k])
    {
      assert steps'[k] == also[k - |steps| - 1];
    }
  }

  lemma RunConcat(states: seq<State>, steps: seq<Step>, step: Step, more: seq<State>, also: seq<Step>)
    requires Run(states, steps) && |more| > 0 && Path([states[|steps|]] + more, [step] + also)
    ensures Run(states + more, steps + ([step] + also))
  {
    var last := [states[|steps|]] + more;
    PathConcat(states, steps, last, [step] + also);
    assert states[..|steps|] + last == states + more;
  }

  lemma DisturbedCanGoWrong(states: seq<State>, steps: seq<Step>, step: Step, t: Ticket)
    requires Run(states, steps) && Enabled(states[|steps|], step) && Disturbs(states[|steps|], step, t)
    requires Undisturbed(states, steps, |steps|, t)
    ensures CanGoWrong(states, steps, step, t)
  {
    RunKeepsInv(states, steps, |steps|);
    FateOfRun(states, steps, |steps|, t);
    var more, also := Disturbance(states[|steps|], step, t);
    QuietGoesOn(states, steps, step, t, more, also);
  }

  lemma QuietGoesOn(states: seq<State>, steps: seq<Step>, step: Step, t: Ticket, more: seq<State>, also: seq<Step>)
    requires Run(states, steps) && |more| == |also| + 1 && Path([states[|steps|]] + more, [step] + also)
    requires Wrong(more[|also|], t) && forall i :: 0 <= i < |also| ==> IsQuiet(also[i])
    ensures CanGoWrong(states, steps, step, t)
  {
    RunConcat(states, steps, step, more, also);
    ConcatBegins(states, steps, step, more, also);
    QuietLeavesAlone(states + more, steps, step, also, t);
    assert GoesOn(states, steps, step, t, states + more, steps + ([step] + also));
  }

  /** A way to go wrong, as a path that starts with the disturbing step. */
  lemma Disturbance(s: State, step: Step, t: Ticket) returns (more: seq<State>, also: seq<Step>)
    requires Inv(s) && Enabled(s, step) && t !in s.disturbed && Disturbs(s, step, t)
    ensures |more| == |also| + 1 && Path([s] + more, [step] + also) && Wrong(more[|also|], t)
    ensures forall i :: 0 <= i < |also| ==> IsQuiet(also[i])
  {
    more, also := DisturbanceGoesWrong(s, step, t);
    ThenQuiet(s, more[0], step, more, also);
  }

  lemma UndisturbedCannotGoWrong(states: seq<State>, steps: seq<Step>, step: Step, t: Ticket)
    requires Run(states, steps) && !Disturbs(states[|steps|], step, t) && !Resets(states[|steps|], step, t)
    requires Undisturbed(states, steps, |steps|, t) && NeverReset(states, steps, |steps|, t)
    ensures !CanGoWrong(states, steps, step, t)
  {
    forall states', steps' | GoesOn(states, steps, step, t, states', steps')
      ensures !Wrong(states'[|steps'|], t)
    {
      StaysUndisturbed(states, steps, step, t, states', steps');
      UndisturbedIsRight(states', steps', |steps'|, t);
    }
  }

  /** A step after which a ticket that has been neither disturbed nor reset can go wrong is exactly one that
      disturbs it: for every run, and whatever else the other threads do. */
  lemma DisturbsExactly(states: seq<State>, steps: seq<Step>, step: Step, t: Ticket)
    requires Run(states, steps) && Enabled(states[|steps|], step) && !Resets(states[|steps|], step, t)
    requires Undisturbed(states, steps, |steps|, t) && NeverReset(states, steps, |steps|, t)
    ensures CanGoWrong(states, steps, step, t) <==> Disturbs(states[|steps|], step, t)
  {
    if Disturbs(states[|steps|], step, t) {
      DisturbedCanGoWrong(states, steps, step, t);
    } else {
      UndisturbedCannotGoWrong(states, steps, step, t);
    }
  }
}

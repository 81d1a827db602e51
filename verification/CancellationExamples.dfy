/**
 * Each way to disturb a registration can be reached: runs from the start, with three registration objects, in
 * which one more step disturbs a ticket that has been neither disturbed nor reset, so that it can go wrong.
 */
module CancellationExamples {
  import opened Options
  import opened CancellationList
  import opened CancellationSteps
  import opened CancellationInvariant
  import opened CancellationGuarantees
  import opened CancellationWitnesses

  /** What of a state the next steps depend on: the list, the objects, and which tickets have been used. */
  datatype View = View(phase: Phase, list: seq<nat>, held: seq<Option<Ticket>>, armed: seq<bool>, ops: seq<Op>,
                       waiting: set<nat>, used: set<Ticket>)

  ghost predicate Shows(s: State, v: View) {
    && s.phase == v.phase && s.list == v.list && s.held == v.held && s.armed == v.armed && s.ops == v.ops
    && s.waiting == v.waiting && (forall t :: t in s.status <==> t in v.used)
    && |s.held| == |s.index| == |s.armed| == |s.ops|
  }

  /** A run in which t has been neither disturbed nor reset, and what it has come to. */
  ghost predicate Fine(states: seq<State>, steps: seq<Step>, t: Ticket, v: View) {
    && Run(states, steps) && Shows(states[|steps|], v)
    && Undisturbed(states, steps, |steps|, t) && NeverReset(states, steps, |steps|, t)
  }

  lemma ExtendRun(states: seq<State>, steps: seq<Step>, step: Step, s': State)
    requires Run(states, steps) && Enabled(states[|steps|], step) && s' == Next(states[|steps|], step)
    ensures Run(states + [s'], steps + [step]) && (states + [s'])[|steps| + 1] == s'
  {
    OneStep(states[|steps|], step);
    PathConcat(states, steps, [states[|steps|], s'], [step]);
    assert states[..|steps|] + [states[|steps|], s'] == states + [s'];
  }

  lemma ExtendFate(states: seq<State>, steps: seq<Step>, step: Step, s': State, t: Ticket)
    requires |states| == |steps| + 1
    requires Undisturbed(states, steps, |steps|, t) && NeverReset(states, steps, |steps|, t)
    requires !Disturbs(states[|steps|], step, t) && !Resets(states[|steps|], step, t)
    ensures Undisturbed(states + [s'], steps + [step], |steps| + 1, t)
    ensures NeverReset(states + [s'], steps + [step], |steps| + 1, t)
  {
    assert [step] + [] == [step];
    ConcatBegins(states, steps, step, [s'], []);
    StaysUndisturbed(states, steps, step, t, states + [s'], steps + [step]);
  }

  lemma Extend(states: seq<State>, steps: seq<Step>, step: Step, t: Ticket, v: View)
    returns (states': seq<State>, steps': seq<Step>)
    requires Run(states, steps)
    requires Undisturbed(states, steps, |steps|, t) && NeverReset(states, steps, |steps|, t)
    requires Enabled(states[|steps|], step) && Shows(Next(states[|steps|], step), v)
    requires !Disturbs(states[|steps|], step, t) && !Resets(states[|steps|], step, t)
    ensures Fine(states', steps', t, v)
  {
    var s' := Next(states[|steps|], step);
    ExtendRun(states, steps, step, s');
    ExtendFate(states, steps, step, s', t);
    states', steps' := states + [s'], steps + [step];
  }

  /** v can be reached without disturbing or resetting t. */
  ghost predicate Reachable(v: View, t: Ticket) {
    exists states, steps :: Fine(states, steps, t, v)
  }

  const START := View(Idle, [], [None, None, None], [false, false, false], [Free, Free, Free], {}, {})

  lemma StartIsReachable(t: Ticket)
    ensures Reachable(START, t)
  {
    var s := State([], Idle, [None, None, None], [-1, -1, -1], [false, false, false], [Free, Free, Free],
                   multiset{}, multiset{}, multiset{}, {}, map[], map[], {}, {});
    var steps: seq<Step> := [];
    assert Fine([s], steps, t, START);
  }

  predicate IsFree(v: View, r: nat) {
    r < |v.held| == |v.armed| == |v.ops| && v.ops[r] == Free
  }

  function Listed(v: View, r: nat, u: Ticket): View
    requires IsFree(v, r)
  {
    v.(list := v.list + [r], held := v.held[r := Some(u)], armed := v.armed[r := true], waiting := v.waiting + {r},
    used := v.used + {u})
  }

  /** A registration, before Cancel. */
  lemma List(v: View, t: Ticket, r: nat, u: Ticket)
    requires Reachable(v, t) && v.phase.Idle? && IsFree(v, r) && v.held[r] == None
    requires u !in v.used && (u.hasCallback || u.wantsResume)
    ensures Reachable(Listed(v, r, u), t)
  {
    var states: seq<State>, steps: seq<Step> :| Fine(states, steps, t, v);
    var v1 := v.(held := v.held[r := Some(u)], armed := v.armed[r := true], ops := v.ops[r := Storing(u)],
                 used := v.used + {u});
    states, steps := Extend(states, steps, RegisterBegin(r, u), t, v1);
    states, steps := Extend(states, steps, TryRegister(r), t, Listed(v, r, u));
  }

  function Started(v: View): View {
    v.(phase := Firing(v.list), list := [])
  }

  /** Cancel, up to its first call. */
  lemma StartCancel(v: View, t: Ticket)
    requires Reachable(v, t) && v.phase.Idle? && NoMoves(v.ops)
    ensures Reachable(Started(v), t)
  {
    var states: seq<State>, steps: seq<Step> :| Fine(states, steps, t, v);
    states, steps := Extend(states, steps, CancelExchange, t, v.(phase := Exchanged));
    states, steps := Extend(states, steps, CancelSwap, t, Started(v));
  }

  function Emptied(v: View, r: nat): View
    requires IsFree(v, r)
  {
    v.(held := v.held[r := None], armed := v.armed[r := false])
  }

  /** A Reset of an object that holds another ticket than t, while Cancel is firing. */
  lemma Empty(v: View, t: Ticket, r: nat, u: Ticket)
    requires Reachable(v, t) && v.list == [] && IsFree(v, r) && v.held[r] == Some(u) && u != t
    ensures Reachable(Emptied(v, r), t)
  {
    var states: seq<State>, steps: seq<Step> :| Fine(states, steps, t, v);
    var v1 := v.(armed := v.armed[r := false], ops := v.ops[r := Unregistering]);
    states, steps := Extend(states, steps, ResetBegin(r), t, v1);
    states, steps := Extend(states, steps, Unregister(r), t, v1.(ops := v.ops[r := Clearing]));
    states, steps := Extend(states, steps, ClearFields(r), t, Emptied(v, r));
  }

  function Called(v: View, r: nat, u: Ticket, answer: bool): View
    requires v.phase.Firing? && v.phase.rest != []
  {
    v.(phase := Resuming(r, v.phase.rest[1..], answer, Some(u)), waiting := v.waiting - {r})
  }

  /** Cancel calls the next object, which holds a ticket with a callback. */
  lemma Call(v: View, t: Ticket, r: nat, u: Ticket, answer: bool)
    requires Reachable(v, t) && v.phase.Firing? && v.phase.rest != [] && v.phase.rest[0] == r && IsFree(v, r)
    requires v.held[r] == Some(u) && u.hasCallback
    ensures Reachable(Called(v, r, u, answer), t)
  {
    var states: seq<State>, steps: seq<Step> :| Fine(states, steps, t, v);
    states, steps := Extend(states, steps, FireCall(answer), t, Called(v, r, u, answer));
  }

  function Fired(v: View, r: nat): View
    requires v.phase.Resuming? && IsFree(v, r)
  {
    v.(phase := Firing(v.phase.rest), armed := v.armed[r := false])
  }

  lemma Resume(v: View, t: Ticket, r: nat)
    requires Reachable(v, t) && v.phase.Resuming? && v.phase.current == r && IsFree(v, r)
    ensures Reachable(Fired(v, r), t)
  {
    var states: seq<State>, steps: seq<Step> :| Fine(states, steps, t, v);
    states, steps := Extend(states, steps, FireResume, t, Fired(v, r));
  }

  // ------------------------------------------------------------ one step too many

  /** From v, one more step can make t go wrong. */
  ghost predicate GoesWrongBy(v: View, step: Step, t: Ticket) {
    exists states, steps :: Fine(states, steps, t, v) && CanGoWrong(states, steps, step, t)
  }

  lemma StoreConcludes(v: View, t: Ticket, r: nat)
    requires Reachable(v, t) && IsFree(v, r) && v.held[r] == None && t !in v.used && (t.hasCallback || t.wantsResume)
    requires ToBeFired(v.phase, v.waiting, r) || (AtResume(v.phase, r) && t.wantsResume)
    ensures GoesWrongBy(v, RegisterBegin(r, t), t)
  {
    var states: seq<State>, steps: seq<Step> :| Fine(states, steps, t, v);
    DisturbedCanGoWrong(states, steps, RegisterBegin(r, t), t);
  }

  lemma MoveConcludes(v: View, t: Ticket, r: nat, from: nat)
    requires Reachable(v, t) && IsFree(v, r) && IsFree(v, from) && r != from
    requires v.held[r] == None && v.held[from] == Some(t) && (v.phase.Firing? || v.phase.Resuming?)
    requires
      if t.hasCallback then
        || ToBeFired(v.phase, v.waiting, r) || ToBeFired(v.phase, v.waiting, from)
        || (t.wantsResume && v.armed[from] && (AtResume(v.phase, r) || AtResume(v.phase, from)))
      else
        v.armed[from] && !ToBeFired(v.phase, v.waiting, r) && !AtResume(v.phase, r)
    ensures GoesWrongBy(v, MoveCopy(r, from), t)
  {
    var states: seq<State>, steps: seq<Step> :| Fine(states, steps, t, v);
    DisturbedCanGoWrong(states, steps, MoveCopy(r, from), t);
  }

  lemma SwapConcludes(v: View, t: Ticket, r: nat, from: nat)
    requires Reachable(v, t) && v.phase == Exchanged && r < |v.ops| == |v.held| && v.ops[r] == MovingIn(from)
    requires v.held[r] == Some(t) && t in v.used
    ensures GoesWrongBy(v, CancelSwap, t)
  {
    var states: seq<State>, steps: seq<Step> :| Fine(states, steps, t, v);
    assert InTransit(states[|steps|].held, states[|steps|].ops, t);
    DisturbedCanGoWrong(states, steps, CancelSwap, t);
  }

  function Copied(v: View, r: nat, from: nat): View
    requires IsFree(v, r) && IsFree(v, from)
  {
    v.(held := v.held[r := v.held[from]], armed := v.armed[r := v.armed[from]][from := false],
    ops := v.ops[r := MovingIn(from)][from := MovingOut(r)])
  }

  /** The first part of a move, before the swap. */
  lemma Copy(v: View, t: Ticket, r: nat, from: nat)
    requires Reachable(v, t) && v.phase.Idle? && IsFree(v, r) && IsFree(v, from) && r != from
    requires v.held[r] == None && v.held[from].Some?
    ensures Reachable(Copied(v, r, from).(phase := Exchanged), t)
  {
    var states: seq<State>, steps: seq<Step> :| Fine(states, steps, t, v);
    states, steps := Extend(states, steps, MoveCopy(r, from), t, Copied(v, r, from));
    states, steps := Extend(states, steps, CancelExchange, t, Copied(v, r, from).(phase := Exchanged));
  }

  function MovedTo(v: View, r: nat, from: nat): View
    requires IsFree(v, r) && IsFree(v, from)
  {
    v.(held := v.held[r := v.held[from]][from := None], armed := v.armed[r := v.armed[from]][from := false])
  }

  predicate Harmless(v: View, t: Ticket, r: nat, from: nat) {
    && v.list == [] && IsFree(v, r) && IsFree(v, from) && r != from && t.hasCallback
    && v.held[r] == None && v.held[from] == Some(t)
    && v.phase.Resuming? && !v.phase.should && r !in v.waiting && from !in v.waiting
  }

  lemma HarmlessCopy(v: View, t: Ticket, r: nat, from: nat)
    requires Reachable(v, t) && Harmless(v, t, r, from)
    ensures Reachable(Copied(v, r, from), t)
  {
    var states: seq<State>, steps: seq<Step> :| Fine(states, steps, t, v);
    states, steps := Extend(states, steps, MoveCopy(r, from), t, Copied(v, r, from));
  }

  function Relinked(v: View, r: nat, from: nat): View
    requires IsFree(v, r) && IsFree(v, from)
  {
    Copied(v, r, from).(ops := v.ops[r := MovedIn(from)][from := MovingOut(r)])
  }

  lemma HarmlessRelink(v: View, t: Ticket, r: nat, from: nat)
    requires Harmless(v, t, r, from) && Reachable(Copied(v, r, from), t)
    ensures Reachable(Relinked(v, r, from), t)
  {
    var states: seq<State>, steps: seq<Step> :| Fine(states, steps, t, Copied(v, r, from));
    states, steps := Extend(states, steps, Relink(r), t, Relinked(v, r, from));
  }

  lemma ClearShows(s: State, v: View, t: Ticket, r: nat, from: nat)
    requires Harmless(v, t, r, from) && Shows(s, Relinked(v, r, from))
    ensures Enabled(s, MoveClear(r)) && Shows(Next(s, MoveClear(r)), MovedTo(v, r, from))
    ensures !Disturbs(s, MoveClear(r), t) && !Resets(s, MoveClear(r), t)
  {
  }

  lemma HarmlessClear(v: View, t: Ticket, r: nat, from: nat)
    requires Harmless(v, t, r, from) && Reachable(Relinked(v, r, from), t)
    ensures Reachable(MovedTo(v, r, from), t)
  {
    var states: seq<State>, steps: seq<Step> :| Fine(states, steps, t, Relinked(v, r, from));
    ClearShows(states[|steps|], v, t, r, from);
    states, steps := Extend(states, steps, MoveClear(r), t, MovedTo(v, r, from));
  }

  /** A whole move that does no harm: the callback has been called, and has not asked for its continuation. */
  lemma Move(v: View, t: Ticket, r: nat, from: nat)
    requires Reachable(v, t) && Harmless(v, t, r, from)
    ensures Reachable(MovedTo(v, r, from), t)
  {
    HarmlessCopy(v, t, r, from);
    HarmlessRelink(v, t, r, from);
    HarmlessClear(v, t, r, from);
  }

  // ------------------------------------------------------------ Cancel with one or two registrations

  function One(u: Ticket): View {
    START.(list := [0], held := [Some(u), None, None], armed := [true, false, false], waiting := {0}, used := {u})
  }

  function Two(u: Ticket, w: Ticket): View {
    START.(list := [0, 1], held := [Some(u), Some(w), None], armed := [true, true, false], waiting := {0, 1},
    used := {u, w})
  }

  lemma OneListed(t: Ticket, u: Ticket)
    requires u.hasCallback || u.wantsResume
    ensures Reachable(One(u), t)
  {
    StartIsReachable(t);
    FirstListed(u);
    List(START, t, 0, u);
  }

  lemma FirstListed(u: Ticket)
    ensures IsFree(START, 0) && Listed(START, 0, u) == One(u)
  {
  }

  lemma SecondListed(u: Ticket, w: Ticket)
    ensures IsFree(One(u), 1) && Listed(One(u), 1, w) == Two(u, w)
  {
  }

  lemma TwoListed(t: Ticket, u: Ticket, w: Ticket)
    requires (u.hasCallback || u.wantsResume) && (w.hasCallback || w.wantsResume) && u != w
    ensures Reachable(Two(u, w), t)
  {
    OneListed(t, u);
    SecondListed(u, w);
    List(One(u), t, 1, w);
  }

  lemma OneStarted(t: Ticket, u: Ticket)
    requires u.hasCallback || u.wantsResume
    ensures Reachable(Started(One(u)), t)
  {
    OneListed(t, u);
    StartCancel(One(u), t);
  }

  lemma OneCalled(t: Ticket, u: Ticket, answer: bool)
    requires u.hasCallback
    ensures Reachable(Called(Started(One(u)), 0, u, answer), t)
  {
    OneStarted(t, u);
    Call(Started(One(u)), t, 0, u, answer);
  }

  lemma TwoStarted(t: Ticket, u: Ticket, w: Ticket)
    requires (u.hasCallback || u.wantsResume) && (w.hasCallback || w.wantsResume) && u != w
    ensures Reachable(Started(Two(u, w)), t)
  {
    TwoListed(t, u, w);
    StartCancel(Two(u, w), t);
  }

  lemma TwoCalled(t: Ticket, u: Ticket, w: Ticket, answer: bool)
    requires u.hasCallback && (w.hasCallback || w.wantsResume) && u != w
    ensures Reachable(Called(Started(Two(u, w)), 0, u, answer), t)
  {
    TwoStarted(t, u, w);
    Call(Started(Two(u, w)), t, 0, u, answer);
  }

  // ------------------------------------------------------------ the ways

  /** Registering in an object that was reset under Cancel's hands and is still to be fired: t is called twice, or,
      without a callback, scheduled twice. */
  lemma ReuseHappens(t: Ticket, u: Ticket) returns (v: View)
    requires t != u && (u.hasCallback || u.wantsResume) && (t.hasCallback || t.wantsResume)
    ensures GoesWrongBy(v, RegisterBegin(0, t), t) && ToBeFired(v.phase, v.waiting, 0)
  {
    OneStarted(t, u);
    Empty(Started(One(u)), t, 0, u);
    v := Emptied(Started(One(u)), 0);
    StoreConcludes(v, t, 0);
  }

  /** Registering in one whose callback has just asked for its continuation. */
  lemma ReuseOfCurrentHappens(t: Ticket, u: Ticket) returns (v: View)
    requires t != u && u.hasCallback && t.wantsResume
    ensures GoesWrongBy(v, RegisterBegin(0, t), t) && AtResume(v.phase, 0)
  {
    OneCalled(t, u, true);
    v := Called(Started(One(u)), 0, u, true);
    Empty(v, t, 0, u);
    v := Emptied(v, 0);
    StoreConcludes(v, t, 0);
  }

  /** Moving a registration that is still to be fired. */
  lemma MoveAwayHappens(t: Ticket) returns (v: View)
    requires t.hasCallback || t.wantsResume
    ensures GoesWrongBy(v, MoveCopy(1, 0), t) && ToBeFired(v.phase, v.waiting, 0) && !ToBeFired(v.phase, v.waiting, 1)
  {
    OneStarted(t, t);
    v := Started(One(t));
    MoveConcludes(v, t, 1, 0);
  }

  /** Moving one that has been fired into an object that is still to be fired. */
  lemma MoveIntoHappens(t: Ticket, u: Ticket) returns (v: View)
    requires t != u && t.hasCallback && (u.hasCallback || u.wantsResume)
    ensures GoesWrongBy(v, MoveCopy(1, 0), t) && ToBeFired(v.phase, v.waiting, 1) && !ToBeFired(v.phase, v.waiting, 0)
  {
    TwoCalled(t, t, u, false);
    v := Called(Started(Two(t, u)), 0, t, false);
    Empty(v, t, 1, u);
    v := Emptied(v, 1);
    MoveConcludes(v, t, 1, 0);
  }

  /** Moving one whose callback has just asked for its continuation. */
  lemma MoveFromCurrentHappens(t: Ticket) returns (v: View)
    requires t.hasCallback && t.wantsResume
    ensures GoesWrongBy(v, MoveCopy(1, 0), t) && AtResume(v.phase, 0) && 1 !in v.waiting
  {
    OneCalled(t, t, true);
    v := Called(Started(One(t)), 0, t, true);
    MoveConcludes(v, t, 1, 0);
  }

  /** Moving one whose callback did not into the object of one whose callback did. */
  lemma MoveIntoCurrentHappens(t: Ticket, u: Ticket) returns (v: View)
    requires t != u && t.hasCallback && t.wantsResume && u.hasCallback
    ensures GoesWrongBy(v, MoveCopy(1, 2), t) && AtResume(v.phase, 1) && 2 !in v.waiting
  {
    SecondIsCurrent(t, u);
    v := SecondCurrent(t, u);
    Empty(v, t, 1, u);
    v := Emptied(v, 1);
    MoveConcludes(v, t, 1, 2);
  }

  function FirstMoved(t: Ticket, u: Ticket): View {
    START.(phase := Resuming(0, [1], false, Some(t)), held := [None, Some(u), Some(t)], armed := [false, true, true],
    waiting := {1}, used := {t, u})
  }

  function SecondCurrent(t: Ticket, u: Ticket): View {
    FirstMoved(t, u).(phase := Resuming(1, [], true, Some(u)), waiting := {})
  }

  lemma FirstMovedView(t: Ticket, u: Ticket)
    requires t != u && t.hasCallback
    ensures var v := Called(Started(Two(t, u)), 0, t, false);
            Harmless(v, t, 2, 0) && MovedTo(v, 2, 0) == FirstMoved(t, u)
  {
    var v := Called(Started(Two(t, u)), 0, t, false);
    assert v.held[0] == Some(t) && v.armed[0];
    assert v.held[2 := Some(t)][0 := None] == [None, Some(u), Some(t)];
    assert v.armed[2 := true][0 := false] == [false, true, true];
    assert [0, 1][1..] == [1] && {0, 1} - {0} == {1};
  }

  lemma SecondCurrentView(t: Ticket, u: Ticket)
    ensures var v := Fired(FirstMoved(t, u), 0);
            && v.phase == Firing([1]) && v.held[1] == Some(u) && IsFree(v, 1)
            && Called(v, 1, u, true) == SecondCurrent(t, u)
  {
    assert [1][1..] == [] && {1} - {1} == {};
    assert [false, true, true][0 := false] == [false, true, true];
  }

  lemma FirstIsMoved(t: Ticket, u: Ticket)
    requires t != u && t.hasCallback && t.wantsResume && u.hasCallback
    ensures Reachable(FirstMoved(t, u), t)
  {
    TwoCalled(t, t, u, false);
    FirstMovedView(t, u);
    Move(Called(Started(Two(t, u)), 0, t, false), t, 2, 0);
  }

  lemma SecondIsCurrent(t: Ticket, u: Ticket)
    requires t != u && t.hasCallback && t.wantsResume && u.hasCallback
    ensures Reachable(SecondCurrent(t, u), t)
  {
    FirstIsMoved(t, u);
    Resume(FirstMoved(t, u), t, 0);
    SecondCurrentView(t, u);
    Call(Fired(FirstMoved(t, u), 0), t, 1, u, true);
  }

  /** Swapping the list in the middle of a move. */
  lemma SwapHappens(t: Ticket) returns (v: View)
    requires t.hasCallback || t.wantsResume
    ensures GoesWrongBy(v, CancelSwap, t)
  {
    OneListed(t, t);
    Copy(One(t), t, 1, 0);
    v := Copied(One(t), 1, 0).(phase := Exchanged);
    SwapConcludes(v, t, 1, 0);
  }
}

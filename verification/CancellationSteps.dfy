/**
 * Cancellation as a step system: any number of registration objects, each driven by its owner through
 * Register, Reset and moves, against any number of Cancel calls.  Each lock section is one step, and
 * so is each stretch of unlocked code that touches shared fields.
 */
module CancellationSteps {
  import opened Options
  import opened CancellationList

  /** One call of Register: which callback and continuation it was given. */
  datatype Ticket = Ticket(id: nat, hasCallback: bool, wantsResume: bool)

  /** What the owner of a registration object is in the middle of. */
  datatype Op =
    | Free
    | Storing(t: Ticket)      // Register: fields set, TryRegister to come
    | Inline(t: Ticket)       // Register: refused, callback to run in place
    | Unregistering           // Reset: disarmed, Unregister to come
    | Clearing                // Reset: unregistered, fields to clear
    | MovingIn(from: nat)     // MoveFrom: fields copied, lock section to come
    | MovedIn(from: nat)      // MoveFrom: relinked, the source's fields to clear
    | MovingOut(to: nat)      // the object a MoveFrom is emptying

  /** How far the winning Cancel has got.  The flag is set in every phase but Idle. */
  datatype Phase =
    | Idle
    | Exchanged
    | Firing(rest: seq<nat>)
    | Resuming(current: nat, rest: seq<nat>, should: bool, fired: Option<Ticket>)
    | Finished

  /** History: what has become of a ticket.  A ticket with a callback is listed (Entry) until its callback is
      invoked; one without is Live as long as the object that holds it armed can still be fired. */
  datatype Status =
    | AtStore(r: nat)
    | AtInline(r: nat)
    | Entry(r: nat)
    | Live(r: nat)
    | Calling(r: nat, should: bool)
    | Ran(should: bool)
    | Gone

  /** The registration list and the winning Cancel; a column for each field of the registration objects
      and what their owners are doing; how often each callback was invoked (called), how often it asked for its
      continuation to be resumed (asked) and how often that was handed to the executor (scheduled); and history.
      waiting is the set of objects in the list or, once it is swapped out, in the part of Cancel's local list still
      to be called; home says which object a ticket was last stored in; withdrawn holds the tickets whose Reset
      began before their firing was over, and disturbed those that a step named by Disturbs has touched. */
  datatype State = State(
    list: seq<nat>, phase: Phase,
    held: seq<Option<Ticket>>, index: seq<int>, armed: seq<bool>, ops: seq<Op>,
    called: multiset<Ticket>, asked: multiset<Ticket>, scheduled: multiset<Ticket>,
    waiting: set<nat>, home: map<Ticket, nat>, status: map<Ticket, Status>, withdrawn: set<Ticket>,
    disturbed: set<Ticket>)

  datatype Step =
    | RegisterBegin(r: nat, t: Ticket)
    | TryRegister(r: nat)
    | RunInline(r: nat, answer: bool)
    | ResetBegin(r: nat)
    | Unregister(r: nat)
    | ClearFields(r: nat)
    | MoveCopy(r: nat, from: nat)
    | Relink(r: nat)
    | MoveClear(r: nat)
    | CancelExchange
    | CancelSwap
    | FireCall(answer: bool)
    | FireResume
    | CancelEnd

  predicate Swapped(phase: Phase) {
    phase.Firing? || phase.Resuming? || phase.Finished?
  }

  /** Cancel is going to call the callback of r. */
  predicate ToBeFired(phase: Phase, waiting: set<nat>, r: nat) {
    (phase.Firing? || phase.Resuming?) && r in waiting
  }

  /** Cancel is going to schedule the continuation of r, if r is armed by then. */
  predicate AtResume(phase: Phase, r: nat) {
    phase.Resuming? && r == phase.current && phase.should
  }

  predicate InTransit(held: seq<Option<Ticket>>, ops: seq<Op>, t: Ticket) {
    exists r :: 0 <= r < |ops| && r < |held| && ops[r].MovingIn? && held[r] == Some(t)
  }

  /** The registration of t in r is fired although its TryRegister is going to be refused. */
  predicate StoresIntoLocal(s: State, r: nat, t: Ticket) {
    ToBeFired(s.phase, s.waiting, r) || (AtResume(s.phase, r) && t.wantsResume)
  }

  /** A move from `from` into r takes t away from, or puts it into, an object that Cancel is about to fire.  With
      a callback, both matter; without one, all that matters is where the armed flag ends up. */
  predicate MovesInLocal(s: State, r: nat, from: nat, t: Ticket)
    requires from < |s.armed|
  {
    if t.hasCallback then
      || ToBeFired(s.phase, s.waiting, r) || ToBeFired(s.phase, s.waiting, from)
      || (t.wantsResume && s.armed[from] && (AtResume(s.phase, r) || AtResume(s.phase, from)))
    else
      s.armed[from] && !ToBeFired(s.phase, s.waiting, r) && !AtResume(s.phase, r)
  }

  /** The steps that make a ticket go wrong: registering in an object that Cancel is about to fire, moving one
      that is or into one that is, and swapping the list in the middle of a move. */
  predicate Disturbs(s: State, step: Step, t: Ticket) {
    match step
    case RegisterBegin(r, t') => t == t' && StoresIntoLocal(s, r, t)
    case MoveCopy(r, from) =>
      && (s.phase.Firing? || s.phase.Resuming?) && from < |s.held| && from < |s.armed|
      && s.held[from] == Some(t) && MovesInLocal(s, r, from, t)
    case CancelSwap => t in s.status && InTransit(s.held, s.ops, t)
    case _ => false
  }

  function Credit(m: multiset<Ticket>, t: Ticket, condition: bool): (r: multiset<Ticket>)
    ensures forall u :: r[u] == m[u] + if condition && u == t then 1 else 0
  {
    if condition then m + multiset{t} else m
  }

  function Advance(status: map<Ticket, Status>, t: Ticket, from: Status, to: Status): (r: map<Ticket, Status>)
    ensures forall u :: u in r <==> u in status
  {
    if t in status && status[t] == from then status[t := to] else status
  }

  // ------------------------------------------------------------ Register

  /** Columns of one length, and r one of the objects. */
  predicate IsObject(s: State, r: nat) {
    r < |s.held| == |s.index| == |s.armed| == |s.ops|
  }

  predicate CanRegister(s: State, r: nat, t: Ticket) {
    IsObject(s, r) && s.ops[r] == Free && s.held[r] == None && t !in s.status && (t.hasCallback || t.wantsResume)
  }

  function RegisterBeginNext(s: State, r: nat, t: Ticket): (s': State)
    requires CanRegister(s, r, t)
  {
    s.(held := s.held[r := Some(t)], armed := s.armed[r := true], ops := s.ops[r := Storing(t)], home := s.home[t := r],
    status := s.status[t := AtStore(r)],
    disturbed := if StoresIntoLocal(s, r, t) then s.disturbed + {t} else s.disturbed)
  }

  predicate CanTry(s: State, r: nat) {
    IsObject(s, r) && s.ops[r].Storing?
  }

  function AcceptNext(s: State, r: nat): (s': State)
    requires CanTry(s, r)
  {
    s.(list := s.list + [r], index := s.index[r := |s.list|], waiting := s.waiting + {r}, ops := s.ops[r := Free],
    status := Advance(s.status, s.ops[r].t, AtStore(r), if s.ops[r].t.hasCallback then Entry(r) else Live(r)))
  }

  function RefuseNext(s: State, r: nat): (s': State)
    requires CanTry(s, r)
  {
    s.(held := s.held[r := None], index := s.index[r := -1], armed := s.armed[r := false],
    ops := s.ops[r := Inline(s.ops[r].t)],
    status := Advance(s.status, s.ops[r].t, AtStore(r), AtInline(r)))
  }

  predicate CanRunInline(s: State, r: nat) {
    IsObject(s, r) && s.ops[r].Inline?
  }

  function RunInlineNext(s: State, r: nat, answer: bool): (s': State)
    requires CanRunInline(s, r)
  {
    var t := s.ops[r].t;
    var should := t.hasCallback ==> answer;
    s.(called := Credit(s.called, t, t.hasCallback), asked := Credit(s.asked, t, t.hasCallback && should),
    scheduled := Credit(s.scheduled, t, should && t.wantsResume),
    ops := s.ops[r := Free], status := Advance(s.status, t, AtInline(r), Ran(should)))
  }

  // ------------------------------------------------------------ Reset

  predicate CanReset(s: State, r: nat) {
    IsObject(s, r) && s.ops[r] == Free && s.held[r].Some?
  }

  function ResetBeginNext(s: State, r: nat): (s': State)
    requires CanReset(s, r)
  {
    var t := s.held[r].value;
    s.(armed := s.armed[r := false], ops := s.ops[r := Unregistering],
    status := Advance(s.status, t, Live(r), Gone),
    withdrawn := if t in s.status && (s.status[t].Entry? || s.status[t].Live? || s.status[t].Calling?)
                 then s.withdrawn + {t} else s.withdrawn)
  }

  predicate CanUnregister(s: State, r: nat) {
    IsObject(s, r) && s.ops[r] == Unregistering && s.held[r].Some?
  }

  function UnregisterNext(s: State, r: nat): (s': State)
    requires CanUnregister(s, r)
  {
    var at := Locate(s.list, s.index[r], r);
    if at < 0 then s.(ops := s.ops[r := Clearing])
    else
      var moved := s.list[|s.list| - 1];
      s.(ops := s.ops[r := Clearing], list := SwapRemove(s.list, at), waiting := s.waiting - {r},
      index := if moved != r && moved < |s.index| then s.index[moved := at] else s.index,
      status := Advance(s.status, s.held[r].value, Entry(r), Gone))
  }

  predicate CanClear(s: State, r: nat) {
    IsObject(s, r) && s.ops[r] == Clearing && s.held[r].Some?
  }

  function ClearFieldsNext(s: State, r: nat): (s': State)
    requires CanClear(s, r)
  {
    s.(held := s.held[r := None], index := s.index[r := -1], ops := s.ops[r := Free],
    status := Advance(s.status, s.held[r].value, Entry(r), Gone))
  }

  // ------------------------------------------------------------ MoveFrom

  predicate CanMove(s: State, r: nat, from: nat) {
    && IsObject(s, r) && IsObject(s, from) && r != from && s.ops[r] == s.ops[from] == Free
    && s.held[r] == None && s.held[from].Some?
  }

  function MoveCopyNext(s: State, r: nat, from: nat): (s': State)
    requires CanMove(s, r, from)
  {
    var t := s.held[from].value;
    s.(held := s.held[r := Some(t)], index := s.index[r := s.index[from]],
    armed := s.armed[r := s.armed[from]][from := false],
    ops := s.ops[r := MovingIn(from)][from := MovingOut(r)], home := s.home[t := r],
    status := Advance(s.status, t, Live(from), Live(r)),
    disturbed := if (s.phase.Firing? || s.phase.Resuming?) && MovesInLocal(s, r, from, t)
                 then s.disturbed + {t} else s.disturbed)
  }

  predicate CanRelink(s: State, r: nat) {
    IsObject(s, r) && s.ops[r].MovingIn? && IsObject(s, s.ops[r].from) && s.held[r].Some?
  }

  function RelinkNext(s: State, r: nat): (s': State)
    requires CanRelink(s, r)
  {
    var from := s.ops[r].from;
    var at := Locate(s.list, s.index[r], from);
    if at < 0 then s.(ops := s.ops[r := MovedIn(from)])
    else s.(ops := s.ops[r := MovedIn(from)], list := s.list[at := r], index := s.index[r := at],
         waiting := s.waiting - {from} + {r}, status := Advance(s.status, s.held[r].value, Entry(from), Entry(r)))
  }

  predicate CanFinishMove(s: State, r: nat) {
    IsObject(s, r) && s.ops[r].MovedIn? && IsObject(s, s.ops[r].from)
  }

  function MoveClearNext(s: State, r: nat): (s': State)
    requires CanFinishMove(s, r)
  {
    var from := s.ops[r].from;
    s.(held := s.held[from := None], index := s.index[from := -1], ops := s.ops[r := Free][from := Free])
  }

  // ------------------------------------------------------------ Cancel and Fire

  function SwapNext(s: State): (s': State) {
    s.(phase := Firing(s.list), list := [],
    disturbed := s.disturbed + set t | t in s.status && InTransit(s.held, s.ops, t))
  }

  predicate CanFire(s: State) {
    s.phase.Firing? && s.phase.rest != [] && IsObject(s, s.phase.rest[0])
  }

  /** Fire finds no callback: a Reset or a move has emptied the object, or the ticket has none. */
  function FireBareNext(s: State): (s': State)
    requires CanFire(s)
  {
    s.(phase := Resuming(s.phase.rest[0], s.phase.rest[1..], true, None), waiting := s.waiting - {s.phase.rest[0]})
  }

  function FireHeldNext(s: State, r: nat, t: Ticket, answer: bool): (s': State)
    requires CanFire(s)
  {
    s.(phase := Resuming(r, s.phase.rest[1..], answer, Some(t)), waiting := s.waiting - {r},
    called := Credit(s.called, t, true), asked := Credit(s.asked, t, answer),
    status := Advance(s.status, t, Entry(r), Calling(r, answer)))
  }

  function FireCallNext(s: State, answer: bool): (s': State)
    requires CanFire(s)
  {
    var held := s.held[s.phase.rest[0]];
    if held.Some? && held.value.hasCallback then FireHeldNext(s, s.phase.rest[0], held.value, answer)
    else FireBareNext(s)
  }

  predicate CanResume(s: State) {
    s.phase.Resuming? && IsObject(s, s.phase.current)
  }

  /** Fire schedules the continuation of t, which r holds armed. */
  predicate Schedules(s: State, r: nat, t: Ticket)
    requires CanResume(s) && r < |s.held|
  {
    AtResume(s.phase, r) && s.held[r] == Some(t) && s.armed[r] && t.wantsResume
  }

  function FireResumeNext(s: State): (s': State)
    requires CanResume(s)
  {
    var r := s.phase.current;
    var status :=
      if s.phase.fired.None? then s.status
      else Advance(s.status, s.phase.fired.value, Calling(r, s.phase.should), Ran(s.phase.should));
    var s1 := s.(phase := Firing(s.phase.rest), armed := s.armed[r := false], status := status);
    if s.held[r].Some? && Schedules(s, r, s.held[r].value) then
      var t := s.held[r].value;
      s1.(scheduled := Credit(s.scheduled, t, true),
      status := if t.hasCallback then status else Advance(status, t, Live(r), Ran(true)))
    else s1
  }

  // ------------------------------------------------------------ runs

  predicate Enabled(s: State, step: Step) {
    match step
    case RegisterBegin(r, t) => CanRegister(s, r, t)
    case TryRegister(r) => CanTry(s, r)
    case RunInline(r, _) => CanRunInline(s, r)
    case ResetBegin(r) => CanReset(s, r)
    case Unregister(r) => CanUnregister(s, r)
    case ClearFields(r) => CanClear(s, r)
    case MoveCopy(r, from) => CanMove(s, r, from)
    case Relink(r) => CanRelink(s, r)
    case MoveClear(r) => CanFinishMove(s, r)
    case CancelExchange => true
    case CancelSwap => s.phase == Exchanged
    case FireCall(_) => CanFire(s)
    case FireResume => CanResume(s)
    case CancelEnd => s.phase == Firing([])
  }

  /** A CancelExchange that finds the flag already set is a Cancel call that returns at once. */
  function Next(s: State, step: Step): (s': State)
    requires Enabled(s, step)
  {
    match step
    case RegisterBegin(r, t) => RegisterBeginNext(s, r, t)
    case TryRegister(r) => if s.phase.Idle? then AcceptNext(s, r) else RefuseNext(s, r)
    case RunInline(r, answer) => RunInlineNext(s, r, answer)
    case ResetBegin(r) => ResetBeginNext(s, r)
    case Unregister(r) => UnregisterNext(s, r)
    case ClearFields(r) => ClearFieldsNext(s, r)
    case MoveCopy(r, from) => MoveCopyNext(s, r, from)
    case Relink(r) => RelinkNext(s, r)
    case MoveClear(r) => MoveClearNext(s, r)
    case CancelExchange => if s.phase.Idle? then s.(phase := Exchanged) else s
    case CancelSwap => SwapNext(s)
    case FireCall(answer) => FireCallNext(s, answer)
    case FireResume => FireResumeNext(s)
    case CancelEnd => s.(phase := Finished)
  }

  ghost predicate Init(s: State) {
    && |s.held| == |s.index| == |s.armed| == |s.ops| && s.list == [] && s.phase == Idle
    && (forall r :: 0 <= r < |s.ops| ==> s.held[r] == None && !s.armed[r] && s.ops[r] == Free)
    && s.called == s.asked == s.scheduled == multiset{} && s.withdrawn == {}
    && s.status == map[] && s.home == map[] && s.waiting == {} && s.disturbed == {}
  }

  /** states are those that steps lead through. */
  ghost predicate Path(states: seq<State>, steps: seq<Step>) {
    && |states| == |steps| + 1
    && forall i {:trigger steps[i]} :: 0 <= i < |steps| ==>
      Enabled(states[i], steps[i]) && states[i + 1] == Next(states[i], steps[i])
  }

  ghost predicate Run(states: seq<State>, steps: seq<Step>) {
    Path(states, steps) && Init(states[0])
  }
}

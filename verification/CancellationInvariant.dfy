/**
 * The invariant of the cancellation steps: which places a ticket can still be called or scheduled from, and
 * what has been done with it, for every ticket that no disturbing step has touched.
 */
module CancellationInvariant {
  import opened Options
  import opened CancellationList
  import opened CancellationSteps

  /** waiting is what a list without repetitions holds. */
  ghost predicate Covers(list: seq<nat>, waiting: set<nat>) {
    if list == [] then waiting == {} else list[0] in waiting && Covers(list[1..], waiting - {list[0]})
  }

  /** Before the swap every listed object's index is its position; after it the list is empty. */
  ghost predicate ListOk(list: seq<nat>, index: seq<int>, waiting: set<nat>, phase: Phase) {
    && (forall r :: r in waiting ==> r < |index|)
    && (!Swapped(phase) ==> Positions(list, index, waiting))
    && (Swapped(phase) ==> list == [])
    && (phase.Firing? ==> Covers(phase.rest, waiting))
    && (phase.Resuming? ==> Covers(phase.rest, waiting) && phase.current < |index| && phase.current !in waiting)
    && (phase.Finished? ==> waiting == {})
  }

  ghost predicate Positions(list: seq<nat>, index: seq<int>, waiting: set<nat>) {
    && (forall r :: r in waiting ==> r < |index| && 0 <= index[r] < |list| && list[index[r]] == r)
    && (forall i :: 0 <= i < |list| ==> list[i] in waiting && list[i] < |index| && index[list[i]] == i)
  }

  /** Moves in progress pair their two objects; the other operations hold what they say. */
  ghost predicate OpsOk(held: seq<Option<Ticket>>, ops: seq<Op>)
    requires |held| == |ops|
  {
    && (forall r :: 0 <= r < |ops| && (ops[r].MovingIn? || ops[r].MovedIn?) ==> MoveOk(held, ops, r, ops[r].from))
    && (forall r :: 0 <= r < |ops| && ops[r].MovingOut? ==>
          ops[r].to < |ops| && (ops[ops[r].to] == MovingIn(r) || ops[ops[r].to] == MovedIn(r)))
    && (forall r :: 0 <= r < |ops| && ops[r].Storing? ==> held[r] == Some(ops[r].t))
    && (forall r :: 0 <= r < |ops| && (ops[r].Unregistering? || ops[r].Clearing?) ==> held[r].Some?)
    && (forall r :: 0 <= r < |ops| && ops[r].Inline? ==> held[r] == None)
  }

  ghost predicate MoveOk(held: seq<Option<Ticket>>, ops: seq<Op>, r: nat, from: nat)
    requires |held| == |ops| && r < |ops|
  {
    from < |ops| && from != r && ops[from] == MovingOut(r) && held[from].Some? && held[r] == held[from]
  }

  /** A ticket is held by the object it was last stored in and, in the middle of a move, by the previous one. */
  ghost predicate HoldersOk(held: seq<Option<Ticket>>, ops: seq<Op>, home: map<Ticket, nat>)
    requires |held| == |ops|
  {
    forall r :: 0 <= r < |held| && held[r].Some? ==> HolderOk(held[r].value, ops[r], home, r)
  }

  ghost predicate HolderOk(t: Ticket, op: Op, home: map<Ticket, nat>, r: nat) {
    t in home && (home[t] == r || op == MovingOut(home[t]))
  }

  ghost predicate Known(held: seq<Option<Ticket>>, status: map<Ticket, Status>) {
    forall r :: 0 <= r < |held| && held[r].Some? ==> held[r].value in status
  }

  /** What the owners of listed objects can be doing. */
  ghost predicate WaitingOk(waiting: set<nat>, held: seq<Option<Ticket>>, ops: seq<Op>)
    requires |held| == |ops|
  {
    && (forall r :: r in waiting ==>
        r < |held| && held[r].Some? && !ops[r].Storing? && !ops[r].Clearing? && !ops[r].MovingIn?)
    && (forall r :: r in waiting && r < |ops| && ops[r].MovingOut? ==> ops[r].to < |ops| && ops[ops[r].to].MovingIn?)
  }

  /** Before the swap, attached objects are listed, and so are those that a move is taking a ticket from. */
  ghost predicate AttachedOk(waiting: set<nat>, held: seq<Option<Ticket>>, ops: seq<Op>)
    requires |held| == |ops|
  {
    && (forall r :: 0 <= r < |ops| && held[r].Some? && (ops[r].Free? || ops[r].Unregistering? || ops[r].MovedIn?) ==>
          r in waiting)
    && (forall r :: 0 <= r < |ops| && ops[r].MovingIn? ==> ops[r].from in waiting)
  }

  /** Objects that are being emptied are disarmed. */
  ghost predicate DisarmedOk(ops: seq<Op>, armed: seq<bool>) {
    forall r :: 0 <= r < |ops| && r < |armed| && (ops[r].Unregistering? || ops[r].Clearing? || ops[r].MovingOut?) ==>
      !armed[r]
  }

  predicate Columns(s: State) {
    |s.held| == |s.index| == |s.armed| == |s.ops|
  }

  ghost predicate Shape(s: State) {
    && Columns(s)
    && ListOk(s.list, s.index, s.waiting, s.phase)
    && OpsOk(s.held, s.ops)
    && HoldersOk(s.held, s.ops, s.home)
    && Known(s.held, s.status)
    && DisarmedOk(s.ops, s.armed)
    && (!Swapped(s.phase) ==> WaitingOk(s.waiting, s.held, s.ops) && AttachedOk(s.waiting, s.held, s.ops))
  }

  ghost predicate StatusIs(status: map<Ticket, Status>, disturbed: set<Ticket>, t: Ticket, expected: Status) {
    t in status && (status[t] == expected || t in disturbed)
  }

  /** What the places that a callback can still be called from say about its ticket. */
  ghost predicate EntriesOk(waiting: set<nat>, held: seq<Option<Ticket>>, status: map<Ticket, Status>,
                            disturbed: set<Ticket>)
  {
    forall r :: r in waiting && r < |held| && held[r].Some? && held[r].value.hasCallback ==>
      StatusIs(status, disturbed, held[r].value, Entry(r))
  }

  ghost predicate OwnersOk(ops: seq<Op>, waiting: set<nat>, status: map<Ticket, Status>, disturbed: set<Ticket>) {
    && (forall r :: 0 <= r < |ops| && ops[r].Storing? ==>
          StatusIs(status, disturbed, ops[r].t, AtStore(r)) && (r in waiting ==> ops[r].t in disturbed))
    && (forall r :: 0 <= r < |ops| && ops[r].Inline? ==> StatusIs(status, disturbed, ops[r].t, AtInline(r)))
  }

  /** Whoever holds an undisturbed ticket armed can still have it scheduled, and only one object can if the ticket
      has no callback. */
  ghost predicate ArmedOk(held: seq<Option<Ticket>>, armed: seq<bool>, ops: seq<Op>, status: map<Ticket, Status>,
                          disturbed: set<Ticket>)
    requires |held| == |armed| == |ops|
  {
    && (forall r :: 0 <= r < |held| && armed[r] && held[r].Some? && !held[r].value.hasCallback && !ops[r].Storing? ==>
          StatusIs(status, disturbed, held[r].value, Live(r)))
    && (forall r :: 0 <= r < |held| && armed[r] && held[r].Some? && held[r].value.hasCallback ==>
          held[r].value in status &&
          (MayBeArmed(status[held[r].value], held[r].value) || held[r].value in disturbed))
  }

  predicate MayBeArmed(status: Status, t: Ticket) {
    !status.Gone? && (status == Ran(true) ==> !t.wantsResume)
  }

  /** What the object being resumed says about the ticket that is going to be scheduled. */
  ghost predicate CurrentOk(phase: Phase, held: seq<Option<Ticket>>, armed: seq<bool>, status: map<Ticket, Status>,
                            disturbed: set<Ticket>)
    requires |held| == |armed|
  {
    && (phase.Resuming? && phase.fired.Some? ==>
          && phase.fired.value.hasCallback
          && StatusIs(status, disturbed, phase.fired.value, Calling(phase.current, phase.should)))
    && (phase.Resuming? && phase.current < |held| && phase.should && armed[phase.current]
        && held[phase.current].Some? && held[phase.current].value.wantsResume ==>
          ScheduledOk(phase, held[phase.current].value, status, disturbed))
  }

  ghost predicate ScheduledOk(phase: Phase, t: Ticket, status: map<Ticket, Status>, disturbed: set<Ticket>)
    requires phase.Resuming?
  {
    if t.hasCallback then phase.fired == Some(t) || t in disturbed
    else StatusIs(status, disturbed, t, Live(phase.current))
  }

  ghost predicate PlacesOk(s: State)
    requires Columns(s)
  {
    && EntriesOk(s.waiting, s.held, s.status, s.disturbed)
    && OwnersOk(s.ops, s.waiting, s.status, s.disturbed)
    && ArmedOk(s.held, s.armed, s.ops, s.status, s.disturbed)
    && CurrentOk(s.phase, s.held, s.armed, s.status, s.disturbed)
  }

  function Once(b: bool): nat {
    if b then 1 else 0
  }

  /** The object that a ticket was last stored in still holds it. */
  predicate AtHome(s: State, t: Ticket) {
    t in s.home && s.home[t] < |s.held| && s.held[s.home[t]] == Some(t)
  }

  predicate HomeIs(s: State, t: Ticket, r: nat) {
    t in s.home && s.home[t] == r
  }

  /** The ticket's callback was invoked `called` times, asked `asked` times, and was scheduled `scheduled` times. */
  predicate Counts(s: State, t: Ticket, called: nat, asked: nat, scheduled: nat) {
    s.called[t] == called && s.asked[t] == asked && s.scheduled[t] == scheduled
  }

  /** What a ticket's status says about where it is and what has been done with it. */
  ghost predicate TicketOk(s: State, t: Ticket)
    requires t in s.status && Columns(s)
  {
    (t.hasCallback || t.wantsResume) &&
    match s.status[t]
    case AtStore(r) =>
      && r < |s.ops| && s.ops[r] == Storing(t) && (!Swapped(s.phase) ==> s.armed[r]) && r !in s.waiting
      && Counts(s, t, 0, 0, 0) && t !in s.withdrawn && HomeIs(s, t, r)
    case AtInline(r) =>
      && r < |s.ops| && s.ops[r] == Inline(t) && !s.phase.Idle?
      && Counts(s, t, 0, 0, 0) && t !in s.withdrawn && HomeIs(s, t, r)
    case Entry(r) =>
      && t.hasCallback && r in s.waiting && r < |s.ops| && s.held[r] == Some(t) && Counts(s, t, 0, 0, 0)
      && (s.ops[r].MovingOut? ==> !Swapped(s.phase) && s.ops[r].to < |s.ops| && s.ops[s.ops[r].to].MovingIn?)
      && s.armed[if s.ops[r].MovingOut? then s.ops[r].to else r] == (t !in s.withdrawn)
      && (s.ops[r].Unregistering? || s.ops[r].Clearing? <==> t in s.withdrawn)
    case Live(r) =>
      && !t.hasCallback && r < |s.ops| && s.held[r] == Some(t) && s.armed[r] && Counts(s, t, 0, 0, 0)
      && t !in s.withdrawn && HomeIs(s, t, r) && LivePlace(s, r)
    case Calling(r, should) =>
      && t.hasCallback && s.phase.Resuming? && r == s.phase.current && r < |s.ops| && s.phase.should == should
      && s.phase.fired == Some(t) && Counts(s, t, 1, Once(should), 0)
      && (should && t.wantsResume ==>
            && (t !in s.withdrawn <==> s.held[r] == Some(t) && s.armed[r]) && HomeIs(s, t, r)
            && (s.held[r] == Some(t) ==> !s.ops[r].MovingOut?)
            && (s.held[r] == Some(t) ==> (s.ops[r].Unregistering? || s.ops[r].Clearing? <==> t in s.withdrawn)))
    case Ran(should) =>
      && Counts(s, t, Once(t.hasCallback), Once(t.hasCallback && should),
                Once(t.wantsResume && should && t !in s.withdrawn))
      && (should || t.hasCallback) && !s.phase.Idle?
      && (AtHome(s, t) ==> Swapped(s.phase))
    case Gone =>
      && Counts(s, t, 0, 0, 0) && t in s.withdrawn
      && (AtHome(s, t) ==> s.ops[s.home[t]].Clearing? || s.ops[s.home[t]].Unregistering?)
  }

  /** A live ticket is still going to be fired: its object is listed, or in Cancel's local list, or being moved from
      one that is, or being resumed. */
  ghost predicate LivePlace(s: State, r: nat)
    requires Columns(s) && r < |s.ops|
  {
    if Swapped(s.phase) then r in s.waiting || AtResume(s.phase, r)
    else if s.ops[r].MovingIn? then s.ops[r].from in s.waiting
    else r in s.waiting
  }

  predicate Untouched(s: State, t: Ticket) {
    Counts(s, t, 0, 0, 0) && t !in s.withdrawn && t !in s.disturbed
  }

  ghost predicate Inv(s: State) {
    && Shape(s) && PlacesOk(s)
    && (forall t :: t in s.status && t !in s.disturbed ==> TicketOk(s, t))
    && (forall t :: t !in s.status ==> Untouched(s, t))
    && (forall t :: t in s.disturbed ==> Swapped(s.phase))
  }

  // ------------------------------------------------------------ the list

  lemma LocateIsPosition(list: seq<nat>, index: seq<int>, waiting: set<nat>, hint: int, r: nat)
    requires Positions(list, index, waiting)
    ensures r in waiting ==> Locate(list, hint, r) == index[r]
    ensures r !in waiting ==> Locate(list, hint, r) == -1
  {
  }

  lemma AppendPositions(list: seq<nat>, index: seq<int>, waiting: set<nat>, r: nat)
    requires Positions(list, index, waiting) && r !in waiting && r < |index|
    ensures Positions(list + [r], index[r := |list|], waiting + {r})
  {
  }

  lemma RemovePositions(list: seq<nat>, index: seq<int>, waiting: set<nat>, r: nat, at: nat, moved: nat)
    requires Positions(list, index, waiting) && r in waiting && at == index[r] && moved == list[|list| - 1]
    ensures moved < |index|
    ensures Positions(SwapRemove(list, at), if moved != r && moved < |index| then index[moved := at] else index,
        waiting - {r})
  {
  }

  lemma RenamePositions(list: seq<nat>, index: seq<int>, waiting: set<nat>, from: nat, to: nat)
    requires Positions(list, index, waiting) && from in waiting && to !in waiting && to < |index|
    ensures Positions(list[index[from] := to], index[to := index[from]], waiting - {from} + {to})
  {
  }

  lemma UnlistedPositions(list: seq<nat>, index: seq<int>, waiting: set<nat>, r: nat, i: int)
    requires Positions(list, index, waiting) && r !in waiting && r < |index|
    ensures Positions(list, index[r := i], waiting)
  {
  }

  lemma {:induction false} PositionsCover(list: seq<nat>, waiting: set<nat>)
    requires forall r :: r in waiting <==> r in list
    requires forall i, j :: 0 <= i < j < |list| ==> list[i] != list[j]
    ensures Covers(list, waiting)
  {
    if list != [] {
      forall r
        ensures r in waiting - {list[0]} <==> r in list[1..]
      {
      }
      PositionsCover(list[1..], waiting - {list[0]});
    }
  }

  // ------------------------------------------------------------ the owners

  lemma MoveCopyOps(held: seq<Option<Ticket>>, ops: seq<Op>, home: map<Ticket, nat>, r: nat, from: nat, t: Ticket)
    requires |held| == |ops| && OpsOk(held, ops) && HoldersOk(held, ops, home)
    requires r < |ops| && from < |ops| && r != from && ops[r] == ops[from] == Free && held[r] == None
    requires held[from] == Some(t)
    ensures OpsOk(held[r := Some(t)], ops[r := MovingIn(from)][from := MovingOut(r)])
    ensures HoldersOk(held[r := Some(t)], ops[r := MovingIn(from)][from := MovingOut(r)], home[t := r])
  {
  }

  lemma MoveCopyWaiting(waiting: set<nat>, held: seq<Option<Ticket>>, ops: seq<Op>, r: nat, from: nat, t: Ticket)
    requires |held| == |ops| && WaitingOk(waiting, held, ops) && AttachedOk(waiting, held, ops) && OpsOk(held, ops)
    requires r < |ops| && from < |ops| && r != from && ops[r] == ops[from] == Free
    requires held[r] == None && held[from] == Some(t)
    ensures WaitingOk(waiting, held[r := Some(t)], ops[r := MovingIn(from)][from := MovingOut(r)])
    ensures AttachedOk(waiting, held[r := Some(t)], ops[r := MovingIn(from)][from := MovingOut(r)])
  {
  }

  lemma RelinkOps(held: seq<Option<Ticket>>, ops: seq<Op>, home: map<Ticket, nat>, r: nat)
    requires |held| == |ops| && OpsOk(held, ops) && HoldersOk(held, ops, home) && r < |ops| && ops[r].MovingIn?
    ensures OpsOk(held, ops[r := MovedIn(ops[r].from)])
    ensures HoldersOk(held, ops[r := MovedIn(ops[r].from)], home)
  {
  }

  lemma RelinkWaiting(waiting: set<nat>, held: seq<Option<Ticket>>, ops: seq<Op>, r: nat)
    requires |held| == |ops| && WaitingOk(waiting, held, ops) && AttachedOk(waiting, held, ops) && OpsOk(held, ops)
    requires r < |ops| && ops[r].MovingIn?
    ensures ops[r].from in waiting && r !in waiting
    ensures WaitingOk(waiting - {ops[r].from} + {r}, held, ops[r := MovedIn(ops[r].from)])
    ensures AttachedOk(waiting - {ops[r].from} + {r}, held, ops[r := MovedIn(ops[r].from)])
  {
  }

  lemma MoveClearOps(held: seq<Option<Ticket>>, ops: seq<Op>, home: map<Ticket, nat>, r: nat, from: nat)
    requires |held| == |ops| && OpsOk(held, ops) && HoldersOk(held, ops, home) && r < |ops| && ops[r] == MovedIn(from)
    ensures from < |ops|
    ensures OpsOk(held[from := None], ops[r := Free][from := Free])
    ensures HoldersOk(held[from := None], ops[r := Free][from := Free], home)
  {
  }

  lemma MoveClearWaiting(waiting: set<nat>, held: seq<Option<Ticket>>, ops: seq<Op>, r: nat, from: nat)
    requires |held| == |ops| && WaitingOk(waiting, held, ops) && AttachedOk(waiting, held, ops) && OpsOk(held, ops)
    requires r < |ops| && ops[r] == MovedIn(from) && from < |ops|
    ensures from !in waiting
    ensures WaitingOk(waiting, held[from := None], ops[r := Free][from := Free])
    ensures AttachedOk(waiting, held[from := None], ops[r := Free][from := Free])
  {
  }

  lemma UnregisterOps(held: seq<Option<Ticket>>, ops: seq<Op>, home: map<Ticket, nat>, r: nat)
    requires |held| == |ops| && OpsOk(held, ops) && HoldersOk(held, ops, home) && r < |ops| && ops[r].Unregistering?
    ensures OpsOk(held, ops[r := Clearing])
    ensures HoldersOk(held, ops[r := Clearing], home)
  {
  }

  predicate HasCallback(held: Option<Ticket>) {
    held.Some? && held.value.hasCallback
  }

  // ------------------------------------------------------------ advancing one ticket

  lemma AdvanceEntries(waiting: set<nat>, held: seq<Option<Ticket>>, status: map<Ticket, Status>,
                       disturbed: set<Ticket>, t: Ticket, from: Status, to: Status)
    requires EntriesOk(waiting, held, status, disturbed) && !from.Entry?
    ensures EntriesOk(waiting, held, Advance(status, t, from, to), disturbed)
  {
  }

  /** A ticket that has run is held armed by nobody. */
  lemma AdvanceArmed(held: seq<Option<Ticket>>, armed: seq<bool>, ops: seq<Op>, status: map<Ticket, Status>,
                     disturbed: set<Ticket>, t: Ticket, from: Status, to: Status)
    requires |held| == |armed| == |ops| && ArmedOk(held, armed, ops, status, disturbed)
    requires forall r :: 0 <= r < |held| && armed[r] && held[r] == Some(t) ==>
      t in disturbed || (if t.hasCallback then MayBeArmed(to, t) else !from.Live?)
    ensures ArmedOk(held, armed, ops, Advance(status, t, from, to), disturbed)
  {
  }

  lemma RegisterBeginShape(s: State, s': State, r: nat, t: Ticket)
    requires Shape(s) && CanRegister(s, r, t) && s' == RegisterBeginNext(s, r, t)
    ensures Shape(s')
  {
  }

  lemma RegisterBeginPlaces(s: State, s': State, r: nat, t: Ticket)
    requires Shape(s) && PlacesOk(s) && CanRegister(s, r, t) && s' == RegisterBeginNext(s, r, t) && Shape(s')
    ensures PlacesOk(s')
  {
  }

  lemma RegisterBeginTicket(s: State, s': State, r: nat, t: Ticket, u: Ticket)
    requires Shape(s) && PlacesOk(s) && CanRegister(s, r, t) && s' == RegisterBeginNext(s, r, t) && Columns(s')
    requires u in s'.status && u !in s'.disturbed && if u in s.status then TicketOk(s, u) else Untouched(s, u)
    ensures TicketOk(s', u)
  {
  }

  lemma AcceptShape(s: State, s': State, r: nat)
    requires Shape(s) && CanTry(s, r) && s.phase.Idle? && s' == AcceptNext(s, r)
    ensures Shape(s')
  {
    AppendPositions(s.list, s.index, s.waiting, r);
  }

  lemma AcceptPlaces(s: State, s': State, r: nat)
    requires Shape(s) && PlacesOk(s) && CanTry(s, r) && s.phase.Idle? && s' == AcceptNext(s, r) && Shape(s')
    ensures PlacesOk(s')
  {
    AcceptEntries(s, s', r);
    AcceptArmed(s, s', r);
  }

  lemma AcceptEntries(s: State, s': State, r: nat)
    requires Shape(s) && PlacesOk(s) && CanTry(s, r) && s.phase.Idle? && s' == AcceptNext(s, r)
    ensures EntriesOk(s'.waiting, s'.held, s'.status, s'.disturbed)
    ensures OwnersOk(s'.ops, s'.waiting, s'.status, s'.disturbed)
  {
  }

  lemma AcceptArmed(s: State, s': State, r: nat)
    requires Shape(s) && PlacesOk(s) && CanTry(s, r) && s.phase.Idle? && s' == AcceptNext(s, r)
    ensures ArmedOk(s'.held, s'.armed, s'.ops, s'.status, s'.disturbed)
  {
  }

  lemma AcceptTicket(s: State, s': State, r: nat, u: Ticket)
    requires Shape(s) && PlacesOk(s) && CanTry(s, r) && s.phase.Idle? && s' == AcceptNext(s, r) && Columns(s')
    requires u in s'.status && u !in s'.disturbed && if u in s.status then TicketOk(s, u) else Untouched(s, u)
    ensures TicketOk(s', u)
  {
  }

  lemma RefuseShape(s: State, s': State, r: nat)
    requires Shape(s) && CanTry(s, r) && !s.phase.Idle? && s' == RefuseNext(s, r)
    ensures Shape(s')
  {
  }

  lemma RefusePlaces(s: State, s': State, r: nat)
    requires Shape(s) && PlacesOk(s) && CanTry(s, r) && !s.phase.Idle? && s' == RefuseNext(s, r) && Shape(s')
    ensures PlacesOk(s')
  {
  }

  lemma RefuseTicket(s: State, s': State, r: nat, u: Ticket)
    requires Shape(s) && PlacesOk(s) && CanTry(s, r) && !s.phase.Idle? && s' == RefuseNext(s, r) && Columns(s')
    requires u in s'.status && u !in s'.disturbed && if u in s.status then TicketOk(s, u) else Untouched(s, u)
    ensures TicketOk(s', u)
  {
  }

  lemma FreeArmed(held: seq<Option<Ticket>>, armed: seq<bool>, ops: seq<Op>, status: map<Ticket, Status>,
                  disturbed: set<Ticket>, r: nat)
    requires |held| == |armed| == |ops| && r < |ops| && ops[r].Inline? && ArmedOk(held, armed, ops, status, disturbed)
    ensures ArmedOk(held, armed, ops[r := Free], status, disturbed)
  {
  }

  lemma RunInlineShape(s: State, s': State, r: nat, answer: bool)
    requires Shape(s) && CanRunInline(s, r) && s' == RunInlineNext(s, r, answer)
    ensures Shape(s')
  {
  }

  lemma RunInlinePlaces(s: State, s': State, r: nat, answer: bool)
    requires Shape(s) && PlacesOk(s) && CanRunInline(s, r) && s' == RunInlineNext(s, r, answer) && Shape(s')
    requires s.ops[r].t in s.status && (s.ops[r].t !in s.disturbed ==> TicketOk(s, s.ops[r].t))
    ensures PlacesOk(s')
  {
    var t := s.ops[r].t;
    var to := Ran(t.hasCallback ==> answer);
    AdvanceEntries(s.waiting, s.held, s.status, s.disturbed, t, AtInline(r), to);
    forall o | 0 <= o < |s.held| && s.armed[o] && s.held[o] == Some(t)
      ensures t in s.disturbed
    {
      assert HolderOk(t, s.ops[o], s.home, o);
    }
    AdvanceArmed(s.held, s.armed, s.ops, s.status, s.disturbed, t, AtInline(r), to);
    FreeArmed(s.held, s.armed, s.ops, s'.status, s.disturbed, r);
  }

  lemma RunInlineTicket(s: State, s': State, r: nat, answer: bool, u: Ticket)
    requires Shape(s) && PlacesOk(s) && CanRunInline(s, r) && s' == RunInlineNext(s, r, answer) && Columns(s')
    requires u in s'.status && u !in s'.disturbed && if u in s.status then TicketOk(s, u) else Untouched(s, u)
    ensures TicketOk(s', u)
  {
    var t := s.ops[r].t;
    assert StatusIs(s.status, s.disturbed, t, AtInline(r));
    if u == t {
      assert s'.status[u] == Ran(t.hasCallback ==> answer);
    } else {
      assert s'.status[u] == s.status[u];
      RunInlineSpares(s, s', r, answer, u);
      OpsFrame(s, s', r, u);
    }
  }

  lemma RunInlineSpares(s: State, s': State, r: nat, answer: bool, u: Ticket)
    requires CanRunInline(s, r) && s' == RunInlineNext(s, r, answer) && u != s.ops[r].t
    ensures s'.called[u] == s.called[u] && s'.asked[u] == s.asked[u] && s'.scheduled[u] == s.scheduled[u]
  {
  }

  /** The end of an inline call matters to its own ticket only. */
  lemma OpsFrame(s: State, s': State, r: nat, u: Ticket)
    requires Columns(s) && Columns(s') && r < |s.ops| && s.ops[r].Inline? && s.held[r].None? && s.ops[r].t != u
    requires OpsOk(s.held, s.ops) && s'.ops == s.ops[r := Free] && s'.held == s.held && s'.armed == s.armed
    requires s'.phase == s.phase && s'.waiting == s.waiting && s'.home == s.home && s'.withdrawn == s.withdrawn
    requires s'.called[u] == s.called[u] && s'.asked[u] == s.asked[u] && s'.scheduled[u] == s.scheduled[u]
    requires u in s.status && u in s'.status && s'.status[u] == s.status[u] && TicketOk(s, u)
    ensures TicketOk(s', u)
  {
  }

  lemma ResetBeginShape(s: State, s': State, r: nat)
    requires Shape(s) && CanReset(s, r) && s' == ResetBeginNext(s, r)
    ensures Shape(s')
  {
  }

  lemma ResetBeginPlaces(s: State, s': State, r: nat)
    requires Shape(s) && PlacesOk(s) && CanReset(s, r) && s' == ResetBeginNext(s, r) && Shape(s')
    ensures PlacesOk(s')
  {
  }

  lemma ResetBeginTicket(s: State, s': State, r: nat, u: Ticket)
    requires Shape(s) && PlacesOk(s) && CanReset(s, r) && s' == ResetBeginNext(s, r) && Columns(s')
    requires u in s'.status && u !in s'.disturbed && if u in s.status then TicketOk(s, u) else Untouched(s, u)
    ensures TicketOk(s', u)
  {
  }

  lemma UnregisterWaiting(waiting: set<nat>, held: seq<Option<Ticket>>, ops: seq<Op>, r: nat)
    requires |held| == |ops| && WaitingOk(waiting, held, ops) && AttachedOk(waiting, held, ops) && OpsOk(held, ops)
    requires r < |ops| && ops[r].Unregistering?
    ensures r in waiting
    ensures WaitingOk(waiting - {r}, held, ops[r := Clearing])
    ensures AttachedOk(waiting - {r}, held, ops[r := Clearing])
  {
  }

  lemma UnregisterShape(s: State, s': State, r: nat)
    requires Shape(s) && CanUnregister(s, r) && s' == UnregisterNext(s, r)
    ensures Shape(s')
  {
    UnregisterOps(s.held, s.ops, s.home, r);
    if !Swapped(s.phase) {
      UnregisterWaiting(s.waiting, s.held, s.ops, r);
      LocateIsPosition(s.list, s.index, s.waiting, s.index[r], r);
      RemovePositions(s.list, s.index, s.waiting, r, s.index[r], s.list[|s.list| - 1]);
    }
  }

  lemma UnregisterPlaces(s: State, s': State, r: nat, found: bool)
    requires Shape(s) && PlacesOk(s) && CanUnregister(s, r) && (found ==> s.disturbed == {})
    requires found <==> r in s.waiting && !Swapped(s.phase)
    requires s'.(list := s.list, index := s.index) ==
             s.(ops := s.ops[r := Clearing], waiting := if found then s.waiting - {r} else s.waiting,
             status := if found then Advance(s.status, s.held[r].value, Entry(r), Gone) else s.status)
    requires Shape(s')
    ensures PlacesOk(s')
  {
  }

  lemma UnregisterTicket(s: State, s': State, r: nat, u: Ticket, found: bool)
    requires Shape(s) && PlacesOk(s) && CanUnregister(s, r) && (found ==> s.disturbed == {})
    requires found <==> r in s.waiting && !Swapped(s.phase)
    requires s'.(list := s.list, index := s.index) ==
             s.(ops := s.ops[r := Clearing], waiting := if found then s.waiting - {r} else s.waiting,
             status := if found then Advance(s.status, s.held[r].value, Entry(r), Gone) else s.status)
    requires u in s'.status && u !in s'.disturbed && TicketOk(s, u) && Columns(s')
    ensures TicketOk(s', u)
  {
  }

  lemma ClearFieldsShape(s: State, s': State, r: nat)
    requires Shape(s) && CanClear(s, r) && s' == ClearFieldsNext(s, r)
    ensures Shape(s')
  {
  }

  lemma ClearFieldsPlaces(s: State, s': State, r: nat)
    requires Shape(s) && PlacesOk(s) && CanClear(s, r) && s' == ClearFieldsNext(s, r) && Shape(s')
    ensures PlacesOk(s')
  {
  }

  lemma ClearFieldsTicket(s: State, s': State, r: nat, u: Ticket)
    requires Shape(s) && PlacesOk(s) && CanClear(s, r) && s' == ClearFieldsNext(s, r) && Columns(s')
    requires u in s'.status && u !in s'.disturbed && if u in s.status then TicketOk(s, u) else Untouched(s, u)
    ensures TicketOk(s', u)
  {
  }

  lemma MoveCopyShape(s: State, s': State, r: nat, from: nat)
    requires Shape(s) && CanMove(s, r, from) && s' == MoveCopyNext(s, r, from)
    ensures Shape(s')
  {
    MoveCopyOps(s.held, s.ops, s.home, r, from, s.held[from].value);
    if !Swapped(s.phase) {
      UnlistedPositions(s.list, s.index, s.waiting, r, s.index[from]);
      MoveCopyWaiting(s.waiting, s.held, s.ops, r, from, s.held[from].value);
    }
  }

  lemma MoveCopyPlaces(s: State, s': State, r: nat, from: nat)
    requires Shape(s) && PlacesOk(s) && CanMove(s, r, from) && s' == MoveCopyNext(s, r, from) && Shape(s')
    ensures PlacesOk(s')
  {
  }

  lemma MoveCopyTicket(s: State, s': State, r: nat, from: nat, u: Ticket)
    requires Shape(s) && PlacesOk(s) && CanMove(s, r, from) && s' == MoveCopyNext(s, r, from) && Columns(s')
    requires u in s'.status && u !in s'.disturbed && if u in s.status then TicketOk(s, u) else Untouched(s, u)
    ensures TicketOk(s', u)
  {
  }

  lemma RelinkShape(s: State, s': State, r: nat)
    requires Shape(s) && CanRelink(s, r) && s' == RelinkNext(s, r)
    ensures Shape(s')
  {
    var from := s.ops[r].from;
    RelinkOps(s.held, s.ops, s.home, r);
    if !Swapped(s.phase) {
      RelinkWaiting(s.waiting, s.held, s.ops, r);
      LocateIsPosition(s.list, s.index, s.waiting, s.index[r], from);
      RenamePositions(s.list, s.index, s.waiting, from, r);
    }
  }

  lemma RelinkPlaces(s: State, s': State, r: nat, found: bool)
    requires Shape(s) && PlacesOk(s) && CanRelink(s, r) && (found ==> s.disturbed == {})
    requires found <==> s.ops[r].from in s.waiting && !Swapped(s.phase)
    requires s'.(list := s.list, index := s.index) ==
             s.(ops := s.ops[r := MovedIn(s.ops[r].from)],
             waiting := if found then s.waiting - {s.ops[r].from} + {r} else s.waiting,
             status := if found then Advance(s.status, s.held[r].value, Entry(s.ops[r].from), Entry(r)) else s.status)
    requires Shape(s')
    ensures PlacesOk(s')
  {
  }

  lemma RelinkTicket(s: State, s': State, r: nat, u: Ticket, found: bool)
    requires Shape(s) && PlacesOk(s) && CanRelink(s, r) && (found ==> s.disturbed == {})
    requires found <==> s.ops[r].from in s.waiting && !Swapped(s.phase)
    requires s'.(list := s.list, index := s.index) ==
             s.(ops := s.ops[r := MovedIn(s.ops[r].from)],
             waiting := if found then s.waiting - {s.ops[r].from} + {r} else s.waiting,
             status := if found then Advance(s.status, s.held[r].value, Entry(s.ops[r].from), Entry(r)) else s.status)
    requires u in s'.status && u !in s'.disturbed && TicketOk(s, u) && Columns(s')
    ensures TicketOk(s', u)
  {
  }

  lemma MoveClearShape(s: State, s': State, r: nat)
    requires Shape(s) && CanFinishMove(s, r) && s' == MoveClearNext(s, r)
    ensures Shape(s')
  {
    MoveClearOps(s.held, s.ops, s.home, r, s.ops[r].from);
    if !Swapped(s.phase) {
      MoveClearWaiting(s.waiting, s.held, s.ops, r, s.ops[r].from);
      UnlistedPositions(s.list, s.index, s.waiting, s.ops[r].from, -1);
    }
  }

  lemma MoveClearPlaces(s: State, s': State, r: nat)
    requires Shape(s) && PlacesOk(s) && CanFinishMove(s, r) && s' == MoveClearNext(s, r) && Shape(s')
    ensures PlacesOk(s')
  {
  }

  lemma MoveClearTicket(s: State, s': State, r: nat, u: Ticket)
    requires Shape(s) && PlacesOk(s) && CanFinishMove(s, r) && s' == MoveClearNext(s, r) && Columns(s')
    requires u in s'.status && u !in s'.disturbed && if u in s.status then TicketOk(s, u) else Untouched(s, u)
    ensures TicketOk(s', u)
  {
  }

  lemma SwapShape(s: State, s': State)
    requires Shape(s) && s.phase == Exchanged && s' == SwapNext(s)
    ensures Shape(s')
  {
    PositionsCover(s.list, s.waiting);
  }

  lemma SwapPlaces(s: State, s': State)
    requires Shape(s) && PlacesOk(s) && s.phase == Exchanged && s' == SwapNext(s) && Shape(s')
    ensures PlacesOk(s')
  {
  }

  lemma SwapTicket(s: State, s': State, u: Ticket)
    requires Shape(s) && PlacesOk(s) && s.phase == Exchanged && s' == SwapNext(s) && Columns(s')
    requires u in s'.status && u !in s'.disturbed && if u in s.status then TicketOk(s, u) else Untouched(s, u)
    ensures TicketOk(s', u)
  {
  }

  lemma FireBareShape(s: State, s': State)
    requires Shape(s) && CanFire(s) && !HasCallback(s.held[s.phase.rest[0]]) && s' == FireBareNext(s)
    ensures Shape(s')
  {
  }

  lemma FireBarePlaces(s: State, s': State)
    requires Shape(s) && PlacesOk(s) && CanFire(s) && !HasCallback(s.held[s.phase.rest[0]]) && s' == FireBareNext(s)
    requires Shape(s')
    ensures PlacesOk(s')
  {
  }

  lemma FireBareTicket(s: State, s': State, u: Ticket)
    requires Shape(s) && PlacesOk(s) && CanFire(s) && !HasCallback(s.held[s.phase.rest[0]]) && s' == FireBareNext(s)
    requires Columns(s')
    requires u in s'.status && u !in s'.disturbed && if u in s.status then TicketOk(s, u) else Untouched(s, u)
    ensures TicketOk(s', u)
  {
  }

  lemma FireHeldShape(s: State, s': State, r: nat, t: Ticket, answer: bool)
    requires Shape(s) && CanFire(s) && r == s.phase.rest[0] && s.held[r] == Some(t) && t.hasCallback
    requires s' == FireHeldNext(s, r, t, answer)
    ensures Shape(s')
  {
  }

  lemma FireHeldPlaces(s: State, s': State, r: nat, t: Ticket, answer: bool)
    requires Shape(s) && PlacesOk(s) && CanFire(s) && r == s.phase.rest[0] && s.held[r] == Some(t) && t.hasCallback
    requires s' == FireHeldNext(s, r, t, answer) && Shape(s')
    ensures PlacesOk(s')
  {
  }

  lemma FireHeldTicket(s: State, s': State, r: nat, t: Ticket, answer: bool, u: Ticket)
    requires Shape(s) && PlacesOk(s) && CanFire(s) && r == s.phase.rest[0] && s.held[r] == Some(t) && t.hasCallback
    requires s' == FireHeldNext(s, r, t, answer) && Columns(s')
    requires u in s'.status && u !in s'.disturbed && if u in s.status then TicketOk(s, u) else Untouched(s, u)
    ensures TicketOk(s', u)
  {
  }

/** What the end of Fire does to one ticket. */
  function AfterResume(s: State, u: Ticket): (status: Status)
    requires CanResume(s) && u in s.status
  {
    var r := s.phase.current;
    if s.phase.fired == Some(u) && s.status[u] == Calling(r, s.phase.should) then Ran(s.phase.should)
    else if Schedules(s, r, u) && !u.hasCallback && s.status[u] == Live(r) then Ran(true)
    else s.status[u]
  }

  predicate Resumed(s: State, s': State)
    requires CanResume(s)
  {
    var r := s.phase.current;
    && s'.phase == Firing(s.phase.rest) && s'.armed == s.armed[r := false]
    && s'.held == s.held && s'.ops == s.ops && s'.index == s.index && s'.list == s.list && s'.waiting == s.waiting
    && s'.home == s.home && s'.called == s.called && s'.asked == s.asked
    && s'.withdrawn == s.withdrawn && s'.disturbed == s.disturbed
  }

  lemma FireResumeEffect(s: State, s': State)
    requires CanResume(s) && s' == FireResumeNext(s)
    ensures Resumed(s, s')
    ensures forall u :: u in s'.status <==> u in s.status
  {
  }

  lemma FireResumeOn(s: State, s': State, u: Ticket)
    requires CanResume(s) && s' == FireResumeNext(s) && u in s.status && u in s'.status
    requires s.phase.fired.Some? ==> s.phase.fired.value.hasCallback
    ensures s'.status[u] == AfterResume(s, u)
    ensures s'.scheduled[u] == s.scheduled[u] + Once(Schedules(s, s.phase.current, u))
  {
  }

  lemma FireResumeShape(s: State, s': State)
    requires Shape(s) && CanResume(s) && s' == FireResumeNext(s)
    ensures Shape(s')
  {
  }

  lemma FireResumePlaces(s: State, s': State)
    requires Shape(s) && PlacesOk(s) && CanResume(s) && Resumed(s, s') && Shape(s')
    requires forall u :: u in s'.status <==> u in s.status
    requires forall u :: u in s.status ==> s'.status[u] == AfterResume(s, u)
    requires s.phase.fired.Some? && s.phase.fired.value in s.status && s.phase.fired.value !in s.disturbed ==>
               TicketOk(s, s.phase.fired.value)
    ensures PlacesOk(s')
  {
    forall r | 0 <= r < |s.held| && s'.armed[r] && s.held[r].Some? && s.held[r].value.hasCallback
      ensures MayBeArmed(s'.status[s.held[r].value], s.held[r].value) || s.held[r].value in s.disturbed
    {
      var t := s.held[r].value;
      assert HolderOk(t, s.ops[r], s.home, r);
    }
  }

  lemma FireResumeTicket(s: State, s': State, u: Ticket)
    requires Shape(s) && PlacesOk(s) && CanResume(s) && Resumed(s, s')
    requires u in s.status && u in s'.status && u !in s'.disturbed && TicketOk(s, u)
    requires s'.status[u] == AfterResume(s, u)
    requires s'.scheduled[u] == s.scheduled[u] + Once(Schedules(s, s.phase.current, u))
    ensures TicketOk(s', u)
  {
  }

  lemma RegisterBeginKeeps(s: State, s': State, r: nat, t: Ticket)
    requires Inv(s) && CanRegister(s, r, t) && s' == RegisterBeginNext(s, r, t)
    ensures Inv(s')
  {
    RegisterBeginShape(s, s', r, t);
    RegisterBeginPlaces(s, s', r, t);
    forall u | u in s'.status && u !in s'.disturbed
      ensures TicketOk(s', u)
    {
      RegisterBeginTicket(s, s', r, t, u);
    }
  }

  lemma AcceptKeeps(s: State, s': State, r: nat)
    requires Inv(s) && CanTry(s, r) && s.phase.Idle? && s' == AcceptNext(s, r)
    ensures Inv(s')
  {
    AcceptShape(s, s', r);
    AcceptPlaces(s, s', r);
    forall u | u in s'.status && u !in s'.disturbed
      ensures TicketOk(s', u)
    {
      AcceptTicket(s, s', r, u);
    }
  }

  lemma RefuseKeeps(s: State, s': State, r: nat)
    requires Inv(s) && CanTry(s, r) && !s.phase.Idle? && s' == RefuseNext(s, r)
    ensures Inv(s')
  {
    RefuseShape(s, s', r);
    RefusePlaces(s, s', r);
    forall u | u in s'.status && u !in s'.disturbed
      ensures TicketOk(s', u)
    {
      RefuseTicket(s, s', r, u);
    }
  }

  lemma RunInlineKeeps(s: State, s': State, r: nat, answer: bool)
    requires Inv(s) && CanRunInline(s, r) && s' == RunInlineNext(s, r, answer)
    ensures Inv(s')
  {
    RunInlineShape(s, s', r, answer);
    RunInlinePlaces(s, s', r, answer);
    forall u | u in s'.status && u !in s'.disturbed
      ensures TicketOk(s', u)
    {
      RunInlineTicket(s, s', r, answer, u);
    }
  }

  lemma ResetBeginKeeps(s: State, s': State, r: nat)
    requires Inv(s) && CanReset(s, r) && s' == ResetBeginNext(s, r)
    ensures Inv(s')
  {
    ResetBeginShape(s, s', r);
    ResetBeginPlaces(s, s', r);
    forall u | u in s'.status && u !in s'.disturbed
      ensures TicketOk(s', u)
    {
      ResetBeginTicket(s, s', r, u);
    }
  }

  lemma UnregisterKeeps(s: State, s': State, r: nat)
    requires Inv(s) && CanUnregister(s, r) && s' == UnregisterNext(s, r)
    ensures Inv(s')
  {
    var found := !Swapped(s.phase) && r in s.waiting;
    if !Swapped(s.phase) {
      LocateIsPosition(s.list, s.index, s.waiting, s.index[r], r);
    }
    UnregisterShape(s, s', r);
    UnregisterPlaces(s, s', r, found);
    forall u | u in s'.status && u !in s'.disturbed
      ensures TicketOk(s', u)
    {
      UnregisterTicket(s, s', r, u, found);
    }
  }

  lemma ClearFieldsKeeps(s: State, s': State, r: nat)
    requires Inv(s) && CanClear(s, r) && s' == ClearFieldsNext(s, r)
    ensures Inv(s')
  {
    ClearFieldsShape(s, s', r);
    ClearFieldsPlaces(s, s', r);
    forall u | u in s'.status && u !in s'.disturbed
      ensures TicketOk(s', u)
    {
      ClearFieldsTicket(s, s', r, u);
    }
  }

  lemma MoveCopyKeeps(s: State, s': State, r: nat, from: nat)
    requires Inv(s) && CanMove(s, r, from) && s' == MoveCopyNext(s, r, from)
    ensures Inv(s')
  {
    MoveCopyShape(s, s', r, from);
    MoveCopyPlaces(s, s', r, from);
    forall u | u in s'.status && u !in s'.disturbed
      ensures TicketOk(s', u)
    {
      MoveCopyTicket(s, s', r, from, u);
    }
  }

  lemma RelinkKeeps(s: State, s': State, r: nat)
    requires Inv(s) && CanRelink(s, r) && s' == RelinkNext(s, r)
    ensures Inv(s')
  {
    var found := !Swapped(s.phase) && s.ops[r].from in s.waiting;
    if !Swapped(s.phase) {
      LocateIsPosition(s.list, s.index, s.waiting, s.index[r], s.ops[r].from);
    }
    RelinkShape(s, s', r);
    RelinkPlaces(s, s', r, found);
    forall u | u in s'.status && u !in s'.disturbed
      ensures TicketOk(s', u)
    {
      RelinkTicket(s, s', r, u, found);
    }
  }

  lemma MoveClearKeeps(s: State, s': State, r: nat)
    requires Inv(s) && CanFinishMove(s, r) && s' == MoveClearNext(s, r)
    ensures Inv(s')
  {
    MoveClearShape(s, s', r);
    MoveClearPlaces(s, s', r);
    forall u | u in s'.status && u !in s'.disturbed
      ensures TicketOk(s', u)
    {
      MoveClearTicket(s, s', r, u);
    }
  }

  lemma SwapKeeps(s: State, s': State)
    requires Inv(s) && s.phase == Exchanged && s' == SwapNext(s)
    ensures Inv(s')
  {
    SwapShape(s, s');
    SwapPlaces(s, s');
    forall u | u in s'.status && u !in s'.disturbed
      ensures TicketOk(s', u)
    {
      SwapTicket(s, s', u);
    }
  }

  lemma FireBareKeeps(s: State, s': State)
    requires Inv(s) && CanFire(s) && !HasCallback(s.held[s.phase.rest[0]]) && s' == FireBareNext(s)
    ensures Inv(s')
  {
    FireBareShape(s, s');
    FireBarePlaces(s, s');
    forall u | u in s'.status && u !in s'.disturbed
      ensures TicketOk(s', u)
    {
      FireBareTicket(s, s', u);
    }
  }

  lemma FireHeldKeeps(s: State, s': State, r: nat, t: Ticket, answer: bool)
    requires Inv(s) && CanFire(s) && r == s.phase.rest[0] && s.held[r] == Some(t) && t.hasCallback
    requires s' == FireHeldNext(s, r, t, answer)
    ensures Inv(s')
  {
    FireHeldShape(s, s', r, t, answer);
    FireHeldPlaces(s, s', r, t, answer);
    forall u | u in s'.status && u !in s'.disturbed
      ensures TicketOk(s', u)
    {
      FireHeldTicket(s, s', r, t, answer, u);
    }
  }

  lemma FireResumeKeeps(s: State, s': State)
    requires Inv(s) && CanResume(s) && s' == FireResumeNext(s)
    ensures Inv(s')
  {
    FireResumeShape(s, s');
    FireResumeEffect(s, s');
    forall u | u in s.status
      ensures s'.status[u] == AfterResume(s, u)
    {
      FireResumeOn(s, s', u);
    }
    FireResumePlaces(s, s');
    forall u | u in s'.status && u !in s'.disturbed
      ensures TicketOk(s', u)
    {
      FireResumeOn(s, s', u);
      FireResumeTicket(s, s', u);
    }
    forall u | u !in s'.status
      ensures Untouched(s', u)
    {
      FireResumeSpares(s, s', u);
    }
  }

  lemma FireResumeSpares(s: State, s': State, u: Ticket)
    requires Shape(s) && CanResume(s) && s' == FireResumeNext(s) && u !in s.status
    ensures s'.scheduled[u] == s.scheduled[u]
  {
  }

  lemma PhaseKeeps(s: State, s': State)
    requires Inv(s)
    requires (s.phase.Idle? && s' == s.(phase := Exchanged)) || (s.phase == Firing([]) && s' == s.(phase := Finished))
    ensures Inv(s')
  {
  }

  lemma StepKeepsInv(s: State, step: Step)
    requires Inv(s) && Enabled(s, step)
    ensures Inv(Next(s, step))
  {
    var s' := Next(s, step);
    match step
    case RegisterBegin(r, t) => RegisterBeginKeeps(s, s', r, t);
    case TryRegister(r) =>
      if s.phase.Idle? {
        AcceptKeeps(s, s', r);
      } else {
        RefuseKeeps(s, s', r);
      }
    case RunInline(r, answer) => RunInlineKeeps(s, s', r, answer);
    case ResetBegin(r) => ResetBeginKeeps(s, s', r);
    case Unregister(r) => UnregisterKeeps(s, s', r);
    case ClearFields(r) => ClearFieldsKeeps(s, s', r);
    case MoveCopy(r, from) => MoveCopyKeeps(s, s', r, from);
    case Relink(r) => RelinkKeeps(s, s', r);
    case MoveClear(r) => MoveClearKeeps(s, s', r);
    case CancelExchange =>
      if s.phase.Idle? {
        PhaseKeeps(s, s');
      }
    case CancelSwap => SwapKeeps(s, s');
    case FireCall(answer) =>
      var r := s.phase.rest[0];
      if HasCallback(s.held[r]) {
        FireHeldKeeps(s, s', r, s.held[r].value, answer);
      } else {
        FireBareKeeps(s, s');
      }
    case FireResume => FireResumeKeeps(s, s');
    case CancelEnd => PhaseKeeps(s, s');
  }

  lemma InitKeeps(s: State)
    requires Init(s)
    ensures Inv(s)
  {
  }

  lemma {:induction false} RunKeepsInv(states: seq<State>, steps: seq<Step>, i: nat)
    requires Run(states, steps) && i < |states|
    ensures Inv(states[i])
  {
    if i == 0 {
      InitKeeps(states[0]);
    } else {
      RunKeepsInv(states, steps, i - 1);
      StepKeepsInv(states[i - 1], steps[i - 1]);
    }
  }
}

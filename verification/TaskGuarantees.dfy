/**
 * What task promises guarantee: a failure finishes exactly the unfinished tasks up the await chain, of any
 * depth, all with its kind, and its payload ends up with the last of them; and over every sequence of calls
 * outcomes are written once and every promise finishes at most once.
 */
module TaskGuarantees {
  import opened Options
  import opened TaskPromises

  // ------------------------------------------------------------ one settlement

  /** Success, domain error, cancellation, or fault of one code. */
  predicate SameKind<V, E>(x: Outcome<V, E>, y: Outcome<V, E>) {
    match x
    case Success(_) => y.Success?
    case DomainError(_) => y.DomainError?
    case Canceled => y.Canceled?
    case Fault(code, _) => y.Fault? && y.code == code
  }

  /** y is x, except that its payload may be gone if it is of a kind that a move empties. */
  ghost predicate SameOutcome<V, E>(x: Outcome<V, E>, y: Outcome<V, E>, moves: Moves) {
    && SameKind(x, y)
    && match x
       case Success(value) => y.value == value || (y.value == None && !moves.valueStays)
       case DomainError(error) => y.error == error || (y.error == None && !moves.errorStays)
       case Canceled => true
       case Fault(_, message) => y.message == message || y.message == None
  }

  /** y is x without the payload, unless a move leaves it. */
  ghost predicate Spent<V, E>(x: Outcome<V, E>, y: Outcome<V, E>, moves: Moves) {
    && SameOutcome(x, y, moves)
    && (y.Success? && !moves.valueStays ==> y.value == None)
    && (y.DomainError? && !moves.errorStays ==> y.error == None)
    && (y.Fault? ==> y.message == None)
  }

  /** Moving the payload out of an outcome leaves its kind. */
  lemma EmptiedIsSpent<V, E>(o: Outcome<V, E>, moves: Moves)
    ensures SameKind(o, Emptied(o, moves)) && Spent(o, Emptied(o, moves), moves)
  {
  }

  /** y is x after any number of calls: what was recorded, linked or finished stays, payloads apart. */
  ghost predicate Extends<V, E>(x: Promise<V, E>, y: Promise<V, E>, moves: Moves) {
    && (x.finished ==> y.finished)
    && (x.completion.Some? ==> y.completion.Some? && SameOutcome(x.completion.value, y.completion.value, moves))
    && (x.continuation.Some? ==> y.continuation == x.continuation && y.propagates == x.propagates)
    && (x.started ==> y.started)
  }

  lemma ClimbExtends<V, E>(h: Heap<V, E>, p: nat, c: nat, q: nat)
    requires p < |h.promises| && c < |h.promises| && q < |h.promises|
    ensures var r := Climb(h, p, c).promises;
            Extends(h.promises[q], r[q], h.moves) && r[p].finished
    ensures var r := Climb(h, p, c).promises;
            h.promises[q].continuation == r[q].continuation && h.promises[q].started == r[q].started
  {
  }

  lemma {:induction false} SettleExtends<V, E>(h: Heap<V, E>, p: nat, q: nat)
    requires Linked(h.promises) && p < |h.promises| && q < |h.promises|
    ensures Extends(h.promises[q], Settle(h, p).promises[q], h.moves)
    ensures Settle(h, p).promises[p].finished
    ensures h.promises[q].continuation == Settle(h, p).promises[q].continuation
    ensures h.promises[q].started == Settle(h, p).promises[q].started
    decreases Unfinished(h.promises)
  {
    var x := h.promises[p];
    if !x.finished && x.continuation.Some? && x.propagates {
      var c := x.continuation.value;
      if !h.promises[c].finished && c != p && !Succeeded(x) {
        ClimbLinked(h, p, c);
        ClimbExtends(h, p, c, q);
        SettleExtends(Climb(h, p, c), c, q);
        SettleExtends(Climb(h, p, c), c, p);
      }
    }
  }

  // ------------------------------------------------------------ await chains

  /** A chain of unfinished tasks without repetitions, each awaited by the next, with no outcome recorded
      above the first. */
  predicate AwaitChain<V, E>(ps: seq<Promise<V, E>>, chain: seq<nat>) {
    && |chain| > 0 && chain[0] < |ps| && !ps[chain[0]].finished
    && (|chain| > 1 ==>
          && ps[chain[0]].continuation == Some(chain[1]) && ps[chain[0]].propagates && chain[0] !in chain[1..]
          && AwaitChain(ps, chain[1..]) && ps[chain[1]].completion.None?)
  }

  function Last(chain: seq<nat>): (q: nat)
    requires |chain| > 0
  {
    chain[|chain| - 1]
  }

  /** The failure of the last task of the chain goes to no other unfinished task. */
  predicate Maximal<V, E>(ps: seq<Promise<V, E>>, chain: seq<nat>)
    requires |chain| > 0
  {
    Last(chain) < |ps| &&
    var x := ps[Last(chain)];
    x.continuation.Some? && x.propagates && x.continuation.value < |ps| ==>
      ps[x.continuation.value].finished || x.continuation.value in chain
  }

  lemma {:induction false} ChainUnfinished<V, E>(ps: seq<Promise<V, E>>, chain: seq<nat>, q: nat)
    requires AwaitChain(ps, chain) && q in chain
    ensures q < |ps| && !ps[q].finished
  {
    if q != chain[0] {
      ChainUnfinished(ps, chain[1..], q);
    }
  }

  /** Whether a chain is one does not depend on its first task's outcome, nor on tasks outside it. */
  lemma {:induction false} ChainFrame<V, E>(ps: seq<Promise<V, E>>, ps': seq<Promise<V, E>>, chain: seq<nat>)
    requires AwaitChain(ps, chain) && |ps'| == |ps|
    requires ps'[chain[0]].(completion := None) == ps[chain[0]].(completion := None)
    requires forall q :: q in chain[1..] && q < |ps| ==> ps'[q] == ps[q]
    ensures AwaitChain(ps', chain)
  {
    if |chain| > 1 {
      assert chain[1] in chain[1..];
      assert forall q :: q in chain[1..][1..] ==> q in chain[1..];
      ChainFrame(ps, ps', chain[1..]);
    }
  }

  /** A failed task p that finishes below its unfinished parent c. */
  lemma ClimbFrame<V, E>(h: Heap<V, E>, p: nat, c: nat, q: nat)
    requires p < |h.promises| && c < |h.promises| && q < |h.promises| && p != c
    requires h.promises[p].completion.Some? && !h.promises[p].completion.value.Success?
    requires h.promises[c].completion.None?
    ensures var r := Climb(h, p, c).promises;
            var failure := h.promises[p].completion.value;
            && r[p] == h.promises[p].(finished := true, completion := Some(Emptied(failure, h.moves)))
            && (q != p && q != c ==> r[q] == h.promises[q])
            && r[c] == h.promises[c].(completion := Some(failure))
  {
  }

  lemma MaximalAfterClimb<V, E>(ps: seq<Promise<V, E>>, ps': seq<Promise<V, E>>, chain: seq<nat>)
    requires |chain| > 1 && Maximal(ps, chain) && |ps'| == |ps| && chain[0] < |ps|
    requires forall q :: 0 <= q < |ps| ==>
      ps'[q].continuation == ps[q].continuation && ps'[q].propagates == ps[q].propagates
    requires forall q :: 0 <= q < |ps| && ps[q].finished ==> ps'[q].finished
    requires ps'[chain[0]].finished
    ensures Maximal(ps', chain[1..])
  {
    assert forall q :: q in chain && q != chain[0] ==> q in chain[1..];
  }

  lemma ChainAfterClimb<V, E>(h: Heap<V, E>, chain: seq<nat>)
    requires AwaitChain(h.promises, chain) && |chain| > 1 && chain[1] < |h.promises| && Maximal(h.promises, chain)
    requires h.promises[chain[0]].completion.Some? && !h.promises[chain[0]].completion.value.Success?
    ensures AwaitChain(Climb(h, chain[0], chain[1]).promises, chain[1..])
    ensures Maximal(Climb(h, chain[0], chain[1]).promises, chain[1..])
  {
    var p, c, rest := chain[0], chain[1], chain[1..];
    var r := Climb(h, p, c).promises;
    assert c in rest;
    forall q | 0 <= q < |h.promises|
      ensures q != p && q != c ==> r[q] == h.promises[q]
    {
      ClimbFrame(h, p, c, q);
    }
    ClimbFrame(h, p, c, p);
    forall q | q in rest[1..] && q < |h.promises|
      ensures r[q] == h.promises[q]
    {
      assert q in rest && (|rest| > 1 ==> c !in rest[1..]);
    }
    ChainFrame(h.promises, r, rest);
    MaximalAfterClimb(h.promises, r, chain);
  }

  /** What a failure leaves at q: the last task of the chain has it in full, those below it have its kind, and
      the other promises are as they were. */
  function Failed<V, E>(h: Heap<V, E>, chain: seq<nat>, failure: Outcome<V, E>, q: nat): (x: Promise<V, E>)
    requires |chain| > 0 && q < |h.promises|
  {
    var x := h.promises[q];
    if q !in chain then x
    else x.(finished := true, completion := Some(if q == Last(chain) then failure else Emptied(failure, h.moves)))
  }

  /** The same on the outcome: finished with the kind of the failure, in full for the last task and without the
      payload for those below. */
  ghost predicate FailedAs<V, E>(h: Heap<V, E>, chain: seq<nat>, failure: Outcome<V, E>, q: nat, x: Promise<V, E>)
    requires |chain| > 0 && q < |h.promises|
  {
    if q !in chain then x == h.promises[q]
    else
      && x.finished && x.completion.Some? && SameKind(failure, x.completion.value)
      && if q == Last(chain) then x.completion.value == failure else Spent(failure, x.completion.value, h.moves)
  }

  lemma {:induction false} SettleClimbs<V, E>(h: Heap<V, E>, chain: seq<nat>, failure: Outcome<V, E>, q: nat)
    requires Linked(h.promises) && AwaitChain(h.promises, chain) && Maximal(h.promises, chain)
    requires h.promises[chain[0]].completion == Some(failure) && !failure.Success? && q < |h.promises|
    ensures Settle(h, chain[0]).promises[q] == Failed(h, chain, failure, q)
    decreases |chain|
  {
    var p := chain[0];
    if |chain| > 1 {
      var c := chain[1];
      assert c in chain[1..];
      ChainUnfinished(h.promises, chain[1..], c);
      ClimbLinked(h, p, c);
      ChainAfterClimb(h, chain);
      SettleClimbs(Climb(h, p, c), chain[1..], failure, q);
      ClimbFrame(h, p, c, q);
      assert q in chain <==> q == p || q in chain[1..];
    }
  }

  lemma FailedMeans<V, E>(h: Heap<V, E>, chain: seq<nat>, failure: Outcome<V, E>, q: nat)
    requires |chain| > 0 && q < |h.promises|
    ensures FailedAs(h, chain, failure, q, Failed(h, chain, failure, q))
  {
    EmptiedIsSpent(failure, h.moves);
  }

  /** When the first task of a chain fails, every task of the chain finishes with the same kind of failure, the
      payload comes to rest with the last one, and nothing else changes. */
  lemma FailureClimbs<V, E>(h: Heap<V, E>, chain: seq<nat>, failure: Outcome<V, E>, q: nat)
    requires Linked(h.promises) && AwaitChain(h.promises, chain) && Maximal(h.promises, chain)
    requires h.promises[chain[0]].completion == Some(failure) && !failure.Success? && q < |h.promises|
    ensures Settle(h, chain[0]).promises[q] == Failed(h, chain, failure, q)
    ensures FailedAs(h, chain, failure, q, Settle(h, chain[0]).promises[q])
  {
    SettleClimbs(h, chain, failure, q);
    FailedMeans(h, chain, failure, q);
  }

  /** The executor gets the continuation of the last task, if that awaits an Operation. */
  lemma {:induction false} FailureResumes<V, E>(h: Heap<V, E>, chain: seq<nat>, failure: Outcome<V, E>)
    requires Linked(h.promises) && AwaitChain(h.promises, chain) && Maximal(h.promises, chain)
    requires h.promises[chain[0]].completion == Some(failure) && !failure.Success?
    ensures var x := h.promises[Last(chain)];
            Settle(h, chain[0]).posted ==
            h.posted + if x.continuation.Some? && !x.propagates then [Resumed(Last(chain), x.continuation.value)]
                else []
    decreases |chain|
  {
    if |chain| > 1 {
      var p, c := chain[0], chain[1];
      assert c in chain[1..];
      ChainUnfinished(h.promises, chain[1..], c);
      ClimbLinked(h, p, c);
      ChainAfterClimb(h, chain);
      FailureResumes(Climb(h, p, c), chain[1..], failure);
      var last := Last(chain);
      assert last in chain[1..];
      ChainUnfinished(h.promises, chain[1..], last);
      ClimbFrame(h, p, c, last);
    }
  }

  /** Every unfinished task starts one maximal chain. */
  lemma {:induction false} MaximalChain<V, E>(ps: seq<Promise<V, E>>, p: nat) returns (chain: seq<nat>)
    requires Linked(ps) && p < |ps| && !ps[p].finished
    requires forall q :: 0 <= q < |ps| && !ps[q].finished && q != p ==> ps[q].completion.None?
    ensures AwaitChain(ps, chain) && chain[0] == p && Maximal(ps, chain)
    decreases Unfinished(ps)
  {
    chain := [p];
    var x := ps[p];
    if x.continuation.Some? && x.propagates {
      var c := x.continuation.value;
      if !ps[c].finished && c != p {
        UnfinishedUpdate(ps, p, x.(finished := true));
        var ps' := ps[p := x.(finished := true)];
        var above := MaximalChain(ps', c);
        forall q | q in above
          ensures q != p && q < |ps| && ps'[q] == ps[q]
        {
          ChainUnfinished(ps', above, q);
        }
        ChainFrame(ps', ps, above);
        chain := [p] + above;
        assert chain[1..] == above && Last(chain) == Last(above) && Last(above) in above;
      }
    }
  }

  /** A success finishes one promise, and hands its continuation to the executor unless that has finished. */
  lemma SuccessResumesParent<V, E>(h: Heap<V, E>, p: nat)
    requires Linked(h.promises) && p < |h.promises| && !h.promises[p].finished && Succeeded(h.promises[p])
    ensures forall q :: 0 <= q < |h.promises| && q != p ==> Settle(h, p).promises[q] == h.promises[q]
    ensures var c := h.promises[p].continuation;
            Settle(h, p).posted == h.posted
                + (if c.Some? && !(h.promises[p].propagates && (h.promises[c.value].finished || c.value == p))
                   then [Resumed(p, c.value)] else [])
  {
  }

  // ------------------------------------------------------------ sequences of calls

  datatype Op<V, E> =
    | Create
    | Return(p: nat, outcome: Outcome<V, E>)
    | AwaitTask(child: Option<nat>, awaiting: nat, executor: bool)
    | AwaitOperation(task: nat, awaiting: nat)
    | CancelAwait(awaiting: nat)
    | Start(p: nat, executor: bool)
    | Take(p: nat)                     // await_resume, or an Operation's result

  predicate Legal<V, E>(h: Heap<V, E>, op: Op<V, E>) {
    var n := |h.promises|;
    match op
    case Create => true
    case Return(p, _) => p < n
    case AwaitTask(child, awaiting, _) => awaiting < n && (child.Some? ==> child.value < n)
    case AwaitOperation(child, awaiting) => awaiting < n && child < n
    case CancelAwait(awaiting) => awaiting < n
    case Start(p, _) => p < n
    case Take(p) => p < n && h.promises[p].finished
  }

  function Apply<V, E>(h: Heap<V, E>, op: Op<V, E>): (r: Heap<V, E>)
    requires Linked(h.promises) && Legal(h, op)
  {
    match op
    case Create => h.(promises := h.promises + [Fresh()])
    case Return(p, outcome) => Complete(h, p, outcome)
    case AwaitTask(child, awaiting, executor) => Await(h, child, awaiting, executor)
    case AwaitOperation(task, awaiting) => AwaitOutcome(h, task, awaiting)
    case CancelAwait(awaiting) => if h.promises[awaiting].finished then h else Complete(h, awaiting, Canceled)
    case Start(p, executor) => StartTask(h, p, executor)
    case Take(p) => TakeOut(h, p)
  }

  function Count(s: seq<nat>, p: nat): (n: nat) {
    if s == [] then 0 else Count(s[..|s| - 1], p) + if s[|s| - 1] == p then 1 else 0
  }

  /** How often the continuation of child was handed to the executor. */
  function Resumptions(s: seq<Posted>, child: nat): (n: nat) {
    if s == [] then 0
    else Resumptions(s[..|s| - 1], child) + if s[|s| - 1].Resumed? && s[|s| - 1].child == child then 1 else 0
  }

  function Launches(s: seq<Posted>, p: nat): (n: nat) {
    if s == [] then 0 else Launches(s[..|s| - 1], p) + if s[|s| - 1] == Started(p) then 1 else 0
  }

  function Once(b: bool): nat {
    if b then 1 else 0
  }

  /** A promise has finished exactly if its outcome is recorded; it finished once; its continuation was
      resumed, and its coroutine launched, at most once. */
  ghost predicate PromiseOk<V, E>(h: Heap<V, E>, q: nat)
    requires q < |h.promises|
  {
    && (h.promises[q].finished <==> h.promises[q].completion.Some?)
    && CountsOk(h, q)
  }

  ghost predicate CountsOk<V, E>(h: Heap<V, E>, q: nat)
    requires q < |h.promises|
  {
    && Count(h.finishes, q) == Once(h.promises[q].finished)
    && Resumptions(h.posted, q) <= Once(h.promises[q].finished)
    && Launches(h.posted, q) <= Once(h.promises[q].started)
  }

  ghost predicate BoundsOk<V, E>(h: Heap<V, E>) {
    && Linked(h.promises)
    && (forall i :: 0 <= i < |h.finishes| ==> h.finishes[i] < |h.promises|)
    && (forall i :: 0 <= i < |h.posted| ==>
        (if h.posted[i].Resumed? then h.posted[i].child else h.posted[i].task) < |h.promises|)
  }

  ghost predicate Inv<V, E>(h: Heap<V, E>) {
    BoundsOk(h) && forall q :: 0 <= q < |h.promises| ==> PromiseOk(h, q)
  }

  /** Inv, except that p has recorded an outcome and is still to be marked finished. */
  ghost predicate Settling<V, E>(h: Heap<V, E>, p: nat) {
    && BoundsOk(h) && p < |h.promises| && CountsOk(h, p) && h.promises[p].completion.Some?
    && forall q :: 0 <= q < |h.promises| && q != p ==> PromiseOk(h, q)
  }

  lemma CloseCounts<V, E>(h: Heap<V, E>, p: nat)
    requires Settling(h, p) && !h.promises[p].finished
    ensures Inv(Close(h, p)) && Resumptions(Close(h, p).posted, p) == 0
  {
    var r := Close(h, p);
    forall q | 0 <= q < |h.promises|
      ensures PromiseOk(r, q)
    {
      assert q != p ==> PromiseOk(h, q);
      assert r.finishes[..|r.finishes| - 1] == h.finishes;
    }
  }

  lemma PostCounts<V, E>(h: Heap<V, E>, p: nat, c: nat)
    requires Inv(h) && p < |h.promises| && h.promises[p].finished && Resumptions(h.posted, p) == 0
    ensures Inv(Post(h, Resumed(p, c)))
  {
    var r := Post(h, Resumed(p, c));
    forall q | 0 <= q < |h.promises|
      ensures PromiseOk(r, q)
    {
      assert PromiseOk(h, q);
      assert r.posted[..|r.posted| - 1] == h.posted;
    }
  }

  lemma TakeOutKeepsInv<V, E>(h: Heap<V, E>, p: nat)
    requires Inv(h) && p < |h.promises|
    ensures Inv(TakeOut(h, p))
  {
    forall q | 0 <= q < |h.promises|
      ensures PromiseOk(TakeOut(h, p), q)
    {
      assert PromiseOk(h, q);
    }
  }

  lemma RecordIsSettling<V, E>(h: Heap<V, E>, p: nat, outcome: Outcome<V, E>)
    requires Inv(h) && p < |h.promises|
    ensures Settling(Record(h, p, outcome), p)
  {
    assert PromiseOk(h, p);
    forall q | 0 <= q < |h.promises| && q != p
      ensures PromiseOk(Record(h, p, outcome), q)
    {
      assert PromiseOk(h, q);
    }
  }

  lemma InheritCounts<V, E>(h: Heap<V, E>, p: nat, c: nat)
    requires Inv(h) && p < |h.promises| && c < |h.promises| && h.promises[p].finished && !Succeeded(h.promises[p])
    ensures Settling(Inherit(h, p, c), c)
  {
    assert PromiseOk(h, p);
    TakeOutKeepsInv(h, p);
    RecordIsSettling(TakeOut(h, p), c, h.promises[p].completion.value);
  }

  lemma {:induction false} SettleKeepsInv<V, E>(h: Heap<V, E>, p: nat)
    requires Settling(h, p)
    ensures Inv(Settle(h, p))
    decreases Unfinished(h.promises)
  {
    var x := h.promises[p];
    if !x.finished {
      CloseCounts(h, p);
      if x.continuation.Some? {
        var c := x.continuation.value;
        if !x.propagates || (!h.promises[c].finished && c != p && Succeeded(x)) {
          PostCounts(Close(h, p), p, c);
        } else if !h.promises[c].finished && c != p {
          InheritCounts(Close(h, p), p, c);
          SettleKeepsInv(Climb(h, p, c), c);
        }
      }
    }
  }

  lemma CompleteKeepsInv<V, E>(h: Heap<V, E>, p: nat, outcome: Outcome<V, E>)
    requires Inv(h) && p < |h.promises|
    ensures Inv(Complete(h, p, outcome))
  {
    RecordIsSettling(h, p, outcome);
    SettleKeepsInv(Record(h, p, outcome), p);
  }

  lemma LinkKeepsInv<V, E>(h: Heap<V, E>, c: nat, awaiting: nat, propagates: bool)
    requires Inv(h) && c < |h.promises| && awaiting < |h.promises|
    ensures Inv(Link(h, c, awaiting, propagates))
  {
    forall q | 0 <= q < |h.promises|
      ensures PromiseOk(Link(h, c, awaiting, propagates), q)
    {
      assert PromiseOk(h, q);
    }
  }

  lemma StartedKeepsInv<V, E>(h: Heap<V, E>, p: nat, launch: bool)
    requires Inv(h) && p < |h.promises| && !h.promises[p].started
    ensures Inv(if launch then Launch(h, p) else h.(promises := h.promises[p := h.promises[p].(started := true)]))
  {
    var r := if launch then Launch(h, p) else h.(promises := h.promises[p := h.promises[p].(started := true)]);
    forall q | 0 <= q < |h.promises|
      ensures PromiseOk(r, q)
    {
      assert PromiseOk(h, q);
      assert launch ==> r.posted[..|r.posted| - 1] == h.posted;
    }
  }

  lemma AwaitKeepsInv<V, E>(h: Heap<V, E>, child: Option<nat>, awaiting: nat, executor: bool)
    requires Inv(h) && awaiting < |h.promises| && (child.Some? ==> child.value < |h.promises|)
    ensures Inv(Await(h, child, awaiting, executor))
  {
    if child.None? {
      CompleteKeepsInv(h, awaiting, MakeFault(InvalidTaskUsage));
    } else {
      var c := child.value;
      var x := h.promises[c];
      assert PromiseOk(h, c);
      if x.finished {
        if !Succeeded(x) {
          InheritCounts(h, c, awaiting);
          SettleKeepsInv(Inherit(h, c, awaiting), awaiting);
        }
      } else if x.continuation.Some? {
        CompleteKeepsInv(h, awaiting, MakeFault(InvalidContinuationState));
      } else {
        LinkKeepsInv(h, c, awaiting, true);
        if !x.started && executor {
          StartedKeepsInv(Link(h, c, awaiting, true), c, true);
        } else if !x.started {
          CompleteKeepsInv(Link(h, c, awaiting, true), c, MakeFault(InvalidTaskUsage));
        }
      }
    }
  }

  lemma CreateKeepsInv<V, E>(h: Heap<V, E>)
    requires Inv(h)
    ensures Inv(h.(promises := h.promises + [Fresh()]))
  {
    var r := h.(promises := h.promises + [Fresh()]);
    forall q | 0 <= q < |r.promises|
      ensures PromiseOk(r, q)
    {
      if q < |h.promises| {
        assert PromiseOk(h, q);
      } else {
        Unmentioned(h.finishes, h.posted, q);
      }
    }
  }

  lemma {:induction false} Unmentioned(finishes: seq<nat>, posted: seq<Posted>, q: nat)
    requires forall i :: 0 <= i < |finishes| ==> finishes[i] < q
    requires forall i :: 0 <= i < |posted| ==> (if posted[i].Resumed? then posted[i].child else posted[i].task) < q
    ensures Count(finishes, q) == 0 && Resumptions(posted, q) == 0 && Launches(posted, q) == 0
    decreases |finishes| + |posted|
  {
    if finishes != [] {
      Unmentioned(finishes[..|finishes| - 1], posted, q);
    }
    if posted != [] {
      Unmentioned(finishes, posted[..|posted| - 1], q);
    }
  }

  lemma ApplyKeepsInv<V, E>(h: Heap<V, E>, op: Op<V, E>)
    requires Inv(h) && Legal(h, op)
    ensures Inv(Apply(h, op))
  {
    match op
    case Create => CreateKeepsInv(h);
    case Return(p, outcome) => CompleteKeepsInv(h, p, outcome);
    case AwaitTask(child, awaiting, executor) => AwaitKeepsInv(h, child, awaiting, executor);
    case AwaitOperation(child, awaiting) =>
      if !h.promises[child].finished && h.promises[child].continuation.Some? {
        CompleteKeepsInv(h, awaiting, MakeFault(InvalidContinuationState));
      } else if !h.promises[child].finished {
        LinkKeepsInv(h, child, awaiting, false);
      }
    case CancelAwait(awaiting) =>
      if !h.promises[awaiting].finished {
        CompleteKeepsInv(h, awaiting, Canceled);
      }
    case Take(p) => TakeOutKeepsInv(h, p);
    case Start(p, executor) =>
      if !h.promises[p].started {
        StartedKeepsInv(h, p, executor);
        if !executor {
          CompleteKeepsInv(h.(promises := h.promises[p := h.promises[p].(started := true)]), p,
              MakeFault(InvalidTaskUsage));
        }
      }
  }

  lemma ApplyExtends<V, E>(h: Heap<V, E>, op: Op<V, E>, q: nat)
    requires Linked(h.promises) && Legal(h, op) && q < |h.promises|
    ensures q < |Apply(h, op).promises| && Apply(h, op).moves == h.moves
    ensures Extends(h.promises[q], Apply(h, op).promises[q], h.moves)
  {
    match op
    case Create =>
    case Return(p, outcome) => CompleteExtends(h, p, outcome, q);
    case AwaitTask(child, awaiting, executor) => AwaitExtends(h, child, awaiting, executor, q);
    case AwaitOperation(child, awaiting) =>
      CompleteExtends(h, awaiting, MakeFault(InvalidContinuationState), q);
    case CancelAwait(awaiting) => CompleteExtends(h, awaiting, Canceled, q);
    case Start(p, executor) =>
      var h' := h.(promises := h.promises[p := h.promises[p].(started := true)]);
      CompleteExtends(h', p, MakeFault(InvalidTaskUsage), q);
    case Take(p) =>
  }

  lemma CompleteExtends<V, E>(h: Heap<V, E>, p: nat, outcome: Outcome<V, E>, q: nat)
    requires Linked(h.promises) && p < |h.promises| && q < |h.promises|
    ensures |Complete(h, p, outcome).promises| == |h.promises| && Complete(h, p, outcome).moves == h.moves
    ensures Extends(h.promises[q], Complete(h, p, outcome).promises[q], h.moves)
  {
    SettleExtends(Record(h, p, outcome), p, q);
  }

  lemma AwaitExtends<V, E>(h: Heap<V, E>, child: Option<nat>, awaiting: nat, executor: bool, q: nat)
    requires Linked(h.promises) && awaiting < |h.promises| && (child.Some? ==> child.value < |h.promises|)
    requires q < |h.promises|
    ensures var r := Await(h, child, awaiting, executor);
            |r.promises| == |h.promises| && r.moves == h.moves && Extends(h.promises[q], r.promises[q], h.moves)
  {
    if child.None? {
      CompleteExtends(h, awaiting, MakeFault(InvalidTaskUsage), q);
    } else {
      var c := child.value;
      var x := h.promises[c];
      if x.finished {
        InheritExtends(h, c, awaiting, q);
      } else if x.continuation.Some? {
        CompleteExtends(h, awaiting, MakeFault(InvalidContinuationState), q);
      } else {
        CompleteExtends(Link(h, c, awaiting, true), c, MakeFault(InvalidTaskUsage), q);
      }
    }
  }

  lemma ExtendsTransitive<V, E>(x: Promise<V, E>, y: Promise<V, E>, z: Promise<V, E>, moves: Moves)
    requires Extends(x, y, moves) && Extends(y, z, moves)
    ensures Extends(x, z, moves)
  {
  }

  lemma InheritAlone<V, E>(h: Heap<V, E>, c: nat, awaiting: nat, q: nat)
    requires c < |h.promises| && awaiting < |h.promises| && q < |h.promises|
    ensures var h' := Inherit(h, c, awaiting);
            h'.moves == h.moves && Extends(h.promises[q], h'.promises[q], h.moves)
  {
  }

  lemma InheritExtends<V, E>(h: Heap<V, E>, c: nat, awaiting: nat, q: nat)
    requires Linked(h.promises) && c < |h.promises| && awaiting < |h.promises| && q < |h.promises|
    ensures var h' := Inherit(h, c, awaiting);
            && Linked(h'.promises) && Settle(h', awaiting).moves == h.moves
            && Extends(h.promises[q], Settle(h', awaiting).promises[q], h.moves)
  {
    InheritUnfinished(h, c, awaiting);
    InheritAlone(h, c, awaiting, q);
    var h' := Inherit(h, c, awaiting);
    SettleExtends(h', awaiting, q);
    ExtendsTransitive(h.promises[q], h'.promises[q], Settle(h', awaiting).promises[q], h.moves);
  }

  ghost predicate History<V, E>(heaps: seq<Heap<V, E>>, ops: seq<Op<V, E>>) {
    && |heaps| == |ops| + 1 && heaps[0] == Heap([], [], [], heaps[0].moves)
    && forall i {:trigger ops[i]} :: 0 <= i < |ops| ==>
      Linked(heaps[i].promises) && Legal(heaps[i], ops[i]) && heaps[i + 1] == Apply(heaps[i], ops[i])
  }

  /** Over every sequence of calls each promise finishes at most once, exactly when its outcome is recorded,
      and its continuation and its start reach the executor at most once. */
  lemma {:induction false} HistoryKeepsInv<V, E>(heaps: seq<Heap<V, E>>, ops: seq<Op<V, E>>, i: nat)
    requires History(heaps, ops) && i < |heaps|
    ensures Inv(heaps[i])
  {
    if i > 0 {
      HistoryKeepsInv(heaps, ops, i - 1);
      ApplyKeepsInv(heaps[i - 1], ops[i - 1]);
    }
  }

  /** The kinds of recorded outcomes, links and finished flags never change; a payload can only be moved out. */
  lemma {:induction false} OutcomesAreWrittenOnce<V, E>(heaps: seq<Heap<V, E>>, ops: seq<Op<V, E>>, i: nat, j: nat,
      q: nat)
    requires History(heaps, ops) && i <= j < |heaps| && q < |heaps[i].promises|
    ensures q < |heaps[j].promises| && heaps[j].moves == heaps[i].moves
    ensures Extends(heaps[i].promises[q], heaps[j].promises[q], heaps[i].moves)
    decreases j
  {
    if i < j {
      OutcomesAreWrittenOnce(heaps, ops, i, j - 1, q);
      ApplyExtends(heaps[j - 1], ops[j - 1], q);
    }
  }

  // ------------------------------------------------------------ where payloads go

  /** In every reachable state, a task that fails finishes exactly the chain of unfinished tasks above it, all
      with its kind of failure, and its payload ends up with the last of them. */
  lemma CompleteClimbs<V, E>(h: Heap<V, E>, p: nat, failure: Outcome<V, E>, chain: seq<nat>, q: nat)
    requires Inv(h) && p < |h.promises| && q < |h.promises| && !failure.Success?
    requires AwaitChain(h.promises, chain) && chain[0] == p && Maximal(h.promises, chain)
    ensures Complete(h, p, failure).promises[q] == Failed(h, chain, failure, q)
    ensures FailedAs(h, chain, failure, q, Complete(h, p, failure).promises[q])
  {
    assert PromiseOk(h, p);
    var h' := Record(h, p, failure);
    forall o | o in chain[1..] && o < |h.promises|
      ensures h'.promises[o] == h.promises[o]
    {
      assert |chain| > 1 ==> p !in chain[1..];
    }
    ChainFrame(h.promises, h'.promises, chain);
    FailureClimbs(h', chain, failure, q);
  }

  lemma FinishedIgnores<V, E>(h: Heap<V, E>, p: nat, outcome: Outcome<V, E>)
    requires Inv(h) && p < |h.promises|
    ensures h.promises[p].finished ==> Complete(h, p, outcome) == h
  {
    assert PromiseOk(h, p);
  }

  /** Whatever the end of a task changes, with any outcome, lies on an await chain that starts with it. */
  lemma CompleteChangesOnlyTheChain<V, E>(h: Heap<V, E>, p: nat, outcome: Outcome<V, E>, q: nat)
    returns (chain: seq<nat>)
    requires Inv(h) && p < |h.promises| && q < |h.promises|
    requires Complete(h, p, outcome).promises[q] != h.promises[q]
    ensures AwaitChain(h.promises, chain) && chain[0] == p && q in chain
  {
    assert PromiseOk(h, p);
    FinishedIgnores(h, p, outcome);
    if outcome.Success? {
      chain := [p];
      SuccessResumesParent(Record(h, p, outcome), p);
    } else {
      forall o | 0 <= o < |h.promises| && !h.promises[o].finished
        ensures h.promises[o].completion.None?
      {
        assert PromiseOk(h, o);
      }
      chain := MaximalChain(h.promises, p);
      CompleteClimbs(h, p, outcome, chain, q);
    }
  }
}

/**
 * Task promises: write-once outcomes, and failures that climb the chain of awaiting tasks.  Promises are
 * named by their position in a table; every call runs to completion on one thread.
 */
module TaskPromises {
  import opened Options

  datatype FaultCode =
    | NoFault
    | InvalidTaskUsage
    | InvalidContinuationState
    | SchedulerDispatchFailed
    | ContinuationDispatchFailed
    | RuntimeInvariantViolation
    | UnhandledException
    | UnknownRuntimeFailure

  /** An outcome and its payload.  A payload is None once it has been moved out; the kind of the outcome
      and the code of a fault stay. */
  datatype Outcome<V, E> =
    | Success(value: Option<V>)
    | DomainError(error: Option<E>)
    | Canceled
    | Fault(code: FaultCode, message: Option<string>)

  /** Whether moving a value or a domain error out of its place leaves it there as well, as it does for a
      number, or empties the place, as it does for a string. */
  datatype Moves = Moves(valueStays: bool, errorStays: bool)

  function MakeFault<V, E>(code: FaultCode): (o: Outcome<V, E>) {
    Fault(code, Some(""))
  }

  /** What is left of an outcome whose payload has been moved out. */
  function Emptied<V, E>(o: Outcome<V, E>, moves: Moves): (r: Outcome<V, E>) {
    match o
    case Success(_) => if moves.valueStays then o else Success(None)
    case DomainError(_) => if moves.errorStays then o else DomainError(None)
    case Canceled => o
    case Fault(code, _) => Fault(code, None)
  }

  /** propagates: the continuation awaits a task directly, and fails with it; otherwise it awaits an
      Operation and receives the outcome as a value. */
  datatype Promise<V, E> = Promise(
    finished: bool, completion: Option<Outcome<V, E>>, continuation: Option<nat>, propagates: bool, started: bool)

  /** A handle given to the executor: the continuation of a finished child, or a task to start. */
  datatype Posted = Resumed(child: nat, parent: nat) | Started(task: nat)

  /** finishes is the history of the promises that were marked finished. */
  datatype Heap<V, E> = Heap(
    promises: seq<Promise<V, E>>, posted: seq<Posted>, finishes: seq<nat>, moves: Moves)

  // ------------------------------------------------------------ the specification

  predicate Linked<V, E>(ps: seq<Promise<V, E>>) {
    forall p :: 0 <= p < |ps| && ps[p].continuation.Some? ==> ps[p].continuation.value < |ps|
  }

  function Fresh<V, E>(): Promise<V, E> {
    Promise(false, None, None, false, false)
  }

  /** Recording an outcome has effect once. */
  function Record<V, E>(h: Heap<V, E>, p: nat, outcome: Outcome<V, E>): (r: Heap<V, E>)
    requires p < |h.promises|
  {
    if h.promises[p].completion.Some? then h
    else h.(promises := h.promises[p := h.promises[p].(completion := Some(outcome))])
  }

  function Close<V, E>(h: Heap<V, E>, p: nat): (r: Heap<V, E>)
    requires p < |h.promises|
  {
    h.(promises := h.promises[p := h.promises[p].(finished := true)], finishes := h.finishes + [p])
  }

  function Post<V, E>(h: Heap<V, E>, posted: Posted): (r: Heap<V, E>) {
    h.(posted := h.posted + [posted])
  }

  /** The payload of p is moved out. */
  function TakeOut<V, E>(h: Heap<V, E>, p: nat): (r: Heap<V, E>)
    requires p < |h.promises|
  {
    var c := h.promises[p].completion;
    if c.None? then h
    else h.(promises := h.promises[p := h.promises[p].(completion := Some(Emptied(c.value, h.moves)))])
  }

  /** What a failed child makes its parent record: the payload moves from the child to the parent, and is lost
      if the parent has recorded an outcome already. */
  function Inherit<V, E>(h: Heap<V, E>, child: nat, parent: nat): (r: Heap<V, E>)
    requires child < |h.promises| && parent < |h.promises|
    ensures |r.promises| == |h.promises|
  {
    var c := h.promises[child].completion;
    if c.None? || c.value.Success? then h else Record(TakeOut(h, child), parent, c.value)
  }

  function Unfinished<V, E>(ps: seq<Promise<V, E>>): (n: nat) {
    if ps == [] then 0 else Unfinished(ps[1..]) + if ps[0].finished then 0 else 1
  }

  lemma {:induction false} UnfinishedUpdate<V, E>(ps: seq<Promise<V, E>>, p: nat, x: Promise<V, E>)
    requires p < |ps|
    ensures Unfinished(ps[p := x]) + (if ps[p].finished then 0 else 1) == Unfinished(ps) + if x.finished then 0 else 1
  {
    if p == 0 {
      assert ps[0 := x][1..] == ps[1..];
    } else {
      assert ps[p := x][1..] == ps[1..][p - 1 := x];
      UnfinishedUpdate(ps[1..], p - 1, x);
    }
  }

  predicate Succeeded<V, E>(x: Promise<V, E>) {
    x.completion.Some? && x.completion.value.Success?
  }

  lemma InheritUnfinished<V, E>(h: Heap<V, E>, child: nat, parent: nat)
    requires child < |h.promises| && parent < |h.promises|
    ensures Unfinished(Inherit(h, child, parent).promises) == Unfinished(h.promises)
    ensures Linked(h.promises) ==> Linked(Inherit(h, child, parent).promises)
  {
    var h' := TakeOut(h, child);
    UnfinishedUpdate(h.promises, child, h'.promises[child]);
    assert h'.promises == h.promises[child := h'.promises[child]];
    var r := Inherit(h, child, parent);
    UnfinishedUpdate(h'.promises, parent, r.promises[parent]);
  }

  /** The failed child p finishes and its unfinished parent c takes over the failure. */
  function Climb<V, E>(h: Heap<V, E>, p: nat, c: nat): (r: Heap<V, E>)
    requires p < |h.promises| && c < |h.promises|
    ensures |r.promises| == |h.promises| && r.posted == h.posted && r.finishes == h.finishes + [p]
    ensures r.moves == h.moves
    ensures !h.promises[p].finished ==> Unfinished(r.promises) < Unfinished(h.promises)
  {
    UnfinishedUpdate(h.promises, p, h.promises[p].(finished := true));
    InheritUnfinished(Close(h, p), p, c);
    Inherit(Close(h, p), p, c)
  }

  /** MarkFinishedAndResume, with the completion handler it calls. */
  function Settle<V, E>(h: Heap<V, E>, p: nat): (r: Heap<V, E>)
    requires Linked(h.promises) && p < |h.promises|
    ensures |r.promises| == |h.promises| && r.moves == h.moves
    decreases Unfinished(h.promises)
  {
    var x := h.promises[p];
    if x.finished then h
    else if x.continuation.None? then Close(h, p)
    else
      var c := x.continuation.value;
      if !x.propagates then Post(Close(h, p), Resumed(p, c))
      else if h.promises[c].finished || c == p then Close(h, p)
      else if Succeeded(x) then Post(Close(h, p), Resumed(p, c))
      else
        var h' := Climb(h, p, c);
        assert Linked(h'.promises) by { ClimbLinked(h, p, c); }
        Settle(h', c)
  }

  lemma ClimbLinked<V, E>(h: Heap<V, E>, p: nat, c: nat)
    requires Linked(h.promises) && p < |h.promises| && c < |h.promises|
    ensures Linked(Climb(h, p, c).promises)
  {
    InheritUnfinished(Close(h, p), p, c);
  }

  // ------------------------------------------------------------ the class

  class TaskRuntime<V, E> {
    var promises: seq<Promise<V, E>>
    var posted: seq<Posted>
    const moves: Moves
    ghost var finishes: seq<nat>

    ghost function View(): (h: Heap<V, E>)
      reads this
    {
      Heap(promises, posted, finishes, moves)
    }

    constructor (moves: Moves)
      ensures View() == Heap([], [], [], moves)
    {
      this.moves := moves;
      promises, posted, finishes := [], [], [];
    }

    method SetCompletion(p: nat, outcome: Outcome<V, E>)
      requires p < |promises|
      modifies this
      ensures View() == Record(old(View()), p, outcome)
    {
      if promises[p].completion.None? {
        promises := promises[p := promises[p].(completion := Some(outcome))];
      }
    }

    method MarkFinishedAndResume(p: nat)
      requires Linked(promises) && p < |promises|
      modifies this
      ensures View() == Settle(old(View()), p)
      decreases Unfinished(promises), 0
    {
      if promises[p].finished {
        return;
      }
      UnfinishedUpdate(promises, p, promises[p].(finished := true));
      promises := promises[p := promises[p].(finished := true)];
      finishes := finishes + [p];
      if promises[p].continuation.None? {
        return;
      }
      var continuation := promises[p].continuation.value;
      if promises[p].propagates {
        SettleByHandler(old(View()), p, continuation);
        PropagateChildCompletion(p, continuation);
      } else {
        posted := posted + [Resumed(p, continuation)];
      }
    }

    /** The completion handler of a task awaited by another task. */
    method PropagateChildCompletion(child: nat, parent: nat)
      requires Linked(promises) && child < |promises| && parent < |promises|
      modifies this
      ensures View() == HandleChild(old(View()), child, parent)
      decreases Unfinished(promises), 1
    {
      if promises[parent].finished {
        return;
      }
      if Succeeded(promises[child]) {
        posted := posted + [Resumed(child, parent)];
        return;
      }
      PropagateFromChild(child, parent);
      MarkFinishedAndResume(parent);
    }

    /** Moves the failure out of the child before the parent, if it can, records it. */
    method PropagateFromChild(child: nat, parent: nat)
      requires Linked(promises) && child < |promises| && parent < |promises|
      modifies this
      ensures View() == Inherit(old(View()), child, parent)
      ensures Linked(promises) && Unfinished(promises) == old(Unfinished(promises))
    {
      InheritUnfinished(View(), child, parent);
      if promises[child].completion.None? || promises[child].completion.value.Success? {
        return;
      }
      var failure := MoveOut(child);
      SetCompletion(parent, failure);
    }

    method MoveOut(p: nat) returns (outcome: Outcome<V, E>)
      requires p < |promises| && promises[p].completion.Some?
      modifies this
      ensures outcome == old(promises[p].completion.value) && View() == TakeOut(old(View()), p)
    {
      outcome := promises[p].completion.value;
      promises := promises[p := promises[p].(completion := Some(Emptied(outcome, moves)))];
    }

    /** await_resume of a co_await of a task: the value moves into the parent coroutine. */
    method AwaitResume(child: nat) returns (value: Option<V>)
      requires child < |promises| && promises[child].finished && Succeeded(promises[child])
      modifies this
      ensures value == old(promises[child].completion.value.value) && View() == TakeOut(old(View()), child)
    {
      var outcome := MoveOut(child);
      return outcome.value;
    }

    /** co_await of a task.  resumeNow: the awaiting coroutine goes on without suspending. */
    method AwaitSuspend(child: Option<nat>, awaiting: nat, executor: bool) returns (resumeNow: bool)
      requires Linked(promises) && awaiting < |promises| && (child.Some? ==> child.value < |promises|)
      modifies this
      ensures View() == Await(old(View()), child, awaiting, executor)
      ensures resumeNow <==> child.Some? && old(promises[child.value].finished && Succeeded(promises[child.value]))
    {
      resumeNow := false;
      if child.None? {
        SetCompletion(awaiting, MakeFault(InvalidTaskUsage));
        MarkFinishedAndResume(awaiting);
        return;
      }
      var c := child.value;
      if promises[c].finished {
        if Succeeded(promises[c]) {
          return true;
        }
        PropagateFromChild(c, awaiting);
        MarkFinishedAndResume(awaiting);
        return;
      }
      if promises[c].continuation.Some? {
        SetCompletion(awaiting, MakeFault(InvalidContinuationState));
        MarkFinishedAndResume(awaiting);
        return;
      }
      promises := promises[c := promises[c].(continuation := Some(awaiting), propagates := true)];
      if !promises[c].started {
        if !executor {
          SetCompletion(c, MakeFault(InvalidTaskUsage));
          MarkFinishedAndResume(c);
          return;
        }
        promises := promises[c := promises[c].(started := true)];
        posted := posted + [Started(c)];
      }
    }

    method AwaitOperation(task: nat, awaiting: nat) returns (resumeNow: bool)
      requires Linked(promises) && awaiting < |promises| && task < |promises|
      modifies this
      ensures View() == AwaitOutcome(old(View()), task, awaiting)
      ensures resumeNow == old(promises[task].finished)
    {
      if promises[task].finished {
        return true;
      }
      if promises[task].continuation.Some? {
        SetCompletion(awaiting, MakeFault(InvalidContinuationState));
        MarkFinishedAndResume(awaiting);
        return false;
      }
      promises := promises[task := promises[task].(continuation := Some(awaiting), propagates := false)];
      return false;
    }

    method StartWithExecutor(p: nat, executor: bool) returns (launched: bool)
      requires Linked(promises) && p < |promises|
      modifies this
      ensures View() == StartTask(old(View()), p, executor)
      ensures launched == (executor && !old(promises[p].started))
    {
      if promises[p].started {
        return false;
      }
      promises := promises[p := promises[p].(started := true)];
      if !executor {
        SetCompletion(p, MakeFault(InvalidTaskUsage));
        MarkFinishedAndResume(p);
        return false;
      }
      posted := posted + [Started(p)];
      return true;
    }

    /** The callback that a cancellation token runs for a suspended co_await. */
    method CancelAwaitingContinuation(awaiting: nat)
      requires Linked(promises) && awaiting < |promises|
      modifies this
      ensures View() == if old(promises[awaiting].finished) then old(View())
          else Complete(old(View()), awaiting, Canceled)
    {
      if promises[awaiting].finished {
        return;
      }
      SetCompletion(awaiting, Canceled);
      MarkFinishedAndResume(awaiting);
    }

    /** A coroutine body that ends: co_return, then the final suspension. */
    method Return(p: nat, outcome: Outcome<V, E>)
      requires Linked(promises) && p < |promises|
      modifies this
      ensures View() == Complete(old(View()), p, outcome)
    {
      SetCompletion(p, outcome);
      MarkFinishedAndResume(p);
    }
  }

  /** One spawned task, whose outcome can be taken once. */
  class Operation<V, E> {
    const task: nat
    var resultTaken: bool

    constructor (task: nat)
      ensures this.task == task && !resultTaken
    {
      this.task := task;
      resultTaken := false;
    }

    method TryTakeResult(runtime: TaskRuntime<V, E>) returns (result: Option<Outcome<V, E>>)
      requires task < |runtime.promises|
      modifies this, runtime
      ensures old(!runtime.promises[task].finished || resultTaken) ==>
                result == None && resultTaken == old(resultTaken) && runtime.View() == old(runtime.View())
      ensures old(runtime.promises[task].finished && !resultTaken) ==>
                && resultTaken && runtime.View() == TakeOut(old(runtime.View()), task)
                && result == Some(OutcomeOf(old(runtime.promises[task])))
      ensures old(runtime.promises[task].finished && !resultTaken && runtime.promises[task].completion.Some?) ==>
                result == old(runtime.promises[task].completion)
      ensures old(runtime.promises[task].finished && !resultTaken && runtime.promises[task].completion.None?) ==>
                result == Some(Fault(InvalidTaskUsage, Some("")))
    {
      if !runtime.promises[task].finished || resultTaken {
        return None;
      }
      resultTaken := true;
      if runtime.promises[task].completion.None? {
        return Some(MakeFault(InvalidTaskUsage));
      }
      var outcome := runtime.MoveOut(task);
      return Some(outcome);
    }
  }

  function OutcomeOf<V, E>(x: Promise<V, E>): (o: Outcome<V, E>) {
    if x.completion.None? then MakeFault(InvalidTaskUsage) else x.completion.value
  }

  function HandleChild<V, E>(h: Heap<V, E>, child: nat, parent: nat): (r: Heap<V, E>)
    requires Linked(h.promises) && child < |h.promises| && parent < |h.promises|
  {
    if h.promises[parent].finished then h
    else if Succeeded(h.promises[child]) then Post(h, Resumed(child, parent))
    else
      InheritUnfinished(h, child, parent);
      Settle(Inherit(h, child, parent), parent)
  }

  lemma SettleByHandler<V, E>(h: Heap<V, E>, p: nat, c: nat)
    requires Linked(h.promises) && p < |h.promises| && !h.promises[p].finished
    requires h.promises[p].continuation == Some(c) && h.promises[p].propagates
    ensures Linked(Close(h, p).promises) && Settle(h, p) == HandleChild(Close(h, p), p, c)
  {
  }

  /** Recording an outcome and marking the promise finished. */
  function Complete<V, E>(h: Heap<V, E>, p: nat, outcome: Outcome<V, E>): (r: Heap<V, E>)
    requires Linked(h.promises) && p < |h.promises|
  {
    var h' := Record(h, p, outcome);
    assert Linked(h'.promises);
    Settle(h', p)
  }

  function Link<V, E>(h: Heap<V, E>, c: nat, awaiting: nat, propagates: bool): (r: Heap<V, E>)
    requires c < |h.promises|
  {
    h.(promises := h.promises[c := h.promises[c].(continuation := Some(awaiting), propagates := propagates)])
  }

  function Launch<V, E>(h: Heap<V, E>, c: nat): (r: Heap<V, E>)
    requires c < |h.promises|
  {
    Post(h.(promises := h.promises[c := h.promises[c].(started := true)]), Started(c))
  }

  function Await<V, E>(h: Heap<V, E>, child: Option<nat>, awaiting: nat, executor: bool): (r: Heap<V, E>)
    requires Linked(h.promises) && awaiting < |h.promises| && (child.Some? ==> child.value < |h.promises|)
  {
    if child.None? then Complete(h, awaiting, MakeFault(InvalidTaskUsage))
    else
      var c := child.value;
      var x := h.promises[c];
      if x.finished && Succeeded(x) then h
      else if x.finished then
        InheritUnfinished(h, c, awaiting);
        Settle(Inherit(h, c, awaiting), awaiting)
      else if x.continuation.Some? then Complete(h, awaiting, MakeFault(InvalidContinuationState))
      else
        var h' := Link(h, c, awaiting, true);
        assert Linked(h'.promises);
        if x.started then h' else if executor then Launch(h', c) else Complete(h', c, MakeFault(InvalidTaskUsage))
  }

  /** co_await of an Operation: the continuation gets the outcome as a value. */
  function AwaitOutcome<V, E>(h: Heap<V, E>, task: nat, awaiting: nat): (r: Heap<V, E>)
    requires Linked(h.promises) && awaiting < |h.promises| && task < |h.promises|
  {
    if h.promises[task].finished then h
    else if h.promises[task].continuation.Some? then Complete(h, awaiting, MakeFault(InvalidContinuationState))
    else Link(h, task, awaiting, false)
  }

  function StartTask<V, E>(h: Heap<V, E>, p: nat, executor: bool): (r: Heap<V, E>)
    requires Linked(h.promises) && p < |h.promises|
  {
    if h.promises[p].started then h
    else if executor then Launch(h, p)
    else
      var h' := h.(promises := h.promises[p := h.promises[p].(started := true)]);
      assert Linked(h'.promises);
      Complete(h', p, MakeFault(InvalidTaskUsage))
  }
}

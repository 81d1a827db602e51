/**
 * What each call does, in terms of the tasks it names: which of them ends, as what, who is linked to whom, and what the
 * executor is given.
 */
module TaskEffects {
  import opened Options
  import opened TaskPromises
  import opened TaskGuarantees

  /** p is finished with an outcome of the kind of o. */
  predicate EndedAs<V, E>(h: Heap<V, E>, p: nat, o: Outcome<V, E>) {
    p < |h.promises| && h.promises[p].finished && h.promises[p].completion.Some?
    && SameKind(o, h.promises[p].completion.value)
  }

  predicate Faulted<V, E>(h: Heap<V, E>, p: nat, code: FaultCode) {
    p < |h.promises| && h.promises[p].finished && h.promises[p].completion.Some?
    && h.promises[p].completion.value.Fault? && h.promises[p].completion.value.code == code
  }

  /** Completing an unfinished task ends it as that; it keeps the whole outcome if no unfinished other task is to
      fail with it. */
  lemma CompleteEnds<V, E>(h: Heap<V, E>, p: nat, o: Outcome<V, E>)
    requires Inv(h) && p < |h.promises| && !h.promises[p].finished
    ensures EndedAs(Complete(h, p, o), p, o)
    ensures o.Success? || Maximal(h.promises, [p]) ==> Complete(h, p, o).promises[p].completion == Some(o)
  {
    assert PromiseOk(h, p);
    if o.Success? {
      SuccessResumesParent(Record(h, p, o), p);
    } else {
      forall q | 0 <= q < |h.promises| && !h.promises[q].finished
        ensures h.promises[q].completion.None?
      {
        assert PromiseOk(h, q);
      }
      var chain := MaximalChain(h.promises, p);
      CompleteClimbs(h, p, o, chain, p);
      if Maximal(h.promises, [p]) {
        CompleteClimbs(h, p, o, [p], p);
      }
    }
  }

  // ------------------------------------------------------------ the calls

  /** A coroutine body that ends, and the callback of a cancellation token. */
  lemma EndingCalls<V, E>(h: Heap<V, E>, p: nat, o: Outcome<V, E>)
    requires Inv(h) && p < |h.promises| && !h.promises[p].finished
    ensures EndedAs(Apply(h, Return(p, o)), p, o)
    ensures EndedAs(Apply(h, CancelAwait(p)), p, Canceled)
  {
    CompleteEnds(h, p, o);
    CompleteEnds(h, p, Canceled);
  }

  /** A start without an executor faults the task; with one the task is given to it, once. */
  lemma StartCalls<V, E>(h: Heap<V, E>, p: nat)
    requires Inv(h) && p < |h.promises|
    ensures h.promises[p].started ==> forall executor :: Apply(h, Start(p, executor)) == h
    ensures !h.promises[p].started ==>
              && Apply(h, Start(p, true)).posted == h.posted + [Started(p)]
              && Apply(h, Start(p, true)).promises == h.promises[p := h.promises[p].(started := true)]
    ensures !h.promises[p].started && !h.promises[p].finished ==>
              Faulted(Apply(h, Start(p, false)), p, InvalidTaskUsage)
  {
    if !h.promises[p].started {
      StartedKeepsInv(h, p, false);
      if !h.promises[p].finished {
        CompleteEnds(h.(promises := h.promises[p := h.promises[p].(started := true)]), p,
            MakeFault(InvalidTaskUsage));
      }
    }
  }

  /** An await of no task, or of one that has a continuation, faults the awaiting task. */
  lemma RefusedAwaits<V, E>(h: Heap<V, E>, c: nat, awaiting: nat, executor: bool)
    requires Inv(h) && c < |h.promises| && awaiting < |h.promises| && !h.promises[awaiting].finished
    ensures Faulted(Apply(h, AwaitTask(None, awaiting, executor)), awaiting, InvalidTaskUsage)
    ensures !h.promises[c].finished && h.promises[c].continuation.Some? ==>
              && Faulted(Apply(h, AwaitTask(Some(c), awaiting, executor)), awaiting, InvalidContinuationState)
              && Faulted(Apply(h, AwaitOperation(c, awaiting)), awaiting, InvalidContinuationState)
  {
    CompleteEnds(h, awaiting, MakeFault(InvalidTaskUsage));
    CompleteEnds(h, awaiting, MakeFault(InvalidContinuationState));
  }

  /** An await of an unfinished task links the two; a task that was not started is given to the executor, and
      without one it faults. */
  lemma LinkingAwaits<V, E>(h: Heap<V, E>, c: nat, awaiting: nat, executor: bool)
    requires Inv(h) && c < |h.promises| && awaiting < |h.promises|
    requires !h.promises[c].finished && h.promises[c].continuation.None?
    ensures var r := Apply(h, AwaitOperation(c, awaiting));
            && r.promises == h.promises[c := h.promises[c].(continuation := Some(awaiting), propagates := false)]
            && r.posted == h.posted
    ensures var r := Apply(h, AwaitTask(Some(c), awaiting, executor));
            h.promises[c].started || executor ==>
              && r.promises ==
                 h.promises[c := h.promises[c].(continuation := Some(awaiting), propagates := true, started := true)]
              && r.posted == h.posted + if h.promises[c].started then [] else [Started(c)]
    ensures var r := Apply(h, AwaitTask(Some(c), awaiting, executor));
            !h.promises[c].started && !executor ==> Faulted(r, c, InvalidTaskUsage)
  {
    if !h.promises[c].started && !executor {
      LinkKeepsInv(h, c, awaiting, true);
      CompleteEnds(Link(h, c, awaiting, true), c, MakeFault(InvalidTaskUsage));
    }
  }

  /** An await of a finished task goes on at once if that succeeded, and otherwise fails like it. */
  lemma LateAwaits<V, E>(h: Heap<V, E>, c: nat, awaiting: nat, executor: bool)
    requires Inv(h) && c < |h.promises| && awaiting < |h.promises| && h.promises[c].finished
    ensures Apply(h, AwaitOperation(c, awaiting)) == h && h.promises[c].completion.Some?
    ensures Succeeded(h.promises[c]) ==> Apply(h, AwaitTask(Some(c), awaiting, executor)) == h
    ensures !Succeeded(h.promises[c]) && !h.promises[awaiting].finished ==>
              EndedAs(Apply(h, AwaitTask(Some(c), awaiting, executor)), awaiting, h.promises[c].completion.value)
  {
    assert PromiseOk(h, c) && PromiseOk(h, awaiting);
    if !Succeeded(h.promises[c]) && !h.promises[awaiting].finished {
      TakeOutKeepsInv(h, c);
      CompleteEnds(TakeOut(h, c), awaiting, h.promises[c].completion.value);
      assert Inherit(h, c, awaiting) == Record(TakeOut(h, c), awaiting, h.promises[c].completion.value);
    }
  }

  /** A fault that climbs stays a fault with its code below, without its message, and is the same fault above. */
  lemma FaultClimbs<V, E>(h: Heap<V, E>, code: FaultCode, message: string)
    requires h.promises == [Promise(false, None, Some(1), true, true), Fresh()] && Inv(h)
    ensures var r := Apply(h, Return(0, Fault(code, Some(message)))).promises;
            && |r| == 2
            && r[0].completion == Some(Fault(code, None)) && r[1].completion == Some(Fault(code, Some(message)))
  {
    var failure: Outcome<V, E> := Fault(code, Some(message));
    CompleteClimbs(h, 0, failure, [0, 1], 0);
    CompleteClimbs(h, 0, failure, [0, 1], 1);
  }
}

/**
 * Where the payload of a failure is: an await of a failed task delivers it if and only if nobody was awaiting that
 * task when it failed and nobody has taken the payload since.
 */
module TaskPayloads {
  import opened Options
  import opened TaskPromises
  import opened TaskGuarantees

  /** A call that takes the payload of q: an await of q once it has failed, or the delivery of its result. */
  predicate Takes<V, E>(h: Heap<V, E>, op: Op<V, E>, q: nat)
    requires q < |h.promises|
  {
    match op
    case AwaitTask(child, _, _) => child == Some(q) && h.promises[q].finished && !Succeeded(h.promises[q])
    case Take(p) => p == q
    case _ => false
  }

  /** A finished promise is touched by no settlement. */
  lemma {:induction false} SettleSparesFinished<V, E>(h: Heap<V, E>, p: nat, q: nat)
    requires Linked(h.promises) && p < |h.promises| && q < |h.promises| && q != p && h.promises[q].finished
    ensures Settle(h, p).promises[q] == h.promises[q]
    decreases Unfinished(h.promises)
  {
    var x := h.promises[p];
    if !x.finished && x.continuation.Some? && x.propagates {
      var c := x.continuation.value;
      if !h.promises[c].finished && c != p && !Succeeded(x) {
        ClimbLinked(h, p, c);
        SettleSparesFinished(Climb(h, p, c), c, q);
      }
    }
  }

  lemma CompleteSparesFinished<V, E>(h: Heap<V, E>, p: nat, outcome: Outcome<V, E>, q: nat)
    requires Inv(h) && p < |h.promises| && q < |h.promises| && h.promises[q].finished
    ensures Complete(h, p, outcome).promises[q] == h.promises[q]
  {
    assert PromiseOk(h, q);
    if p != q {
      SettleSparesFinished(Record(h, p, outcome), p, q);
    }
  }

  /** The outcome of a finished task loses its payload to exactly the calls that take it. */
  lemma PayloadStep<V, E>(h: Heap<V, E>, op: Op<V, E>, q: nat)
    requires Inv(h) && Legal(h, op) && q < |h.promises| && h.promises[q].finished
    ensures h.promises[q].completion.Some? && q < |Apply(h, op).promises|
    ensures Apply(h, op).promises[q].finished
    ensures Apply(h, op).promises[q].completion ==
            (if Takes(h, op, q) then TakeOut(h, q) else h).promises[q].completion
  {
    assert PromiseOk(h, q);
    match op
    case Create =>
    case Return(p, outcome) => CompleteSparesFinished(h, p, outcome, q);
    case AwaitTask(child, awaiting, executor) => AwaitPayload(h, child, awaiting, executor, q);
    case AwaitOperation(child, awaiting) =>
      CompleteSparesFinished(h, awaiting, MakeFault(InvalidContinuationState), q);
    case CancelAwait(awaiting) => CompleteSparesFinished(h, awaiting, Canceled, q);
    case Start(p, executor) =>
      if !h.promises[p].started {
        StartedKeepsInv(h, p, false);
        var h' := h.(promises := h.promises[p := h.promises[p].(started := true)]);
        CompleteSparesFinished(h', p, MakeFault(InvalidTaskUsage), q);
      }
    case Take(p) =>
  }

  lemma AwaitPayload<V, E>(h: Heap<V, E>, child: Option<nat>, awaiting: nat, executor: bool, q: nat)
    requires Inv(h) && awaiting < |h.promises| && (child.Some? ==> child.value < |h.promises|)
    requires q < |h.promises| && h.promises[q].finished
    ensures var r := Await(h, child, awaiting, executor);
            var taken := child == Some(q) && !Succeeded(h.promises[q]);
            |r.promises| == |h.promises| && r.promises[q] == if taken then TakeOut(h, q).promises[q] else h.promises[q]
  {
    assert PromiseOk(h, q);
    if child.None? {
      CompleteSparesFinished(h, awaiting, MakeFault(InvalidTaskUsage), q);
    } else {
      var c := child.value;
      var x := h.promises[c];
      assert PromiseOk(h, c) && PromiseOk(h, awaiting);
      if x.finished && !Succeeded(x) {
        InheritUnfinished(h, c, awaiting);
        if q != awaiting {
          SettleSparesFinished(Inherit(h, c, awaiting), awaiting, q);
        }
      } else if !x.finished && x.continuation.Some? {
        CompleteSparesFinished(h, awaiting, MakeFault(InvalidContinuationState), q);
      } else if !x.finished {
        LinkKeepsInv(h, c, awaiting, true);
        CompleteSparesFinished(Link(h, c, awaiting, true), c, MakeFault(InvalidTaskUsage), q);
      }
    }
  }

  /** No call between i and j takes the payload of q. */
  ghost predicate Untaken<V, E>(heaps: seq<Heap<V, E>>, ops: seq<Op<V, E>>, i: nat, j: nat, q: nat)
    requires History(heaps, ops) && j < |heaps|
  {
    forall k :: i <= k < j && q < |heaps[k].promises| ==> !Takes(heaps[k], ops[k], q)
  }

  lemma PayloadChange<V, E>(h: Heap<V, E>, h': Heap<V, E>, op: Op<V, E>, q: nat, o: Outcome<V, E>, untaken: bool)
    requires Inv(h) && Legal(h, op) && q < |h.promises| && h.promises[q].finished && h' == Apply(h, op)
    requires h.promises[q].completion == Some(if untaken then o else Emptied(o, h.moves))
    ensures q < |h'.promises| && h'.moves == h.moves && h'.promises[q].finished
    ensures h'.promises[q].completion == Some(if untaken && !Takes(h, op, q) then o else Emptied(o, h.moves))
  {
    PayloadStep(h, op, q);
    ApplyExtends(h, op, q);
  }

  /** From the moment a task has finished, it keeps its payload exactly as long as no call takes it. */
  lemma {:induction false} PayloadIffUntaken<V, E>(heaps: seq<Heap<V, E>>, ops: seq<Op<V, E>>, i: nat, j: nat, q: nat)
    requires History(heaps, ops) && i <= j < |heaps| && q < |heaps[i].promises| && heaps[i].promises[q].finished
    ensures q < |heaps[j].promises| && heaps[i].promises[q].completion.Some? && heaps[j].moves == heaps[i].moves
    ensures heaps[j].promises[q].finished
    ensures var o := heaps[i].promises[q].completion.value;
            heaps[j].promises[q].completion ==
            Some(if Untaken(heaps, ops, i, j, q) then o else Emptied(o, heaps[i].moves))
    decreases j
  {
    HistoryKeepsInv(heaps, ops, i);
    assert PromiseOk(heaps[i], q);
    if i < j {
      var o := heaps[i].promises[q].completion.value;
      PayloadIffUntaken(heaps, ops, i, j - 1, q);
      HistoryKeepsInv(heaps, ops, j - 1);
      PayloadChange(heaps[j - 1], heaps[j], ops[j - 1], q, o, Untaken(heaps, ops, i, j - 1, q));
      UntakenStep(heaps, ops, i, j, q);
    }
  }

  lemma UntakenStep<V, E>(heaps: seq<Heap<V, E>>, ops: seq<Op<V, E>>, i: nat, j: nat, q: nat)
    requires History(heaps, ops) && i < j < |heaps| && q < |heaps[j - 1].promises|
    ensures Untaken(heaps, ops, i, j, q) <==>
            Untaken(heaps, ops, i, j - 1, q) && !Takes(heaps[j - 1], ops[j - 1], q)
  {
  }

  /** An await of a finished failed task c finishes the awaiting task and the chain above it, and what the last of
      them gets is what c has left. */
  lemma AwaitDelivers<V, E>(h: Heap<V, E>, c: nat, awaiting: nat, executor: bool, chain: seq<nat>)
    requires Inv(h) && c < |h.promises| && awaiting < |h.promises| && h.promises[c].finished
    requires !Succeeded(h.promises[c])
    requires AwaitChain(h.promises, chain) && chain[0] == awaiting && Maximal(h.promises, chain)
    ensures var r := Await(h, Some(c), awaiting, executor).promises;
            && |r| == |h.promises| && Last(chain) < |r|
            && r[Last(chain)].finished && r[Last(chain)].completion == h.promises[c].completion
  {
    assert PromiseOk(h, c) && PromiseOk(h, awaiting);
    var last := Last(chain);
    assert last in chain;
    ChainUnfinished(h.promises, chain, last);
    InheritChain(h, c, awaiting, chain);
    FailureClimbs(Inherit(h, c, awaiting), chain, h.promises[c].completion.value, last);
  }

  lemma InheritChain<V, E>(h: Heap<V, E>, c: nat, awaiting: nat, chain: seq<nat>)
    requires Linked(h.promises) && c < |h.promises| && awaiting < |h.promises| && h.promises[c].finished
    requires AwaitChain(h.promises, chain) && chain[0] == awaiting && Maximal(h.promises, chain)
    ensures var h' := Inherit(h, c, awaiting);
            Linked(h'.promises) && AwaitChain(h'.promises, chain) && Maximal(h'.promises, chain)
  {
    InheritUnfinished(h, c, awaiting);
    var h' := Inherit(h, c, awaiting);
    forall o | o in chain && o < |h.promises|
      ensures o != c && (o in chain[1..] ==> o != awaiting)
    {
      ChainUnfinished(h.promises, chain, o);
      assert |chain| > 1 ==> awaiting !in chain[1..];
    }
    ChainFrame(h.promises, h'.promises, chain);
    InheritKeepsLinks(h, c, awaiting, Last(chain));
  }

  lemma InheritKeepsLinks<V, E>(h: Heap<V, E>, c: nat, awaiting: nat, q: nat)
    requires c < |h.promises| && awaiting < |h.promises| && q < |h.promises|
    ensures var x, y := h.promises[q], Inherit(h, c, awaiting).promises[q];
            y.continuation == x.continuation && y.propagates == x.propagates
    ensures forall o :: 0 <= o < |h.promises| ==> Inherit(h, c, awaiting).promises[o].finished == h.promises[o].finished
  {
  }

  /** So an await of a finished failed task hands on what that task had at any earlier moment after its end, if and
      only if nobody has taken it since. */
  lemma AwaitDeliversWhatIsLeft<V, E>(heaps: seq<Heap<V, E>>, ops: seq<Op<V, E>>, i: nat, j: nat,
                                      c: nat, awaiting: nat, executor: bool, chain: seq<nat>)
    requires History(heaps, ops) && i <= j < |ops| && ops[j] == AwaitTask(Some(c), awaiting, executor)
    requires c < |heaps[i].promises| && heaps[i].promises[c].finished && !Succeeded(heaps[i].promises[c])
    requires awaiting < |heaps[j].promises|
    requires AwaitChain(heaps[j].promises, chain) && chain[0] == awaiting && Maximal(heaps[j].promises, chain)
    ensures heaps[i].promises[c].completion.Some? && Last(chain) < |heaps[j + 1].promises|
    ensures var o := heaps[i].promises[c].completion.value;
            heaps[j + 1].promises[Last(chain)].completion ==
            Some(if Untaken(heaps, ops, i, j, c) then o else Emptied(o, heaps[i].moves))
  {
    PayloadIffUntaken(heaps, ops, i, j, c);
    HistoryKeepsInv(heaps, ops, j);
    assert heaps[j + 1] == Apply(heaps[j], ops[j]) == Await(heaps[j], Some(c), awaiting, executor);
    AwaitDelivers(heaps[j], c, awaiting, executor, chain);
  }

  // ------------------------------------------------------------ from the end of a task

  /** The task that a call ends first, and with which outcome. */
  datatype Ending<V, E> = Ending(task: nat, outcome: Outcome<V, E>)

  /** What a call ends, if its task is still unfinished. */
  function Ends<V, E>(h: Heap<V, E>, op: Op<V, E>): (e: Option<Ending<V, E>>)
    requires Legal(h, op)
  {
    match op
    case Create => None
    case Return(p, outcome) => Some(Ending(p, outcome))
    case AwaitTask(None, awaiting, _) => Some(Ending(awaiting, MakeFault(InvalidTaskUsage)))
    case AwaitTask(Some(c), awaiting, executor) =>
      var x := h.promises[c];
      if x.finished then
        if x.completion.None? || Succeeded(x) then None else Some(Ending(awaiting, x.completion.value))
      else if x.continuation.Some? then Some(Ending(awaiting, MakeFault(InvalidContinuationState)))
      else if x.started || executor then None
      else Some(Ending(c, MakeFault(InvalidTaskUsage)))
    case AwaitOperation(task, awaiting) =>
      var x := h.promises[task];
      if x.finished || x.continuation.None? then None else Some(Ending(awaiting, MakeFault(InvalidContinuationState)))
    case CancelAwait(awaiting) => Some(Ending(awaiting, Canceled))
    case Start(p, executor) =>
      if h.promises[p].started || executor then None else Some(Ending(p, MakeFault(InvalidTaskUsage)))
    case Take(_) => None
  }

  /** What a call does before it ends a task: an await links the task it waits for, or takes the failure out of it,
      and a start marks its task. */
  function Prepared<V, E>(h: Heap<V, E>, op: Op<V, E>): (r: Heap<V, E>)
    requires Legal(h, op)
    ensures |r.promises| == |h.promises| && r.moves == h.moves
    ensures forall q :: 0 <= q < |h.promises| ==> r.promises[q].finished == h.promises[q].finished
  {
    match op
    case AwaitTask(Some(c), awaiting, _) =>
      var x := h.promises[c];
      if x.finished then TakeOut(h, c) else if x.continuation.Some? then h else Link(h, c, awaiting, true)
    case Start(p, _) => h.(promises := h.promises[p := h.promises[p].(started := true)])
    case _ => h
  }

  /** Every call that ends a task prepares and then completes it. */
  lemma ApplyCompletes<V, E>(h: Heap<V, E>, op: Op<V, E>)
    requires Inv(h) && Legal(h, op) && Ends(h, op).Some?
    ensures Inv(Prepared(h, op)) && Ends(h, op).value.task < |h.promises|
    ensures var e := Ends(h, op).value;
            Apply(h, op) == if op.CancelAwait? && h.promises[e.task].finished then h
                            else Complete(Prepared(h, op), e.task, e.outcome)
  {
    match op
    case AwaitTask(Some(c), awaiting, executor) =>
      var x := h.promises[c];
      assert PromiseOk(h, c);
      if x.finished {
        TakeOutKeepsInv(h, c);
      } else if x.continuation.None? {
        LinkKeepsInv(h, c, awaiting, true);
      }
    case Start(p, executor) => StartedKeepsInv(h, p, false);
    case _ =>
  }

  lemma NothingEnds<V, E>(h: Heap<V, E>, op: Op<V, E>, c: nat)
    requires Inv(h) && Legal(h, op) && Ends(h, op).None? && c < |h.promises|
    ensures c < |Apply(h, op).promises| && Apply(h, op).promises[c].finished == h.promises[c].finished
  {
    if op.AwaitTask? && op.child.Some? && h.promises[op.child.value].finished {
      assert PromiseOk(h, op.child.value);
    }
  }

  /** A call that finishes c is one of those, and the task it ends had not finished. */
  lemma FinishedByEnding<V, E>(h: Heap<V, E>, op: Op<V, E>, c: nat)
    requires Inv(h) && Legal(h, op) && c < |h.promises| && !h.promises[c].finished
    requires c < |Apply(h, op).promises| && Apply(h, op).promises[c].finished
    ensures Ends(h, op).Some? && Ends(h, op).value.task < |h.promises|
    ensures !h.promises[Ends(h, op).value.task].finished
  {
    if Ends(h, op).None? {
      NothingEnds(h, op, c);
    } else {
      ApplyCompletes(h, op);
      var e := Ends(h, op).value;
      FinishedIgnores(Prepared(h, op), e.task, e.outcome);
    }
  }

  /** The chain of unfinished tasks that a call ends: from its first task up to one whose failure goes no further. */
  predicate EndsChain<V, E>(h: Heap<V, E>, op: Op<V, E>, chain: seq<nat>)
    requires Legal(h, op)
  {
    && Ends(h, op).Some? && AwaitChain(Prepared(h, op).promises, chain)
    && chain[0] == Ends(h, op).value.task && Maximal(Prepared(h, op).promises, chain)
  }

  /** There is one for every call that finishes a task. */
  lemma EndedChain<V, E>(h: Heap<V, E>, op: Op<V, E>, c: nat) returns (chain: seq<nat>)
    requires Inv(h) && Legal(h, op) && c < |h.promises| && !h.promises[c].finished
    requires c < |Apply(h, op).promises| && Apply(h, op).promises[c].finished
    ensures EndsChain(h, op, chain)
  {
    FinishedByEnding(h, op, c);
    ApplyCompletes(h, op);
    var h' := Prepared(h, op);
    forall q | 0 <= q < |h'.promises| && !h'.promises[q].finished
      ensures h'.promises[q].completion.None?
    {
      assert PromiseOk(h', q);
    }
    chain := MaximalChain(h'.promises, Ends(h, op).value.task);
  }

  /** A task that ends with a failure keeps its payload if and only if it is the last of that chain. */
  lemma PayloadAtTheEnd<V, E>(h: Heap<V, E>, op: Op<V, E>, chain: seq<nat>, c: nat)
    requires Inv(h) && Legal(h, op) && EndsChain(h, op, chain) && !Ends(h, op).value.outcome.Success?
    requires c < |h.promises| && !h.promises[c].finished
    requires c < |Apply(h, op).promises| && Apply(h, op).promises[c].finished
    ensures c in chain && Apply(h, op).moves == h.moves
    ensures var o := Ends(h, op).value.outcome;
            Apply(h, op).promises[c].completion == Some(if c == Last(chain) then o else Emptied(o, h.moves))
  {
    FinishedByEnding(h, op, c);
    ApplyCompletes(h, op);
    ApplyExtends(h, op, c);
    var e := Ends(h, op).value;
    CompleteClimbs(Prepared(h, op), e.task, e.outcome, chain, c);
  }

  lemma PayloadAfterTheEnd<V, E>(heaps: seq<Heap<V, E>>, ops: seq<Op<V, E>>, k: nat, chain: seq<nat>, c: nat)
    requires History(heaps, ops) && k < |ops| && c < |heaps[k].promises| && !heaps[k].promises[c].finished
    requires c < |heaps[k + 1].promises| && heaps[k + 1].promises[c].finished
    requires EndsChain(heaps[k], ops[k], chain) && !Ends(heaps[k], ops[k]).value.outcome.Success?
    ensures heaps[k + 1].moves == heaps[k].moves && !Succeeded(heaps[k + 1].promises[c])
    ensures var o := Ends(heaps[k], ops[k]).value.outcome;
            heaps[k + 1].promises[c].completion == Some(if c == Last(chain) then o else Emptied(o, heaps[k].moves))
  {
    HistoryKeepsInv(heaps, ops, k);
    var h, op, h' := heaps[k], ops[k], heaps[k + 1];
    assert Legal(h, op) && h' == Apply(h, op);
    PayloadAtTheEnd(h, op, chain, c);
  }

  /** The exact condition.  The task c ended at call k, with a failure; its payload is moved up the chain of tasks
      that were awaiting it.  A later await of c delivers that payload, to the last task of the chain above the
      awaiting one, if and only if c was the last of its own chain and nobody has taken the payload since. */
  lemma AwaitDeliversExactly<V, E>(heaps: seq<Heap<V, E>>, ops: seq<Op<V, E>>, k: nat, j: nat, c: nat,
                                   awaiting: nat, executor: bool, below: seq<nat>, chain: seq<nat>)
    requires History(heaps, ops) && k < j < |ops| && ops[j] == AwaitTask(Some(c), awaiting, executor)
    requires c < |heaps[k].promises| && !heaps[k].promises[c].finished
    requires c < |heaps[k + 1].promises| && heaps[k + 1].promises[c].finished
    requires EndsChain(heaps[k], ops[k], below) && !Ends(heaps[k], ops[k]).value.outcome.Success?
    requires awaiting < |heaps[j].promises|
    requires AwaitChain(heaps[j].promises, chain) && chain[0] == awaiting && Maximal(heaps[j].promises, chain)
    ensures Last(chain) < |heaps[j + 1].promises|
    ensures var o := Ends(heaps[k], ops[k]).value.outcome;
            heaps[j + 1].promises[Last(chain)].completion ==
            Some(if c == Last(below) && Untaken(heaps, ops, k + 1, j, c) then o else Emptied(o, heaps[k].moves))
    ensures var o := Ends(heaps[k], ops[k]).value.outcome;
            Emptied(o, heaps[k].moves) != o ==>
              (heaps[j + 1].promises[Last(chain)].completion == Some(o) <==>
               c == Last(below) && Untaken(heaps, ops, k + 1, j, c))
  {
    PayloadAfterTheEnd(heaps, ops, k, below, c);
    AwaitDeliversWhatIsLeft(heaps, ops, k + 1, j, c, awaiting, executor, chain);
  }

  /** A promise that has failed with the given error. */
  function WithError<V, E>(error: Option<E>): (f: Promise<V, E>) {
    Promise(true, Some(DomainError(error)), None, false, false)
  }

  /** The second of three promises awaits the first, which has failed. */
  lemma AwaitOfFailed<V, E>(h: Heap<V, E>, error: Option<E>, awaiting: nat, third: Promise<V, E>)
    requires h.moves == Moves(false, false) && |h.promises| == 3 && 1 <= awaiting <= 2
    requires h.promises[0] == WithError(error) && h.promises[awaiting] == Fresh() && h.promises[3 - awaiting] == third
    requires third.continuation.None?
    ensures Linked(h.promises)
    ensures var h' := Apply(h, AwaitTask(Some(0), awaiting, true));
            && h'.promises == h.promises[0 := WithError(None)][awaiting := WithError(error)]
            && h'.posted == h.posted && h'.finishes == h.finishes + [awaiting]
  {
    var h1 := Inherit(h, 0, awaiting);
    assert h1.promises == h.promises[0 := WithError(None)]
                          [awaiting := Fresh<V, E>().(completion := Some(DomainError(error)))];
    assert Settle(h1, awaiting) == Close(h1, awaiting);
  }

  lemma OneMore<V, E>(heaps: seq<Heap<V, E>>, ops: seq<Op<V, E>>, h: Heap<V, E>, op: Op<V, E>, h': Heap<V, E>)
    requires History(heaps, ops) && heaps[|ops|] == h && Linked(h.promises) && Legal(h, op) && h' == Apply(h, op)
    ensures History(heaps + [h'], ops + [op]) && (heaps + [h'])[|ops| + 1] == h'
  {
    var more, also := heaps + [h'], ops + [op];
    forall i | 0 <= i < |also|
      ensures Linked(more[i].promises) && Legal(more[i], also[i]) && more[i + 1] == Apply(more[i], also[i])
    {
      if i < |ops| {
        assert also[i] == ops[i] && more[i] == heaps[i] && more[i + 1] == heaps[i + 1];
      }
    }
  }

  lemma ThreeFresh<V, E>(m: Moves) returns (heaps: seq<Heap<V, E>>, ops: seq<Op<V, E>>)
    ensures History(heaps, ops) && |ops| == 3 && heaps[3] == Heap([Fresh(), Fresh(), Fresh()], [], [], m)
  {
    var f: Promise<V, E> := Fresh();
    var h0, h1: Heap<V, E> := Heap([], [], [], m), Heap([f], [], [], m);
    var h2, h3: Heap<V, E> := Heap([f, f], [], [], m), Heap([f, f, f], [], [], m);
    heaps, ops := [h0], [];
    OneMore(heaps, ops, h0, Create, h1);
    heaps, ops := heaps + [h1], ops + [Create];
    OneMore(heaps, ops, h1, Create, h2);
    heaps, ops := heaps + [h2], ops + [Create];
    OneMore(heaps, ops, h2, Create, h3);
    heaps, ops := heaps + [h3], ops + [Create];
  }

  /** Two parents that await one failed task in turn, when moving an error empties its place: the first gets the
      error, the second an error without content. */
  lemma SecondAwaiterFindsNothing<V, E>(error: E) returns (heaps: seq<Heap<V, E>>, ops: seq<Op<V, E>>)
    ensures History(heaps, ops) && |ops| == 6 && |heaps[6].promises| == 3
    ensures ops[3..] == [Return(0, DomainError(Some(error))), AwaitTask(Some(0), 1, true), AwaitTask(Some(0), 2, true)]
    ensures heaps[6].promises[1].completion == Some(DomainError(Some(error)))
    ensures heaps[6].promises[2].completion == Some(DomainError(None))
  {
    heaps, ops := ThreeFresh(Moves(false, false));
    FirstFails<V, E>(error);
    var h4 := Apply(heaps[3], Return(0, DomainError(Some(error))));
    OneMore(heaps, ops, heaps[3], Return(0, DomainError(Some(error))), h4);
    heaps, ops := heaps + [h4], ops + [Return(0, DomainError(Some(error)))];
    AwaitOfFailed(h4, Some(error), 1, Fresh());
    var h5 := Apply(h4, AwaitTask(Some(0), 1, true));
    OneMore(heaps, ops, h4, AwaitTask(Some(0), 1, true), h5);
    heaps, ops := heaps + [h5], ops + [AwaitTask(Some(0), 1, true)];
    AwaitOfFailed(h5, None, 2, WithError(Some(error)));
    var h6 := Apply(h5, AwaitTask(Some(0), 2, true));
    OneMore(heaps, ops, h5, AwaitTask(Some(0), 2, true), h6);
    heaps, ops := heaps + [h6], ops + [AwaitTask(Some(0), 2, true)];
  }

  lemma FirstFails<V, E>(error: E)
    ensures var f: Promise<V, E> := Fresh();
            var h := Heap([f, f, f], [], [], Moves(false, false));
            Linked(h.promises) && Apply(h, Return(0, DomainError(Some(error)))) ==
            h.(promises := [WithError(Some(error)), f, f], finishes := [0])
  {
    var f: Promise<V, E> := Fresh();
    var h := Heap([f, f, f], [], [], Moves(false, false));
    var h1 := Record(h, 0, DomainError(Some(error)));
    assert h1.promises == [f.(completion := Some(DomainError(Some(error)))), f, f];
    assert Close(h1, 0).promises == [WithError(Some(error)), f, f];
  }

  /** A parent that awaits a task before it fails, and one that awaits it afterwards: the failure climbs to the first
      as the task finishes, and nobody takes anything after that, but the second gets an error without content. */
  lemma LateAwaiterFindsNothing<V, E>(error: E) returns (heaps: seq<Heap<V, E>>, ops: seq<Op<V, E>>)
    ensures History(heaps, ops) && |ops| == 6 && |heaps[6].promises| == 3
    ensures ops[3..] == [AwaitTask(Some(0), 1, true), Return(0, DomainError(Some(error))), AwaitTask(Some(0), 2, true)]
    ensures Untaken(heaps, ops, 5, 5, 0)
    ensures heaps[6].promises[1].completion == Some(DomainError(Some(error)))
    ensures heaps[6].promises[2].completion == Some(DomainError(None))
  {
    heaps, ops := ThreeFresh(Moves(false, false));
    var h4 := Apply(heaps[3], AwaitTask(Some(0), 1, true));
    OneMore(heaps, ops, heaps[3], AwaitTask(Some(0), 1, true), h4);
    heaps, ops := heaps + [h4], ops + [AwaitTask(Some(0), 1, true)];
    AwaitedFails<V, E>(h4, error);
    var h5 := Apply(h4, Return(0, DomainError(Some(error))));
    OneMore(heaps, ops, h4, Return(0, DomainError(Some(error))), h5);
    heaps, ops := heaps + [h5], ops + [Return(0, DomainError(Some(error)))];
    LateAwait(h5, error);
    var h6 := Apply(h5, AwaitTask(Some(0), 2, true));
    OneMore(heaps, ops, h5, AwaitTask(Some(0), 2, true), h6);
    heaps, ops := heaps + [h6], ops + [AwaitTask(Some(0), 2, true)];
  }

  /** The first of three promises, awaited by the second, and started. */
  function Awaited<V, E>(): (f: Promise<V, E>) {
    Promise(false, None, Some(1), true, true)
  }

  lemma AwaitedFails<V, E>(h: Heap<V, E>, error: E)
    requires h.promises == [Awaited(), Fresh(), Fresh()] && h.moves == Moves(false, false)
    ensures Linked(h.promises)
    ensures var h' := Apply(h, Return(0, DomainError(Some(error))));
            && h'.promises == [Awaited().(finished := true, completion := Some(DomainError(None))),
                               WithError(Some(error)), Fresh()]
            && h'.moves == h.moves
  {
    var failure: Outcome<V, E> := DomainError(Some(error));
    var h1 := Record(h, 0, failure);
    assert h1.promises == [Awaited().(completion := Some(failure)), Fresh(), Fresh()];
    var h2 := Climb(h1, 0, 1);
    assert h2.promises == [Awaited().(finished := true, completion := Some(DomainError(None))),
                           Fresh().(completion := Some(failure)), Fresh()];
    ClimbLinked(h1, 0, 1);
    assert Settle(h1, 0) == Settle(h2, 1) == Close(h2, 1);
  }

  lemma LateAwait<V, E>(h: Heap<V, E>, error: E)
    requires h.promises == [Awaited().(finished := true, completion := Some(DomainError(None))),
                            WithError(Some(error)), Fresh()]
    requires h.moves == Moves(false, false)
    ensures Linked(h.promises)
    ensures var r := Apply(h, AwaitTask(Some(0), 2, true)).promises;
            r == h.promises[2 := WithError(None)]
  {
    var h1 := Inherit(h, 0, 2);
    assert h1.promises == h.promises[2 := Fresh<V, E>().(completion := Some(DomainError(None)))];
    assert Settle(h1, 2) == Close(h1, 2);
  }
}

/**
 * The thread pool as a step system.  Every lock section of a queue or of the timer heap is one step, and
 * so are a load and an increment of the wake generation and the system call that wakes a sleeper.
 */
module PoolSteps {
  import opened PoolQueue

  /** Where a worker is in its loop.  A scan has k queues behind it. */
  datatype Worker =
    | Scanning(k: nat)                 // first TryDequeueAny
    | Observing                        // about to load the wake generation
    | Rescanning(seen: nat, k: nat)    // second TryDequeueAny, with the generation seen
    | Drowsy(seen: nat)                // found nothing, about to wait
    | Asleep(seen: nat)
    | Running(job: Work)

  /** An Execute call that has chosen its queue and not yet pushed. */
  datatype Call = Call(item: Work, queue: nat)

  /** An entry of the timer heap; a non-empty item knows its time as well. */
  datatype Timed = Timed(at: nat, item: Work)

  /** queues[0] is the injection queue, queues[1 + w] that of worker w.  owed[q] holds the items that
      Execute calls have pushed on q without having bumped the generation yet; bumped counts the notifications
      that bumped it and have not woken anybody yet.  ready is what the timer thread took from the heap and still has
      to pass to Execute.  taken, discarded and submitted are history, and blanks counts the empty items submitted. */
  datatype State = State(
    queues: seq<seq<Work>>, workers: seq<Worker>, generation: nat, owed: seq<multiset<Work>>, bumped: nat,
    calls: seq<Call>, heap: seq<Timed>, ready: seq<Work>, clock: nat,
    taken: seq<Work>, discarded: seq<Work>, submitted: seq<Work>, blanks: nat)

  datatype Step =
    | Submit(item: Work, q: nat)          // Execute, or ExecuteAt for a time that has come
    | SubmitLater(item: Work, at: nat)    // ExecuteAt
    | Push(c: nat)
    | Bump(q: nat, item: Work)            // NotifyOne after pushing item on q
    | BumpAll                             // NotifyAll of CancelAll
    | Wake(w: nat)                        // the wake-up reaches worker w
    | WakeNobody                          // nobody was asleep
    | WakeEverybody
    | Spurious(w: nat)
    | TimerPop(i: nat)
    | TimerExecute
    | Try(w: nat)
    | Observe(w: nat)
    | Wait(w: nat)
    | Finish(w: nat)
    | Help(q: nat, back: bool)            // RunOne on some other thread, or inside a job
    | DiscardQueue(q: nat)                // CancelAll
    | DiscardHeap
    | Tick(now: nat)

  // ------------------------------------------------------------ the scan

  /** The k-th queue that worker w of n tries: its own, the injection queue, the others in cyclic order. */
  function Target(n: nat, w: nat, k: nat): (q: nat)
    requires w < n && k <= n
    ensures q <= n
  {
    if k == 0 then 1 + w else if k == 1 then 0 else 1 + (w + (k - 1)) % n
  }

  /** Where in its scan worker w tries queue q. */
  function Position(n: nat, w: nat, q: nat): (k: nat)
    requires w < n && q <= n
    ensures k <= n
  {
    if q == 1 + w then 0 else if q == 0 then 1 else if q > w then q - w else n + q - w
  }

  lemma CyclicIndex(n: nat, x: nat, v: nat)
    requires v < n && (x == v || x == n + v)
    ensures x % n == v
  {
    if x == n + v {
      assert x / n == 1;
    }
  }

  /** Every queue is tried. */
  lemma TargetOfPosition(n: nat, w: nat, q: nat)
    requires w < n && q <= n
    ensures Target(n, w, Position(n, w, q)) == q
  {
    if q > w + 1 {
      CyclicIndex(n, w + (Position(n, w, q) - 1), q - 1);
    } else if 0 < q <= w {
      CyclicIndex(n, w + (Position(n, w, q) - 1), q - 1);
    }
  }

  /** Owners pop the newest item of their own queue; everything else is first in, first out. */
  predicate FromBack(k: nat) {
    k == 0
  }

  // ------------------------------------------------------------ the steps

  predicate IsWorker(s: State, w: nat) {
    w < |s.workers| && |s.queues| == |s.workers| + 1 && |s.owed| == |s.queues|
  }

  predicate IsQueue(s: State, q: nat) {
    q < |s.queues| == |s.owed|
  }

  function Scanned(worker: Worker): nat {
    match worker case Scanning(k) => k case Rescanning(_, k) => k case _ => 0
  }

  /** What a scan does next after finding nothing in the queue it tried. */
  function Onward(worker: Worker, n: nat): Worker {
    match worker
    case Scanning(k) => if k < n then Scanning(k + 1) else Observing
    case Rescanning(seen, k) => if k < n then Rescanning(seen, k + 1) else Drowsy(seen)
    case _ => worker
  }

  predicate Earliest(heap: seq<Timed>, i: nat) {
    i < |heap| && forall j :: 0 <= j < |heap| ==> heap[i].at <= heap[j].at
  }

  function TimedItems(heap: seq<Timed>): (r: seq<Work>)
    ensures |r| == |heap| && forall i :: 0 <= i < |heap| ==> r[i] == heap[i].item
  {
    seq(|heap|, i requires 0 <= i < |heap| => heap[i].item)
  }

  predicate Enabled(s: State, step: Step) {
    match step
    case Submit(item, q) => IsQueue(s, q) && (item.Job? ==> item.due <= s.clock && item !in s.submitted)
    case SubmitLater(item, at) => item.Job? ==> item.due == at && item !in s.submitted
    case Push(c) => c < |s.calls| && IsQueue(s, s.calls[c].queue)
    case Bump(q, item) => IsQueue(s, q) && item in s.owed[q]
    case BumpAll => true
    case Wake(w) => w < |s.workers| && s.bumped > 0 && s.workers[w].Asleep?
    case WakeNobody => s.bumped > 0 && forall w :: 0 <= w < |s.workers| ==> !s.workers[w].Asleep?
    case WakeEverybody => s.bumped > 0
    case Spurious(w) => w < |s.workers| && s.workers[w].Asleep?
    case TimerPop(i) => Earliest(s.heap, i) && s.heap[i].at <= s.clock
    case TimerExecute => s.ready != [] && IsQueue(s, 0)
    case Try(w) => IsWorker(s, w) && (s.workers[w].Scanning? || s.workers[w].Rescanning?)
        && Scanned(s.workers[w]) <= |s.workers|
    case Observe(w) => w < |s.workers| && s.workers[w].Observing?
    case Wait(w) => w < |s.workers| && s.workers[w].Drowsy?
    case Finish(w) => w < |s.workers| && s.workers[w].Running?
    case Help(q, _) => IsQueue(s, q)
    case DiscardQueue(q) => IsQueue(s, q)
    case DiscardHeap => true
    case Tick(now) => s.clock <= now
  }

  function Keep(x: Work): seq<Work> {
    if x.Job? then [x] else []
  }

  function Blank(x: Work): nat {
    if x.Nothing? then 1 else 0
  }

  function SetWorker(s: State, w: nat, worker: Worker): State
    requires w < |s.workers|
  {
    s.(workers := s.workers[w := worker])
  }

  /** A scan tries one queue.  An empty item that comes out is dropped, and the scan moves on. */
  function TryNext(s: State, w: nat): (s': State)
    requires Enabled(s, Try(w))
  {
    var k := Scanned(s.workers[w]);
    var q := Target(|s.workers|, w, k);
    var item := Taken(s.queues[q], FromBack(k));
    s.(queues := s.queues[q := Left(s.queues[q], FromBack(k))],
    workers := s.workers[w := if item.Job? then Running(item) else Onward(s.workers[w], |s.workers|)],
    taken := s.taken + Keep(item))
  }

  function Next(s: State, step: Step): (s': State)
    requires Enabled(s, step)
  {
    match step
    case Submit(item, q) =>
      s.(calls := s.calls + [Call(item, q)], submitted := s.submitted + Keep(item), blanks := s.blanks + Blank(item))
    case SubmitLater(item, at) =>
      s.(heap := s.heap + [Timed(at, item)], submitted := s.submitted + Keep(item), blanks := s.blanks + Blank(item))
    case Push(c) =>
      var call := s.calls[c];
      s.(calls := s.calls[..c] + s.calls[c + 1..], queues := s.queues[call.queue := s.queues[call.queue] + [call.item]],
      owed := s.owed[call.queue := s.owed[call.queue] + multiset{call.item}])
    case Bump(q, item) =>
      s.(generation := s.generation + 1, owed := s.owed[q := s.owed[q] - multiset{item}], bumped := s.bumped + 1)
    case BumpAll => s.(generation := s.generation + 1, bumped := s.bumped + 1)
    case Wake(w) => SetWorker(s, w, Scanning(0)).(bumped := s.bumped - 1)
    case WakeNobody => s.(bumped := s.bumped - 1)
    case WakeEverybody =>
      s.(bumped := s.bumped - 1, workers := seq(|s.workers|, w requires 0 <= w < |s.workers| =>
        if s.workers[w].Asleep? then Scanning(0) else s.workers[w]))
    case Spurious(w) => SetWorker(s, w, Scanning(0))
    case TimerPop(i) => s.(heap := s.heap[..i] + s.heap[i + 1..], ready := s.ready + [s.heap[i].item])
    case TimerExecute => s.(ready := s.ready[1..], calls := s.calls + [Call(s.ready[0], 0)])
    case Try(w) => TryNext(s, w)
    case Observe(w) => SetWorker(s, w, Rescanning(s.generation, 0))
    case Wait(w) => SetWorker(s, w, if s.workers[w].seen == s.generation then Asleep(s.generation) else Scanning(0))
    case Finish(w) => SetWorker(s, w, Scanning(0))
    case Help(q, back) =>
      s.(queues := s.queues[q := Left(s.queues[q], back)], taken := s.taken + Keep(Taken(s.queues[q], back)))
    case DiscardQueue(q) => s.(queues := s.queues[q := []], discarded := s.discarded + s.queues[q])
    case DiscardHeap => s.(heap := [], discarded := s.discarded + TimedItems(s.heap))
    case Tick(now) => s.(clock := now)
  }

  ghost predicate Init(s: State) {
    && |s.workers| > 0 && |s.queues| == |s.owed| == |s.workers| + 1
    && (forall w :: 0 <= w < |s.workers| ==> s.workers[w] == Scanning(0))
    && (forall q :: 0 <= q < |s.queues| ==> s.queues[q] == [] && s.owed[q] == multiset{})
    && s.bumped == 0 && s.calls == [] && s.heap == [] && s.ready == []
    && s.taken == [] && s.discarded == [] && s.submitted == [] && s.blanks == 0
  }

  ghost predicate Run(states: seq<State>, steps: seq<Step>) {
    && |states| == |steps| + 1 && Init(states[0])
    && forall i {:trigger steps[i]} :: 0 <= i < |steps| ==>
        Enabled(states[i], steps[i]) && states[i + 1] == Next(states[i], steps[i])
  }
}

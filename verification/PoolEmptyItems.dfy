/**
 * The exact limit of the wake-up guarantee.  A scan that dequeues an empty item takes the queue for empty, so in a
 * pool of any size as many empty items as workers can put every worker to sleep in front of a job that nobody will
 * be notified of; fewer never can.
 */
module PoolEmptyItems {
  import opened PoolQueue
  import opened PoolSteps
  import opened PoolWakeup
  import opened PoolBalance

  ghost predicate Path(states: seq<State>, steps: seq<Step>) {
    && |states| == |steps| + 1
    && forall i {:trigger steps[i]} :: 0 <= i < |steps| ==>
        Enabled(states[i], steps[i]) && states[i + 1] == Next(states[i], steps[i])
  }

  ghost predicate Reaches(s: State, t: State) {
    exists states, steps :: Path(states, steps) && states[0] == s && states[|steps|] == t
  }

  lemma ReachesSelf(s: State)
    ensures Reaches(s, s)
  {
    var none: seq<Step> := [];
    assert Path([s], none);
  }

  lemma ReachesNext(s: State, t: State, step: Step)
    requires Reaches(s, t) && Enabled(t, step)
    ensures Reaches(s, Next(t, step))
  {
    var states, steps :| Path(states, steps) && states[0] == s && states[|steps|] == t;
    var states', steps' := states + [Next(t, step)], steps + [step];
    assert forall i :: 0 <= i < |steps| ==> steps'[i] == steps[i];
    assert Path(states', steps') && states'[|steps'|] == Next(t, step);
  }

  /** Nothing is on its way, and only the injection queue holds anything. */
  ghost predicate Quiet(s: State) {
    && Widths(s) && s.bumped == 0 && s.calls == []
    && (forall q :: 1 <= q < |s.queues| ==> s.queues[q] == [])
    && (forall q :: 0 <= q < |s.owed| ==> s.owed[q] == multiset{})
  }

  function Injected(s: State): seq<Work>
    requires |s.queues| > 0
  {
    s.queues[0]
  }

  // ------------------------------------------------------------ submitting

  /** One Execute call from outside the pool, while no worker is asleep. */
  lemma Feed(s0: State, s: State, item: Work) returns (t: State)
    requires Reaches(s0, s) && Quiet(s) && (item.Job? ==> item.due <= s.clock && item !in s.submitted)
    requires forall w :: 0 <= w < |s.workers| ==> !s.workers[w].Asleep?
    ensures Reaches(s0, t) && Quiet(t) && t.workers == s.workers && Injected(t) == Injected(s) + [item]
    ensures t.submitted == s.submitted + Keep(item) && t.blanks == s.blanks + Blank(item) && t.clock == s.clock
  {
    var a := Next(s, Submit(item, 0));
    ReachesNext(s0, s, Submit(item, 0));
    var b := Next(a, Push(0));
    ReachesNext(s0, a, Push(0));
    var c := Next(b, Bump(0, item));
    ReachesNext(s0, b, Bump(0, item));
    t := Next(c, WakeNobody);
    ReachesNext(s0, c, WakeNobody);
  }

  function Empties(m: nat): (e: seq<Work>)
    ensures |e| == m && forall i :: 0 <= i < m ==> e[i] == Nothing
  {
    seq(m, _ => Nothing)
  }

  lemma {:induction false} FeedEmpties(s0: State, s: State, m: nat) returns (t: State)
    requires Reaches(s0, s) && Quiet(s) && Injected(s) == []
    requires forall w :: 0 <= w < |s.workers| ==> !s.workers[w].Asleep?
    ensures Reaches(s0, t) && Quiet(t) && t.workers == s.workers && Injected(t) == Empties(m)
    ensures t.submitted == s.submitted && t.blanks == s.blanks + m && t.clock == s.clock
  {
    if m == 0 {
      t := s;
    } else {
      t := FeedEmpties(s0, s, m - 1);
      t := Feed(s0, t, Nothing);
      assert Empties(m - 1) + [Nothing] == Empties(m);
    }
  }

  // ------------------------------------------------------------ scanning

  /** A scan that has the injection queue behind it finds nothing more. */
  lemma {:induction false} ScanRest(s0: State, s: State, w: nat) returns (t: State)
    requires Reaches(s0, s) && Quiet(s) && w < |s.workers|
    requires s.workers[w].Scanning? || s.workers[w].Rescanning?
    requires 2 <= Scanned(s.workers[w]) <= |s.workers|
    ensures Reaches(s0, t)
    ensures t == s.(workers := s.workers[w := if s.workers[w].Scanning? then Observing else Drowsy(s.workers[w].seen)])
    decreases |s.workers| - Scanned(s.workers[w])
  {
    t := TryNext(s, w);
    ReachesNext(s0, s, Try(w));
    var k := Scanned(s.workers[w]);
    assert s.queues[Target(|s.workers|, w, k) := []] == s.queues;
    assert t == s.(workers := s.workers[w := Onward(s.workers[w], |s.workers|)]);
    if k < |s.workers| {
      t := ScanRest(s0, t, w);
    }
  }

  /** A whole scan that meets an empty item in the injection queue drops it and finds nothing. */
  lemma ScanPastEmpty(s0: State, s: State, w: nat) returns (t: State)
    requires Reaches(s0, s) && Quiet(s) && w < |s.workers|
    requires s.workers[w] == Scanning(0) || (s.workers[w].Rescanning? && s.workers[w].k == 0)
    requires Injected(s) != [] && Injected(s)[0] == Nothing
    ensures Reaches(s0, t)
    ensures t == s.(queues := s.queues[0 := Injected(s)[1..]],
                 workers := s.workers[w := if s.workers[w].Scanning? then Observing else Drowsy(s.workers[w].seen)])
  {
    var n := |s.workers|;
    var a := TryNext(s, w);
    ReachesNext(s0, s, Try(w));
    assert s.queues[1 + w := []] == s.queues;
    assert a == s.(workers := s.workers[w := Onward(s.workers[w], n)]);
    t := TryNext(a, w);
    ReachesNext(s0, a, Try(w));
    assert t == s.(queues := s.queues[0 := Injected(s)[1..]], workers := s.workers[w := Onward(a.workers[w], n)]);
    if n > 1 {
      t := ScanRest(s0, t, w);
    }
  }

  /** The first scan of a worker, while nothing is queued. */
  lemma FirstScan(s0: State, s: State, w: nat) returns (t: State)
    requires Reaches(s0, s) && Quiet(s) && Injected(s) == [] && w < |s.workers| && s.workers[w] == Scanning(0)
    ensures Reaches(s0, t) && t == s.(workers := s.workers[w := Observing])
  {
    var n := |s.workers|;
    var a := TryNext(s, w);
    ReachesNext(s0, s, Try(w));
    assert s.queues[1 + w := []] == s.queues;
    assert a == s.(workers := s.workers[w := Onward(s.workers[w], n)]);
    t := TryNext(a, w);
    ReachesNext(s0, a, Try(w));
    assert s.queues[0 := []] == s.queues;
    assert t == s.(workers := s.workers[w := Onward(a.workers[w], n)]);
    if n > 1 {
      t := ScanRest(s0, t, w);
    }
  }

  lemma {:induction false} AllFirstScan(s0: State, s: State, w: nat) returns (t: State)
    requires Reaches(s0, s) && Quiet(s) && Injected(s) == [] && w <= |s.workers|
    requires forall v :: 0 <= v < |s.workers| ==> s.workers[v] == if v < w then Observing else Scanning(0)
    ensures Reaches(s0, t) && t == s.(workers := t.workers) && |t.workers| == |s.workers|
    ensures forall v :: 0 <= v < |t.workers| ==> t.workers[v] == Observing
    decreases |s.workers| - w
  {
    if w == |s.workers| {
      t := s;
    } else {
      t := FirstScan(s0, s, w);
      t := AllFirstScan(s0, t, w + 1);
    }
  }

  /** One empty item puts a worker to sleep that has finished its first scan. */
  lemma FallAsleep(s0: State, s: State, w: nat) returns (t: State)
    requires Reaches(s0, s) && Quiet(s) && w < |s.workers| && s.workers[w] == Observing
    requires Injected(s) != [] && Injected(s)[0] == Nothing
    ensures Reaches(s0, t)
    ensures t == s.(queues := s.queues[0 := Injected(s)[1..]], workers := s.workers[w := Asleep(s.generation)])
  {
    var a := Next(s, Observe(w));
    ReachesNext(s0, s, Observe(w));
    var b := ScanPastEmpty(s0, a, w);
    t := Next(b, Wait(w));
    ReachesNext(s0, b, Wait(w));
  }

  lemma {:induction false} AllFallAsleep(s0: State, s: State, w: nat, job: Work) returns (t: State)
    requires Reaches(s0, s) && Quiet(s) && w <= |s.workers|
    requires forall v :: 0 <= v < w ==> s.workers[v].Asleep?
    requires forall v :: w <= v < |s.workers| ==> s.workers[v] == Observing
    requires Injected(s) == Empties(|s.workers| - w) + [job]
    ensures Reaches(s0, t) && Quiet(t) && AllAsleep(t.workers) && Injected(t) == [job] && t.blanks == s.blanks
    decreases |s.workers| - w
  {
    if w == |s.workers| {
      t := s;
    } else {
      t := FallAsleep(s0, s, w);
      assert Injected(s)[1..] == Empties(|s.workers| - w - 1) + [job];
      t := AllFallAsleep(s0, t, w + 1, job);
    }
  }

  /** From the start of a pool of any size, with as many empty items as workers: all workers asleep, a job queued,
      no call in progress and nothing owed. */
  lemma EmptyItemsLoseWakeups(s: State, job: Work) returns (states: seq<State>, steps: seq<Step>)
    requires Init(s) && job.Job? && job.due <= s.clock
    ensures Run(states, steps) && states[0] == s
    ensures states[|steps|].blanks == |s.workers| && states[|steps|].calls == [] && Lost(states[|steps|])
  {
    ReachesSelf(s);
    var t := AllFirstScan(s, s, 0);
    t := FeedEmpties(s, t, |s.workers|);
    t := Feed(s, t, job);
    t := AllFallAsleep(s, t, 0, job);
    assert job in t.queues[0];
    states, steps :| Path(states, steps) && states[0] == s && states[|steps|] == t;
  }

  // ------------------------------------------------------------ the exact condition

  /** A pool of n workers can lose a wake-up by the time m empty items have been submitted. */
  ghost predicate CanLose(n: nat, m: nat) {
    exists states: seq<State>, steps: seq<Step> ::
      Run(states, steps) && |states[0].workers| == n && states[|steps|].blanks <= m && Lost(states[|steps|])
  }

  lemma LossExactly(n: nat, m: nat)
    requires n > 0
    ensures CanLose(n, m) <==> n <= m
  {
    if CanLose(n, m) {
      var states: seq<State>, steps: seq<Step> :|
        Run(states, steps) && |states[0].workers| == n && states[|steps|].blanks <= m && Lost(states[|steps|]);
      RunKeepsBalance(states, steps, |steps|);
      if m < n {
        NoLostWakeup(states, steps, |steps|);
      }
    }
    if n <= m {
      var s := State(seq(n + 1, _ => []), seq(n, _ => Scanning(0)), 0, seq(n + 1, _ => multiset{}), 0,
                     [], [], [], 0, [], [], [], 0);
      var states, steps := EmptyItemsLoseWakeups(s, Job(0, 0));
    }
  }
}

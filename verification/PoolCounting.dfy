/**
 * Counting the copies of an item over the queues of the pool and the calls in progress.
 */
module PoolCounting {
  import opened PoolQueue
  import opened PoolSteps

  function Items(calls: seq<Call>): (r: seq<Work>)
    ensures |r| == |calls| && forall c :: 0 <= c < |calls| ==> r[c] == calls[c].item
  {
    seq(|calls|, c requires 0 <= c < |calls| => calls[c].item)
  }

  function Gather(queues: seq<seq<Work>>): seq<Work> {
    if queues == [] then [] else queues[0] + Gather(queues[1..])
  }

  lemma {:induction false} GatherUpdate(x: Work, queues: seq<seq<Work>>, q: nat, queue: seq<Work>)
    requires q < |queues|
    ensures Occurs(x, Gather(queues[q := queue])) + Occurs(x, queues[q]) == Occurs(x, Gather(queues)) + Occurs(x, queue)
  {
    var changed := queues[q := queue];
    OccursConcat(x, queues[0], Gather(queues[1..]));
    OccursConcat(x, changed[0], Gather(changed[1..]));
    if q == 0 {
      assert changed[1..] == queues[1..];
    } else {
      assert changed[1..] == queues[1..][q - 1 := queue];
      GatherUpdate(x, queues[1..], q - 1, queue);
    }
  }

  lemma OccursOne(x: Work, y: Work)
    ensures Occurs(x, [y]) == if x == y then 1 else 0
  {
    assert [y][1..] == [];
  }

  lemma OccursAppend(x: Work, s: seq<Work>, y: Work)
    ensures Occurs(x, s + [y]) == Occurs(x, s) + if x == y then 1 else 0
  {
    OccursConcat(x, s, [y]);
    OccursOne(x, y);
  }

  lemma OccursRemove(x: Work, s: seq<Work>, i: nat)
    requires i < |s|
    ensures Occurs(x, s) == Occurs(x, s[..i] + s[i + 1..]) + if x == s[i] then 1 else 0
  {
    assert s == (s[..i] + [s[i]]) + s[i + 1..];
    OccursConcat(x, s[..i] + [s[i]], s[i + 1..]);
    OccursAppend(x, s[..i], s[i]);
    OccursConcat(x, s[..i], s[i + 1..]);
  }

  lemma {:induction false} OccursNone(x: Work, s: seq<Work>)
    ensures Occurs(x, s) == 0 <==> x !in s
  {
    if s != [] {
      OccursNone(x, s[1..]);
      assert s == [s[0]] + s[1..];
    }
  }

  lemma {:induction false} GatherNothing(x: Work, queues: seq<seq<Work>>)
    requires forall q :: 0 <= q < |queues| ==> queues[q] == []
    ensures Occurs(x, Gather(queues)) == 0
  {
    if queues != [] {
      GatherNothing(x, queues[1..]);
      OccursConcat(x, queues[0], Gather(queues[1..]));
    }
  }
}

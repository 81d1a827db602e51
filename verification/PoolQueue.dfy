/**
 * The thread pool's queues: a vector with a moving head, compacted now and then, that refines a deque
 * popped at the back by its owner and at the front by thieves and by the injection queue's readers.
 */
module PoolQueue {
  /** A work item; an empty one is what a dequeue from an empty queue returns. */
  datatype Work = Nothing | Job(id: nat, due: nat)

  /** Taking from a deque. */
  function Taken(q: seq<Work>, back: bool): (x: Work) {
    if q == [] then Nothing else if back then q[|q| - 1] else q[0]
  }

  function Left(q: seq<Work>, back: bool): (r: seq<Work>) {
    if q == [] then [] else if back then q[..|q| - 1] else q[1..]
  }

  /** The deque holds what was pushed: taking one item removes one occurrence of it and no other. */
  function Occurs(x: Work, q: seq<Work>): (n: nat) {
    if q == [] then 0 else Occurs(x, q[1..]) + if q[0] == x then 1 else 0
  }

  lemma {:induction false} OccursConcat(x: Work, a: seq<Work>, b: seq<Work>)
    ensures Occurs(x, a + b) == Occurs(x, a) + Occurs(x, b)
  {
    if a == [] {
      assert a + b == b;
    } else {
      assert (a + b)[1..] == a[1..] + b;
      OccursConcat(x, a[1..], b);
    }
  }

  lemma OccursTaken(x: Work, q: seq<Work>, back: bool)
    requires q != []
    ensures Occurs(x, q) == Occurs(x, Left(q, back)) + if Taken(q, back) == x then 1 else 0
  {
    if back {
      var last := [q[|q| - 1]];
      assert q == q[..|q| - 1] + last && last[1..] == [];
      OccursConcat(x, q[..|q| - 1], last);
    }
  }

  class WorkerQueue {
    var items: seq<Work>
    var head: nat

    /** A queue that has run empty starts over at the front of the vector. */
    ghost predicate Valid()
      reads this
    {
      head < |items| || (head == 0 && items == [])
    }

    ghost function Contents(): (q: seq<Work>)
      reads this
      requires Valid()
    {
      items[head..]
    }

    constructor ()
      ensures Valid() && Contents() == []
    {
      items, head := [], 0;
    }

    method Clear()
      modifies this
      ensures Valid() && Contents() == []
    {
      items, head := [], 0;
    }

    method Push(item: Work)
      requires Valid()
      modifies this
      ensures Valid() && Contents() == old(Contents()) + [item]
    {
      items := items + [item];
    }

    method TryPop() returns (out: Work)
      requires Valid()
      modifies this
      ensures Valid() && out == Taken(old(Contents()), true) && Contents() == Left(old(Contents()), true)
    {
      if |items| <= head {
        return Nothing;
      }
      out := items[|items| - 1];
      items := items[..|items| - 1];
      if |items| <= head {
        items, head := [], 0;
      }
    }

    /** After a steal the moved-from prefix is no longer than 1024 or than what is left. */
    method TrySteal() returns (out: Work)
      requires Valid()
      modifies this
      ensures Valid() && out == Taken(old(Contents()), false) && Contents() == Left(old(Contents()), false)
      ensures old(Contents()) == [] || head <= 1024 || head <= |Contents()|
    {
      if |items| <= head {
        return Nothing;
      }
      out := items[head];
      items := items[head := Nothing];
      head := head + 1;
      if head >= |items| {
        items, head := [], 0;
      } else if head > 1024 && head * 2 > |items| {
        Compact();
      }
    }

    /** Moves the live items to the front of the vector and drops the rest. */
    method Compact()
      requires head < |items|
      modifies this
      ensures head == 0 && items == old(items)[old(head)..]
    {
      var write, read := 0, head;
      while read < |items|
        invariant write <= read && write + old(head) == read <= |items| == |old(items)|
        invariant forall k :: 0 <= k < write ==> items[k] == old(items)[old(head) + k]
        invariant forall k :: read <= k < |items| ==> items[k] == old(items)[k]
      {
        items := items[write := items[read]];
        write, read := write + 1, read + 1;
      }
      items, head := items[..write], 0;
    }

    /** The injection queue is read the same way, but never compacted. */
    method TryDequeueInjection() returns (out: Work)
      requires Valid()
      modifies this
      ensures Valid() && out == Taken(old(Contents()), false) && Contents() == Left(old(Contents()), false)
    {
      if |items| <= head {
        return Nothing;
      }
      out := items[head];
      items := items[head := Nothing];
      head := head + 1;
      if head >= |items| {
        items, head := [], 0;
      }
    }
  }
}

/**
 * The registration list of a cancellation state: registering appends, unregistering swaps the last
 * entry into the hole, moving a registration renames its entry, and every listed registration knows
 * its position.
 */
module CancellationList {
  /** Where r is listed, trying its remembered index first. */
  function Locate<T(==)>(list: seq<T>, index: int, r: T): (at: int)
    ensures -1 <= at < |list|
    ensures at >= 0 ==> list[at] == r
    ensures at == -1 <==> r !in list
  {
    if 0 <= index < |list| && list[index] == r then index else FirstFrom(list, r, 0)
  }

  function FirstFrom<T(==)>(list: seq<T>, r: T, from: nat): (at: int)
    requires from <= |list|
    ensures at == -1 || from <= at < |list|
    ensures at >= 0 ==> list[at] == r
    ensures at == -1 <==> r !in list[from..]
    decreases |list| - from
  {
    if from == |list| then -1
    else if list[from] == r then from
    else
      assert list[from..] == [list[from]] + list[from + 1..];
      FirstFrom(list, r, from + 1)
  }

  /** The list without position at, its last entry swapped into the hole. */
  function SwapRemove<T>(list: seq<T>, at: nat): (r: seq<T>)
    requires at < |list|
    ensures |r| == |list| - 1
    ensures forall i :: 0 <= i < |r| ==> r[i] == if i == at then list[|list| - 1] else list[i]
  {
    list[at := list[|list| - 1]][..|list| - 1]
  }

  /** Removing an entry that is listed once leaves exactly the others. */
  lemma SwapRemoveKeepsOthers<T>(list: seq<T>, at: nat, x: T)
    requires at < |list| && forall i :: 0 <= i < |list| && i != at ==> list[i] != list[at]
    ensures x in SwapRemove(list, at) <==> x in list && x != list[at]
  {
    var r := SwapRemove(list, at);
    if x in list && x != list[at] {
      var i :| 0 <= i < |list| && list[i] == x;
      assert r[if i == |list| - 1 then at else i] == x;
    }
  }

  class Registration {
    var index: int

    constructor ()
      ensures index == -1
    {
      index := -1;
    }
  }

  class CancellationState {
    var canceled: bool
    var registrations: seq<Registration>

    /** Every listed registration remembers its position, so none is listed twice. */
    ghost predicate Valid()
      reads this, registrations
    {
      forall i :: 0 <= i < |registrations| ==> registrations[i].index == i
    }

    constructor ()
      ensures Valid() && !canceled && registrations == []
    {
      canceled, registrations := false, [];
    }

    method TryRegister(r: Registration) returns (registered: bool)
      requires Valid() && r !in registrations
      modifies this, r`index
      ensures Valid() && canceled == old(canceled)
      ensures registered == !canceled
      ensures registrations == old(registrations) + if registered then [r] else []
    {
      if canceled {
        return false;
      }
      r.index := |registrations|;
      registrations := registrations + [r];
      return true;
    }

    /** The scan that the constant-time checks fall back on. */
    method Find(r: Registration, index: int) returns (at: int)
      ensures at == Locate(registrations, index, r)
    {
      if 0 <= index < |registrations| && registrations[index] == r {
        return index;
      }
      var i := 0;
      while i < |registrations|
        invariant 0 <= i <= |registrations|
        invariant FirstFrom(registrations, r, 0) == FirstFrom(registrations, r, i)
      {
        if registrations[i] == r {
          return i;
        }
        i := i + 1;
      }
      return -1;
    }

    method Unregister(r: Registration)
      requires Valid()
      modifies this, registrations`index
      ensures Valid() && canceled == old(canceled)
      ensures r !in registrations
      ensures var at := old(Locate(registrations, r.index, r));
              registrations == if at < 0 then old(registrations) else SwapRemove(old(registrations), at)
      ensures r.index == old(r.index)
    {
      var at := Find(r, r.index);
      if at < 0 {
        return;
      }
      var lastIndex := |registrations| - 1;
      if at != lastIndex {
        var moved := registrations[lastIndex];
        registrations := registrations[at := moved];
        moved.index := at;
      }
      registrations := registrations[..lastIndex];
    }

    /** The move constructor's lock section, entered with the index copied before taking the lock. */
    method Relink(to: Registration, from: Registration)
      requires Valid() && to != from && to !in registrations
      modifies this, to`index
      ensures Valid() && canceled == old(canceled) && from !in registrations
      ensures var at := old(Locate(registrations, to.index, from));
              registrations == if at < 0 then old(registrations) else old(registrations)[at := to]
    {
      var at := Find(from, to.index);
      if at >= 0 {
        registrations := registrations[at := to];
        to.index := at;
      }
    }

    method Exchange() returns (already: bool)
      modifies this
      ensures already == old(canceled) && canceled && registrations == old(registrations)
    {
      already := canceled;
      canceled := true;
    }

    method Swap() returns (local: seq<Registration>)
      modifies this
      ensures Valid() && local == old(registrations) && registrations == [] && canceled == old(canceled)
    {
      local := registrations;
      registrations := [];
    }

    /** The part of Cancel under its own control: the first call, and no other, takes the whole list away to fire
        it. */
    method Cancel() returns (local: seq<Registration>)
      requires Valid()
      modifies this
      ensures Valid() && canceled
      ensures if old(canceled) then local == [] && registrations == old(registrations)
              else local == old(registrations) && registrations == []
    {
      var already := Exchange();
      if already {
        return [];
      }
      local := Swap();
    }
  }
}

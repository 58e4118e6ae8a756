/// A fixed set of objects handed out and given back (src/core/recycle_ring.h).
///
/// Every method holds the ring's mutex for its whole body, so each is one
/// atomic step; the specification functions are what the playout machine runs.
module RecycleRing {
  import opened Basics

  datatype Slot<T> = Slot(item: T, free: bool)

  datatype Ring<T> = Ring(slots: seq<Slot<T>>, closed: bool, misses: nat, doubleReleases: nat, strangers: nat)

  /// The first slot that is free, or how many slots there are.
  function FirstFree<T>(slots: seq<Slot<T>>): (i: nat)
    ensures i <= |slots|
    ensures i < |slots| ==> slots[i].free
    ensures forall j :: 0 <= j < i ==> !slots[j].free
  {
    if slots == [] || slots[0].free then 0 else FirstFree(slots[1..]) + 1
  }

  /// The first slot holding `item`, or how many slots there are.
  function FirstOf<T(==)>(slots: seq<Slot<T>>, item: T): (i: nat)
    ensures i <= |slots|
    ensures i < |slots| ==> slots[i].item == item
    ensures forall j :: 0 <= j < i ==> slots[j].item != item
  {
    if slots == [] || slots[0].item == item then 0 else FirstOf(slots[1..], item) + 1
  }

  function Acquired<T>(r: Ring<T>): (Ring<T>, Option<T>) {
    var i := FirstFree(r.slots);
    if r.closed then (r, None)
    else if i == |r.slots| then (r.(misses := r.misses + 1), None)
    else (r.(slots := r.slots[i := r.slots[i].(free := false)]), Some(r.slots[i].item))
  }

  function Released<T(==)>(r: Ring<T>, item: T): (Ring<T>, bool) {
    var i := FirstOf(r.slots, item);
    if r.closed then (r, false)
    else if i == |r.slots| then (r.(strangers := r.strangers + 1), false)
    else if r.slots[i].free then (r.(doubleReleases := r.doubleReleases + 1), false)
    else (r.(slots := r.slots[i := r.slots[i].(free := true)]), true)
  }

  function Out<T>(slots: seq<Slot<T>>): (n: nat)
    ensures n <= |slots|
    ensures n == 0 <==> forall i :: 0 <= i < |slots| ==> slots[i].free
  {
    if slots == [] then 0 else (if slots[0].free then 0 else 1) + Out(slots[1..])
  }

  function Items<T>(slots: seq<Slot<T>>): (r: seq<T>)
    ensures |r| == |slots| && forall i :: 0 <= i < |r| ==> r[i] == slots[i].item
  {
    if slots == [] then [] else [slots[0].item] + Items(slots[1..])
  }

  ghost predicate DistinctItems<T>(slots: seq<Slot<T>>) {
    forall i, j :: 0 <= i < j < |slots| ==> slots[i].item != slots[j].item
  }

  lemma {:induction false} OutMoves<T>(slots: seq<Slot<T>>, i: nat, free: bool)
    requires i < |slots| && slots[i].free != free
    ensures Out(slots[i := slots[i].(free := free)]) == Out(slots) + (if free then -1 else 1)
  {
    var after := slots[i := slots[i].(free := free)];
    if i > 0 {
      assert after[1..] == slots[1..][i - 1 := slots[i].(free := free)];
      OutMoves(slots[1..], i - 1, free);
    } else {
      assert after[1..] == slots[1..];
    }
  }

  lemma FirstOfDistinct<T>(slots: seq<Slot<T>>, i: nat)
    requires DistinctItems(slots) && i < |slots|
    ensures FirstOf(slots, slots[i].item) == i
  {
    var item := slots[i].item;
    assert forall j :: 0 <= j < FirstOf(slots, item) ==> slots[j].item != item;
  }

  /// A hand-out and its return leave the ring as it was, and until that return
  /// nobody else is given the object: it takes one more out of the ring, and
  /// is refused if it was not.
  lemma AcquireRelease<T>(r: Ring<T>)
    requires DistinctItems(r.slots)
    ensures var (after, item) := Acquired(r);
            && (item.Some? ==> Out(after.slots) == Out(r.slots) + 1
                               && Released(after, item.value) == (r, true)
                               && Acquired(after).1 != item
                               && Released(r, item.value).1 == false)
            && (item.None? ==> after.slots == r.slots
                               && (r.closed || (Out(r.slots) == |r.slots| && after.misses == r.misses + 1)))
  {
    var i := FirstFree(r.slots);
    var (after, item) := Acquired(r);
    if item.Some? {
      OutMoves(r.slots, i, false);
      assert FirstOf(r.slots, item.value) == i;
      FirstOfDistinct(after.slots, i);
      assert after.slots[i := after.slots[i].(free := true)] == r.slots;
      var j := FirstFree(after.slots);
      assert j < |after.slots| ==> after.slots[j].item != item.value;
    } else if !r.closed {
      AllOut(r.slots);
    }
  }

  lemma {:induction false} AllOut<T>(slots: seq<Slot<T>>)
    requires forall i :: 0 <= i < |slots| ==> !slots[i].free
    ensures Out(slots) == |slots|
  {
    if slots != [] { AllOut(slots[1..]); }
  }

  class Recycler<T(==)> {
    var slots: seq<Slot<T>>
    var closed: bool
    var misses: nat
    var doubleReleases: nat
    var strangers: nat

    ghost function State(): Ring<T>
      reads this
    {
      Ring(slots, closed, misses, doubleReleases, strangers)
    }

    constructor ()
      ensures State() == Ring([], false, 0, 0, 0)
    {
      slots, closed, misses, doubleReleases, strangers := [], false, 0, 0, 0;
    }

    method Add(item: T)
      modifies this
      ensures State() == old(State()).(slots := old(slots) + [Slot(item, true)])
    {
      slots := slots + [Slot(item, true)];
    }

    method Acquire() returns (item: Option<T>)
      modifies this
      ensures (State(), item) == Acquired(old(State()))
    {
      if closed {
        return None;
      }
      for i := 0 to |slots|
        invariant slots == old(slots) && State() == old(State())
        invariant forall j :: 0 <= j < i ==> !slots[j].free
      {
        if slots[i].free {
          assert FirstFree(slots) == i;
          item := Some(slots[i].item);
          slots := slots[i := slots[i].(free := false)];
          return;
        }
      }
      misses := misses + 1;
      return None;
    }

    method Release(item: T) returns (taken: bool)
      modifies this
      ensures (State(), taken) == Released(old(State()), item)
    {
      if closed {
        return false;
      }
      for i := 0 to |slots|
        invariant slots == old(slots) && State() == old(State())
        invariant forall j :: 0 <= j < i ==> slots[j].item != item
      {
        if slots[i].item == item {
          assert FirstOf(slots, item) == i;
          if slots[i].free {
            doubleReleases := doubleReleases + 1;
            return false;
          }
          slots := slots[i := slots[i].(free := true)];
          return true;
        }
      }
      strangers := strangers + 1;
      return false;
    }

    /// Every object back, free or not, and how many were still out.
    method Close() returns (items: seq<T>, outstanding: nat)
      modifies this
      ensures items == Items(old(slots)) && outstanding == Out(old(slots))
      ensures State() == old(State()).(slots := [], closed := true)
    {
      closed, items, outstanding := true, [], 0;
      for i := 0 to |slots|
        invariant slots == old(slots) && State() == old(State()).(closed := true)
        invariant items + Items(slots[i..]) == Items(slots)
        invariant outstanding + Out(slots[i..]) == Out(slots)
      {
        items := items + [slots[i].item];
        if !slots[i].free {
          outstanding := outstanding + 1;
        }
      }
      slots := [];
    }

    method FreeCount() returns (count: nat)
      ensures count + Out(slots) == |slots|
    {
      count := 0;
      for i := 0 to |slots|
        invariant count == i - Out(slots) + Out(slots[i..])
      {
        if slots[i].free {
          count := count + 1;
        }
      }
    }
  }
}

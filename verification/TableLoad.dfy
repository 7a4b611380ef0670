/**
 When the table grows and how full it gets, as arithmetic on the entry count
 and the capacity. Loads are exact rationals here.
 */
module TableLoad {
  /** Growing is due when one more entry would bring the load to the threshold. */
  predicate NeedRehash(count: nat, capacity: nat, thresh: real)
    requires capacity > 0
  {
    (count + 1) as real / capacity as real >= thresh
  }

  /** An add doubles the capacity at most once. */
  function GrownCapacity(count: nat, capacity: nat, thresh: real): nat
    requires capacity > 0
  {
    if NeedRehash(count, capacity, thresh) then 2 * capacity else capacity
  }

  predicate LoadBelow(count: nat, capacity: nat, thresh: real)
    requires capacity > 0
  {
    count as real / capacity as real < thresh
  }

  /** The number of entries, not rounded, at which the threshold is reached. */
  function Limit(capacity: nat, thresh: real): real { thresh * capacity as real }

  lemma {:induction false} BelowLimit(count: nat, capacity: nat, thresh: real)
    requires capacity > 0
    ensures LoadBelow(count, capacity, thresh) <==> count as real < Limit(capacity, thresh)
  {
    var q := count as real / capacity as real;
    assert q * capacity as real == count as real;
  }

  lemma {:induction false} NeedRehashIs(count: nat, capacity: nat, thresh: real)
    requires capacity > 0
    ensures NeedRehash(count, capacity, thresh) <==> (count + 1) as real >= Limit(capacity, thresh)
  {
    BelowLimit(count + 1, capacity, thresh);
  }

  lemma {:induction false} LimitGrows(capacity: nat, thresh: real)
    requires 0.0 < thresh < 1.0 && capacity > 0
    ensures Limit(2 * capacity, thresh) == 2.0 * Limit(capacity, thresh)
    ensures 0.0 < Limit(capacity, thresh) < capacity as real
  {
    LimitShrinks(capacity, thresh);
    LimitDoubles(capacity, thresh);
  }

  lemma {:induction false} LimitShrinks(capacity: nat, thresh: real)
    requires 0.0 < thresh < 1.0 && capacity > 0
    ensures 0.0 < Limit(capacity, thresh) < capacity as real
  {
  }

  lemma {:induction false} LimitDoubles(capacity: nat, thresh: real)
    ensures Limit(2 * capacity, thresh) == 2.0 * Limit(capacity, thresh)
  {
    assert (2 * capacity) as real == 2.0 * capacity as real;
  }

  /** Whatever the threshold below one, an add leaves an empty slot. */
  lemma {:induction false} AddLeavesRoom(count: nat, capacity: nat, thresh: real)
    requires count < capacity && 0.0 < thresh < 1.0
    ensures count + 1 < GrownCapacity(count, capacity, thresh)
  {
    hide Limit, NeedRehash;
    NeedRehashIs(count, capacity, thresh);
    LimitGrows(capacity, thresh);
  }

  // ----- whole runs -----

  /** What an operation does to the sizes: an add of a new or of a present key,
      or the removal of a present key. */
  datatype Change = AddNew | AddPresent | Removal

  datatype Size = Size(count: nat, capacity: nat)

  predicate Possible(s: Size, c: Change) { c == AddNew || s.count > 0 }

  function Changed(s: Size, c: Change, thresh: real): (r: Size)
    requires s.capacity > 0 && Possible(s, c)
    ensures r.capacity > 0
  {
    match c
    case AddNew => Size(s.count + 1, GrownCapacity(s.count, s.capacity, thresh))
    case AddPresent => Size(s.count, GrownCapacity(s.count, s.capacity, thresh))
    case Removal => Size(s.count - 1, s.capacity)
  }

  /** After every operation of the run the load is below the threshold. */
  predicate BelowThroughout(s: Size, cs: seq<Change>, thresh: real)
    requires s.capacity > 0
    decreases |cs|
  {
    cs == [] || (Possible(s, cs[0]) ==>
      var next := Changed(s, cs[0], thresh);
      LoadBelow(next.count, next.capacity, thresh) && BelowThroughout(next, cs[1..], thresh))
  }

  /** Below the threshold, and with room for one entry after a doubling. */
  predicate Roomy(s: Size, thresh: real) {
    s.capacity > 0 && LoadBelow(s.count, s.capacity, thresh) && 2.0 * Limit(s.capacity, thresh) > 1.0
  }

  lemma {:induction false} ChangeStaysRoomy(s: Size, c: Change, thresh: real)
    requires 0.0 < thresh < 1.0 && Roomy(s, thresh) && Possible(s, c)
    ensures Roomy(Changed(s, c, thresh), thresh)
  {
    hide Limit, LoadBelow, NeedRehash;
    var next := Changed(s, c, thresh);
    BelowLimit(s.count, s.capacity, thresh);
    BelowLimit(next.count, next.capacity, thresh);
    NeedRehashIs(s.count, s.capacity, thresh);
    LimitGrows(s.capacity, thresh);
  }

  lemma {:induction false} StaysBelow(s: Size, cs: seq<Change>, thresh: real)
    requires 0.0 < thresh < 1.0 && Roomy(s, thresh)
    ensures BelowThroughout(s, cs, thresh)
    decreases |cs|
  {
    hide Limit, LoadBelow, Changed;
    if cs == [] || !Possible(s, cs[0]) {
    } else {
      ChangeStaysRoomy(s, cs[0], thresh);
      StaysBelow(Changed(s, cs[0], thresh), cs[1..], thresh);
    }
  }

  /** With too little room, the very first add already reaches the threshold. */
  lemma {:induction false} FirstAddTooMuch(capacity: nat, thresh: real)
    requires 0.0 < thresh < 1.0 && capacity > 0 && 2.0 * Limit(capacity, thresh) <= 1.0
    ensures !BelowThroughout(Size(0, capacity), [AddNew], thresh)
  {
    hide Limit, LoadBelow, NeedRehash;
    var next := Changed(Size(0, capacity), AddNew, thresh);
    NeedRehashIs(0, capacity, thresh);
    BelowLimit(1, next.capacity, thresh);
    LimitGrows(capacity, thresh);
  }

  /**
   The load is below the threshold after every operation of every run if and
   only if twice the threshold times the initial capacity exceeds one.
   */
  lemma {:induction false} BelowIff(capacity: nat, thresh: real)
    requires 0.0 < thresh < 1.0 && capacity > 0
    ensures (forall cs :: BelowThroughout(Size(0, capacity), cs, thresh)) <==> 2.0 * thresh * capacity as real > 1.0
  {
    TwiceLimit(capacity, thresh);
    if 2.0 * Limit(capacity, thresh) > 1.0 {
      EmptyIsRoomy(capacity, thresh);
      forall cs { StaysBelow(Size(0, capacity), cs, thresh); }
    } else {
      FirstAddTooMuch(capacity, thresh);
    }
  }

  lemma {:induction false} TwiceLimit(capacity: nat, thresh: real)
    ensures 2.0 * Limit(capacity, thresh) == 2.0 * thresh * capacity as real
  {
  }

  lemma {:induction false} EmptyIsRoomy(capacity: nat, thresh: real)
    requires 0.0 < thresh < 1.0 && capacity > 0 && 2.0 * Limit(capacity, thresh) > 1.0
    ensures Roomy(Size(0, capacity), thresh)
  {
    BelowLimit(0, capacity, thresh);
  }
}

/**
 * The move history: a count and nine optional spaces. As written, `add` bumps the
 * count before it stores the space, so the slot it writes is the new count.
 */
module Histories {
  import opened Prelude
  import opened Errors
  import opened Boards

  /** `MAX_HISTORY_SIZE`. */
  const MaxHistorySize: nat := 9

  /** The stored count never exceeds the capacity. */
  type Count = n: nat | n <= MaxHistorySize

  type Slots = s: seq<Option<Space>> | |s| == 9 witness [None, None, None, None, None, None, None, None, None]

  const NoSlots: Slots := [None, None, None, None, None, None, None, None, None]

  datatype HistoryState = HistoryState(count: Count, slots: Slots)

  /** `History::new`. */
  const EmptyHistory: HistoryState := HistoryState(0, NoSlots)

  /**
   * `History::add` as written. At capacity it refuses and changes nothing; otherwise the
   * count goes up by one and the space goes into the slot numbered by the NEW count, which
   * for a count of 8 is index 9 of a nine-slot array: the bounds check panics there, after
   * the count has already been bumped.
   */
  function AddSpec(h: HistoryState, s: Space): (r: (HistoryState, Status))
    ensures r.1 == Failure(HistoryFull) <==> h.count == MaxHistorySize
    ensures r.1 == Failure(HistoryFull) ==> r.0 == h
    ensures r.1 != Failure(HistoryFull) ==> r.0.count == h.count + 1
    ensures r.1 == Success <==> h.count < MaxHistorySize - 1
    ensures r.1 == Panic <==> h.count == MaxHistorySize - 1
    ensures r.1 == Success ==> r.0.slots == h.slots[h.count + 1 := Some(s)]
    ensures r.1 == Panic ==> r.0.slots == h.slots
  {
    if h.count == MaxHistorySize then (h, Failure(HistoryFull))
    else
      var n := h.count + 1;
      if n < |h.slots| then (HistoryState(n, h.slots[n := Some(s)]), Success)
      else (HistoryState(n, h.slots), Panic)
  }

  /** The history after adding `ss` one by one to a new history, whatever each add returned. */
  function Adds(ss: seq<Space>): HistoryState
  {
    if ss == [] then EmptyHistory else AddSpec(Adds(ss[..|ss| - 1]), ss[|ss| - 1]).0
  }

  /**
   * Up to eight adds from a new history leave the count equal to the number of adds; the
   * k-th space added sits in slot k, slot 0 is never written, and the later slots stay empty.
   */
  lemma {:induction false} AddsLayout(ss: seq<Space>)
    requires |ss| <= MaxHistorySize - 1
    ensures Adds(ss).count == |ss|
    ensures Adds(ss).slots[0] == None
    ensures forall k | 1 <= k <= |ss| :: Adds(ss).slots[k] == Some(ss[k - 1])
    ensures forall k | |ss| < k < 9 :: Adds(ss).slots[k] == None
  {
    if ss != [] {
      AddsLayout(ss[..|ss| - 1]);
    }
  }

  /** Each of up to eight adds from a new history succeeds. */
  lemma AddsSucceed(ss: seq<Space>)
    requires |ss| <= MaxHistorySize - 1
    ensures forall j | 0 <= j < |ss| :: AddSpec(Adds(ss[..j]), ss[j]).1 == Success
  {
    forall j | 0 <= j < |ss|
      ensures AddSpec(Adds(ss[..j]), ss[j]).1 == Success
    {
      AddsLayout(ss[..j]);
    }
  }

  /** The ninth add to a new history panics: the count reaches 9 and the ninth space is recorded nowhere. */
  lemma NinthAddPanics(ss: seq<Space>, s: Space)
    requires |ss| == MaxHistorySize - 1
    ensures AddSpec(Adds(ss), s).1 == Panic
    ensures AddSpec(Adds(ss), s).0 == HistoryState(MaxHistorySize, Adds(ss).slots)
  {
    AddsLayout(ss);
  }

  /**
   * `HistoryFull` is out of reach without a panic first: every add to a history built by at
   * most eight adds from a new one either succeeds or panics.
   */
  lemma HistoryFullNeedsPanic(ss: seq<Space>, s: Space)
    requires |ss| <= MaxHistorySize - 1
    ensures AddSpec(Adds(ss), s).1 != Failure(HistoryFull)
  {
    AddsLayout(ss);
  }

  /**
   * What `add` evidently intends: store the space at the current count, then bump it, so
   * nine adds fill slots 0..8 and the tenth is refused with `HistoryFull`.
   */
  function AddIntendedSpec(h: HistoryState, s: Space): (r: (HistoryState, Status))
    ensures r.1 == Failure(HistoryFull) <==> h.count == MaxHistorySize
    ensures r.1 == Success <==> h.count < MaxHistorySize
    ensures r.1 != Panic
    ensures r.1 == Failure(HistoryFull) ==> r.0 == h
    ensures r.1 == Success ==> r.0 == HistoryState(h.count + 1, h.slots[h.count := Some(s)])
  {
    if h.count == MaxHistorySize then (h, Failure(HistoryFull))
    else (HistoryState(h.count + 1, h.slots[h.count := Some(s)]), Success)
  }

  /** The history after adding `ss` one by one with the intended add. */
  function IntendedAdds(ss: seq<Space>): HistoryState
  {
    if ss == [] then EmptyHistory else AddIntendedSpec(IntendedAdds(ss[..|ss| - 1]), ss[|ss| - 1]).0
  }

  /** With the intended add, nine spaces are recorded in order in slots 0..8. */
  lemma {:induction false} IntendedAddsLayout(ss: seq<Space>)
    requires |ss| <= MaxHistorySize
    ensures IntendedAdds(ss).count == |ss|
    ensures forall k | 0 <= k < |ss| :: IntendedAdds(ss).slots[k] == Some(ss[k])
    ensures forall k | |ss| <= k < 9 :: IntendedAdds(ss).slots[k] == None
  {
    if ss != [] {
      IntendedAddsLayout(ss[..|ss| - 1]);
    }
  }

  /** With the intended add, each of the first nine adds from a new history succeeds. */
  lemma IntendedAddsSucceed(ss: seq<Space>)
    requires |ss| <= MaxHistorySize
    ensures forall j | 0 <= j < |ss| :: AddIntendedSpec(IntendedAdds(ss[..j]), ss[j]).1 == Success
  {
    forall j | 0 <= j < |ss|
      ensures AddIntendedSpec(IntendedAdds(ss[..j]), ss[j]).1 == Success
    {
      IntendedAddsLayout(ss[..j]);
    }
  }

  /** With the intended add, the tenth add is refused with `HistoryFull` and changes nothing. */
  lemma IntendedTenthAddFull(ss: seq<Space>, s: Space)
    requires |ss| == MaxHistorySize
    ensures AddIntendedSpec(IntendedAdds(ss), s) == (IntendedAdds(ss), Failure(HistoryFull))
  {
    IntendedAddsLayout(ss);
  }

  /** The engine's history: a count and a fixed array of nine optional spaces. */
  class History {
    var count: Count
    const slots: array<Option<Space>>

    ghost predicate Valid() {
      slots.Length == 9
    }

    function State(): HistoryState
      reads this, slots
      requires Valid()
    {
      HistoryState(count, slots[..])
    }

    /** `History::new`: count 0, every slot empty. */
    constructor ()
      ensures Valid() && fresh(slots)
      ensures State() == EmptyHistory
    {
      count := 0;
      slots := new Option<Space>[9](_ => None);
    }

    /** A copy of a history with the given contents (the derived `Clone`). */
    constructor Copy(h: HistoryState)
      ensures Valid() && fresh(slots)
      ensures State() == h
    {
      count := h.count;
      slots := new Option<Space>[9](i requires 0 <= i < 9 => h.slots[i]);
    }

    /** `History::len`: the stored count, never more than the capacity. */
    function Len(): (n: nat)
      reads this
      ensures n <= MaxHistorySize
      ensures n == count
    {
      count
    }

    /** `History::add`, step by step as written: check, bump the count, then write the slot it names. */
    method Add(s: Space) returns (r: Status)
      requires Valid()
      modifies this, slots
      ensures Valid()
      ensures (State(), r) == AddSpec(old(State()), s)
    {
      if count == MaxHistorySize {
        return Failure(HistoryFull);
      }
      count := count + 1;
      if count < slots.Length {
        slots[count] := Some(s);
        r := Success;
      } else {
        r := Panic;
      }
    }

    /** The intended `add`: write the slot at the current count, then bump the count. */
    method AddIntended(s: Space) returns (r: Status)
      requires Valid()
      modifies this, slots
      ensures Valid()
      ensures (State(), r) == AddIntendedSpec(old(State()), s)
    {
      if count == MaxHistorySize {
        return Failure(HistoryFull);
      }
      slots[count] := Some(s);
      count := count + 1;
      r := Success;
    }
  }
}

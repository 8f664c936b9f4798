/** When the recorded fields of one application share no bit. */
module HidDisjoint {
  import opened Bits
  import opened HidTypes
  import opened HidItems
  import opened HidWalk
  import opened HidOffsets

  /** The two families of targets: those of the pointer layout and those of the keyboard layout. */
  datatype Family = Pointer | Keyboard

  predicate Of(t: Target, f: Family) { (t.Ax? || t.Buttons?) == f.Pointer? }

  function LevelOf(s: State, f: Family): int { if f.Pointer? then s.mouseLevel else s.kbdLevel }

  predicate Before(a: Spot, b: Spot) { a.End() <= b.offset }

  /** No two recorded fields of the family share a bit. */
  ghost predicate Apart(s: State, f: Family) {
    forall t, u :: t != u && Of(t, f) && Of(u, f) && Has(s, t) && Has(s, u) ==>
      Before(Recorded(s, t), Recorded(s, u)) || Before(Recorded(s, u), Recorded(s, t))
  }

  /** Every recorded field of the family lies below the cursor. */
  ghost predicate Below(s: State, f: Family) {
    forall t :: Of(t, f) && Has(s, t) ==> Recorded(s, t).End() <= s.cursor
  }

  ghost predicate NothingRecorded(s: State, f: Family) {
    forall t :: Of(t, f) ==> !Has(s, t)
  }

  /** Items that would be recorded with a made-up width have a real one. */
  ghost predicate SizesGiven(s: State, x: Item, f: Family) {
    forall t :: Of(t, f) && Describes(s, x, 0, t) ==> s.g.reportSize >= 1
  }

  /** While the application is open, the report id changes only before its first recorded field. */
  ghost predicate IdStable(s: State, x: Item, f: Family) {
    ChangesId(s, x) && LevelOf(s, f) >= 0 ==> NothingRecorded(s, f)
  }

  ghost predicate WellLaidOut(xs: seq<Item>, f: Family) {
    forall k :: 0 <= k < |xs| ==> SizesGiven(Run(INIT, xs[..k]), xs[k], f) && IdStable(Run(INIT, xs[..k]), xs[k], f)
  }

  ghost predicate LaidOut(s: State, f: Family) {
    && Apart(s, f)
    && (LevelOf(s, f) != CLOSED ==> Below(s, f))
    && (LevelOf(s, f) == NOT_SEEN ==> NothingRecorded(s, f))
    && LevelOf(s, f) >= CLOSED
  }

  /** A field an Input item places lies between the cursor before and the cursor after it. */
  lemma PlacedInside(s: State, x: Item, i: nat, t: Target)
    requires Carries(s, x, s.cursor, i, t)
    requires !t.Ax? ==> s.g.reportSize >= 1
    ensures s.cursor <= Place(s.g, s.cursor, i, t).offset
    ensures Place(s.g, s.cursor, i, t).End() <= s.cursor + s.g.reportSize * s.g.reportCount
  {
    hide LeNat, UsageForSlot, IsAxis, UsagesAreModifiers, PointerSlots, KeyboardSlots;
    if t.Ax? {
      SlotBound(i, s.g.reportCount, s.g.reportSize);
    } else if t.Buttons? {
      MulMono(Min(s.g.reportCount, MAX_BUTTONS), s.g.reportCount, s.g.reportSize);
    }
  }

  /** Two fields one item places for one family come from different slots, so one ends before the other starts. */
  lemma PlacedApart(s: State, x: Item, i: nat, t: Target, j: nat, u: Target, f: Family)
    requires Carries(s, x, s.cursor, i, t) && Carries(s, x, s.cursor, j, u)
    requires t != u && Of(t, f) && Of(u, f)
    ensures Before(Place(s.g, s.cursor, i, t), Place(s.g, s.cursor, j, u))
            || Before(Place(s.g, s.cursor, j, u), Place(s.g, s.cursor, i, t))
  {
    hide LeNat, UsageForSlot, UsagesAreModifiers, PointerSlots, KeyboardSlots, Place, Before, IsAxis, IsVariable;
    AxisUnique(UsageForSlot(s.g, s.l, i));
    assert t.Ax? && u.Ax? && i != j;
    if i < j { SlotsInOrder(s.g, s.cursor, i, t, j, u); } else { SlotsInOrder(s.g, s.cursor, j, u, i, t); }
  }

  lemma SlotsInOrder(g: Globals, b: nat, i: nat, t: Target, j: nat, u: Target)
    requires t.Ax? && u.Ax? && i < j
    ensures Before(Place(g, b, i, t), Place(g, b, j, u))
  {
    MulMono(i + 1, j, g.reportSize);
  }

  lemma NonInputRecordsNothing(s: State, x: Item, t: Target)
    requires !IsInput(x)
    ensures Recorded(Step(s, x), t) == Recorded(s, t)
  {
    hide LeNat, SignedItem, AssignInput, AssignKbdInput;
  }

  lemma StepLevel(s: State, x: Item, f: Family)
    ensures IsInput(x) || ChangesId(s, x) ==> LevelOf(Step(s, x), f) == LevelOf(s, f)
    ensures LevelOf(Step(s, x), f) == NOT_SEEN ==> LevelOf(s, f) == NOT_SEEN
    ensures LevelOf(s, f) == CLOSED ==> LevelOf(Step(s, x), f) == CLOSED
    ensures LevelOf(s, f) >= CLOSED ==> LevelOf(Step(s, x), f) >= CLOSED
  {
    hide LeNat, SignedItem, AssignInput, AssignKbdInput;
  }

  /** What the step does to one target: it keeps the field, leaves it absent, or places it. */
  lemma StepTarget(s: State, x: Item, t: Target, f: Family) returns (i: nat)
    requires IsInput(x) && s.cursor + ITEM_BITS_MAX <= UINT32_MAX
    requires Of(t, f) && SizesGiven(s, x, f) && Has(Step(s, x), t)
    ensures if Has(s, t) then Recorded(Step(s, x), t) == Recorded(s, t)
            else && Carries(s, x, s.cursor, i, t) && Recorded(Step(s, x), t) == Place(s.g, s.cursor, i, t)
                 && LevelOf(s, f) >= 0
                 && s.cursor <= Recorded(Step(s, x), t).offset
                 && Recorded(Step(s, x), t).End() <= s.cursor + s.g.reportSize * s.g.reportCount
  {
    hide Step, Recorded, Place, UsageForSlot, IsAxis, UsagesAreModifiers;
    i := 0;
    if Has(s, t) {
      StepKeepsRecorded(s, x, t);
    } else {
      i := StepRecords(s, x, t);
      PlacedInside(s, x, i, t);
    }
  }

  lemma StepLaidOut(s: State, x: Item, f: Family)
    requires LaidOut(s, f) && SizesGiven(s, x, f) && IdStable(s, x, f)
    requires IsInput(x) ==> s.cursor + ITEM_BITS_MAX <= UINT32_MAX
    ensures LaidOut(Step(s, x), f)
  {
    hide Step, Recorded, Place, Carries, SizesGiven, ChangesId, Has, Of;
    var s' := Step(s, x);
    StepCursor(s, x);
    StepLevel(s, x, f);
    if IsInput(x) {
      ProductBound(s.g.reportSize, s.g.reportCount);
      forall t | Of(t, f) && Has(s', t) && LevelOf(s, f) != CLOSED
        ensures Recorded(s', t).End() <= s'.cursor && LevelOf(s', f) != NOT_SEEN
      {
        var i := StepTarget(s, x, t, f);
      }
      forall t, u | t != u && Of(t, f) && Of(u, f) && Has(s', t) && Has(s', u)
        ensures Before(Recorded(s', t), Recorded(s', u)) || Before(Recorded(s', u), Recorded(s', t))
      {
        var i := StepTarget(s, x, t, f);
        var j := StepTarget(s, x, u, f);
        if !Has(s, t) && !Has(s, u) {
          PlacedApart(s, x, i, t, j, u, f);
        }
      }
    } else {
      forall t ensures Recorded(s', t) == Recorded(s, t) && Has(s', t) == Has(s, t) {
        NonInputRecordsNothing(s, x, t);
        HasIsSize(s, t);
        HasIsSize(s', t);
      }
    }
  }

  lemma HasIsSize(s: State, t: Target)
    ensures Has(s, t) == (Recorded(s, t).size != 0)
  {}

  /**
   * Under exact arithmetic, if no button run, modifier run or key array has report size 0 and the id
   * does not change between recorded fields, then no two fields of an application share a bit, and
   * until it closes all of them lie below the cursor.
   */
  lemma {:induction false} FieldsDisjoint(xs: seq<Item>, f: Family)
    requires NoWrap(xs) && WellLaidOut(xs, f)
    ensures Apart(Run(INIT, xs), f)
    ensures LevelOf(Run(INIT, xs), f) != CLOSED ==> Below(Run(INIT, xs), f)
    ensures LaidOut(Run(INIT, xs), f)
    decreases |xs|
  {
    hide Step, SizesGiven, IdStable;
    if |xs| == 0 {
      InitLaidOut(f);
    } else {
      var n := |xs| - 1;
      NoWrapPrefix(xs, n);
      forall k | 0 <= k < n
        ensures SizesGiven(Run(INIT, xs[..n][..k]), xs[..n][k], f) && IdStable(Run(INIT, xs[..n][..k]), xs[..n][k], f)
      {
        assert xs[..n][..k] == xs[..k];
      }
      FieldsDisjoint(xs[..n], f);
      CursorExact(xs[..n]);
      StepLaidOut(Run(INIT, xs[..n]), xs[n], f);
    }
  }

  lemma InitLaidOut(f: Family)
    ensures LaidOut(INIT, f)
  {
    forall t ensures !Has(INIT, t) { NothingAtFirst(t); }
  }
}

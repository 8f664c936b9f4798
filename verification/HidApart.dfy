/** Exactly when two recorded fields of one application share a bit. */
module HidApart {
  import opened Bits
  import opened HidItems
  import opened HidWalk
  import opened HidOffsets
  import opened HidDisjoint

  /** The first place for t is in item k. */
  ghost predicate FirstAt(xs: seq<Item>, t: Target, k: nat) { exists i: nat :: FirstPlace(xs, k, i, t) }

  /** Item k is met with report size 0, so a run it records has a width the parser makes up. */
  predicate MadeUp(xs: seq<Item>, k: nat) { k < |xs| && Run(INIT, xs[..k]).g.reportSize == 0 }

  ghost predicate IdChanges(xs: seq<Item>, a: nat, b: nat) {
    exists j: nat :: a <= j < b && IdChangesAt(xs, j)
  }

  predicate IdChangesAt(xs: seq<Item>, j: nat) { j < |xs| && ChangesId(Run(INIT, xs[..j]), xs[j]) }

  /** What separates items k and m can put a field of m on the bits of a field of k. */
  ghost predicate Suspect(xs: seq<Item>, k: nat, m: nat) { k < m && (MadeUp(xs, k) || IdChanges(xs, k, m)) }

  /** The field slot i of item k places for t, in unbounded arithmetic on the items before it. */
  function PlaceAt(xs: seq<Item>, k: nat, i: nat, t: Target): Spot
    requires k < |xs|
  {
    Place(Run(INIT, xs[..k]).g, BitsSince(xs[..k]), i, t)
  }

  predicate Disjoint(a: Spot, b: Spot) { Before(a, b) || Before(b, a) }

  /** A first place is what is recorded. */
  lemma FirstPlaceIsRecorded(xs: seq<Item>, t: Target, k: nat, i: nat)
    requires NoWrap(xs) && FirstPlace(xs, k, i, t)
    ensures Has(Run(INIT, xs), t)
    ensures k < |xs| && Recorded(Run(INIT, xs), t) == PlaceAt(xs, k, i, t)
  {
    hide CarriesAt, Has, Recorded, Place, NoWrap, Run;
    var k', i' := RecordedIsFirstPlace(xs, t);
    assert CarriesAt(xs, k, i, t);
    CarriedInside(xs, t, k, i);
  }

  lemma CarriedInside(xs: seq<Item>, t: Target, k: nat, i: nat)
    requires CarriesAt(xs, k, i, t)
    ensures k < |xs|
  {}

  lemma RecordedHasFirst(xs: seq<Item>, t: Target) returns (k: nat)
    requires NoWrap(xs) && Has(Run(INIT, xs), t)
    ensures FirstAt(xs, t, k) && k < |xs|
  {
    hide Carries, Has, Recorded, Place, NoWrap, Run;
    var i: nat;
    k, i := RecordedIsFirstPlace(xs, t);
    assert CarriesAt(xs, k, i, t);
  }

  /** Between two points with no id change, the unbounded cursor only grows. */
  lemma {:induction false} BitsGrow(xs: seq<Item>, a: nat, b: nat)
    requires a <= b <= |xs| && !IdChanges(xs, a, b)
    ensures BitsSince(xs[..a]) <= BitsSince(xs[..b])
    decreases b
  {
    hide Step, BitsSince, IdChangesAt;
    if a < b {
      BitsGrow(xs, a, b - 1);
      assert !IdChangesAt(xs, b - 1);
      BitsStep(xs, b - 1);
    }
  }

  lemma BitsStep(xs: seq<Item>, k: nat)
    requires k < |xs| && !IdChangesAt(xs, k)
    ensures BitsSince(xs[..k]) <= BitsSince(xs[..k + 1])
  {
    hide Run, IsInput, ChangesId;
    assert xs[..k + 1][..k] == xs[..k];
    ProductBound(Run(INIT, xs[..k]).g.reportSize, Run(INIT, xs[..k]).g.reportCount);
  }

  /** Where the field of a first place lies: inside the bits of its item. */
  lemma PlacedBetween(xs: seq<Item>, t: Target, k: nat, i: nat)
    requires NoWrap(xs) && CarriesAt(xs, k, i, t)
    ensures BitsSince(xs[..k]) <= PlaceAt(xs, k, i, t).offset
    ensures !MadeUp(xs, k) ==> PlaceAt(xs, k, i, t).End() <= BitsSince(xs[..k + 1])
  {
    hide NoWrap, LeNat, UsageForSlot, UsagesAreModifiers, IsAxis, PointerSlots, KeyboardSlots, Run;
    NoWrapPrefix(xs, k);
    CursorExact(xs[..k]);
    assert xs[..k + 1][..k] == xs[..k];
    CarriedIsInput(Run(INIT, xs[..k]), xs[k], BitsSince(xs[..k]), i, t);
    if !MadeUp(xs, k) {
      PlacedInside(Run(INIT, xs[..k]), xs[k], i, t);
    }
  }

  lemma CarriedIsInput(s: State, x: Item, b: nat, i: nat, t: Target)
    requires Carries(s, x, b, i, t)
    ensures IsInput(x)
  {}

  /** Fields that nothing suspect separates share no bit. */
  lemma UnsuspectedApart(xs: seq<Item>, f: Family, t: Target, k: nat, u: Target, m: nat)
    requires NoWrap(xs) && FirstAt(xs, t, k) && FirstAt(xs, u, m)
    requires t != u && Of(t, f) && Of(u, f) && k <= m && !Suspect(xs, k, m)
    ensures Disjoint(Recorded(Run(INIT, xs), t), Recorded(Run(INIT, xs), u))
  {
    hide NoWrap, Carries, Recorded, Place, Run, MadeUp, IdChanges;
    var i: nat :| FirstPlace(xs, k, i, t);
    var j: nat :| FirstPlace(xs, m, j, u);
    FirstPlaceIsRecorded(xs, t, k, i);
    FirstPlaceIsRecorded(xs, u, m, j);
    if k == m {
      NoWrapPrefix(xs, k);
      CursorExact(xs[..k]);
      PlacedApart(Run(INIT, xs[..k]), xs[k], i, t, j, u, f);
    } else {
      PlacedBetween(xs, t, k, i);
      PlacedBetween(xs, u, m, j);
      IdChangesLater(xs, k, m);
      BitsGrow(xs, k + 1, m);
    }
  }

  lemma IdChangesLater(xs: seq<Item>, k: nat, m: nat)
    requires !IdChanges(xs, k, m)
    ensures !IdChanges(xs, k + 1, m)
  {}

  /** t and u are different fields of one application, first placed at slot i of item k and slot j of item m. */
  ghost predicate FirstPlaces(xs: seq<Item>, f: Family, t: Target, k: nat, i: nat, u: Target, m: nat, j: nat) {
    t != u && Of(t, f) && Of(u, f) && FirstPlace(xs, k, i, t) && FirstPlace(xs, m, j, u)
  }

  /** The places a suspect separation leaves to be compared are disjoint. */
  ghost predicate SuspectsApart(xs: seq<Item>, f: Family) {
    forall t, k: nat, i: nat, u, m: nat, j: nat :: FirstPlaces(xs, f, t, k, i, u, m, j) && Suspect(xs, k, m) ==>
      k < |xs| && m < |xs| && Disjoint(PlaceAt(xs, k, i, t), PlaceAt(xs, m, j, u))
  }

  /**
   * Exactly when the fields of an application share no bit, read off the items alone: when those places do
   * not between which the report id changes, or the first of which has a made-up width. All other pairs
   * are always apart.
   */
  lemma ApartIff(xs: seq<Item>, f: Family)
    requires NoWrap(xs)
    ensures Apart(Run(INIT, xs), f) <==> SuspectsApart(xs, f)
  {
    hide NoWrap, Run, Recorded, Has, Before, FirstPlace, Suspect, Of, PlaceAt;
    var s := Run(INIT, xs);
    if Apart(s, f) {
      forall t, k: nat, i: nat, u, m: nat, j: nat | FirstPlaces(xs, f, t, k, i, u, m, j) && Suspect(xs, k, m)
        ensures k < |xs| && m < |xs| && Disjoint(PlaceAt(xs, k, i, t), PlaceAt(xs, m, j, u))
      {
        FirstPlaceIsRecorded(xs, t, k, i);
        FirstPlaceIsRecorded(xs, u, m, j);
      }
    }
    if SuspectsApart(xs, f) {
      forall t, u | t != u && Of(t, f) && Of(u, f) && Has(s, t) && Has(s, u)
        ensures Disjoint(Recorded(s, t), Recorded(s, u))
      {
        var k := RecordedHasFirst(xs, t);
        var m := RecordedHasFirst(xs, u);
        PairApart(xs, f, t, k, u, m);
      }
    }
  }

  lemma PairApart(xs: seq<Item>, f: Family, t: Target, k: nat, u: Target, m: nat)
    requires NoWrap(xs) && SuspectsApart(xs, f) && t != u && Of(t, f) && Of(u, f)
    requires FirstAt(xs, t, k) && FirstAt(xs, u, m)
    ensures Disjoint(Recorded(Run(INIT, xs), t), Recorded(Run(INIT, xs), u))
  {
    hide NoWrap, Run, Recorded, Before, Of, MadeUp, IdChanges, FirstPlace, PlaceAt;
    var i: nat :| FirstPlace(xs, k, i, t);
    var j: nat :| FirstPlace(xs, m, j, u);
    FirstPlaceIsRecorded(xs, t, k, i);
    FirstPlaceIsRecorded(xs, u, m, j);
    assert FirstPlaces(xs, f, t, k, i, u, m, j) && FirstPlaces(xs, f, u, m, j, t, k, i);
    if k <= m {
      if !Suspect(xs, k, m) { UnsuspectedApart(xs, f, t, k, u, m); }
    } else if !Suspect(xs, m, k) {
      UnsuspectedApart(xs, f, u, m, t, k);
    }
  }

  // ------------------------------------------------------- made-up widths alone

  ghost predicate IdAlwaysStable(xs: seq<Item>, f: Family) {
    forall k: nat :: k < |xs| ==> IdStable(Run(INIT, xs[..k]), xs[k], f)
  }

  /** An application open at two points is open in between. */
  lemma {:induction false} OpenBetween(xs: seq<Item>, f: Family, k: nat, j: nat, m: nat)
    requires k <= j <= m <= |xs| && LevelOf(Run(INIT, xs[..k]), f) >= 0 && LevelOf(Run(INIT, xs[..m]), f) >= 0
    ensures LevelOf(Run(INIT, xs[..j]), f) >= 0
  {
    LevelForward(xs, f, k, j);
    LevelForward(xs, f, j, m);
  }

  /** A level once seen is not unseen, and once closed is not reopened. */
  lemma {:induction false} LevelForward(xs: seq<Item>, f: Family, a: nat, b: nat)
    requires a <= b <= |xs|
    ensures LevelOf(Run(INIT, xs[..a]), f) == CLOSED ==> LevelOf(Run(INIT, xs[..b]), f) == CLOSED
    ensures LevelOf(Run(INIT, xs[..b]), f) == NOT_SEEN ==> LevelOf(Run(INIT, xs[..a]), f) == NOT_SEEN
    ensures LevelOf(Run(INIT, xs[..b]), f) >= CLOSED
    decreases b
  {
    hide Step;
    if a < b {
      LevelForward(xs, f, a, b - 1);
      assert xs[..b][..b - 1] == xs[..b - 1];
      StepLevel(Run(INIT, xs[..b - 1]), xs[b - 1], f);
    } else if b > 0 {
      LevelForward(xs, f, 0, b - 1);
      assert xs[..b][..b - 1] == xs[..b - 1];
      StepLevel(Run(INIT, xs[..b - 1]), xs[b - 1], f);
    }
  }

  /** With a stable id, the id does not change between the places of two fields of one application. */
  lemma StableBetween(xs: seq<Item>, f: Family, t: Target, k: nat, i: nat, u: Target, m: nat, j: nat)
    requires NoWrap(xs) && IdAlwaysStable(xs, f) && Of(t, f) && Of(u, f) && k < m
    requires CarriesAt(xs, k, i, t) && CarriesAt(xs, m, j, u)
    ensures !IdChanges(xs, k, m)
  {
    hide NoWrap, Run, Carries, ChangesId, IdStable, LevelOf, Of;
    CarriedInOpen(Run(INIT, xs[..k]), xs[k], BitsSince(xs[..k]), i, t, f);
    CarriedInOpen(Run(INIT, xs[..m]), xs[m], BitsSince(xs[..m]), j, u, f);
    forall n: nat | k <= n < m ensures !IdChangesAt(xs, n) {
      OpenBetween(xs, f, k, n, m);
      if n == k {
        InputKeepsId(Run(INIT, xs[..k]), xs[k]);
      } else {
        NoWrapPrefix(xs, n);
        CarriesAtPrefix(xs, n, k, i, t);
        var k', i' := RecordedIsFirstPlace(xs[..n], t);
        StableHere(Run(INIT, xs[..n]), xs[n], f, t);
      }
    }
  }

  lemma CarriedInOpen(s: State, x: Item, b: nat, i: nat, t: Target, f: Family)
    requires Carries(s, x, b, i, t) && Of(t, f)
    ensures LevelOf(s, f) >= 0 && IsInput(x)
  {}

  lemma InputKeepsId(s: State, x: Item)
    requires IsInput(x)
    ensures !ChangesId(s, x)
  {}

  lemma StableHere(s: State, x: Item, f: Family, t: Target)
    requires IdStable(s, x, f) && LevelOf(s, f) >= 0 && Of(t, f) && Has(s, t)
    ensures !ChangesId(s, x)
  {
    hide ChangesId, LevelOf, Has, Of;
  }

  /** Every run placed with a made-up width ends at or before whatever is first placed after it. */
  ghost predicate MadeUpEndBefore(xs: seq<Item>, f: Family) {
    forall t, k: nat, i: nat, u, m: nat, j: nat :: FirstPlaces(xs, f, t, k, i, u, m, j) && k < m && MadeUp(xs, k) ==>
      m < |xs| && Before(PlaceAt(xs, k, i, t), PlaceAt(xs, m, j, u))
  }

  /** A field placed after a run of made-up width cannot lie before it. */
  lemma NotBefore(xs: seq<Item>, f: Family, t: Target, k: nat, i: nat, u: Target, m: nat, j: nat)
    requires NoWrap(xs) && IdAlwaysStable(xs, f) && FirstPlaces(xs, f, t, k, i, u, m, j) && k < m < |xs| && MadeUp(xs, k)
    ensures !Before(PlaceAt(xs, m, j, u), PlaceAt(xs, k, i, t))
  {
    hide NoWrap, Run, BitsSince, IdChanges, IdAlwaysStable, Describes;
    StableBetween(xs, f, t, k, i, u, m, j);
    BitsGrow(xs, k, m);
    MadeUpIsRun(Run(INIT, xs[..k]), xs[k], i, t);
    PlacedBetween(xs, u, m, j);
    PlaceNonEmpty(Run(INIT, xs[..m]), xs[m], BitsSince(xs[..m]), j, u);
  }

  lemma MadeUpIsRun(s: State, x: Item, i: nat, t: Target)
    requires Describes(s, x, i, t) && s.g.reportSize == 0
    ensures !t.Ax?
  {}

  lemma PlaceNonEmpty(s: State, x: Item, b: nat, i: nat, u: Target)
    requires Describes(s, x, i, u) && !u.Buttons?
    ensures Place(s.g, b, i, u).count * Place(s.g, b, i, u).size > 0
  {
    hide LeNat, UsageForSlot, UsagesAreModifiers, IsAxis, PointerSlots, KeyboardSlots;
    MulMono(1, Place(s.g, b, i, u).count, Place(s.g, b, i, u).size);
  }

  /**
   * When the id is stable, made-up widths are the only cause: the fields share no bit exactly when every
   * run of made-up width ends before the fields placed after it.
   */
  lemma MadeUpWidthsIff(xs: seq<Item>, f: Family)
    requires NoWrap(xs) && IdAlwaysStable(xs, f)
    ensures Apart(Run(INIT, xs), f) <==> MadeUpEndBefore(xs, f)
  {
    hide NoWrap, Run, Before, FirstPlaces, Apart, MadeUp, IdAlwaysStable, IdChanges, PlaceAt;
    ApartIff(xs, f);
    if SuspectsApart(xs, f) {
      forall t, k: nat, i: nat, u, m: nat, j: nat | FirstPlaces(xs, f, t, k, i, u, m, j) && k < m && MadeUp(xs, k)
        ensures m < |xs| && Before(PlaceAt(xs, k, i, t), PlaceAt(xs, m, j, u))
      {
        assert Suspect(xs, k, m);
        NotBefore(xs, f, t, k, i, u, m, j);
      }
    }
    if MadeUpEndBefore(xs, f) {
      forall t, k: nat, i: nat, u, m: nat, j: nat | FirstPlaces(xs, f, t, k, i, u, m, j) && Suspect(xs, k, m)
        ensures k < |xs| && m < |xs| && Disjoint(PlaceAt(xs, k, i, t), PlaceAt(xs, m, j, u))
      {
        SuspectIsMadeUp(xs, f, t, k, i, u, m, j);
      }
    }
  }

  lemma SuspectIsMadeUp(xs: seq<Item>, f: Family, t: Target, k: nat, i: nat, u: Target, m: nat, j: nat)
    requires NoWrap(xs) && IdAlwaysStable(xs, f) && FirstPlaces(xs, f, t, k, i, u, m, j) && Suspect(xs, k, m)
    ensures MadeUp(xs, k) && k < m
  {
    hide NoWrap, Run, Of, MadeUp, IdAlwaysStable, IdChanges, CarriesAt;
    StableBetween(xs, f, t, k, i, u, m, j);
  }
}

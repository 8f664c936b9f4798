/**
 * Which report id a layout is given: the one in force at the first item that settles it, which need
 * not be the one its fields are in.
 */
module HidReportIds {
  import opened Bits
  import opened HidTypes
  import opened HidItems
  import opened HidWalk
  import opened HidOffsets
  import opened HidDisjoint

  /** The layout's report id. */
  function ReportIdOf(s: State, f: Family): byte { if f.Pointer? then s.ptr.reportId else s.kbd.reportId }

  /** The report id in force at item k. */
  function IdAt(xs: seq<Item>, k: nat): byte
    requires k < |xs|
  {
    Run(INIT, xs[..k]).g.reportId
  }

  /** x is an Input item of the open application that the layout looks at. */
  predicate Met(s: State, x: Item, f: Family) {
    if f.Pointer? then PointerSlots(s, x) else IsInput(x) && !IsConstant(UnsignedItem(x.data)) && s.kbdLevel >= 0
  }

  /** Targets whose presence settles the id: not the wheels. */
  predicate Settles(t: Target, f: Family) {
    if f.Pointer? then t == Buttons || t == Ax(X) || t == Ax(Y) else t == Modifiers || t == Keys
  }

  ghost predicate CarriesSettler(s: State, x: Item, b: nat, f: Family) {
    exists t, i: nat :: Settles(t, f) && Carries(s, x, b, i, t)
  }

  /** Item k settles the id: it is met, and its id is not 0 or it has a place for a settling field. */
  ghost predicate SettlesAt(xs: seq<Item>, k: nat, f: Family) {
    && k < |xs| && Met(Run(INIT, xs[..k]), xs[k], f)
    && (IdAt(xs, k) != 0 || CarriesSettler(Run(INIT, xs[..k]), xs[k], BitsSince(xs[..k]), f))
  }

  ghost predicate FirstSettler(xs: seq<Item>, k: nat, f: Family) {
    SettlesAt(xs, k, f) && forall j: nat :: SettlesAt(xs, j, f) ==> k <= j
  }

  ghost predicate HasSettler(s: State, f: Family) { exists t :: Settles(t, f) && Has(s, t) }

  /** The id is taken exactly while it is 0 and no settling field is recorded, from items that are met. */
  lemma StepReportId(s: State, x: Item, f: Family)
    ensures ReportIdOf(Step(s, x), f)
            == if Met(s, x, f) && ReportIdOf(s, f) == 0 && !HasSettler(s, f) then s.g.reportId else ReportIdOf(s, f)
  {
    hide Step, LeNat, AssignSlots, IsConstant, IsVariable;
    StepLayouts(s, x);
    HasSettlerIs(s, f);
    SlotsKeepId(LockPointer(s.ptr, s.g), s.g, s.l, s.cursor, s.g.reportCount);
  }

  lemma HasSettlerIs(s: State, f: Family)
    ensures HasSettler(s, Pointer) <==> s.ptr.buttons.bitSize != 0 || s.ptr.x.bitSize != 0 || s.ptr.y.bitSize != 0
    ensures HasSettler(s, Keyboard) <==> s.kbd.modifiers.bitSize != 0 || s.kbd.keys.bitSize != 0
  {
    assert Settles(Buttons, Pointer) && Settles(Ax(X), Pointer) && Settles(Ax(Y), Pointer);
    assert Settles(Modifiers, Keyboard) && Settles(Keys, Keyboard);
    assert GetAxis(s.ptr, X) == s.ptr.x && GetAxis(s.ptr, Y) == s.ptr.y;
    assert Has(s, Buttons) <==> s.ptr.buttons.bitSize != 0;
    assert Has(s, Ax(X)) <==> s.ptr.x.bitSize != 0;
    assert Has(s, Ax(Y)) <==> s.ptr.y.bitSize != 0;
    assert Has(s, Modifiers) <==> s.kbd.modifiers.bitSize != 0;
    assert Has(s, Keys) <==> s.kbd.keys.bitSize != 0;
  }

  lemma {:induction false} SlotsKeepId(o: PointerLayout, g: Globals, l: Locals, start: uint32, n: nat)
    ensures AssignSlots(o, g, l, start, n).reportId == o.reportId
    decreases n
  {
    if n > 0 { SlotsKeepId(o, g, l, start, n - 1); }
  }

  lemma CarrierIsMet(s: State, x: Item, b: nat, f: Family)
    requires CarriesSettler(s, x, b, f)
    ensures Met(s, x, f)
  {
    hide LeNat, UsageForSlot, IsAxis, UsagesAreModifiers, IsConstant, IsVariable;
  }

  /** A settling field appears exactly through an item that has a place for one. */
  lemma StepSettler(s: State, x: Item, f: Family)
    requires IsInput(x) ==> s.cursor + ITEM_BITS_MAX <= UINT32_MAX
    requires !HasSettler(s, f)
    ensures HasSettler(Step(s, x), f) <==> CarriesSettler(s, x, s.cursor, f)
  {
    hide Step, Carries, Has, Place, IsInput, Recorded;
    forall t | Settles(t, f) ensures Has(Step(s, x), t) <==> exists i: nat :: Carries(s, x, s.cursor, i, t) {
      var i := StepRecords(s, x, t);
    }
  }

  lemma StepKeepsSettler(s: State, x: Item, f: Family)
    requires HasSettler(s, f)
    ensures HasSettler(Step(s, x), f)
  {
    hide Step, Recorded;
    var t :| Settles(t, f) && Has(s, t);
    StepKeepsRecorded(s, x, t);
  }

  lemma SettlesAtPrefix(xs: seq<Item>, n: nat, k: nat, f: Family)
    requires k < n <= |xs|
    ensures SettlesAt(xs, k, f) == SettlesAt(xs[..n], k, f)
  {
    assert xs[..n][..k] == xs[..k];
  }

  /**
   * The report id of a layout is the one in force at the first item that settles it, and 0 if no item
   * does; a settling field is recorded only if some item settles it.
   */
  lemma {:induction false} ReportIdIsFirstSettlers(xs: seq<Item>, f: Family) returns (k: nat)
    requires NoWrap(xs)
    ensures (exists j: nat :: SettlesAt(xs, j, f)) ==> FirstSettler(xs, k, f) && ReportIdOf(Run(INIT, xs), f) == IdAt(xs, k)
    ensures !(exists j: nat :: SettlesAt(xs, j, f)) ==> ReportIdOf(Run(INIT, xs), f) == 0
    ensures (exists j: nat :: SettlesAt(xs, j, f)) <==> ReportIdOf(Run(INIT, xs), f) != 0 || HasSettler(Run(INIT, xs), f)
    decreases |xs|
  {
    hide Step, CarriesSettler, Met, HasSettler, ReportIdOf, IsInput;
    k := 0;
    if |xs| == 0 {
      NothingSettled(f);
    } else {
      var n := |xs| - 1;
      var init := xs[..n];
      NoWrapPrefix(xs, n);
      k := ReportIdIsFirstSettlers(init, f);
      CursorExact(init);
      var s := Run(INIT, init);
      assert Run(INIT, xs) == Step(s, xs[n]);
      StepReportId(s, xs[n], f);
      forall j: nat | j < n ensures SettlesAt(xs, j, f) == SettlesAt(init, j, f) { SettlesAtPrefix(xs, n, j, f); }
      if exists j: nat :: SettlesAt(init, j, f) {
        assert init[..k] == xs[..k];
        assert k < n && SettlesAt(xs, k, f) && IdAt(xs, k) == IdAt(init, k);
        assert ReportIdOf(s, f) == IdAt(xs, k);
        assert ReportIdOf(s, f) != 0 || HasSettler(s, f);
        if HasSettler(s, f) { StepKeepsSettler(s, xs[n], f); }
      } else {
        assert forall j: nat :: SettlesAt(xs, j, f) ==> j == n;
        assert SettlesAt(xs, n, f) <==> Met(s, xs[n], f) && (s.g.reportId != 0 || CarriesSettler(s, xs[n], s.cursor, f));
        StepSettler(s, xs[n], f);
        if CarriesSettler(s, xs[n], s.cursor, f) { CarrierIsMet(s, xs[n], s.cursor, f); }
        k := n;
      }
    }
  }

  lemma NothingSettled(f: Family)
    ensures ReportIdOf(INIT, f) == 0 && !HasSettler(INIT, f)
  {
    HasSettlerIs(INIT, f);
  }

  /**
   * The layout carries the id of the report its field t is in (X, say, or the key array) exactly when
   * the first item that settles the id, which comes no later than t's own, is in that report.
   */
  lemma ReportIdIsTheFieldsIff(xs: seq<Item>, f: Family, t: Target) returns (k: nat, m: nat, i: nat)
    requires NoWrap(xs) && Settles(t, f) && Has(Run(INIT, xs), t)
    ensures FirstPlace(xs, m, i, t) && m < |xs|
    ensures FirstSettler(xs, k, f) && k <= m
    ensures ReportIdOf(Run(INIT, xs), f) == IdAt(xs, m) <==> IdAt(xs, k) == IdAt(xs, m)
  {
    hide Run, Carries, Recorded, Place, Met, NoWrap, Has;
    m, i := RecordedIsFirstPlace(xs, t);
    assert CarriesAt(xs, m, i, t);
    assert CarriesSettler(Run(INIT, xs[..m]), xs[m], BitsSince(xs[..m]), f);
    CarrierIsMet(Run(INIT, xs[..m]), xs[m], BitsSince(xs[..m]), f);
    assert SettlesAt(xs, m, f);
    k := ReportIdIsFirstSettlers(xs, f);
  }

  /** For every map of at most 66051 bytes, whichever application. */
  lemma ReportIdExact(bytes: seq<byte>, f: Family) returns (k: nat)
    requires |bytes| <= EXACT_MAP_MAX
    ensures var xs := Items(bytes);
            var id := if f.Pointer? then ParsePointer(bytes).reportId else ParseKeyboard(bytes).reportId;
            if exists j: nat :: SettlesAt(xs, j, f) then FirstSettler(xs, k, f) && id == IdAt(xs, k) else id == 0
  {
    hide Run, Items, SettlesAt, FirstSettler, NoWrap;
    ShortMapsDoNotWrap(bytes);
    k := ReportIdIsFirstSettlers(Items(bytes), f);
  }
}

/**
 * Where the recorded fields sit: the cursor against the unbounded sum of the Input items, each
 * field against the first item that carries it, and when the fields share no bit.
 */
module HidOffsets {
  import opened Bits
  import opened HidTypes
  import opened HidItems
  import opened HidWalk
  import opened HidWalkLaws

  // -------------------------------------------------------- the unbounded cursor

  /** The most one Input item can add: 255 fields of 255 bits. */
  const ITEM_BITS_MAX := 65025

  /** The longest map for which no 32-bit addition of the parser can wrap. */
  const EXACT_MAP_MAX := 66051

  predicate IsInput(x: Item) { x.kind == Main && x.tag == TAG_INPUT && |x.data| <= 4 }

  predicate ChangesId(s: State, x: Item) {
    x.kind == Global && x.tag == TAG_REPORT_ID && |x.data| <= 4 && U8(UnsignedItem(x.data)) != s.g.reportId
  }

  /** Bits of the Input items since the last Report ID item that changed the id, in unbounded arithmetic. */
  function BitsSince(xs: seq<Item>): nat
    decreases |xs|
  {
    if |xs| == 0 then 0
    else
      var before, x := xs[..|xs| - 1], xs[|xs| - 1];
      var s := Run(INIT, before);
      if IsInput(x) then BitsSince(before) + s.g.reportSize * s.g.reportCount
      else if ChangesId(s, x) then 0
      else BitsSince(before)
  }

  /** Every Input item starts low enough that 65025 more bits stay below 2^32. */
  predicate NoWrap(xs: seq<Item>) {
    forall k :: 0 <= k < |xs| && IsInput(xs[k]) ==> BitsSince(xs[..k]) + ITEM_BITS_MAX <= UINT32_MAX
  }

  lemma ProductBound(a: byte, b: byte)
    ensures 0 <= a * b <= ITEM_BITS_MAX
  {
    MulMono(a, 255, b);
  }

  lemma NoWrapPrefix(xs: seq<Item>, n: nat)
    requires NoWrap(xs) && n <= |xs|
    ensures NoWrap(xs[..n])
  {
    forall k | 0 <= k < n && IsInput(xs[..n][k]) ensures BitsSince(xs[..n][..k]) + ITEM_BITS_MAX <= UINT32_MAX {
      assert xs[..n][..k] == xs[..k];
    }
  }

  /** One item moves the cursor by its bits, resets it on a new id, or leaves it. */
  lemma StepCursor(s: State, x: Item)
    requires IsInput(x) ==> s.cursor + ITEM_BITS_MAX <= UINT32_MAX
    ensures Step(s, x).cursor == if IsInput(x) then s.cursor + s.g.reportSize * s.g.reportCount
                                 else if ChangesId(s, x) then 0 else s.cursor
  {
    hide LeNat, SignedItem, AssignInput, AssignKbdInput;
    ProductBound(s.g.reportSize, s.g.reportCount);
  }

  /** The 32-bit cursor is the unbounded sum: it neither wraps nor saturates. */
  lemma {:induction false} CursorExact(xs: seq<Item>)
    requires NoWrap(xs)
    ensures Run(INIT, xs).cursor == BitsSince(xs)
    decreases |xs|
  {
    hide Step, IsInput, ChangesId;
    if |xs| > 0 {
      var n := |xs| - 1;
      NoWrapPrefix(xs, n);
      CursorExact(xs[..n]);
      StepCursor(Run(INIT, xs[..n]), xs[n]);
    }
  }

  lemma {:induction false} BitsSinceBound(xs: seq<Item>)
    ensures BitsSince(xs) <= ITEM_BITS_MAX * |xs|
    decreases |xs|
  {
    hide Step, IsInput, ChangesId;
    if |xs| > 0 {
      var n := |xs| - 1;
      BitsSinceBound(xs[..n]);
      var s := Run(INIT, xs[..n]);
      ProductBound(s.g.reportSize, s.g.reportCount);
    }
  }

  /** A map of at most 66051 bytes never reaches the wrap. */
  lemma ShortMapsDoNotWrap(bytes: seq<byte>)
    requires |bytes| <= EXACT_MAP_MAX
    ensures NoWrap(Items(bytes))
    ensures Run(INIT, Items(bytes)).cursor == BitsSince(Items(bytes))
  {
    var xs := Items(bytes);
    ItemsBound(bytes);
    forall k | 0 <= k < |xs| && IsInput(xs[k]) ensures BitsSince(xs[..k]) + ITEM_BITS_MAX <= UINT32_MAX {
      BitsSinceBound(xs[..k]);
    }
    CursorExact(xs);
  }

  // ---------------------------------------------- fields and the items carrying them

  datatype Target = Ax(axis: Axis) | Buttons | Modifiers | Keys

  /** A run of `count` fields of `size` bits from bit `offset`, in unbounded arithmetic. */
  datatype Spot = Spot(offset: nat, size: nat, isSigned: bool, count: nat) {
    function End(): nat { offset + count * size }
  }

  function SpotOf(f: Field, count: nat): Spot { Spot(f.bitOffset, f.bitSize, f.isSigned, count) }

  /** What the state has recorded for a target. */
  function Recorded(s: State, t: Target): Spot {
    match t
    case Ax(a) => SpotOf(GetAxis(s.ptr, a), 1)
    case Buttons => SpotOf(s.ptr.buttons, s.ptr.buttonCount)
    case Modifiers => SpotOf(s.kbd.modifiers, 1)
    case Keys => SpotOf(s.kbd.keys, s.kbd.keyCount)
  }

  predicate Has(s: State, t: Target) { Recorded(s, t).size != 0 }

  function OrElse(size: byte, default: byte): byte { if size != 0 then size else default }

  /** The field slot i describes when b bits precede its item: its offset is b plus i * size. */
  function Place(g: Globals, b: nat, i: nat, t: Target): Spot {
    match t
    case Ax(a) => Spot(b + i * g.reportSize, g.reportSize, g.logicalMin < 0, 1)
    case Buttons => Spot(b, OrElse(g.reportSize, 1), false, Min(g.reportCount, MAX_BUTTONS))
    case Modifiers => Spot(b, g.reportCount, false, 1)
    case Keys => Spot(b, OrElse(g.reportSize, 8), false, g.reportCount)
  }

  /** x is an Input item whose slots the pointer layout looks at. */
  predicate PointerSlots(s: State, x: Item) {
    && IsInput(x) && !IsConstant(UnsignedItem(x.data)) && IsVariable(UnsignedItem(x.data))
    && s.mouseLevel >= 0
  }

  predicate KeyboardSlots(s: State, x: Item) {
    IsInput(x) && !IsConstant(UnsignedItem(x.data)) && s.kbdLevel >= 0 && s.g.usagePage == PAGE_KEYBOARD
  }

  /** Slot i of the item x, met in state s, has the application, the usage and the shape of target t. */
  predicate Describes(s: State, x: Item, i: nat, t: Target) {
    match t
    case Ax(a) =>
      && PointerSlots(s, x) && s.g.usagePage != PAGE_BUTTON
      && i < s.g.reportCount && IsAxis(UsageForSlot(s.g, s.l, i), a) && s.g.reportSize != 0
    case Buttons => i == 0 && PointerSlots(s, x) && s.g.usagePage == PAGE_BUTTON
    case Modifiers =>
      && i == 0 && KeyboardSlots(s, x) && IsVariable(UnsignedItem(x.data)) && UsagesAreModifiers(s.l)
      && OrElse(s.g.reportSize, 1) == 1 && 0 < s.g.reportCount <= 8
    case Keys => i == 0 && KeyboardSlots(s, x) && !IsVariable(UnsignedItem(x.data)) && s.g.reportCount > 0
  }

  /** The slot describes t and, with b bits before its item, ends at or below bit 0xFFFF. */
  predicate Carries(s: State, x: Item, b: nat, i: nat, t: Target) {
    Describes(s, x, i, t) && Place(s.g, b, i, t).End() <= BIT_OFFSET_MAX
  }

  lemma SlotBound(i: nat, count: byte, size: byte)
    requires i < count
    ensures i * size + size <= count * size <= ITEM_BITS_MAX
  {
    MulMono(i + 1, count, size);
    ProductBound(count, size);
  }

  /** A usage names at most one axis, so the order of the tests does not matter. */
  lemma AxisUnique(u: uint32)
    ensures forall a, b :: IsAxis(u, a) && IsAxis(u, b) ==> a == b
  {}

  lemma AssignSlotAxis(o: PointerLayout, g: Globals, l: Locals, start: uint32, i: nat, a: Axis)
    ensures GetAxis(AssignSlot(o, g, l, start, i), a)
            == if IsAxis(UsageForSlot(g, l, i), a)
               then SetField(GetAxis(o, a), U32(start + i * g.reportSize), g.reportSize, g.logicalMin < 0)
               else GetAxis(o, a)
  {
    hide SetField, U32, UsageForSlot;
    AxisUnique(UsageForSlot(g, l, i));
  }

  /** The 16-bit check adds in uint32, so it is honest while the sum stays below 2^32. */
  lemma SetFieldExact(f: Field, offset: nat, size: byte, signed: bool)
    requires f.bitSize == 0 && size != 0 && offset + size <= UINT32_MAX
    ensures SetField(f, U32(offset), size, signed)
            == if offset + size <= BIT_OFFSET_MAX then Field(offset, size, signed) else f
  {}

  lemma SlotRecords(o: PointerLayout, s: State, x: Item, i: nat, a: Axis)
    requires PointerSlots(s, x) && s.g.usagePage != PAGE_BUTTON && i < s.g.reportCount
    requires s.cursor + ITEM_BITS_MAX <= UINT32_MAX
    requires GetAxis(o, a).bitSize == 0
    ensures var f := GetAxis(AssignSlot(o, s.g, s.l, s.cursor, i), a);
            if Carries(s, x, s.cursor, i, Ax(a)) then SpotOf(f, 1) == Place(s.g, s.cursor, i, Ax(a)) else f.bitSize == 0
  {
    hide LeNat, UsageForSlot, PointerSlots, AssignSlot, SetField, IsAxis, GetAxis;
    SlotBound(i, s.g.reportCount, s.g.reportSize);
    AssignSlotAxis(o, s.g, s.l, s.cursor, i, a);
    if s.g.reportSize != 0 {
      SetFieldExact(GetAxis(o, a), s.cursor + i * s.g.reportSize, s.g.reportSize, s.g.logicalMin < 0);
    } else {
      SetFieldOfSizeZero(GetAxis(o, a), U32(s.cursor + i * s.g.reportSize), s.g.logicalMin < 0);
    }
  }

  /** A slot of size zero may move an absent field, but leaves it absent. */
  lemma SetFieldOfSizeZero(f: Field, offset: uint32, signed: bool)
    requires f.bitSize == 0
    ensures SetField(f, offset, 0, signed).bitSize == 0
  {}

  lemma SlotKeeps(o: PointerLayout, g: Globals, l: Locals, start: uint32, i: nat, a: Axis)
    requires GetAxis(o, a).bitSize != 0
    ensures GetAxis(AssignSlot(o, g, l, start, i), a) == GetAxis(o, a)
  {}

  lemma CarriedHasSize(s: State, x: Item, b: nat, i: nat, t: Target)
    requires Carries(s, x, b, i, t)
    ensures Place(s.g, b, i, t).size != 0
  {}

  /** The slot loop records for an axis exactly the first slot that carries it. */
  lemma {:induction false} SlotsRecordFirst(o: PointerLayout, s: State, x: Item, n: nat, a: Axis) returns (i: nat)
    requires PointerSlots(s, x) && s.g.usagePage != PAGE_BUTTON && n <= s.g.reportCount
    requires s.cursor + ITEM_BITS_MAX <= UINT32_MAX
    requires GetAxis(o, a).bitSize == 0
    ensures var f := SpotOf(GetAxis(AssignSlots(o, s.g, s.l, s.cursor, n), a), 1);
            if f.size == 0 then forall j: nat :: j < n ==> !Carries(s, x, s.cursor, j, Ax(a))
            else && i < n && Carries(s, x, s.cursor, i, Ax(a)) && f == Place(s.g, s.cursor, i, Ax(a))
                 && forall j: nat :: j < i ==> !Carries(s, x, s.cursor, j, Ax(a))
    decreases n
  {
    hide Carries, Place, AssignSlot, PointerSlots, GetAxis;
    i := 0;
    if n > 0 {
      i := SlotsRecordFirst(o, s, x, n - 1, a);
      var o1 := AssignSlots(o, s.g, s.l, s.cursor, n - 1);
      if GetAxis(o1, a).bitSize == 0 {
        SlotRecords(o1, s, x, n - 1, a);
        if Carries(s, x, s.cursor, n - 1, Ax(a)) {
          i := n - 1;
          CarriedHasSize(s, x, s.cursor, i, Ax(a));
        }
      } else {
        SlotKeeps(o1, s.g, s.l, s.cursor, n - 1, a);
      }
    }
  }

  /** What an item does to the two layouts, and to nothing else of them. */
  lemma StepLayouts(s: State, x: Item)
    ensures Step(s, x).ptr == if PointerSlots(s, x) then AssignInput(s.ptr, s.g, s.l, s.cursor) else s.ptr
    ensures IsInput(x) && !IsConstant(UnsignedItem(x.data)) && s.kbdLevel >= 0 ==>
              Step(s, x).kbd == AssignKbdInput(s.kbd, s.g, s.l, s.cursor, UnsignedItem(x.data))
    ensures !(IsInput(x) && !IsConstant(UnsignedItem(x.data)) && s.kbdLevel >= 0) ==> Step(s, x).kbd == s.kbd
  {
    hide AssignInput, AssignKbdInput, LeNat, SignedItem;
  }

  lemma AxisStep(s: State, x: Item, a: Axis) returns (i: nat)
    requires IsInput(x) ==> s.cursor + ITEM_BITS_MAX <= UINT32_MAX
    requires !Has(s, Ax(a))
    ensures if !Has(Step(s, x), Ax(a)) then forall j: nat :: !Carries(s, x, s.cursor, j, Ax(a))
            else && Carries(s, x, s.cursor, i, Ax(a)) && Recorded(Step(s, x), Ax(a)) == Place(s.g, s.cursor, i, Ax(a))
                 && forall j: nat :: j < i ==> !Carries(s, x, s.cursor, j, Ax(a))
  {
    hide Step, AssignSlots, LeNat, UsageForSlot, IsAxis, Place, IsVariable, IsConstant;
    i := 0;
    StepLayouts(s, x);
    if PointerSlots(s, x) && s.g.usagePage != PAGE_BUTTON {
      i := SlotsRecordFirst(LockPointer(s.ptr, s.g), s, x, s.g.reportCount, a);
    }
  }

  lemma ButtonStep(s: State, x: Item)
    requires IsInput(x) ==> s.cursor + ITEM_BITS_MAX <= UINT32_MAX
    requires !Has(s, Buttons)
    ensures if Carries(s, x, s.cursor, 0, Buttons) then Recorded(Step(s, x), Buttons) == Place(s.g, s.cursor, 0, Buttons)
            else !Has(Step(s, x), Buttons)
  {
    hide Step, AssignSlots, LeNat, IsVariable, IsConstant;
    StepLayouts(s, x);
    AssignSlotsKeeps(LockPointer(s.ptr, s.g), s.g, s.l, s.cursor, s.g.reportCount);
    ProductBound(Min(s.g.reportCount, MAX_BUTTONS), OrElse(s.g.reportSize, 1));
  }

  lemma ModifiersExact(o: KeyboardLayout, g: Globals, l: Locals, start: uint32)
    requires o.modifiers.bitSize == 0 && start + ITEM_BITS_MAX <= UINT32_MAX
    ensures AssignModifiers(o, g, l, start).modifiers
            == if g.usagePage == PAGE_KEYBOARD && UsagesAreModifiers(l) && OrElse(g.reportSize, 1) == 1
                  && 0 < g.reportCount <= 8 && start + g.reportCount <= BIT_OFFSET_MAX
               then Field(start, g.reportCount, false) else o.modifiers
  {
    hide UsagesAreModifiers;
    ProductBound(g.reportCount, OrElse(g.reportSize, 1));
    if OrElse(g.reportSize, 1) == 1 {
      assert g.reportCount * OrElse(g.reportSize, 1) == g.reportCount;
    }
  }

  lemma ModifierStep(s: State, x: Item)
    requires IsInput(x) ==> s.cursor + ITEM_BITS_MAX <= UINT32_MAX
    requires !Has(s, Modifiers)
    ensures if Carries(s, x, s.cursor, 0, Modifiers) then Recorded(Step(s, x), Modifiers) == Place(s.g, s.cursor, 0, Modifiers)
            else !Has(Step(s, x), Modifiers)
  {
    hide Step, LeNat, IsVariable, IsConstant, UsagesAreModifiers, AssignModifiers;
    StepLayouts(s, x);
    if IsInput(x) {
      ModifiersExact(LockKeyboard(s.kbd, s.g), s.g, s.l, s.cursor);
      ModifiersOnly(LockKeyboard(s.kbd, s.g), s.g, s.l, s.cursor);
    }
  }

  lemma ModifiersOnly(o: KeyboardLayout, g: Globals, l: Locals, start: uint32)
    ensures AssignModifiers(o, g, l, start).keys == o.keys && AssignModifiers(o, g, l, start).keyCount == o.keyCount
  {}

  lemma KeyStep(s: State, x: Item)
    requires IsInput(x) ==> s.cursor + ITEM_BITS_MAX <= UINT32_MAX
    requires !Has(s, Keys)
    ensures if Carries(s, x, s.cursor, 0, Keys) then Recorded(Step(s, x), Keys) == Place(s.g, s.cursor, 0, Keys)
            else !Has(Step(s, x), Keys)
  {
    hide Step, LeNat, IsVariable, IsConstant, UsagesAreModifiers;
    StepLayouts(s, x);
    ProductBound(s.g.reportCount, OrElse(s.g.reportSize, 8));
  }

  lemma StepKeepsRecorded(s: State, x: Item, t: Target)
    requires Has(s, t)
    ensures Recorded(Step(s, x), t) == Recorded(s, t)
  {
    hide Step;
    StepKeeps(s, x);
  }

  /** One item records a target not yet recorded exactly when one of its slots carries it: the first. */
  lemma StepRecords(s: State, x: Item, t: Target) returns (i: nat)
    requires IsInput(x) ==> s.cursor + ITEM_BITS_MAX <= UINT32_MAX
    requires !Has(s, t)
    ensures if !Has(Step(s, x), t) then forall j: nat :: !Carries(s, x, s.cursor, j, t)
            else && Carries(s, x, s.cursor, i, t) && Recorded(Step(s, x), t) == Place(s.g, s.cursor, i, t)
                 && forall j: nat :: j < i ==> !Carries(s, x, s.cursor, j, t)
  {
    hide Step, IsInput, PointerSlots, KeyboardSlots, UsageForSlot, IsAxis, UsagesAreModifiers, LeNat, Place, Recorded;
    i := 0;
    match t {
      case Ax(a) => i := AxisStep(s, x, a);
      case Buttons => ButtonStep(s, x);
      case Modifiers => ModifierStep(s, x);
      case Keys => KeyStep(s, x);
    }
    if !t.Ax? {
      if Carries(s, x, s.cursor, 0, t) {
        CarriedHasSize(s, x, s.cursor, 0, t);
      }
      assert forall j: nat :: Carries(s, x, s.cursor, j, t) ==> j == 0;
    }
  }

  /** Slot i of item k of a descriptor is a place for t. */
  predicate CarriesAt(xs: seq<Item>, k: nat, i: nat, t: Target) {
    k < |xs| && Carries(Run(INIT, xs[..k]), xs[k], BitsSince(xs[..k]), i, t)
  }

  /** (k, i) is the first place for t, in reading order. */
  ghost predicate FirstPlace(xs: seq<Item>, k: nat, i: nat, t: Target) {
    && CarriesAt(xs, k, i, t)
    && forall k': nat, i': nat :: CarriesAt(xs, k', i', t) ==> k < k' || (k == k' && i <= i')
  }

  lemma CarriesAtPrefix(xs: seq<Item>, n: nat, k: nat, i: nat, t: Target)
    requires k < n <= |xs|
    ensures CarriesAt(xs, k, i, t) == CarriesAt(xs[..n], k, i, t)
  {
    assert xs[..n][..k] == xs[..k];
  }

  /**
   * What a descriptor records for a target is exactly its first place, with the offset in unbounded
   * arithmetic and its end at most 0xFFFF; nothing is recorded exactly when there is no place.
   */
  lemma {:induction false} RecordedIsFirstPlace(xs: seq<Item>, t: Target) returns (k: nat, i: nat)
    requires NoWrap(xs)
    ensures Has(Run(INIT, xs), t) ==>
              && FirstPlace(xs, k, i, t)
              && Recorded(Run(INIT, xs), t) == Place(Run(INIT, xs[..k]).g, BitsSince(xs[..k]), i, t)
    ensures !Has(Run(INIT, xs), t) ==> forall k': nat, i': nat :: !CarriesAt(xs, k', i', t)
    decreases |xs|
  {
    hide Step, Carries, Place, IsInput, Recorded;
    k, i := 0, 0;
    if |xs| == 0 {
      NothingAtFirst(t);
    } else {
      var n := |xs| - 1;
      NoWrapPrefix(xs, n);
      k, i := RecordedIsFirstPlace(xs[..n], t);
      CursorExact(xs[..n]);
      var s := Run(INIT, xs[..n]);
      forall k': nat, i': nat | CarriesAt(xs, k', i', t)
        ensures if k' == n then Carries(s, xs[n], s.cursor, i', t) else CarriesAt(xs[..n], k', i', t)
      {
        if k' < n { CarriesAtPrefix(xs, n, k', i', t); }
      }
      if Has(s, t) {
        StepKeepsRecorded(s, xs[n], t);
        assert xs[..n][..k] == xs[..k];
        CarriesAtPrefix(xs, n, k, i, t);
      } else {
        var j := StepRecords(s, xs[n], t);
        if Has(Run(INIT, xs), t) {
          k, i := n, j;
        }
      }
    }
  }

  lemma NothingAtFirst(t: Target)
    ensures !Has(INIT, t)
  {}

  /** For every map of at most 66051 bytes, each recorded field is where the unbounded sum puts it. */
  lemma OffsetsExact(bytes: seq<byte>, t: Target) returns (k: nat, i: nat)
    requires |bytes| <= EXACT_MAP_MAX
    ensures var xs := Items(bytes); var s := Run(INIT, xs);
            if Has(s, t) then
              && FirstPlace(xs, k, i, t)
              && Recorded(s, t) == Place(Run(INIT, xs[..k]).g, BitsSince(xs[..k]), i, t)
              && Recorded(s, t).End() <= BIT_OFFSET_MAX
            else forall k': nat, i': nat :: !CarriesAt(xs, k', i', t)
  {
    hide Run, Items, Describes, Recorded, BitsSince, Place;
    ShortMapsDoNotWrap(bytes);
    k, i := RecordedIsFirstPlace(Items(bytes), t);
  }
}

/** Descriptors on which the layout's promises fail, showing that the hypotheses of the laws are needed. */
module HidLimits {
  import opened Bits
  import opened HidTypes
  import opened HidItems
  import opened HidWalk
  import opened HidWalkLaws
  import opened HidOffsets
  import opened HidDisjoint
  import opened HidBuild

  /** Logical Minimum (-127), Report Size (8), Report Count (1): the globals of one signed byte. */
  const SIGNED_BYTE := [G(TAG_LOGICAL_MIN, 0x81), G(TAG_REPORT_SIZE, 8), G(TAG_REPORT_COUNT, 1)]

  lemma RunSignedByte(s: State)
    ensures Run(s, SIGNED_BYTE) == s.(g := s.g.(logicalMin := -127, reportSize := 8, reportCount := 1))
  {
    hide Step, Run;
    Run3(s, G(TAG_LOGICAL_MIN, 0x81), G(TAG_REPORT_SIZE, 8), G(TAG_REPORT_COUNT, 1));
    OneByte(0x81);
    Pow2Literals();
    assert Bit(0x81, 7) by { BitOfPow2(7, 7); BitwiseBit(Or, 0x80, 1, 7); assert Pow2(7) == 0x80; OrDisjoint(1, 1, 7); BitwiseBit(Or, 1, Pow2(7), 7); }
    assert SignedItem([0x81]) == -127;
    StepMin(s, [0x81]);
    StepSize(s.(g := s.g.(logicalMin := -127)), 8);
    StepCount(s.(g := s.g.(logicalMin := -127, reportSize := 8)), 1);
  }

  /** One axis on the Generic Desktop page. */
  function AxisItems(usage: byte): seq<Item> { [L(TAG_USAGE, usage), M(TAG_INPUT, 0x06)] }

  predicate ReadyForAxis(s: State) {
    && s.mouseLevel >= 0 && s.kbdLevel < 0 && s.l == NO_LOCALS
    && s.g == Globals(1, -127, 8, 1, s.g.reportId)
  }

  /** What a single-slot item on axis X or Y records: whatever the 32-bit check lets through. */
  function SetXY(o: PointerLayout, a: Axis, c: uint32): PointerLayout {
    if a == X then o.(x := SetField(o.x, c, 8, true)) else o.(y := SetField(o.y, c, 8, true))
  }

  lemma AssignXY(o: PointerLayout, g: Globals, l: Locals, c: uint32, a: Axis)
    requires a == X || a == Y
    requires g == Globals(1, -127, 8, 1, g.reportId)
    requires l == NO_LOCALS.(usages := [MakeUsage(1, if a == X then USAGE_X else USAGE_Y)])
    ensures AssignInput(o, g, l, c) == SetXY(LockPointer(o, g), a, c)
  {
    hide MakeUsage, SetField, IsAxis, LockPointer;
    XYUsages();
    var o1 := LockPointer(o, g);
    assert c + 0 * g.reportSize == c;
    assert UsageForSlot(g, l, 0) == l.usages[0];
    assert AssignSlot(o1, g, l, c, 0) == SetXY(o1, a, c);
    assert AssignSlots(o1, g, l, c, 0) == o1;
  }

  /** The axis goes where the 32-bit check lets it, and the cursor saturates. */
  lemma RunAxis(s: State, a: Axis)
    requires ReadyForAxis(s) && (a == X || a == Y)
    ensures Run(s, AxisItems(if a == X then USAGE_X else USAGE_Y))
            == s.(ptr := SetXY(LockPointer(s.ptr, s.g), a, s.cursor), cursor := Advance(s.cursor, 8))
  {
    hide Step, Run, MakeUsage, SetXY, LockPointer, AssignInput, Bit, Advance;
    var id: byte := if a == X then USAGE_X else USAGE_Y;
    Run2(s, L(TAG_USAGE, id), M(TAG_INPUT, 0x06));
    StepUsage(s, id);
    AddFirstUsage(MakeUsage(1, id));
    var s1 := s.(l := NO_LOCALS.(usages := [MakeUsage(1, id)]));
    StepInput(s1, 6);
    FlagBits();
    AssignXY(s1.ptr, s1.g, s1.l, s1.cursor, a);
  }

  lemma XYUsages()
    ensures forall a: Axis :: IsAxis(MakeUsage(1, USAGE_X), a) <==> a == X
    ensures forall a: Axis :: IsAxis(MakeUsage(1, USAGE_Y), a) <==> a == Y
  {
    UsageParts(1, USAGE_X);
    UsageParts(1, USAGE_Y);
  }

  /** What the parser returns for printed items. */
  lemma ParsedPrint(xs: seq<Item>)
    requires AllEncodable(xs)
    ensures var s := Run(INIT, xs);
            ParsePointer(Print(xs)) == s.ptr.(valid := s.ptr.x.bitSize != 0 && s.ptr.y.bitSize != 0 && s.depth == 0)
  {
    hide Run, Items, Print, AllEncodable;
    ItemsOfPrint(xs);
  }

  lemma SegmentsEncodable(usage: byte)
    ensures AllEncodable(OpenApp(usage)) && AllEncodable(SIGNED_BYTE) && AllEncodable(AxisItems(usage)) && AllEncodable([END])
  {}

  // ------------------------------------------------------ buttons of size zero

  /** A button run declared with Report Size 0 is recorded one bit wide but consumes no bits. */
  const ZERO_SIZE_BUTTONS := [G(TAG_USAGE_PAGE, 0x09), G(TAG_REPORT_COUNT, 3), M(TAG_INPUT, 0x02)]

  function ZeroSizeMouse(): seq<Item> {
    OpenApp(0x02) + ZERO_SIZE_BUTTONS + [G(TAG_USAGE_PAGE, 0x01)] + SIGNED_BYTE + AxisItems(USAGE_X) + AxisItems(USAGE_Y) + [END]
  }

  lemma RunZeroSizeButtons()
    ensures Run(Opened(0x02), ZERO_SIZE_BUTTONS)
            == Opened(0x02).(g := Globals(9, 0, 0, 3, 0), ptr := NO_LAYOUT.(buttons := Field(0, 1, false), buttonCount := 3))
  {
    hide Step, Run, Bit;
    var s := Opened(0x02);
    Run3(s, G(TAG_USAGE_PAGE, 0x09), G(TAG_REPORT_COUNT, 3), M(TAG_INPUT, 0x02));
    StepPage(s, 9);
    StepCount(s.(g := s.g.(usagePage := 9)), 3);
    StepInput(s.(g := s.g.(usagePage := 9, reportCount := 3)), 2);
    FlagBits();
  }

  /** The layout is accepted, yet X lies on top of the buttons. */
  lemma ZeroSizeButtonsOverlap()
    ensures AllEncodable(ZeroSizeMouse()) && ParsePointer(Print(ZeroSizeMouse())).valid
    ensures var s := Run(INIT, ZeroSizeMouse());
            && Has(s, Buttons)
            && Recorded(s, Ax(X)).offset == Recorded(s, Buttons).offset == 0
            && !Apart(s, Pointer)
  {
    hide Step, Run, OpenApp, ZERO_SIZE_BUTTONS, SIGNED_BYTE, AxisItems;
    var a := OpenApp(0x02);
    RunOpenApp(0x02);
    var b := a + ZERO_SIZE_BUTTONS;
    RunConcat(INIT, a, ZERO_SIZE_BUTTONS);
    RunZeroSizeButtons();
    var c := b + [G(TAG_USAGE_PAGE, 0x01)];
    RunConcat(INIT, b, [G(TAG_USAGE_PAGE, 0x01)]);
    RunOne(Run(INIT, b), G(TAG_USAGE_PAGE, 0x01));
    StepPage(Run(INIT, b), 1);
    AxesThenEnd(c);
    Overlap(Run(INIT, ZeroSizeMouse()), Ax(X), Buttons, Pointer);
    ZeroSizeEncodable();
    ParsedPrint(ZeroSizeMouse());
  }

  lemma ZeroSizeEncodable()
    ensures AllEncodable(ZeroSizeMouse())
  {
    hide SIGNED_BYTE, OpenApp, AxisItems;
    SegmentsEncodable(0x02);
    SegmentsEncodable(USAGE_X);
    SegmentsEncodable(USAGE_Y);
  }

  lemma Overlap(s: State, t: Target, u: Target, f: Family)
    requires t != u && Of(t, f) && Of(u, f) && Has(s, t) && Has(s, u)
    requires !Before(Recorded(s, t), Recorded(s, u)) && !Before(Recorded(s, u), Recorded(s, t))
    ensures !Apart(s, f)
  {}

  /** From a state on the Generic Desktop page at cursor 0 with X and Y absent: X, Y, End. */
  lemma AxesThenEnd(c: seq<Item>)
    requires var s := Run(INIT, c);
             s.mouseLevel == 0 && s.kbdLevel < 0 && s.l == NO_LOCALS && s.cursor == 0 && s.depth == 1 && s.g.usagePage == 1
             && s.ptr.buttons.bitSize != 0 && s.ptr.x.bitSize == 0 && s.ptr.y.bitSize == 0
    ensures var s, t := Run(INIT, c), Run(INIT, c + SIGNED_BYTE + AxisItems(USAGE_X) + AxisItems(USAGE_Y) + [END]);
            t.depth == 0 && t.ptr == s.ptr.(x := Field(0, 8, true), y := Field(8, 8, true))
  {
    hide Step, Run, SIGNED_BYTE, AxisItems;
    var d := c + SIGNED_BYTE;
    RunConcat(INIT, c, SIGNED_BYTE);
    RunSignedByte(Run(INIT, c));
    var e := d + AxisItems(USAGE_X);
    RunConcat(INIT, d, AxisItems(USAGE_X));
    RunAxis(Run(INIT, d), X);
    var f := e + AxisItems(USAGE_Y);
    RunConcat(INIT, e, AxisItems(USAGE_Y));
    RunAxis(Run(INIT, e), Y);
    RunConcat(INIT, f, [END]);
    RunOne(Run(INIT, f), END);
    StepEnd(Run(INIT, f));
  }

  // -------------------------------------------------- two reports in one mouse

  function TwoReportMouse(): seq<Item> {
    FIRST_REPORT + [G(TAG_REPORT_ID, 2)] + AxisItems(USAGE_Y) + [END]
  }

  const FIRST_REPORT := OpenApp(0x02) + [G(TAG_REPORT_ID, 1)] + SIGNED_BYTE + AxisItems(USAGE_X)

  lemma RunFirstReport()
    ensures Run(INIT, FIRST_REPORT)
            == Opened(0x02).(g := Globals(1, -127, 8, 1, 1), ptr := NO_LAYOUT.(reportId := 1, x := Field(0, 8, true)), cursor := 8)
  {
    hide Step, Run, OpenApp, SIGNED_BYTE, AxisItems;
    var a := OpenApp(0x02);
    RunOpenApp(0x02);
    var b := a + [G(TAG_REPORT_ID, 1)];
    RunConcat(INIT, a, [G(TAG_REPORT_ID, 1)]);
    RunOne(Opened(0x02), G(TAG_REPORT_ID, 1));
    StepId(Opened(0x02), 1);
    var c := b + SIGNED_BYTE;
    RunConcat(INIT, b, SIGNED_BYTE);
    RunSignedByte(Run(INIT, b));
    RunConcat(INIT, c, AxisItems(USAGE_X));
    RunAxis(Run(INIT, c), X);
  }

  lemma RunSecondReport()
    ensures var s := Run(INIT, TwoReportMouse());
            s.depth == 0 && s.ptr == NO_LAYOUT.(reportId := 1, x := Field(0, 8, true), y := Field(0, 8, true))
  {
    hide Step, Run, FIRST_REPORT, AxisItems;
    RunFirstReport();
    var s1 := Run(INIT, FIRST_REPORT);
    var e := FIRST_REPORT + [G(TAG_REPORT_ID, 2)];
    RunConcat(INIT, FIRST_REPORT, [G(TAG_REPORT_ID, 2)]);
    RunOne(s1, G(TAG_REPORT_ID, 2));
    StepId(s1, 2);
    var f := e + AxisItems(USAGE_Y);
    RunConcat(INIT, e, AxisItems(USAGE_Y));
    RunAxis(Run(INIT, e), Y);
    RunConcat(INIT, f, [END]);
    RunOne(Run(INIT, f), END);
    StepEnd(Run(INIT, f));
  }

  /** X in report 1 and Y in report 2 are recorded in one accepted layout, on the same bits. */
  lemma IdChangeOverlaps()
    ensures AllEncodable(TwoReportMouse()) && ParsePointer(Print(TwoReportMouse())).valid
    ensures var s := Run(INIT, TwoReportMouse());
            && s.ptr.reportId == 1
            && s.ptr.x == s.ptr.y == Field(0, 8, true)
            && !Apart(s, Pointer)
  {
    hide Run, TwoReportMouse;
    RunSecondReport();
    Overlap(Run(INIT, TwoReportMouse()), Ax(X), Ax(Y), Pointer);
    TwoReportEncodable();
    ParsedPrint(TwoReportMouse());
  }

  lemma TwoReportEncodable()
    ensures AllEncodable(TwoReportMouse())
  {
    hide SIGNED_BYTE, OpenApp, AxisItems;
    SegmentsEncodable(0x02);
    SegmentsEncodable(USAGE_X);
    SegmentsEncodable(USAGE_Y);
  }

  // -------------------------------------------------------- a saturated cursor

  function Padding(n: nat): seq<Item> { if n == 0 then [] else Padding(n - 1) + [M(TAG_INPUT, 0x03)] }

  lemma {:induction false} RunPadding(s: State, n: nat)
    requires s.cursor == 0 && s.g.reportSize == 255 && s.g.reportCount == 255 && s.l == NO_LOCALS
    ensures Run(s, Padding(n)) == s.(cursor := Min(n * ITEM_BITS_MAX, UINT32_MAX))
    decreases n
  {
    hide Step, Run;
    if n == 0 {
      RunNil(s);
    } else {
      RunPadding(s, n - 1);
      RunSnoc(s, Padding(n - 1), M(TAG_INPUT, 0x03));
      PaddingStep(Run(s, Padding(n - 1)));
    }
  }

  /** One padding item only moves the cursor, which saturates. */
  lemma PaddingStep(s: State)
    requires s.g.reportSize == 255 && s.g.reportCount == 255 && s.l == NO_LOCALS
    ensures Step(s, M(TAG_INPUT, 0x03)) == s.(cursor := Min(s.cursor + ITEM_BITS_MAX, UINT32_MAX))
  {
    hide Step, Bit, AssignInput, AssignKbdInput;
    StepInput(s, 3);
    FlagBits();
  }

  lemma {:induction false} PaddingEncodable(n: nat)
    ensures AllEncodable(Padding(n))
    decreases n
  {
    if n > 0 { PaddingEncodable(n - 1); }
  }

  /** Constant padding of n items of 255 fields of 255 bits, then X and Y. */
  function PaddedMouse(n: nat): seq<Item> {
    PaddedStart(n) + SIGNED_BYTE + AxisItems(USAGE_X) + AxisItems(USAGE_Y) + [END]
  }

  const WIDEST := [G(TAG_REPORT_SIZE, 255), G(TAG_REPORT_COUNT, 255)]

  function PaddedStart(n: nat): seq<Item> { OpenApp(0x02) + WIDEST + Padding(n) }

  lemma PaddedEncodable(n: nat)
    ensures AllEncodable(PaddedMouse(n))
  {
    hide SIGNED_BYTE, OpenApp, AxisItems, Padding;
    PaddingEncodable(n);
    SegmentsEncodable(0x02);
    SegmentsEncodable(USAGE_X);
    SegmentsEncodable(USAGE_Y);
  }

  lemma RunPaddedStart(n: nat)
    ensures Run(INIT, PaddedStart(n))
            == Opened(0x02).(g := Globals(1, 0, 255, 255, 0), cursor := Min(n * ITEM_BITS_MAX, UINT32_MAX))
  {
    hide Step, Run, OpenApp, Padding;
    var a := OpenApp(0x02);
    RunOpenApp(0x02);
    RunConcat(INIT, a, WIDEST);
    Run2(Run(INIT, a), G(TAG_REPORT_SIZE, 255), G(TAG_REPORT_COUNT, 255));
    StepSize(Run(INIT, a), 255);
    StepCount(Opened(0x02).(g := Opened(0x02).g.(reportSize := 255)), 255);
    RunConcat(INIT, a + WIDEST, Padding(n));
    RunPadding(Run(INIT, a + WIDEST), n);
  }

  /** Where X and Y go behind n paddings: what the 32-bit check lets through, at a cursor that saturates. */
  lemma RunPaddedMouse(n: nat)
    ensures var s := Run(INIT, PaddedMouse(n)); var c: uint32 := Min(n * ITEM_BITS_MAX, UINT32_MAX);
            && s.depth == 0
            && s.ptr == NO_LAYOUT.(x := SetField(ABSENT, c, 8, true), y := SetField(ABSENT, Advance(c, 8), 8, true))
  {
    hide Step, Run, PaddedStart, SIGNED_BYTE, AxisItems;
    var c := PaddedStart(n);
    RunPaddedStart(n);
    var d := c + SIGNED_BYTE;
    RunConcat(INIT, c, SIGNED_BYTE);
    RunSignedByte(Run(INIT, c));
    var e := d + AxisItems(USAGE_X);
    RunConcat(INIT, d, AxisItems(USAGE_X));
    RunAxis(Run(INIT, d), X);
    var f := e + AxisItems(USAGE_Y);
    RunConcat(INIT, e, AxisItems(USAGE_Y));
    RunAxis(Run(INIT, e), Y);
    RunConcat(INIT, f, [END]);
    RunOne(Run(INIT, f), END);
    StepEnd(Run(INIT, f));
  }

  /** What the 32-bit checks let through behind n paddings. */
  lemma PaddedFields(n: nat)
    ensures var c: uint32 := Min(n * ITEM_BITS_MAX, UINT32_MAX);
            var x, y := SetField(ABSENT, c, 8, true), SetField(ABSENT, Advance(c, 8), 8, true);
            && (n >= 66052 ==> x == y == Field(0xFFFF, 8, true))
            && (2 <= n < 66052 ==> x == ABSENT)
            && (n <= 1 ==> x == Field(n * ITEM_BITS_MAX, 8, true) && y == Field(n * ITEM_BITS_MAX + 8, 8, true))
  {}

  /**
   * The promise "an offset that does not fit is not recorded" fails exactly from 66052 padding items on:
   * then the parser accepts a layout whose X and Y both start at bit 0xFFFF and so end past the range,
   * on the same bits. Up to one padding item X and Y fit; in between neither is recorded.
   */
  lemma SaturatedCursorRecords(n: nat)
    ensures AllEncodable(PaddedMouse(n))
    ensures var l := ParsePointer(Print(PaddedMouse(n)));
            && (l.valid && l.x.End() > BIT_OFFSET_MAX <==> n >= 66052)
            && (l.valid <==> n <= 1 || n >= 66052)
            && (n >= 66052 ==> l.x == l.y == Field(0xFFFF, 8, true) && !Apart(Run(INIT, PaddedMouse(n)), Pointer))
  {
    hide Run, PaddedMouse, SetField, Advance, Apart, ParsePointer, Print, AllEncodable;
    RunPaddedMouse(n);
    PaddedEncodable(n);
    ParsedPrint(PaddedMouse(n));
    PaddedFields(n);
    if n >= 66052 {
      Overlap(Run(INIT, PaddedMouse(n)), Ax(X), Ax(Y), Pointer);
    }
  }

  /** The sum of a fit check fits 33 bits, so a sum that wraps always looks small enough. */
  lemma WrappedSumFits(start: uint32, bits: nat)
    requires bits <= ITEM_BITS_MAX
    ensures (U32(start + bits) <= BIT_OFFSET_MAX <==> start + bits <= BIT_OFFSET_MAX) <==> start + bits <= UINT32_MAX
  {}

  /**
   * Each of the parser's four fit checks, met by an absent field it applies to, decides correctly exactly
   * when its 32-bit sum does not wrap: one axis, the button run, the modifier run and the key array.
   */
  lemma FitChecksHonestIff(o: PointerLayout, k: KeyboardLayout, g: Globals, l: Locals, start: uint32, signed: bool)
    requires o.buttons.bitSize == 0 && k.modifiers.bitSize == 0 && k.keys.bitSize == 0
    ensures g.reportSize != 0 ==>
              var end := start + g.reportSize;
              (SetField(ABSENT, start, g.reportSize, signed).bitSize != 0 <==> end <= BIT_OFFSET_MAX) <==> end <= UINT32_MAX
    ensures var end := start + Min(g.reportCount, MAX_BUTTONS) * OrElse(g.reportSize, 1);
            (AssignButtons(o, g, start).buttons.bitSize != 0 <==> end <= BIT_OFFSET_MAX) <==> end <= UINT32_MAX
    ensures g.usagePage == PAGE_KEYBOARD && UsagesAreModifiers(l) && OrElse(g.reportSize, 1) == 1 && 0 < g.reportCount <= 8 ==>
              var end := start + g.reportCount;
              (AssignModifiers(k, g, l, start).modifiers.bitSize != 0 <==> end <= BIT_OFFSET_MAX) <==> end <= UINT32_MAX
    ensures g.usagePage == PAGE_KEYBOARD && g.reportCount > 0 ==>
              var end := start + g.reportCount * OrElse(g.reportSize, 8);
              (AssignKeys(k, g, start).keys.bitSize != 0 <==> end <= BIT_OFFSET_MAX) <==> end <= UINT32_MAX
  {
    hide UsagesAreModifiers, U32;
    WrappedSumFits(start, g.reportSize);
    ProductBound(Min(g.reportCount, MAX_BUTTONS), OrElse(g.reportSize, 1));
    WrappedSumFits(start, Min(g.reportCount, MAX_BUTTONS) * OrElse(g.reportSize, 1));
    ProductBound(g.reportCount, OrElse(g.reportSize, 8));
    WrappedSumFits(start, g.reportCount * OrElse(g.reportSize, 8));
    if OrElse(g.reportSize, 1) == 1 {
      assert g.reportCount * OrElse(g.reportSize, 1) == g.reportCount;
      WrappedSumFits(start, g.reportCount);
    }
  }

  // ------------------------------------------------------------ deep nesting

  const PUSH := Item(Global, TAG_PUSH, [])
  const POP := Item(Global, TAG_POP, [])

  /** n Pushes, then their Pops. */
  function Nest(n: nat): seq<Item> { if n == 0 then [] else [PUSH] + Nest(n - 1) + [POP] }

  lemma {:induction false} NestBalanced(n: nat, rest: seq<Item>, open: nat, room: nat)
    ensures Balanced(Nest(n) + rest, open, room) <==> (n == 0 || open + n <= room) && Balanced(rest, open, room)
    decreases n
  {
    if n == 0 {
      assert Nest(n) + rest == rest;
    } else {
      var inner := Nest(n - 1) + ([POP] + rest);
      assert Nest(n) + rest == [PUSH] + inner;
      assert ([PUSH] + inner)[1..] == inner && ([POP] + rest)[1..] == rest;
      NestBalanced(n - 1, [POP] + rest, open + 1, room);
    }
  }

  /**
   * A Push and its Pop around n matched pairs and a new Report Size, at the start of a descriptor: the
   * old size is back exactly when at most eight Pushes are ever open. With nine it is lost.
   */
  lemma NestingLimit(n: nat, v: byte)
    ensures var xs := Nest(n) + [G(TAG_REPORT_SIZE, v)];
            Run(INIT, Framed(PUSH, xs, POP)).g == if n + 1 <= 8 then INIT.g else Run(Step(INIT, PUSH), xs).g
    ensures n + 1 > 8 ==> Run(INIT, Framed(PUSH, Nest(n) + [G(TAG_REPORT_SIZE, v)], POP)).g.reportSize == v
  {
    hide Run, Step;
    var size := [G(TAG_REPORT_SIZE, v)];
    var xs := Nest(n) + size;
    NestBalanced(n, size, 0, n);
    NestBalanced(n, size, 0, 7);
    SizeBalanced(v, n);
    SizeBalanced(v, 7);
    PushPopRestoresIff(INIT, PUSH, xs, POP, n);
    RunSnoc(Step(INIT, PUSH), Nest(n), size[0]);
    StepSize(Run(Step(INIT, PUSH), Nest(n)), v);
  }

  lemma SizeBalanced(v: byte, room: nat)
    ensures Balanced([G(TAG_REPORT_SIZE, v)], 0, room)
  {
    assert [G(TAG_REPORT_SIZE, v)][1..] == [];
  }

  // -------------------------------------------------------- a stray report id

  /** One byte of the Z axis, which no layout has room for. */
  lemma RunStray(s: State)
    requires ReadyForAxis(s)
    ensures Run(s, AxisItems(0x32)) == s.(ptr := LockPointer(s.ptr, s.g), cursor := Advance(s.cursor, 8))
  {
    hide Step, Run, MakeUsage, LockPointer, AssignInput, Bit, Advance;
    Run2(s, L(TAG_USAGE, 0x32), M(TAG_INPUT, 0x06));
    StepUsage(s, 0x32);
    AddFirstUsage(MakeUsage(1, 0x32));
    var s1 := s.(l := NO_LOCALS.(usages := [MakeUsage(1, 0x32)]));
    StepInput(s1, 6);
    FlagBits();
    AssignStray(s1.ptr, s1.g, s1.l, s1.cursor);
  }

  lemma AssignStray(o: PointerLayout, g: Globals, l: Locals, c: uint32)
    requires g.usagePage == 1 && g.reportCount == 1 && l.usages == [MakeUsage(1, 0x32)]
    ensures AssignInput(o, g, l, c) == LockPointer(o, g)
  {
    hide MakeUsage, LockPointer;
    UsageParts(1, 0x32);
    var o1 := LockPointer(o, g);
    assert AssignSlot(o1, g, l, c, 0) == o1;
    assert AssignSlots(o1, g, l, c, 0) == o1;
  }

  /** A mouse whose report 5 holds only Z; X and Y are in report 1. */
  const STRAY_START := OpenApp(0x02) + SIGNED_BYTE + [G(TAG_REPORT_ID, 5)] + AxisItems(0x32) + [G(TAG_REPORT_ID, 1)]

  function StrayIdMouse(): seq<Item> { STRAY_START + AxisItems(USAGE_X) + AxisItems(USAGE_Y) + [END] }

  lemma RunStrayStart()
    ensures Run(INIT, STRAY_START) == Opened(0x02).(g := Globals(1, -127, 8, 1, 1), ptr := NO_LAYOUT.(reportId := 5))
  {
    hide Step, Run, OpenApp, SIGNED_BYTE, AxisItems;
    var a := OpenApp(0x02);
    RunOpenApp(0x02);
    var b := a + SIGNED_BYTE;
    RunConcat(INIT, a, SIGNED_BYTE);
    RunSignedByte(Run(INIT, a));
    var c := b + [G(TAG_REPORT_ID, 5)];
    RunConcat(INIT, b, [G(TAG_REPORT_ID, 5)]);
    RunOne(Run(INIT, b), G(TAG_REPORT_ID, 5));
    StepId(Run(INIT, b), 5);
    var d := c + AxisItems(0x32);
    RunConcat(INIT, c, AxisItems(0x32));
    RunStray(Run(INIT, c));
    RunConcat(INIT, d, [G(TAG_REPORT_ID, 1)]);
    RunOne(Run(INIT, d), G(TAG_REPORT_ID, 1));
    StepId(Run(INIT, d), 1);
  }

  lemma RunStrayMouse()
    ensures var s := Run(INIT, StrayIdMouse());
            && s.depth == 0 && s.g.reportId == 1
            && s.ptr == NO_LAYOUT.(reportId := 5, x := Field(0, 8, true), y := Field(8, 8, true))
  {
    hide Step, Run, STRAY_START, AxisItems, SetXY, LockPointer;
    RunStrayStart();
    var c := STRAY_START;
    var s := Run(INIT, c);
    RunConcat(INIT, c, AxisItems(USAGE_X));
    RunAxis(s, X);
    FirstXY(s.ptr, s.g);
    var e := c + AxisItems(USAGE_X);
    RunConcat(INIT, e, AxisItems(USAGE_Y));
    RunAxis(Run(INIT, e), Y);
    var f := e + AxisItems(USAGE_Y);
    RunConcat(INIT, f, [END]);
    RunOne(Run(INIT, f), END);
    StepEnd(Run(INIT, f));
  }

  lemma FirstXY(o: PointerLayout, g: Globals)
    requires o == NO_LAYOUT.(reportId := 5)
    ensures LockPointer(o, g) == o && SetXY(o, X, 0) == o.(x := Field(0, 8, true))
    ensures var o1 := o.(x := Field(0, 8, true));
            LockPointer(o1, g) == o1 && SetXY(o1, Y, 8) == o1.(y := Field(8, 8, true))
  {}

  /** The accepted layout says report 5, but X and Y are the first two bytes of report 1. */
  lemma StrayIdLocks()
    ensures AllEncodable(StrayIdMouse())
    ensures ParsePointer(Print(StrayIdMouse()))
            == NO_LAYOUT.(reportId := 5, x := Field(0, 8, true), y := Field(8, 8, true), valid := true)
    ensures Run(INIT, StrayIdMouse()).g.reportId == 1
  {
    hide Run, StrayIdMouse, Print, ParsePointer;
    RunStrayMouse();
    StrayEncodable();
    ParsedPrint(StrayIdMouse());
  }

  lemma StrayEncodable()
    ensures AllEncodable(StrayIdMouse())
  {
    hide SIGNED_BYTE, OpenApp, AxisItems;
    SegmentsEncodable(0x02);
    SegmentsEncodable(0x32);
    SegmentsEncodable(USAGE_X);
    SegmentsEncodable(USAGE_Y);
  }
}

/**
 * End to end for mice: the descriptor printed for a mouse parses to exactly its layout, and decoding
 * values packed LSB-first in that order returns those values.
 */
module HidMouse {
  import opened Bits
  import opened HidTypes
  import opened HidItems
  import opened HidWalk
  import opened HidBuild
  import opened HidItemState
  import opened HidDecode
  import opened HidDecodeLaws
  import opened HidPack

  // ------------------------------------------------------------------- shapes

  /**
   * A mouse: report id (0 for none), 1..16 buttons of `buttonWidth` bits, `pad` constant bits, signed X and
   * Y of `width` bits, and optional wheel and AC Pan (width 0 for none). `min` and `max` are the data bytes
   * of the axes' Logical Minimum and Maximum; `min` is negative, its last byte being 0x80 or more. X and Y
   * are named by a usage range if `ranged`, else by a list; wheel and AC Pan come after the end of the
   * physical collection if `late`, else inside it.
   */
  datatype Mouse = Mouse(reportId: byte, buttons: byte, buttonWidth: byte, pad: byte, width: byte, wheel: byte, pan: byte,
                         min: seq<byte>, max: seq<byte>, ranged: bool, late: bool)
  {
    predicate Valid() {
      && 1 <= buttons <= 16 && 1 <= buttonWidth <= 32 && 1 <= width <= 32 && wheel <= 32 && pan <= 32
      && |min| in {1, 2, 4} && |max| in {1, 2, 4} && min[|min| - 1] >= 0x80
    }
  }

  function ButtonBits(m: Mouse): nat {
    MulMono(0, m.buttonWidth, m.buttons);
    m.buttonWidth * m.buttons
  }

  lemma ButtonBitsBound(m: Mouse)
    requires m.Valid()
    ensures 1 <= ButtonBits(m) <= 512
  {
    MulMono(m.buttonWidth, 32, m.buttons);
    MulMono(1, m.buttonWidth, m.buttons);
  }

  const PHYSICAL := [L(TAG_USAGE, 0x01), M(TAG_COLLECTION, 0x00)]

  function ButtonItems(n: byte, w: byte): seq<Item> {
    [G(TAG_USAGE_PAGE, 0x09), L(TAG_USAGE_MIN, 0x01), L(TAG_USAGE_MAX, n), G(TAG_LOGICAL_MIN, 0), G(TAG_LOGICAL_MAX, 1),
     G(TAG_REPORT_COUNT, n), G(TAG_REPORT_SIZE, w), M(TAG_INPUT, 0x02)]
  }

  function PadItems(pad: byte): seq<Item> {
    if pad == 0 then [] else [G(TAG_REPORT_COUNT, 1), G(TAG_REPORT_SIZE, pad), M(TAG_INPUT, 0x03)]
  }

  /** X and Y by name: a list of two usages, or a range. */
  function XYUsages(ranged: bool): seq<Item> {
    if ranged then [L(TAG_USAGE_MIN, 0x30), L(TAG_USAGE_MAX, 0x31)] else [L(TAG_USAGE, 0x30), L(TAG_USAGE, 0x31)]
  }

  function XYItems(w: byte, min: seq<byte>, max: seq<byte>): seq<Item> {
    [Item(Global, TAG_LOGICAL_MIN, min), Item(Global, TAG_LOGICAL_MAX, max),
     G(TAG_REPORT_SIZE, w), G(TAG_REPORT_COUNT, 2), M(TAG_INPUT, 0x06)]
  }

  function WheelItems(w: byte): seq<Item> {
    if w == 0 then [] else [L(TAG_USAGE, 0x38), G(TAG_REPORT_SIZE, w), G(TAG_REPORT_COUNT, 1), M(TAG_INPUT, 0x06)]
  }

  function PanItems(w: byte): seq<Item> {
    if w == 0 then []
    else [G(TAG_USAGE_PAGE, 0x0C), Item(Local, TAG_USAGE, [0x38, 0x02]), G(TAG_REPORT_SIZE, w), G(TAG_REPORT_COUNT, 1),
          M(TAG_INPUT, 0x06)]
  }

  function MouseItems(m: Mouse): seq<Item> {
    OpenApp(0x02) + IdItems(m.reportId) + PHYSICAL + ButtonItems(m.buttons, m.buttonWidth) + PadItems(m.pad)
    + [G(TAG_USAGE_PAGE, 0x01)] + XYUsages(m.ranged) + XYItems(m.width, m.min, m.max)
    + EndItems(if m.late then 1 else 0) + WheelItems(m.wheel) + PanItems(m.pan) + EndItems(if m.late then 1 else 2)
  }

  function EndItems(n: nat): seq<Item> { if n == 0 then [] else if n == 1 then [END] else [END, END] }

  function AxisField(off: nat, w: byte): Field
    requires off < 0x1_0000
  {
    if w == 0 then ABSENT else Field(off, w, true)
  }

  function MouseLayout(m: Mouse): PointerLayout
    requires m.Valid()
  {
    ButtonBitsBound(m);
    var c := ButtonBits(m) + m.pad;
    PointerLayout(m.reportId, Field(c, m.width, true), Field(c + m.width, m.width, true),
                  AxisField(c + 2 * m.width, m.wheel), AxisField(c + 2 * m.width + m.wheel, m.pan),
                  Field(0, m.buttonWidth, false), m.buttons, true)
  }

  // ------------------------------------------------- the walk over each segment

  /** The mouse application is open and no keyboard was seen. */
  predicate InMouse(s: State) { s.mouseLevel >= 0 && s.kbdLevel < 0 && s.l == NO_LOCALS && s.cursor < 1000 }

  lemma MouseInput(s: State, flags: byte)
    requires s.mouseLevel >= 0 && s.kbdLevel < 0 && s.cursor + s.g.reportSize * s.g.reportCount <= UINT32_MAX
    requires flags == 2 || flags == 6
    ensures Step(s, M(TAG_INPUT, flags))
            == s.(ptr := AssignInput(s.ptr, s.g, s.l, s.cursor), l := NO_LOCALS,
                  cursor := s.cursor + s.g.reportSize * s.g.reportCount)
  {
    hide Step, AssignInput, AssignKbdInput, IsConstant, IsVariable, Advance;
    FlagBits();
    StepInput(s, flags);
    AdvanceExact(s);
  }

  lemma RunPhysical(s: State)
    requires InMouse(s) && s.g.usagePage == 1
    ensures Run(s, PHYSICAL) == s.(depth := s.depth + 1)
  {
    hide Step, Run, MakeUsage, OpensApplication;
    Run2(s, L(TAG_USAGE, 0x01), M(TAG_COLLECTION, 0x00));
    StepUsage(s, 1);
    AddFirstUsage(MakeUsage(1, 1));
    var s1 := s.(l := NO_LOCALS.(usages := [MakeUsage(1, 1)]));
    StepCollection(s1, 0);
    Opens(s1, 1, 1, 0, USAGE_MOUSE);
    Opens(s1, 1, 1, 0, USAGE_KEYBOARD);
  }

  lemma RunButtons(s: State, n: byte, w: byte)
    requires InMouse(s) && 1 <= n <= 16 && 1 <= w <= 32 && 1 <= w * n <= 512
    requires s.ptr == NO_LAYOUT
    ensures Run(s, ButtonItems(n, w))
            == s.(g := Globals(9, 0, w, n, s.g.reportId), cursor := s.cursor + w * n,
                  ptr := NO_LAYOUT.(reportId := s.g.reportId, buttons := Field(s.cursor, w, false), buttonCount := n))
  {
    hide Step, Run, AssignInput;
    Run8(s, G(TAG_USAGE_PAGE, 0x09), L(TAG_USAGE_MIN, 0x01), L(TAG_USAGE_MAX, n), G(TAG_LOGICAL_MIN, 0), G(TAG_LOGICAL_MAX, 1),
         G(TAG_REPORT_COUNT, n), G(TAG_REPORT_SIZE, w), M(TAG_INPUT, 0x02));
    StepPage(s, 9);
    var s1 := s.(g := s.g.(usagePage := 9));
    StepUsageMin(s1, 1);
    var s2 := s1.(l := s1.l.(usageMin := 1, hasRange := true));
    StepUsageMax(s2, n);
    var s3 := s2.(l := s2.l.(usageMax := n));
    StepMin(s3, [0]);
    ZeroMin();
    var s4 := s3.(g := s3.g.(logicalMin := 0));
    StepMax(s4, [1]);
    StepCount(s4, n);
    var s5 := s4.(g := s4.g.(reportCount := n));
    StepSize(s5, w);
    var s6 := s5.(g := s5.g.(reportSize := w));
    MouseInput(s6, 2);
    AssignRun(s6.ptr, s6.g, s6.l, s6.cursor);
  }

  lemma AssignRun(o: PointerLayout, g: Globals, l: Locals, c: uint32)
    requires o == NO_LAYOUT && g.usagePage == PAGE_BUTTON && 1 <= g.reportCount <= 16 && 1 <= g.reportSize
    requires 0 <= g.reportSize * g.reportCount <= 512 && c < 1000
    ensures AssignInput(o, g, l, c)
            == o.(reportId := g.reportId, buttons := Field(c, g.reportSize, false), buttonCount := g.reportCount)
  {
    assert g.reportCount * g.reportSize == g.reportSize * g.reportCount;
  }

  lemma RunPad(s: State, pad: byte)
    requires InMouse(s)
    ensures var t := Run(s, PadItems(pad));
            t == s.(g := t.g, cursor := s.cursor + pad) && t.g.reportId == s.g.reportId
  {
    hide Step, Run;
    if pad == 0 {
      RunNil(s);
    } else {
      Run3(s, G(TAG_REPORT_COUNT, 1), G(TAG_REPORT_SIZE, pad), M(TAG_INPUT, 0x03));
      StepCount(s, 1);
      StepSize(s.(g := s.g.(reportCount := 1)), pad);
      ConstantInput(s.(g := s.g.(reportCount := 1, reportSize := pad)));
    }
  }

  lemma AxisUsages()
    ensures forall a: Axis :: IsAxis(MakeUsage(1, 0x30), a) <==> a == X
    ensures forall a: Axis :: IsAxis(MakeUsage(1, 0x31), a) <==> a == Y
    ensures forall a: Axis :: IsAxis(MakeUsage(1, 0x38), a) <==> a == Wheel
    ensures forall a: Axis :: IsAxis(MakeUsage(0x0C, 0x238), a) <==> a == HWheel
  {
    UsageParts(1, 0x30);
    UsageParts(1, 0x31);
    UsageParts(1, 0x38);
    UsageParts(0x0C, 0x238);
  }

  function SetAxis(o: PointerLayout, a: Axis, f: Field): PointerLayout {
    match a case X => o.(x := f) case Y => o.(y := f) case Wheel => o.(wheel := f) case HWheel => o.(hwheel := f)
  }

  /** One slot whose usage is axis a, absent so far, records it at c + i * size. */
  lemma OneSlot(o: PointerLayout, g: Globals, l: Locals, c: uint32, i: nat, a: Axis)
    requires forall b: Axis :: IsAxis(UsageForSlot(g, l, i), b) <==> b == a
    requires GetAxis(o, a).bitSize == 0 && g.logicalMin < 0 && c < 1000 && i <= 1 && 1 <= g.reportSize <= 32
    ensures AssignSlot(o, g, l, c, i) == SetAxis(o, a, Field(c + i * g.reportSize, g.reportSize, true))
  {
    hide IsAxis, UsageForSlot, SetField;
    var off := if i == 0 then c else c + g.reportSize;
    assert c + i * g.reportSize == off == U32(off);
    assert forall b: Axis :: IsAxis(UsageForSlot(g, l, i), b) <==> b == a;
    FreshField(GetAxis(o, a), off, g.reportSize);
  }

  lemma FreshField(f: Field, off: uint32, size: byte)
    requires f.bitSize == 0 && off < 2000
    ensures SetField(f, off, size, true) == Field(off, size, true)
  {}

  lemma AssignXY(o: PointerLayout, g: Globals, l: Locals, c: uint32)
    requires UsageForSlot(g, l, 0) == MakeUsage(1, 0x30) && UsageForSlot(g, l, 1) == MakeUsage(1, 0x31)
    requires g.usagePage == 1 && g.logicalMin < 0 && 1 <= g.reportSize <= 32 && g.reportCount == 2 && c < 1000
    requires o.buttons.bitSize != 0 && o.x.bitSize == 0 && o.y.bitSize == 0
    ensures AssignInput(o, g, l, c) == o.(x := Field(c, g.reportSize, true), y := Field(c + g.reportSize, g.reportSize, true))
  {
    hide IsAxis, MakeUsage, AssignSlot, UsageForSlot;
    AxisUsages();
    assert LockPointer(o, g) == o;
    var o1 := o.(x := Field(c, g.reportSize, true));
    OneSlot(o, g, l, c, 0, X);
    OneSlot(o1, g, l, c, 1, Y);
    TwoSlots(o, g, l, c);
  }

  lemma TwoSlots(o: PointerLayout, g: Globals, l: Locals, c: uint32)
    ensures AssignSlots(o, g, l, c, 1) == AssignSlot(o, g, l, c, 0)
    ensures AssignSlots(o, g, l, c, 2) == AssignSlot(AssignSlot(o, g, l, c, 0), g, l, c, 1)
  {
    hide AssignSlot;
    assert AssignSlots(o, g, l, c, 0) == o;
  }

  /** The local state names X and Y. */
  function XYLocals(ranged: bool): Locals {
    if ranged then NO_LOCALS.(usageMin := 0x30, usageMax := 0x31, hasRange := true)
    else NO_LOCALS.(usages := [MakeUsage(1, 0x30), MakeUsage(1, 0x31)])
  }

  lemma XYNamed(g: Globals, ranged: bool)
    requires g.usagePage == 1
    ensures UsageForSlot(g, XYLocals(ranged), 0) == MakeUsage(1, 0x30) && UsageForSlot(g, XYLocals(ranged), 1) == MakeUsage(1, 0x31)
  {
    hide MakeUsage;
  }

  lemma RunXYUsages(s: State, ranged: bool)
    requires s.l == NO_LOCALS && s.g.usagePage == 1
    ensures Run(s, XYUsages(ranged)) == s.(l := XYLocals(ranged))
  {
    hide Step, Run, MakeUsage;
    if ranged {
      Run2(s, L(TAG_USAGE_MIN, 0x30), L(TAG_USAGE_MAX, 0x31));
      StepUsageMin(s, 0x30);
      StepUsageMax(s.(l := s.l.(usageMin := 0x30, hasRange := true)), 0x31);
    } else {
      Run2(s, L(TAG_USAGE, 0x30), L(TAG_USAGE, 0x31));
      StepUsage(s, 0x30);
      AddFirstUsage(MakeUsage(1, 0x30));
      StepUsage(s.(l := NO_LOCALS.(usages := [MakeUsage(1, 0x30)])), 0x31);
      assert [MakeUsage(1, 0x30)] + [MakeUsage(1, 0x31)] == [MakeUsage(1, 0x30), MakeUsage(1, 0x31)];
    }
  }

  lemma RunXY(s: State, w: byte, min: seq<byte>, max: seq<byte>, ranged: bool)
    requires s.mouseLevel >= 0 && s.kbdLevel < 0 && s.cursor < 1000 && s.l == XYLocals(ranged) && s.g.usagePage == 1
    requires 1 <= w <= 32 && |min| in {1, 2, 4} && |max| in {1, 2, 4} && min[|min| - 1] >= 0x80
    requires s.ptr.buttons.bitSize != 0 && s.ptr.x.bitSize == 0 && s.ptr.y.bitSize == 0
    ensures Run(s, XYItems(w, min, max))
            == s.(g := Globals(1, SignedItem(min), w, 2, s.g.reportId), l := NO_LOCALS, cursor := s.cursor + 2 * w,
                  ptr := s.ptr.(x := Field(s.cursor, w, true), y := Field(s.cursor + w, w, true)))
    ensures SignedItem(min) < 0
  {
    hide Step, Run, AssignInput, MakeUsage, SignedItem, UsageForSlot, XYLocals, Pow2, LeNat, TwosComplement;
    SignedItemIsTwosComplement(min);
    Run5(s, Item(Global, TAG_LOGICAL_MIN, min), Item(Global, TAG_LOGICAL_MAX, max),
         G(TAG_REPORT_SIZE, w), G(TAG_REPORT_COUNT, 2), M(TAG_INPUT, 0x06));
    StepMin(s, min);
    var s4 := s.(g := s.g.(logicalMin := SignedItem(min)));
    StepMax(s4, max);
    StepSize(s4, w);
    var s5 := s4.(g := s4.g.(reportSize := w));
    StepCount(s5, 2);
    var s6 := s5.(g := s5.g.(reportCount := 2));
    XYNamed(s6.g, ranged);
    AssignXY(s6.ptr, s6.g, s6.l, s6.cursor);
    MouseInput(s6, 6);
  }

  /** One relative axis in an item of its own: the wheel or AC Pan. */
  lemma AssignOne(o: PointerLayout, g: Globals, l: Locals, c: uint32, a: Axis)
    requires a == Wheel || a == HWheel
    requires l == NO_LOCALS.(usages := [if a == Wheel then MakeUsage(1, 0x38) else MakeUsage(0x0C, 0x238)])
    requires g.usagePage != PAGE_BUTTON && g.logicalMin < 0 && 1 <= g.reportSize <= 32 && g.reportCount == 1 && c < 1000
    requires o.buttons.bitSize != 0 && GetAxis(o, a).bitSize == 0
    ensures AssignInput(o, g, l, c)
            == if a == Wheel then o.(wheel := Field(c, g.reportSize, true)) else o.(hwheel := Field(c, g.reportSize, true))
  {
    hide IsAxis, MakeUsage, AssignSlot;
    AxisUsages();
    assert LockPointer(o, g) == o;
    OneSlot(o, g, l, c, 0, a);
    TwoSlots(o, g, l, c);
  }

  lemma RunWheel(s: State, w: byte)
    requires InMouse(s) && w <= 32 && s.g.usagePage == 1 && s.g.logicalMin < 0
    requires s.ptr.buttons.bitSize != 0 && s.ptr.wheel == ABSENT
    ensures var t := Run(s, WheelItems(w));
            && t == s.(g := t.g, cursor := s.cursor + w, ptr := s.ptr.(wheel := AxisField(s.cursor, w)))
            && t.g.usagePage == 1 && t.g.logicalMin < 0 && t.g.reportId == s.g.reportId
  {
    hide Step, Run, AssignInput, MakeUsage;
    if w == 0 {
      RunNil(s);
    } else {
      Run4(s, L(TAG_USAGE, 0x38), G(TAG_REPORT_SIZE, w), G(TAG_REPORT_COUNT, 1), M(TAG_INPUT, 0x06));
      StepUsage(s, 0x38);
      AddFirstUsage(MakeUsage(1, 0x38));
      var s1 := s.(l := NO_LOCALS.(usages := [MakeUsage(1, 0x38)]));
      StepSize(s1, w);
      StepCount(s1.(g := s1.g.(reportSize := w)), 1);
      var s2 := s1.(g := s1.g.(reportSize := w, reportCount := 1));
      AssignOne(s2.ptr, s2.g, s2.l, s2.cursor, Wheel);
      MouseInput(s2, 6);
    }
  }

  lemma RunPan(s: State, w: byte)
    requires InMouse(s) && w <= 32 && s.g.logicalMin < 0
    requires s.ptr.buttons.bitSize != 0 && s.ptr.hwheel == ABSENT
    ensures var t := Run(s, PanItems(w));
            t == s.(g := t.g, cursor := s.cursor + w, ptr := s.ptr.(hwheel := AxisField(s.cursor, w)))
  {
    hide Step, Run, AssignInput, MakeUsage;
    if w == 0 {
      RunNil(s);
    } else {
      Run5(s, G(TAG_USAGE_PAGE, 0x0C), Item(Local, TAG_USAGE, [0x38, 0x02]), G(TAG_REPORT_SIZE, w), G(TAG_REPORT_COUNT, 1),
           M(TAG_INPUT, 0x06));
      StepPage(s, 0x0C);
      var s0 := s.(g := s.g.(usagePage := 0x0C));
      StepUsage16(s0, 0x38, 0x02);
      AddFirstUsage(MakeUsage(0x0C, 0x238));
      var s1 := s0.(l := NO_LOCALS.(usages := [MakeUsage(0x0C, 0x238)]));
      StepSize(s1, w);
      StepCount(s1.(g := s1.g.(reportSize := w)), 1);
      var s2 := s1.(g := s1.g.(reportSize := w, reportCount := 1));
      AssignOne(s2.ptr, s2.g, s2.l, s2.cursor, HWheel);
      MouseInput(s2, 6);
    }
  }

  /** An End Collection inside the application leaves it open; the one that leaves it closes it. */
  lemma RunEnds(s: State, n: nat)
    requires 1 <= n <= 2 && s.depth >= n && s.l == NO_LOCALS && s.kbdLevel < 0
    ensures Run(s, EndItems(n)).depth == s.depth - n
    ensures Run(s, EndItems(n)).ptr == s.ptr && Run(s, EndItems(n)).kbd == s.kbd
    ensures s.depth - n > s.mouseLevel ==> Run(s, EndItems(n)) == s.(depth := s.depth - n)
  {
    hide Step, Run;
    StepEnd(s);
    if n == 1 {
      RunOne(s, END);
    } else {
      Run2(s, END, END);
      StepEnd(DoEndCollection(s).(l := NO_LOCALS));
    }
  }

  /** From the start up to the end of the buttons and their padding. */
  function FrontItems(m: Mouse): seq<Item> {
    OpenApp(0x02) + IdItems(m.reportId) + PHYSICAL + ButtonItems(m.buttons, m.buttonWidth) + PadItems(m.pad)
  }

  lemma RunFront(m: Mouse)
    requires m.Valid()
    ensures var s := Run(INIT, FrontItems(m));
            && InMouse(s) && s.mouseLevel == 0 && s.depth == 2 && s.kbd == NO_KBD_LAYOUT
            && s.cursor == ButtonBits(m) + m.pad && s.g.reportId == m.reportId
            && s.ptr == NO_LAYOUT.(reportId := m.reportId, buttons := Field(0, m.buttonWidth, false), buttonCount := m.buttons)
  {
    hide Step, Run, OpenApp, IdItems, PHYSICAL, ButtonItems, PadItems;
    var a := OpenApp(0x02);
    RunOpenApp(0x02);
    var s0 := Opened(0x02);
    RunId(s0, m.reportId);
    var s1 := s0.(g := s0.g.(reportId := m.reportId));
    RunConcat(INIT, a, IdItems(m.reportId));
    var b := a + IdItems(m.reportId);
    RunPhysical(s1);
    RunConcat(INIT, b, PHYSICAL);
    var c := b + PHYSICAL;
    ButtonBitsBound(m);
    RunButtons(s1.(depth := 2), m.buttons, m.buttonWidth);
    RunConcat(INIT, c, ButtonItems(m.buttons, m.buttonWidth));
    var d := c + ButtonItems(m.buttons, m.buttonWidth);
    RunPad(Run(INIT, d), m.pad);
    RunConcat(INIT, d, PadItems(m.pad));
  }

  lemma RunMouse(m: Mouse)
    requires m.Valid()
    ensures var s := Run(INIT, MouseItems(m));
            s.depth == 0 && s.ptr.(valid := true) == MouseLayout(m) && s.kbd == NO_KBD_LAYOUT
  {
    hide Step, Run, FrontItems, XYUsages, XYItems, TailItems, SignedItem, XYLocals, ButtonBits;
    ButtonBitsBound(m);
    var a := FrontItems(m);
    RunFront(m);
    var page := [G(TAG_USAGE_PAGE, 0x01)];
    var b := a + page;
    RunConcat(INIT, a, page);
    RunOne(Run(INIT, a), page[0]);
    StepPage(Run(INIT, a), 1);
    var c := b + XYUsages(m.ranged);
    RunConcat(INIT, b, XYUsages(m.ranged));
    RunXYUsages(Run(INIT, b), m.ranged);
    var d := c + XYItems(m.width, m.min, m.max);
    RunConcat(INIT, c, XYItems(m.width, m.min, m.max));
    RunXY(Run(INIT, c), m.width, m.min, m.max, m.ranged);
    RunTail(m, d);
    MouseItemsAre(m);
  }

  /** The mouse's items, front first. */
  lemma MouseItemsAre(m: Mouse)
    ensures MouseItems(m)
            == FrontItems(m) + [G(TAG_USAGE_PAGE, 0x01)] + XYUsages(m.ranged) + XYItems(m.width, m.min, m.max) + TailItems(m)
  {
    hide OpenApp, IdItems, PHYSICAL, ButtonItems, PadItems, XYUsages, XYItems, EndItems, WheelItems, PanItems;
  }

  /** Behind X and Y: wheel and AC Pan, before or after the end of the physical collection. */
  function TailItems(m: Mouse): seq<Item> {
    EndItems(if m.late then 1 else 0) + WheelItems(m.wheel) + PanItems(m.pan) + EndItems(if m.late then 1 else 2)
  }

  lemma RunTail(m: Mouse, d: seq<Item>)
    requires m.Valid()
    requires var s := Run(INIT, d);
             && InMouse(s) && s.mouseLevel == 0 && s.depth == 2 && s.kbd == NO_KBD_LAYOUT && s.cursor <= 831
             && s.g.usagePage == 1 && s.g.logicalMin < 0 && s.ptr.buttons.bitSize != 0 && s.ptr.wheel == ABSENT && s.ptr.hwheel == ABSENT
    ensures var s, t := Run(INIT, d), Run(INIT, d + TailItems(m));
            && t.depth == 0 && t.kbd == NO_KBD_LAYOUT
            && t.ptr == s.ptr.(wheel := AxisField(s.cursor, m.wheel), hwheel := AxisField(s.cursor + m.wheel, m.pan))
  {
    hide Step, Run, EndItems, WheelItems, PanItems;
    var first, last := EndItems(if m.late then 1 else 0), EndItems(if m.late then 1 else 2);
    var e := d + first;
    RunConcat(INIT, d, first);
    if m.late { RunEnds(Run(INIT, d), 1); } else { NoEnds(Run(INIT, d)); }
    var f := e + WheelItems(m.wheel);
    RunConcat(INIT, e, WheelItems(m.wheel));
    RunWheel(Run(INIT, e), m.wheel);
    var g := f + PanItems(m.pan);
    RunConcat(INIT, f, PanItems(m.pan));
    RunPan(Run(INIT, f), m.pan);
    RunConcat(INIT, g, last);
    RunEnds(Run(INIT, g), if m.late then 1 else 2);
    assert d + TailItems(m) == g + last;
  }

  lemma NoEnds(s: State)
    ensures Run(s, EndItems(0)) == s
  {}

  lemma MouseEncodable(m: Mouse)
    requires m.Valid()
    ensures AllEncodable(MouseItems(m))
  {
    hide AllEncodable, OpenApp, IdItems, PHYSICAL, ButtonItems, PadItems, XYUsages, XYItems, EndItems, WheelItems, PanItems;
    MouseSegments(m);
    var a := OpenApp(0x02) + IdItems(m.reportId);
    EncodableConcat(OpenApp(0x02), IdItems(m.reportId));
    var b := a + PHYSICAL;
    EncodableConcat(a, PHYSICAL);
    var c := b + ButtonItems(m.buttons, m.buttonWidth);
    EncodableConcat(b, ButtonItems(m.buttons, m.buttonWidth));
    var d := c + PadItems(m.pad);
    EncodableConcat(c, PadItems(m.pad));
    var e := d + [G(TAG_USAGE_PAGE, 0x01)];
    EncodableConcat(d, [G(TAG_USAGE_PAGE, 0x01)]);
    var f := e + XYUsages(m.ranged);
    EncodableConcat(e, XYUsages(m.ranged));
    var g := f + XYItems(m.width, m.min, m.max);
    EncodableConcat(f, XYItems(m.width, m.min, m.max));
    var h := g + EndItems(if m.late then 1 else 0);
    EncodableConcat(g, EndItems(if m.late then 1 else 0));
    var i := h + WheelItems(m.wheel);
    EncodableConcat(h, WheelItems(m.wheel));
    EncodableConcat(i, PanItems(m.pan));
    EncodableConcat(i + PanItems(m.pan), EndItems(if m.late then 1 else 2));
  }

  lemma MouseSegments(m: Mouse)
    requires m.Valid()
    ensures AllEncodable(OpenApp(0x02)) && AllEncodable(IdItems(m.reportId)) && AllEncodable(PHYSICAL)
    ensures AllEncodable(ButtonItems(m.buttons, m.buttonWidth)) && AllEncodable(PadItems(m.pad))
    ensures AllEncodable([G(TAG_USAGE_PAGE, 0x01)]) && AllEncodable(XYUsages(m.ranged)) && AllEncodable(XYItems(m.width, m.min, m.max))
    ensures AllEncodable(EndItems(0)) && AllEncodable(EndItems(1)) && AllEncodable(EndItems(2))
    ensures AllEncodable(WheelItems(m.wheel)) && AllEncodable(PanItems(m.pan))
  {
    hide SignedItem;
  }

  /** The bytes of the report map. */
  function Descriptor(m: Mouse): seq<byte>
    requires m.Valid()
  {
    MouseEncodable(m);
    Print(MouseItems(m))
  }

  lemma {:induction false} PrintLength(xs: seq<Item>)
    requires AllEncodable(xs)
    ensures |xs| <= |Print(xs)| <= 5 * |xs|
    decreases |xs|
  {
    if |xs| > 0 { PrintLength(xs[1..]); }
  }

  lemma DescriptorLength(m: Mouse)
    requires m.Valid()
    ensures 1 <= |Descriptor(m)| <= 200
  {
    MouseEncodable(m);
    PrintLength(MouseItems(m));
  }

  /** The descriptor printed for a mouse parses to exactly that mouse's layout, and to no keyboard. */
  lemma MouseDescriptorParses(m: Mouse)
    requires m.Valid()
    ensures ParsePointer(Descriptor(m)) == MouseLayout(m)
    ensures !ParseKeyboard(Descriptor(m)).valid
  {
    hide Run, Items, Print, MouseItems;
    MouseEncodable(m);
    ItemsOfPrint(MouseItems(m));
    RunMouse(m);
  }

  // ------------------------------------------------------------------- values

  /** What one report carries: a field for each button, the padding bits as sent, and the axes. */
  datatype Values = Values(fields: seq<nat>, padding: nat, dx: int32, dy: int32, wheel: int32, pan: int32) {
    predicate Fit(m: Mouse)
      requires m.Valid()
    {
      && |fields| == m.buttons && (forall i :: 0 <= i < |fields| ==> fields[i] < Pow2(m.buttonWidth)) && padding < Pow2(m.pad)
      && Signed(dx, m.width) && Signed(dy, m.width)
      && (if m.wheel == 0 then wheel == 0 else Signed(wheel, m.wheel))
      && (if m.pan == 0 then pan == 0 else Signed(pan, m.pan))
    }
  }

  /** The mask whose bit i says that button i's field is not 0. */
  function MaskOf(fields: seq<nat>): (m: nat)
    ensures m < Pow2(|fields|)
  {
    if |fields| == 0 then 0
    else MaskOf(fields[..|fields| - 1]) + (if fields[|fields| - 1] != 0 then Pow2(|fields| - 1) else 0)
  }

  function AxisCell(v: int, w: nat): Cell
    requires if w == 0 then v == 0 else Signed(v, w)
  {
    if w == 0 then Cell(0, 0) else Cell(Pattern(v, w), w)
  }

  function ButtonCells(fields: seq<nat>, w: nat): (cs: seq<Cell>)
    ensures |cs| == |fields| && forall i :: 0 <= i < |cs| ==> cs[i] == Cell(fields[i], w)
  {
    if |fields| == 0 then [] else ButtonCells(fields[..|fields| - 1], w) + [Cell(fields[|fields| - 1], w)]
  }

  function AxisCells(m: Mouse, v: Values): seq<Cell>
    requires m.Valid() && v.Fit(m)
  {
    [Cell(v.padding, m.pad), AxisCell(v.dx, m.width), AxisCell(v.dy, m.width), AxisCell(v.wheel, m.wheel), AxisCell(v.pan, m.pan)]
  }

  /** The fields in the order the descriptor declares them. */
  function MouseCells(m: Mouse, v: Values): seq<Cell>
    requires m.Valid() && v.Fit(m)
  {
    ButtonCells(v.fields, m.buttonWidth) + AxisCells(m, v)
  }

  lemma AxisCellFits(v: int, w: nat)
    requires if w == 0 then v == 0 else Signed(v, w)
    ensures AxisCell(v, w).value < Pow2(w) && AxisCell(v, w).width == w
  {
    if w > 0 { PatternReads(v, w); }
  }

  lemma CellsFitMouse(m: Mouse, v: Values)
    requires m.Valid() && v.Fit(m)
    ensures CellsFit(MouseCells(m, v))
  {
    hide AxisCell, Signed, Pow2, ButtonCells;
    AxisCellFits(v.dx, m.width);
    AxisCellFits(v.dy, m.width);
    AxisCellFits(v.wheel, m.wheel);
    AxisCellFits(v.pan, m.pan);
  }

  lemma {:induction false} WidthConcat(a: seq<Cell>, b: seq<Cell>)
    ensures Width(a + b) == Width(a) + Width(b)
    decreases |a|
  {
    if |a| == 0 {
      assert a + b == b;
    } else {
      WidthConcat(a[1..], b);
      assert (a + b)[1..] == a[1..] + b;
    }
  }

  lemma {:induction false} EqualWidths(cs: seq<Cell>, w: nat)
    requires forall i :: 0 <= i < |cs| ==> cs[i].width == w
    ensures Width(cs) == w * |cs|
    decreases |cs|
  {
    if |cs| > 0 { EqualWidths(cs[1..], w); }
  }

  /** Where each of the five cells behind the buttons starts. */
  lemma Widths5(front: seq<Cell>, a: Cell, b: Cell, c: Cell, d: Cell, e: Cell)
    ensures var cs := front + [a, b, c, d, e]; var n, w := |front|, Width(front);
            && Width(cs[..n + 1]) == w + a.width && Width(cs[..n + 2]) == w + a.width + b.width
            && Width(cs[..n + 3]) == w + a.width + b.width + c.width
            && Width(cs[..n + 4]) == w + a.width + b.width + c.width + d.width
            && Width(cs) == w + a.width + b.width + c.width + d.width + e.width
  {
    hide Width;
    var cs, n := front + [a, b, c, d, e], |front|;
    WidthSnoc(front, a);
    WidthSnoc(front + [a], b);
    WidthSnoc(front + [a, b], c);
    WidthSnoc(front + [a, b, c], d);
    WidthSnoc(front + [a, b, c, d], e);
    assert cs[..n + 1] == front + [a] && cs[..n + 2] == front + [a] + [b] == front + [a, b];
    assert cs[..n + 3] == front + [a, b] + [c] == front + [a, b, c];
    assert cs[..n + 4] == front + [a, b, c] + [d] == front + [a, b, c, d] && cs == front + [a, b, c, d] + [e];
  }

  lemma {:induction false} WidthSnoc(cs: seq<Cell>, c: Cell)
    ensures Width(cs + [c]) == Width(cs) + c.width
    decreases |cs|
  {
    if |cs| > 0 {
      WidthSnoc(cs[1..], c);
      assert (cs + [c])[1..] == cs[1..] + [c];
    }
  }

  /** A signed field read from a payload whose slice is the pattern of v is v. */
  lemma ReadAxis(p: seq<byte>, off: nat, w: byte, v: int)
    requires off < 0x1_0000 && w <= 32
    requires if w == 0 then v == 0 else Signed(v, w)
    requires Slice(LeNat(p), off, w) == AxisCell(v, w).value
    ensures Extract(p, AxisField(off, w)) == v
  {
    hide Slice, Signed, LeNat, Pow2, TwosComplement;
    if w > 0 {
      var f := Field(off, w, true);
      ExtractIsArithmetic(p, f);
      SliceIsDivMod(LeNat(p), off, w);
      PatternReads(v, w);
    }
  }

  /** The mask read from a run of button fields says which of them are not 0. */
  lemma {:induction false} ReadButtons(p: seq<byte>, l: PointerLayout, fields: seq<nat>)
    requires l.buttons.bitOffset == 0 && l.buttons.bitSize >= 1
    requires forall i :: 0 <= i < |fields| ==> Slice(LeNat(p), i * l.buttons.bitSize, l.buttons.bitSize) == fields[i]
    ensures ButtonMask(p, l, |fields|) == MaskOf(fields)
    decreases |fields|
  {
    hide Slice, LeNat, Pow2, ButtonMask;
    if |fields| == 0 {
      MaskNone(p, l);
    } else {
      var n := |fields| - 1;
      ReadButtons(p, l, fields[..n]);
      MaskSnoc(p, l, n);
      assert Slice(LeNat(p), n * l.buttons.bitSize, l.buttons.bitSize) == fields[n];
    }
  }

  /** Where button i's field starts. */
  function FieldStart(m: Mouse, i: nat): nat {
    MulMono(0, i, m.buttonWidth);
    i * m.buttonWidth
  }

  lemma ButtonsWidth(m: Mouse, v: Values, i: nat)
    requires m.Valid() && v.Fit(m) && i <= m.buttons
    ensures Width(MouseCells(m, v)[..i]) == FieldStart(m, i)
  {
    hide Width, Signed, AxisCell, Pow2, ButtonCells, AxisCells;
    assert MouseCells(m, v)[..i] == ButtonCells(v.fields, m.buttonWidth)[..i];
    EqualWidths(ButtonCells(v.fields, m.buttonWidth)[..i], m.buttonWidth);
    Commute(m.buttonWidth, i);
  }

  lemma Commute(a: nat, b: nat)
    ensures a * b == b * a
  {}

  /** Every packed button field is read back at its place. */
  lemma ButtonPacked(m: Mouse, v: Values, i: nat)
    requires m.Valid() && v.Fit(m) && i < m.buttons
    ensures Slice(Pack(MouseCells(m, v)), FieldStart(m, i), m.buttonWidth) == v.fields[i]
  {
    hide Slice, Pow2, Signed, Pack, CellsFit, Width, ButtonCells, AxisCells, FieldStart;
    CellsFitMouse(m, v);
    ButtonsWidth(m, v, i);
    assert MouseCells(m, v)[i] == Cell(v.fields[i], m.buttonWidth);
    SliceOfPack(MouseCells(m, v), i);
  }

  /** Every packed axis is read back behind the buttons and the padding. */
  lemma AxesPacked(m: Mouse, v: Values)
    requires m.Valid() && v.Fit(m)
    ensures var n := Pack(MouseCells(m, v)); var c := ButtonBits(m) + m.pad;
            && Slice(n, c, m.width) == AxisCell(v.dx, m.width).value
            && Slice(n, c + m.width, m.width) == AxisCell(v.dy, m.width).value
            && Slice(n, c + 2 * m.width, m.wheel) == AxisCell(v.wheel, m.wheel).value
            && Slice(n, c + 2 * m.width + m.wheel, m.pan) == AxisCell(v.pan, m.pan).value
    ensures Width(MouseCells(m, v)) == ButtonBits(m) + m.pad + 2 * m.width + m.wheel + m.pan
  {
    hide Slice, Pow2, Signed, AxisCell, Pack, CellsFit, Width, ButtonCells;
    var front, cs, k := ButtonCells(v.fields, m.buttonWidth), MouseCells(m, v), m.buttons as int;
    CellsFitMouse(m, v);
    ButtonsWidth(m, v, k);
    Commute(m.buttonWidth, k);
    assert cs[..k] == front;
    var a := AxisCells(m, v);
    Widths5(front, a[0], a[1], a[2], a[3], a[4]);
    AxisCellFits(v.dx, m.width);
    AxisCellFits(v.dy, m.width);
    AxisCellFits(v.wheel, m.wheel);
    AxisCellFits(v.pan, m.pan);
    assert a == [a[0], a[1], a[2], a[3], a[4]];
    assert cs[k + 1] == a[1] && cs[k + 2] == a[2] && cs[k + 3] == a[3] && cs[k + 4] == a[4];
    SliceOfPack(cs, k + 1);
    SliceOfPack(cs, k + 2);
    SliceOfPack(cs, k + 3);
    SliceOfPack(cs, k + 4);
  }

  /** Decoding a packed report with the mouse's layout returns the packed values, whatever bytes follow it. */
  lemma MouseReportDecodes(m: Mouse, v: Values, trailing: seq<byte>)
    requires m.Valid() && v.Fit(m)
    ensures MaskOf(v.fields) < 0x1_0000
    ensures Decode(MouseLayout(m), Payload(MouseCells(m, v)) + trailing)
            == Some(PointerReport(v.dx, v.dy, v.wheel, v.pan, MaskOf(v.fields)))
  {
    hide Slice, LeNat, Pow2, ButtonMask, Extract, Signed, Width, Pack, AxisCell, Payload, CellsFit, PayloadBits, MouseCells, Covered, ButtonBits, MaskOf;
    ButtonBitsBound(m);
    var l, p := MouseLayout(m), Payload(MouseCells(m, v));
    MaskBound(v.fields);
    CellsFitMouse(m, v);
    PayloadNat(MouseCells(m, v));
    ReadPacked(m, v, p);
    AxesPacked(m, v);
    LayoutFits(m);
    LengthGate(l, p);
    var c := ButtonBits(m) + m.pad;
    ReadAxis(p, c, m.width, v.dx);
    ReadAxis(p, c + m.width, m.width, v.dy);
    ReadAxis(p, c + 2 * m.width, m.wheel, v.wheel);
    ReadAxis(p, c + 2 * m.width + m.wheel, m.pan, v.pan);
    TrailingIgnored(l, p, trailing);
  }

  lemma ReadPacked(m: Mouse, v: Values, p: seq<byte>)
    requires m.Valid() && v.Fit(m) && LeNat(p) == Pack(MouseCells(m, v))
    ensures ButtonMask(p, MouseLayout(m), m.buttons) == MaskOf(v.fields)
  {
    hide Slice, LeNat, Pow2, ButtonMask, Signed, MouseCells, ButtonBits, MaskOf;
    forall i | 0 <= i < |v.fields| ensures Slice(LeNat(p), i * m.buttonWidth, m.buttonWidth) == v.fields[i] {
      ButtonPacked(m, v, i);
    }
    ReadButtons(p, MouseLayout(m), v.fields);
  }

  lemma MaskBound(fields: seq<nat>)
    requires |fields| <= 16
    ensures MaskOf(fields) < 0x1_0000
  {
    hide Pow2;
    Pow2Mono(|fields|, 16);
    Pow2Literals();
  }

  lemma LayoutFits(m: Mouse)
    requires m.Valid()
    ensures PayloadBits(MouseLayout(m)) <= ButtonBits(m) + m.pad + 2 * m.width + m.wheel + m.pan
  {
    assert m.buttons * m.buttonWidth == ButtonBits(m);
  }

  /** The whole pipeline: print the descriptor, parse it, pack a report, decode it. */
  lemma MouseRoundTrip(m: Mouse, v: Values, trailing: seq<byte>)
    requires m.Valid() && v.Fit(m)
    ensures MaskOf(v.fields) < 0x1_0000
    ensures Decode(ParsePointer(Descriptor(m)), Payload(MouseCells(m, v)) + trailing)
            == Some(PointerReport(v.dx, v.dy, v.wheel, v.pan, MaskOf(v.fields)))
  {
    hide ParsePointer, MouseLayout, Decode, Descriptor, MouseCells;
    MouseDescriptorParses(m);
    MouseReportDecodes(m, v, trailing);
  }
}

/**
 * What one item does to the parser's state, as functions on values. `HidParser` refines these
 * in place; `HidWalkLaws` and `HidOffsets` state what they mean for whole descriptors.
 */
module HidWalk {
  import opened Bits
  import opened HidTypes
  import opened HidItems

  // Main, global and local item tags (USB HID 1.11, sections 6.2.2.4 to 6.2.2.8).
  const TAG_INPUT: byte := 0x8
  const TAG_OUTPUT: byte := 0x9
  const TAG_COLLECTION: byte := 0xA
  const TAG_FEATURE: byte := 0xB
  const TAG_END_COLLECTION: byte := 0xC
  const TAG_USAGE_PAGE: byte := 0x0
  const TAG_LOGICAL_MIN: byte := 0x1
  const TAG_LOGICAL_MAX: byte := 0x2
  const TAG_REPORT_SIZE: byte := 0x7
  const TAG_REPORT_ID: byte := 0x8
  const TAG_REPORT_COUNT: byte := 0x9
  const TAG_PUSH: byte := 0xA
  const TAG_POP: byte := 0xB
  const TAG_USAGE: byte := 0x0
  const TAG_USAGE_MIN: byte := 0x1
  const TAG_USAGE_MAX: byte := 0x2

  const COLLECTION_APPLICATION := 0x01
  const PAGE_GENERIC_DESKTOP := 0x01
  const PAGE_KEYBOARD := 0x07
  const PAGE_BUTTON := 0x09
  const PAGE_CONSUMER := 0x0C
  const USAGE_MOUSE := 0x02
  const USAGE_KEYBOARD := 0x06
  const USAGE_X := 0x30
  const USAGE_Y := 0x31
  const USAGE_WHEEL := 0x38
  const USAGE_KBD_MOD_MIN := 0xE0
  const USAGE_AC_PAN := 0x0238

  const MAX_LOCAL_USAGES := 16
  const GLOBAL_STACK_DEPTH := 8
  const BIT_OFFSET_MAX := 0xFFFF
  const UINT32_MAX: uint32 := 0xFFFF_FFFF

  /** Levels of an application collection; a non-negative level is the depth it opened at. */
  const NOT_SEEN := -1
  const CLOSED := -2

  datatype Globals = Globals(usagePage: uint16, logicalMin: int32, reportSize: byte, reportCount: byte, reportId: byte)

  datatype Locals = Locals(usages: seq<uint32>, usageMin: uint32, usageMax: uint32, hasRange: bool)

  const NO_LOCALS := Locals([], 0, 0, false)

  datatype State = State(
    g: Globals, stack: seq<Globals>, l: Locals, cursor: uint32,
    depth: nat, mouseLevel: int, kbdLevel: int,
    ptr: PointerLayout, kbd: KeyboardLayout)

  const INIT := State(Globals(0, 0, 0, 0, 0), [], NO_LOCALS, 0, 0, NOT_SEEN, NOT_SEEN, NO_LAYOUT, NO_KBD_LAYOUT)

  // ------------------------------------------------------------- usages, flags

  function MakeUsage(page: uint16, id: int): (u: uint32) { page * 0x1_0000 + U16(id) }

  function UsagePage(u: uint32): uint16 { u / 0x1_0000 }

  function UsageId(u: uint32): uint16 { u % 0x1_0000 }

  lemma UsageParts(page: uint16, id: uint16)
    ensures UsagePage(MakeUsage(page, id)) == page && UsageId(MakeUsage(page, id)) == id
  {}

  predicate IsConstant(flags: nat) { Bit(flags, 0) }

  predicate IsVariable(flags: nat) { Bit(flags, 1) }

  /** Sign-extension of an item's `size` data bytes. */
  function SignedItem(data: seq<byte>): int32
    requires |data| <= 4
  {
    LeNatBound(data);
    Pow2Mono(8 * |data|, 32);
    Pow2Literals();
    var v := LeNat(data);
    if 0 < |data| < 4 && Bit(v, 8 * |data| - 1) then v - Pow2(8 * |data|) else ToInt32(v)
  }

  function UnsignedItem(data: seq<byte>): uint32
    requires |data| <= 4
  {
    LeNatBound(data);
    Pow2Mono(8 * |data|, 32);
    Pow2Literals();
    LeNat(data)
  }

  /** The usage of slot i: an explicit list first, its last entry repeating; else the range. */
  function UsageForSlot(g: Globals, l: Locals, i: nat): uint32 {
    if |l.usages| > 0 then l.usages[if i < |l.usages| then i else |l.usages| - 1]
    else if l.hasRange then
      var u := U32(l.usageMin + i);
      MakeUsage(g.usagePage, if u > l.usageMax then l.usageMax else u)
    else MakeUsage(g.usagePage, 0)
  }

  predicate UsagesAreModifiers(l: Locals) {
    if l.hasRange then l.usageMin == USAGE_KBD_MOD_MIN
    else |l.usages| > 0 && UsageId(l.usages[0]) == USAGE_KBD_MOD_MIN
  }

  /** The four relative axes a pointer layout has room for. */
  datatype Axis = X | Y | Wheel | HWheel

  predicate IsAxis(u: uint32, a: Axis) {
    match a
    case X => UsagePage(u) == PAGE_GENERIC_DESKTOP && UsageId(u) == USAGE_X
    case Y => UsagePage(u) == PAGE_GENERIC_DESKTOP && UsageId(u) == USAGE_Y
    case Wheel => UsagePage(u) == PAGE_GENERIC_DESKTOP && UsageId(u) == USAGE_WHEEL
    case HWheel => UsagePage(u) == PAGE_CONSUMER && UsageId(u) == USAGE_AC_PAN
  }

  function GetAxis(o: PointerLayout, a: Axis): Field {
    match a case X => o.x case Y => o.y case Wheel => o.wheel case HWheel => o.hwheel
  }

  // --------------------------------------------------------------- Input items

  /** Keep the first occurrence; the end check adds in uint32. */
  function SetField(f: Field, offset: uint32, size: byte, isSigned: bool): Field {
    if f.bitSize != 0 then f
    else if U32(offset + size) > BIT_OFFSET_MAX then f
    else Field(U16(offset), size, isSigned)
  }

  function AssignSlot(o: PointerLayout, g: Globals, l: Locals, start: uint32, i: nat): PointerLayout {
    var u := UsageForSlot(g, l, i);
    var off := U32(start + i * g.reportSize);
    var signed := g.logicalMin < 0;
    if IsAxis(u, X) then o.(x := SetField(o.x, off, g.reportSize, signed))
    else if IsAxis(u, Y) then o.(y := SetField(o.y, off, g.reportSize, signed))
    else if IsAxis(u, Wheel) then o.(wheel := SetField(o.wheel, off, g.reportSize, signed))
    else if IsAxis(u, HWheel) then o.(hwheel := SetField(o.hwheel, off, g.reportSize, signed))
    else o
  }

  /** Slots 0..n of one Variable item. */
  function AssignSlots(o: PointerLayout, g: Globals, l: Locals, start: uint32, n: nat): PointerLayout {
    if n == 0 then o else AssignSlot(AssignSlots(o, g, l, start, n - 1), g, l, start, n - 1)
  }

  function LockPointer(o: PointerLayout, g: Globals): PointerLayout {
    if o.reportId == 0 && o.buttons.bitSize == 0 && o.x.bitSize == 0 && o.y.bitSize == 0
    then o.(reportId := g.reportId) else o
  }

  function AssignButtons(o: PointerLayout, g: Globals, start: uint32): PointerLayout {
    var count := Min(g.reportCount, MAX_BUTTONS);
    var size := if g.reportSize != 0 then g.reportSize else 1;
    if o.buttons.bitSize == 0 && U32(start + count * size) <= BIT_OFFSET_MAX
    then o.(buttons := Field(U16(start), size, false), buttonCount := count)
    else o
  }

  function AssignInput(o: PointerLayout, g: Globals, l: Locals, start: uint32): PointerLayout {
    var o1 := LockPointer(o, g);
    if g.usagePage == PAGE_BUTTON then AssignButtons(o1, g, start)
    else AssignSlots(o1, g, l, start, g.reportCount)
  }

  function LockKeyboard(o: KeyboardLayout, g: Globals): KeyboardLayout {
    if o.reportId == 0 && o.modifiers.bitSize == 0 && o.keys.bitSize == 0
    then o.(reportId := g.reportId) else o
  }

  function AssignModifiers(o: KeyboardLayout, g: Globals, l: Locals, start: uint32): KeyboardLayout {
    var per := if g.reportSize != 0 then g.reportSize else 1;
    var bits := g.reportCount * per;
    if g.usagePage == PAGE_KEYBOARD && o.modifiers.bitSize == 0 && UsagesAreModifiers(l)
       && per == 1 && 0 < bits <= 8 && U32(start + bits) <= BIT_OFFSET_MAX
    then o.(modifiers := Field(U16(start), bits, false))
    else o
  }

  function AssignKeys(o: KeyboardLayout, g: Globals, start: uint32): KeyboardLayout {
    var per := if g.reportSize != 0 then g.reportSize else 8;
    if g.usagePage == PAGE_KEYBOARD && o.keys.bitSize == 0
       && g.reportCount > 0 && U32(start + g.reportCount * per) <= BIT_OFFSET_MAX
    then o.(keys := Field(U16(start), per, false), keyCount := g.reportCount)
    else o
  }

  function AssignKbdInput(o: KeyboardLayout, g: Globals, l: Locals, start: uint32, flags: nat): KeyboardLayout {
    var o1 := LockKeyboard(o, g);
    if IsVariable(flags) then AssignModifiers(o1, g, l, start) else AssignKeys(o1, g, start)
  }

  /** Constant padding still moves the cursor; it saturates instead of wrapping. */
  function Advance(cursor: uint32, total: nat): uint32 {
    if U32(cursor + total) < cursor then UINT32_MAX else U32(cursor + total)
  }

  function DoInput(s: State, flags: nat): State {
    s.(ptr := if s.mouseLevel >= 0 && !IsConstant(flags) && IsVariable(flags)
              then AssignInput(s.ptr, s.g, s.l, s.cursor) else s.ptr,
       kbd := if s.kbdLevel >= 0 && !IsConstant(flags)
              then AssignKbdInput(s.kbd, s.g, s.l, s.cursor, flags) else s.kbd,
       cursor := Advance(s.cursor, s.g.reportSize * s.g.reportCount))
  }

  // --------------------------------------------------------------- other items

  predicate OpensApplication(s: State, kind: nat, usage: nat) {
    && kind == COLLECTION_APPLICATION
    && |s.l.usages| > 0
    && UsagePage(s.l.usages[|s.l.usages| - 1]) == PAGE_GENERIC_DESKTOP
    && UsageId(s.l.usages[|s.l.usages| - 1]) == usage
  }

  function DoCollection(s: State, kind: nat): State {
    s.(mouseLevel := if OpensApplication(s, kind, USAGE_MOUSE) && s.mouseLevel == NOT_SEEN then s.depth else s.mouseLevel,
       kbdLevel := if OpensApplication(s, kind, USAGE_KEYBOARD) && s.kbdLevel == NOT_SEEN then s.depth else s.kbdLevel,
       depth := s.depth + 1)
  }

  function CloseLevel(level: int, depth: nat): int {
    if level >= 0 && depth <= level then CLOSED else level
  }

  function DoEndCollection(s: State): State {
    var d := if s.depth > 0 then s.depth - 1 else 0;
    s.(depth := d, mouseLevel := CloseLevel(s.mouseLevel, d), kbdLevel := CloseLevel(s.kbdLevel, d))
  }

  function DoMain(s: State, tag: byte, data: seq<byte>): State
    requires |data| <= 4
  {
    var v := UnsignedItem(data);
    var s1 :=
      if tag == TAG_INPUT then DoInput(s, v)
      else if tag == TAG_COLLECTION then DoCollection(s, v)
      else if tag == TAG_END_COLLECTION then DoEndCollection(s)
      else s;
    s1.(l := NO_LOCALS)
  }

  function DoGlobal(s: State, tag: byte, data: seq<byte>): State
    requires |data| <= 4
  {
    var v := UnsignedItem(data);
    if tag == TAG_USAGE_PAGE then s.(g := s.g.(usagePage := U16(v)))
    else if tag == TAG_LOGICAL_MIN then s.(g := s.g.(logicalMin := SignedItem(data)))
    else if tag == TAG_REPORT_SIZE then s.(g := s.g.(reportSize := U8(v)))
    else if tag == TAG_REPORT_COUNT then s.(g := s.g.(reportCount := U8(v)))
    else if tag == TAG_REPORT_ID then
      s.(g := s.g.(reportId := U8(v)), cursor := if U8(v) != s.g.reportId then 0 else s.cursor)
    else if tag == TAG_PUSH && |s.stack| < GLOBAL_STACK_DEPTH then s.(stack := s.stack + [s.g])
    else if tag == TAG_POP && |s.stack| > 0 then
      s.(g := s.stack[|s.stack| - 1], stack := s.stack[..|s.stack| - 1])
    else s
  }

  function AddUsage(l: Locals, u: uint32): Locals {
    if |l.usages| < MAX_LOCAL_USAGES then l.(usages := l.usages + [u]) else l
  }

  function DoLocal(g: Globals, l: Locals, tag: byte, data: seq<byte>): Locals
    requires |data| <= 4
  {
    var v := UnsignedItem(data);
    if tag == TAG_USAGE then AddUsage(l, if |data| == 4 then v else MakeUsage(g.usagePage, v))
    else if tag == TAG_USAGE_MIN then l.(usageMin := v, hasRange := true)
    else if tag == TAG_USAGE_MAX then l.(usageMax := v, hasRange := true)
    else l
  }

  function Step(s: State, x: Item): State {
    if |x.data| > 4 then s
    else match x.kind
      case Main => DoMain(s, x.tag, x.data)
      case Global => DoGlobal(s, x.tag, x.data)
      case Local => s.(l := DoLocal(s.g, s.l, x.tag, x.data))
      case Reserved => s
  }

  /** The walk over a list of items. */
  function Run(s: State, xs: seq<Item>): State
    decreases |xs|
  {
    if |xs| == 0 then s else Step(Run(s, xs[..|xs| - 1]), xs[|xs| - 1])
  }

  /** Walking a concatenation is walking the parts in turn. */
  lemma {:induction false} RunConcat(s: State, a: seq<Item>, b: seq<Item>)
    ensures Run(s, a + b) == Run(Run(s, a), b)
    decreases |b|
  {
    if |b| == 0 {
      assert a + b == a;
    } else {
      var b0 := b[..|b| - 1];
      assert (a + b)[..|a + b| - 1] == a + b0;
      RunConcat(s, a, b0);
    }
  }

  lemma RunNil(s: State)
    ensures Run(s, []) == s
  {}

  lemma RunOne(s: State, x: Item)
    ensures Run(s, [x]) == Step(s, x)
  {
    assert [x][..0] == [];
    assert Run(s, []) == s;
  }

  lemma RunSnoc(s: State, xs: seq<Item>, x: Item)
    ensures Run(s, xs + [x]) == Step(Run(s, xs), x)
  {
    assert (xs + [x])[..|xs|] == xs;
  }

  lemma RunCons(s: State, x: Item, xs: seq<Item>)
    ensures Run(s, [x] + xs) == Run(Step(s, x), xs)
  {
    RunConcat(s, [x], xs);
    RunOne(s, x);
  }

  // -------------------------------------------------------------- entry points

  /** A usable pointer has X and Y, in a descriptor whose collections are all closed. */
  function ParsePointer(bytes: seq<byte>): PointerLayout {
    var s := Run(INIT, Items(bytes));
    s.ptr.(valid := s.ptr.x.bitSize != 0 && s.ptr.y.bitSize != 0 && s.depth == 0)
  }

  /** A usable keyboard has a keycode array, in a descriptor whose collections are all closed. */
  function ParseKeyboard(bytes: seq<byte>): KeyboardLayout {
    var s := Run(INIT, Items(bytes));
    s.kbd.(valid := s.kbd.keys.bitSize != 0 && s.depth == 0)
  }
}

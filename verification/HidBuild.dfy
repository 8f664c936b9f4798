/** Descriptors built item by item, and what each item does to the walk. */
module HidBuild {
  import opened Bits
  import opened HidItems
  import opened HidWalk

  function G(tag: byte, v: byte): Item { Item(Global, tag, [v]) }

  function L(tag: byte, v: byte): Item { Item(Local, tag, [v]) }

  function M(tag: byte, v: byte): Item { Item(Main, tag, [v]) }

  const END := Item(Main, TAG_END_COLLECTION, [])

  /** The bytes of the items that matter, as USB HID 1.11 (section 6.2.2) has them: prefix, then data. */
  lemma ItemBytes(v: byte, w: byte, lo: seq<byte>)
    requires |lo| == 4
    ensures Encode(G(TAG_USAGE_PAGE, v)) == [0x05, v] && Encode(G(TAG_LOGICAL_MIN, v)) == [0x15, v]
    ensures Encode(G(TAG_LOGICAL_MAX, v)) == [0x25, v] && Encode(G(TAG_REPORT_SIZE, v)) == [0x75, v]
    ensures Encode(G(TAG_REPORT_ID, v)) == [0x85, v] && Encode(G(TAG_REPORT_COUNT, v)) == [0x95, v]
    ensures Encode(Item(Global, TAG_LOGICAL_MIN, [v, w])) == [0x16, v, w] && Encode(Item(Global, TAG_LOGICAL_MIN, lo)) == [0x17] + lo
    ensures Encode(Item(Global, TAG_PUSH, [])) == [0xA4] && Encode(Item(Global, TAG_POP, [])) == [0xB4]
    ensures Encode(L(TAG_USAGE, v)) == [0x09, v] && Encode(Item(Local, TAG_USAGE, [v, w])) == [0x0A, v, w]
    ensures Encode(Item(Local, TAG_USAGE, lo)) == [0x0B] + lo
    ensures Encode(L(TAG_USAGE_MIN, v)) == [0x19, v] && Encode(L(TAG_USAGE_MAX, v)) == [0x29, v]
    ensures Encode(M(TAG_INPUT, v)) == [0x81, v] && Encode(M(TAG_OUTPUT, v)) == [0x91, v] && Encode(M(TAG_FEATURE, v)) == [0xB1, v]
    ensures Encode(M(TAG_COLLECTION, v)) == [0xA1, v] && Encode(END) == [0xC0]
  {}

  lemma OneByte(v: byte)
    ensures UnsignedItem([v]) == v
  {
    assert [v][1..] == [] && LeNat([]) == 0;
    assert LeNat([v]) == v + 0x100 * LeNat([v][1..]);
  }

  lemma StepPage(s: State, v: byte)
    ensures Step(s, G(TAG_USAGE_PAGE, v)) == s.(g := s.g.(usagePage := v))
  { OneByte(v); }

  lemma StepSize(s: State, v: byte)
    ensures Step(s, G(TAG_REPORT_SIZE, v)) == s.(g := s.g.(reportSize := v))
  { OneByte(v); }

  lemma StepCount(s: State, v: byte)
    ensures Step(s, G(TAG_REPORT_COUNT, v)) == s.(g := s.g.(reportCount := v))
  { OneByte(v); }

  lemma StepId(s: State, v: byte)
    ensures Step(s, G(TAG_REPORT_ID, v)) == s.(g := s.g.(reportId := v), cursor := if v != s.g.reportId then 0 else s.cursor)
  { OneByte(v); }

  lemma StepMin(s: State, data: seq<byte>)
    requires |data| <= 4
    ensures Step(s, Item(Global, TAG_LOGICAL_MIN, data)) == s.(g := s.g.(logicalMin := SignedItem(data)))
  {}

  lemma StepMax(s: State, data: seq<byte>)
    requires |data| <= 4
    ensures Step(s, Item(Global, TAG_LOGICAL_MAX, data)) == s
  {}

  lemma StepUsage(s: State, v: byte)
    ensures Step(s, L(TAG_USAGE, v)) == s.(l := AddUsage(s.l, MakeUsage(s.g.usagePage, v)))
  { OneByte(v); }

  lemma StepUsage16(s: State, lo: byte, hi: byte)
    ensures Step(s, Item(Local, TAG_USAGE, [lo, hi])) == s.(l := AddUsage(s.l, MakeUsage(s.g.usagePage, lo + 0x100 * hi)))
  {
    assert [lo, hi][1..] == [hi] && [hi][1..] == [];
    assert LeNat([lo, hi]) == lo + 0x100 * LeNat([hi]);
    assert LeNat([hi]) == hi;
  }

  lemma StepUsageMin(s: State, v: byte)
    ensures Step(s, L(TAG_USAGE_MIN, v)) == s.(l := s.l.(usageMin := v, hasRange := true))
  { OneByte(v); }

  lemma StepUsageMax(s: State, v: byte)
    ensures Step(s, L(TAG_USAGE_MAX, v)) == s.(l := s.l.(usageMax := v, hasRange := true))
  { OneByte(v); }

  lemma StepInput(s: State, flags: byte)
    ensures Step(s, M(TAG_INPUT, flags)) == DoInput(s, flags).(l := NO_LOCALS)
  { OneByte(flags); }

  /** Without saturation the cursor moves by the bits of the item. */
  lemma AdvanceExact(s: State)
    requires s.cursor + s.g.reportSize * s.g.reportCount <= UINT32_MAX
    ensures 0 <= s.g.reportSize * s.g.reportCount
    ensures Advance(s.cursor, s.g.reportSize * s.g.reportCount) == s.cursor + s.g.reportSize * s.g.reportCount
  {
    MulMono(0, s.g.reportSize, s.g.reportCount);
  }

  lemma StepCollection(s: State, kind: byte)
    ensures Step(s, M(TAG_COLLECTION, kind)) == DoCollection(s, kind).(l := NO_LOCALS)
  { OneByte(kind); }

  lemma StepEnd(s: State)
    ensures Step(s, END) == DoEndCollection(s).(l := NO_LOCALS)
  {}

  // Walking a display is its steps in turn.

  lemma Run2(s: State, a: Item, b: Item)
    ensures Run(s, [a, b]) == Step(Step(s, a), b)
  {
    assert [a, b] == [a] + [b];
    RunOne(s, a);
    RunSnoc(s, [a], b);
  }

  lemma Run3(s: State, a: Item, b: Item, c: Item)
    ensures Run(s, [a, b, c]) == Step(Step(Step(s, a), b), c)
  {
    hide Step;
    assert [a, b, c] == [a, b] + [c];
    Run2(s, a, b);
    RunSnoc(s, [a, b], c);
  }

  lemma Run4(s: State, a: Item, b: Item, c: Item, d: Item)
    ensures Run(s, [a, b, c, d]) == Step(Step(Step(Step(s, a), b), c), d)
  {
    hide Step;
    assert [a, b, c, d] == [a, b, c] + [d];
    Run3(s, a, b, c);
    RunSnoc(s, [a, b, c], d);
  }

  lemma Run5(s: State, a: Item, b: Item, c: Item, d: Item, e: Item)
    ensures Run(s, [a, b, c, d, e]) == Step(Step(Step(Step(Step(s, a), b), c), d), e)
  {
    hide Step;
    assert [a, b, c, d, e] == [a, b, c, d] + [e];
    Run4(s, a, b, c, d);
    RunSnoc(s, [a, b, c, d], e);
  }

  lemma Run6(s: State, a: Item, b: Item, c: Item, d: Item, e: Item, f: Item)
    ensures Run(s, [a, b, c, d, e, f]) == Step(Step(Step(Step(Step(Step(s, a), b), c), d), e), f)
  {
    hide Step;
    assert [a, b, c, d, e, f] == [a, b, c, d, e] + [f];
    Run5(s, a, b, c, d, e);
    RunSnoc(s, [a, b, c, d, e], f);
  }

  lemma Run7(s: State, a: Item, b: Item, c: Item, d: Item, e: Item, f: Item, g: Item)
    ensures Run(s, [a, b, c, d, e, f, g]) == Step(Step(Step(Step(Step(Step(Step(s, a), b), c), d), e), f), g)
  {
    hide Step;
    assert [a, b, c, d, e, f, g] == [a, b, c, d, e, f] + [g];
    Run6(s, a, b, c, d, e, f);
    RunSnoc(s, [a, b, c, d, e, f], g);
  }

  lemma Run8(s: State, a: Item, b: Item, c: Item, d: Item, e: Item, f: Item, g: Item, h: Item)
    ensures Run(s, [a, b, c, d, e, f, g, h]) == Step(Step(Step(Step(Step(Step(Step(Step(s, a), b), c), d), e), f), g), h)
  {
    hide Step;
    assert [a, b, c, d, e, f, g, h] == [a, b, c, d, e, f, g] + [h];
    Run7(s, a, b, c, d, e, f, g);
    RunSnoc(s, [a, b, c, d, e, f, g], h);
  }

  lemma FlagBits()
    ensures IsVariable(2) && !IsConstant(2) && IsConstant(3) && IsVariable(6) && !IsConstant(6) && !IsVariable(0) && !IsConstant(0)
  {
    assert Bit(2, 1) == Bit(1, 0) && Bit(6, 1) == Bit(3, 0) && Bit(0, 1) == Bit(0, 0);
  }

  lemma AddFirstUsage(u: uint32)
    ensures AddUsage(NO_LOCALS, u) == NO_LOCALS.(usages := [u])
  {
    assert [] + [u] == [u];
  }

  /** An application collection opens the application its usage names. */
  lemma Opens(s: State, page: uint16, id: uint16, kind: byte, usage: nat)
    requires s.l.usages == [MakeUsage(page, id)]
    ensures OpensApplication(s, kind, usage) <==> kind == COLLECTION_APPLICATION && page == PAGE_GENERIC_DESKTOP && id == usage
  {
    UsageParts(page, id);
  }

  /** Usage Page (Generic Desktop), Usage (Mouse or Keyboard), Collection (Application). */
  function OpenApp(usage: byte): seq<Item> {
    [G(TAG_USAGE_PAGE, 0x01), L(TAG_USAGE, usage), M(TAG_COLLECTION, 0x01)]
  }

  function Opened(usage: byte): State {
    INIT.(g := INIT.g.(usagePage := 1), depth := 1,
          mouseLevel := if usage == USAGE_MOUSE then 0 else NOT_SEEN,
          kbdLevel := if usage == USAGE_KEYBOARD then 0 else NOT_SEEN)
  }

  lemma RunOpenApp(usage: byte)
    ensures Run(INIT, OpenApp(usage)) == Opened(usage)
  {
    hide Step, Run, MakeUsage, OpensApplication;
    Run3(INIT, G(TAG_USAGE_PAGE, 0x01), L(TAG_USAGE, usage), M(TAG_COLLECTION, 0x01));
    StepPage(INIT, 1);
    var s1 := INIT.(g := INIT.g.(usagePage := 1));
    StepUsage(s1, usage);
    AddFirstUsage(MakeUsage(1, usage));
    var s2 := s1.(l := NO_LOCALS.(usages := [MakeUsage(1, usage)]));
    StepCollection(s2, 1);
    Opens(s2, 1, usage, 1, USAGE_MOUSE);
    Opens(s2, 1, usage, 1, USAGE_KEYBOARD);
  }

  /** The Report ID item, if the device uses report ids. */
  function IdItems(reportId: byte): seq<Item> { if reportId == 0 then [] else [G(TAG_REPORT_ID, reportId)] }

  lemma RunId(s: State, id: byte)
    requires s.cursor == 0 && s.g.reportId == 0
    ensures Run(s, IdItems(id)) == s.(g := s.g.(reportId := id))
  {
    hide Step, Run;
    if id == 0 { RunNil(s); } else { RunOne(s, G(TAG_REPORT_ID, id)); StepId(s, id); }
  }

  lemma ConstantInput(s: State)
    requires s.cursor + s.g.reportSize * s.g.reportCount <= UINT32_MAX
    ensures Step(s, M(TAG_INPUT, 3)) == s.(l := NO_LOCALS, cursor := s.cursor + s.g.reportSize * s.g.reportCount)
  {
    hide Step, AssignInput, AssignKbdInput, IsConstant, IsVariable, Advance;
    FlagBits();
    StepInput(s, 3);
    AdvanceExact(s);
  }

  lemma ZeroMin()
    ensures SignedItem([0]) == 0
  {
    OneByte(0);
    BitOfZero(7);
  }

  lemma EncodableConcat(a: seq<Item>, b: seq<Item>)
    requires AllEncodable(a) && AllEncodable(b)
    ensures AllEncodable(a + b)
  {}
}

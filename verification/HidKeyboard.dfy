/**
 * End to end for keyboards: the descriptor printed for a boot-style keyboard parses to its layout, and
 * decoding a modifier byte, a reserved byte and the key array returns the modifiers and the keys held.
 */
module HidKeyboard {
  import opened Bits
  import opened HidTypes
  import opened HidItems
  import opened HidWalk
  import opened HidBuild
  import opened HidDecode
  import opened HidDecodeLaws

  const MODIFIER_ITEMS := [
    G(TAG_USAGE_PAGE, 0x07), L(TAG_USAGE_MIN, 0xE0), L(TAG_USAGE_MAX, 0xE7), G(TAG_LOGICAL_MIN, 0), G(TAG_LOGICAL_MAX, 1),
    G(TAG_REPORT_SIZE, 1), G(TAG_REPORT_COUNT, 8), M(TAG_INPUT, 0x02)]

  const RESERVED_ITEMS := [G(TAG_REPORT_COUNT, 1), G(TAG_REPORT_SIZE, 8), M(TAG_INPUT, 0x03)]

  /** `n` keycodes of 8 bits, in the order of the items of the boot descriptor. */
  function KeyGlobals(n: byte): seq<Item> {
    [G(TAG_REPORT_COUNT, n), G(TAG_REPORT_SIZE, 8), G(TAG_LOGICAL_MIN, 0), G(TAG_LOGICAL_MAX, 0x65)]
  }

  const KEY_ARRAY := [G(TAG_USAGE_PAGE, 0x07), L(TAG_USAGE_MIN, 0x00), L(TAG_USAGE_MAX, 0x65), M(TAG_INPUT, 0x00)]

  function KeyboardItems(reportId: byte, n: byte): seq<Item> {
    OpenApp(0x06) + IdItems(reportId) + MODIFIER_ITEMS + RESERVED_ITEMS + KeyGlobals(n) + KEY_ARRAY + [END]
  }

  function BootLayout(reportId: byte, n: byte): KeyboardLayout {
    KeyboardLayout(reportId, Field(0, 8, false), Field(16, 8, false), n, true)
  }

  predicate InKeyboard(s: State) { s.kbdLevel >= 0 && s.mouseLevel < 0 && s.l == NO_LOCALS && s.cursor < 1000 }

  lemma KeyboardInput(s: State, flags: byte)
    requires s.kbdLevel >= 0 && s.mouseLevel < 0 && s.cursor + s.g.reportSize * s.g.reportCount <= UINT32_MAX
    requires flags == 0 || flags == 2
    ensures Step(s, M(TAG_INPUT, flags))
            == s.(kbd := AssignKbdInput(s.kbd, s.g, s.l, s.cursor, flags), l := NO_LOCALS,
                  cursor := s.cursor + s.g.reportSize * s.g.reportCount)
  {
    hide Step, AssignInput, AssignKbdInput, IsConstant, IsVariable, Advance;
    FlagBits();
    StepInput(s, flags);
    AdvanceExact(s);
  }

  lemma RunModifiers(s: State)
    requires InKeyboard(s) && s.kbd == NO_KBD_LAYOUT
    ensures Run(s, MODIFIER_ITEMS)
            == s.(g := Globals(7, 0, 1, 8, s.g.reportId), cursor := s.cursor + 8,
                  kbd := NO_KBD_LAYOUT.(reportId := s.g.reportId, modifiers := Field(s.cursor, 8, false)))
  {
    hide Step, Run, IsVariable;
    Run8(s, G(TAG_USAGE_PAGE, 0x07), L(TAG_USAGE_MIN, 0xE0), L(TAG_USAGE_MAX, 0xE7), G(TAG_LOGICAL_MIN, 0), G(TAG_LOGICAL_MAX, 1),
         G(TAG_REPORT_SIZE, 1), G(TAG_REPORT_COUNT, 8), M(TAG_INPUT, 0x02));
    StepPage(s, 7);
    var s1 := s.(g := s.g.(usagePage := 7));
    StepUsageMin(s1, 0xE0);
    var s2 := s1.(l := s1.l.(usageMin := 0xE0, hasRange := true));
    StepUsageMax(s2, 0xE7);
    var s3 := s2.(l := s2.l.(usageMax := 0xE7));
    StepMin(s3, [0]);
    ZeroMin();
    var s4 := s3.(g := s3.g.(logicalMin := 0));
    StepMax(s4, [1]);
    StepSize(s4, 1);
    var s5 := s4.(g := s4.g.(reportSize := 1));
    StepCount(s5, 8);
    var s6 := s5.(g := s5.g.(reportCount := 8));
    KeyboardInput(s6, 2);
    FlagBits();
    assert AssignModifiers(LockKeyboard(s6.kbd, s6.g), s6.g, s6.l, s6.cursor)
        == NO_KBD_LAYOUT.(reportId := s.g.reportId, modifiers := Field(s.cursor, 8, false));
  }

  lemma RunReserved(s: State)
    requires InKeyboard(s)
    ensures Run(s, RESERVED_ITEMS) == s.(g := s.g.(reportCount := 1, reportSize := 8), cursor := s.cursor + 8)
  {
    hide Step, Run;
    Run3(s, G(TAG_REPORT_COUNT, 1), G(TAG_REPORT_SIZE, 8), M(TAG_INPUT, 0x03));
    StepCount(s, 1);
    StepSize(s.(g := s.g.(reportCount := 1)), 8);
    ConstantInput(s.(g := s.g.(reportCount := 1, reportSize := 8)));
  }

  lemma RunKeyGlobals(s: State, n: byte)
    ensures Run(s, KeyGlobals(n)) == s.(g := s.g.(reportCount := n, reportSize := 8, logicalMin := 0))
  {
    hide Step, Run;
    Run4(s, G(TAG_REPORT_COUNT, n), G(TAG_REPORT_SIZE, 8), G(TAG_LOGICAL_MIN, 0), G(TAG_LOGICAL_MAX, 0x65));
    StepCount(s, n);
    var s1 := s.(g := s.g.(reportCount := n));
    StepSize(s1, 8);
    var s2 := s1.(g := s1.g.(reportSize := 8));
    StepMin(s2, [0]);
    ZeroMin();
    StepMax(s2.(g := s2.g.(logicalMin := 0)), [0x65]);
  }

  lemma RunKeyArray(s: State)
    requires InKeyboard(s) && s.g.reportSize == 8 && s.g.reportCount > 0
    requires s.kbd.modifiers.bitSize != 0 && s.kbd.keys.bitSize == 0
    ensures Run(s, KEY_ARRAY)
            == s.(g := s.g.(usagePage := 7), cursor := s.cursor + 8 * s.g.reportCount,
                  kbd := s.kbd.(keys := Field(s.cursor, 8, false), keyCount := s.g.reportCount))
  {
    hide Step, Run, IsVariable;
    Run4(s, G(TAG_USAGE_PAGE, 0x07), L(TAG_USAGE_MIN, 0x00), L(TAG_USAGE_MAX, 0x65), M(TAG_INPUT, 0x00));
    StepPage(s, 7);
    var s1 := s.(g := s.g.(usagePage := 7));
    StepUsageMin(s1, 0);
    var s2 := s1.(l := s1.l.(usageMin := 0, hasRange := true));
    StepUsageMax(s2, 0x65);
    var s3 := s2.(l := s2.l.(usageMax := 0x65));
    KeyboardInput(s3, 0);
    FlagBits();
    assert LockKeyboard(s3.kbd, s3.g) == s3.kbd;
  }

  lemma RunKeyboard(reportId: byte, n: byte)
    requires n > 0
    ensures var s := Run(INIT, KeyboardItems(reportId, n));
            s.depth == 0 && s.kbd.(valid := true) == BootLayout(reportId, n) && s.ptr == NO_LAYOUT
  {
    hide Step, Run, OpenApp, IdItems, MODIFIER_ITEMS, RESERVED_ITEMS, KeyGlobals, KEY_ARRAY;
    var a := OpenApp(0x06);
    RunOpenApp(0x06);
    RunId(Opened(0x06), reportId);
    RunConcat(INIT, a, IdItems(reportId));
    var b := a + IdItems(reportId);
    RunModifiers(Run(INIT, b));
    RunConcat(INIT, b, MODIFIER_ITEMS);
    var c := b + MODIFIER_ITEMS;
    RunReserved(Run(INIT, c));
    RunConcat(INIT, c, RESERVED_ITEMS);
    var d := c + RESERVED_ITEMS;
    RunKeyGlobals(Run(INIT, d), n);
    RunConcat(INIT, d, KeyGlobals(n));
    var e := d + KeyGlobals(n);
    RunKeyArray(Run(INIT, e));
    RunConcat(INIT, e, KEY_ARRAY);
    var f := e + KEY_ARRAY;
    RunConcat(INIT, f, [END]);
    RunOne(Run(INIT, f), END);
    StepEnd(Run(INIT, f));
  }

  lemma KeyboardEncodable(reportId: byte, n: byte)
    ensures AllEncodable(KeyboardItems(reportId, n))
  {
    hide AllEncodable, OpenApp, IdItems, MODIFIER_ITEMS, RESERVED_ITEMS, KeyGlobals, KEY_ARRAY;
    KeyboardSegments(reportId, n);
    var a := OpenApp(0x06) + IdItems(reportId);
    EncodableConcat(OpenApp(0x06), IdItems(reportId));
    EncodableConcat(a, MODIFIER_ITEMS);
    var b := a + MODIFIER_ITEMS;
    EncodableConcat(b, RESERVED_ITEMS);
    var c := b + RESERVED_ITEMS;
    EncodableConcat(c, KeyGlobals(n));
    var d := c + KeyGlobals(n);
    EncodableConcat(d, KEY_ARRAY);
    EncodableConcat(d + KEY_ARRAY, [END]);
  }

  lemma KeyboardSegments(reportId: byte, n: byte)
    ensures AllEncodable(OpenApp(0x06)) && AllEncodable(IdItems(reportId)) && AllEncodable(MODIFIER_ITEMS)
    ensures AllEncodable(RESERVED_ITEMS) && AllEncodable(KeyGlobals(n)) && AllEncodable(KEY_ARRAY) && AllEncodable([END])
  {}

  function Descriptor(reportId: byte, n: byte): seq<byte> {
    KeyboardEncodable(reportId, n);
    Print(KeyboardItems(reportId, n))
  }

  /** The descriptor printed for a boot-style keyboard parses to exactly its layout, and to no pointer. */
  lemma KeyboardDescriptorParses(reportId: byte, n: byte)
    requires n > 0
    ensures ParseKeyboard(Descriptor(reportId, n)) == BootLayout(reportId, n)
    ensures !ParsePointer(Descriptor(reportId, n)).valid
  {
    hide Run, Items, Print, KeyboardItems;
    KeyboardEncodable(reportId, n);
    ItemsOfPrint(KeyboardItems(reportId, n));
    RunKeyboard(reportId, n);
  }

  // -------------------------------------------------------------------- values

  /** The codes that are keys, in order. */
  function Held(codes: seq<byte>): seq<byte>
    decreases |codes|
  {
    if |codes| == 0 then []
    else
      var c := codes[|codes| - 1];
      Held(codes[..|codes| - 1]) + (if c >= 2 then [c] else [])
  }

  lemma {:induction false} ByteSlice(p: seq<byte>, k: nat)
    requires k < |p|
    ensures Slice(LeNat(p), 8 * k, 8) == p[k]
  {
    hide Slice, Bit, Pow2, LeNat;
    Pow2Literals();
    forall i: nat ensures Bit(Slice(LeNat(p), 8 * k, 8), i) == Bit(p[k], i) {
      if i < 8 {
        SliceBit(LeNat(p), 8 * k, 8, i);
        LeNatBit(p, 8 * k + i);
      } else {
        BitAbove(Slice(LeNat(p), 8 * k, 8), 8, i);
        BitAbove(p[k], 8, i);
      }
    }
    BitsExtensional(Slice(LeNat(p), 8 * k, 8), p[k]);
  }

  /** An unsigned byte-aligned field of 8 bits reads the byte. */
  lemma ReadByte(p: seq<byte>, k: nat)
    requires k < |p| && 8 * k < 0x1_0000
    ensures Extract(p, Field(8 * k, 8, false)) == p[k]
  {
    hide Slice, LeNat, Pow2, Extract;
    ExtractIsArithmetic(p, Field(8 * k, 8, false));
    SliceIsDivMod(LeNat(p), 8 * k, 8);
    ByteSlice(p, k);
  }

  /** The report: modifiers, the reserved byte, then one byte a slot. */
  function Report(modifiers: byte, reserved: byte, codes: seq<byte>): seq<byte> { [modifiers, reserved] + codes }

  lemma {:induction false} KeysRead(l: KeyboardLayout, p: seq<byte>, codes: seq<byte>, n: nat)
    requires l.keys == Field(16, 8, false) && n <= |codes| <= 255 && |p| >= 2 + |codes|
    requires forall k :: 0 <= k < |codes| ==> p[2 + k] == codes[k]
    ensures OnlyKeys(KeyCodes(p, l, n)) == Held(codes[..n])
    decreases n
  {
    hide Extract, OnlyKeys, KeyCodes;
    if n == 0 {
      NoKeys(p, l);
    } else {
      KeysRead(l, p, codes, n - 1);
      OnlyKeysSnoc(p, l, n - 1);
      assert codes[..n][..n - 1] == codes[..n - 1];
      ReadByte(p, n + 1);
    }
  }

  /** Decoding with the boot layout: the modifier byte, and the first 16 codes that are keys. */
  lemma KeyboardReportDecodes(l: KeyboardLayout, p: seq<byte>, codes: seq<byte>)
    requires 1 <= |codes| <= 255 && l == BootLayout(l.reportId, |codes|) && |p| >= 2 + |codes|
    requires forall k :: 0 <= k < |codes| ==> p[2 + k] == codes[k]
    ensures DecodeKeyboard(l, p) == Some(KeyboardReport(p[0], Take(Held(codes), MAX_KEYS)))
  {
    hide Extract, OnlyKeys, KeyCodes, Held, Take;
    ReadByte(p, 0);
    KeysRead(l, p, codes, |codes|);
    assert codes[..|codes|] == codes;
  }

  /** The whole pipeline for a keyboard, whatever bytes follow the report. */
  lemma KeyboardRoundTrip(reportId: byte, modifiers: byte, reserved: byte, codes: seq<byte>, trailing: seq<byte>)
    requires 1 <= |codes| <= 255
    ensures DecodeKeyboard(ParseKeyboard(Descriptor(reportId, |codes|)), Report(modifiers, reserved, codes) + trailing)
            == Some(KeyboardReport(modifiers, Take(Held(codes), MAX_KEYS)))
  {
    hide Descriptor, ParseKeyboard, DecodeKeyboard, Held, Take;
    KeyboardDescriptorParses(reportId, |codes|);
    KeyboardReportDecodes(BootLayout(reportId, |codes|), Report(modifiers, reserved, codes) + trailing, codes);
  }
}

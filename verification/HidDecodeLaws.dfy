/** What a decode returns, in terms of the payload read as one little-endian number. */
module HidDecodeLaws {
  import opened Bits
  import opened HidTypes
  import opened HidItems
  import opened HidWalk
  import opened HidOffsets
  import opened HidDecode

  /** A number's field by division: (n div 2^offset) mod 2^width, as two's complement when signed. */
  function ValueOf(n: nat, f: Field): int
    requires f.bitSize > 0
  {
    var v := (n / Pow2(f.bitOffset)) % Pow2(f.bitSize);
    if f.isSigned then TwosComplement(v, f.bitSize) else v
  }

  /**
   * Bit-loop extraction equals arithmetic: (N div 2^offset) mod 2^width, as two's complement when
   * signed, and in exactly the range of that width. The one value that changes is an unsigned one of
   * 2^31 or more in a field of 32 bits, which the cast to a signed result reads as negative.
   */
  lemma ExtractIsArithmetic(p: seq<byte>, f: Field)
    requires 1 <= f.bitSize <= 32
    ensures InRange(ValueOf(LeNat(p), f), f)
    ensures var v := ValueOf(LeNat(p), f); Extract(p, f) == if v < 0x8000_0000 then v else v - 0x1_0000_0000
    ensures f.isSigned || f.bitSize <= 31 ==> ValueOf(LeNat(p), f) < 0x8000_0000
  {
    hide Bit, Slice, LeNat;
    SliceIsDivMod(LeNat(p), f.bitOffset, f.bitSize);
    TopBit(Field32(p, f), f.bitSize);
    Pow2Literals();
    if f.bitSize < 32 {
      Pow2Mono(f.bitSize, 31);
    }
    assert Pow2(f.bitSize) == 2 * Pow2(f.bitSize - 1);
  }

  predicate InRange(v: int, f: Field)
    requires f.bitSize > 0
  {
    if f.isSigned then 0 - Pow2(f.bitSize - 1) <= v < Pow2(f.bitSize - 1) else 0 <= v < Pow2(f.bitSize)
  }

  /** Bit i of the decoded mask: button i exists and some bit of its field is set in the payload. */
  lemma {:induction false} ButtonMaskBits(p: seq<byte>, l: PointerLayout, n: nat, i: nat)
    ensures Bit(ButtonMask(p, l, n), i) <==> i < n && Pressed(p, l, i)
    decreases n
  {
    if n == 0 {
      BitOfZero(i);
    } else {
      ButtonMaskBits(p, l, n - 1, i);
      var m := ButtonMask(p, l, n - 1);
      if Pressed(p, l, n - 1) {
        OrDisjoint(m, 1, n - 1);
        BitwiseBit(Or, m, Pow2(n - 1), i);
        BitOfPow2(n - 1, i);
      }
    }
  }

  /** `width` bits of n from bit `off`, by division. */
  function ValueAt(n: nat, off: nat, width: nat): nat { (n / Pow2(off)) % Pow2(width) }

  /** Where entry i of a run of fields of one width starts. */
  function EntryStart(f: Field, i: nat): nat { f.bitOffset + i * f.bitSize }

  /** Button i of a recorded run is pressed exactly when its field, by division, is not 0. */
  lemma ButtonMaskIsArithmetic(l: PointerLayout, p: seq<byte>, r: PointerReport, i: nat)
    requires l.buttons.bitSize >= 1 && Decode(l, p) == Some(r)
    ensures Bit(r.buttons, i) <==> i < l.buttonCount && i < 16 && ValueAt(LeNat(p), EntryStart(l.buttons, i), l.buttons.bitSize) != 0
  {
    hide Bit, Slice, LeNat, Pow2, Extract, ButtonMask, PayloadBits;
    ButtonMaskBits(p, l, Min(l.buttonCount, MAX_BUTTONS), i);
    SliceIsDivMod(LeNat(p), l.buttons.bitOffset + i * l.buttons.bitSize, l.buttons.bitSize);
  }

  lemma PressedBits(p: seq<byte>, l: PointerLayout, i: nat)
    ensures var base := l.buttons.bitOffset + i * Stride(l);
            Pressed(p, l, i) <==> exists b: nat :: base <= b < base + Stride(l) && b / 8 < |p| && Bit(p[b / 8], b % 8)
  {
    hide Bit, Slice, LeNat;
    var base := l.buttons.bitOffset + i * Stride(l);
    if Pressed(p, l, i) {
      var b := SliceNonzero(LeNat(p), base, Stride(l));
      LeNatBit(p, b);
    }
    forall b: nat | base <= b < base + Stride(l) && b / 8 < |p| && Bit(p[b / 8], b % 8) ensures Pressed(p, l, i) {
      LeNatBit(p, b);
      SliceZeroBit(LeNat(p), base, Stride(l), b);
    }
  }

  // ------------------------------------------------------- length and truncation

  predicate Within(f: Field, bits: nat) { f.bitSize != 0 ==> f.bitOffset + f.bitSize <= bits }

  /** The axes that are present and the whole button run, at its width, lie within the first `bits` bits. */
  predicate Covered(l: PointerLayout, bits: nat) {
    && Within(l.x, bits) && Within(l.y, bits) && Within(l.wheel, bits) && Within(l.hwheel, bits)
    && (l.buttonCount != 0 ==>
          l.buttons.bitOffset + l.buttonCount * (if l.buttons.bitSize != 0 then l.buttons.bitSize else 1) <= bits)
  }

  /** Decoding succeeds exactly when the payload covers the axes and the button run, and then every field is inside it. */
  lemma LengthGate(l: PointerLayout, p: seq<byte>)
    ensures Decode(l, p).Some? <==> l.valid && Covered(l, 8 * |p|)
    ensures Decode(l, p).Some? <==> l.valid && PayloadBits(l) <= 8 * |p|
    ensures Decode(l, p).Some? ==>
              && EndOf(l.x) <= 8 * |p| && EndOf(l.y) <= 8 * |p| && EndOf(l.wheel) <= 8 * |p| && EndOf(l.hwheel) <= 8 * |p|
              && forall i: nat :: i < l.buttonCount ==> l.buttons.bitOffset + i * Stride(l) + Stride(l) <= 8 * |p|
  {
    hide Extract, ButtonMask;
    forall i: nat | i < l.buttonCount
      ensures l.buttons.bitOffset + i * Stride(l) + Stride(l) <= PayloadBits(l)
    {
      ButtonInside(l, i);
    }
  }

  lemma ButtonInside(l: PointerLayout, i: nat)
    requires i < l.buttonCount
    ensures l.buttons.bitOffset + i * Stride(l) + Stride(l) <= PayloadBits(l)
  {
    hide EndOf, Stride;
    MulRoom(i, l.buttonCount, Stride(l));
  }

  ghost predicate AgreeBelow(p: seq<byte>, q: seq<byte>, n: nat) {
    forall b: nat :: b < n ==> Bit(LeNat(p), b) == Bit(LeNat(q), b)
  }

  lemma {:induction false} SliceAgree(p: seq<byte>, q: seq<byte>, n: nat, off: nat, w: nat)
    requires AgreeBelow(p, q, n) && off + w <= n
    ensures Slice(LeNat(p), off, w) == Slice(LeNat(q), off, w)
    decreases w
  {
    if w > 0 { SliceAgree(p, q, n, off + 1, w - 1); }
  }

  lemma ExtractAgree(p: seq<byte>, q: seq<byte>, n: nat, f: Field)
    requires AgreeBelow(p, q, n) && EndOf(f) <= n
    ensures Extract(p, f) == Extract(q, f)
  {
    hide AgreeBelow, Slice, Bit, LeNat;
    if f.bitSize != 0 { SliceAgree(p, q, n, f.bitOffset, Min(f.bitSize, 32)); }
  }

  lemma PressedAgree(p: seq<byte>, q: seq<byte>, l: PointerLayout, i: nat)
    requires AgreeBelow(p, q, PayloadBits(l)) && i < l.buttonCount
    ensures Pressed(p, l, i) == Pressed(q, l, i)
  {
    hide AgreeBelow, Slice, LeNat, Bit, PayloadBits, Pow2;
    ButtonInside(l, i);
    SliceAgree(p, q, PayloadBits(l), l.buttons.bitOffset + i * Stride(l), Stride(l));
  }

  lemma {:induction false} MaskAgree(p: seq<byte>, q: seq<byte>, l: PointerLayout, k: nat)
    requires AgreeBelow(p, q, PayloadBits(l)) && k <= l.buttonCount
    ensures ButtonMask(p, l, k) == ButtonMask(q, l, k)
    decreases k
  {
    hide AgreeBelow, PayloadBits, Pressed;
    if k > 0 {
      MaskAgree(p, q, l, k - 1);
      PressedAgree(p, q, l, k - 1);
    }
  }

  /** Only the bits below the layout's end matter: two payloads that agree there decode alike. */
  lemma DecodeDependsOnLayoutBits(l: PointerLayout, p: seq<byte>, q: seq<byte>)
    requires AgreeBelow(p, q, PayloadBits(l)) && Decode(l, p).Some? && Decode(l, q).Some?
    ensures Decode(l, p) == Decode(l, q)
  {
    hide AgreeBelow, Extract, ButtonMask;
    ExtractAgree(p, q, PayloadBits(l), l.x);
    ExtractAgree(p, q, PayloadBits(l), l.y);
    ExtractAgree(p, q, PayloadBits(l), l.wheel);
    ExtractAgree(p, q, PayloadBits(l), l.hwheel);
    MaskAgree(p, q, l, Min(l.buttonCount, MAX_BUTTONS));
  }

  /** Bytes after a payload that decodes do not change the decode. */
  lemma TrailingIgnored(l: PointerLayout, p: seq<byte>, q: seq<byte>)
    requires Decode(l, p).Some?
    ensures Decode(l, p + q) == Decode(l, p)
  {
    hide PayloadBits, Extract, ButtonMask, LeNat, Bit;
    LengthGate(l, p);
    LengthGate(l, p + q);
    forall b: nat | b < PayloadBits(l) ensures Bit(LeNat(p + q), b) == Bit(LeNat(p), b) {
      LeNatBit(p, b);
      LeNatBit(p + q, b);
    }
    DecodeDependsOnLayoutBits(l, p + q, p);
  }

  /** The most payload bytes a queued notification keeps. */
  const NOTIFY_MAX := 32

  function Cut(p: seq<byte>): seq<byte> { if |p| <= NOTIFY_MAX then p else p[..NOTIFY_MAX] }

  /** Cutting a notification makes the decode fail or changes nothing; it fails exactly when the layout needs more. */
  lemma CutIsHarmless(l: PointerLayout, p: seq<byte>)
    ensures Decode(l, Cut(p)).None? || Decode(l, Cut(p)) == Decode(l, p)
    ensures Decode(l, Cut(p)).None? <==> Decode(l, p).None? || PayloadBits(l) > 8 * NOTIFY_MAX
  {
    hide PayloadBits, Extract, ButtonMask, LeNat, Bit;
    LengthGate(l, p);
    LengthGate(l, Cut(p));
    if Decode(l, Cut(p)).Some? {
      forall b: nat | b < PayloadBits(l) ensures Bit(LeNat(p), b) == Bit(LeNat(Cut(p)), b) {
        LeNatBit(p, b);
        LeNatBit(Cut(p), b);
      }
      DecodeDependsOnLayoutBits(l, p, Cut(p));
    }
  }

  // ---------------------------------------------------------------- keyboard

  /** Entry i of the array as arithmetic on the payload. */
  function Entry(p: seq<byte>, f: Field, i: nat): nat { (LeNat(p) / Pow2(f.bitOffset + i * f.bitSize)) % Pow2(f.bitSize) }

  /** Those of the first n entries that are keys, in order. */
  function KeyEntries(p: seq<byte>, f: Field, n: nat): seq<nat> {
    if n == 0 then []
    else KeyEntries(p, f, n - 1) + (if Entry(p, f, n - 1) >= 2 then [Entry(p, f, n - 1)] else [])
  }

  lemma KeyEntriesSnoc(p: seq<byte>, f: Field, n: nat)
    ensures KeyEntries(p, f, n + 1) == if Entry(p, f, n) >= 2 then KeyEntries(p, f, n) + [Entry(p, f, n)] else KeyEntries(p, f, n)
  {
    hide Entry;
  }

  /** Each number cut to its low byte. */
  function LowBytes(s: seq<nat>): seq<byte> {
    if |s| == 0 then [] else LowBytes(s[..|s| - 1]) + [U8(s[|s| - 1])]
  }

  lemma LowBytesSnoc(s: seq<nat>, x: nat)
    ensures LowBytes(s + [x]) == LowBytes(s) + [U8(x)]
  {
    assert (s + [x])[..|s|] == s;
  }

  lemma KeyCodeIsEntry(p: seq<byte>, l: KeyboardLayout, i: nat)
    requires i < l.keyCount && 1 <= l.keys.bitSize <= 32 && l.keys.End(l.keyCount) <= BIT_OFFSET_MAX
    ensures l.keys.bitOffset + i * l.keys.bitSize <= BIT_OFFSET_MAX
    ensures KeyCode(p, l, i) == Entry(p, l.keys, i)
  {
    hide KeyCode, Entry;
    MulRoom(i, l.keyCount, l.keys.bitSize);
    KeyCodeAt(p, l, i, l.keys.bitOffset + i * l.keys.bitSize);
  }

  /** The cast to 16 bits does not change the offset, nor the cast to 32 bits the value. */
  lemma KeyCodeAt(p: seq<byte>, l: KeyboardLayout, i: nat, off: nat)
    requires 1 <= l.keys.bitSize <= 32 && off == l.keys.bitOffset + i * l.keys.bitSize <= BIT_OFFSET_MAX
    ensures KeyCode(p, l, i) == Entry(p, l.keys, i)
  {
    hide LeNat, Extract, Entry, ValueOf, InRange, U32;
    var f := Field(off, l.keys.bitSize, false);
    EntryIsValue(p, l.keys, i, f);
    ExtractIsArithmetic(p, f);
    InRangeIsUnsigned(ValueOf(LeNat(p), f), f);
  }

  /** A value of an unsigned field survives the cast to a signed number and back. */
  lemma InRangeIsUnsigned(v: int, f: Field)
    requires 1 <= f.bitSize <= 32 && !f.isSigned && InRange(v, f)
    ensures 0 <= v < 0x1_0000_0000 && U32(if v < 0x8000_0000 then v else v - 0x1_0000_0000) == v
  {
    hide Pow2;
    Pow2Mono(f.bitSize, 32);
    Pow2Literals();
  }

  lemma EntryIsValue(p: seq<byte>, keys: Field, i: nat, f: Field)
    requires f.bitSize == keys.bitSize > 0 && !f.isSigned && f.bitOffset == keys.bitOffset + i * keys.bitSize
    ensures ValueOf(LeNat(p), f) == Entry(p, keys, i)
  {
    hide Pow2, LeNat;
  }

  lemma {:induction false} OnlyKeysAreEntries(p: seq<byte>, l: KeyboardLayout, n: nat)
    requires n <= l.keyCount && 1 <= l.keys.bitSize <= 32 && l.keys.End(l.keyCount) <= BIT_OFFSET_MAX
    ensures OnlyKeys(KeyCodes(p, l, n)) == LowBytes(KeyEntries(p, l.keys, n))
    decreases n
  {
    hide KeyCode, Entry, KeyEntries, LowBytes, OnlyKeys, KeyCodes;
    if n == 0 {
      NoKeys(p, l);
      NoneNarrow(p, l.keys);
    } else {
      OnlyKeysAreEntries(p, l, n - 1);
      KeyCodeIsEntry(p, l, n - 1);
      OnlyKeysSnoc(p, l, n - 1);
      KeyEntriesSnoc(p, l.keys, n - 1);
      LowBytesSnoc(KeyEntries(p, l.keys, n - 1), Entry(p, l.keys, n - 1));
    }
  }

  /** Entries of at most 8 bits are their own low bytes. */
  lemma {:induction false} NarrowEntries(p: seq<byte>, f: Field, n: nat)
    requires f.bitSize <= 8
    ensures LowBytes(KeyEntries(p, f, n)) == KeyEntries(p, f, n)
    decreases n
  {
    hide Entry, Pow2, KeyEntries, LowBytes;
    if n == 0 {
      NoneNarrow(p, f);
    } else {
      NarrowEntries(p, f, n - 1);
      EntryBound(p, f, n - 1);
      KeyEntriesSnoc(p, f, n - 1);
      LowBytesSnoc(KeyEntries(p, f, n - 1), Entry(p, f, n - 1));
    }
  }

  lemma NoneNarrow(p: seq<byte>, f: Field)
    ensures KeyEntries(p, f, 0) == [] && LowBytes([]) == []
  {}

  lemma EntryBound(p: seq<byte>, f: Field, i: nat)
    requires f.bitSize <= 8
    ensures Entry(p, f, i) < 0x100
  {
    hide Pow2, LeNat;
    Pow2Mono(f.bitSize, 8);
    Pow2Literals();
  }

  /** The modifiers, if present, and the whole key array lie within the first `bits` bits. */
  predicate CoveredKeyboard(l: KeyboardLayout, bits: nat) {
    && Within(l.modifiers, bits)
    && (l.keyCount != 0 && l.keys.bitSize != 0 ==> l.keys.bitOffset + l.keyCount * l.keys.bitSize <= bits)
  }

  lemma KeyboardGate(l: KeyboardLayout, p: seq<byte>)
    ensures DecodeKeyboard(l, p).Some? <==> l.valid && CoveredKeyboard(l, 8 * |p|)
  {
    hide OnlyKeys, KeyCodes, Take, Extract;
  }

  /**
   * For every keyboard layout parsed from a map within the exact bound: decoding succeeds exactly when
   * the payload covers the layout, the keys are the low bytes of the first 16 entries other than 0 and
   * 1, in order, and the modifiers are their field. Entries of at most 8 bits lose nothing.
   */
  lemma KeyboardDecodeIsFilterThenTake(bytes: seq<byte>, p: seq<byte>)
    requires |bytes| <= EXACT_MAP_MAX && ParseKeyboard(bytes).keys.bitSize <= 32
    ensures var l := ParseKeyboard(bytes); var r := DecodeKeyboard(l, p);
            && (r.Some? <==> l.valid && CoveredKeyboard(l, 8 * |p|))
            && (r.Some? ==>
                  && r.value.keys == Take(LowBytes(KeyEntries(p, l.keys, l.keyCount)), MAX_KEYS)
                  && (l.keys.bitSize <= 8 ==> r.value.keys == Take(KeyEntries(p, l.keys, l.keyCount), MAX_KEYS))
                  && r.value.modifiers == if l.modifiers.bitSize == 0 then 0 else Entry(p, l.modifiers, 0))
  {
    hide Run, Items, OnlyKeys, KeyCodes, KeyEntries, LowBytes, KbdPayloadBits, Extract, Entry, CoveredKeyboard;
    var l := ParseKeyboard(bytes);
    KeyboardGate(l, p);
    ModifiersAreEntry(bytes, p);
    if l.valid {
      var k, i := OffsetsExact(bytes, Keys);
      OnlyKeysAreEntries(p, l, l.keyCount);
      if l.keys.bitSize <= 8 { NarrowEntries(p, l.keys, l.keyCount); }
    }
  }

  /** A parsed modifier field is unsigned and at most 8 bits wide, so nothing of it is lost. */
  lemma ModifiersAreEntry(bytes: seq<byte>, p: seq<byte>)
    requires |bytes| <= EXACT_MAP_MAX
    ensures var m := ParseKeyboard(bytes).modifiers; m.bitSize != 0 ==> U8(Extract(p, m)) == Entry(p, m, 0)
  {
    hide Run, Items, LeNat, Pow2, Extract, ValueOf, Entry;
    var m := ParseKeyboard(bytes).modifiers;
    if m.bitSize != 0 {
      var k, i := OffsetsExact(bytes, Modifiers);
      assert m.bitSize <= 8 && !m.isSigned;
      EntryIsValue(p, m, 0, m);
      ExtractIsArithmetic(p, m);
      Pow2Mono(m.bitSize, 8);
      Pow2Literals();
    }
  }
}

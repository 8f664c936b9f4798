/**
 * The input-report decoder: the bit loops of the source as methods, the arithmetic they compute as
 * functions of the payload read as one little-endian number, and the laws of a decode.
 */
module HidDecode {
  import opened Bits
  import opened HidTypes

  // ------------------------------------------------------- what a decode means

  /** An unsigned w-bit value read as two's complement. */
  function TwosComplement(v: nat, w: nat): int
    requires w > 0
  {
    if v < Pow2(w - 1) then v else v - Pow2(w)
  }

  /** Bits of the payload from `off`; bits past the payload read as 0. */
  function Field32(p: seq<byte>, f: Field): (v: uint32) {
    Pow2Literals();
    Pow2Mono(Min(f.bitSize, 32), 32);
    Slice(LeNat(p), f.bitOffset, Min(f.bitSize, 32))
  }

  /** The value of a field; fields wider than 32 bits have no meaning in the source and keep 32 bits here. */
  function Extract(p: seq<byte>, f: Field): (v: int32) {
    if f.bitSize == 0 then 0
    else if f.isSigned && f.bitSize < 32 && Bit(Field32(p, f), f.bitSize - 1) then
      Pow2Literals();
      Pow2Mono(f.bitSize, 31);
      Field32(p, f) - Pow2(f.bitSize)
    else ToInt32(Field32(p, f))
  }

  function Stride(l: PointerLayout): nat { if l.buttons.bitSize != 0 then l.buttons.bitSize else 1 }

  function EndOf(f: Field): nat { if f.bitSize != 0 then f.End() else 0 }

  function ButtonsEnd(l: PointerLayout): nat {
    if l.buttonCount != 0 then l.buttons.bitOffset + l.buttonCount * Stride(l) else 0
  }

  /** One past the highest bit a pointer layout touches. */
  function PayloadBits(l: PointerLayout): nat {
    Max(Max(Max(EndOf(l.x), EndOf(l.y)), Max(EndOf(l.wheel), EndOf(l.hwheel))), ButtonsEnd(l))
  }

  /** Button i is down when any bit of its field is set. */
  predicate Pressed(p: seq<byte>, l: PointerLayout, i: nat) {
    Slice(LeNat(p), l.buttons.bitOffset + i * Stride(l), Stride(l)) != 0
  }

  /** The mask whose bit i (i < n) is button i. */
  function ButtonMask(p: seq<byte>, l: PointerLayout, n: nat): (m: nat)
    ensures m < Pow2(n)
  {
    if n == 0 then 0
    else ButtonMask(p, l, n - 1) + (if Pressed(p, l, n - 1) then Pow2(n - 1) else 0)
  }

  function Decode(l: PointerLayout, p: seq<byte>): Option<PointerReport> {
    if !l.valid || |p| < (PayloadBits(l) + 7) / 8 then None
    else
      Pow2Literals();
      Pow2Mono(Min(l.buttonCount, MAX_BUTTONS), 16);
      Some(PointerReport(Extract(p, l.x), Extract(p, l.y), Extract(p, l.wheel), Extract(p, l.hwheel),
                         ButtonMask(p, l, Min(l.buttonCount, MAX_BUTTONS))))
  }

  function KbdPayloadBits(l: KeyboardLayout): nat {
    Max(EndOf(l.modifiers), if l.keyCount != 0 && l.keys.bitSize != 0 then l.keys.End(l.keyCount) else 0)
  }

  /** Entry i of the keycode array, at the offset the source casts to 16 bits. */
  function KeyCode(p: seq<byte>, l: KeyboardLayout, i: nat): uint32 {
    U32(Extract(p, Field(U16(l.keys.bitOffset + i * l.keys.bitSize), l.keys.bitSize, false)))
  }

  /** The first n entries of the array. */
  function KeyCodes(p: seq<byte>, l: KeyboardLayout, n: nat): (s: seq<uint32>)
    ensures |s| == n
  {
    if n == 0 then [] else KeyCodes(p, l, n - 1) + [KeyCode(p, l, n - 1)]
  }

  /** Entries that are keys: neither "no key" nor ErrorRollOver, cut to a byte. */
  function OnlyKeys(codes: seq<uint32>): seq<byte>
    decreases |codes|
  {
    if |codes| == 0 then []
    else
      var c := codes[|codes| - 1];
      OnlyKeys(codes[..|codes| - 1]) + (if c != 0 && c != 1 then [U8(c)] else [])
  }

  function Take<T>(s: seq<T>, n: nat): seq<T> { if |s| <= n then s else s[..n] }

  /** Filter, then take: the keys are the first 16 entries of the array that are keys. */
  function DecodeKeyboard(l: KeyboardLayout, p: seq<byte>): Option<KeyboardReport> {
    if !l.valid || |p| < (KbdPayloadBits(l) + 7) / 8 then None
    else Some(KeyboardReport(if l.modifiers.bitSize != 0 then U8(Extract(p, l.modifiers)) else 0,
                             Take(OnlyKeys(KeyCodes(p, l, l.keyCount)), MAX_KEYS)))
  }

  // ------------------------------------------------------------ the bit loops

  predicate Meaningful(f: Field) { f.bitSize <= 32 }

  method ExtractBits(p: seq<byte>, f: Field) returns (r: int32)
    requires Meaningful(f)
    ensures r == Extract(p, f)
  {
    hide Slice, LeNat, Pow2, Bitwise, Bit;
    if f.bitSize == 0 {
      return 0;
    }
    ghost var n := LeNat(p);
    var v: uint32 := 0;
    var i := 0;
    SliceNone(n, f.bitOffset);
    while i < f.bitSize
      invariant 0 <= i <= f.bitSize
      invariant v == Slice(n, f.bitOffset, i)
    {
      var bit := f.bitOffset + i;
      var byteAt := bit / 8;
      if byteAt >= |p| {
        PastTheEnd(p, f.bitOffset, i, f.bitSize);
        i := f.bitSize;
        break;
      }
      OrInBit(p, f.bitOffset, i);
      v := Bitwise(Or, v, BitVal(p[byteAt], bit % 8) * Pow2(i));
      i := i + 1;
    }
    if f.isSigned && f.bitSize < 32 {
      if Bit(v, f.bitSize - 1) {
        SignFill(v, f.bitSize);
        v := Bitwise(Or, v, 0x1_0000_0000 - Pow2(f.bitSize));
      }
    }
    r := ToInt32(v);
  }

  lemma SliceNone(n: nat, off: nat)
    ensures Slice(n, off, 0) == 0
  {}

  lemma OrInBit(p: seq<byte>, off: nat, i: nat)
    requires (off + i) / 8 < |p| && i < 32
    ensures Bitwise(Or, Slice(LeNat(p), off, i), BitVal(p[(off + i) / 8], (off + i) % 8) * Pow2(i))
            == Slice(LeNat(p), off, i + 1) < 0x1_0000_0000
  {
    hide Slice, Bitwise, Pow2, Bit;
    LeNatBit(p, off + i);
    SliceSnoc(LeNat(p), off, i);
    OrDisjoint(Slice(LeNat(p), off, i), BitVal(p[(off + i) / 8], (off + i) % 8), i);
    Pow2Mono(i + 1, 32);
    Pow2Literals();
  }

  /** Bits past the payload add nothing. */
  lemma {:induction false} PastTheEnd(p: seq<byte>, off: nat, i: nat, w: nat)
    requires i <= w && 8 * |p| <= off + i
    ensures Slice(LeNat(p), off, w) == Slice(LeNat(p), off, i)
    decreases w - i
  {
    hide Slice, LeNat, Bit;
    if i < w {
      LeNatBit(p, off + i);
      SliceSnoc(LeNat(p), off, i);
      PastTheEnd(p, off, i + 1, w);
    }
  }

  /** The top bit of an n-bit number is set exactly from 2^(n-1) on. */
  lemma {:induction false} TopBit(v: nat, n: nat)
    requires n > 0 && v < Pow2(n)
    ensures Bit(v, n - 1) <==> v >= Pow2(n - 1)
    decreases n
  {
    if n > 1 { TopBit(v / 2, n - 1); }
  }

  method PayloadBitsOf(l: PointerLayout) returns (bits: nat)
    ensures bits == PayloadBits(l)
  {
    bits := 0;
    var fields := [l.x, l.y, l.wheel, l.hwheel];
    var i := 0;
    while i < |fields|
      invariant 0 <= i <= 4
      invariant bits == Max(if i > 0 then EndOf(l.x) else 0,
                        Max(if i > 1 then EndOf(l.y) else 0,
                        Max(if i > 2 then EndOf(l.wheel) else 0, if i > 3 then EndOf(l.hwheel) else 0)))
    {
      if fields[i].bitSize != 0 {
        var end := fields[i].bitOffset + fields[i].bitSize;
        if end > bits { bits := end; }
      }
      i := i + 1;
    }
    if l.buttonCount != 0 {
      var stride := if l.buttons.bitSize != 0 then l.buttons.bitSize else 1;
      var end := l.buttons.bitOffset + l.buttonCount * stride;
      if end > bits { bits := end; }
    }
  }

  /** One button's field, gathered bit by bit. */
  method ButtonField(p: seq<byte>, base: nat, stride: nat) returns (field: uint32)
    requires stride <= 32
    ensures field == Slice(LeNat(p), base, stride)
  {
    hide Slice, LeNat, Pow2, Bitwise;
    SliceNone(LeNat(p), base);
    field := 0;
    var b := 0;
    while b < stride
      invariant 0 <= b <= stride
      invariant field == Slice(LeNat(p), base, b)
    {
      var bit := base + b;
      if bit / 8 < |p| {
        OrInBit(p, base, b);
        field := Bitwise(Or, field, BitVal(p[bit / 8], bit % 8) * Pow2(b));
      } else {
        PastTheEnd(p, base, b, b + 1);
      }
      b := b + 1;
    }
  }

  /** The buttons are a run of fields `stride` bits wide; button i is down if its field is not zero. */
  method ButtonsOf(l: PointerLayout, p: seq<byte>) returns (buttons: uint32)
    requires Meaningful(l.buttons)
    ensures buttons == ButtonMask(p, l, Min(l.buttonCount, MAX_BUTTONS))
  {
    hide Slice, LeNat, Pow2, Bitwise, ButtonMask;
    MaskNone(p, l);
    var stride := if l.buttons.bitSize != 0 then l.buttons.bitSize else 1;
    buttons := 0;
    var i := 0;
    while i < l.buttonCount && i < MAX_BUTTONS
      invariant 0 <= i <= Min(l.buttonCount, MAX_BUTTONS)
      invariant buttons == ButtonMask(p, l, i)
    {
      var field := ButtonField(p, l.buttons.bitOffset + i * stride, stride);
      MaskSnoc(p, l, i);
      if field != 0 {
        OrInButton(buttons, i);
        buttons := Bitwise(Or, buttons, Pow2(i));
      }
      i := i + 1;
    }
  }

  lemma MaskNone(p: seq<byte>, l: PointerLayout)
    ensures ButtonMask(p, l, 0) == 0
  {}

  lemma MaskSnoc(p: seq<byte>, l: PointerLayout, n: nat)
    ensures ButtonMask(p, l, n + 1) == ButtonMask(p, l, n) + (if Pressed(p, l, n) then Pow2(n) else 0)
  {}

  lemma OrInButton(m: nat, i: nat)
    requires m < Pow2(i) && i < 16
    ensures Bitwise(Or, m, Pow2(i)) == m + Pow2(i) < 0x1_0000_0000
  {
    hide Bitwise, Pow2;
    OrDisjoint(m, 1, i);
    Pow2Mono(i, 16);
    Pow2Literals();
  }

  method DecodeReport(l: PointerLayout, p: seq<byte>) returns (r: Option<PointerReport>)
    requires Meaningful(l.x) && Meaningful(l.y) && Meaningful(l.wheel) && Meaningful(l.hwheel) && Meaningful(l.buttons)
    ensures r == Decode(l, p)
  {
    hide PayloadBits, Extract, ButtonMask;
    if !l.valid {
      return None;
    }
    var bits := PayloadBitsOf(l);
    if |p| < (bits + 7) / 8 {
      return None;
    }
    var dx := ExtractBits(p, l.x);
    var dy := ExtractBits(p, l.y);
    var wheel := ExtractBits(p, l.wheel);
    var hwheel := ExtractBits(p, l.hwheel);
    var buttons := ButtonsOf(l, p);
    r := Some(PointerReport(dx, dy, wheel, hwheel, buttons));
  }

  method KbdPayloadBitsOf(l: KeyboardLayout) returns (bits: nat)
    ensures bits == KbdPayloadBits(l)
  {
    bits := 0;
    if l.modifiers.bitSize != 0 {
      var end := l.modifiers.bitOffset + l.modifiers.bitSize;
      if end > bits { bits := end; }
    }
    if l.keyCount != 0 && l.keys.bitSize != 0 {
      var end := l.keys.bitOffset + l.keyCount * l.keys.bitSize;
      if end > bits { bits := end; }
    }
  }

  /** The array loop stops as soon as 16 keys are held; what is kept is still filter-then-take. */
  method KeysOf(l: KeyboardLayout, p: seq<byte>) returns (keys: seq<byte>)
    requires Meaningful(l.keys)
    ensures keys == Take(OnlyKeys(KeyCodes(p, l, l.keyCount)), MAX_KEYS)
  {
    hide Extract, OnlyKeys, KeyCodes;
    NoKeys(p, l);
    keys := [];
    var i := 0;
    while i < l.keyCount && |keys| < MAX_KEYS
      invariant 0 <= i <= l.keyCount && |keys| <= MAX_KEYS
      invariant keys == OnlyKeys(KeyCodes(p, l, i))
    {
      var off := U16(l.keys.bitOffset + i * l.keys.bitSize);
      var c := ExtractBits(p, Field(off, l.keys.bitSize, false));
      var code := U32(c);
      OnlyKeysSnoc(p, l, i);
      if code != 0 && code != 0x01 {
        keys := keys + [U8(code)];
      }
      i := i + 1;
    }
    OnlyKeysPrefix(p, l, i, l.keyCount);
  }

  lemma NoKeys(p: seq<byte>, l: KeyboardLayout)
    ensures OnlyKeys(KeyCodes(p, l, 0)) == []
  {}

  /** One more entry appends at most one key. */
  lemma OnlyKeysSnoc(p: seq<byte>, l: KeyboardLayout, n: nat)
    ensures var c := KeyCode(p, l, n);
            OnlyKeys(KeyCodes(p, l, n + 1)) == if c != 0 && c != 1 then OnlyKeys(KeyCodes(p, l, n)) + [U8(c)]
                                               else OnlyKeys(KeyCodes(p, l, n))
  {
    hide KeyCode;
    assert KeyCodes(p, l, n + 1)[..n] == KeyCodes(p, l, n);
  }

  method DecodeKeyboardReport(l: KeyboardLayout, p: seq<byte>) returns (r: Option<KeyboardReport>)
    requires Meaningful(l.modifiers) && Meaningful(l.keys)
    ensures r == DecodeKeyboard(l, p)
  {
    hide KbdPayloadBits, Extract, OnlyKeys, KeyCodes, Take;
    if !l.valid {
      return None;
    }
    var bits := KbdPayloadBitsOf(l);
    if |p| < (bits + 7) / 8 {
      return None;
    }
    var modifiers: byte := 0;
    if l.modifiers.bitSize != 0 {
      var m := ExtractBits(p, l.modifiers);
      modifiers := U8(m);
    }
    var keys := KeysOf(l, p);
    r := Some(KeyboardReport(modifiers, keys));
  }

  /** More entries only append keys. */
  lemma {:induction false} OnlyKeysPrefix(p: seq<byte>, l: KeyboardLayout, i: nat, n: nat)
    requires i <= n
    ensures OnlyKeys(KeyCodes(p, l, i)) <= OnlyKeys(KeyCodes(p, l, n))
    decreases n - i
  {
    hide KeyCode, OnlyKeys, KeyCodes;
    if i < n {
      OnlyKeysPrefix(p, l, i, n - 1);
      OnlyKeysSnoc(p, l, n - 1);
    }
  }
}

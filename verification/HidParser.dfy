/**
 * The report-map parser as it runs: one record updated in place by an item loop, and the two
 * entry points. Every method is proved against the value-level step of `HidWalk`.
 */
module HidParser {
  import opened Bits
  import opened HidTypes
  import opened HidItems
  import opened HidWalk
  import opened HidDecode
  import opened HidItemState

  /** Read an item's data bytes little-endian, OR-ing each byte in at its place. */
  method ItemU(data: seq<byte>) returns (v: uint32)
    requires |data| <= 4
    ensures v == LeNat(data)
  {
    hide Pow2, Bitwise;
    v := 0;
    var i := 0;
    assert LeNat(data[..0]) == 0;
    while i < |data|
      invariant 0 <= i <= |data|
      invariant v == LeNat(data[..i])
    {
      OrInByte(data, i);
      v := Bitwise(Or, v, data[i] * Pow2(8 * i));
      i := i + 1;
    }
    assert data[..i] == data;
  }

  /** OR-ing byte i into the bytes before it extends the number by one byte. */
  lemma OrInByte(data: seq<byte>, i: nat)
    requires i < |data| <= 4
    ensures Bitwise(Or, LeNat(data[..i]), data[i] * Pow2(8 * i)) == LeNat(data[..i + 1]) < 0x1_0000_0000
  {
    hide Pow2, Bitwise, LeNat;
    LeNatSnoc(data[..i], data[i]);
    assert data[..i] + [data[i]] == data[..i + 1];
    LeNatBound(data[..i]);
    LeNatBound(data[..i + 1]);
    Pow2Mono(8 * (i + 1), 32);
    Pow2Literals();
    OrDisjoint(LeNat(data[..i]), data[i], 8 * i);
  }

  lemma MulAssoc(b: nat, p: nat)
    ensures b * (0x100 * p) == 0x100 * (b * p)
  {}

  lemma {:induction false} LeNatSnoc(s: seq<byte>, b: byte)
    ensures LeNat(s + [b]) == LeNat(s) + b * Pow2(8 * |s|)
    decreases |s|
  {
    if |s| == 0 {
      assert Pow2(0) == 1;
    } else {
      hide Pow2;
      LeNatSnoc(s[1..], b);
      assert (s + [b])[1..] == s[1..] + [b];
      Pow2Add(8, 8 * (|s| - 1));
      Pow2Literals();
      assert 8 + 8 * (|s| - 1) == 8 * |s|;
      MulAssoc(b, Pow2(8 * (|s| - 1)));
    }
  }

  /** Read an item's data bytes as a two's complement number. */
  method ItemS(data: seq<byte>) returns (v: int32)
    requires |data| <= 4
    ensures v == SignedItem(data)
    ensures |data| > 0 ==> v == TwosComplement(LeNat(data), 8 * |data|)
  {
    if |data| > 0 { SignedItemIsTwosComplement(data); }
    var u := ItemU(data);
    LeNatBound(data);
    if 0 < |data| < 4 {
      var n := 8 * |data|;
      if Bit(u, n - 1) {
        // v |= ~((1 << n) - 1): the bits from n up to 31.
        SignFill(u, n);
        u := Bitwise(Or, u, 0x1_0000_0000 - Pow2(n));
      }
    }
    v := ToInt32(u);
  }

  /** Making a usage cuts its id to 16 bits anyway. */
  lemma UsageIdCast(page: uint16, id: nat)
    ensures MakeUsage(page, U16(id)) == MakeUsage(page, id)
  {}

  class Parser {
    var g: Globals
    const stack: array<Globals>
    var stackDepth: nat

    const usages: array<uint32>
    var usageCount: nat
    var usageMin: uint32
    var usageMax: uint32
    var hasUsageRange: bool

    var bitCursor: uint32
    var depth: nat
    var mouseLevel: int
    var kbdLevel: int

    var out: PointerLayout
    var outKbd: KeyboardLayout

    ghost predicate Valid()
      reads this
    {
      && stack.Length == GLOBAL_STACK_DEPTH && stackDepth <= stack.Length
      && usages.Length == MAX_LOCAL_USAGES && usageCount <= usages.Length
    }

    ghost function GetLocals(): Locals
      reads this, usages
      requires Valid()
    {
      Locals(usages[..usageCount], usageMin, usageMax, hasUsageRange)
    }

    ghost function GetState(): State
      reads this, usages, stack
      requires Valid()
    {
      State(g, stack[..stackDepth], GetLocals(), bitCursor, depth, mouseLevel, kbdLevel, out, outKbd)
    }

    constructor ()
      ensures Valid() && fresh(stack) && fresh(usages)
      ensures GetState() == INIT
    {
      g := Globals(0, 0, 0, 0, 0);
      stack := new Globals[GLOBAL_STACK_DEPTH](_ => Globals(0, 0, 0, 0, 0));
      stackDepth := 0;
      usages := new uint32[MAX_LOCAL_USAGES](_ => 0);
      usageCount, usageMin, usageMax, hasUsageRange := 0, 0, 0, false;
      bitCursor, depth, mouseLevel, kbdLevel := 0, 0, NOT_SEEN, NOT_SEEN;
      out, outKbd := NO_LAYOUT, NO_KBD_LAYOUT;
    }

    method ClearLocal()
      requires Valid()
      modifies this`usageCount, this`usageMin, this`usageMax, this`hasUsageRange
      ensures Valid() && GetState() == old(GetState()).(l := NO_LOCALS)
    {
      usageCount, usageMin, usageMax, hasUsageRange := 0, 0, 0, false;
    }

    method SlotUsage(i: nat) returns (u: uint32)
      requires Valid()
      ensures u == UsageForSlot(g, GetLocals(), i)
    {
      if usageCount > 0 {
        u := usages[if i < usageCount then i else usageCount - 1];
      } else if hasUsageRange {
        u := U32(usageMin + i);
        if u > usageMax { u := usageMax; }
        u := MakeUsage(g.usagePage, u);
      } else {
        u := MakeUsage(g.usagePage, 0);
      }
    }

    /** Record the pointer fields carried by one Variable, Data Input item. */
    method AssignInput(startBit: uint32)
      requires Valid()
      modifies this`out
      ensures Valid()
      ensures GetState() == old(GetState()).(ptr := HidWalk.AssignInput(old(out), g, GetLocals(), startBit))
    {
      hide HidWalk.AssignButtons, HidWalk.AssignSlots;
      if out.reportId == 0 && out.buttons.bitSize == 0 && out.x.bitSize == 0 && out.y.bitSize == 0 {
        out := out.(reportId := g.reportId);
      }
      if g.usagePage == PAGE_BUTTON {
        AssignButtons(startBit);
        return;
      }
      AssignSlots(startBit);
    }

    /** A Button-page item is one contiguous run, recorded once. */
    method AssignButtons(startBit: uint32)
      requires Valid()
      modifies this`out
      ensures Valid()
      ensures GetState() == old(GetState()).(ptr := HidWalk.AssignButtons(old(out), g, startBit))
    {
      if out.buttons.bitSize == 0 {
        var count := g.reportCount;
        if count > MAX_BUTTONS { count := MAX_BUTTONS; }
        var size := if g.reportSize != 0 then g.reportSize else 1;
        if U32(startBit + count * size) <= BIT_OFFSET_MAX {
          out := out.(buttons := Field(U16(startBit), size, false), buttonCount := count);
        }
      }
    }

    /** The slot loop: each of reportCount slots carries its own usage. */
    method AssignSlots(startBit: uint32)
      requires Valid()
      modifies this`out
      ensures Valid()
      ensures GetState() == old(GetState()).(ptr := HidWalk.AssignSlots(old(out), g, GetLocals(), startBit, g.reportCount))
    {
      ghost var l := GetLocals();
      var i := 0;
      while i < g.reportCount
        invariant 0 <= i <= g.reportCount
        invariant Valid() && GetLocals() == l
        invariant out == HidWalk.AssignSlots(old(out), g, l, startBit, i)
      {
        var u := SlotUsage(i);
        var off := U32(startBit + i * g.reportSize);
        var signed := g.logicalMin < 0;
        ghost var o := out;
        if IsAxis(u, X) {
          out := out.(x := SetField(out.x, off, g.reportSize, signed));
        } else if IsAxis(u, Y) {
          out := out.(y := SetField(out.y, off, g.reportSize, signed));
        } else if IsAxis(u, Wheel) {
          out := out.(wheel := SetField(out.wheel, off, g.reportSize, signed));
        } else if IsAxis(u, HWheel) {
          out := out.(hwheel := SetField(out.hwheel, off, g.reportSize, signed));
        }
        assert out == AssignSlot(o, g, l, startBit, i);
        i := i + 1;
      }
    }

    /** The modifier bitfield: a Variable run of the 0xE0.. usages, one bit per key. */
    method AssignModifiers(startBit: uint32)
      requires Valid()
      modifies this`outKbd
      ensures Valid()
      ensures GetState() == old(GetState()).(kbd := HidWalk.AssignModifiers(old(outKbd), g, GetLocals(), startBit))
    {
      var areModifiers := false;
      if hasUsageRange {
        areModifiers := usageMin == USAGE_KBD_MOD_MIN;
      } else if usageCount > 0 {
        areModifiers := UsageId(usages[0]) == USAGE_KBD_MOD_MIN;
      }
      assert areModifiers == UsagesAreModifiers(GetLocals());
      if g.usagePage == PAGE_KEYBOARD && outKbd.modifiers.bitSize == 0 && areModifiers {
        var per := if g.reportSize != 0 then g.reportSize else 1;
        var bits := g.reportCount * per;
        if per == 1 && 0 < bits <= 8 && U32(startBit + bits) <= BIT_OFFSET_MAX {
          outKbd := outKbd.(modifiers := Field(U16(startBit), bits, false));
        }
      }
    }

    /** The keycode array: each of reportCount slots is one keycode. */
    method AssignKeys(startBit: uint32)
      requires Valid()
      modifies this`outKbd
      ensures Valid()
      ensures GetState() == old(GetState()).(kbd := HidWalk.AssignKeys(old(outKbd), g, startBit))
    {
      if g.usagePage == PAGE_KEYBOARD && outKbd.keys.bitSize == 0 {
        var per := if g.reportSize != 0 then g.reportSize else 8;
        var count := g.reportCount;
        if count > 0 && U32(startBit + count * per) <= BIT_OFFSET_MAX {
          outKbd := outKbd.(keys := Field(U16(startBit), per, false), keyCount := count);
        }
      }
    }

    /** Record the keyboard fields carried by one Data Input item. */
    method AssignKbdInput(startBit: uint32, flags: uint32)
      requires Valid()
      modifies this`outKbd
      ensures Valid()
      ensures GetState() == old(GetState()).(kbd := HidWalk.AssignKbdInput(old(outKbd), g, GetLocals(), startBit, flags))
    {
      if outKbd.reportId == 0 && outKbd.modifiers.bitSize == 0 && outKbd.keys.bitSize == 0 {
        outKbd := outKbd.(reportId := g.reportId);
      }
      if IsVariable(flags) {
        AssignModifiers(startBit);
      } else {
        AssignKeys(startBit);
      }
    }

    method HandleInput(flags: uint32)
      requires Valid()
      modifies this`out, this`outKbd, this`bitCursor
      ensures Valid() && GetState() == DoInput(old(GetState()), flags)
    {
      var totalBits := g.reportSize * g.reportCount;
      if mouseLevel >= 0 && !IsConstant(flags) && IsVariable(flags) {
        AssignInput(bitCursor);
      }
      if kbdLevel >= 0 && !IsConstant(flags) {
        AssignKbdInput(bitCursor, flags);
      }
      if U32(bitCursor + totalBits) < bitCursor {
        bitCursor := UINT32_MAX;
      } else {
        bitCursor := U32(bitCursor + totalBits);
      }
    }

    method HandleCollection(kind: uint32)
      requires Valid()
      modifies this`mouseLevel, this`kbdLevel, this`depth
      ensures Valid() && GetState() == DoCollection(old(GetState()), kind)
    {
      var isMouse, isKbd := false, false;
      if usageCount > 0 {
        var u := usages[usageCount - 1];
        isMouse := UsagePage(u) == PAGE_GENERIC_DESKTOP && UsageId(u) == USAGE_MOUSE;
        isKbd := UsagePage(u) == PAGE_GENERIC_DESKTOP && UsageId(u) == USAGE_KEYBOARD;
      }
      if kind == COLLECTION_APPLICATION && isMouse && mouseLevel == -1 {
        mouseLevel := depth;
      }
      if kind == COLLECTION_APPLICATION && isKbd && kbdLevel == -1 {
        kbdLevel := depth;
      }
      depth := depth + 1;
    }

    method HandleEndCollection()
      requires Valid()
      modifies this`mouseLevel, this`kbdLevel, this`depth
      ensures Valid() && GetState() == DoEndCollection(old(GetState()))
    {
      if depth > 0 {
        depth := depth - 1;
      }
      if mouseLevel >= 0 && depth <= mouseLevel {
        mouseLevel := -2;
      }
      if kbdLevel >= 0 && depth <= kbdLevel {
        kbdLevel := -2;
      }
    }

    method HandleMain(tag: byte, data: seq<byte>)
      requires Valid() && |data| <= 4
      modifies this
      ensures Valid() && GetState() == DoMain(old(GetState()), tag, data)
    {
      if tag == TAG_INPUT {
        var flags := ItemU(data);
        HandleInput(flags);
      } else if tag == TAG_COLLECTION {
        var kind := ItemU(data);
        HandleCollection(kind);
      } else if tag == TAG_END_COLLECTION {
        HandleEndCollection();
      }
      // Output and Feature are separate report streams: they never consume Input bits.
      ClearLocal();
    }

    method HandleGlobal(tag: byte, data: seq<byte>)
      requires Valid() && |data| <= 4
      modifies this, stack
      ensures Valid() && GetState() == DoGlobal(old(GetState()), tag, data)
    {
      if tag == TAG_USAGE_PAGE {
        var v := ItemU(data);
        g := g.(usagePage := U16(v));
      } else if tag == TAG_LOGICAL_MIN {
        var v := ItemS(data);
        g := g.(logicalMin := v);
      } else if tag == TAG_REPORT_SIZE {
        var v := ItemU(data);
        g := g.(reportSize := U8(v));
      } else if tag == TAG_REPORT_COUNT {
        var v := ItemU(data);
        g := g.(reportCount := U8(v));
      } else if tag == TAG_REPORT_ID {
        var v := ItemU(data);
        if U8(v) != g.reportId {
          bitCursor := 0;
        }
        g := g.(reportId := U8(v));
      } else if tag == TAG_PUSH {
        if stackDepth < GLOBAL_STACK_DEPTH {
          stack[stackDepth] := g;
          stackDepth := stackDepth + 1;
          assert stack[..stackDepth] == old(stack[..stackDepth]) + [g];
        }
      } else if tag == TAG_POP {
        if stackDepth > 0 {
          stackDepth := stackDepth - 1;
          g := stack[stackDepth];
          assert stack[..stackDepth] == old(stack[..stackDepth])[..stackDepth];
        }
      }
    }

    /** The usages past the sixteenth are dropped. */
    method PushUsage(u: uint32)
      requires Valid()
      modifies this`usageCount, usages
      ensures Valid() && GetState() == old(GetState()).(l := AddUsage(old(GetLocals()), u))
    {
      if usageCount < MAX_LOCAL_USAGES {
        usages[usageCount] := u;
        usageCount := usageCount + 1;
        assert usages[..usageCount] == old(usages[..usageCount]) + [u];
      }
    }

    method HandleLocal(tag: byte, data: seq<byte>)
      requires Valid() && |data| <= 4
      modifies this`usageCount, this`usageMin, this`usageMax, this`hasUsageRange, usages
      ensures Valid() && GetState() == old(GetState()).(l := DoLocal(g, old(GetLocals()), tag, data))
    {
      hide LeNat, MakeUsage;
      var v := ItemU(data);
      if tag == TAG_USAGE {
        UsageIdCast(g.usagePage, v);
        var u := if |data| == 4 then v else MakeUsage(g.usagePage, U16(v));
        PushUsage(u);
      } else if tag == TAG_USAGE_MIN {
        usageMin, hasUsageRange := v, true;
      } else if tag == TAG_USAGE_MAX {
        usageMax, hasUsageRange := v, true;
      }
    }

    method HandleItem(prefix: byte, data: seq<byte>)
      requires Valid() && |data| <= 4
      modifies this, stack, usages
      ensures Valid() && GetState() == Step(old(GetState()), Item(TypeOf(prefix), prefix / 16, data))
    {
      match TypeOf(prefix) {
        case Main => HandleMain(prefix / 16, data);
        case Global => HandleGlobal(prefix / 16, data);
        case Local => HandleLocal(prefix / 16, data);
        case Reserved =>
      }
    }

    /** The item loop: what is left of the map, walked from the current state, gives the final state. */
    method RunParser(bytes: seq<byte>)
      requires Valid()
      modifies this, stack, usages
      ensures Valid() && GetState() == Run(old(GetState()), Items(bytes))
    {
      hide Run, Step, Items;
      ghost var goal := Run(GetState(), Items(bytes));
      var i := 0;
      FromStart(bytes);
      while i < |bytes|
        invariant 0 <= i && Valid()
        invariant Run(GetState(), ItemsFrom(bytes, i)) == goal
      {
        var prefix := bytes[i];
        NextItem(bytes, i);
        if prefix == LONG_ITEM {
          if i + 1 >= |bytes| {
            break;
          }
          i := i + 3 + bytes[i + 1];
        } else {
          var dataLen := DataLen(prefix);
          if i + 1 + dataLen > |bytes| {
            break;
          }
          ghost var s := GetState();
          HandleItem(prefix, bytes[i + 1..i + 1 + dataLen]);
          RunCons(s, Item(TypeOf(prefix), prefix / 16, bytes[i + 1..i + 1 + dataLen]), ItemsFrom(bytes, i + 1 + dataLen));
          i := i + 1 + dataLen;
        }
      }
      assert ItemsFrom(bytes, i) == [];
      RunNil(GetState());
    }
  }

  lemma FromStart(bytes: seq<byte>)
    ensures ItemsFrom(bytes, 0) == Items(bytes)
  {
    assert bytes[0..] == bytes;
  }

  /** One turn of the walk: the items from byte i are the item there, then the items past it; a truncated item is none. */
  lemma NextItem(bytes: seq<byte>, i: nat)
    requires i < |bytes|
    ensures var n := ItemLen(bytes[i..]);
            if i + n > |bytes| then ItemsFrom(bytes, i) == []
            else if bytes[i] == LONG_ITEM then ItemsFrom(bytes, i) == ItemsFrom(bytes, i + n)
            else ItemsFrom(bytes, i) == [Item(TypeOf(bytes[i]), bytes[i] / 16, bytes[i + 1..i + n])] + ItemsFrom(bytes, i + n)
  {
    hide Items, DataLen, TypeOf;
    var r := bytes[i..];
    var n := ItemLen(r);
    ItemsUnfold(r);
    if n <= |r| {
      assert r[n..] == bytes[i + n..];
      assert bytes[i] != LONG_ITEM ==> r[1..n] == bytes[i + 1..i + n];
    }
  }

  method ParseReportMap(bytes: seq<byte>) returns (rc: int, out: PointerLayout)
    ensures out == ParsePointer(bytes)
    ensures rc == if out.valid then 0 else -1
  {
    var p := new Parser();
    p.RunParser(bytes);
    out := p.out.(valid := p.out.x.bitSize != 0 && p.out.y.bitSize != 0 && p.depth == 0);
    rc := if out.valid then 0 else -1;
  }

  method ParseKeyboardReportMap(bytes: seq<byte>) returns (rc: int, out: KeyboardLayout)
    ensures out == ParseKeyboard(bytes)
    ensures rc == if out.valid then 0 else -1
  {
    var p := new Parser();
    p.RunParser(bytes);
    out := p.outKbd.(valid := p.outKbd.keys.bitSize != 0 && p.depth == 0);
    rc := if out.valid then 0 else -1;
  }
}

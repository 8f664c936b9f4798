/** What the item state is, read off the items: the globals in force, the locals since the last Main item, and the usages they name. */
module HidItemState {
  import opened Bits
  import opened HidItems
  import opened HidWalk
  import opened HidWalkLaws
  import opened HidDecode

  // ------------------------------------------------------------- signed values

  /** The signed value of an item is its bytes, little-endian, in two's complement of their own width: one, two or four bytes. */
  lemma SignedItemIsTwosComplement(data: seq<byte>)
    requires |data| in {1, 2, 3, 4}
    ensures LeNat(data) < Pow2(8 * |data|)
    ensures SignedItem(data) == TwosComplement(LeNat(data), 8 * |data|)
    ensures SignedItem(data) < 0 <==> data[|data| - 1] >= 0x80
  {
    hide Bit, LeNat;
    LeNatBound(data);
    TopBit(LeNat(data), 8 * |data|);
    TopByte(data);
    Pow2Literals();
    Pow2Mono(8 * |data|, 32);
    TopHalf(|data|);
  }

  lemma TopHalf(n: nat)
    requires n > 0
    ensures Pow2(8 * n) == 2 * Pow2(8 * n - 1) && Pow2(8 * n - 1) == 0x80 * Pow2(8 * (n - 1))
  {
    hide Pow2;
    Pow2Add(1, 8 * n - 1);
    Pow2Add(7, 8 * (n - 1));
    assert Pow2(1) == 2 && Pow2(7) == 0x80 by { SmallPowers(); }
    assert 7 + 8 * (n - 1) == 8 * n - 1;
  }

  lemma SmallPowers()
    ensures Pow2(1) == 2 && Pow2(7) == 0x80
  {
    assert Pow2(4) == 16;
  }

  /** A number is in the upper half of its range exactly when its last byte is. */
  lemma {:induction false} TopByte(data: seq<byte>)
    requires |data| > 0
    ensures LeNat(data) >= 0x80 * Pow2(8 * (|data| - 1)) <==> data[|data| - 1] >= 0x80
    decreases |data|
  {
    hide Pow2;
    if |data| == 1 {
      assert data[1..] == [] && LeNat([]) == 0 && Pow2(0) == 1 by { NoPower(); }
    } else {
      TopByte(data[1..]);
      assert 8 * (|data| - 1) == 8 + 8 * (|data| - 2);
      Pow2Add(8, 8 * (|data| - 2));
      Pow2Literals();
    }
  }

  lemma NoPower()
    ensures Pow2(0) == 1
  {}

  // ------------------------------------------------------------------ globals

  predicate IsGlobal(x: Item, tag: byte) { x.kind == Global && x.tag == tag && |x.data| <= 4 }

  /** The data of the last Global item with this tag. */
  function LastGlobal(xs: seq<Item>, tag: byte): Option<seq<byte>>
    decreases |xs|
  {
    if |xs| == 0 then None
    else if IsGlobal(xs[|xs| - 1], tag) then Some(xs[|xs| - 1].data)
    else LastGlobal(xs[..|xs| - 1], tag)
  }

  function ValueOr(d: Option<seq<byte>>, otherwise: int, modulus: nat): int
    requires modulus > 0
  {
    if d.Some? then LeNat(d.value) % modulus else otherwise
  }

  function SignedOr(d: Option<seq<byte>>, otherwise: int): int {
    if d.None? then otherwise else if |d.value| == 0 then 0 else TwosComplement(LeNat(d.value), 8 * |d.value|)
  }

  /**
   * Over a stretch without Push and Pop each global is the value of the last item that sets it, cut to its
   * width or sign-extended, and what it was before if there is none.
   */
  lemma {:induction false} GlobalsAreLastItems(s: State, xs: seq<Item>)
    requires forall k :: 0 <= k < |xs| ==> !IsPush(xs[k]) && !IsPop(xs[k])
    ensures var g := Run(s, xs).g;
            && g.usagePage == ValueOr(LastGlobal(xs, 0x0), s.g.usagePage, 0x1_0000)
            && g.logicalMin == SignedOr(LastGlobal(xs, 0x1), s.g.logicalMin)
            && g.reportSize == ValueOr(LastGlobal(xs, 0x7), s.g.reportSize, 0x100)
            && g.reportId == ValueOr(LastGlobal(xs, 0x8), s.g.reportId, 0x100)
            && g.reportCount == ValueOr(LastGlobal(xs, 0x9), s.g.reportCount, 0x100)
    ensures Run(s, xs).stack == s.stack
    decreases |xs|
  {
    hide Step, LeNat, TwosComplement;
    if |xs| > 0 {
      GlobalsAreLastItems(s, xs[..|xs| - 1]);
      StepGlobals(Run(s, xs[..|xs| - 1]), xs[|xs| - 1]);
    }
  }

  lemma StepGlobals(s: State, x: Item)
    requires !IsPush(x) && !IsPop(x)
    ensures var g := Step(s, x).g;
            && g.usagePage == (if IsGlobal(x, 0x0) then LeNat(x.data) % 0x1_0000 else s.g.usagePage)
            && g.logicalMin == (if IsGlobal(x, 0x1) then SignedOr(Some(x.data), 0) else s.g.logicalMin)
            && g.reportSize == (if IsGlobal(x, 0x7) then LeNat(x.data) % 0x100 else s.g.reportSize)
            && g.reportId == (if IsGlobal(x, 0x8) then LeNat(x.data) % 0x100 else s.g.reportId)
            && g.reportCount == (if IsGlobal(x, 0x9) then LeNat(x.data) % 0x100 else s.g.reportCount)
    ensures Step(s, x).stack == s.stack
  {
    hide LeNat, SignedItem, TwosComplement, AssignInput, AssignKbdInput;
    if 1 <= |x.data| <= 4 { SignedItemIsTwosComplement(x.data); }
    if |x.data| == 0 { EmptyItem(x.data); }
  }

  lemma EmptyItem(data: seq<byte>)
    requires |data| == 0
    ensures SignedItem(data) == 0
  {}

  // ------------------------------------------------------------------- locals

  predicate IsLocal(x: Item, tag: byte) { x.kind == Local && x.tag == tag && |x.data| <= 4 }

  /** A Usage item's usage: with four bytes it brings its own page, otherwise it is on the page in force. */
  function UsageFrom(page: uint16, data: seq<byte>): int {
    if |data| == 4 then LeNat(data) else page * 0x1_0000 + LeNat(data) % 0x1_0000
  }

  /** The usages of the Usage items, each on the page in force at it, the first sixteen. */
  function UsageList(s: State, xs: seq<Item>): seq<int>
    decreases |xs|
  {
    if |xs| == 0 then []
    else
      var us, x := UsageList(s, xs[..|xs| - 1]), xs[|xs| - 1];
      if IsLocal(x, 0x0) && |us| < 16 then us + [UsageFrom(Run(s, xs[..|xs| - 1]).g.usagePage, x.data)] else us
  }

  function LastLocal(xs: seq<Item>, tag: byte): Option<seq<byte>>
    decreases |xs|
  {
    if |xs| == 0 then None
    else if IsLocal(xs[|xs| - 1], tag) then Some(xs[|xs| - 1].data)
    else LastLocal(xs[..|xs| - 1], tag)
  }

  /** Any Main item, known or not, leaves no local state. */
  lemma MainClearsLocals(s: State, x: Item)
    requires x.kind == Main && |x.data| <= 4
    ensures Step(s, x).l == NO_LOCALS
  {
    hide LeNat, AssignInput, AssignKbdInput;
  }

  /**
   * Between Main items the local state is what the Local items since the last of them say: the usage list,
   * and the last bounds of a range.
   */
  lemma {:induction false} LocalsAreSinceMain(s: State, xs: seq<Item>)
    requires s.l == NO_LOCALS && NoMain(xs)
    ensures var l := Run(s, xs).l; var lo, hi := LastLocal(xs, 0x1), LastLocal(xs, 0x2);
            && l.usages == UsageList(s, xs)
            && l.usageMin == (if lo.Some? then LeNat(lo.value) else 0)
            && l.usageMax == (if hi.Some? then LeNat(hi.value) else 0)
            && (l.hasRange <==> lo.Some? || hi.Some?)
    decreases |xs|
  {
    hide Step, LeNat, IsLocal;
    if |xs| > 0 {
      LocalsAreSinceMain(s, xs[..|xs| - 1]);
      StepLocals(Run(s, xs[..|xs| - 1]), xs[|xs| - 1]);
    }
  }

  lemma StepLocals(s: State, x: Item)
    requires x.kind != Main
    ensures var l := Step(s, x).l;
            && l.usages == (if IsLocal(x, 0x0) && |s.l.usages| < 16 then s.l.usages + [UsageFrom(s.g.usagePage, x.data)] else s.l.usages)
            && l.usageMin == (if IsLocal(x, 0x1) then LeNat(x.data) else s.l.usageMin)
            && l.usageMax == (if IsLocal(x, 0x2) then LeNat(x.data) else s.l.usageMax)
            && (l.hasRange <==> s.l.hasRange || IsLocal(x, 0x1) || IsLocal(x, 0x2))
  {
    hide LeNat, SignedItem;
  }

  /** A four-byte usage has its id in the low two bytes and its page in the high two, whatever page is in force. */
  lemma FourByteUsage(page: uint16, data: seq<byte>)
    requires |data| == 4
    ensures var u := UsageFrom(page, data); u < 0x1_0000_0000 && UsagePage(u) == LeNat(data[2..]) && UsageId(u) == LeNat(data[..2])
  {
    var hi, lo := data[2..], data[..2];
    LeNatBound(hi);
    LeNatBound(lo);
    Pow2Literals();
    assert data[1..][1..] == hi && lo[1..][1..] == [] && lo[1..][0] == data[1];
    assert LeNat(data) == data[0] + 0x100 * (data[1] + 0x100 * LeNat(hi));
    assert LeNat(lo[1..]) == data[1] + 0x100 * LeNat([]);
    assert LeNat(lo) == data[0] + 0x100 * LeNat(lo[1..]);
  }

  // ------------------------------------------------------------------- slots

  /**
   * A usage range names its ids slot by slot from the first, on the page in force, and its last id names
   * every slot after that.
   */
  lemma RangeNamesSlots(g: Globals, l: Locals, i: nat, id: nat)
    requires l.usages == [] && l.hasRange && l.usageMin <= l.usageMax < 0x1_0000 && i < 0x100
    ensures UsagePage(UsageForSlot(g, l, i)) == g.usagePage
    ensures UsageId(UsageForSlot(g, l, i)) == id <==>
              if id < l.usageMax then id >= l.usageMin && i == id - l.usageMin
              else id == l.usageMax && i >= l.usageMax - l.usageMin
  {
    hide UsagePage, UsageId;
    var u := l.usageMin + i;
    assert U32(u) == u;
    var v: uint16 := if u > l.usageMax then l.usageMax else u;
    UsageParts(g.usagePage, v);
  }

  /** An explicit list names its slots in order, its last usage every slot after that, whatever range is there too. */
  lemma ListNamesSlots(g: Globals, l: Locals, i: nat)
    requires l.usages != []
    ensures i < |l.usages| ==> UsageForSlot(g, l, i) == l.usages[i]
    ensures i >= |l.usages| - 1 ==> UsageForSlot(g, l, i) == l.usages[|l.usages| - 1]
  {}
}

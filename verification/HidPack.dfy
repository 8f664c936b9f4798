/** Packing values LSB-first into a payload, and reading them back. */
module HidPack {
  import opened Bits
  import opened HidDecode

  /** A value of `width` bits. */
  datatype Cell = Cell(value: nat, width: nat)

  predicate CellsFit(cs: seq<Cell>) { forall k :: 0 <= k < |cs| ==> cs[k].value < Pow2(cs[k].width) }

  /** The cells one after another from bit 0, as a number. */
  function Pack(cs: seq<Cell>): nat {
    if |cs| == 0 then 0 else cs[0].value + Pow2(cs[0].width) * Pack(cs[1..])
  }

  function Width(cs: seq<Cell>): nat {
    if |cs| == 0 then 0 else cs[0].width + Width(cs[1..])
  }

  lemma {:induction false} PackBound(cs: seq<Cell>)
    requires CellsFit(cs)
    ensures Pack(cs) < Pow2(Width(cs))
    decreases |cs|
  {
    if |cs| > 0 {
      assert CellsFit(cs[1..]);
      PackBound(cs[1..]);
      Pow2Add(cs[0].width, Width(cs[1..]));
      BelowProduct(cs[0].value, Pow2(cs[0].width), Pack(cs[1..]), Pow2(Width(cs[1..])));
    }
  }

  lemma BelowProduct(v: nat, a: nat, m: nat, b: nat)
    requires v < a && m < b
    ensures v + a * m < a * b
  {
    MulMono(m + 1, b, a);
  }

  lemma {:induction false} SliceLow(v: nat, w: nat, rest: nat)
    requires v < Pow2(w)
    ensures Slice(v + Pow2(w) * rest, 0, w) == v
  {
    hide Slice, Pow2;
    SliceIsDivMod(v + Pow2(w) * rest, 0, w);
    assert Pow2(0) == 1 by { PowZero(); }
    DivUnique(v + Pow2(w) * rest, Pow2(w), rest, v);
  }

  lemma PowZero()
    ensures Pow2(0) == 1
  {}

  lemma SliceHigh(v: nat, w: nat, rest: nat, off: nat, k: nat)
    requires v < Pow2(w)
    ensures Slice(v + Pow2(w) * rest, w + off, k) == Slice(rest, off, k)
  {
    hide Slice, Pow2;
    var n := v + Pow2(w) * rest;
    SliceIsDivMod(n, w + off, k);
    SliceIsDivMod(rest, off, k);
    Pow2Add(w, off);
    DivUnique(n, Pow2(w), rest, v);
    DivDiv(n, Pow2(w), Pow2(off));
  }

  /** Every packed cell is read back at the sum of the widths before it. */
  lemma {:induction false} SliceOfPack(cs: seq<Cell>, k: nat)
    requires CellsFit(cs) && k < |cs|
    ensures Slice(Pack(cs), Width(cs[..k]), cs[k].width) == cs[k].value
    decreases |cs|
  {
    hide Slice, Pow2;
    if k == 0 {
      assert Width(cs[..0]) == 0;
      SliceLow(cs[0].value, cs[0].width, Pack(cs[1..]));
    } else {
      SliceOfPack(cs[1..], k - 1);
      assert cs[..k][1..] == cs[1..][..k - 1];
      SliceHigh(cs[0].value, cs[0].width, Pack(cs[1..]), Width(cs[1..][..k - 1]), cs[k].width);
    }
  }

  /** The payload: just enough bytes for the cells. */
  function Payload(cs: seq<Cell>): seq<byte> { ToBytes(Pack(cs), (Width(cs) + 7) / 8) }

  lemma PayloadNat(cs: seq<Cell>)
    requires CellsFit(cs)
    ensures LeNat(Payload(cs)) == Pack(cs) && Width(cs) <= 8 * |Payload(cs)|
  {
    hide Pow2, Pack, ToBytes, LeNat;
    PackBound(cs);
    Pow2Mono(Width(cs), 8 * ((Width(cs) + 7) / 8));
    LeNatToBytes(Pack(cs), (Width(cs) + 7) / 8);
  }

  predicate Signed(v: int, w: nat)
    requires w > 0
  {
    0 - Pow2(w - 1) <= v < Pow2(w - 1)
  }

  /** The w-bit two's complement pattern of v. */
  function Pattern(v: int, w: nat): nat
    requires w > 0 && Signed(v, w)
  {
    if v < 0 then v + Pow2(w) else v
  }

  lemma PatternReads(v: int, w: nat)
    requires w > 0 && Signed(v, w)
    ensures Pattern(v, w) < Pow2(w) && TwosComplement(Pattern(v, w), w) == v
  {}
}

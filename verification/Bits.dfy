/** Fixed-width integers, bit tests and the C bitwise operators, on natural numbers. */
module Bits {

  type byte = x: int | 0 <= x < 0x100
  type uint16 = x: int | 0 <= x < 0x1_0000
  type uint32 = x: int | 0 <= x < 0x1_0000_0000
  type int32 = x: int | -0x8000_0000 <= x < 0x8000_0000

  datatype Option<+T> = None | Some(value: T)

  /** C's unsigned 32-bit truncation. */
  function U32(x: int): uint32 { x % 0x1_0000_0000 }

  function U16(x: int): uint16 { x % 0x1_0000 }

  function U8(x: int): byte { x % 0x100 }

  /** The (int32_t) cast of an unsigned 32-bit value. */
  function ToInt32(v: uint32): int32 {
    if v < 0x8000_0000 then v else v - 0x1_0000_0000
  }

  function Pow2(n: nat): (r: nat)
    ensures r >= 1
  {
    if n == 0 then 1 else 2 * Pow2(n - 1)
  }

  function Min(a: int, b: int): int { if a <= b then a else b }

  function Max(a: int, b: int): int { if a >= b then a else b }

  // ---------------------------------------------------------------- bit tests

  predicate Bit(n: nat, i: nat) {
    if i == 0 then n % 2 == 1 else Bit(n / 2, i - 1)
  }

  function BitVal(n: nat, i: nat): nat { if Bit(n, i) then 1 else 0 }

  datatype BitOp = Or | Xor | And | AndNot

  predicate Apply(op: BitOp, x: bool, y: bool) {
    match op
    case Or => x || y
    case Xor => x != y
    case And => x && y
    case AndNot => x && !y
  }

  /** `a op b`, bit by bit. */
  function Bitwise(op: BitOp, a: nat, b: nat): nat
    decreases a + b
  {
    if a == 0 && b == 0 then 0
    else 2 * Bitwise(op, a / 2, b / 2) + (if Apply(op, a % 2 == 1, b % 2 == 1) then 1 else 0)
  }

  lemma {:induction false} BitOfZero(i: nat)
    ensures !Bit(0, i)
  {
    if i > 0 { BitOfZero(i - 1); }
  }

  lemma {:induction false} BitwiseBit(op: BitOp, a: nat, b: nat, i: nat)
    ensures Bit(Bitwise(op, a, b), i) == Apply(op, Bit(a, i), Bit(b, i))
    decreases i
  {
    if a == 0 && b == 0 {
      BitOfZero(i);
    } else if i > 0 {
      BitwiseBit(op, a / 2, b / 2, i - 1);
    }
  }

  lemma {:induction false} BitwiseBound(op: BitOp, a: nat, b: nat, n: nat)
    requires a < Pow2(n) && b < Pow2(n)
    ensures Bitwise(op, a, b) < Pow2(n)
    decreases n
  {
    if n > 0 && (a != 0 || b != 0) {
      BitwiseBound(op, a / 2, b / 2, n - 1);
    }
  }

  /** Two numbers with the same bits are the same number. */
  lemma {:induction false} BitsExtensional(a: nat, b: nat)
    requires forall i: nat :: Bit(a, i) == Bit(b, i)
    ensures a == b
    decreases a + b
  {
    if a + b > 0 {
      assert Bit(a, 0) == Bit(b, 0);
      forall i: nat ensures Bit(a / 2, i) == Bit(b / 2, i) {
        assert Bit(a, i + 1) == Bit(b, i + 1);
      }
      BitsExtensional(a / 2, b / 2);
    }
  }

  /** A number below 2^n has no bit at n or above. */
  lemma {:induction false} BitAbove(a: nat, n: nat, i: nat)
    requires a < Pow2(n) && n <= i
    ensures !Bit(a, i)
    decreases i
  {
    if n == 0 {
      BitOfZero(i);
    } else {
      BitAbove(a / 2, n - 1, i - 1);
    }
  }

  /** A number with no bit at n or above is below 2^n. */
  lemma {:induction false} BoundedByBits(a: nat, n: nat)
    requires forall i: nat :: n <= i ==> !Bit(a, i)
    ensures a < Pow2(n)
    decreases n
  {
    if n == 0 {
      forall i: nat ensures Bit(a, i) == Bit(0, i) { BitOfZero(i); }
      BitsExtensional(a, 0);
    } else {
      forall i: nat | n - 1 <= i ensures !Bit(a / 2, i) {
        assert !Bit(a, i + 1);
      }
      BoundedByBits(a / 2, n - 1);
    }
  }

  /** 1 << k has exactly bit k. */
  lemma {:induction false} BitOfPow2(k: nat, i: nat)
    ensures Bit(Pow2(k), i) == (i == k)
    decreases k
  {
    if k == 0 {
      if i > 0 { BitOfZero(i - 1); }
    } else if i > 0 {
      assert Pow2(k) / 2 == Pow2(k - 1);
      BitOfPow2(k - 1, i - 1);
    }
  }

  /** OR-ing a value shifted past the top of the accumulator is addition. */
  lemma {:induction false} OrDisjoint(a: nat, b: nat, k: nat)
    requires a < Pow2(k)
    ensures Bitwise(Or, a, b * Pow2(k)) == a + b * Pow2(k)
    decreases k
  {
    if k == 0 {
      OrZero(b);
    } else {
      var h := b * Pow2(k - 1);
      assert b * Pow2(k) == 2 * h;
      OrDisjoint(a / 2, b, k - 1);
      if a + 2 * h > 0 {
        assert Bitwise(Or, a, 2 * h) == 2 * Bitwise(Or, a / 2, (2 * h) / 2) + (if a % 2 == 1 then 1 else 0);
      }
    }
  }

  lemma {:induction false} OrZero(b: nat)
    ensures Bitwise(Or, 0, b) == b
    decreases b
  {
    if b > 0 { OrZero(b / 2); }
  }

  /** `v |= ~((1u << n) - 1)` on an n-bit value: filling the bits from n to 31 subtracts 2^n in two's complement. */
  lemma SignFill(v: nat, n: nat)
    requires 0 < n < 32 && v < Pow2(n)
    ensures Pow2(n) <= 0x8000_0000
    ensures Bitwise(Or, v, 0x1_0000_0000 - Pow2(n)) == v + (0x1_0000_0000 - Pow2(n)) < 0x1_0000_0000
    ensures ToInt32(v + (0x1_0000_0000 - Pow2(n))) == v - Pow2(n)
  {
    hide Pow2, Bitwise;
    Pow2Literals();
    Pow2Mono(n, 31);
    Pow2Add(n, 32 - n);
    MulPred(Pow2(32 - n), Pow2(n));
    OrDisjoint(v, Pow2(32 - n) - 1, n);
  }

  lemma MulPred(a: nat, b: nat)
    requires a > 0
    ensures (a - 1) * b == b * a - b
  {}

  // ------------------------------------------------- powers, slices of numbers

  lemma {:induction false} Pow2Add(a: nat, b: nat)
    ensures Pow2(a + b) == Pow2(a) * Pow2(b)
    decreases a
  {
    if a > 0 {
      Pow2Add(a - 1, b);
      assert Pow2(a + b) == 2 * Pow2(a - 1 + b);
    }
  }

  lemma {:induction false} Pow2Mono(a: nat, b: nat)
    requires a <= b
    ensures Pow2(a) <= Pow2(b)
    decreases b - a
  {
    if a < b { Pow2Mono(a, b - 1); }
  }

  lemma Pow2Literals()
    ensures Pow2(8) == 0x100 && Pow2(16) == 0x1_0000 && Pow2(31) == 0x8000_0000 && Pow2(32) == 0x1_0000_0000
  {
    assert Pow2(4) == 16;
    Pow2Add(4, 4);
    Pow2Add(8, 8);
    Pow2Add(16, 16);
  }

  /** n with its low k bits removed. */
  function Shr(n: nat, k: nat): nat
    decreases k
  {
    if k == 0 then n else Shr(n / 2, k - 1)
  }

  /** The w bits of n that start at bit `off`. */
  function Slice(n: nat, off: nat, w: nat): (r: nat)
    ensures r < Pow2(w)
    decreases w
  {
    if w == 0 then 0 else BitVal(n, off) + 2 * Slice(n, off + 1, w - 1)
  }

  lemma {:induction false} DivPow2(n: nat, k: nat)
    ensures Shr(n, k) == n / Pow2(k)
    decreases k
  {
    if k > 0 {
      DivPow2(n / 2, k - 1);
      DivDiv(n, 2, Pow2(k - 1));
    }
  }

  lemma DivDiv(n: nat, a: nat, b: nat)
    requires a > 0 && b > 0
    ensures a * b > 0
    ensures (n / a) / b == n / (a * b)
  {
    var h := n / a;
    var q, r := h / b, h % b;
    DivMod(n, a);
    DivMod(h, b);
    MulSplit(a, b, q, r);
    MulMono(r + 1, b, a);
    Joined(n, a, b, h, n % a, q, r);
  }

  lemma DivMod(n: nat, a: nat)
    requires a > 0
    ensures n == a * (n / a) + n % a && n % a < a
  {}

  /** The quotient by a product, from the two quotients. */
  lemma Joined(n: nat, a: nat, b: nat, h: nat, r0: nat, q: nat, r: nat)
    requires n == a * h + r0 && a * h == q * (a * b) + a * r && (r + 1) * a <= b * a && r0 < a && a > 0 && b > 0
    ensures a * b > 0 && n / (a * b) == q
  {
    var d, m := a * b, a * r;
    assert (r + 1) * a == m + a && b * a == d;
    DivUnique(n, d, q, m + r0);
  }

  lemma MulSplit(a: nat, b: nat, q: nat, r: nat)
    ensures a * (b * q + r) == q * (a * b) + a * r
  {
    assert a * (b * q + r) == a * (b * q) + a * r;
    assert a * (b * q) == (a * b) * q;
  }

  lemma MulMono(x: nat, y: nat, k: nat)
    requires x <= y
    ensures x * k <= y * k
  {}

  /** Entry i of n entries of k bits ends within them. */
  lemma MulRoom(i: nat, n: nat, k: nat)
    requires i < n
    ensures i * k + k <= n * k
  {
    MulMono(i + 1, n, k);
  }

  lemma DivUnique(n: nat, d: nat, q: nat, r: nat)
    requires d > 0 && r < d && n == q * d + r
    ensures n / d == q && n % d == r
  {
    if n / d < q {
      MulMono(n / d + 1, q, d);
    } else if n / d > q {
      MulMono(q + 1, n / d, d);
    }
  }

  lemma {:induction false} BitShr(n: nat, k: nat, i: nat)
    ensures Bit(Shr(n, k), i) == Bit(n, k + i)
    decreases k
  {
    if k > 0 { BitShr(n / 2, k - 1, i); }
  }

  /** A slice is the quotient's remainder: (n div 2^off) mod 2^w. */
  lemma {:induction false} SliceIsDivMod(n: nat, off: nat, w: nat)
    ensures Slice(n, off, w) == (n / Pow2(off)) % Pow2(w)
    decreases w
  {
    if w > 0 {
      SliceIsDivMod(n, off + 1, w - 1);
      Pow2Add(off, 1);
      DivDiv(n, Pow2(off), 2);
      DivPow2(n, off);
      BitShr(n, off, 0);
      ModDouble(n / Pow2(off), Pow2(w - 1));
    }
  }

  lemma ModDouble(m: nat, p: nat)
    requires p > 0
    ensures m % (2 * p) == m % 2 + 2 * ((m / 2) % p)
  {
    var h := m / 2;
    var q := h / p;
    assert 2 * (p * q) == q * (2 * p);
    DivUnique(m, 2 * p, q, m % 2 + 2 * (h % p));
  }

  /** One more bit at the top of a slice. */
  lemma {:induction false} SliceSnoc(n: nat, off: nat, w: nat)
    ensures Slice(n, off, w + 1) == Slice(n, off, w) + BitVal(n, off + w) * Pow2(w)
    decreases w
  {
    if w > 0 {
      SliceSnoc(n, off + 1, w - 1);
    }
  }

  lemma {:induction false} SliceBit(n: nat, off: nat, w: nat, i: nat)
    requires i < w
    ensures Bit(Slice(n, off, w), i) == Bit(n, off + i)
    decreases w
  {
    if i > 0 { SliceBit(n, off + 1, w - 1, i - 1); }
  }

  lemma {:induction false} SliceNonzero(n: nat, off: nat, w: nat) returns (b: nat)
    requires Slice(n, off, w) != 0
    ensures off <= b < off + w && Bit(n, b)
    decreases w
  {
    if Bit(n, off) { b := off; } else { b := SliceNonzero(n, off + 1, w - 1); }
  }

  lemma {:induction false} SliceZeroBit(n: nat, off: nat, w: nat, b: nat)
    requires off <= b < off + w && Bit(n, b)
    ensures Slice(n, off, w) != 0
    decreases w
  {
    if b > off { SliceZeroBit(n, off + 1, w - 1, b); }
  }

  // -------------------------------------------------- little-endian byte strings

  function LeNat(s: seq<byte>): nat {
    if |s| == 0 then 0 else s[0] + 0x100 * LeNat(s[1..])
  }

  lemma {:induction false} Bit8(lo: byte, hi: nat, i: nat)
    ensures Bit(lo + 0x100 * hi, i) == if i < 8 then Bit(lo, i) else Bit(hi, i - 8)
  {
    hide Bit, Pow2, Shr;
    Pow2Literals();
    if i >= 8 {
      DivPow2(lo + 0x100 * hi, 8);
      BitShr(lo + 0x100 * hi, 8, i - 8);
    } else {
      Bit8Low(lo, hi, 8, i);
    }
  }

  lemma {:induction false} Bit8Low(lo: nat, hi: nat, k: nat, i: nat)
    requires i < k
    ensures Bit(lo + Pow2(k) * hi, i) == Bit(lo, i)
    decreases k
  {
    var h := Pow2(k - 1) * hi;
    assert Pow2(k) * hi == 2 * h;
    assert (lo + 2 * h) / 2 == lo / 2 + h;
    if i > 0 { Bit8Low(lo / 2, hi, k - 1, i - 1); }
  }

  /** Bit i of the little-endian number is bit i%8 of byte i/8; past the end it is clear. */
  lemma {:induction false} LeNatBit(s: seq<byte>, i: nat)
    ensures Bit(LeNat(s), i) == (i / 8 < |s| && Bit(s[i / 8], i % 8))
    decreases |s|
  {
    if |s| == 0 {
      BitOfZero(i);
    } else {
      Bit8(s[0], LeNat(s[1..]), i);
      if i >= 8 {
        LeNatBit(s[1..], i - 8);
      }
    }
  }

  lemma {:induction false} LeNatBound(s: seq<byte>)
    ensures LeNat(s) < Pow2(8 * |s|)
    decreases |s|
  {
    if |s| > 0 {
      LeNatBound(s[1..]);
      Pow2Add(8, 8 * (|s| - 1));
      Pow2Literals();
    }
  }

  /** The n low bytes of v, least significant first. */
  function ToBytes(v: nat, n: nat): (s: seq<byte>)
    ensures |s| == n
  {
    if n == 0 then [] else [v % 0x100] + ToBytes(v / 0x100, n - 1)
  }

  lemma {:induction false} LeNatToBytes(v: nat, n: nat)
    requires v < Pow2(8 * n)
    ensures LeNat(ToBytes(v, n)) == v
    decreases n
  {
    if n == 0 {
      assert Pow2(0) == 1;
    } else {
      hide Pow2;
      Pow2Add(8, 8 * (n - 1));
      Pow2Literals();
      assert 8 + 8 * (n - 1) == 8 * n;
      LeNatToBytes(v / 0x100, n - 1);
      assert ToBytes(v, n)[1..] == ToBytes(v / 0x100, n - 1);
    }
  }
}

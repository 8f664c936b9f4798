/** The item stream of a HID report descriptor (USB HID 1.11, section 6.2.2). */
module HidItems {
  import opened Bits

  const LONG_ITEM: byte := 0xFE

  datatype ItemType = Main | Global | Local | Reserved

  datatype Item = Item(kind: ItemType, tag: byte, data: seq<byte>) {
    /** Exactly the items a short-item prefix can announce; 0xFE announces a long item. */
    predicate Encodable() {
      tag < 16 && |data| in {0, 1, 2, 4} && !(kind == Reserved && tag == 15 && |data| == 2)
    }
  }

  function DataLen(prefix: byte): nat {
    var b := prefix % 4;
    if b == 3 then 4 else b
  }

  function TypeOf(prefix: byte): ItemType {
    match (prefix / 4) % 4
    case 0 => Main
    case 1 => Global
    case 2 => Local
    case _ => Reserved
  }

  /** Bytes the item at the head of b occupies; a long item whose size byte is missing counts as too long. */
  function ItemLen(b: seq<byte>): (n: nat)
    requires |b| > 0
    ensures n >= 1
  {
    if b[0] != LONG_ITEM then 1 + DataLen(b[0])
    else if |b| < 2 then 2
    else 3 + b[1] as int
  }

  /** The short item at the head of b; a long item is stepped over. */
  function Head(b: seq<byte>): seq<Item>
    requires |b| > 0 && ItemLen(b) <= |b|
  {
    if b[0] == LONG_ITEM then [] else [Item(TypeOf(b[0]), b[0] / 16, b[1..ItemLen(b)])]
  }

  /** The short items the walk sees. A truncated item ends it. */
  function Items(b: seq<byte>): seq<Item>
    decreases |b|
  {
    if |b| == 0 || ItemLen(b) > |b| then [] else Head(b) + Items(b[ItemLen(b)..])
  }

  lemma ItemsUnfold(r: seq<byte>)
    ensures Items([]) == []
    ensures |r| > 0 ==> Items(r) == if ItemLen(r) > |r| then [] else Head(r) + Items(r[ItemLen(r)..])
  {}

  /** The items from byte i on, where the walk may have stepped past the end. */
  function ItemsFrom(b: seq<byte>, i: nat): seq<Item> {
    if i >= |b| then [] else Items(b[i..])
  }

  /** b ends at an item boundary: the walk consumes exactly b. */
  predicate Complete(b: seq<byte>)
    decreases |b|
  {
    |b| == 0 || (ItemLen(b) <= |b| && Complete(b[ItemLen(b)..]))
  }

  lemma HeadConcat(a: seq<byte>, c: seq<byte>)
    requires |a| > 0 && ItemLen(a) <= |a|
    ensures ItemLen(a + c) == ItemLen(a) && Head(a + c) == Head(a)
    ensures (a + c)[ItemLen(a)..] == a[ItemLen(a)..] + c
  {
    hide DataLen, TypeOf;
    assert (a + c)[1..ItemLen(a)] == a[1..ItemLen(a)];
  }

  /** Tokenising is a homomorphism at item boundaries. */
  lemma {:induction false} ItemsConcat(a: seq<byte>, c: seq<byte>)
    requires Complete(a)
    ensures Items(a + c) == Items(a) + Items(c)
    ensures Complete(a + c) == Complete(c)
    decreases |a|
  {
    hide ItemLen, Head;
    if |a| == 0 {
      assert a + c == c;
    } else {
      HeadConcat(a, c);
      ItemsConcat(a[ItemLen(a)..], c);
    }
  }

  /** There are no more items than bytes. */
  lemma {:induction false} ItemsBound(b: seq<byte>)
    ensures |Items(b)| <= |b|
    ensures AllEncodable(Items(b))
    decreases |b|
  {
    if |b| > 0 && ItemLen(b) <= |b| {
      ItemsBound(b[ItemLen(b)..]);
    }
  }

  /** A long item is stepped over with its data, whatever they are. */
  lemma LongItemsSkipped(tag: byte, data: seq<byte>, rest: seq<byte>)
    requires |data| < 0x100
    ensures Items([0xFE, |data|, tag] + data + rest) == Items(rest)
    ensures Complete([0xFE, |data|, tag] + data)
  {
    var b := [0xFE, |data| as byte, tag] + data;
    assert b[|b|..] == [] && ItemLen(b) == |b|;
    assert (b + rest)[|b|..] == rest && ItemLen(b + rest) == |b|;
    assert Head(b + rest) == [];
    ItemsUnfold(b + rest);
  }

  /** An item cut short at the end of the map is as if it were not there: the walk keeps what it found. */
  lemma TruncatedTailIgnored(a: seq<byte>, t: seq<byte>)
    requires Complete(a) && |t| > 0
    requires if t[0] == 0xFE then |t| < 2 || |t| < 3 + t[1] as int
             else |t| < 1 + (if t[0] % 4 == 3 then 4 else t[0] % 4)
    ensures Items(a + t) == Items(a)
  {
    ItemsConcat(a, t);
    ItemsUnfold(t);
    assert Items(a) + [] == Items(a);
  }

  // ------------------------------------------------------------------ printing

  function TypeCode(k: ItemType): nat {
    match k case Main => 0 case Global => 1 case Local => 2 case Reserved => 3
  }

  function Prefix(tag: nat, code: nat, len: nat): nat { tag * 16 + code * 4 + len }

  lemma PrefixFields(tag: nat, code: nat, len: nat)
    requires tag < 16 && code < 4 && len < 4
    ensures Prefix(tag, code, len) < 0x100
    ensures Prefix(tag, code, len) % 4 == len
    ensures (Prefix(tag, code, len) / 4) % 4 == code
    ensures Prefix(tag, code, len) / 16 == tag
  {}

  function Encode(x: Item): (b: seq<byte>)
    requires x.Encodable()
  {
    PrefixFields(x.tag, TypeCode(x.kind), if |x.data| == 4 then 3 else |x.data|);
    [Prefix(x.tag, TypeCode(x.kind), if |x.data| == 4 then 3 else |x.data|)] + x.data
  }

  predicate AllEncodable(xs: seq<Item>) { forall k :: 0 <= k < |xs| ==> xs[k].Encodable() }

  function Print(xs: seq<Item>): seq<byte>
    requires AllEncodable(xs)
  {
    if |xs| == 0 then [] else Encode(xs[0]) + Print(xs[1..])
  }

  lemma EncodeOne(x: Item)
    requires x.Encodable()
    ensures Items(Encode(x)) == [x] && Complete(Encode(x))
  {
    var b := Encode(x);
    PrefixFields(x.tag, TypeCode(x.kind), if |x.data| == 4 then 3 else |x.data|);
    assert DataLen(b[0]) == |x.data| && TypeOf(b[0]) == x.kind;
    assert b[0] != LONG_ITEM;
    assert ItemLen(b) == |b|;
    assert b[|b|..] == [] && b[1..ItemLen(b)] == x.data;
    assert b[0] / 16 == x.tag;
    assert Head(b) == [x];
    assert Items([]) == [] && Complete([]);
    assert Items(b) == Head(b) + Items(b[|b|..]);
  }

  /** Tokenising what was printed gives the items back, with nothing left over. */
  lemma {:induction false} ItemsOfPrint(xs: seq<Item>)
    requires AllEncodable(xs)
    ensures Items(Print(xs)) == xs && Complete(Print(xs))
    decreases |xs|
  {
    if |xs| > 0 {
      EncodeOne(xs[0]);
      ItemsOfPrint(xs[1..]);
      ItemsConcat(Encode(xs[0]), Print(xs[1..]));
    }
  }
}

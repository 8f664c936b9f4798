/** Where a field can be placed, read off the items: which items the layouts look at, and what they find there. */
module HidPlaces {
  import opened Bits
  import opened HidItems
  import opened HidWalk
  import opened HidOffsets
  import HidApps

  /** The Input item's data have the Constant flag clear. */
  predicate IsData(x: Item) { IsInput(x) && LeNat(x.data) % 2 == 0 }

  /** ... and the Variable flag set, or clear. */
  predicate HasVariable(x: Item) { LeNat(x.data) / 2 % 2 == 1 }

  /** The 32-bit usage of an axis: Generic Desktop X, Y and Wheel, Consumer AC Pan. */
  function AxisUsage(a: Axis): uint32 {
    match a case X => 0x01_0030 case Y => 0x01_0031 case Wheel => 0x01_0038 case HWheel => 0x0C_0238
  }

  /** Slot i of item k has the application, the usage and the shape of target t. */
  ghost predicate IsPlaceFor(xs: seq<Item>, k: nat, i: nat, t: Target) {
    && k < |xs| && IsData(xs[k])
    && var s := Run(INIT, xs[..k]); var g, l := s.g, s.l;
    match t
    case Ax(a) =>
      && HidApps.IsOpen(xs[..k], HidApps.MouseApp) && HasVariable(xs[k]) && g.usagePage != 0x09
      && i < g.reportCount && UsageForSlot(g, l, i) == AxisUsage(a) && g.reportSize != 0
    case Buttons =>
      && HidApps.IsOpen(xs[..k], HidApps.MouseApp) && HasVariable(xs[k]) && g.usagePage == 0x09 && i == 0
    case Modifiers =>
      && HidApps.IsOpen(xs[..k], HidApps.KeyboardApp) && HasVariable(xs[k]) && g.usagePage == 0x07 && i == 0
      && (if l.hasRange then l.usageMin == 0xE0 else |l.usages| > 0 && l.usages[0] % 0x1_0000 == 0xE0)
      && g.reportSize <= 1 && 1 <= g.reportCount <= 8
    case Keys =>
      && HidApps.IsOpen(xs[..k], HidApps.KeyboardApp) && !HasVariable(xs[k]) && g.usagePage == 0x07 && i == 0
      && g.reportCount > 0
  }

  lemma AxisUsageIs(u: uint32, a: Axis)
    ensures IsAxis(u, a) <==> u == AxisUsage(a)
  {}

  lemma FlagsAre(x: Item)
    requires |x.data| <= 4
    ensures IsConstant(UnsignedItem(x.data)) <==> LeNat(x.data) % 2 == 1
    ensures IsVariable(UnsignedItem(x.data)) <==> LeNat(x.data) / 2 % 2 == 1
  {
    hide LeNat;
    assert Bit(LeNat(x.data), 1) == Bit(LeNat(x.data) / 2, 0);
  }

  /** The places the laws of offsets, disjointness and report ids speak of are these, as far as they fit 16 bits. */
  lemma PlacesAreItems(xs: seq<Item>, k: nat, i: nat, t: Target)
    ensures CarriesAt(xs, k, i, t)
            <==> IsPlaceFor(xs, k, i, t) && Place(Run(INIT, xs[..k]).g, BitsSince(xs[..k]), i, t).End() <= 0xFFFF
  {
    hide Run, LeNat, UsageForSlot, IsAxis, IsVariable, IsConstant, HidApps.IsOpen, Place, BitsSince;
    if k < |xs| {
      HidApps.LevelIff(xs[..k], HidApps.MouseApp);
      HidApps.LevelIff(xs[..k], HidApps.KeyboardApp);
      if IsInput(xs[k]) { FlagsAre(xs[k]); }
      if t.Ax? { AxisUsageIs(UsageForSlot(Run(INIT, xs[..k]).g, Run(INIT, xs[..k]).l, i), t.axis); }
    }
  }
}

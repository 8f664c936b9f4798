/** From the bytes a mouse sends to the motion that is published, through the whole central. */
module EndToEnd {
  import opened Bits
  import opened HidTypes
  import opened HidDecode
  import opened HidDecodeLaws
  import opened HidPack
  import opened HidWalk
  import opened HogWorld
  import opened HogMapLaws
  import opened HogIsolation
  import HidItems
  import HidDisjoint
  import HidReportIds
  import HidMouse

  /** The central's layout for a peer that prints a mouse's descriptor is that mouse's layout. */
  lemma LayoutOfMouse(p: Peer, m: HidMouse.Mouse)
    requires m.Valid() && p.reportMap == HidMouse.Descriptor(m)
    ensures LayoutOf(p) == HidMouse.MouseLayout(m)
  {
    hide ParsePointer, HidMouse.Descriptor, HidMouse.MouseLayout;
    HidMouse.DescriptorLength(m);
    HidMouse.MouseDescriptorParses(m);
  }

  /**
   * Whatever connects, disconnects, fails or interleaves: if the notification behind a published report
   * carries the values v packed in the order of its peer's own descriptor, then v is what was published,
   * even though the queue kept only 32 bytes of it.
   */
  lemma PublishedIsWhatTheMouseSent(ws: seq<World>, es: seq<Event>, i: nat, k: nat,
                                    m: HidMouse.Mouse, v: HidMouse.Values, trailing: seq<byte>)
    requires IsRun(ws, es) && i < |ws| && k < |ws[i].log| && ws[i].log[k].note < |ws[i].notes|
    requires m.Valid() && v.Fit(m)
    requires var n := ws[i].notes[ws[i].log[k].note];
             n.peer.reportMap == HidMouse.Descriptor(m) && n.data == Payload(HidMouse.MouseCells(m, v)) + trailing
    ensures HidMouse.MaskOf(v.fields) < 0x1_0000
    ensures ws[i].log[k].report == PointerReport(v.dx, v.dy, v.wheel, v.pan, HidMouse.MaskOf(v.fields))
  {
    hide LayoutOf, HidMouse.Descriptor, HidMouse.MouseLayout, HidMouse.MouseCells, HidMouse.MaskOf, Decode, IsRun, Cut;
    NeverCrossesConnections(ws, es, i);
    var n := ws[i].notes[ws[i].log[k].note];
    assert Honest(ws[i].notes, ws[i].log[k]);
    LayoutOfMouse(n.peer, m);
    CutIsHarmless(HidMouse.MouseLayout(m), n.data);
    HidMouse.MouseReportDecodes(m, v, trailing);
  }

  /**
   * Unless one report was subscribed, a published report is the one whose id is in force at the first item
   * of its peer's own map that settles the pointer's id.
   */
  lemma PublishedIdIsTheMaps(ws: seq<World>, es: seq<Event>, i: nat, k: nat) returns (item: nat)
    requires IsRun(ws, es) && i < |ws| && k < |ws[i].log| && ws[i].log[k].note < |ws[i].notes|
    requires ws[i].log[k].subCount != 1
    ensures var n := ws[i].notes[ws[i].log[k].note]; var xs := HidItems.Items(MapHead(n.peer));
            if exists j: nat :: HidReportIds.SettlesAt(xs, j, HidDisjoint.Pointer)
            then HidReportIds.FirstSettler(xs, item, HidDisjoint.Pointer) && n.reportId == HidReportIds.IdAt(xs, item)
            else n.reportId == 0
  {
    hide HidReportIds.SettlesAt, HidReportIds.FirstSettler, HidItems.Items, ParsePointer, Decode, IsRun, Cut;
    NeverCrossesConnections(ws, es, i);
    var n := ws[i].notes[ws[i].log[k].note];
    assert Honest(ws[i].notes, ws[i].log[k]);
    item := HidReportIds.ReportIdExact(MapHead(n.peer), HidDisjoint.Pointer);
  }
}

/** When a layout is in force: a function of the peer's table, its Report Map and whether that could be read. */
module HogLayout {
  import opened Bits
  import opened HidWalk
  import opened HidDecode
  import opened HidDecodeLaws
  import opened HogSteps
  import opened HogWorld
  import opened HogLaws
  import opened HogMapLaws
  import opened HogDiscovery

  /** The peer has a Report Map, it could be read, and its first 512 bytes describe a pointer. */
  predicate MapGives(p: Peer, f: Faults) {
    HasHids(p) && !f.noMap && MapHandle(p).Some? && LayoutOf(p).valid
  }

  /** Discovery is past the Report Map. */
  predicate PastMap(c: Central) { !c.disc.HidsPrimary? && !c.disc.ReportMapChrc? }

  /** Past the map the flag says what the map gives; before, and without a secured link, it is off. */
  predicate LayoutTracks(w: World) {
    w.c.layoutValid <==> w.started && PastMap(w.c) && MapGives(w.peer, w.faults)
  }

  // ------------------------------------------ what leaves the flag and the map fault alone

  lemma StartersPast(c: Central, api: Api)
    ensures StartReportDiscovery(c, api).layoutValid == c.layoutValid && PastMap(StartReportDiscovery(c, api))
    ensures SubscribePending(c, api).layoutValid == c.layoutValid && PastMap(SubscribePending(c, api))
    ensures c.idx < |c.pending| ==> DiscoverCcc(c, api).layoutValid == c.layoutValid && PastMap(DiscoverCcc(c, api))
  {
    hide WindowLo, WindowHi;
  }

  /** Past the map, a discovery answer changes neither. */
  lemma AnswerPast(c: Central, attr: Option<Attr>, api: Api)
    requires PastMap(c)
    ensures var d := Deliver(c, attr, api); d.layoutValid == c.layoutValid && PastMap(d)
  {
    hide StartReportDiscovery, SubscribePending, DiscoverCcc, Subscribe, AddReport;
    if Wiring(c) && Expected(c, attr) {
      StartersPast(c.(idx := 0), api);
      StartersPast(c, api);
      StartersPast(c.(idx := c.idx + 1), api);
      StartersPast(c.(reportId := 0), api);
      if attr.Some? && c.disc.Ccc? {
        SubscribePast(c, attr.value.handle, api);
        var s := Subscribe(c, attr.value.handle, api);
        StartersPast(s.(idx := s.idx + 1), api);
      } else if attr.Some? && c.disc.ReportChrc? {
        AddPast(c, attr.value);
      }
    }
  }

  lemma SubscribePast(c: Central, handle: uint16, api: Api)
    requires c.idx < |c.pending|
    ensures Subscribe(c, handle, api).layoutValid == c.layoutValid
  {}

  lemma AddPast(c: Central, a: Attr)
    requires a.Chrc?
    ensures AddReport(c, a.valueHandle, a.notify).layoutValid == c.layoutValid && AddReport(c, a.valueHandle, a.notify).disc == c.disc
  {}

  lemma FaultsPast(f: Faults, c: Central, pos: nat, attr: Option<Attr>, hit: bool, api: Api)
    requires PastMap(c)
    ensures Skipped(f, c, hit, api).noMap == f.noMap && Broken(f, c, pos).noMap == f.noMap && Refused(f, c, attr, api).noMap == f.noMap
  {}

  // ------------------------------------------------------------ an answer arrives

  /** What a discovery answer without further ado leaves: the world after it, as far as the layout goes. */
  function After(w: World, attr: Option<Attr>, api: Api, g: Faults): World
    requires |w.c.procs| > 0
  {
    var d := Deliver(Finish(w.c), attr, api);
    w.(c := d, faults := Skipped(g, w.c, attr.Some?, api))
  }

  /** Past the map, an answer changes neither the flag nor what is known of the map. */
  lemma PastLayout(w: World, attr: Option<Attr>, api: Api, g: Faults)
    requires LayoutTracks(w) && PastMap(w.c) && |w.c.procs| > 0 && g.noMap == w.faults.noMap
    ensures LayoutTracks(After(w, attr, api, g))
  {
    hide Deliver, Skipped, LayoutOf, MapHandle, HasHids;
    AnswerPast(Finish(w.c), attr, api);
    FaultsPast(g, w.c, 0, attr, attr.Some?, api);
  }

  /** The first answer finds the service and goes on to its map, or ends discovery without one. */
  lemma HidsLayout(w: World, attr: Option<Attr>, api: Api, g: Faults)
    requires LayoutTracks(w) && w.c.disc.HidsPrimary? && |w.c.procs| > 0 && (attr.Some? ==> attr.value.Service?)
    ensures LayoutTracks(After(w, attr, api, g))
  {
    hide LayoutOf, MapHandle, HasHids;
  }

  /** Nothing found means there is no map; something found is read, or discovery goes on without. */
  lemma MapPassLayout(w: World, attr: Option<Attr>, api: Api, g: Faults)
    requires LayoutTracks(w) && w.c.disc.ReportMapChrc? && |w.c.procs| > 0 && (attr.Some? ==> attr.value.Chrc?)
    requires attr.Some? && !api.read ==> g.noMap
    requires attr.None? && HasHids(w.peer) ==> g.noMap || MapHandle(w.peer).None?
    ensures LayoutTracks(After(w, attr, api, g))
  {
    hide StartReportDiscovery, LayoutOf, MapHandle, HasHids;
    StartersPast(Finish(w.c), api);
    StartersPast(Finish(w.c).(rm := []), api);
  }

  /** Before the map nothing has failed, and the pass that seeks it is the table's. */
  lemma BeforeMap(w: World)
    requires Sane(w) && Tracks(w) && |w.c.procs| > 0
    ensures w.c.disc.ReportMapChrc? ==>
              w.faults == NO_FAULTS && HasHids(w.peer)
              && (if w.c.procs[0].ReadMap? then MapHandle(w.peer).Some? else w.c.procs[0] == MapPass(w.peer) && w.pos == 0)
    ensures w.c.disc.HidsPrimary? ==> w.c.procs[0] == HIDS_PASS
  {
    hide HasHids, MapHandle, MapPass, Reports, SubsFor, WiredUpTo;
    StartedIfBusy(w);
  }

  lemma NextLayout(w: World, j: nat, api: Api)
    requires Enabled(w, DiscoverNext(api)) && Sane(w) && Tracks(w) && LayoutTracks(w)
    requires j == NextMatch(w.peer.attrs, w.c.procs[0], w.pos)
    requires !(j < |w.peer.attrs| && w.c.disc.ReportChrc?)
    ensures var attr := if j < |w.peer.attrs| then Some(w.peer.attrs[j]) else None;
            LayoutTracks(After(w, attr, api, Refused(w.faults, w.c, attr, api)))
  {
    hide LayoutTracks, After, Sane, Tracks, HasHids, NextMatch;
    var attr := if j < |w.peer.attrs| then Some(w.peer.attrs[j]) else None;
    BeforeMap(w);
    if PastMap(w.c) {
      FaultsPast(w.faults, w.c, 0, attr, attr.Some?, api);
      PastLayout(w, attr, api, Refused(w.faults, w.c, attr, api));
    } else if w.c.disc.HidsPrimary? {
      HidsLayout(w, attr, api, Refused(w.faults, w.c, attr, api));
    } else {
      MapPassLayout(w, attr, api, Refused(w.faults, w.c, attr, api));
    }
  }

  lemma BrokenLayout(w: World, api: Api)
    requires Sane(w) && LayoutTracks(w) && |w.c.procs| > 0
    ensures LayoutTracks(After(w, None, api, Broken(w.faults, w.c, w.pos)))
  {
    hide LayoutTracks, After, Sane, HasHids;
    var g := Broken(w.faults, w.c, w.pos);
    if PastMap(w.c) {
      FaultsPast(w.faults, w.c, w.pos, None, false, api);
      PastLayout(w, None, api, g);
    } else if w.c.disc.HidsPrimary? {
      HidsLayout(w, None, api, g);
    } else {
      MapPassLayout(w, None, api, g);
    }
  }

  /** Another characteristic joins the list. */
  lemma ListLayout(w: World, attr: Option<Attr>, api: Api)
    requires LayoutTracks(w) && w.c.disc.ReportChrc?
    ensures LayoutTracks(w.(c := Deliver(w.c, attr, api)))
  {
    hide Deliver, LayoutOf, MapHandle, HasHids;
    AnswerPast(w.c, attr, api);
  }

  /** The law speaks of these parts of the world alone. */
  lemma LayoutOnly(w: World, t: World)
    requires LayoutTracks(w) && t.c == w.c && t.started == w.started && t.peer == w.peer && t.faults == w.faults
    ensures LayoutTracks(t)
  {
    hide LayoutOf, MapHandle, HasHids;
  }

  lemma DiscoverLayout(w: World, e: Event)
    requires Enabled(w, e) && Sane(w) && Tracks(w) && LayoutTracks(w) && (e.DiscoverNext? || e.DiscoverAborted?)
    ensures LayoutTracks(Next(w, e))
  {
    hide Deliver, Skipped, Refused, Broken, LayoutTracks, Shaped, Tracks, NextMatch;
    if e.DiscoverAborted? {
      BrokenLayout(w, e.api);
      LayoutOnly(After(w, None, e.api, Broken(w.faults, w.c, w.pos)), Next(w, e));
    } else {
      var j := NextMatch(w.peer.attrs, w.c.procs[0], w.pos);
      var attr := if j < |w.peer.attrs| then Some(w.peer.attrs[j]) else None;
      if attr.Some? && w.c.disc.ReportChrc? {
        ListLayout(w, attr, e.api);
        LayoutOnly(w.(c := Deliver(w.c, attr, e.api)), Next(w, e));
      } else {
        NextLayout(w, j, e.api);
        LayoutOnly(After(w, attr, e.api, Refused(w.faults, w.c, attr, e.api)), Next(w, e));
      }
    }
  }

  /** At the end of the read the flag is set exactly if the buffer, the head of the peer's map, describes a pointer. */
  lemma MapEndLayout(w: World, r: MapRead, api: Api)
    requires Sane(w) && Tracks(w) && MapOk(w) && LayoutTracks(w) && |w.c.procs| > 0 && w.c.procs[0].ReadMap?
    requires r.MapError? || (r.MapDone? && w.sent == w.peer.reportMap)
    ensures LayoutTracks(DoMapEnd(w, r, api))
  {
    hide StartReportDiscovery, ParsePointer, MapHandle, HasHids, Discovered, Take;
    StartedIfBusy(w);
    MapReadState(w);
    BeforeMap(w);
    var e := Finish(w.c);
    var l := ParsePointer(e.rm);
    StartersPast(e, api);
    StartersPast(e.(layout := l, layoutValid := e.layoutValid || l.valid), api);
  }

  lemma RefAnswerLayout(w: World, data: Option<seq<byte>>, api: Api)
    requires Enabled(w, RefAnswer(data, api)) && Sane(w) && LayoutTracks(w)
    ensures LayoutTracks(Next(w, RefAnswer(data, api)))
  {
    hide DiscoverCcc, Skipped, Broken, LayoutOf, MapHandle, HasHids;
    RefReadState(w);
    var e := Finish(w.c).(reportId := if data.Some? && |data.value| >= 1 then data.value[0] else 0);
    StartersPast(e, api);
    FaultsPast(w.faults, w.c, 0, None, false, api);
    FaultsPast(Broken(w.faults, w.c, 0), w.c, 0, None, false, api);
  }

  lemma OtherLayout(w: World, e: Event)
    requires Enabled(w, e) && Sane(w) && LayoutTracks(w) && (!IsGatt(e) || e.MapChunk?)
    ensures LayoutTracks(Next(w, e))
  {
    hide Published, Cut, LayoutOf, MapHandle, HasHids, Fitting;
  }

  lemma StepLayout(w: World, e: Event)
    requires Enabled(w, e) && Sane(w) && Tracks(w) && MapOk(w) && LayoutTracks(w)
    ensures LayoutTracks(Next(w, e))
  {
    hide Sane, Tracks, MapOk, LayoutTracks, DoMapEnd;
    match e {
      case DiscoverNext(_) => DiscoverLayout(w, e);
      case DiscoverAborted(_) => DiscoverLayout(w, e);
      case MapEnd(api) => MapEndLayout(w, MapDone, api);
      case MapBroken(api) => MapEndLayout(w, MapError, api);
      case RefAnswer(data, api) => RefAnswerLayout(w, data, api);
      case _ => OtherLayout(w, e);
    }
  }

  /**
   * In every run a layout is in force exactly when discovery is past the map on a secured link, the peer's
   * first HID service has a Report Map that could be sought and read, and its first 512 bytes describe a
   * pointer.
   */
  lemma {:induction false} LayoutInForceIff(ws: seq<World>, es: seq<Event>, i: nat)
    requires IsRun(ws, es) && i < |ws|
    ensures LayoutTracks(ws[i])
    decreases i
  {
    hide Next, Enabled, Sane, Tracks, MapOk, LayoutTracks;
    if i == 0 {
      NoLayoutAtBoot(ws[0]);
    } else {
      LayoutInForceIff(ws, es, i - 1);
      RunSane(ws, es, i - 1);
      RunTracks(ws, es, i - 1);
      LayoutIsPeersOwn(ws, es, i - 1);
      StepLayout(ws[i - 1], es[i - 1]);
    }
  }

  lemma NoLayoutAtBoot(w: World)
    requires exists scan :: w == Boot(scan)
    ensures LayoutTracks(w)
  {}
}

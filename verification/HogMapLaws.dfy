/** Discovery ends within a bound, and the layout in force is the parse of the connected peer's own map. */
module HogMapLaws {
  import opened Bits
  import opened HidTypes
  import opened HidWalk
  import opened HidDecode
  import opened HidDecodeLaws
  import opened HogSteps
  import opened HogWorld
  import opened HogLaws

  // --------------------------------------------------------------- termination

  /** The end of the report pass, then at most three answers for each of twelve reports, and one to spare. */
  const WIRING_MAX := 38

  function Left(total: nat, done: nat): nat { if done <= total then total - done else 0 }

  /** How many more answers of the GATT stack discovery can take. */
  function Fuel(w: World): nat {
    var c := w.c;
    var passes := WIRING_MAX + |w.peer.attrs|;
    if c.procs == [] then 0
    else match c.disc
      case Idle => 0
      case HidsPrimary => 3 + |w.peer.reportMap| + passes
      case ReportMapChrc => if c.procs[0].ReadMap? then 1 + Left(|w.peer.reportMap|, |w.sent|) + passes else 2 + |w.peer.reportMap| + passes
      case ReportChrc => WIRING_MAX + Left(|w.peer.attrs|, w.pos)
      case ReportRef => 3 * Left(|c.pending|, c.idx) + (if c.procs[0].ReadRef? then 0 else 1)
      case Ccc => if c.idx < |c.pending| then 3 * Left(|c.pending|, c.idx) - 1 else 0
  }

  // The fuel of a central that has just started its next procedure, with the map and table of w.

  lemma ReportPassFuel(c: Central, w: World, api: Api)
    requires Ready(c) && w.pos == 0
    ensures Fuel(w.(c := StartReportDiscovery(c, api))) <= WIRING_MAX + |w.peer.attrs|
  {}

  lemma CccFuel(c: Central, w: World, api: Api)
    requires Ready(c) && c.idx < |c.pending|
    ensures Fuel(w.(c := DiscoverCcc(c, api))) <= 3 * (|c.pending| - c.idx) - 1
  {
    hide WindowLo, WindowHi;
  }

  lemma PendingFuel(c: Central, w: World, api: Api)
    requires Ready(c) && c.idx <= |c.pending|
    ensures Fuel(w.(c := SubscribePending(c, api))) <= 3 * (|c.pending| - c.idx) + 1
  {
    hide WindowLo, WindowHi;
  }

  lemma EndBurns(w: World, api: Api, t: World)
    requires Shaped(w.c) && |w.c.procs| > 0 && w.c.procs[0].Discover? && w.pos <= |w.peer.attrs| && Wiring(Finish(w.c))
    requires t == w.(c := PassEnd(Finish(w.c), api), pos := 0, sent := [], faults := t.faults, refValue := t.refValue)
    ensures Fuel(t) < Fuel(w)
  {
    hide StartReportDiscovery, SubscribePending, DiscoverCcc;
    var f := Finish(w.c);
    assert Ready(f);
    match w.c.disc {
      case HidsPrimary =>
      case ReportMapChrc => ReportPassFuel(f, t, api);
      case ReportChrc => PendingFuel(f.(idx := 0), t, api);
      case ReportRef => CccFuel(f, t, api);
      case Ccc => PendingFuel(f.(idx := f.idx + 1), t, api);
    }
  }

  lemma HitBurns(w: World, a: Attr, api: Api, t: World)
    requires Shaped(w.c) && |w.c.procs| > 0 && w.c.procs[0].Discover? && w.pos <= |w.peer.attrs|
    requires !w.c.disc.ReportChrc? && Matches(a, w.c.procs[0]) && Wiring(Finish(w.c)) && Expected(Finish(w.c), Some(a))
    requires t == w.(c := Found(Finish(w.c), a, api), pos := 0, sent := [], faults := t.faults, refValue := t.refValue)
    ensures Fuel(t) < Fuel(w)
  {
    hide StartReportDiscovery, SubscribePending, DiscoverCcc, Subscribe;
    var f := Finish(w.c);
    assert Ready(f);
    match w.c.disc {
      case HidsPrimary =>
      case ReportMapChrc => ReportPassFuel(f.(rm := []), t, api);
      case ReportRef => CccFuel(f.(reportId := 0), t, api);
      case Ccc =>
        SubscribeShaped(f, a.handle, api);
        var s := Subscribe(f, a.handle, api);
        PendingFuel(s.(idx := s.idx + 1), t, api);
    }
  }

  lemma AnswerBurns(w: World, attr: Option<Attr>, api: Api, t: World)
    requires Shaped(w.c) && |w.c.procs| > 0 && w.c.procs[0].Discover? && w.pos <= |w.peer.attrs|
    requires attr.Some? ==> !w.c.disc.ReportChrc? && Matches(attr.value, w.c.procs[0])
    requires t == w.(c := Deliver(Finish(w.c), attr, api), pos := 0, sent := [], faults := t.faults, refValue := t.refValue)
    ensures Fuel(t) < Fuel(w)
  {
    hide PassEnd, Found, Shaped, Matches, Finish, Wiring, Fuel;
    AnswerShaped(w.c, attr, api);
    if attr.None? { EndBurns(w, api, t); } else { HitBurns(w, attr.value, api, t); }
  }

  /** Every answer of the GATT stack brings discovery strictly closer to its end. */
  lemma DiscoveryAdvances(w: World, e: Event)
    requires Enabled(w, e) && Sane(w) && IsGatt(e)
    ensures Fuel(Next(w, e)) < Fuel(w)
  {
    match e {
      case DiscoverNext(api) => DiscoverBurns(w, api);
      case DiscoverAborted(api) => AnswerBurns(w, None, api, Next(w, e));
      case _ => ReadBurns(w, e);
    }
  }

  lemma DiscoverBurns(w: World, api: Api)
    requires Enabled(w, DiscoverNext(api)) && Sane(w)
    ensures Fuel(Next(w, DiscoverNext(api))) < Fuel(w)
  {
    hide Deliver, Skipped, Refused, Broken, NextMatch;
    var j := NextMatch(w.peer.attrs, w.c.procs[0], w.pos);
    var t := Next(w, DiscoverNext(api));
    if j == |w.peer.attrs| {
      AnswerBurns(w, None, api, t);
    } else if w.c.disc.ReportChrc? {
      FoundShaped(w.c, w.peer.attrs[j], api);
    } else {
      AnswerBurns(w, Some(w.peer.attrs[j]), api, t);
    }
  }

  lemma ReadBurns(w: World, e: Event)
    requires Enabled(w, e) && Sane(w) && (e.MapChunk? || e.MapEnd? || e.MapBroken? || e.RefAnswer?)
    ensures Fuel(Next(w, e)) < Fuel(w)
  {
    hide StartReportDiscovery, DiscoverCcc, ParsePointer;
    var t := Next(w, e);
    match e {
      case MapChunk(n) =>
      case MapEnd(api) =>
        var l := ParsePointer(w.c.rm);
        ReportPassFuel(Finish(w.c).(layout := l, layoutValid := w.c.layoutValid || l.valid), t, api);
      case MapBroken(api) => ReportPassFuel(Finish(w.c), t, api);
      case RefAnswer(data, api) =>
        CccFuel(Finish(w.c).(reportId := if data.Some? && |data.value| >= 1 then data.value[0] else 0), t, api);
    }
  }

  /** Nothing but a new connection's security event feeds it. */
  lemma OthersDoNotFeed(w: World, e: Event)
    requires Enabled(w, e) && Sane(w) && !IsGatt(e) && !e.Secured?
    ensures Fuel(Next(w, e)) <= Fuel(w)
  {
    hide Published, Cut, Deliver, ReportMapRead;
  }

  /** GATT answers among the first n events. */
  function Answers(es: seq<Event>, n: nat): nat
    requires n <= |es|
  {
    if n == 0 then 0 else Answers(es, n - 1) + (if IsGatt(es[n - 1]) then 1 else 0)
  }

  /**
   * From any world on, discovery takes at most Fuel more answers, however they interleave with
   * everything else, until security is established anew: for a whole discovery, the map's length plus
   * the table's length plus 41.
   */
  lemma {:induction false} DiscoveryBounded(ws: seq<World>, es: seq<Event>, i: nat, n: nat)
    requires IsRun(ws, es) && i <= n <= |es|
    requires forall k :: i <= k < n ==> !es[k].Secured?
    ensures Answers(es, n) - Answers(es, i) + Fuel(ws[n]) <= Fuel(ws[i])
    ensures Fuel(ws[i]) <= |ws[i].peer.reportMap| + |ws[i].peer.attrs| + 41
    decreases n
  {
    hide Next, Enabled, Fuel, Sane, IsGatt;
    RunSane(ws, es, i);
    FuelBound(ws[i]);
    if i < n {
      DiscoveryBounded(ws, es, i, n - 1);
      RunSane(ws, es, n - 1);
      if IsGatt(es[n - 1]) {
        DiscoveryAdvances(ws[n - 1], es[n - 1]);
      } else {
        OthersDoNotFeed(ws[n - 1], es[n - 1]);
      }
    }
  }

  lemma FuelBound(w: World)
    requires Sane(w)
    ensures Fuel(w) <= |w.peer.reportMap| + |w.peer.attrs| + 41
  {}

  // ------------------------------------------------------------ the report map

  /** The first 512 bytes of the peer's map: all the buffer ever holds. */
  function MapHead(p: Peer): seq<byte> { Take(p.reportMap, REPORT_MAP_MAX) }

  /** The layout of a peer: the parse of the head of its own report map. */
  function LayoutOf(p: Peer): PointerLayout { ParsePointer(MapHead(p)) }

  /** The buffer is the head of what was read so far, and a valid layout is the parse of this peer's map. */
  predicate MapOk(w: World) {
    && (|w.c.procs| > 0 && w.c.procs[0].ReadMap? ==> w.sent <= w.peer.reportMap && w.c.rm == Take(w.sent, REPORT_MAP_MAX))
    && (w.c.layoutValid ==> w.c.layout == ParsePointer(MapHead(w.peer)) && w.c.layout.valid)
  }

  predicate SameLayout(c: Central, d: Central) { d.layout == c.layout && d.layoutValid == c.layoutValid }

  predicate Reading(d: Central) { |d.procs| > 0 && d.procs[0].ReadMap? }

  lemma StartersMap(c: Central, api: Api)
    requires c.procs == []
    ensures SameLayout(c, StartReportDiscovery(c, api)) && !Reading(StartReportDiscovery(c, api))
    ensures SameLayout(c, SubscribePending(c, api)) && !Reading(SubscribePending(c, api))
    ensures c.idx < |c.pending| ==> SameLayout(c, DiscoverCcc(c, api)) && !Reading(DiscoverCcc(c, api))
  {
    hide WindowLo, WindowHi;
  }

  lemma SubscribeMap(c: Central, handle: uint16, api: Api)
    requires c.idx < |c.pending|
    ensures SameLayout(c, Subscribe(c, handle, api)) && Subscribe(c, handle, api).procs == c.procs
  {}

  lemma EndMap(c: Central, api: Api)
    requires c.procs == [] && Wiring(c)
    ensures var d := PassEnd(c, api); SameLayout(c, d) && !Reading(d)
  {
    hide StartReportDiscovery, SubscribePending, DiscoverCcc;
    StartersMap(c, api);
    StartersMap(c.(idx := 0), api);
    StartersMap(c.(idx := c.idx + 1), api);
  }

  lemma HitMap(c: Central, a: Attr, api: Api)
    requires c.procs == [] && Wiring(c) && Expected(c, Some(a))
    ensures var d := Found(c, a, api); SameLayout(c, d) && (Reading(d) ==> d.rm == [])
  {
    hide StartReportDiscovery, SubscribePending, DiscoverCcc, Subscribe, AddReport;
    match c.disc {
      case ReportMapChrc => StartersMap(c.(rm := []), api);
      case ReportChrc => AddMap(c, a);
      case ReportRef => StartersMap(c.(reportId := 0), api);
      case Ccc =>
        SubscribeMap(c, a.handle, api);
        var s := Subscribe(c, a.handle, api);
        StartersMap(s.(idx := s.idx + 1), api);
      case _ =>
    }
  }

  /** Discovery leaves the layout alone, and starts a map read only with an empty buffer. */
  lemma DeliverMap(c: Central, attr: Option<Attr>, api: Api)
    requires c.procs == []
    ensures var d := Deliver(c, attr, api); SameLayout(c, d) && (Reading(d) ==> d.rm == [])
  {
    hide PassEnd, Found;
    if Wiring(c) && Expected(c, attr) {
      if attr.None? { EndMap(c, api); } else { HitMap(c, attr.value, api); }
    }
  }

  lemma AddMap(c: Central, a: Attr)
    requires a.Chrc?
    ensures SameLayout(c, AddReport(c, a.valueHandle, a.notify)) && AddReport(c, a.valueHandle, a.notify).procs == c.procs
  {}

  lemma DiscoverMapOk(w: World, e: Event)
    requires Enabled(w, e) && Sane(w) && MapOk(w) && (e.DiscoverNext? || e.DiscoverAborted?)
    ensures MapOk(Next(w, e))
  {
    hide Deliver, Skipped, Refused, Broken, NextMatch, ParsePointer, Matches;
    if e.DiscoverAborted? {
      DeliverMap(Finish(w.c), None, e.api);
    } else {
      var j := NextMatch(w.peer.attrs, w.c.procs[0], w.pos);
      if j == |w.peer.attrs| {
        DeliverMap(Finish(w.c), None, e.api);
      } else if w.c.disc.ReportChrc? {
        FoundShaped(w.c, w.peer.attrs[j], e.api);
      } else {
        DeliverMap(Finish(w.c), Some(w.peer.attrs[j]), e.api);
      }
    }
  }

  /** Appending what fits keeps the buffer the head of what was read. */
  lemma ChunkKeepsHead(sent: seq<byte>, chunk: seq<byte>)
    ensures Take(sent, REPORT_MAP_MAX) + Fitting(Take(sent, REPORT_MAP_MAX), chunk) == Take(sent + chunk, REPORT_MAP_MAX)
  {}

  lemma ReadMapOk(w: World, e: Event)
    requires Enabled(w, e) && Sane(w) && MapOk(w) && (e.MapChunk? || e.MapEnd? || e.MapBroken? || e.RefAnswer?)
    ensures MapOk(Next(w, e))
  {
    hide ParsePointer, StartReportDiscovery, DiscoverCcc, Take, Fitting;
    match e {
      case MapChunk(n) =>
        ChunkKeepsHead(w.sent, w.peer.reportMap[|w.sent|..|w.sent| + n]);
      case MapEnd(api) =>
        var l := ParsePointer(w.c.rm);
        StartersMap(Finish(w.c).(layout := l, layoutValid := w.c.layoutValid || l.valid), api);
      case MapBroken(api) => StartersMap(Finish(w.c), api);
      case RefAnswer(data, api) =>
        StartersMap(Finish(w.c).(reportId := if data.Some? && |data.value| >= 1 then data.value[0] else 0), api);
    }
  }

  lemma QueueMapOk(w: World, e: Event)
    requires Enabled(w, e) && Sane(w) && MapOk(w) && (e.Notify? || e.TornDown? || e.DrainOne?)
    ensures MapOk(Next(w, e))
  {
    hide ParsePointer, Published, Cut, Take, Shaped;
  }

  lemma LinkMapOk(w: World, e: Event)
    requires Enabled(w, e) && Sane(w) && MapOk(w) && !IsGatt(e) && !e.Notify? && !e.TornDown? && !e.DrainOne?
    ensures MapOk(Next(w, e))
  {
    hide ParsePointer, Take;
  }

  lemma StepMapOk(w: World, e: Event)
    requires Enabled(w, e) && Sane(w) && MapOk(w)
    ensures MapOk(Next(w, e))
  {
    hide Next, Enabled, Sane, MapOk;
    match e {
      case DiscoverNext(_) => DiscoverMapOk(w, e);
      case DiscoverAborted(_) => DiscoverMapOk(w, e);
      case MapChunk(_) => ReadMapOk(w, e);
      case MapEnd(_) => ReadMapOk(w, e);
      case MapBroken(_) => ReadMapOk(w, e);
      case RefAnswer(_, _) => ReadMapOk(w, e);
      case Notify(_, _) => QueueMapOk(w, e);
      case TornDown(_) => QueueMapOk(w, e);
      case DrainOne => QueueMapOk(w, e);
      case _ => LinkMapOk(w, e);
    }
  }

  /**
   * For every way the peer's map is cut into chunks and every interleaving, the buffer holds the first
   * 512 bytes read so far, and a layout in force is a valid parse of the connected peer's own map.
   */
  lemma {:induction false} LayoutIsPeersOwn(ws: seq<World>, es: seq<Event>, i: nat)
    requires IsRun(ws, es) && i < |ws|
    ensures MapOk(ws[i]) && (ws[i].c.layoutValid ==> ws[i].up)
    decreases i
  {
    hide Next, Enabled, Sane, MapOk;
    RunSane(ws, es, i);
    if i == 0 {
      BootMapOk(ws[0]);
    } else {
      LayoutIsPeersOwn(ws, es, i - 1);
      RunSane(ws, es, i - 1);
      StepMapOk(ws[i - 1], es[i - 1]);
    }
    SaneLayout(ws[i]);
  }

  lemma BootMapOk(w: World)
    requires exists scan :: w == Boot(scan)
    ensures MapOk(w)
  {}

  lemma SaneLayout(w: World)
    requires Sane(w)
    ensures w.c.layoutValid ==> w.up
  {}

  /** When the read completes, the buffer is the first min(512, total) bytes of the map. */
  lemma MapCompletes(ws: seq<World>, es: seq<Event>, i: nat)
    requires IsRun(ws, es) && i < |es| && es[i].MapEnd?
    ensures ws[i].c.rm == MapHead(ws[i].peer)
    ensures ws[i + 1].c.layoutValid <==> ws[i].c.layoutValid || ParsePointer(MapHead(ws[i].peer)).valid
  {
    hide ParsePointer, Sane, Take;
    LayoutIsPeersOwn(ws, es, i);
    RunSane(ws, es, i);
    RmBound(ws[i]);
    assert ws[i + 1] == Next(ws[i], es[i]);
  }

  lemma RmBound(w: World)
    requires Sane(w)
    ensures |w.c.rm| <= REPORT_MAP_MAX
  {}
}

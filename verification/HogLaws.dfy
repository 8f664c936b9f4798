/** Laws of every run: the scanner is never lost, discovery never wedges, reports never cross connections. */
module HogLaws {
  import opened Bits
  import opened HidWalk
  import opened HidDecodeLaws
  import opened HogSteps
  import opened HogWorld

  // --------------------------------------------------- scanner and connection

  /** Exactly one of: a connection (attempt) exists, the scanner runs, a retry is scheduled. */
  predicate Attentive(c: Central) {
    (if c.conn.Some? then 1 else 0) + (if c.scanning then 1 else 0) + (if c.retry then 1 else 0) == 1
  }

  /** What the answers of the GATT stack leave alone: connection, scanner and report queue. */
  predicate SameLife(c: Central, d: Central) {
    d.conn == c.conn && d.scanning == c.scanning && d.retry == c.retry && d.queue == c.queue
  }

  lemma StartersKeepLife(c: Central, api: Api)
    ensures SameLife(c, StartReportDiscovery(c, api)) && SameLife(c, SubscribePending(c, api))
    ensures c.idx < |c.pending| ==> SameLife(c, DiscoverCcc(c, api))
  {
    hide WindowLo, WindowHi;
  }

  lemma SubscribeKeepsLife(c: Central, handle: uint16, api: Api)
    requires c.idx < |c.pending|
    ensures SameLife(c, Subscribe(c, handle, api))
  {}

  lemma EndKeepsLife(c: Central, api: Api)
    requires Wiring(c)
    ensures SameLife(c, PassEnd(c, api))
  {
    hide StartReportDiscovery, SubscribePending, DiscoverCcc;
    StartersKeepLife(c, api);
    StartersKeepLife(c.(idx := 0), api);
    StartersKeepLife(c.(idx := c.idx + 1), api);
  }

  lemma FoundKeepsLife(c: Central, a: Attr, api: Api)
    requires Wiring(c) && Expected(c, Some(a))
    ensures SameLife(c, Found(c, a, api))
  {
    hide StartReportDiscovery, SubscribePending, DiscoverCcc, Subscribe;
    StartersKeepLife(c.(rm := []), api);
    StartersKeepLife(c.(reportId := 0), api);
    if c.disc.Ccc? {
      SubscribeKeepsLife(c, a.handle, api);
      var s := Subscribe(c, a.handle, api);
      StartersKeepLife(s.(idx := s.idx + 1), api);
    }
  }

  lemma DeliverKeepsLife(c: Central, attr: Option<Attr>, api: Api)
    ensures SameLife(c, Deliver(c, attr, api))
  {
    hide PassEnd, Found;
    if Wiring(c) && Expected(c, attr) {
      if attr.None? { EndKeepsLife(c, api); } else { FoundKeepsLife(c, attr.value, api); }
    }
  }

  lemma ReadsKeepLife(c: Central, r: MapRead, data: Option<seq<byte>>, api: Api)
    ensures |c.rm| <= REPORT_MAP_MAX ==> SameLife(c, ReportMapRead(c, r, api))
    ensures c.idx < |c.pending| ==> SameLife(c, ReportRefRead(c, data, api))
  {
    hide ParsePointer, Fitting, StartReportDiscovery, DiscoverCcc;
    StartersKeepLife(c, api);
    if |c.rm| <= REPORT_MAP_MAX {
      var l := ParsePointer(c.rm);
      StartersKeepLife(c.(layout := l, layoutValid := c.layoutValid || l.valid), api);
    }
    StartersKeepLife(c.(reportId := if data.Some? && |data.value| >= 1 then data.value[0] else 0), api);
  }

  /** Scanner, connection, link and histories are the same. */
  predicate SameOutside(w: World, t: World) {
    && SameLife(w.c, t.c)
    && t.up == w.up && t.started == w.started && t.epoch == w.epoch && t.peer == w.peer
    && t.tags == w.tags && t.notes == w.notes && t.log == w.log
  }

  lemma FinishKeepsLife(c: Central, d: Central)
    requires |c.procs| > 0 && SameLife(Finish(c), d)
    ensures SameLife(c, d)
  {}

  lemma DiscoverNextOutside(w: World, api: Api)
    requires |w.c.procs| > 0
    ensures SameOutside(w, DoDiscoverNext(w, api))
  {
    hide Deliver, NextMatch, Skipped, Refused, SameLife, Finish;
    if w.pos <= |w.peer.attrs| {
      var j := NextMatch(w.peer.attrs, w.c.procs[0], w.pos);
      var attr := if j < |w.peer.attrs| then Some(w.peer.attrs[j]) else None;
      DeliverKeepsLife(w.c, attr, api);
      DeliverKeepsLife(Finish(w.c), attr, api);
      FinishKeepsLife(w.c, Deliver(Finish(w.c), attr, api));
      SameLifeReflexive(w.c);
    } else {
      SameLifeReflexive(w.c);
    }
  }

  lemma SameLifeReflexive(c: Central)
    ensures SameLife(c, c)
  {}

  /** No answer of the GATT stack touches scanner or connection. */
  lemma GattKeepsLife(w: World, e: Event)
    requires Enabled(w, e) && IsGatt(e)
    ensures SameOutside(w, Next(w, e))
  {
    hide Deliver, ReportMapRead, ReportRefRead, DoDiscoverNext;
    match e {
      case DiscoverNext(api) => DiscoverNextOutside(w, api);
      case DiscoverAborted(api) => DeliverKeepsLife(Finish(w.c), None, api);
      case MapChunk(n) =>
        ReadsKeepLife(w.c, Chunk(w.peer.reportMap[|w.sent|..|w.sent| + n]), None, Api(true, true, true, true, true, Subscribed));
      case MapEnd(api) => ReadsKeepLife(Finish(w.c), MapDone, None, api);
      case MapBroken(api) => ReadsKeepLife(Finish(w.c), MapError, None, api);
      case RefAnswer(data, api) => ReadsKeepLife(Finish(w.c), MapDone, data, api);
    }
  }

  lemma StepAttentive(w: World, e: Event)
    requires Enabled(w, e) && Attentive(w.c)
    ensures Attentive(Next(w, e).c)
  {
    hide Published, Cut, DoDiscoverNext, Deliver, ReportMapRead, ReportRefRead;
    if IsGatt(e) { hide Next; GattKeepsLife(w, e); }
  }

  /** Never deaf, never scanning while connected, in every world of every run. */
  lemma {:induction false} NeverDeaf(ws: seq<World>, es: seq<Event>, i: nat)
    requires IsRun(ws, es) && i < |ws|
    ensures Attentive(ws[i].c)
    decreases i
  {
    hide Next, Enabled;
    if i > 0 {
      NeverDeaf(ws, es, i - 1);
      StepAttentive(ws[i - 1], es[i - 1]);
    }
  }

  // -------------------------------------------------------- shape of discovery

  const HIDS_PASS := Discover(Primary, UUID_HIDS, FIRST_HANDLE, LAST_HANDLE)

  /** The outstanding procedure fits the discovery state, and the indices are ordered. */
  predicate Shaped(c: Central) {
    && |c.subs| <= c.idx <= |c.pending| <= MAX_REPORTS
    && |c.rm| <= REPORT_MAP_MAX && |c.queue| <= QUEUE_MAX
    && match c.disc
       case Idle => c.procs == []
       case HidsPrimary => (c.procs == [] || c.procs == [HIDS_PASS]) && c.pending == [] && !c.layoutValid
       case ReportMapChrc => |c.procs| == 1 && (c.procs[0].ReadMap? || (c.procs[0].Discover? && c.procs[0].kind.Characteristic?)) && c.pending == []
       case ReportChrc => |c.procs| == 1 && c.procs[0].Discover? && c.procs[0].kind.Characteristic? && c.idx == 0
       case ReportRef => |c.procs| == 1 && (c.procs[0].ReadRef? || (c.procs[0].Discover? && c.procs[0].kind.Descriptor?)) && c.idx < |c.pending|
       case Ccc => |c.procs| == 1 && c.procs[0].Discover? && c.procs[0].kind.Descriptor? && c.idx < |c.pending|
  }

  /** Shaped, and nothing of a peer is kept without a secured link. */
  predicate Sane(w: World) {
    && Shaped(w.c)
    && w.pos <= |w.peer.attrs| && (w.pos > 0 ==> w.c.disc.ReportChrc?)
    && |w.tags| == |w.c.queue|
    && (w.started ==> w.up) && (w.up ==> w.c.conn.Some?)
    && (w.c.conn.Some? ==> w.c.conn.value == w.epoch)
    && (!w.started ==> w.c.disc.Idle? && w.c.pending == [] && w.c.queue == [] && !w.c.layoutValid)
  }

  /** No procedure is outstanding and the buffers are within bounds: a callback may start the next one. */
  predicate Ready(c: Central) {
    c.procs == [] && |c.rm| <= REPORT_MAP_MAX && |c.queue| <= QUEUE_MAX
  }

  lemma ReportPassShaped(c: Central, api: Api)
    requires Ready(c)
    ensures Shaped(StartReportDiscovery(c, api))
    ensures StartReportDiscovery(c, api).queue == c.queue
  {}

  lemma CccShaped(c: Central, api: Api)
    requires Ready(c) && |c.subs| <= c.idx < |c.pending| <= MAX_REPORTS
    ensures Shaped(DiscoverCcc(c, api)) && DiscoverCcc(c, api).queue == c.queue
    ensures DiscoverCcc(c, api).disc.ReportChrc? == false
  {}

  lemma PendingShaped(c: Central, api: Api)
    requires Ready(c) && |c.subs| <= c.idx <= |c.pending| <= MAX_REPORTS
    ensures Shaped(SubscribePending(c, api)) && SubscribePending(c, api).queue == c.queue
    ensures SubscribePending(c, api).disc.ReportChrc? == false
  {}

  lemma SubscribeShaped(c: Central, handle: uint16, api: Api)
    requires Ready(c) && |c.subs| <= c.idx < |c.pending| <= MAX_REPORTS
    ensures var s := Subscribe(c, handle, api);
            && Ready(s) && |s.subs| <= s.idx + 1 && s.idx == c.idx && s.pending == c.pending && s.queue == c.queue
  {}

  lemma EndShaped(c: Central, api: Api)
    requires Shaped(c) && |c.procs| > 0
    ensures Wiring(Finish(c)) && Shaped(PassEnd(Finish(c), api)) && PassEnd(Finish(c), api).queue == c.queue
  {
    hide StartReportDiscovery, SubscribePending, DiscoverCcc;
    var f := Finish(c);
    assert Ready(f);
    match c.disc {
      case ReportMapChrc => ReportPassShaped(f, api);
      case ReportChrc => PendingShaped(f.(idx := 0), api);
      case ReportRef => CccShaped(f, api);
      case Ccc => PendingShaped(f.(idx := f.idx + 1), api);
      case _ =>
    }
  }

  lemma HitShaped(c: Central, a: Attr, api: Api)
    requires Shaped(c) && |c.procs| > 0 && c.procs[0].Discover? && !c.disc.ReportChrc? && Matches(a, c.procs[0])
    ensures Wiring(Finish(c)) && Expected(Finish(c), Some(a))
    ensures Shaped(Found(Finish(c), a, api)) && Found(Finish(c), a, api).queue == c.queue
  {
    hide StartReportDiscovery, SubscribePending, DiscoverCcc, Subscribe;
    var f := Finish(c);
    assert Ready(f);
    match c.disc {
      case ReportMapChrc => ReportPassShaped(f.(rm := []), api);
      case ReportRef => CccShaped(f.(reportId := 0), api);
      case Ccc =>
        SubscribeShaped(f, a.handle, api);
        var s := Subscribe(f, a.handle, api);
        PendingShaped(s.(idx := s.idx + 1), api);
      case _ =>
    }
  }

  /** A discovery answer that ends its pass keeps the shape, and the callback's casts are safe. */
  lemma AnswerShaped(c: Central, attr: Option<Attr>, api: Api)
    requires Shaped(c) && |c.procs| > 0 && c.procs[0].Discover?
    requires attr.Some? ==> !c.disc.ReportChrc? && Matches(attr.value, c.procs[0])
    ensures Wiring(Finish(c)) && Expected(Finish(c), attr)
    ensures Shaped(Deliver(Finish(c), attr, api))
    ensures Deliver(Finish(c), attr, api).queue == c.queue
  {
    hide PassEnd, Found, Shaped, Matches, Finish, Wiring;
    if attr.None? { EndShaped(c, api); } else { HitShaped(c, attr.value, api); }
  }

  /** A characteristic found in the report pass joins the list while it has room; the pass goes on. */
  lemma FoundShaped(c: Central, attr: Attr, api: Api)
    requires Shaped(c) && c.disc.ReportChrc? && Matches(attr, c.procs[0])
    ensures Wiring(c) && Expected(c, Some(attr))
    ensures Shaped(Deliver(c, Some(attr), api)) && Deliver(c, Some(attr), api) == AddReport(c, attr.valueHandle, attr.notify)
    ensures Deliver(c, Some(attr), api).disc.ReportChrc? && Deliver(c, Some(attr), api).queue == c.queue
  {}

  lemma MapShaped(c: Central, r: MapRead, api: Api)
    requires |c.rm| <= REPORT_MAP_MAX && |c.queue| <= QUEUE_MAX
    ensures (r.MapError? || r.MapDone?) && c.procs == [] ==> Shaped(ReportMapRead(c, r, api))
    ensures r.Chunk? && |r.data| > 0 && Shaped(c) ==> Shaped(ReportMapRead(c, r, api)) && ReportMapRead(c, r, api).disc == c.disc
    ensures ReportMapRead(c, r, api).queue == c.queue
  {
    hide ParsePointer;
  }

  /** A procedure is outstanding only on a secured link. */
  lemma StartedIfBusy(w: World)
    requires Sane(w) && |w.c.procs| > 0
    ensures w.started && w.up && w.c.conn.Some?
  {}

  /** What is left to check of an answer once scanner, connection and histories are known to stay. */
  lemma AnswerSane(w: World, t: World)
    requires Sane(w) && |w.c.procs| > 0
    requires SameOutside(w, t)
    requires Shaped(t.c) && t.c.queue == w.c.queue && t.pos <= |t.peer.attrs| && (t.pos > 0 ==> t.c.disc.ReportChrc?)
    ensures Sane(t)
  {
    hide Shaped;
    StartedIfBusy(w);
  }

  lemma DiscoverSane(w: World, e: Event)
    requires Enabled(w, e) && Sane(w) && (e.DiscoverNext? || e.DiscoverAborted?)
    ensures Sane(Next(w, e))
  {
    GattKeepsLife(w, e);
    hide Deliver, Skipped, Refused, Broken, NextMatch, Shaped, SameOutside;
    if e.DiscoverAborted? {
      AnswerShaped(w.c, None, e.api);
    } else {
      var j := NextMatch(w.peer.attrs, w.c.procs[0], w.pos);
      if j == |w.peer.attrs| {
        AnswerShaped(w.c, None, e.api);
      } else if w.c.disc.ReportChrc? {
        FoundShaped(w.c, w.peer.attrs[j], e.api);
      } else {
        AnswerShaped(w.c, Some(w.peer.attrs[j]), e.api);
      }
    }
    AnswerSane(w, Next(w, e));
  }

  lemma MapReadSane(w: World, e: Event)
    requires Enabled(w, e) && Sane(w) && (e.MapChunk? || e.MapEnd? || e.MapBroken?)
    ensures Sane(Next(w, e))
  {
    hide ReportMapRead, SameOutside, Skipped, Broken;
    GattKeepsLife(w, e);
    match e {
      case MapChunk(n) =>
        MapShaped(w.c, Chunk(w.peer.reportMap[|w.sent|..|w.sent| + n]), Api(true, true, true, true, true, Subscribed));
      case MapEnd(api) => MapShaped(Finish(w.c), MapDone, api);
      case MapBroken(api) => MapShaped(Finish(w.c), MapError, api);
    }
    hide Shaped;
    AnswerSane(w, Next(w, e));
  }

  lemma RefReadSane(w: World, data: Option<seq<byte>>, api: Api)
    requires Enabled(w, RefAnswer(data, api)) && Sane(w)
    ensures Sane(Next(w, RefAnswer(data, api)))
  {
    hide DiscoverCcc, SameOutside, Skipped, Broken;
    GattKeepsLife(w, RefAnswer(data, api));
    CccShaped(Finish(w.c).(reportId := if data.Some? && |data.value| >= 1 then data.value[0] else 0), api);
    hide Shaped;
    AnswerSane(w, Next(w, RefAnswer(data, api)));
  }

  lemma LifeSane(w: World, e: Event)
    requires Enabled(w, e) && Sane(w)
    requires e.Advert? || e.RetryFires? || e.LinkUp? || e.LinkFailed? || e.Secured?
    requires Attentive(w.c)
    ensures Sane(Next(w, e))
  {}

  lemma NotifySane(w: World, e: Event)
    requires Enabled(w, e) && Sane(w) && (e.Notify? || e.TornDown?)
    ensures Sane(Next(w, e))
  {
    hide Cut;
  }

  lemma DrainSane(w: World)
    requires Enabled(w, DrainOne) && Sane(w)
    ensures Sane(Next(w, DrainOne))
  {
    hide Published;
  }

  lemma DownSane(w: World, e: Event)
    requires Enabled(w, e) && Sane(w) && (e.LinkDown? || e.OtherDown?)
    ensures Sane(Next(w, e))
  {}

  lemma StepSane(w: World, e: Event)
    requires Enabled(w, e) && Sane(w) && Attentive(w.c)
    ensures Sane(Next(w, e))
  {
    hide Next, Enabled, Sane;
    match e {
      case DiscoverNext(_) => DiscoverSane(w, e);
      case DiscoverAborted(_) => DiscoverSane(w, e);
      case MapChunk(_) => MapReadSane(w, e);
      case MapEnd(_) => MapReadSane(w, e);
      case MapBroken(_) => MapReadSane(w, e);
      case RefAnswer(data, api) => RefReadSane(w, data, api);
      case Notify(_, _) => NotifySane(w, e);
      case TornDown(_) => NotifySane(w, e);
      case DrainOne => DrainSane(w);
      case LinkDown(_) => DownSane(w, e);
      case OtherDown(_, _) => DownSane(w, e);
      case _ => LifeSane(w, e);
    }
  }

  lemma {:induction false} RunSane(ws: seq<World>, es: seq<Event>, i: nat)
    requires IsRun(ws, es) && i < |ws|
    ensures Sane(ws[i])
    decreases i
  {
    hide Next, Enabled;
    if i > 0 {
      RunSane(ws, es, i - 1);
      NeverDeaf(ws, es, i - 1);
      StepSane(ws[i - 1], es[i - 1]);
    }
  }

  /** The callback of this event is handed what it was written for: no cast, index or buffer guard of the model bites. */
  predicate CallbackSafe(w: World, e: Event) {
    match e
    case DiscoverNext(_) =>
      && |w.c.procs| > 0 && w.pos <= |w.peer.attrs|
      && var j := NextMatch(w.peer.attrs, w.c.procs[0], w.pos);
      && (if j == |w.peer.attrs| then Wiring(Finish(w.c))
          else if w.c.disc.ReportChrc? then Expected(w.c, Some(w.peer.attrs[j]))
          else Wiring(Finish(w.c)) && Expected(Finish(w.c), Some(w.peer.attrs[j])))
    case DiscoverAborted(_) => |w.c.procs| > 0 && Wiring(Finish(w.c))
    case MapChunk(_) => |w.c.rm| <= REPORT_MAP_MAX
    case MapEnd(_) => |w.c.rm| <= REPORT_MAP_MAX
    case MapBroken(_) => |w.c.rm| <= REPORT_MAP_MAX
    case RefAnswer(_, _) => w.c.idx < |w.c.pending|
    case DrainOne => |w.tags| > 0 && w.c.conn.Some?
    case _ => true
  }

  lemma CallbacksSafe(ws: seq<World>, es: seq<Event>, i: nat)
    requires IsRun(ws, es) && i < |es|
    ensures CallbackSafe(ws[i], es[i])
  {
    RunSane(ws, es, i);
    SaneIsSafe(ws[i], es[i]);
  }

  lemma SaneIsSafe(w: World, e: Event)
    requires Enabled(w, e) && Sane(w)
    ensures CallbackSafe(w, e)
  {
    hide Deliver, NextMatch, Matches;
    if e.DiscoverNext? {
      var j := NextMatch(w.peer.attrs, w.c.procs[0], w.pos);
      if j == |w.peer.attrs| {
        AnswerShaped(w.c, None, e.api);
      } else if w.c.disc.ReportChrc? {
        FoundShaped(w.c, w.peer.attrs[j], e.api);
      } else {
        AnswerShaped(w.c, Some(w.peer.attrs[j]), e.api);
      }
    }
  }
}

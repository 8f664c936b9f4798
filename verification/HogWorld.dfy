/**
 * The central in its world: a peer with a sorted attribute table, the GATT stack that answers the
 * outstanding procedure, the link, the scanner and the two contexts that share the report queue.
 * Every event is atomic; its outcome is chosen by the environment.
 */
module HogWorld {
  import opened Bits
  import opened HidTypes
  import opened HogSteps

  /** Attributes in handle order, and the value of the Report Map. */
  datatype Peer = Peer(attrs: seq<Attr>, reportMap: seq<byte>)

  predicate ValidPeer(p: Peer) {
    forall i, j :: 0 <= i < j < |p.attrs| ==> p.attrs[i].handle < p.attrs[j].handle
  }

  predicate Matches(a: Attr, p: Proc) {
    && p.Discover? && p.lo <= a.handle <= p.hi && a.uuid == p.uuid
    && (match p.kind case Primary => a.Service? case Characteristic => a.Chrc? case Descriptor => a.Desc?)
  }

  /** Index of the next attribute a discovery delivers, or the size of the table. */
  function NextMatch(attrs: seq<Attr>, p: Proc, from: nat): (j: nat)
    requires from <= |attrs|
    ensures from <= j <= |attrs|
    ensures j < |attrs| ==> Matches(attrs[j], p)
    ensures forall k :: from <= k < j ==> !Matches(attrs[k], p)
    decreases |attrs| - from
  {
    if from == |attrs| || Matches(attrs[from], p) then from else NextMatch(attrs, p, from + 1)
  }

  /** A notification as the peer sent it, with the connection and the peer it came from. */
  datatype Note = Note(epoch: nat, peer: Peer, valueHandle: uint16, reportId: byte, data: seq<byte>)

  /** A published report: which notification it was, and what the central saw when publishing. */
  datatype Pub = Pub(note: nat, epoch: nat, subCount: nat, report: PointerReport)

  /**
   * What failed in a discovery: `hids`, the HID service could not be sought; `noMap`, the Report Map could
   * not be sought or read; `seen`, the report pass was broken off after that many attributes; `refs`, the
   * reports whose Report Reference could not be sought or read; `cccs`, those whose CCC could not be sought
   * or subscribed; `stop`, how many reports were done when a discovery call that did not start ended it all.
   * `torn` are the subscriptions the stack has torn down since.
   */
  datatype Faults = Faults(hids: bool, noMap: bool, seen: Option<nat>, refs: set<nat>, cccs: set<nat>, stop: Option<nat>, torn: set<nat>)

  const NO_FAULTS := Faults(false, false, None, {}, {}, None, {})

  /**
   * `epoch` numbers connections; `pos` is how far the running discovery has gone; `sent` are the map
   * bytes the running read has delivered; `refValue` is the value of the descriptor being read;
   * `tags` names the notification behind each queue entry; `notes` and `log` are histories, and so are
   * the `faults` of this connection's discovery.
   */
  datatype World = World(
    c: Central, peer: Peer, epoch: nat, up: bool, started: bool, faults: Faults,
    pos: nat, sent: seq<byte>, refValue: Option<seq<byte>>,
    tags: seq<nat>, notes: seq<Note>, log: seq<Pub>)

  const NOBODY := Peer([], [])

  function Boot(scan: ScanResult): World {
    World(StartScan(BOOT, scan), NOBODY, 0, false, false, NO_FAULTS, 0, [], None, [], [], [])
  }

  datatype Event =
    | Advert(candidate: bool, stopOk: bool, createOk: bool, scan: ScanResult)
    | RetryFires(scan: ScanResult)
    | LinkUp(peer: Peer)
    | LinkFailed(scan: ScanResult)
    | Secured(ok: bool, discoverOk: bool)
    | DiscoverNext(api: Api)
    | DiscoverAborted(api: Api)
    | MapChunk(n: nat)
    | MapEnd(api: Api)
    | MapBroken(api: Api)
    | RefAnswer(answer: Option<seq<byte>>, api: Api)
    | Notify(sub: nat, data: seq<byte>)
    | TornDown(sub: nat)
    | DrainOne
    | LinkDown(scan: ScanResult)
    | OtherDown(id: nat, scan: ScanResult)

  /** An answer of the GATT stack to the outstanding procedure. */
  predicate IsGatt(e: Event) {
    e.DiscoverNext? || e.DiscoverAborted? || e.MapChunk? || e.MapEnd? || e.MapBroken? || e.RefAnswer?
  }

  /**
   * Adverts come from a running scanner, and may still come when a connection was begun; security succeeds once a connection; a read that succeeds
   * gives the attribute's value; notifications need a subscription, and any slot may be told it is gone.
   */
  predicate Enabled(w: World, e: Event) {
    match e
    case Advert(_, _, _, _) => w.c.scanning || w.c.conn.Some?
    case RetryFires(_) => w.c.retry
    case LinkUp(peer) => w.c.conn.Some? && !w.up && ValidPeer(peer)
    case LinkFailed(_) => w.c.conn.Some? && !w.up
    case Secured(ok, _) => w.up && (ok ==> !w.started)
    case DiscoverNext(_) => |w.c.procs| > 0 && w.c.procs[0].Discover?
    case DiscoverAborted(_) => |w.c.procs| > 0 && w.c.procs[0].Discover?
    case MapChunk(n) => |w.c.procs| > 0 && w.c.procs[0].ReadMap? && 1 <= n && |w.sent| + n <= |w.peer.reportMap|
    case MapEnd(_) => |w.c.procs| > 0 && w.c.procs[0].ReadMap? && w.sent == w.peer.reportMap
    case MapBroken(_) => |w.c.procs| > 0 && w.c.procs[0].ReadMap?
    case RefAnswer(answer, _) => |w.c.procs| > 0 && w.c.procs[0].ReadRef? && (answer.Some? ==> answer == w.refValue)
    case Notify(sub, _) => w.up && sub < |w.c.subs|
    case TornDown(sub) => sub < MAX_REPORTS
    case DrainOne => |w.c.queue| > 0
    case LinkDown(_) => w.c.conn.Some? && w.up
    case OtherDown(id, _) => w.c.conn != Some(id)
  }

  /** The procedure is over before its last callback starts the next one. */
  function Finish(c: Central): Central
    requires |c.procs| > 0
  {
    c.(procs := c.procs[1..])
  }

  function Deliver(c: Central, attr: Option<Attr>, api: Api): Central {
    if Wiring(c) && Expected(c, attr) then DiscoverFunc(c, attr, api) else c
  }

  /** The pass or read that is outstanding came to nothing, a pass after `pos` attributes. */
  function Broken(f: Faults, c: Central, pos: nat): Faults {
    match c.disc
    case HidsPrimary => f.(hids := true)
    case ReportMapChrc => f.(noMap := true)
    case ReportChrc => f.(seen := Some(pos))
    case ReportRef => f.(refs := f.refs + {c.idx})
    case Ccc => f.(cccs := f.cccs + {c.idx})
    case _ => f
  }

  /** The read or subscribe of the attribute that was found did not go through. */
  function Refused(f: Faults, c: Central, attr: Option<Attr>, api: Api): Faults {
    if attr.Some? && (((c.disc.ReportMapChrc? || c.disc.ReportRef?) && !api.read) || (c.disc.Ccc? && api.subscribe.SubscribeFailed?))
    then Broken(f, c, 0) else f
  }

  /** The call for the next report: without its reference pass it is passed over, without either it ends discovery. */
  function NextReport(f: Faults, n: nat, api: Api): Faults {
    if api.refDiscover then f
    else if api.cccDiscover then f.(refs := f.refs + {n})
    else f.(stop := Some(n))
  }

  /**
   * Which discovery call comes after the answer in state c, with an attribute (`hit`) or without, and what it
   * costs if it does not start: the map, a report's reference, or the rest of discovery.
   */
  function Skipped(f: Faults, c: Central, hit: bool, api: Api): Faults {
    match c.disc
    case HidsPrimary => if hit && !api.mapDiscover then f.(noMap := true, stop := Some(0)) else f
    case ReportMapChrc => if (hit && api.read) || api.reportDiscover then f else f.(stop := Some(0))
    case ReportChrc => if hit || |c.pending| == 0 then f else NextReport(f, 0, api)
    case ReportRef => if (hit && api.read) || api.cccDiscover then f else f.(stop := Some(c.idx))
    case Ccc => if c.idx + 1 < |c.pending| then NextReport(f, c.idx + 1, api) else f
    case Idle => f
  }

  function DoDiscoverNext(w: World, api: Api): World
    requires |w.c.procs| > 0
  {
    if w.pos > |w.peer.attrs| then w
    else
      var attrs := w.peer.attrs;
      var j := NextMatch(attrs, w.c.procs[0], w.pos);
      var attr := if j < |attrs| then Some(attrs[j]) else None;
      if attr.Some? && w.c.disc.ReportChrc? then w.(c := Deliver(w.c, attr, api), pos := j + 1)
      else
        var d := Deliver(Finish(w.c), attr, api);
        w.(c := d, pos := 0, sent := [], faults := Skipped(Refused(w.faults, w.c, attr, api), w.c, attr.Some?, api),
           refValue := if attr.Some? && attr.value.Desc? then Some(attr.value.value) else None)
  }

  function DoMapEnd(w: World, r: MapRead, api: Api): World
    requires |w.c.procs| > 0
  {
    if |w.c.rm| > REPORT_MAP_MAX then w
    else
      var d := ReportMapRead(Finish(w.c), r, api);
      w.(c := d, pos := 0, faults := Skipped(if r.MapError? then Broken(w.faults, w.c, 0) else w.faults, w.c, false, api))
  }

  function DoNotify(w: World, k: nat, data: seq<byte>): World
    requires k < |w.c.subs|
  {
    w.(c := NotifyCb(w.c, k, Some(data)),
       notes := w.notes + [Note(w.epoch, w.peer, w.c.subs[k].valueHandle, w.c.subs[k].reportId, data)],
       tags := if |w.c.queue| < QUEUE_MAX then w.tags + [|w.notes|] else w.tags)
  }

  function DoDrain(w: World): World
    requires |w.c.queue| > 0
  {
    if |w.tags| == 0 || w.c.conn.None? then w.(c := Drain(w.c))
    else
      var r := Published(w.c, w.c.queue[0]);
      w.(c := Drain(w.c), tags := w.tags[1..],
         log := if r.Some? then w.log + [Pub(w.tags[0], w.c.conn.value, |w.c.subs|, r.value)] else w.log)
  }

  function Next(w: World, e: Event): World
    requires Enabled(w, e)
  {
    match e
    case Advert(candidate, stopOk, createOk, scan) =>
      var c := DeviceFound(w.c, candidate, stopOk, createOk, w.epoch + 1, scan);
      w.(c := c, epoch := if c.conn != w.c.conn then w.epoch + 1 else w.epoch)
    case RetryFires(scan) => w.(c := ScanRetry(w.c, scan))
    case LinkUp(peer) => w.(c := Connected(w.c, true, Started), peer := peer, up := true, started := false, faults := NO_FAULTS, pos := 0)
    case LinkFailed(scan) => w.(c := Connected(w.c, false, scan))
    case Secured(ok, discoverOk) =>
      w.(c := SecurityChanged(w.c, ok, discoverOk), started := w.started || ok, pos := if ok then 0 else w.pos,
         faults := if ok then NO_FAULTS.(hids := !discoverOk) else w.faults)
    case DiscoverNext(api) => DoDiscoverNext(w, api)
    case DiscoverAborted(api) =>
      var d := Deliver(Finish(w.c), None, api);
      w.(c := d, pos := 0, sent := [], refValue := None, faults := Skipped(Broken(w.faults, w.c, w.pos), w.c, false, api))
    case MapChunk(n) =>
      var chunk := w.peer.reportMap[|w.sent|..|w.sent| + n];
      if |w.c.rm| > REPORT_MAP_MAX then w
      else w.(c := ReportMapRead(w.c, Chunk(chunk), Api(true, true, true, true, true, Subscribed)), sent := w.sent + chunk)
    case MapEnd(api) => DoMapEnd(w, MapDone, api)
    case MapBroken(api) => DoMapEnd(w, MapError, api)
    case RefAnswer(data, api) =>
      if w.c.idx >= |w.c.pending| then w
      else
        var d := ReportRefRead(Finish(w.c), data, api);
        w.(c := d, pos := 0, faults := Skipped(if data.Some? then w.faults else Broken(w.faults, w.c, 0), w.c, false, api))
    case Notify(k, data) => DoNotify(w, k, data)
    case TornDown(k) =>
      w.(c := NotifyCb(w.c, k, None), faults := if k < |w.c.subs| then w.faults.(torn := w.faults.torn + {k}) else w.faults)
    case DrainOne => DoDrain(w)
    case LinkDown(scan) =>
      w.(c := Disconnected(w.c, w.c.conn.value, scan), up := false, started := false, pos := 0, sent := [], tags := [])
    case OtherDown(id, scan) => w.(c := Disconnected(w.c, id, scan))
  }

  /** Every step of the run is enabled and leads to the next world. */
  ghost predicate IsRun(ws: seq<World>, es: seq<Event>) {
    && |ws| == |es| + 1
    && (exists scan :: ws[0] == Boot(scan))
    && forall i :: 0 <= i < |es| ==> Enabled(ws[i], es[i]) && ws[i + 1] == Next(ws[i], es[i])
  }
}

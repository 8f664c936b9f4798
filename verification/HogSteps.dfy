/**
 * The HOGP central as functions on values: what each callback does to the module's static state.
 * Results of Bluetooth calls are parameters. `HogCentral` refines these in place.
 */
module HogSteps {
  import opened Bits
  import opened HidTypes
  import opened HidWalk
  import opened HidDecode
  import opened HidDecodeLaws

  const MAX_REPORTS := 12
  const REPORT_MAP_MAX := 512
  const QUEUE_MAX := 16

  const UUID_HIDS: uint16 := 0x1812
  const UUID_REPORT_MAP: uint16 := 0x2A4B
  const UUID_REPORT: uint16 := 0x2A4D
  const UUID_REPORT_REF: uint16 := 0x2908
  const UUID_CCC: uint16 := 0x2902
  const FIRST_HANDLE: uint16 := 0x0001
  const LAST_HANDLE: uint16 := 0xFFFF

  datatype Disc = Idle | HidsPrimary | ReportMapChrc | ReportChrc | ReportRef | Ccc

  datatype Kind = Primary | Characteristic | Descriptor

  /** A GATT procedure that was started and has not finished. */
  datatype Proc =
    | Discover(kind: Kind, uuid: uint16, lo: uint16, hi: uint16)
    | ReadMap(handle: uint16)
    | ReadRef(handle: uint16)

  /** An attribute of the peer. */
  datatype Attr =
    | Service(handle: uint16, uuid: uint16, endHandle: uint16)
    | Chrc(handle: uint16, uuid: uint16, valueHandle: uint16, notify: bool)
    | Desc(handle: uint16, uuid: uint16, value: seq<byte>)

  datatype Sub = Sub(valueHandle: uint16, cccHandle: uint16, reportId: byte)

  /** A queued notification; `data` is the used part of the 32-byte buffer. */
  datatype Evt = Evt(valueHandle: uint16, reportId: byte, data: seq<byte>)

  datatype ScanResult = Started | AlreadyRunning | ScanFailed

  datatype SubscribeResult = Subscribed | AlreadySubscribed | SubscribeFailed

  /** Whether each Bluetooth call a callback may make succeeds; each is made at most once per callback. */
  datatype Api = Api(mapDiscover: bool, reportDiscover: bool, refDiscover: bool, cccDiscover: bool,
                     read: bool, subscribe: SubscribeResult)

  /**
   * `rm`, `pending` and `subs` are the used parts of the C arrays. `procs` are the outstanding GATT
   * procedures, `scanning` and `retry` the scanner and the delayed retry work.
   */
  datatype Central = Central(
    disc: Disc, hidsEnd: uint16, rm: seq<byte>, layout: PointerLayout, layoutValid: bool,
    pending: seq<uint16>, idx: nat, reportId: byte, subs: seq<Sub>, queue: seq<Evt>,
    conn: Option<nat>, scanning: bool, retry: bool, procs: seq<Proc>)

  const BOOT := Central(Idle, 0, [], NO_LAYOUT, false, [], 0, 0, [], [], None, false, false, [])

  function Start(c: Central, p: Proc): Central { c.(procs := c.procs + [p]) }

  // ---------------------------------------------------------------- discovery

  function StartReportDiscovery(c: Central, api: Api): Central {
    var c1 := c.(pending := [], idx := 0, subs := [], disc := ReportChrc);
    if api.reportDiscover then Start(c1, Discover(Characteristic, UUID_REPORT, FIRST_HANDLE, c.hidsEnd))
    else c1.(disc := Idle)
  }

  /** The descriptor window of pending report i: from after its value to before the next pending value. */
  function WindowLo(pending: seq<uint16>, i: nat): uint16
    requires i < |pending|
  {
    U16(pending[i] as int + 1)
  }

  function WindowHi(pending: seq<uint16>, i: nat, hidsEnd: uint16): uint16 {
    if i + 1 < |pending| then U16(pending[i + 1] as int - 1) else hidsEnd
  }

  function InWindow(c: Central, uuid: uint16): Proc
    requires c.idx < |c.pending|
  {
    Discover(Descriptor, uuid, WindowLo(c.pending, c.idx), WindowHi(c.pending, c.idx, c.hidsEnd))
  }

  function DiscoverCcc(c: Central, api: Api): Central
    requires c.idx < |c.pending|
  {
    if api.cccDiscover then Start(c.(disc := Ccc), InWindow(c, UUID_CCC)) else c.(disc := Idle)
  }

  function SubscribePending(c: Central, api: Api): Central {
    if c.idx >= |c.pending| then c.(disc := Idle)
    else
      var c1 := c.(reportId := 0, disc := ReportRef);
      if api.refDiscover then Start(c1, InWindow(c, UUID_REPORT_REF)) else DiscoverCcc(c1, api)
  }

  function ReadReportMap(c: Central, handle: uint16, api: Api): Central {
    var c1 := c.(rm := []);
    if api.read then Start(c1, ReadMap(handle)) else StartReportDiscovery(c1, api)
  }

  function ReadReportRef(c: Central, handle: uint16, api: Api): Central
    requires c.idx < |c.pending|
  {
    if api.read then Start(c, ReadRef(handle)) else DiscoverCcc(c.(reportId := 0), api)
  }

  function AddReport(c: Central, valueHandle: uint16, notify: bool): Central {
    if notify && |c.pending| < MAX_REPORTS then c.(pending := c.pending + [valueHandle]) else c
  }

  function Subscribe(c: Central, cccHandle: uint16, api: Api): Central
    requires c.idx < |c.pending|
  {
    if |c.subs| < MAX_REPORTS && !api.subscribe.SubscribeFailed?
    then c.(subs := c.subs + [Sub(c.pending[c.idx], cccHandle, c.reportId)]) else c
  }

  /** The attribute has the shape the callback casts it to in this state. */
  predicate Expected(c: Central, attr: Option<Attr>) {
    attr.Some? ==>
      match c.disc
      case HidsPrimary => attr.value.Service?
      case ReportMapChrc => attr.value.Chrc?
      case ReportChrc => attr.value.Chrc?
      case _ => true
  }

  /** The pending list still holds the report being wired up. */
  predicate Wiring(c: Central) { c.disc.ReportRef? || c.disc.Ccc? ==> c.idx < |c.pending| }

  /** The discovery pass is over. */
  function PassEnd(c: Central, api: Api): Central
    requires Wiring(c)
  {
    match c.disc
    case ReportMapChrc => StartReportDiscovery(c, api)
    case ReportChrc => if |c.pending| == 0 then c.(disc := Idle) else SubscribePending(c.(idx := 0), api)
    case ReportRef => DiscoverCcc(c, api)
    case Ccc => SubscribePending(c.(idx := c.idx + 1), api)
    case _ => c
  }

  function FoundHids(c: Central, a: Attr, api: Api): Central
    requires a.Service?
  {
    var c1 := c.(hidsEnd := a.endHandle, disc := ReportMapChrc);
    if api.mapDiscover then Start(c1, Discover(Characteristic, UUID_REPORT_MAP, U16(a.handle as int + 1), a.endHandle))
    else c1.(disc := Idle)
  }

  /** Subscribe through the CCC that was found, then go on to the next report. */
  function WireReport(c: Central, cccHandle: uint16, api: Api): Central
    requires c.idx < |c.pending|
  {
    var c1 := Subscribe(c, cccHandle, api);
    SubscribePending(c1.(idx := c1.idx + 1), api)
  }

  function Found(c: Central, a: Attr, api: Api): Central
    requires Wiring(c) && Expected(c, Some(a))
  {
    match c.disc
    case HidsPrimary => FoundHids(c, a, api)
    case ReportMapChrc => ReadReportMap(c, a.valueHandle, api)
    case ReportChrc => AddReport(c, a.valueHandle, a.notify)
    case ReportRef => ReadReportRef(c, a.handle, api)
    case Ccc => WireReport(c, a.handle, api)
    case Idle => c
  }

  function DiscoverFunc(c: Central, attr: Option<Attr>, api: Api): Central
    requires Wiring(c) && Expected(c, attr)
  {
    if attr.None? then PassEnd(c, api) else Found(c, attr.value, api)
  }

  datatype MapRead = MapError | Chunk(data: seq<byte>) | MapDone

  /** The bytes of a chunk that still fit the 512-byte buffer. */
  function Fitting(rm: seq<byte>, data: seq<byte>): seq<byte>
    requires |rm| <= REPORT_MAP_MAX
  {
    data[..Min(|data|, REPORT_MAP_MAX - |rm|)]
  }

  function ReportMapRead(c: Central, r: MapRead, api: Api): Central
    requires |c.rm| <= REPORT_MAP_MAX
  {
    if r.MapError? then StartReportDiscovery(c, api)
    else if r.Chunk? && |r.data| > 0 then c.(rm := c.rm + Fitting(c.rm, r.data))
    else
      var l := ParsePointer(c.rm);
      StartReportDiscovery(c.(layout := l, layoutValid := c.layoutValid || l.valid), api)
  }

  /** `data` is None on an error or an empty value. */
  function ReportRefRead(c: Central, data: Option<seq<byte>>, api: Api): Central
    requires c.idx < |c.pending|
  {
    DiscoverCcc(c.(reportId := if data.Some? && |data.value| >= 1 then data.value[0] else 0), api)
  }

  function StartDiscovery(c: Central, discoverOk: bool): Central {
    var c1 := c.(layoutValid := false, hidsEnd := 0, disc := HidsPrimary);
    if discoverOk then Start(c1, Discover(Primary, UUID_HIDS, FIRST_HANDLE, LAST_HANDLE)) else c1
  }

  // ------------------------------------------------- notify, queue, publish

  /** None is the stack telling that the subscription is gone; that may reach a slot no longer in use. */
  function NotifyCb(c: Central, k: nat, data: Option<seq<byte>>): Central
    requires data.Some? ==> k < |c.subs|
  {
    if data.None? then (if k < |c.subs| then c.(subs := c.subs[k := c.subs[k].(valueHandle := 0)]) else c)
    else if |c.queue| < QUEUE_MAX then
      c.(queue := c.queue + [Evt(c.subs[k].valueHandle, c.subs[k].reportId, Cut(data.value))])
    else c
  }

  /** The report one queued notification becomes, if it does. */
  function Published(c: Central, evt: Evt): Option<PointerReport> {
    if !c.layoutValid || (|c.subs| != 1 && evt.reportId != c.layout.reportId) then None
    else Decode(c.layout, evt.data)
  }

  /** One iteration of the work handler's loop. */
  function Drain(c: Central): Central
    requires |c.queue| > 0
  {
    c.(queue := c.queue[1..])
  }

  // ------------------------------------------------------- scan and connection

  /** A start that fails is retried later; one that reports "already" means the scanner runs. */
  function StartScan(c: Central, r: ScanResult): Central {
    if r.ScanFailed? then c.(retry := true) else c.(scanning := true)
  }

  function DeviceFound(c: Central, candidate: bool, stopOk: bool, createOk: bool, id: nat, scan: ScanResult): Central {
    if c.conn.Some? || !candidate || !stopOk then c
    else if createOk then c.(scanning := false, conn := Some(id))
    else StartScan(c.(scanning := false), scan)
  }

  function ScanRetry(c: Central, scan: ScanResult): Central {
    var c1 := c.(retry := false);
    if c.conn.None? then StartScan(c1, scan) else c1
  }

  function Connected(c: Central, ok: bool, scan: ScanResult): Central {
    if ok then c else StartScan(c.(conn := None), scan)
  }

  function SecurityChanged(c: Central, ok: bool, discoverOk: bool): Central {
    if ok then StartDiscovery(c, discoverOk) else c
  }

  /** The link's outstanding procedures end with it. */
  function Disconnected(c: Central, id: nat, scan: ScanResult): Central {
    if c.conn != Some(id) then c
    else
      StartScan(c.(conn := None, subs := [], pending := [], idx := 0, disc := Idle, layoutValid := false,
                   rm := [], queue := [], procs := []), scan)
  }
}

/** The central's static state and its callbacks as they run, proved against `HogSteps`. */
module HogCentral {
  import opened Bits
  import opened HidTypes
  import opened HidWalk
  import opened HidDecode
  import opened HidDecodeLaws
  import opened HogSteps
  import HidParser
  import Publishing
  import opened PublishDevice

  class Hog {
    var discState: Disc
    var hidsEndHandle: uint16
    const rmBuf: array<byte>
    var rmLen: nat
    var layout: PointerLayout
    var layoutValid: bool

    const pendingReports: array<uint16>
    var pendingCount: nat
    var pendingIdx: nat
    var curReportId: byte

    const subs: array<Sub>
    var subCount: nat

    var reportMsgq: seq<Evt>
    var defaultConn: Option<nat>

    /** The input device decoded reports are published on. */
    const host: BleHidHost

    ghost var scanning: bool
    ghost var retryScheduled: bool
    ghost var procs: seq<Proc>

    ghost predicate Valid()
      reads this
    {
      && rmBuf.Length == REPORT_MAP_MAX && rmLen <= rmBuf.Length
      && pendingReports.Length == MAX_REPORTS && pendingCount <= pendingReports.Length
      && subs.Length == MAX_REPORTS && subCount <= subs.Length
      && |reportMsgq| <= QUEUE_MAX
    }

    ghost function GetState(): Central
      reads this, rmBuf, pendingReports, subs
      requires Valid()
    {
      Central(discState, hidsEndHandle, rmBuf[..rmLen], layout, layoutValid, pendingReports[..pendingCount],
              pendingIdx, curReportId, subs[..subCount], reportMsgq, defaultConn, scanning, retryScheduled, procs)
    }

    constructor (host: BleHidHost)
      ensures Valid() && GetState() == BOOT && this.host == host
      ensures fresh(rmBuf) && fresh(pendingReports) && fresh(subs)
    {
      discState, hidsEndHandle, layout, layoutValid := Idle, 0, NO_LAYOUT, false;
      rmBuf := new byte[REPORT_MAP_MAX](_ => 0);
      rmLen := 0;
      pendingReports := new uint16[MAX_REPORTS](_ => 0);
      pendingCount, pendingIdx, curReportId := 0, 0, 0;
      subs := new Sub[MAX_REPORTS](_ => Sub(0, 0, 0));
      subCount, reportMsgq, defaultConn := 0, [], None;
      scanning, retryScheduled, procs := false, false, [];
      this.host := host;
    }

    /** bt_gatt_discover / bt_gatt_read: a call that succeeds leaves a procedure outstanding. */
    method StartProcedure(ghost p: Proc, ok: bool) returns (err: int)
      requires Valid()
      modifies this`procs
      ensures Valid() && (err == 0 <==> ok)
      ensures GetState() == if ok then Start(old(GetState()), p) else old(GetState())
    {
      if ok {
        procs := procs + [p];
      }
      err := if ok then 0 else -12;
    }

    method StartReportDiscovery(api: Api)
      requires Valid()
      modifies this
      ensures Valid() && GetState() == HogSteps.StartReportDiscovery(old(GetState()), api)
    {
      ForgetReports();
      discState := ReportChrc;
      var err := StartProcedure(Discover(Characteristic, UUID_REPORT, FIRST_HANDLE, hidsEndHandle), api.reportDiscover);
      if err != 0 {
        discState := Idle;
      }
    }

    method CurReportEndHandle() returns (h: uint16)
      requires Valid() && pendingIdx < pendingCount
      ensures h == WindowHi(pendingReports[..pendingCount], pendingIdx, hidsEndHandle)
    {
      if pendingIdx + 1 < pendingCount {
        h := U16(pendingReports[pendingIdx + 1] as int - 1);
      } else {
        h := hidsEndHandle;
      }
    }

    method DiscoverCcc(api: Api)
      requires Valid() && pendingIdx < pendingCount
      modifies this
      ensures Valid() && GetState() == HogSteps.DiscoverCcc(old(GetState()), api)
    {
      var start := U16(pendingReports[pendingIdx] as int + 1);
      var end := CurReportEndHandle();
      discState := Ccc;
      var err := StartProcedure(Discover(Descriptor, UUID_CCC, start, end), api.cccDiscover);
      if err != 0 {
        discState := Idle;
      }
    }

    method SubscribePending(api: Api)
      requires Valid()
      modifies this
      ensures Valid() && GetState() == HogSteps.SubscribePending(old(GetState()), api)
    {
      if pendingIdx >= pendingCount {
        discState := Idle;
        return;
      }
      curReportId := 0;
      var start := U16(pendingReports[pendingIdx] as int + 1);
      var end := CurReportEndHandle();
      discState := ReportRef;
      var err := StartProcedure(Discover(Descriptor, UUID_REPORT_REF, start, end), api.refDiscover);
      if err != 0 {
        DiscoverCcc(api);
      }
    }

    method ReadReportMap(handle: uint16, api: Api)
      requires Valid()
      modifies this
      ensures Valid() && GetState() == HogSteps.ReadReportMap(old(GetState()), handle, api)
    {
      rmLen := 0;
      assert rmBuf[..0] == [];
      var err := StartProcedure(ReadMap(handle), api.read);
      if err != 0 {
        StartReportDiscovery(api);
      }
    }

    method ReadReportRef(handle: uint16, api: Api)
      requires Valid() && pendingIdx < pendingCount
      modifies this
      ensures Valid() && GetState() == HogSteps.ReadReportRef(old(GetState()), handle, api)
    {
      var err := StartProcedure(ReadRef(handle), api.read);
      if err != 0 {
        curReportId := 0;
        DiscoverCcc(api);
      }
    }

    method AddReport(valueHandle: uint16, notify: bool)
      requires Valid()
      modifies this`pendingCount, pendingReports
      ensures Valid() && GetState() == HogSteps.AddReport(old(GetState()), valueHandle, notify)
    {
      if notify {
        if pendingCount < MAX_REPORTS {
          pendingReports[pendingCount] := valueHandle;
          pendingCount := pendingCount + 1;
          assert pendingReports[..pendingCount] == old(pendingReports[..pendingCount]) + [valueHandle];
        }
      }
    }

    /** Fill the next subscription slot; it counts only if the subscribe went through. */
    method Subscribe(cccHandle: uint16, api: Api)
      requires Valid() && pendingIdx < pendingCount
      modifies this`subCount, subs
      ensures Valid() && GetState() == HogSteps.Subscribe(old(GetState()), cccHandle, api)
    {
      if subCount < MAX_REPORTS {
        subs[subCount] := Sub(pendingReports[pendingIdx], cccHandle, curReportId);
        if api.subscribe != SubscribeFailed {
          subCount := subCount + 1;
          assert subs[..subCount] == old(subs[..subCount]) + [Sub(pendingReports[pendingIdx], cccHandle, curReportId)];
        } else {
          assert subs[..subCount] == old(subs[..subCount]);
        }
      }
    }

    /** The discovery pass that just ended. */
    method PassFinished(api: Api)
      requires Valid() && Wiring(GetState())
      modifies this
      ensures Valid() && GetState() == PassEnd(old(GetState()), api)
    {
      hide HogSteps.StartReportDiscovery, HogSteps.SubscribePending, HogSteps.DiscoverCcc;
      if discState == ReportMapChrc {
        StartReportDiscovery(api);
      } else if discState == ReportChrc {
        if pendingCount == 0 {
          discState := Idle;
          return;
        }
        pendingIdx := 0;
        SubscribePending(api);
      } else if discState == ReportRef {
        DiscoverCcc(api);
      } else if discState == Ccc {
        pendingIdx := pendingIdx + 1;
        SubscribePending(api);
      }
    }

    method FoundService(a: Attr, api: Api)
      requires Valid() && a.Service?
      modifies this
      ensures Valid() && GetState() == FoundHids(old(GetState()), a, api)
    {
      hidsEndHandle := a.endHandle;
      discState := ReportMapChrc;
      var err := StartProcedure(Discover(Characteristic, UUID_REPORT_MAP, U16(a.handle + 1), a.endHandle), api.mapDiscover);
      if err != 0 {
        discState := Idle;
      }
    }

    method FoundCcc(cccHandle: uint16, api: Api)
      requires Valid() && pendingIdx < pendingCount
      modifies this, subs
      ensures Valid() && GetState() == WireReport(old(GetState()), cccHandle, api)
    {
      hide HogSteps.Subscribe, HogSteps.SubscribePending;
      Subscribe(cccHandle, api);
      pendingIdx := pendingIdx + 1;
      SubscribePending(api);
    }

    /** Returns whether the stack should go on with the current pass. */
    method DiscoverFunc(attr: Option<Attr>, api: Api) returns (more: bool)
      requires Valid() && Wiring(GetState()) && Expected(GetState(), attr)
      modifies this, subs, pendingReports
      ensures Valid() && GetState() == HogSteps.DiscoverFunc(old(GetState()), attr, api)
      ensures more <==> old(discState) == ReportChrc && attr.Some?
    {
      hide PassEnd, FoundHids, HogSteps.ReadReportMap, HogSteps.AddReport, HogSteps.ReadReportRef, WireReport;
      if attr.None? {
        PassFinished(api);
        return false;
      }
      var a := attr.value;
      match discState {
        case HidsPrimary => FoundService(a, api); return false;
        case ReportMapChrc => ReadReportMap(a.valueHandle, api); return false;
        case ReportChrc => AddReport(a.valueHandle, a.notify); return true;
        case ReportRef => ReadReportRef(a.handle, api); return false;
        case Ccc => FoundCcc(a.handle, api); return false;
        case Idle => return false;
      }
    }

    method AppendChunk(data: seq<byte>)
      requires Valid()
      modifies this`rmLen, rmBuf
      ensures Valid() && GetState() == old(GetState()).(rm := old(GetState()).rm + Fitting(old(GetState()).rm, data))
    {
      var room := REPORT_MAP_MAX - rmLen;
      var n := if |data| < room then |data| else room;
      forall k | 0 <= k < n {
        rmBuf[rmLen + k] := data[k];
      }
      rmLen := rmLen + n;
      assert rmBuf[..rmLen] == old(rmBuf[..rmLen]) + data[..n];
    }

    method ReportMapReadCb(r: MapRead, api: Api) returns (more: bool)
      requires Valid()
      modifies this, rmBuf
      ensures Valid() && GetState() == ReportMapRead(old(GetState()), r, api)
      ensures more <==> r.Chunk? && |r.data| > 0
    {
      hide HogSteps.StartReportDiscovery, ParsePointer, Fitting;
      if r.MapError? {
        StartReportDiscovery(api);
        return false;
      }
      if r.Chunk? && |r.data| > 0 {
        AppendChunk(r.data);
        return true;
      }
      var rc, l := HidParser.ParseReportMap(rmBuf[..rmLen]);
      layout := l;
      if rc == 0 && layout.valid {
        layoutValid := true;
      }
      StartReportDiscovery(api);
      return false;
    }

    method ReportRefReadCb(data: Option<seq<byte>>, api: Api)
      requires Valid() && pendingIdx < pendingCount
      modifies this
      ensures Valid() && GetState() == ReportRefRead(old(GetState()), data, api)
    {
      if data.Some? && |data.value| >= 1 {
        curReportId := data.value[0];
      } else {
        curReportId := 0;
      }
      DiscoverCcc(api);
    }

    method StartDiscovery(discoverOk: bool)
      requires Valid()
      modifies this
      ensures Valid() && GetState() == HogSteps.StartDiscovery(old(GetState()), discoverOk)
    {
      layoutValid := false;
      hidsEndHandle := 0;
      discState := HidsPrimary;
      var _ := StartProcedure(Discover(Primary, UUID_HIDS, FIRST_HANDLE, LAST_HANDLE), discoverOk);
    }

    /** `k` is any of the subscription slots; data comes only for those in use. */
    method NotifyCb(k: nat, data: Option<seq<byte>>) returns (more: bool)
      requires Valid() && k < MAX_REPORTS && (data.Some? ==> k < subCount)
      modifies this`reportMsgq, subs
      ensures Valid() && GetState() == HogSteps.NotifyCb(old(GetState()), k, data)
      ensures more <==> data.Some?
    {
      if data.None? {
        subs[k] := subs[k].(valueHandle := 0);
        assert subs[..subCount] == if k < subCount then old(subs[..subCount])[k := subs[k]] else old(subs[..subCount]);
        return false;
      }
      var len := if |data.value| < NOTIFY_MAX then |data.value| else NOTIFY_MAX;
      assert data.value[..len] == Cut(data.value);
      var evt := Evt(subs[k].valueHandle, subs[k].reportId, data.value[..len]);
      if |reportMsgq| < QUEUE_MAX {
        reportMsgq := reportMsgq + [evt];
      }
      return true;
    }

    /** One turn of the work handler's loop: the oldest notification is published, or dropped. */
    method DrainOne()
      requires Valid() && |reportMsgq| > 0
      requires layoutValid ==> MeaningfulLayout(layout)
      modifies this`reportMsgq, host
      ensures Valid() && GetState() == Drain(old(GetState()))
      ensures host.GetHost() == PublishIf(old(host.GetHost()), HogSteps.Published(old(GetState()), old(reportMsgq)[0]), host)
    {
      var evt := reportMsgq[0];
      reportMsgq := reportMsgq[1..];
      if !layoutValid {
        return;
      }
      if subCount != 1 && evt.reportId != layout.reportId {
        return;
      }
      var report := DecodeReport(layout, evt.data);
      if report.Some? {
        host.Publish(report.value);
      }
    }

    /** The work handler: everything queued, in order, when no callback intervenes. */
    method ReportWorkHandler()
      requires Valid()
      requires layoutValid ==> MeaningfulLayout(layout)
      modifies this`reportMsgq, host
      ensures Valid() && GetState() == old(GetState()).(queue := [])
      ensures host.GetHost() == PublishAll(old(GetState()), old(host.GetHost()), old(reportMsgq), host)
    {
      hide HogSteps.Published, Publishing.Publish;
      ghost var c, h0 := GetState(), host.GetHost();
      while |reportMsgq| > 0
        invariant Valid() && GetState() == c.(queue := reportMsgq)
        invariant PublishAll(c, host.GetHost(), reportMsgq, host) == PublishAll(c, h0, c.queue, host)
        decreases |reportMsgq|
      {
        ghost var h, q := host.GetHost(), reportMsgq;
        DrainOne();
        PublishedIgnoresQueue(c, q, q[0]);
      }
    }

    method StartScan(r: ScanResult)
      requires Valid()
      modifies this`scanning, this`retryScheduled
      ensures Valid() && GetState() == HogSteps.StartScan(old(GetState()), r)
    {
      if r == ScanFailed {
        retryScheduled := true;
      } else {
        scanning := true;
      }
    }

    method DeviceFound(candidate: bool, stopOk: bool, createOk: bool, id: nat, scan: ScanResult)
      requires Valid()
      modifies this
      ensures Valid() && GetState() == HogSteps.DeviceFound(old(GetState()), candidate, stopOk, createOk, id, scan)
    {
      if defaultConn.Some? || !candidate {
        return;
      }
      if !stopOk {
        return;
      }
      scanning := false;
      if createOk {
        defaultConn := Some(id);
      } else {
        StartScan(scan);
      }
    }

    method ScanRetryHandler(scan: ScanResult)
      requires Valid()
      modifies this
      ensures Valid() && GetState() == ScanRetry(old(GetState()), scan)
    {
      retryScheduled := false;
      if defaultConn.None? {
        StartScan(scan);
      }
    }

    method Connected(ok: bool, scan: ScanResult)
      requires Valid()
      modifies this
      ensures Valid() && GetState() == HogSteps.Connected(old(GetState()), ok, scan)
    {
      if !ok {
        defaultConn := None;
        StartScan(scan);
      }
    }

    method SecurityChanged(ok: bool, discoverOk: bool)
      requires Valid()
      modifies this
      ensures Valid() && GetState() == HogSteps.SecurityChanged(old(GetState()), ok, discoverOk)
    {
      if ok {
        StartDiscovery(discoverOk);
      }
    }

    method ForgetReports()
      requires Valid()
      modifies this`subCount, this`pendingCount, this`pendingIdx
      ensures Valid() && GetState() == old(GetState()).(subs := [], pending := [], idx := 0)
    {
      subCount, pendingCount, pendingIdx := 0, 0, 0;
      assert pendingReports[..0] == [] && subs[..0] == [];
    }

    method ForgetMap()
      requires Valid()
      modifies this`rmLen, this`layoutValid
      ensures Valid() && GetState() == old(GetState()).(rm := [], layoutValid := false)
    {
      rmLen, layoutValid := 0, false;
      assert rmBuf[..0] == [];
    }

    method ForgetLink()
      requires Valid()
      modifies this`defaultConn, this`discState, this`reportMsgq, this`procs
      ensures Valid() && GetState() == old(GetState()).(conn := None, disc := Idle, queue := [], procs := [])
    {
      defaultConn, discState, reportMsgq, procs := None, Idle, [], [];
    }

    /** The peer is gone: its reports, its map, its layout and everything queued from it. */
    method ForgetPeer()
      requires Valid()
      modifies this
      ensures Valid()
      ensures GetState() == old(GetState()).(conn := None, subs := [], pending := [], idx := 0, disc := Idle,
                                             layoutValid := false, rm := [], queue := [], procs := [])
    {
      ghost var c := GetState();
      ForgetLink();
      ghost var c1 := GetState();
      ForgetReports();
      ghost var c2 := GetState();
      ForgetMap();
      hide GetState;
      assert c1 == c.(conn := None, disc := Idle, queue := [], procs := []);
      assert c2 == c1.(subs := [], pending := [], idx := 0);
    }

    method Disconnected(id: nat, scan: ScanResult)
      requires Valid()
      modifies this, host
      ensures host.GetHost() == if old(defaultConn) == Some(id) then Publishing.Reset(old(host.GetHost()), host.cfg, host.accept)
                                else old(host.GetHost())
      ensures Valid() && GetState() == HogSteps.Disconnected(old(GetState()), id, scan)
    {
      hide HogSteps.StartScan;
      if defaultConn != Some(id) {
        return;
      }
      ForgetPeer();
      host.Reset();
      StartScan(scan);
    }
  }

  predicate MeaningfulLayout(l: PointerLayout) {
    Meaningful(l.x) && Meaningful(l.y) && Meaningful(l.wheel) && Meaningful(l.hwheel) && Meaningful(l.buttons)
  }

  function PublishIf(h: Publishing.Host, r: Option<PointerReport>, host: BleHidHost): Publishing.Host {
    if r.Some? then Publishing.Publish(h, r.value, host.cfg, host.accept) else h
  }

  /** What draining a queue does to the device while the rest of the central stands still. */
  function PublishAll(c: Central, h: Publishing.Host, queue: seq<Evt>, host: BleHidHost): Publishing.Host
    decreases |queue|
  {
    if |queue| == 0 then h
    else PublishAll(c, PublishIf(h, HogSteps.Published(c, queue[0]), host), queue[1..], host)
  }

  lemma PublishedIgnoresQueue(c: Central, q: seq<Evt>, evt: Evt)
    ensures HogSteps.Published(c.(queue := q), evt) == HogSteps.Published(c, evt)
  {}
}

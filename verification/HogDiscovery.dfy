/** Discovery refines a function of the peer's attribute table and of what failed on the way. */
module HogDiscovery {
  import opened Bits
  import opened HidWalk
  import opened HidDecode
  import opened HidDecodeLaws
  import opened HogSteps
  import opened HogWorld
  import opened HogLaws

  // ---------------------------------------- what the table says should be wired

  function HidsIndex(p: Peer): nat { NextMatch(p.attrs, HIDS_PASS, 0) }

  predicate HasHids(p: Peer) { HidsIndex(p) < |p.attrs| }

  /** Last handle of the peer's first HID service. */
  function HidsEnd(p: Peer): uint16
    requires HasHids(p)
  {
    p.attrs[HidsIndex(p)].endHandle
  }

  /** The discovery of the Report Map inside that service. */
  function MapPass(p: Peer): Proc
    requires HasHids(p)
  {
    Discover(Characteristic, UUID_REPORT_MAP, U16(p.attrs[HidsIndex(p)].handle as int + 1), HidsEnd(p))
  }

  /** The value handle of the service's first Report Map characteristic. */
  function MapHandle(p: Peer): (h: Option<uint16>)
    requires HasHids(p)
  {
    var j := NextMatch(p.attrs, MapPass(p), 0);
    if j < |p.attrs| then Some(p.attrs[j].valueHandle) else None
  }

  predicate IsReport(a: Attr, hi: uint16) { a.Chrc? && a.uuid == UUID_REPORT && FIRST_HANDLE <= a.handle <= hi }

  /** Value handles of the notifiable Report characteristics up to `hi` among the first n attributes. */
  function Notifying(p: Peer, n: nat, hi: uint16): seq<uint16>
    requires n <= |p.attrs|
  {
    if n == 0 then []
    else Notifying(p, n - 1, hi)
         + (if IsReport(p.attrs[n - 1], hi) && p.attrs[n - 1].notify then [p.attrs[n - 1].valueHandle] else [])
  }

  /** How far the report pass went through the table. */
  function Seen(p: Peer, f: Faults): (n: nat)
    ensures n <= |p.attrs|
  {
    if f.seen.Some? && f.seen.value <= |p.attrs| then f.seen.value else |p.attrs|
  }

  /** The first twelve of them. */
  function Reports(p: Peer, f: Faults): seq<uint16>
    requires HasHids(p)
  {
    Take(Notifying(p, Seen(p, f), HidsEnd(p)), MAX_REPORTS)
  }

  /** The first descriptor with this UUID in the window of report i. */
  function FirstIn(p: Peer, f: Faults, uuid: uint16, i: nat): (a: Option<Attr>)
    requires HasHids(p) && i < |Reports(p, f)|
    ensures a.Some? ==> a.value.Desc? && a.value in p.attrs
  {
    var j := NextMatch(p.attrs, Discover(Descriptor, uuid, WindowLo(Reports(p, f), i), WindowHi(Reports(p, f), i, HidsEnd(p))), 0);
    if j < |p.attrs| then Some(p.attrs[j]) else None
  }

  function TagOf(value: seq<byte>): byte { if |value| >= 1 then value[0] else 0 }

  /** Byte 0 of the first Report Reference in the window; 0 if there is none or it could not be read. */
  function TagFor(p: Peer, f: Faults, i: nat): byte
    requires HasHids(p) && i < |Reports(p, f)|
  {
    var d := FirstIn(p, f, UUID_REPORT_REF, i);
    if d.Some? && i !in f.refs then TagOf(d.value.value) else 0
  }

  /** One subscription if the window has a CCC and its subscribe went through. */
  function SubFor(p: Peer, f: Faults, i: nat): seq<Sub>
    requires HasHids(p) && i < |Reports(p, f)|
  {
    var d := FirstIn(p, f, UUID_CCC, i);
    if d.Some? && i !in f.cccs then [Sub(Reports(p, f)[i], d.value.handle, TagFor(p, f, i))] else []
  }

  function SubsFor(p: Peer, f: Faults, n: nat): seq<Sub>
    requires HasHids(p) && n <= |Reports(p, f)|
  {
    if n == 0 then [] else SubsFor(p, f, n - 1) + SubFor(p, f, n - 1)
  }

  /** How many reports discovery goes through: all, unless a call that did not start ends it. */
  function Goal(p: Peer, f: Faults): (n: nat)
    requires HasHids(p)
    ensures n <= |Reports(p, f)|
  {
    if f.stop.Some? && f.stop.value <= |Reports(p, f)| then f.stop.value else |Reports(p, f)|
  }

  /** The subscriptions b, those torn down with value handle 0. */
  ghost predicate SameSubs(a: seq<Sub>, b: seq<Sub>, torn: set<nat>) {
    && |a| == |b|
    && (forall k :: 0 <= k < |a| ==> a[k] == if k in torn then b[k].(valueHandle := 0) else b[k])
    && forall k :: k in torn ==> k < |a|
  }

  // ------------------------------------------------------- the state so far

  /** Nothing failed, or the Report Map alone. */
  predicate NoneButMap(f: Faults) { f == NO_FAULTS || f == NO_FAULTS.(noMap := true) }

  ghost predicate Under(s: set<nat>, n: nat) { forall k :: k in s ==> k < n }

  /** Wiring is under way: i reports are done, as the table says. */
  ghost predicate WiredUpTo(c: Central, p: Peer, f: Faults, i: nat) {
    && HasHids(p) && c.hidsEnd == HidsEnd(p) && c.pending == Reports(p, f)
    && i <= |Reports(p, f)| && c.idx == i && SameSubs(c.subs, SubsFor(p, f, i), f.torn)
    && !f.hids && f.stop.None?
  }

  ghost predicate Discovered(c: Central, p: Peer, f: Faults, pos: nat, refValue: Option<seq<byte>>) {
    match c.disc
    case HidsPrimary => if c.procs == [] then f.hids || !HasHids(p) else f == NO_FAULTS
    case ReportMapChrc =>
      && f == NO_FAULTS && HasHids(p) && c.hidsEnd == HidsEnd(p) && |c.procs| == 1
      && (if c.procs[0].ReadMap? then MapHandle(p) == Some(c.procs[0].handle) else c.procs[0] == MapPass(p))
    case ReportChrc =>
      && NoneButMap(f) && HasHids(p) && c.hidsEnd == HidsEnd(p) && pos <= |p.attrs|
      && c.procs == [Discover(Characteristic, UUID_REPORT, FIRST_HANDLE, HidsEnd(p))]
      && c.pending == Take(Notifying(p, pos, HidsEnd(p)), MAX_REPORTS)
    case ReportRef =>
      && WiredUpTo(c, p, f, c.idx) && c.idx < |Reports(p, f)| && |c.procs| == 1
      && Under(f.refs, c.idx) && Under(f.cccs, c.idx)
      && (if c.procs[0].ReadRef?
          then FirstIn(p, f, UUID_REPORT_REF, c.idx).Some? && refValue == Some(FirstIn(p, f, UUID_REPORT_REF, c.idx).value.value)
          else c.procs[0] == InWindow(c, UUID_REPORT_REF) && c.reportId == 0)
    case Ccc =>
      && WiredUpTo(c, p, f, c.idx) && c.idx < |Reports(p, f)| && c.procs == [InWindow(c, UUID_CCC)]
      && Under(f.refs, c.idx + 1) && Under(f.cccs, c.idx)
      && c.reportId == TagFor(p, f, c.idx)
    case Idle => HasHids(p) && !f.hids && SameSubs(c.subs, SubsFor(p, f, Goal(p, f)), f.torn)
  }

  ghost predicate Tracks(w: World) { w.started ==> Discovered(w.c, w.peer, w.faults, w.pos, w.refValue) }

  /** A fault of a later report does not change the subscriptions of the reports before it. */
  lemma {:induction false} SubsForSame(p: Peer, f: Faults, g: Faults, n: nat)
    requires HasHids(p) && f.seen == g.seen && n <= |Reports(p, f)|
    requires forall k: nat :: k < n ==> (k in f.refs <==> k in g.refs) && (k in f.cccs <==> k in g.cccs)
    ensures Reports(p, g) == Reports(p, f) && SubsFor(p, g, n) == SubsFor(p, f, n)
    decreases n
  {
    hide Reports, HidsEnd, HasHids, FirstIn;
    ReportsSame(p, f, g);
    if n > 0 {
      SubsForSame(p, f, g, n - 1);
      FirstInSame(p, f, g, UUID_REPORT_REF, n - 1);
      FirstInSame(p, f, g, UUID_CCC, n - 1);
    }
  }

  lemma ReportsSame(p: Peer, f: Faults, g: Faults)
    requires HasHids(p) && f.seen == g.seen
    ensures Reports(p, g) == Reports(p, f)
  {
    hide Notifying, HidsIndex;
  }

  lemma NoSubsYet(c: Central, p: Peer, f: Faults)
    requires HasHids(p) && c.subs == [] && f.torn == {}
    ensures SameSubs(c.subs, SubsFor(p, f, 0), f.torn)
  {}

  // ------------------------------- the next call, started or not, from a known state

  lemma ReportPassTracks(c: Central, p: Peer, f: Faults, api: Api, from: Central, hit: bool, t: Option<seq<byte>>)
    requires NoneButMap(f) && c.procs == [] && HasHids(p) && c.hidsEnd == HidsEnd(p)
    requires from.disc.ReportMapChrc? && !(hit && api.read)
    ensures Discovered(StartReportDiscovery(c, api), p, Skipped(f, from, hit, api), 0, t)
  {
    hide Reports, HidsEnd, HasHids, Notifying;
    var d := StartReportDiscovery(c, api);
    NoSubsYet(d, p, Skipped(f, from, hit, api));
    if d.disc.ReportChrc? { NotifyingNone(p); }
  }

  lemma NotifyingNone(p: Peer)
    requires HasHids(p)
    ensures Notifying(p, 0, HidsEnd(p)) == []
  {}

  /** Discovery ends here because a call did not start: what is wired so far is what the table calls for so far. */
  lemma StopTracks(c: Central, p: Peer, f: Faults)
    requires WiredUpTo(c, p, f, c.idx)
    ensures var g := f.(stop := Some(c.idx));
            HasHids(p) && !g.hids && SameSubs(c.subs, SubsFor(p, g, Goal(p, g)), g.torn)
  {
    hide Reports, HidsEnd, HasHids, SameSubs, FirstIn;
    SubsForSame(p, f, f.(stop := Some(c.idx)), c.idx);
  }

  lemma CccTracks(c: Central, p: Peer, f: Faults, api: Api, from: Central, hit: bool, t: Option<seq<byte>>)
    requires c.procs == [] && WiredUpTo(c, p, f, c.idx) && c.idx < |c.pending| && c.reportId == TagFor(p, f, c.idx)
    requires Under(f.refs, c.idx + 1) && Under(f.cccs, c.idx)
    requires from.disc.ReportRef? && from.idx == c.idx && !(hit && api.read)
    ensures Discovered(DiscoverCcc(c, api), p, Skipped(f, from, hit, api), 0, t)
  {
    hide Reports, TagFor, SubsFor, HidsEnd, HasHids, WindowLo, WindowHi, SameSubs;
    StopTracks(c, p, f);
  }

  /** A report passed over is tagged 0. */
  lemma PassedOver(c: Central, p: Peer, f: Faults)
    requires WiredUpTo(c, p, f, c.idx) && c.idx < |c.pending|
    ensures var g := f.(refs := f.refs + {c.idx}); WiredUpTo(c, p, g, c.idx) && TagFor(p, g, c.idx) == 0
  {
    hide Reports, HidsEnd, HasHids, SameSubs;
    SubsForSame(p, f, f.(refs := f.refs + {c.idx}), c.idx);
  }

  lemma PendingTracks(c: Central, p: Peer, f: Faults, api: Api, t: Option<seq<byte>>)
    requires c.procs == [] && WiredUpTo(c, p, f, c.idx) && Under(f.refs, c.idx) && Under(f.cccs, c.idx)
    ensures Discovered(SubscribePending(c, api), p, if c.idx < |c.pending| then NextReport(f, c.idx, api) else f, 0, t)
  {
    hide Reports, TagFor, SubsFor, HidsEnd, HasHids, WindowLo, WindowHi, SameSubs, FirstIn;
    StopTracks(c, p, f);
    if c.idx < |c.pending| { PassedOver(c, p, f); }
  }

  lemma {:induction false} SkipToMatch(p: Peer, from: nat, end: nat, hi: uint16)
    requires from <= end <= |p.attrs|
    requires forall k :: from <= k < end ==> !Matches(p.attrs[k], Discover(Characteristic, UUID_REPORT, FIRST_HANDLE, hi))
    ensures Notifying(p, end, hi) == Notifying(p, from, hi)
    decreases end
  {
    if from < end {
      SkipToMatch(p, from, end - 1, hi);
      assert !Matches(p.attrs[end - 1], Discover(Characteristic, UUID_REPORT, FIRST_HANDLE, hi));
    }
  }

  /** A characteristic the report pass delivers extends the list exactly as the table says. */
  lemma FoundTracks(c: Central, p: Peer, f: Faults, pos: nat, j: nat, t: Option<seq<byte>>)
    requires c.disc.ReportChrc? && Discovered(c, p, f, pos, t)
    requires pos <= j < |p.attrs| && Matches(p.attrs[j], c.procs[0])
    requires forall k :: pos <= k < j ==> !Matches(p.attrs[k], c.procs[0])
    ensures Discovered(AddReport(c, p.attrs[j].valueHandle, p.attrs[j].notify), p, f, j + 1, t)
  {
    hide HidsIndex;
    SkipToMatch(p, pos, j, HidsEnd(p));
  }

  lemma NoMatch(p: Peer, q: Proc)
    requires forall k :: 0 <= k < |p.attrs| ==> !Matches(p.attrs[k], q)
    ensures NextMatch(p.attrs, q, 0) == |p.attrs|
  {
    hide Matches;
  }

  // --------------------------------------------- a pass ends, or is broken off

  /** The pass is over: it found nothing more, or it was broken off. */
  ghost predicate PassOver(c: Central, p: Peer, pos: nat, broken: bool)
    requires |c.procs| > 0
  {
    broken || forall k :: pos <= k < |p.attrs| ==> !Matches(p.attrs[k], c.procs[0])
  }

  /** What the end of a pass adds to the faults. */
  function EndFaults(f: Faults, c: Central, pos: nat, broken: bool): Faults { if broken then Broken(f, c, pos) else f }

  lemma HidsEndTracks(c: Central, p: Peer, f: Faults, broken: bool)
    requires c.disc.HidsPrimary? && c.procs == [HIDS_PASS] && PassOver(c, p, 0, broken)
    ensures EndFaults(f, c, 0, broken).hids || !HasHids(p)
  {
    hide Matches;
    if !broken { NoMatch(p, HIDS_PASS); }
  }

  /** When the report pass is over, the list is the table's, as far as the pass went. */
  lemma ReportsEndTrack(c: Central, p: Peer, f: Faults, pos: nat, broken: bool)
    requires c.disc.ReportChrc? && Discovered(c, p, f, pos, None) && PassOver(c, p, pos, broken) && c.subs == [] && c.idx == 0
    ensures var g := EndFaults(f, c, pos, broken);
            WiredUpTo(c, p, g, 0) && Under(g.refs, 0) && Under(g.cccs, 0)
  {
    hide Matches, HidsIndex;
    if !broken { SkipToMatch(p, pos, |p.attrs|, HidsEnd(p)); }
    NoSubsYet(c, p, EndFaults(f, c, pos, broken));
  }

  lemma RefEndTracks(c: Central, p: Peer, f: Faults, broken: bool)
    requires c.disc.ReportRef? && Discovered(c, p, f, 0, None) && !c.procs[0].ReadRef? && PassOver(c, p, 0, broken)
    ensures var g := EndFaults(f, c, 0, broken);
            && WiredUpTo(c, p, g, c.idx) && TagFor(p, g, c.idx) == 0 && Under(g.refs, c.idx + 1) && Under(g.cccs, c.idx)
  {
    hide Matches, Reports, HidsEnd, HasHids, SameSubs, SubsFor, WindowLo, WindowHi;
    if broken { PassedOver(c, p, f); } else { NoMatch(p, c.procs[0]); }
  }

  /** A report without a subscription: none found, or the search broken off. */
  lemma CccEndTracks(c: Central, p: Peer, f: Faults, broken: bool)
    requires c.disc.Ccc? && Discovered(c, p, f, 0, None) && PassOver(c, p, 0, broken)
    ensures var g := EndFaults(f, c, 0, broken); var c1 := c.(idx := c.idx + 1);
            WiredUpTo(c1, p, g, c1.idx) && Under(g.refs, c1.idx) && Under(g.cccs, c1.idx)
  {
    hide Matches, Reports, HidsEnd, HasHids, SameSubs, TagFor, WindowLo, WindowHi;
    var g := EndFaults(f, c, 0, broken);
    if !broken { NoMatch(p, c.procs[0]); }
    SubsForSame(p, f, g, c.idx);
    assert SubFor(p, g, c.idx) == [];
    assert SubsFor(p, g, c.idx + 1) == SubsFor(p, g, c.idx) + SubFor(p, g, c.idx) == SubsFor(p, g, c.idx);
  }

  lemma PassEndTracks(c: Central, p: Peer, f: Faults, pos: nat, broken: bool, api: Api, u: Option<seq<byte>>, t: Option<seq<byte>>)
    requires Shaped(c) && |c.procs| > 0 && c.procs[0].Discover? && Discovered(c, p, f, pos, u)
    requires !c.disc.ReportChrc? ==> pos == 0
    requires PassOver(c, p, pos, broken)
    ensures Wiring(Finish(c))
    ensures Discovered(PassEnd(Finish(c), api), p, Skipped(EndFaults(f, c, pos, broken), c, false, api), 0, t)
  {
    hide StartReportDiscovery, SubscribePending, DiscoverCcc, PassOver, EndFaults, Under, Skipped, WiredUpTo, TagFor, MapPass, Reports;
    var e := Finish(c);
    var g := EndFaults(f, c, pos, broken);
    SkippedAfter(g, c, api);
    match c.disc {
      case HidsPrimary => HidsEndTracks(c, p, f, broken);
      case ReportMapChrc =>
        EndFaultsOfMap(f, c, broken);
        ReportPassTracks(e, p, g, api, c, false, t);
      case ReportChrc =>
        ReportsEndTrack(c, p, f, pos, broken);
        MoveWired(c, e, p, g, 0);
        if |e.pending| == 0 { NothingPending(e.(idx := 0), api); }
        PendingTracks(e.(idx := 0), p, g, api, t);
      case ReportRef =>
        RefEndTracks(c, p, f, broken);
        MoveWired(c, e, p, g, c.idx);
        TagIsId(c, p, f, u);
        CccTracks(e, p, g, api, c, false, t);
      case Ccc =>
        CccEndTracks(c, p, f, broken);
        MoveWired(c.(idx := c.idx + 1), e.(idx := c.idx + 1), p, g, c.idx + 1);
        PendingTracks(e.(idx := c.idx + 1), p, g, api, t);
    }
  }

  /** What the next call costs, where it is for the next report or for none. */
  lemma SkippedAfter(f: Faults, c: Central, api: Api)
    ensures c.disc.HidsPrimary? ==> Skipped(f, c, false, api) == f
    ensures c.disc.ReportChrc? ==> Skipped(f, c, false, api) == if 0 < |c.pending| then NextReport(f, 0, api) else f
    ensures c.disc.Ccc? ==> forall hit :: Skipped(f, c, hit, api) == if c.idx + 1 < |c.pending| then NextReport(f, c.idx + 1, api) else f
  {}

  lemma EndFaultsOfMap(f: Faults, c: Central, broken: bool)
    requires c.disc.ReportMapChrc? && f == NO_FAULTS
    ensures forall pos: nat :: NoneButMap(EndFaults(f, c, pos, broken))
  {}

  lemma MoveWired(c: Central, e: Central, p: Peer, f: Faults, i: nat)
    requires WiredUpTo(c, p, f, i) && e.hidsEnd == c.hidsEnd && e.pending == c.pending && e.idx == c.idx && e.subs == c.subs
    ensures WiredUpTo(e, p, f, i)
    ensures HasHids(p) && e.pending == Reports(p, f) && e.hidsEnd == HidsEnd(p) && !f.hids
  {
    hide Reports, HidsEnd, HasHids, SubsFor, SameSubs;
  }

  lemma TagIsId(c: Central, p: Peer, f: Faults, u: Option<seq<byte>>)
    requires c.disc.ReportRef? && Discovered(c, p, f, 0, u) && !c.procs[0].ReadRef?
    ensures c.reportId == 0
  {
    hide Reports, HidsEnd, HasHids, SubsFor, SameSubs, WiredUpTo;
  }

  /** With nothing to wire, going idle is what wiring an empty list does. */
  lemma NothingPending(c: Central, api: Api)
    requires |c.pending| == 0
    ensures SubscribePending(c, api) == c.(disc := Idle)
  {}

  // ------------------------------------------------------- an attribute is found

  lemma SubsGrow(a: seq<Sub>, b: seq<Sub>, x: Sub, torn: set<nat>)
    requires SameSubs(a, b, torn)
    ensures SameSubs(a + [x], b + [x], torn)
  {}

  lemma WireTracks(e: Central, c: Central, p: Peer, f: Faults, a: Attr, api: Api, t: Option<seq<byte>>)
    requires c.disc.Ccc? && e.procs == [] && WiredUpTo(e, p, f, e.idx) && e.idx < |Reports(p, f)| && |e.subs| <= e.idx && |e.pending| <= MAX_REPORTS
    requires c.idx == e.idx && c.pending == e.pending && Under(f.refs, e.idx + 1) && Under(f.cccs, e.idx)
    requires e.reportId == TagFor(p, f, e.idx) && a.Desc? && FirstIn(p, f, UUID_CCC, e.idx) == Some(a)
    ensures Discovered(WireReport(e, a.handle, api), p, Skipped(Refused(f, c, Some(a), api), c, true, api), 0, t)
  {
    hide SubscribePending, Reports, HidsEnd, HasHids, FirstIn, Skipped, NextReport, SameSubs;
    var g := Refused(f, c, Some(a), api);
    SubsForSame(p, f, g, e.idx);
    FirstInSame(p, f, g, UUID_CCC, e.idx);
    FirstInSame(p, f, g, UUID_REPORT_REF, e.idx);
    assert SubsFor(p, g, e.idx + 1) == SubsFor(p, g, e.idx) + SubFor(p, g, e.idx);
    if !api.subscribe.SubscribeFailed? {
      SubsGrow(e.subs, SubsFor(p, f, e.idx), Sub(e.pending[e.idx], a.handle, e.reportId), f.torn);
    } else {
      assert SubsFor(p, g, e.idx + 1) == SubsFor(p, g, e.idx);
    }
    var s := Subscribe(e, a.handle, api);
    SkippedAfter(g, c, api);
    PendingTracks(s.(idx := s.idx + 1), p, g, api, t);
  }

  lemma FirstInSame(p: Peer, f: Faults, g: Faults, uuid: uint16, i: nat)
    requires HasHids(p) && f.seen == g.seen && i < |Reports(p, f)|
    ensures Reports(p, g) == Reports(p, f) && FirstIn(p, g, uuid, i) == FirstIn(p, f, uuid, i)
  {
    hide Notifying, HidsIndex, WindowLo, WindowHi;
  }

  /** The Report Reference that was found is being read, or passed over. */
  lemma RefTracks(e: Central, c: Central, p: Peer, f: Faults, a: Attr, api: Api)
    requires c.disc.ReportRef? && e.disc.ReportRef? && e.procs == [] && WiredUpTo(e, p, f, e.idx) && e.idx < |e.pending|
    requires c.idx == e.idx && Under(f.refs, e.idx) && Under(f.cccs, e.idx) && a.Desc?
    requires FirstIn(p, f, UUID_REPORT_REF, e.idx) == Some(a)
    ensures Discovered(ReadReportRef(e, a.handle, api), p, Skipped(Refused(f, c, Some(a), api), c, true, api), 0, Some(a.value))
  {
    hide DiscoverCcc, Reports, HidsEnd, HasHids, FirstIn, SubsFor, SameSubs, TagFor;
    if !api.read {
      PassedOver(e, p, f);
      CccTracks(e.(reportId := 0), p, f.(refs := f.refs + {e.idx}), api, c, true, Some(a.value));
    }
  }

  lemma HidsFoundTracks(e: Central, c: Central, p: Peer, a: Attr, api: Api, t: Option<seq<byte>>)
    requires c.disc.HidsPrimary? && e.procs == [] && e.subs == [] && e.pending == [] && e.idx == 0
    requires HasHids(p) && a == p.attrs[HidsIndex(p)] && a.Service?
    ensures Discovered(FoundHids(e, a, api), p, Skipped(NO_FAULTS, c, true, api), 0, t)
  {
    hide Reports, MapHandle, HidsIndex;
    NoSubsYet(FoundHids(e, a, api), p, Skipped(NO_FAULTS, c, true, api));
  }

  lemma MapFoundTracks(e: Central, c: Central, p: Peer, handle: uint16, api: Api, t: Option<seq<byte>>)
    requires c.disc.ReportMapChrc? && e.disc.ReportMapChrc? && e.procs == [] && HasHids(p) && e.hidsEnd == HidsEnd(p)
    requires MapHandle(p) == Some(handle)
    ensures Discovered(ReadReportMap(e, handle, api), p, Skipped(if api.read then NO_FAULTS else NO_FAULTS.(noMap := true), c, true, api), 0, t)
  {
    hide StartReportDiscovery, MapHandle, HidsEnd, HasHids;
    if !api.read { ReportPassTracks(e.(rm := []), p, NO_FAULTS.(noMap := true), api, c, true, t); }
  }

  lemma HitTracks(c: Central, p: Peer, f: Faults, j: nat, api: Api, u: Option<seq<byte>>)
    requires Shaped(c) && |c.procs| > 0 && c.procs[0].Discover? && !c.disc.ReportChrc? && Discovered(c, p, f, 0, u)
    requires j == NextMatch(p.attrs, c.procs[0], 0) < |p.attrs|
    ensures Wiring(Finish(c)) && Expected(Finish(c), Some(p.attrs[j]))
    ensures var a := p.attrs[j];
            Discovered(Found(Finish(c), a, api), p, Skipped(Refused(f, c, Some(a), api), c, true, api), 0, if a.Desc? then Some(a.value) else None)
  {
    hide FoundHids, ReadReportMap, ReadReportRef, WireReport, Skipped, Refused, Under, TagFor, SameSubs, SubsFor;
    var e, a := Finish(c), p.attrs[j];
    match c.disc {
      case HidsPrimary =>
        RefusedOnly(f, c, a, api);
        HidsFoundTracks(e, c, p, a, api, None);
      case ReportMapChrc =>
        RefusedOnly(f, c, a, api);
        MapFoundTracks(e, c, p, a.valueHandle, api, None);
      case ReportRef => RefTracks(e, c, p, f, a, api);
      case Ccc => WireTracks(e, c, p, f, a, api, Some(a.value));
    }
  }

  lemma RefusedOnly(f: Faults, c: Central, a: Attr, api: Api)
    requires c.disc.HidsPrimary? || c.disc.ReportMapChrc?
    ensures Refused(f, c, Some(a), api) == if c.disc.ReportMapChrc? && !api.read then f.(noMap := true) else f
  {}

  // ----------------------------------------------------------------- every run

  lemma DiscoverTracks(w: World, e: Event)
    requires Enabled(w, e) && Sane(w) && Tracks(w) && (e.DiscoverNext? || e.DiscoverAborted?)
    ensures Tracks(Next(w, e))
  {
    GattKeepsLife(w, e);
    StartedIfBusy(w);
    hide Discovered, PassEnd, Found, Matches, Shaped, SameLife, Skipped, Refused, Broken;
    if e.DiscoverAborted? {
      PassEndTracks(w.c, w.peer, w.faults, w.pos, true, e.api, w.refValue, None);
    } else {
      var j := NextMatch(w.peer.attrs, w.c.procs[0], w.pos);
      if j == |w.peer.attrs| {
        PassEndTracks(w.c, w.peer, w.faults, w.pos, false, e.api, w.refValue, None);
        NothingRefused(w.faults, w.c, e.api);
      } else if w.c.disc.ReportChrc? {
        FoundShaped(w.c, w.peer.attrs[j], e.api);
        FoundTracks(w.c, w.peer, w.faults, w.pos, j, w.refValue);
      } else {
        HitTracks(w.c, w.peer, w.faults, j, e.api, w.refValue);
      }
    }
  }

  lemma NothingRefused(f: Faults, c: Central, api: Api)
    ensures Refused(f, c, None, api) == f
  {}

  lemma MapEndTracks(w: World, r: MapRead, api: Api)
    requires |w.c.procs| > 0 && w.c.procs[0].ReadMap? && Sane(w) && Tracks(w) && (r.MapDone? || r.MapError?)
    ensures Tracks(DoMapEnd(w, r, api))
  {
    hide StartReportDiscovery, Skipped, MapHandle, HidsEnd, HasHids, ParsePointer;
    var e := Finish(w.c);
    var l := ParsePointer(e.rm);
    var e1 := if r.MapError? then e else e.(layout := l, layoutValid := e.layoutValid || l.valid);
    if w.started {
      ReportPassTracks(e1, w.peer, if r.MapError? then NO_FAULTS.(noMap := true) else NO_FAULTS, api, w.c, false, w.refValue);
    }
  }

  lemma RefAnswerTracks(w: World, data: Option<seq<byte>>, api: Api)
    requires Enabled(w, RefAnswer(data, api)) && Sane(w) && Tracks(w)
    ensures Tracks(Next(w, RefAnswer(data, api)))
  {
    hide DiscoverCcc, Skipped, SubsFor, HidsEnd, HasHids, Reports, FirstIn, SameSubs;
    StartedIfBusy(w);
    var e := Finish(w.c);
    if data.Some? {
      CccTracks(e.(reportId := TagOf(data.value)), w.peer, w.faults, api, w.c, false, w.refValue);
    } else {
      PassedOver(e, w.peer, w.faults);
      CccTracks(e.(reportId := 0), w.peer, Broken(w.faults, w.c, 0), api, w.c, false, w.refValue);
    }
  }

  lemma TearingKeeps(a: seq<Sub>, b: seq<Sub>, torn: set<nat>, k: nat)
    requires SameSubs(a, b, torn) && k < |a|
    ensures SameSubs(a[k := a[k].(valueHandle := 0)], b, torn + {k})
  {}

  lemma NotifyTracks(w: World, k: nat, data: seq<byte>)
    requires Sane(w) && Tracks(w) && k < |w.c.subs|
    ensures Tracks(w.(c := NotifyCb(w.c, k, Some(data))))
  {
    hide Reports, SubsFor, TagFor, HidsEnd, HasHids, FirstIn, Notifying, SameSubs, Cut;
  }

  /** What is torn down is remembered, and changes nothing else. */
  lemma TornTracks(w: World, k: nat)
    requires Enabled(w, TornDown(k)) && Sane(w) && Tracks(w)
    ensures Tracks(Next(w, TornDown(k)))
  {
    hide Reports, SubsFor, TagFor, HidsEnd, HasHids, FirstIn, Notifying, SameSubs, Goal;
    if k < |w.c.subs| && w.started {
      var g := w.faults.(torn := w.faults.torn + {k});
      if w.c.disc.Idle? {
        TornSame(w.peer, w.faults, g, Goal(w.peer, w.faults));
        TearingKeeps(w.c.subs, SubsFor(w.peer, w.faults, Goal(w.peer, w.faults)), w.faults.torn, k);
      } else if w.c.disc.ReportRef? || w.c.disc.Ccc? {
        TornSame(w.peer, w.faults, g, w.c.idx);
        FirstInSame(w.peer, w.faults, g, UUID_REPORT_REF, w.c.idx);
        TagSame(w.peer, w.faults, g, w.c.idx);
        TearingKeeps(w.c.subs, SubsFor(w.peer, w.faults, w.c.idx), w.faults.torn, k);
      }
    }
  }

  lemma TornSame(p: Peer, f: Faults, g: Faults, n: nat)
    requires HasHids(p) && n <= |Reports(p, f)| && g == f.(torn := g.torn)
    ensures Reports(p, g) == Reports(p, f) && SubsFor(p, g, n) == SubsFor(p, f, n) && Goal(p, g) == Goal(p, f)
  {
    hide Reports, HidsEnd, HasHids;
    SubsForSame(p, f, g, n);
  }

  lemma TagSame(p: Peer, f: Faults, g: Faults, i: nat)
    requires HasHids(p) && i < |Reports(p, f)| && g == f.(torn := g.torn)
    ensures Reports(p, g) == Reports(p, f) && TagFor(p, g, i) == TagFor(p, f, i)
  {
    hide Reports, HidsEnd, HasHids, FirstIn;
    FirstInSame(p, f, g, UUID_REPORT_REF, i);
  }

  lemma OtherTracks(w: World, e: Event)
    requires Enabled(w, e) && Sane(w) && Tracks(w) && !IsGatt(e)
    ensures Tracks(Next(w, e))
  {
    hide Published, NotifyCb, Reports, SubsFor, TagFor, HidsEnd, HasHids, FirstIn, Notifying, SameSubs;
    match e {
      case Notify(k, data) => NotifyTracks(w, k, data);
      case TornDown(k) => TornTracks(w, k);
      case _ =>
    }
  }

  lemma ChunkTracks(w: World, n: nat)
    requires Enabled(w, MapChunk(n)) && Sane(w) && Tracks(w)
    ensures Tracks(Next(w, MapChunk(n)))
  {
    hide Fitting, MapHandle, HidsEnd, HasHids;
  }

  lemma StepTracks(w: World, e: Event)
    requires Enabled(w, e) && Sane(w) && Tracks(w)
    ensures Tracks(Next(w, e))
  {
    hide Enabled, Sane, Tracks, DoMapEnd;
    match e {
      case DiscoverNext(_) => DiscoverTracks(w, e);
      case DiscoverAborted(_) => DiscoverTracks(w, e);
      case MapChunk(n) => ChunkTracks(w, n);
      case MapEnd(api) => MapEndReads(w, e); MapEndTracks(w, MapDone, api);
      case MapBroken(api) => MapEndReads(w, e); MapEndTracks(w, MapError, api);
      case RefAnswer(data, api) => RefAnswerTracks(w, data, api);
      case _ => OtherTracks(w, e);
    }
  }

  lemma MapEndReads(w: World, e: Event)
    requires Enabled(w, e) && (e.MapEnd? || e.MapBroken?)
    ensures |w.c.procs| > 0 && w.c.procs[0].ReadMap?
  {}

  /** At every point of every run the state of discovery is the one the table and the faults so far prescribe. */
  lemma {:induction false} RunTracks(ws: seq<World>, es: seq<Event>, i: nat)
    requires IsRun(ws, es) && i < |ws|
    ensures Tracks(ws[i])
    decreases i
  {
    hide Next, Enabled, Sane, Discovered;
    if i > 0 {
      RunTracks(ws, es, i - 1);
      RunSane(ws, es, i - 1);
      StepTracks(ws[i - 1], es[i - 1]);
    }
  }

  /**
   * When discovery is over, in any run, the subscriptions are exactly those the table calls for: in table
   * order, one for each of the first twelve notifiable reports the report pass saw, up to the one a call
   * that did not start stopped at, that has a CCC and whose subscribe went through, tagged with its own
   * window's Report Reference or, if that could not be sought or read, with 0.
   */
  lemma SubscriptionsAreTheTables(ws: seq<World>, es: seq<Event>, i: nat)
    requires IsRun(ws, es) && i < |ws|
    requires ws[i].started && ws[i].c.disc.Idle?
    ensures var w := ws[i]; HasHids(w.peer) && SameSubs(w.c.subs, SubsFor(w.peer, w.faults, Goal(w.peer, w.faults)), w.faults.torn)
  {
    hide Reports, SubsFor, HasHids, Goal, SameSubs;
    RunTracks(ws, es, i);
  }

  /** A map read that is under way reads the first Report Map of the peer's first HID service. */
  lemma MapReadIsTheTables(ws: seq<World>, es: seq<Event>, i: nat)
    requires IsRun(ws, es) && i < |ws|
    requires |ws[i].c.procs| == 1 && ws[i].c.procs[0].ReadMap?
    ensures HasHids(ws[i].peer) && MapHandle(ws[i].peer) == Some(ws[i].c.procs[0].handle)
  {
    hide Reports, SubsFor, HasHids;
    RunTracks(ws, es, i);
    RunSane(ws, es, i);
    StartedIfBusy(ws[i]);
  }

  /**
   * Discovery never wedges silently: exactly one procedure is outstanding outside the states Idle and
   * HidsPrimary, in every world sub_count <= pending_idx <= pending_count <= 12, and no callback reads past
   * the pending list. When no procedure is outstanding on a secured link, discovery is stuck at its first
   * step instead of over exactly when the HID service could not be sought or the peer has none.
   */
  lemma NeverWedged(ws: seq<World>, es: seq<Event>, i: nat)
    requires IsRun(ws, es) && i < |ws|
    ensures var c := ws[i].c;
            && (!c.disc.Idle? && !c.disc.HidsPrimary? ==> |c.procs| == 1)
            && |c.procs| <= 1
            && |c.subs| <= c.idx <= |c.pending| <= MAX_REPORTS
            && Wiring(c)
    ensures ws[i].c.disc.HidsPrimary? ==> ws[i].started
    ensures ws[i].started && ws[i].c.procs == [] ==>
              (ws[i].c.disc.HidsPrimary? <==> ws[i].faults.hids || !HasHids(ws[i].peer))
  {
    hide HasHids, WiredUpTo, SubsFor, Reports;
    RunTracks(ws, es, i);
    RunSane(ws, es, i);
  }

  /** Stuck there, discovery stays there whatever happens, until the link ends. */
  lemma {:induction false} StuckStays(ws: seq<World>, es: seq<Event>, i: nat, j: nat)
    requires IsRun(ws, es) && i <= j <= |es| && ws[i].c.disc.HidsPrimary? && ws[i].c.procs == []
    requires forall k :: i <= k < j ==> !es[k].LinkDown?
    ensures ws[j].c.disc.HidsPrimary? && ws[j].c.procs == [] && ws[j].c.subs == [] && !ws[j].c.layoutValid
    decreases j
  {
    hide Next, Enabled;
    RunSane(ws, es, j);
    if i < j {
      StuckStays(ws, es, i, j - 1);
      RunSane(ws, es, j - 1);
      StuckStep(ws[j - 1], es[j - 1]);
    }
  }

  lemma StuckStep(w: World, e: Event)
    requires Enabled(w, e) && Sane(w) && w.c.disc.HidsPrimary? && w.c.procs == [] && !e.LinkDown?
    ensures Next(w, e).c.disc.HidsPrimary? && Next(w, e).c.procs == []
  {
    hide Published, Cut;
  }

  // ------------------------------------------------------------- where faults come from

  predicate AllStart(api: Api) {
    api.mapDiscover && api.reportDiscover && api.refDiscover && api.cccDiscover && api.read && !api.subscribe.SubscribeFailed?
  }

  /** An event in which the environment lets a pass, a read, a subscribe or a call fail. */
  predicate Fails(e: Event) {
    match e
    case Secured(ok, discoverOk) => ok && !discoverOk
    case DiscoverNext(api) => !AllStart(api)
    case DiscoverAborted(_) => true
    case MapEnd(api) => !AllStart(api)
    case MapBroken(_) => true
    case RefAnswer(answer, api) => answer.None? || !AllStart(api)
    case TornDown(_) => true
    case _ => false
  }

  /** Without a failure no fault is added: a discovery that meets none refines the bare table. */
  lemma OnlyFailuresFault(w: World, e: Event)
    requires Enabled(w, e) && Sane(w) && !Fails(e)
    ensures Next(w, e).faults == (if e.LinkUp? || (e.Secured? && e.ok) then NO_FAULTS else w.faults)
  {
    hide Deliver, ReportMapRead, ReportRefRead, Shaped, Published, Cut;
  }

  lemma MapReadState(w: World)
    requires Sane(w) && |w.c.procs| > 0 && w.c.procs[0].ReadMap?
    ensures w.c.disc.ReportMapChrc?
  {}

  lemma RefReadState(w: World)
    requires Sane(w) && |w.c.procs| > 0 && w.c.procs[0].ReadRef?
    ensures w.c.disc.ReportRef? && w.c.idx < |w.c.pending|
  {}

  /**
   * A discovery that meets no failure, over whole runs: from a successful security event on, if no event
   * fails, then whenever discovery is over the subscriptions are those the bare table calls for, one for
   * each of the first twelve notifiable reports that has a CCC.
   */
  lemma FaultlessRefinesTable(ws: seq<World>, es: seq<Event>, i: nat, j: nat)
    requires IsRun(ws, es) && i < j <= |es| && es[i].Secured? && es[i].ok
    requires forall k :: i <= k < j ==> !Fails(es[k])
    requires ws[j].started && ws[j].c.disc.Idle?
    ensures var p := ws[j].peer; HasHids(p) && ws[j].c.subs == SubsFor(p, NO_FAULTS, |Reports(p, NO_FAULTS)|)
  {
    hide SubsFor, HasHids, Fails, Reports;
    NoFaultsSince(ws, es, i, j);
    SubscriptionsAreTheTables(ws, es, j);
  }

  lemma {:induction false} NoFaultsSince(ws: seq<World>, es: seq<Event>, i: nat, j: nat)
    requires IsRun(ws, es) && i < j <= |es| && es[i].Secured? && es[i].ok
    requires forall k :: i <= k < j ==> !Fails(es[k])
    ensures ws[j].faults == NO_FAULTS
    decreases j
  {
    hide Next, Enabled, Sane, Fails;
    RunSane(ws, es, j - 1);
    OnlyFailuresFault(ws[j - 1], es[j - 1]);
    if j - 1 > i { NoFaultsSince(ws, es, i, j - 1); }
  }
}

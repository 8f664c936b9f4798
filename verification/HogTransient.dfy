/**
 * A run in which a report that is not the pointer's is published: discovery has subscribed the first
 * of two reports, so the subscription count is one, and the exception for single-report peers applies.
 */
module HogTransient {
  import opened Bits
  import opened HidTypes
  import opened HidWalk
  import opened HidDecode
  import opened HidDecodeLaws
  import opened HogSteps
  import opened HogWorld
  import opened HogRuns
  import HidMouse

  /** Three buttons, five padding bits, X and Y of eight bits, all in report 2. */
  const MOUSE := HidMouse.Mouse(2, 3, 1, 5, 8, 0, 0, [0x81], [0x7F], false, false)

  lemma MouseIsValid()
    ensures MOUSE.Valid()
  {}

  /** A report with no Report Reference, then the pointer's report with id 2. */
  const TABLE := [
    Service(1, UUID_HIDS, 20), Chrc(2, UUID_REPORT_MAP, 3, false),
    Chrc(4, UUID_REPORT, 5, true), Desc(6, UUID_CCC, []),
    Chrc(7, UUID_REPORT, 8, true), Desc(9, UUID_REPORT_REF, [2, 1]), Desc(10, UUID_CCC, [])]

  function MapBytes(): seq<byte> {
    MouseIsValid();
    HidMouse.Descriptor(MOUSE)
  }

  function Layout(): PointerLayout {
    MouseIsValid();
    HidMouse.MouseLayout(MOUSE)
  }

  const PEER := Peer(TABLE, MapBytes())

  lemma MapFacts()
    ensures 1 <= |MapBytes()| <= REPORT_MAP_MAX && ParsePointer(MapBytes()) == Layout()
    ensures Layout().valid && Layout().reportId == 2
    ensures Decode(Layout(), [0, 0, 0]).Some?
  {
    MouseIsValid();
    HidMouse.MouseDescriptorParses(MOUSE);
    HidMouse.DescriptorLength(MOUSE);
    HidMouse.LayoutFits(MOUSE);
    hide Decode, PayloadBits;
    LengthGate(Layout(), [0, 0, 0]);
  }

  const REPORT_PASS := Discover(Characteristic, UUID_REPORT, 1, 20)

  /** The answer to a discovery whose next match is attribute j (the size of the table for none). */
  lemma Answer(w: World, j: nat)
    requires |w.c.procs| == 1 && w.c.procs[0].Discover? && w.pos <= j <= |w.peer.attrs|
    requires j < |w.peer.attrs| ==> Matches(w.peer.attrs[j], w.c.procs[0])
    requires forall k :: w.pos <= k < j ==> !Matches(w.peer.attrs[k], w.c.procs[0])
    ensures var t := Next(w, DiscoverNext(OK));
            var attr := if j < |w.peer.attrs| then Some(w.peer.attrs[j]) else None;
            if attr.Some? && w.c.disc.ReportChrc? then t == w.(c := Deliver(w.c, attr, OK), pos := j + 1)
            else
              var d := Deliver(Finish(w.c), attr, OK);
              t == w.(c := d, pos := 0, sent := [], faults := Skipped(w.faults, w.c, attr.Some?, OK),
                      refValue := if attr.Some? && attr.value.Desc? then Some(attr.value.value) else None)
  {
    hide Matches, Deliver, Skipped;
    assert NextMatch(w.peer.attrs, w.c.procs[0], w.pos) == j;
  }

  // The worlds of the run, named after how far discovery has come.

  function W0(): World { Secure(PEER) }

  /** The service was found. */
  function W1(): World { In(PEER, At(ReportMapChrc, 20, [], NO_LAYOUT, [], 0, [], [Discover(Characteristic, UUID_REPORT_MAP, 2, 20)]), 0, []) }

  /** The Report Map is being read. */
  function W2(): World { In(PEER, At(ReportMapChrc, 20, [], NO_LAYOUT, [], 0, [], [ReadMap(3)]), 0, []) }

  /** All of it has arrived. */
  function W3(): World { In(PEER, At(ReportMapChrc, 20, MapBytes(), NO_LAYOUT, [], 0, [], [ReadMap(3)]), 0, MapBytes()) }

  /** It is parsed; the report pass begins. */
  function W4(): World { In(PEER, At(ReportChrc, 20, MapBytes(), Layout(), [], 0, [], [REPORT_PASS]), 0, MapBytes()) }

  /** Report 5 was found. */
  function W5(): World { In(PEER, At(ReportChrc, 20, MapBytes(), Layout(), [5], 0, [], [REPORT_PASS]), 3, MapBytes()) }

  /** Report 8 was found. */
  function W6(): World { In(PEER, At(ReportChrc, 20, MapBytes(), Layout(), [5, 8], 0, [], [REPORT_PASS]), 5, MapBytes()) }

  /** The window of report 5 is searched for a Report Reference. */
  function W7(): World { In(PEER, At(ReportRef, 20, MapBytes(), Layout(), [5, 8], 0, [], [Discover(Descriptor, UUID_REPORT_REF, 6, 7)]), 0, []) }

  /** There was none; it is searched for a CCC. */
  function W8(): World { In(PEER, At(Ccc, 20, MapBytes(), Layout(), [5, 8], 0, [], [Discover(Descriptor, UUID_CCC, 6, 7)]), 0, []) }

  /** Report 5 is subscribed with id 0; report 8 is next. */
  function W9(): World {
    In(PEER, At(ReportRef, 20, MapBytes(), Layout(), [5, 8], 1, [Sub(5, 6, 0)], [Discover(Descriptor, UUID_REPORT_REF, 9, 20)]),
       0, []).(refValue := Some([]))
  }

  predicate Leads(w: World, e: Event, t: World) { Enabled(w, e) && Next(w, e) == t }

  lemma PeerTable()
    ensures PEER.attrs == TABLE && |TABLE| == 7 && ValidPeer(PEER)
  {
    hide MapBytes;
  }

  lemma FindsService()
    ensures Leads(W0(), DiscoverNext(OK), W1())
  {
    hide Next, MapBytes, PEER;
    PeerTable();
    Answer(W0(), 0);
  }

  lemma FindsMap()
    ensures Leads(W1(), DiscoverNext(OK), W2())
  {
    hide Next, MapBytes, PEER;
    PeerTable();
    Answer(W1(), 1);
  }

  lemma ChunkStep(w: World, n: nat)
    requires Enabled(w, MapChunk(n)) && |w.c.rm| <= REPORT_MAP_MAX
    ensures var chunk := w.peer.reportMap[|w.sent|..|w.sent| + n];
            Next(w, MapChunk(n)) == w.(c := w.c.(rm := w.c.rm + Fitting(w.c.rm, chunk)), sent := w.sent + chunk)
  {
    hide Fitting;
  }

  lemma EndStep(w: World)
    requires Enabled(w, MapEnd(OK)) && |w.c.rm| <= REPORT_MAP_MAX
    ensures var l := ParsePointer(w.c.rm);
            var d := StartReportDiscovery(Finish(w.c).(layout := l, layoutValid := w.c.layoutValid || l.valid), OK);
            Next(w, MapEnd(OK)) == w.(c := d, pos := 0, faults := Skipped(w.faults, w.c, false, OK))
  {
    hide ParsePointer, StartReportDiscovery, Skipped;
  }

  lemma PeerMap()
    ensures PEER.reportMap == MapBytes()
  {
    hide MapBytes;
  }

  lemma ReadsMap()
    ensures Leads(W2(), MapChunk(|MapBytes()|), W3())
  {
    hide MapBytes, Layout, PEER, Fitting, Next, ParsePointer, Decode;
    MapFacts();
    WholeMapFits();
    PeerMap();
    assert PEER.reportMap[0..|MapBytes()|] == MapBytes();
    ChunkStep(W2(), |MapBytes()|);
  }

  lemma WholeMapFits()
    ensures [] + Fitting([], MapBytes()) == [] + MapBytes() == MapBytes()
  {
    hide MapBytes, Layout, ParsePointer, Decode;
    MapFacts();
  }

  lemma ParsesMap()
    ensures Leads(W3(), MapEnd(OK), W4())
  {
    hide MapBytes, Layout, PEER, ParsePointer, Next, Decode;
    MapFacts();
    PeerMap();
    PeerTable();
    EndStep(W3());
  }

  lemma FindsReport5()
    ensures Leads(W4(), DiscoverNext(OK), W5())
  {
    hide Next, MapBytes, Layout, PEER;
    PeerTable();
    Answer(W4(), 2);
  }

  lemma FindsReport8()
    ensures Leads(W5(), DiscoverNext(OK), W6())
  {
    hide Next, MapBytes, Layout, PEER;
    PeerTable();
    Answer(W5(), 4);
    assert [5 as uint16] + [8] == [5, 8];
  }

  lemma EndsReports()
    ensures Leads(W6(), DiscoverNext(OK), W7())
  {
    hide Next, MapBytes, Layout, PEER;
    PeerTable();
    Answer(W6(), 7);
  }

  lemma FindsNoReference()
    ensures Leads(W7(), DiscoverNext(OK), W8())
  {
    hide Next, MapBytes, Layout, PEER;
    PeerTable();
    Answer(W7(), 7);
  }

  lemma SubscribesFirst()
    ensures Leads(W8(), DiscoverNext(OK), W9())
  {
    hide Next, MapBytes, Layout, PEER, Deliver;
    PeerTable();
    WiresFirst();
    Answer(W8(), 3);
  }

  /** The CCC of report 5 is subscribed, and report 8 is next. */
  lemma WiresFirst()
    ensures Deliver(Finish(W8().c), Some(Desc(6, UUID_CCC, [])), OK) == W9().c
  {
    hide MapBytes, Layout, PEER;
  }

  /** The notification of report 5 is queued. */
  function W10(): World {
    W9().(c := W9().c.(queue := [Evt(5, 0, [0, 0, 0])]), tags := [0], notes := [Note(1, PEER, 5, 0, [0, 0, 0])])
  }

  lemma Queues()
    ensures Leads(W9(), Notify(0, [0, 0, 0]), W10())
  {
    hide MapBytes, Layout, TABLE;
    var data: seq<byte> := [0, 0, 0];
    assert Cut(data) == data;
  }

  function W11(): World {
    MapFacts();
    W10().(c := W10().c.(queue := []), tags := [], log := [Pub(0, 1, 1, Decode(Layout(), [0, 0, 0]).value)])
  }

  lemma DrainStep(w: World)
    requires Enabled(w, DrainOne) && |w.tags| > 0 && w.c.conn.Some? && Published(w.c, w.c.queue[0]).Some?
    ensures Next(w, DrainOne)
            == w.(c := Drain(w.c), tags := w.tags[1..],
                  log := w.log + [Pub(w.tags[0], w.c.conn.value, |w.c.subs|, Published(w.c, w.c.queue[0]).value)])
  {
    hide Published;
  }

  lemma Publishes()
    ensures Leads(W10(), DrainOne, W11()) && Foreign(W11())
  {
    hide MapBytes, Layout, PEER, Decode, Next, ParsePointer;
    MapFacts();
    assert Published(W10().c, W10().c.queue[0]) == Decode(Layout(), [0, 0, 0]);
    DrainStep(W10());
  }

  /** Two reports are to be wired, and what was published is not the layout's report. */
  predicate Foreign(w: World) {
    && w.started && w.faults == NO_FAULTS && w.c.disc.ReportRef? && |w.c.pending| == 2
    && |w.log| == 1 && w.log[0].note < |w.notes|
    && w.notes[w.log[0].note].reportId != w.c.layout.reportId
  }

  /** From start-up to the foreign report, every event enabled and every call successful. */
  lemma ForeignReportPublished() returns (ws: seq<World>, es: seq<Event>)
    ensures IsRun(ws, es) && |ws| == |es| + 1 && Foreign(ws[|es|])
  {
    hide IsRun, Next, Enabled, MapBytes, PEER, Foreign, W1, W2, W3, W4, W5, W6, W7, W8, W9, W10, W11;
    PeerTable();
    ws, es := Connects(PEER);
    FindsService();
    ws, es := Extend(ws, es, DiscoverNext(OK));
    FindsMap();
    ws, es := Extend(ws, es, DiscoverNext(OK));
    ReadsMap();
    ws, es := Extend(ws, es, MapChunk(|MapBytes()|));
    ParsesMap();
    ws, es := Extend(ws, es, MapEnd(OK));
    FindsReport5();
    ws, es := Extend(ws, es, DiscoverNext(OK));
    FindsReport8();
    ws, es := Extend(ws, es, DiscoverNext(OK));
    EndsReports();
    ws, es := Extend(ws, es, DiscoverNext(OK));
    FindsNoReference();
    ws, es := Extend(ws, es, DiscoverNext(OK));
    SubscribesFirst();
    ws, es := Extend(ws, es, DiscoverNext(OK));
    Queues();
    ws, es := Extend(ws, es, Notify(0, [0, 0, 0]));
    Publishes();
    ws, es := Extend(ws, es, DrainOne);
  }
}

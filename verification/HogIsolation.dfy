/** What is published comes from the connection that is live, in order, once, decoded with that peer's own layout. */
module HogIsolation {
  import opened Bits
  import opened HidTypes
  import opened HidWalk
  import opened HidDecode
  import opened HidDecodeLaws
  import opened HogSteps
  import opened HogWorld
  import opened HogLaws
  import opened HogMapLaws
  import opened HogDiscovery
  import opened HogLayout

  /** A published report is its notification, cut to 32 bytes, decoded with the layout of the peer that sent it. */
  predicate Honest(notes: seq<Note>, p: Pub) {
    && p.note < |notes|
    && var n := notes[p.note];
    && n.epoch == p.epoch
    && LayoutOf(n.peer).valid
    && Decode(LayoutOf(n.peer), Cut(n.data)) == Some(p.report)
    && (p.subCount != 1 ==> n.reportId == LayoutOf(n.peer).reportId)
  }

  /** Entry i of the queue is the notification its tag names, from the present connection and peer. */
  predicate Traced(w: World, i: nat)
    requires i < |w.tags| == |w.c.queue|
  {
    && w.tags[i] < |w.notes|
    && w.notes[w.tags[i]].epoch == w.epoch && w.notes[w.tags[i]].peer == w.peer
    && w.c.queue[i].data == Cut(w.notes[w.tags[i]].data)
    && w.c.queue[i].reportId == w.notes[w.tags[i]].reportId
    && w.c.queue[i].valueHandle == w.notes[w.tags[i]].valueHandle
  }

  predicate Increasing(s: seq<nat>) { forall i, j :: 0 <= i < j < |s| ==> s[i] < s[j] }

  /** The notifications published so far, in publishing order. */
  function Order(log: seq<Pub>): (s: seq<nat>)
    ensures |s| == |log|
    ensures forall i :: 0 <= i < |log| ==> s[i] == log[i].note
  {
    if |log| == 0 then [] else Order(log[..|log| - 1]) + [log[|log| - 1].note]
  }

  ghost predicate Isolated(w: World) {
    && |w.tags| == |w.c.queue|
    && (forall i: nat :: i < |w.tags| ==> Traced(w, i))
    && Increasing(Order(w.log) + w.tags)
    && (forall k :: 0 <= k < |w.log| ==> Honest(w.notes, w.log[k]))
  }

  lemma GattIsolated(w: World, e: Event)
    requires Enabled(w, e) && Sane(w) && Isolated(w) && IsGatt(e)
    ensures Isolated(Next(w, e))
  {
    GattKeepsLife(w, e);
    hide Next, Honest;
    var t := Next(w, e);
    forall i: nat | i < |t.tags| ensures Traced(t, i) { assert Traced(w, i); }
  }

  /** While the history of notifications only grows, published reports stay honest. */
  lemma HonestGrows(notes: seq<Note>, more: seq<Note>, p: Pub)
    requires Honest(notes, p)
    ensures Honest(notes + more, p)
  {
    hide LayoutOf, Decode, Cut;
  }

  lemma PublishedNotesKnown(w: World)
    requires Isolated(w)
    ensures forall i :: 0 <= i < |Order(w.log) + w.tags| ==> (Order(w.log) + w.tags)[i] < |w.notes|
  {
    hide LayoutOf, Decode, Cut, Increasing;
    forall i | 0 <= i < |Order(w.log) + w.tags| ensures (Order(w.log) + w.tags)[i] < |w.notes| {
      if i < |w.log| {
        assert Honest(w.notes, w.log[i]);
      } else {
        assert Traced(w, i - |w.log|);
      }
    }
  }

  lemma NotifyIsolated(w: World, k: nat, data: seq<byte>)
    requires Enabled(w, Notify(k, data)) && Sane(w) && Isolated(w)
    ensures Isolated(Next(w, Notify(k, data)))
  {
    hide Honest, Cut, Order;
    var t := Next(w, Notify(k, data));
    PublishedNotesKnown(w);
    forall i: nat | i < |t.tags| ensures Traced(t, i) {
      if i < |w.tags| { assert Traced(w, i); }
    }
    forall j | 0 <= j < |t.log| ensures Honest(t.notes, t.log[j]) {
      HonestGrows(w.notes, t.notes[|w.notes|..], w.log[j]);
      assert w.notes + t.notes[|w.notes|..] == t.notes;
    }
    var s := Order(w.log) + w.tags;
    if |w.c.queue| < QUEUE_MAX {
      assert Order(t.log) + t.tags == s + [|w.notes|];
    }
  }

  lemma DrainIsolated(w: World)
    requires Enabled(w, DrainOne) && Sane(w) && MapOk(w) && Isolated(w)
    ensures Isolated(Next(w, DrainOne))
  {
    hide Next, Sane, MapOk, Honest, Order, Increasing, Traced, Enabled;
    var t := Next(w, DrainOne);
    DrainOutcome(w);
    DrainOrder(w, t);
    DrainHonest(w);
    forall i: nat | i < |t.tags| ensures Traced(t, i) {
      assert Traced(w, i + 1);
      TracedMoves(w, t, i);
    }
  }

  /** A drain takes the oldest entry and its tag, and publishes it or not. */
  lemma DrainOutcome(w: World)
    requires Enabled(w, DrainOne) && Sane(w)
    ensures var t := Next(w, DrainOne); var r := Published(w.c, w.c.queue[0]);
            && w.started && w.c.conn == Some(w.epoch) && |w.tags| == |w.c.queue| > 0
            && t.tags == w.tags[1..] && t.c.queue == w.c.queue[1..] && t.notes == w.notes && t.epoch == w.epoch && t.peer == w.peer
            && t.log == if r.Some? then w.log + [Pub(w.tags[0], w.epoch, |w.c.subs|, r.value)] else w.log
  {
    hide Published, Shaped;
    assert w.started;
  }

  lemma TracedMoves(w: World, t: World, i: nat)
    requires |w.tags| == |w.c.queue| > 0 && t.tags == w.tags[1..] && t.c.queue == w.c.queue[1..] && i < |t.tags|
    requires t.notes == w.notes && t.epoch == w.epoch && t.peer == w.peer && Traced(w, i + 1)
    ensures Traced(t, i)
  {
    hide Cut;
  }

  lemma DrainOrder(w: World, t: World)
    requires Increasing(Order(w.log) + w.tags) && |w.tags| > 0 && t.tags == w.tags[1..]
    requires t.log == w.log || (|t.log| == |w.log| + 1 && t.log[..|w.log|] == w.log && t.log[|w.log|].note == w.tags[0])
    ensures Increasing(Order(t.log) + t.tags)
  {
    hide Order, Increasing;
    var s := Order(w.log) + w.tags;
    if t.log == w.log {
      DropOne(s, |w.log|);
      assert Order(t.log) + t.tags == s[..|w.log|] + s[|w.log| + 1..];
    } else {
      assert t.log == w.log + [t.log[|w.log|]];
      OrderSnoc(w.log, t.log[|w.log|]);
      assert Order(t.log) + t.tags == s;
    }
  }

  /** What a drain adds to the log is honest. */
  lemma DrainHonest(w: World)
    requires Enabled(w, DrainOne) && Sane(w) && MapOk(w) && Isolated(w)
    ensures var t := Next(w, DrainOne); forall k :: 0 <= k < |t.log| ==> Honest(t.notes, t.log[k])
  {
    hide Next, Sane, Honest, Order, Increasing, Enabled, Published, MapOk, Traced;
    DrainOutcome(w);
    assert Traced(w, 0);
    if Published(w.c, w.c.queue[0]).Some? { HeadHonest(w); }
  }

  lemma HeadHonest(w: World)
    requires |w.tags| == |w.c.queue| > 0 && MapOk(w) && Traced(w, 0) && Published(w.c, w.c.queue[0]).Some?
    ensures Honest(w.notes, Pub(w.tags[0], w.epoch, |w.c.subs|, Published(w.c, w.c.queue[0]).value))
  {
    hide Decode, ParsePointer, Cut, MapHead;
  }

  lemma OrderSnoc(log: seq<Pub>, p: Pub)
    ensures Order(log + [p]) == Order(log) + [p.note]
  {
    assert (log + [p])[..|log|] == log;
  }

  lemma DropOne(s: seq<nat>, k: nat)
    requires Increasing(s) && k < |s|
    ensures Increasing(s[..k] + s[k + 1..])
  {}

  /** Connection events find the queue empty, or empty it. */
  lemma LinkIsolated(w: World, e: Event)
    requires Enabled(w, e) && Sane(w) && Isolated(w) && !IsGatt(e) && !e.Notify? && !e.DrainOne?
    ensures Isolated(Next(w, e))
  {
    hide Honest, Order, Shaped;
    var t := Next(w, e);
    assert t.log == w.log && t.notes == w.notes;
    if |t.tags| == 0 {
      DropTail(Order(w.log), w.tags);
      assert Order(t.log) + t.tags == Order(w.log);
    } else {
      assert t.tags == w.tags && t.epoch == w.epoch && t.peer == w.peer && t.c.queue == w.c.queue;
      forall i: nat | i < |t.tags| ensures Traced(t, i) { assert Traced(w, i); }
    }
  }

  lemma DropTail(a: seq<nat>, b: seq<nat>)
    requires Increasing(a + b)
    ensures Increasing(a)
  {
    forall i, j | 0 <= i < j < |a| ensures a[i] < a[j] {
      assert (a + b)[i] < (a + b)[j];
    }
  }

  lemma StepIsolated(w: World, e: Event)
    requires Enabled(w, e) && Sane(w) && MapOk(w) && Isolated(w)
    ensures Isolated(Next(w, e))
  {
    hide Next, Sane, MapOk, Isolated;
    if IsGatt(e) {
      GattIsolated(w, e);
    } else {
      match e {
        case Notify(k, data) => NotifyIsolated(w, k, data);
        case DrainOne => DrainIsolated(w);
        case _ => LinkIsolated(w, e);
      }
    }
  }

  lemma {:induction false} RunIsolated(ws: seq<World>, es: seq<Event>, i: nat)
    requires IsRun(ws, es) && i < |ws|
    ensures Isolated(ws[i])
    decreases i
  {
    hide Next, Enabled, Sane, MapOk, Isolated;
    if i == 0 {
      BootIsolated(ws[0]);
    } else {
      RunIsolated(ws, es, i - 1);
      RunSane(ws, es, i - 1);
      LayoutIsPeersOwn(ws, es, i - 1);
      StepIsolated(ws[i - 1], es[i - 1]);
    }
  }

  lemma BootIsolated(w: World)
    requires exists scan :: w == Boot(scan)
    ensures Isolated(w)
  {}

  /**
   * Over every interleaving of notify, drain, disconnect and reconnect, the published reports are an
   * ordered, duplicate-free subsequence of the notifications; each came from the connection that was
   * live when it was published and is that notification decoded with its own peer's layout; and it
   * carries the layout's report id unless exactly one report was subscribed.
   */
  lemma NeverCrossesConnections(ws: seq<World>, es: seq<Event>, i: nat)
    requires IsRun(ws, es) && i < |ws|
    ensures Increasing(Order(ws[i].log))
    ensures forall k :: 0 <= k < |ws[i].log| ==> Honest(ws[i].notes, ws[i].log[k])
  {
    hide Honest, Order, Increasing;
    RunIsolated(ws, es, i);
    DropTail(Order(ws[i].log), ws[i].tags);
  }

  // ------------------------------------------------------- exactly what is published

  /** How many reports discovery is through with. */
  function Wired(w: World): nat {
    match w.c.disc
    case ReportRef => w.c.idx
    case Ccc => w.c.idx
    case Idle => if HasHids(w.peer) then Goal(w.peer, w.faults) else 0
    case _ => 0
  }

  /** How many subscriptions the peer's table, less what failed, calls for by now. */
  function SubCount(w: World): nat {
    if HasHids(w.peer) && Wired(w) <= |Reports(w.peer, w.faults)| then |SubsFor(w.peer, w.faults, Wired(w))| else 0
  }

  lemma SubCountIs(w: World)
    requires Sane(w) && Tracks(w) && w.started
    ensures |w.c.subs| == SubCount(w)
  {
    hide HasHids, Reports, Goal, TagFor, HidsEnd, FirstIn;
  }

  /**
   * Exactly when a turn of the publishing loop publishes, in any run: discovery is past the connected peer's
   * Report Map, which could be read and describes a pointer, the notification (as cut to 32 bytes) is long enough for it, and it has the
   * layout's report id, or the table calls for exactly one subscription up to the report discovery has reached.
   */
  lemma PublishesIff(ws: seq<World>, es: seq<Event>, i: nat)
    requires IsRun(ws, es) && i < |es| && es[i].DrainOne?
    ensures var w := ws[i];
            && |w.tags| > 0 && w.tags[0] < |w.notes|
            && var n, l := w.notes[w.tags[0]], LayoutOf(w.peer);
            && n.peer == w.peer && n.epoch == w.epoch
            && (ws[i + 1].log != w.log
                <==> PastMap(w.c) && MapGives(w.peer, w.faults) && PayloadBits(l) <= 8 * |Cut(n.data)| && (n.reportId == l.reportId || SubCount(w) == 1))
  {
    hide Decode, Cut, LayoutOf, Shaped, Discovered, PayloadBits, Next, IsRun, Isolated, MapOk, Sane, Enabled, SubCount, Tracks, LayoutTracks, PastMap, MapGives;
    RunStep(ws, es, i);
    RunSane(ws, es, i);
    RunTracks(ws, es, i);
    RunIsolated(ws, es, i);
    LayoutIsPeersOwn(ws, es, i);
    LayoutInForceIff(ws, es, i);
    DrainPublishesIff(ws[i]);
  }

  lemma RunStep(ws: seq<World>, es: seq<Event>, i: nat)
    requires IsRun(ws, es) && i < |es|
    ensures |ws| == |es| + 1 && Enabled(ws[i], es[i]) && ws[i + 1] == Next(ws[i], es[i])
  {
    hide Enabled, Next;
  }

  lemma DrainPublishesIff(w: World)
    requires Enabled(w, DrainOne) && Sane(w) && MapOk(w) && Isolated(w) && Tracks(w) && LayoutTracks(w)
    ensures |w.tags| > 0 && w.tags[0] < |w.notes|
    ensures var n, l := w.notes[w.tags[0]], LayoutOf(w.peer);
            && n.peer == w.peer && n.epoch == w.epoch
            && (Next(w, DrainOne).log != w.log
                <==> PastMap(w.c) && MapGives(w.peer, w.faults) && PayloadBits(l) <= 8 * |Cut(n.data)| && (n.reportId == l.reportId || SubCount(w) == 1))
  {
    hide Decode, ParsePointer, Cut, PayloadBits, MapHead, SubCount, Discovered, Shaped, Honest, Order, PastMap, MapGives;
    assert w.started && w.c.conn.Some?;
    assert Traced(w, 0);
    SubCountIs(w);
    LengthGate(LayoutOf(w.peer), Cut(w.notes[w.tags[0]].data));
  }

  /**
   * A notification of another report is published exactly when it is long enough and, by the table, one
   * report is subscribed: when discovery is over, exactly when that is all the table calls for; while it
   * is under way, exactly when that is all it has come to.
   */
  lemma ForeignPublishedIff(ws: seq<World>, es: seq<Event>, i: nat)
    requires IsRun(ws, es) && i < |es| && es[i].DrainOne?
    requires PastMap(ws[i].c) && MapGives(ws[i].peer, ws[i].faults)
    requires var w := ws[i];
             |w.tags| > 0 && w.tags[0] < |w.notes| && w.notes[w.tags[0]].reportId != LayoutOf(w.peer).reportId
    ensures var w := ws[i];
            && HasHids(w.peer) && Wired(w) <= |Reports(w.peer, w.faults)|
            && (w.c.disc.Idle? ==> Wired(w) == Goal(w.peer, w.faults))
            && (ws[i + 1].log != w.log
                <==> PayloadBits(LayoutOf(w.peer)) <= 8 * |Cut(w.notes[w.tags[0]].data)| && |SubsFor(w.peer, w.faults, Wired(w))| == 1)
  {
    hide Cut, LayoutOf, PayloadBits, IsRun, SubsFor, Goal, Reports, Next, HasHids, MapGives, PastMap;
    RunStep(ws, es, i);
    QueuedIsStarted(ws, es, i);
    LayoutInForceIff(ws, es, i);
    PublishesIff(ws, es, i);
    LayoutMeansHids(ws, es, i);
  }

  lemma QueuedIsStarted(ws: seq<World>, es: seq<Event>, i: nat)
    requires IsRun(ws, es) && i < |ws| && |ws[i].tags| > 0
    ensures ws[i].started
  {
    hide Shaped;
    RunSane(ws, es, i);
  }

  /** A layout is in force only behind the first step of discovery, so the peer has a HID service. */
  lemma LayoutMeansHids(ws: seq<World>, es: seq<Event>, i: nat)
    requires IsRun(ws, es) && i < |ws| && ws[i].c.layoutValid
    ensures ws[i].started && HasHids(ws[i].peer) && Wired(ws[i]) <= |Reports(ws[i].peer, ws[i].faults)|
  {
    hide HasHids, SubsFor, Goal, Reports, SameSubs, HidsEnd;
    RunSane(ws, es, i);
    RunTracks(ws, es, i);
  }

  /**
   * Whatever state the central is in, a discovery that starts publishes nothing until a map is parsed, and a
   * link of its own that ends leaves nothing queued, subscribed or publishable; the end of another link is
   * ignored.
   */
  lemma NothingCarriesOver(c: Central, id: nat, scan: ScanResult, discoverOk: bool, evt: Evt)
    ensures Published(StartDiscovery(c, discoverOk), evt).None?
    ensures c.conn == Some(id) ==>
              var d := Disconnected(c, id, scan);
              d.queue == [] && d.subs == [] && d.pending == [] && d.rm == [] && d.procs == [] && Published(d, evt).None?
    ensures c.conn != Some(id) ==> Disconnected(c, id, scan) == c
  {
    hide Decode;
  }
}

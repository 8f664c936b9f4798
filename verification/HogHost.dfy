/** The input device over a run of the central: what the host sees of the buttons across connections. */
module HogHost {
  import opened Bits
  import opened HidDecodeLaws
  import opened HogSteps
  import opened HogWorld
  import opened HogLaws
  import opened Publishing
  import opened PublishingLaws

  /** What the first n events make the central ask of the device: the reports it publishes, and a reset when its link goes down. */
  function OpsOf(ws: seq<World>, es: seq<HogWorld.Event>, n: nat): seq<Op>
    requires n <= |es| < |ws|
  {
    if n == 0 then []
    else if es[n - 1].LinkDown? then OpsOf(ws, es, n - 1) + [Disconnect]
    else if |ws[n].log| > |ws[n - 1].log| then OpsOf(ws, es, n - 1) + [Report(ws[n].log[|ws[n].log| - 1].report)]
    else OpsOf(ws, es, n - 1)
  }

  /** The device after the first n events, under the drop pattern of the queue behind it. */
  function HostAfter(ws: seq<World>, es: seq<HogWorld.Event>, n: nat, cfg: Config, accept: Pattern): Host
    requires n <= |es| < |ws|
  {
    Session(OpsOf(ws, es, n), cfg, accept)
  }

  /** Some report published on connection `epoch` has button i down. */
  ghost predicate PressedOn(log: seq<Pub>, epoch: nat, i: nat) {
    exists k: nat :: k < |log| && log[k].epoch == epoch && Bit(log[k].report.buttons, i)
  }

  /** The remembered buttons come from the present connection, and without a link there are none. */
  ghost predicate OwnButtons(w: World, h: Host) {
    && (!w.up ==> h.prev == 0)
    && (forall i: nat :: Bit(h.prev, i) ==> PressedOn(w.log, w.epoch, i))
  }

  /** Only a link-down ends a link, the connection number changes only without one, and only a drain on one publishes. */
  lemma StepOutside(w: World, e: HogWorld.Event)
    requires Enabled(w, e) && Sane(w)
    ensures var t := Next(w, e);
            && (!e.LinkDown? && !t.up ==> !w.up)
            && (t.epoch == w.epoch || (!w.up && !t.up))
            && (t.log == w.log
                || (&& e.DrainOne? && w.up && t.up && t.epoch == w.epoch && |t.log| == |w.log| + 1
                    && t.log[..|w.log|] == w.log && t.log[|w.log|].epoch == w.epoch))
            && (e.LinkDown? ==> t.log == w.log && !t.up && t.epoch == w.epoch)
  {
    hide Published, Deliver, DoDiscoverNext, ReportMapRead, ReportRefRead, DoMapEnd, Cut, Skipped, Broken, Shaped;
    if IsGatt(e) { hide Next; GattKeepsLife(w, e); }
  }

  lemma SessionSnoc(ops: seq<Op>, op: Op, cfg: Config, accept: Pattern)
    ensures Session(ops + [op], cfg, accept) == Do(Session(ops, cfg, accept), op, cfg, accept)
  {
    hide Do;
    assert (ops + [op])[..|ops|] == ops;
  }

  lemma PressedStays(log: seq<Pub>, more: seq<Pub>, epoch: nat, i: nat)
    requires PressedOn(log, epoch, i) && log <= more
    ensures PressedOn(more, epoch, i)
  {
    var k: nat :| k < |log| && log[k].epoch == epoch && Bit(log[k].report.buttons, i);
    assert more[k] == log[k];
  }

  lemma PublishOwns(w: World, t: World, h: Host, cfg: Config, accept: Pattern)
    requires OwnButtons(w, h) && LowButtons(h) && t.up && t.epoch == w.epoch && |t.log| == |w.log| + 1
    requires t.log[..|w.log|] == w.log && t.log[|w.log|].epoch == w.epoch
    ensures OwnButtons(t, Publish(h, t.log[|w.log|].report, cfg, accept))
  {
    hide Publish, Bit, Held, Alternates;
    var r := t.log[|w.log|].report;
    var applied := PublishView(h, r, cfg, accept);
    forall i: nat | Bit(Publish(h, r, cfg, accept).prev, i) ensures PressedOn(t.log, t.epoch, i) {
      if Bit(applied, i) {
        assert t.log[|w.log|].epoch == t.epoch && Bit(t.log[|w.log|].report.buttons, i);
      } else {
        PressedStays(w.log, t.log, w.epoch, i);
      }
    }
  }

  lemma ResetOwns(t: World, h: Host, cfg: Config, accept: Pattern)
    requires LowButtons(h)
    ensures OwnButtons(t, Reset(h, cfg, accept))
  {
    hide Reset, Bit, Held, Alternates;
    ResetView(h, cfg, accept);
    forall i: nat ensures !Bit(0, i) { BitOfZero(i); }
  }

  /** Without a link nothing is remembered, so a new connection number takes nothing over. */
  lemma SameOwns(w: World, t: World, h: Host)
    requires OwnButtons(w, h) && t.log == w.log
    requires (!t.up ==> !w.up) && (t.epoch == w.epoch || !w.up)
    ensures OwnButtons(t, h)
  {
    hide Bit, PressedOn;
    if !w.up {
      forall i: nat ensures !Bit(0, i) { BitOfZero(i); }
    }
  }

  /**
   * Over every run of the central and every drop pattern of the queue: a button the device remembers was
   * down in a report published on the present connection, so none outlives its connection, and without
   * a link none is remembered.
   */
  lemma {:induction false} ButtonsBelongToTheConnection(ws: seq<World>, es: seq<HogWorld.Event>, n: nat, cfg: Config, accept: Pattern)
    requires IsRun(ws, es) && n <= |es|
    ensures OwnButtons(ws[n], HostAfter(ws, es, n, cfg, accept))
    decreases n
  {
    hide Next, Enabled, Sane, Publish, Reset, OwnButtons, LowButtons, SoundButtons, DpadsPending;
    if n == 0 {
      NothingOwned(ws[0]);
    } else {
      ButtonsBelongToTheConnection(ws, es, n - 1, cfg, accept);
      RunSane(ws, es, n - 1);
      var w, t, e := ws[n - 1], ws[n], es[n - 1];
      var ops := OpsOf(ws, es, n - 1);
      StepOutside(w, e);
      AlwaysSound(ops, cfg, accept);
      if e.LinkDown? {
        SessionSnoc(ops, Disconnect, cfg, accept);
        ResetOwns(t, Session(ops, cfg, accept), cfg, accept);
      } else if t.log == w.log {
        SameOwns(w, t, Session(ops, cfg, accept));
      } else {
        SessionSnoc(ops, Report(t.log[|w.log|].report), cfg, accept);
        PublishOwns(w, t, Session(ops, cfg, accept), cfg, accept);
      }
    }
  }

  lemma NothingOwned(w: World)
    ensures OwnButtons(w, IDLE)
  {
    forall i: nat ensures !Bit(0, i) { BitOfZero(i); }
  }

  /**
   * At every point of every run: what the device remembers is held at the host and every latched DPAD
   * code is pending, whatever is dropped; and if no link-down lost a release, then without a link the
   * host holds no button at all.
   */
  lemma HostOverRuns(ws: seq<World>, es: seq<HogWorld.Event>, n: nat, cfg: Config, accept: Pattern)
    requires IsRun(ws, es) && n <= |es|
    ensures var h := HostAfter(ws, es, n, cfg, accept);
            && LowButtons(h) && SoundButtons(h) && DpadsPending(h)
            && (!ws[n].up && CleanDisconnects(OpsOf(ws, es, n), cfg, accept) ==> forall i: nat :: !Down(h, Btn(i)))
  {
    hide OpsOf, Session, CleanDisconnects, Bit, Held, Alternates;
    var ops := OpsOf(ws, es, n);
    AlwaysSound(ops, cfg, accept);
    ButtonsBelongToTheConnection(ws, es, n, cfg, accept);
    if !ws[n].up && CleanDisconnects(ops, cfg, accept) {
      ExactWhileDisconnectsClean(ops, cfg, accept);
      forall i: nat ensures !Bit(0, i) { BitOfZero(i); }
    }
  }
}

/**
 * The exact calls of a report and of a reset, as a list of events read off the report, the memory and which
 * presses are accepted; and what an accepted report or reset leaves of the wheel taps.
 */
module PublishingTrace {
  import opened Bits
  import opened HidTypes
  import opened Publishing
  import opened PublishingLaws

  // ------------------------------------------------------------- lists of calls

  /** Between h and t exactly these events were called, in order, and each was accepted as the pattern has it. */
  ghost predicate Emits(h: Host, t: Host, es: seq<Event>, accept: Pattern) {
    && |t.calls| == |h.calls| + |es|
    && t.calls[..|h.calls|] == h.calls
    && forall k: nat :: k < |es| ==> t.calls[|h.calls| + k] == Call(es[k], accept(|h.calls| + k))
  }

  lemma EmitsNothing(h: Host, t: Host, accept: Pattern)
    requires t.calls == h.calls
    ensures Emits(h, t, [], accept)
  {}

  lemma EmitsOne(h: Host, e: Event, accept: Pattern)
    ensures Emits(h, Emit(h, e, accept), [e], accept)
  {}

  lemma EmitsThen(a: Host, b: Host, c: Host, xs: seq<Event>, ys: seq<Event>, accept: Pattern)
    requires Emits(a, b, xs, accept) && Emits(b, c, ys, accept)
    ensures Emits(a, c, xs + ys, accept)
  {
    assert c.calls[..|a.calls|] == c.calls[..|b.calls|][..|a.calls|];
    forall k: nat | k < |xs + ys| ensures c.calls[|a.calls| + k] == Call((xs + ys)[k], accept(|a.calls| + k)) {
      if k < |xs| {
        assert c.calls[|a.calls| + k] == c.calls[..|b.calls|][|a.calls| + k];
      } else {
        assert c.calls[|b.calls| + (k - |xs|)] == Call(ys[k - |xs|], accept(|b.calls| + (k - |xs|)));
      }
    }
  }

  // ------------------------------------------------- what is owed, event by event

  /** A release for each pending code among 0..n. */
  function Retries(pending: nat, n: nat): seq<Event> {
    if n == 0 then [] else Retries(pending, n - 1) + (if Bit(pending, n - 1) then [Key(Dpad(n - 1), false, false)] else [])
  }

  function RetriesIfKeyed(h: Host, cfg: Config): seq<Event> {
    if cfg.hwheelAsKeys || cfg.wheelAsKeys then Retries(h.pending, 4) else []
  }

  /** An edge for each button among 0..n in which report and memory differ. */
  function ButtonEdges(buttons: nat, prev: nat, n: nat): seq<Event> {
    if n == 0 then []
    else ButtonEdges(buttons, prev, n - 1)
         + (if Bit(buttons, n - 1) != Bit(prev, n - 1) then [Key(Btn(n - 1), Bit(buttons, n - 1), false)] else [])
  }

  /** One tap: the press, and the release if the press was accepted. */
  function TapCalls(idx: nat, pressed: bool): seq<Event> {
    [Key(Dpad(idx), true, false)] + (if pressed then [Key(Dpad(idx), false, false)] else [])
  }

  /** A wheel as keys: one tap in its direction, or nothing; `at` is the number of the next call. */
  function WheelCalls(v: int32, negative: nat, positive: nat, at: nat, accept: Pattern): seq<Event> {
    if v < 0 then TapCalls(negative, accept(at)) else if v > 0 then TapCalls(positive, accept(at)) else []
  }

  /** A report: retried releases, button edges, motion, the two wheels, the terminator. */
  function ReportCalls(h: Host, r: PointerReport, cfg: Config, accept: Pattern): seq<Event> {
    var front := RetriesIfKeyed(h, cfg) + ButtonEdges(r.buttons, h.prev, 8) + IfMoved(RelX, r.dx) + IfMoved(RelY, r.dy);
    var middle := front + (if cfg.hwheelAsKeys then WheelCalls(r.hwheel, DPAD_LEFT, DPAD_RIGHT, |h.calls| + |front|, accept)
                           else IfMoved(RelHWheel, r.hwheel));
    middle
    + (if cfg.wheelAsKeys then WheelCalls(r.wheel, DPAD_DOWN, DPAD_UP, |h.calls| + |middle|, accept) + [Rel(RelWheel, 0, true)]
       else [Rel(RelWheel, r.wheel, true)])
  }

  /** A release for each remembered button among 0..n, the highest of all with the sync flag. */
  function ButtonReleases(prev: nat, n: nat): seq<Event> {
    if n == 0 then []
    else ButtonReleases(prev, n - 1)
         + (if Bit(prev, n - 1) then [Key(Btn(n - 1), false, forall i: nat :: n <= i < 8 ==> !Bit(prev, i))] else [])
  }

  // ------------------------------------------------------------- the calls made

  lemma {:induction false} FlushEmits(h: Host, n: nat, accept: Pattern)
    requires n <= DPAD_COUNT
    ensures Emits(h, Flush(h, n, accept), Retries(h.pending, n), accept)
    decreases n
  {
    hide Emit, Emits, Bit, Bitwise, Pow2, Down, DpadsPending;
    if n == 0 {
      EmitsNothing(h, h, accept);
    } else {
      FlushEmits(h, n - 1, accept);
      var h1 := Flush(h, n - 1, accept);
      FlushKeeps(h, n - 1, accept);
      var e := Key(Dpad(n - 1), false, false);
      EmitsOne(h1, e, accept);
      var h2 := Emit(h1, e, accept);
      if Bit(h.pending, n - 1) {
        SameCalls(h1, h2, Flush(h, n, accept), [e], accept);
        EmitsThen(h, h1, Flush(h, n, accept), Retries(h.pending, n - 1), [e], accept);
      } else {
        assert Retries(h.pending, n) == Retries(h.pending, n - 1) + [] == Retries(h.pending, n - 1);
      }
    }
  }

  lemma SameCalls(a: Host, b: Host, c: Host, es: seq<Event>, accept: Pattern)
    requires Emits(a, b, es, accept) && c.calls == b.calls
    ensures Emits(a, c, es, accept)
  {}

  lemma {:induction false} EdgesEmit(h: Host, buttons: nat, prev: nat, changed: nat, n: nat, accept: Pattern)
    requires forall i: nat :: Bit(changed, i) == (Bit(buttons, i) != Bit(prev, i))
    ensures Emits(h, Edges(h, buttons, changed, n, accept).0, ButtonEdges(buttons, prev, n), accept)
    decreases n
  {
    hide Emit, Emits, Bit, Bitwise, Pow2;
    if n == 0 {
      EmitsNothing(h, h, accept);
    } else {
      EdgesEmit(h, buttons, prev, changed, n - 1, accept);
      var h1 := Edges(h, buttons, changed, n - 1, accept).0;
      var e := Key(Btn(n - 1), Bit(buttons, n - 1), false);
      EmitsOne(h1, e, accept);
      EmitsThen(h, h1, Emit(h1, e, accept), ButtonEdges(buttons, prev, n - 1), [e], accept);
      assert ButtonEdges(buttons, prev, n - 1) + [] == ButtonEdges(buttons, prev, n - 1);
    }
  }

  lemma ButtonsEmit(h: Host, buttons: uint32, accept: Pattern)
    ensures Emits(h, PublishButtons(h, buttons, accept), ButtonEdges(buttons, h.prev, 8), accept)
  {
    hide Edges, Emits, Bit, Bitwise, Merge;
    var changed := Bitwise(Xor, buttons, h.prev);
    forall i: nat ensures Bit(changed, i) == (Bit(buttons, i) != Bit(h.prev, i)) { BitwiseBit(Xor, buttons, h.prev, i); }
    EdgesEmit(h, buttons, h.prev, changed, 8, accept);
    SameCalls(h, Edges(h, buttons, changed, 8, accept).0, PublishButtons(h, buttons, accept), ButtonEdges(buttons, h.prev, 8), accept);
  }

  lemma TapEmits(h: Host, idx: nat, accept: Pattern)
    requires idx < DPAD_COUNT
    ensures Emits(h, Tap(h, idx, accept), TapCalls(idx, accept(|h.calls|)), accept)
  {
    hide Emits, Bitwise, Pow2;
    var press, release := Key(Dpad(idx), true, false), Key(Dpad(idx), false, false);
    var h1 := Emit(h, press, accept);
    EmitsOne(h, press, accept);
    EmitsOne(h1, release, accept);
    EmitsThen(h, h1, Emit(h1, release, accept), [press], [release], accept);
    SameCalls(h, Emit(h1, release, accept), SetPending(Emit(h1, release, accept), idx), [press] + [release], accept);
    assert [press] + [] == [press];
  }

  lemma MotionEmits(h: Host, axis: RelAxis, v: int32, accept: Pattern)
    ensures Emits(h, Motion(h, axis, v, accept), IfMoved(axis, v), accept)
  {
    hide Emit, Emits;
    EmitsNothing(h, h, accept);
    EmitsOne(h, Rel(axis, v, false), accept);
  }

  /** The tap of a keyed wheel, or nothing. */
  function WheelTap(h: Host, v: int32, negative: nat, positive: nat, accept: Pattern): Host
    requires negative < DPAD_COUNT && positive < DPAD_COUNT
  {
    if v < 0 then Tap(h, negative, accept) else if v > 0 then Tap(h, positive, accept) else h
  }

  lemma WheelTapEmits(h: Host, v: int32, negative: nat, positive: nat, accept: Pattern)
    requires negative < DPAD_COUNT && positive < DPAD_COUNT
    ensures Emits(h, WheelTap(h, v, negative, positive, accept), WheelCalls(v, negative, positive, |h.calls|, accept), accept)
  {
    hide Tap, Emits;
    EmitsNothing(h, h, accept);
    TapEmits(h, negative, accept);
    TapEmits(h, positive, accept);
  }

  lemma HWheelEmits(h: Host, v: int32, cfg: Config, accept: Pattern)
    ensures Emits(h, PublishHWheel(h, v, cfg, accept),
                  if cfg.hwheelAsKeys then WheelCalls(v, DPAD_LEFT, DPAD_RIGHT, |h.calls|, accept) else IfMoved(RelHWheel, v), accept)
  {
    hide Tap, Motion, Emits, WheelCalls;
    MotionEmits(h, RelHWheel, v, accept);
    WheelTapEmits(h, v, DPAD_LEFT, DPAD_RIGHT, accept);
  }

  lemma WheelEmits(h: Host, v: int32, cfg: Config, accept: Pattern)
    ensures Emits(h, PublishWheel(h, v, cfg, accept),
                  if cfg.wheelAsKeys then WheelCalls(v, DPAD_DOWN, DPAD_UP, |h.calls|, accept) + [Rel(RelWheel, 0, true)]
                  else [Rel(RelWheel, v, true)], accept)
  {
    hide Tap, Emit, Emits, WheelCalls;
    var h1 := WheelTap(h, v, DPAD_DOWN, DPAD_UP, accept);
    WheelTapEmits(h, v, DPAD_DOWN, DPAD_UP, accept);
    EmitsOne(h1, Rel(RelWheel, 0, true), accept);
    EmitsThen(h, h1, Emit(h1, Rel(RelWheel, 0, true), accept), WheelCalls(v, DPAD_DOWN, DPAD_UP, |h.calls|, accept),
              [Rel(RelWheel, 0, true)], accept);
    EmitsOne(h, Rel(RelWheel, v, true), accept);
  }

  lemma FlushIfKeyedEmits(h: Host, cfg: Config, accept: Pattern)
    ensures Emits(h, FlushIfKeyed(h, cfg, accept), RetriesIfKeyed(h, cfg), accept)
    ensures FlushIfKeyed(h, cfg, accept).prev == h.prev
  {
    hide Flush, Emits, Retries, Bit, Held, Alternates;
    EmitsNothing(h, h, accept);
    FlushEmits(h, 4, accept);
    FlushHarmless(h, cfg, accept);
  }

  lemma EmitsLength(h: Host, t: Host, es: seq<Event>, accept: Pattern)
    requires Emits(h, t, es, accept)
    ensures |t.calls| == |h.calls| + |es|
  {}

  /**
   * A report makes exactly these calls, in this order, whatever is dropped: first every pending release is
   * tried again, then the changed buttons, the motion, one tap a keyed wheel, its release exactly if its
   * press was accepted, and the terminator.
   */
  lemma ReportMakesCalls(h: Host, r: PointerReport, cfg: Config, accept: Pattern)
    ensures Emits(h, Publish(h, r, cfg, accept), ReportCalls(h, r, cfg, accept), accept)
  {
    hide FlushIfKeyed, RetriesIfKeyed, PublishButtons, ButtonEdges, Motion, PublishHWheel, PublishWheel, WheelCalls, Emits, IfMoved;
    var h1 := FlushIfKeyed(h, cfg, accept);
    FlushIfKeyedEmits(h, cfg, accept);
    var h2 := PublishButtons(h1, r.buttons, accept);
    ButtonsEmit(h1, r.buttons, accept);
    var e2 := RetriesIfKeyed(h, cfg) + ButtonEdges(r.buttons, h.prev, 8);
    EmitsThen(h, h1, h2, RetriesIfKeyed(h, cfg), ButtonEdges(r.buttons, h.prev, 8), accept);
    var h3 := Motion(h2, RelX, r.dx, accept);
    MotionEmits(h2, RelX, r.dx, accept);
    EmitsThen(h, h2, h3, e2, IfMoved(RelX, r.dx), accept);
    var h4 := Motion(h3, RelY, r.dy, accept);
    MotionEmits(h3, RelY, r.dy, accept);
    var front := e2 + IfMoved(RelX, r.dx) + IfMoved(RelY, r.dy);
    EmitsThen(h, h3, h4, e2 + IfMoved(RelX, r.dx), IfMoved(RelY, r.dy), accept);
    EmitsLength(h, h4, front, accept);
    var h5 := PublishHWheel(h4, r.hwheel, cfg, accept);
    HWheelEmits(h4, r.hwheel, cfg, accept);
    var hw := if cfg.hwheelAsKeys then WheelCalls(r.hwheel, DPAD_LEFT, DPAD_RIGHT, |h4.calls|, accept) else IfMoved(RelHWheel, r.hwheel);
    EmitsThen(h, h4, h5, front, hw, accept);
    EmitsLength(h, h5, front + hw, accept);
    WheelEmits(h5, r.wheel, cfg, accept);
    var w := if cfg.wheelAsKeys then WheelCalls(r.wheel, DPAD_DOWN, DPAD_UP, |h5.calls|, accept) + [Rel(RelWheel, 0, true)]
             else [Rel(RelWheel, r.wheel, true)];
    EmitsThen(h, h5, PublishWheel(h5, r.wheel, cfg, accept), front + hw, w, accept);
  }

  lemma {:induction false} ReleasesEmit(h: Host, prev: nat, n: nat, accept: Pattern)
    requires n <= 8
    ensures Emits(h, Releases(h, prev, LastHeld(prev, 8), n, accept), ButtonReleases(prev, n), accept)
    decreases n
  {
    hide Emit, Emits, Bit, LastHeld;
    if n == 0 {
      EmitsNothing(h, h, accept);
    } else {
      ReleasesEmit(h, prev, n - 1, accept);
      LastHeldBits(prev, 8);
      var h1 := Releases(h, prev, LastHeld(prev, 8), n - 1, accept);
      var e := Key(Btn(n - 1), false, n - 1 == LastHeld(prev, 8));
      if Bit(prev, n - 1) {
        var last := LastHeld(prev, 8);
        assert last >= n - 1;
        if last > n - 1 {
          assert !forall i: nat :: n <= i < 8 ==> !Bit(prev, i) by { assert n <= last < 8 && Bit(prev, last); }
        }
      }
      EmitsOne(h1, e, accept);
      EmitsThen(h, h1, Emit(h1, e, accept), ButtonReleases(prev, n - 1), [e], accept);
      assert ButtonReleases(prev, n - 1) + [] == ButtonReleases(prev, n - 1);
    }
  }

  /** A reset makes exactly these calls: every pending release again, then a release for each remembered button. */
  lemma ResetMakesCalls(h: Host, cfg: Config, accept: Pattern)
    ensures Emits(h, Reset(h, cfg, accept), RetriesIfKeyed(h, cfg) + ButtonReleases(h.prev, 8), accept)
  {
    hide FlushIfKeyed, RetriesIfKeyed, Releases, LastHeld, ButtonReleases, Emits, Bit;
    var h1 := FlushIfKeyed(h, cfg, accept);
    FlushIfKeyedEmits(h, cfg, accept);
    if h.prev == 0 {
      NoReleases(8);
      assert RetriesIfKeyed(h, cfg) + [] == RetriesIfKeyed(h, cfg);
    } else {
      ReleasesEmit(h1, h.prev, 8, accept);
      SameCalls(h1, Releases(h1, h.prev, LastHeld(h.prev, 8), 8, accept), Reset(h, cfg, accept), ButtonReleases(h.prev, 8), accept);
      EmitsThen(h, h1, Reset(h, cfg, accept), RetriesIfKeyed(h, cfg), ButtonReleases(h.prev, 8), accept);
    }
  }

  lemma {:induction false} NoReleases(n: nat)
    ensures ButtonReleases(0, n) == []
    decreases n
  {
    if n > 0 {
      NoReleases(n - 1);
      BitOfZero(n - 1);
    }
  }

  // ------------------------------------------------------ no tap outlives an accepted report

  /** No DPAD code is down at the host, and none is pending. */
  ghost predicate NoTaps(h: Host) { h.pending == 0 && forall d: nat :: d < DPAD_COUNT ==> !Down(h, Dpad(d)) }

  /** Every DPAD call from call number `from` on was accepted. */
  ghost predicate DpadsTaken(t: Host, from: nat) {
    forall k: nat :: from <= k < |t.calls| && t.calls[k].event.Key? && t.calls[k].event.code.Dpad? ==> t.calls[k].accepted
  }

  lemma TakenPrefix(h: Host, t: Host, u: Host)
    requires t.calls <= u.calls && DpadsTaken(u, |h.calls|)
    ensures DpadsTaken(t, |h.calls|)
    ensures |h.calls| <= |t.calls| ==> DpadsTaken(u, |t.calls|)
  {
    assert forall k: nat :: k < |t.calls| ==> t.calls[k] == u.calls[k];
  }

  lemma DpadsSameNoTaps(h: Host, t: Host)
    requires NoTaps(h) && DpadsSame(h, t)
    ensures NoTaps(t)
  {
    hide Held;
  }

  /** An accepted tap is followed by its accepted release. */
  lemma TapTaken(h: Host, idx: nat, accept: Pattern)
    requires idx < DPAD_COUNT && NoTaps(h) && DpadsTaken(Tap(h, idx, accept), |h.calls|)
    ensures NoTaps(Tap(h, idx, accept)) && h.calls <= Tap(h, idx, accept).calls
  {
    hide Held, Bitwise, Pow2, Alternates;
    var press, release := Key(Dpad(idx), true, false), Key(Dpad(idx), false, false);
    var h1 := Emit(h, press, accept);
    EmitView(h, press, accept);
    EmitView(h1, release, accept);
    var t := Tap(h, idx, accept);
    assert t.calls[|h.calls|] == Call(press, Takes(h, accept));
    if Takes(h, accept) {
      assert t.calls[|h.calls| + 1].event == release;
    }
  }

  lemma WheelTapTaken(h: Host, v: int32, negative: nat, positive: nat, accept: Pattern)
    requires negative < DPAD_COUNT && positive < DPAD_COUNT
    requires NoTaps(h) && DpadsTaken(WheelTap(h, v, negative, positive, accept), |h.calls|)
    ensures NoTaps(WheelTap(h, v, negative, positive, accept))
  {
    hide Tap, NoTaps, DpadsTaken;
    if v < 0 { TapTaken(h, negative, accept); } else if v > 0 { TapTaken(h, positive, accept); }
  }

  /** A flush whose calls are all accepted leaves nothing. */
  lemma FlushTaken(h: Host, cfg: Config, accept: Pattern)
    requires DpadsPending(h) && (cfg.hwheelAsKeys || cfg.wheelAsKeys) && DpadsTaken(FlushIfKeyed(h, cfg, accept), |h.calls|)
    ensures NoTaps(FlushIfKeyed(h, cfg, accept))
  {
    hide Flush, Held, Bit;
    FullFlushReleasesAll(h, accept);
  }

  lemma EmitsPrefix(h: Host, t: Host, es: seq<Event>, accept: Pattern)
    requires Emits(h, t, es, accept)
    ensures h.calls <= t.calls
  {}

  lemma MotionSame(h: Host, axis: RelAxis, v: int32, accept: Pattern)
    ensures DpadsSame(h, Motion(h, axis, v, accept))
  {
    hide Emit, Held;
    EmitOther(h, Rel(axis, v, false), accept);
  }

  lemma ButtonsSameDpads(h: Host, buttons: uint32, accept: Pattern)
    ensures DpadsSame(h, PublishButtons(h, buttons, accept))
  {
    hide Edges, Held, Bit, Bitwise, Merge;
    EdgesView(h, buttons, Bitwise(Xor, buttons, h.prev), PUBLISH_BTNS, accept);
  }

  lemma HWheelTaken(h: Host, v: int32, cfg: Config, accept: Pattern)
    requires NoTaps(h) && DpadsTaken(PublishHWheel(h, v, cfg, accept), |h.calls|)
    ensures NoTaps(PublishHWheel(h, v, cfg, accept))
  {
    hide Tap, Motion, NoTaps, DpadsTaken;
    if cfg.hwheelAsKeys {
      WheelTapTaken(h, v, DPAD_LEFT, DPAD_RIGHT, accept);
    } else {
      MotionSame(h, RelHWheel, v, accept);
      DpadsSameNoTaps(h, Motion(h, RelHWheel, v, accept));
    }
  }

  lemma WheelTaken(h: Host, v: int32, cfg: Config, accept: Pattern)
    requires NoTaps(h) && DpadsTaken(PublishWheel(h, v, cfg, accept), |h.calls|)
    ensures NoTaps(PublishWheel(h, v, cfg, accept))
  {
    hide Tap, Emit, NoTaps, DpadsTaken, DpadsSame, WheelCalls, Emits;
    if cfg.wheelAsKeys {
      var h1 := WheelTap(h, v, DPAD_DOWN, DPAD_UP, accept);
      var last := Rel(RelWheel, 0, true);
      WheelTapEmits(h, v, DPAD_DOWN, DPAD_UP, accept);
      EmitsOne(h1, last, accept);
      EmitsPrefix(h1, Emit(h1, last, accept), [last], accept);
      TakenPrefix(h, h1, Emit(h1, last, accept));
      WheelTapTaken(h, v, DPAD_DOWN, DPAD_UP, accept);
      EmitOther(h1, last, accept);
      DpadsSameNoTaps(h1, Emit(h1, last, accept));
    } else {
      EmitOther(h, Rel(RelWheel, v, true), accept);
      DpadsSameNoTaps(h, Emit(h, Rel(RelWheel, v, true), accept));
    }
  }

  /** A report with a keyed wheel, all of whose DPAD calls are accepted, leaves no DPAD code down and none pending. */
  lemma ReportReleasesTaps(h: Host, r: PointerReport, cfg: Config, accept: Pattern)
    requires DpadsPending(h) && (cfg.hwheelAsKeys || cfg.wheelAsKeys) && DpadsTaken(Publish(h, r, cfg, accept), |h.calls|)
    ensures NoTaps(Publish(h, r, cfg, accept))
  {
    hide FlushIfKeyed, RetriesIfKeyed, PublishButtons, ButtonEdges, Motion, PublishHWheel, PublishWheel, WheelCalls, Emits, IfMoved;
    hide NoTaps, DpadsTaken, DpadsSame, DpadsPending;
    var t := Publish(h, r, cfg, accept);
    var h1 := FlushIfKeyed(h, cfg, accept);
    var h2 := PublishButtons(h1, r.buttons, accept);
    var h3 := Motion(h2, RelX, r.dx, accept);
    var h4 := Motion(h3, RelY, r.dy, accept);
    var h5 := PublishHWheel(h4, r.hwheel, cfg, accept);
    FlushIfKeyedEmits(h, cfg, accept);
    EmitsPrefix(h, h1, RetriesIfKeyed(h, cfg), accept);
    ButtonsEmit(h1, r.buttons, accept);
    EmitsPrefix(h1, h2, ButtonEdges(r.buttons, h1.prev, 8), accept);
    MotionEmits(h2, RelX, r.dx, accept);
    EmitsPrefix(h2, h3, IfMoved(RelX, r.dx), accept);
    MotionEmits(h3, RelY, r.dy, accept);
    EmitsPrefix(h3, h4, IfMoved(RelY, r.dy), accept);
    HWheelEmits(h4, r.hwheel, cfg, accept);
    EmitsPrefix(h4, h5, if cfg.hwheelAsKeys then WheelCalls(r.hwheel, DPAD_LEFT, DPAD_RIGHT, |h4.calls|, accept)
                        else IfMoved(RelHWheel, r.hwheel), accept);
    WheelEmits(h5, r.wheel, cfg, accept);
    EmitsPrefix(h5, t, if cfg.wheelAsKeys then WheelCalls(r.wheel, DPAD_DOWN, DPAD_UP, |h5.calls|, accept) + [Rel(RelWheel, 0, true)]
                       else [Rel(RelWheel, r.wheel, true)], accept);
    TakenPrefix(h, h5, t);
    TakenPrefix(h, h4, h5);
    TakenPrefix(h, h1, h4);
    FlushTaken(h, cfg, accept);
    ButtonsSameDpads(h1, r.buttons, accept);
    DpadsSameNoTaps(h1, h2);
    MotionSame(h2, RelX, r.dx, accept);
    DpadsSameNoTaps(h2, h3);
    MotionSame(h3, RelY, r.dy, accept);
    DpadsSameNoTaps(h3, h4);
    HWheelTaken(h4, r.hwheel, cfg, accept);
    WheelTaken(h5, r.wheel, cfg, accept);
  }

  /** So does a reset. */
  lemma ResetReleasesTaps(h: Host, cfg: Config, accept: Pattern)
    requires DpadsPending(h) && (cfg.hwheelAsKeys || cfg.wheelAsKeys) && DpadsTaken(Reset(h, cfg, accept), |h.calls|)
    ensures NoTaps(Reset(h, cfg, accept))
  {
    hide FlushIfKeyed, RetriesIfKeyed, Releases, LastHeld, ButtonReleases, NoTaps, DpadsTaken, DpadsPending, Emits;
    var h1 := FlushIfKeyed(h, cfg, accept);
    FlushIfKeyedEmits(h, cfg, accept);
    EmitsPrefix(h, h1, RetriesIfKeyed(h, cfg), accept);
    if h1.prev == 0 {
      FlushTaken(h, cfg, accept);
    } else {
      var h2 := Releases(h1, h1.prev, LastHeld(h1.prev, 8), 8, accept);
      ReleasesEmit(h1, h1.prev, 8, accept);
      EmitsPrefix(h1, h2, ButtonReleases(h1.prev, 8), accept);
      SameHostTaken(Reset(h, cfg, accept), h2, |h.calls|);
      TakenPrefix(h, h1, h2);
      FlushTaken(h, cfg, accept);
      ReleasesSameDpads(h1, h1.prev, LastHeld(h1.prev, 8), 8, accept);
      DpadsSameNoTaps(h1, h2);
      SameHostNoTaps(h2, Reset(h, cfg, accept));
    }
  }

  lemma ReleasesSameDpads(h: Host, held: nat, last: int, n: nat, accept: Pattern)
    ensures DpadsSame(h, Releases(h, held, last, n, accept))
  {
    hide Held, Bit, Alternates;
    ReleasesView(h, held, last, n, accept);
  }

  lemma SameHostTaken(h: Host, t: Host, from: nat)
    requires h.calls == t.calls && DpadsTaken(h, from)
    ensures DpadsTaken(t, from)
  {}

  lemma SameHostNoTaps(h: Host, t: Host)
    requires h.calls == t.calls && h.pending == t.pending && NoTaps(h)
    ensures NoTaps(t)
  {}

  /**
   * After any session, with a wheel keyed: one more report or disconnect whose DPAD calls are all accepted
   * leaves no DPAD code down at the host and none pending, whatever was dropped before.
   */
  lemma TapsHeal(ops: seq<Op>, op: Op, cfg: Config, accept: Pattern)
    requires cfg.hwheelAsKeys || cfg.wheelAsKeys
    requires DpadsTaken(Session(ops + [op], cfg, accept), |Session(ops, cfg, accept).calls|)
    ensures NoTaps(Session(ops + [op], cfg, accept))
  {
    hide Publish, Reset, NoTaps, DpadsTaken, DpadsPending, LowButtons, SoundButtons;
    assert (ops + [op])[..|ops|] == ops;
    var h := Session(ops, cfg, accept);
    AlwaysSound(ops, cfg, accept);
    match op {
      case Report(r) => ReportReleasesTaps(h, r, cfg, accept);
      case Disconnect => ResetReleasesTaps(h, cfg, accept);
    }
  }
}

/** What the host on the other side of the lossy queue sees, for every report sequence and drop pattern. */
module PublishingLaws {
  import opened Bits
  import opened HidTypes
  import opened Publishing

  // ---------------------------------------------------------------- host view

  predicate Touches(k: Call, c: Code) { k.accepted && k.event.Key? && k.event.code == c }

  /** The host holds a code when the last accepted event for it is a press. */
  predicate Held(calls: seq<Call>, c: Code)
    decreases |calls|
  {
    if |calls| == 0 then false
    else
      var k := calls[|calls| - 1];
      if Touches(k, c) then k.event.down else Held(calls[..|calls| - 1], c)
  }

  /** The accepted events for a code alternate press, release, press, ... */
  predicate Alternates(calls: seq<Call>, c: Code)
    decreases |calls|
  {
    |calls| == 0 ||
    (var k, before := calls[|calls| - 1], calls[..|calls| - 1];
     Alternates(before, c) && (Touches(k, c) ==> k.event.down != Held(before, c)))
  }

  predicate Down(h: Host, c: Code) { Held(h.calls, c) }

  predicate Proper(h: Host, c: Code) { Alternates(h.calls, c) }

  predicate Hits(h: Host, e: Event, accept: Pattern, c: Code) { Takes(h, accept) && e.Key? && e.code == c }

  /** One call moves the host view of one code, and only if it is accepted. */
  lemma EmitView(h: Host, e: Event, accept: Pattern)
    ensures var t := Emit(h, e, accept);
            && (forall c: Code :: Down(t, c) == if Hits(h, e, accept, c) then e.down else Down(h, c))
            && (forall c: Code :: Proper(t, c) == (Proper(h, c) && (Hits(h, e, accept, c) ==> e.down != Down(h, c))))
            && t.prev == h.prev && t.pending == h.pending
            && |t.calls| == |h.calls| + 1 && t.calls[|h.calls|] == Call(e, Takes(h, accept)) && h.calls <= t.calls
  {
    var t := Emit(h, e, accept);
    assert t.calls[..|t.calls| - 1] == h.calls;
  }

  lemma OrBits(m: nat, k: nat)
    ensures forall i: nat :: Bit(Bitwise(Or, m, Pow2(k)), i) == (Bit(m, i) || i == k)
  {
    hide Bit, Bitwise, Pow2;
    forall i: nat ensures Bit(Bitwise(Or, m, Pow2(k)), i) == (Bit(m, i) || i == k) {
      BitwiseBit(Or, m, Pow2(k), i);
      BitOfPow2(k, i);
    }
  }

  lemma AndNotBits(m: nat, k: nat)
    ensures forall i: nat :: Bit(Bitwise(AndNot, m, Pow2(k)), i) == (Bit(m, i) && i != k)
  {
    hide Bit, Bitwise, Pow2;
    forall i: nat ensures Bit(Bitwise(AndNot, m, Pow2(k)), i) == (Bit(m, i) && i != k) {
      BitwiseBit(AndNot, m, Pow2(k), i);
      BitOfPow2(k, i);
    }
  }

  /** No button event happened between the two. */
  ghost predicate ButtonsSame(h: Host, t: Host) {
    && t.prev == h.prev
    && h.calls <= t.calls
    && (forall i: nat :: Down(t, Btn(i)) == Down(h, Btn(i)) && Proper(t, Btn(i)) == Proper(h, Btn(i)))
  }

  ghost predicate DpadsSame(h: Host, t: Host) {
    && t.pending == h.pending
    && h.calls <= t.calls
    && forall d: nat :: Down(t, Dpad(d)) == Down(h, Dpad(d))
  }

  /** Every DPAD code left pressed on the host has its release pending, and only DPAD codes are pending. */
  ghost predicate DpadsPending(h: Host) {
    && (forall d: nat :: d < DPAD_COUNT && Down(h, Dpad(d)) ==> Bit(h.pending, d))
    && (forall d: nat :: DPAD_COUNT <= d ==> !Bit(h.pending, d))
  }

  // ----------------------------------------------------------- taps and flushes

  lemma EmitDpad(h: Host, d0: nat, down: bool, accept: Pattern)
    ensures ButtonsSame(h, Emit(h, Key(Dpad(d0), down, false), accept))
  {
    hide Emit, Down, Proper;
    EmitView(h, Key(Dpad(d0), down, false), accept);
  }

  lemma EmitOther(h: Host, e: Event, accept: Pattern)
    requires e.Rel? || e.code.Btn?
    ensures DpadsSame(h, Emit(h, e, accept))
    ensures e.Rel? ==> ButtonsSame(h, Emit(h, e, accept))
  {
    hide Emit, Down, Proper;
    EmitView(h, e, accept);
  }

  lemma TapKeeps(h: Host, idx: nat, accept: Pattern)
    requires idx < DPAD_COUNT
    ensures ButtonsSame(h, Tap(h, idx, accept))
    ensures DpadsPending(h) ==> DpadsPending(Tap(h, idx, accept))
  {
    hide Emit, Held, Alternates, Bit, Pow2, Bitwise;
    var press, release := Key(Dpad(idx), true, false), Key(Dpad(idx), false, false);
    var h1 := Emit(h, press, accept);
    EmitDpad(h, idx, true, accept);
    EmitDpad(h1, idx, false, accept);
    EmitView(h, press, accept);
    EmitView(h1, release, accept);
    OrBits(h.pending, idx);
  }

  lemma {:induction false} FlushKeeps(h: Host, n: nat, accept: Pattern)
    requires n <= DPAD_COUNT
    ensures ButtonsSame(h, Flush(h, n, accept))
    ensures DpadsPending(h) ==> DpadsPending(Flush(h, n, accept))
    ensures forall d: nat :: d >= n ==> Bit(Flush(h, n, accept).pending, d) == Bit(h.pending, d)
    ensures Released(h, Flush(h, n, accept)) ==> forall d: nat :: d < n ==> !Bit(Flush(h, n, accept).pending, d)
    decreases n
  {
    hide Emit, Held, Alternates, Bit, Pow2, Bitwise;
    if n > 0 {
      FlushKeeps(h, n - 1, accept);
      var h1 := Flush(h, n - 1, accept);
      var release := Key(Dpad(n - 1), false, false);
      EmitDpad(h1, n - 1, false, accept);
      EmitView(h1, release, accept);
      AndNotBits(h1.pending, n - 1);
      var t := Flush(h, n, accept);
      assert h1.calls <= t.calls;
      if Bit(h1.pending, n - 1) {
        var h2 := Emit(h1, release, accept);
        assert forall d: nat :: Down(t, Dpad(d)) == Down(h2, Dpad(d));
      }
      if Released(h, t) {
        forall k: nat | |h.calls| <= k < |h1.calls| && h1.calls[k].event.Key? && h1.calls[k].event.code.Dpad?
          ensures h1.calls[k].accepted
        {
          assert t.calls[k] == h1.calls[k];
        }
        if Bit(h1.pending, n - 1) {
          assert t.calls[|h1.calls|] == Call(release, Takes(h1, accept));
        }
      }
    }
  }

  /** Every DPAD release called between the two was accepted. */
  ghost predicate Released(h: Host, t: Host) {
    forall k: nat :: |h.calls| <= k < |t.calls| && t.calls[k].event.Key? && t.calls[k].event.code.Dpad? ==> t.calls[k].accepted
  }

  /** A fully accepted flush leaves no DPAD code held and nothing pending. */
  lemma FullFlushReleasesAll(h: Host, accept: Pattern)
    requires DpadsPending(h) && Released(h, Flush(h, DPAD_COUNT, accept))
    ensures forall d: nat :: d < DPAD_COUNT ==> !Down(Flush(h, DPAD_COUNT, accept), Dpad(d))
    ensures Flush(h, DPAD_COUNT, accept).pending == 0
  {
    hide Flush, Held, Bit;
    FlushKeeps(h, DPAD_COUNT, accept);
    var t := Flush(h, DPAD_COUNT, accept);
    forall i: nat ensures Bit(t.pending, i) == Bit(0, i) { BitOfZero(i); }
    BitsExtensional(t.pending, 0);
  }

  // -------------------------------------------------------------- button edges

  /** Every button edge called between the two was accepted. */
  ghost predicate EdgesTaken(h: Host, t: Host) {
    forall k: nat :: |h.calls| <= k < |t.calls| && t.calls[k].event.Key? && t.calls[k].event.code.Btn? ==> t.calls[k].accepted
  }

  lemma {:induction false} EdgesView(h: Host, buttons: nat, changed: nat, n: nat, accept: Pattern)
    ensures var (t, applied) := Edges(h, buttons, changed, n, accept);
            && t.prev == h.prev && DpadsSame(h, t)
            && (forall i: nat :: Bit(applied, i) ==> i < n && Bit(changed, i))
            && (forall i: nat :: Down(t, Btn(i)) == if Bit(applied, i) then Bit(buttons, i) else Down(h, Btn(i)))
            && (forall i: nat :: Proper(t, Btn(i)) == (Proper(h, Btn(i)) && (Bit(applied, i) ==> Bit(buttons, i) != Down(h, Btn(i)))))
            && (EdgesTaken(h, t) ==> forall i: nat :: i < n && Bit(changed, i) ==> Bit(applied, i))
    decreases n
  {
    hide Emit, Held, Alternates, Bit, Pow2, Bitwise;
    if n == 0 {
      forall i: nat ensures !Bit(0, i) { BitOfZero(i); }
    } else {
      EdgesView(h, buttons, changed, n - 1, accept);
      var (h1, applied1) := Edges(h, buttons, changed, n - 1, accept);
      if Bit(changed, n - 1) {
        var e := Key(Btn(n - 1), Bit(buttons, n - 1), false);
        EmitOther(h1, e, accept);
        EmitView(h1, e, accept);
        OrBits(applied1, n - 1);
        var t := Emit(h1, e, accept);
        if EdgesTaken(h, t) {
          assert t.calls[|h1.calls|].accepted;
          forall k: nat | |h.calls| <= k < |h1.calls| && h1.calls[k].event.Key? && h1.calls[k].event.code.Btn?
            ensures h1.calls[k].accepted
          {
            assert t.calls[k] == h1.calls[k];
          }
        }
      }
    }
  }

  lemma MergeBits(prev: nat, buttons: nat, applied: nat, i: nat)
    ensures Bit(Merge(prev, buttons, applied), i) == if Bit(applied, i) then Bit(buttons, i) else Bit(prev, i)
  {
    hide Bit, Bitwise;
    BitwiseBit(Or, Bitwise(AndNot, prev, applied), Bitwise(And, buttons, applied), i);
    BitwiseBit(AndNot, prev, applied, i);
    BitwiseBit(And, buttons, applied, i);
  }

  /** The buttons of prev_buttons are those below 8. */
  predicate LowButtons(h: Host) { h.prev < 0x100 }

  /**
   * The outcome of the edge loop, button by button: an edge is called exactly when the report differs
   * from the memory, and memory and host view move together exactly when it is accepted.
   */
  lemma ButtonsView(h: Host, buttons: uint32, accept: Pattern) returns (applied: nat)
    requires LowButtons(h)
    ensures var t := PublishButtons(h, buttons, accept);
            && LowButtons(t) && DpadsSame(h, t)
            && (forall i: nat :: Bit(applied, i) ==> i < PUBLISH_BTNS && Bit(buttons, i) != Bit(h.prev, i))
            && (forall i: nat :: Bit(t.prev, i) == if Bit(applied, i) then Bit(buttons, i) else Bit(h.prev, i))
            && (forall i: nat :: Down(t, Btn(i)) == if Bit(applied, i) then Bit(buttons, i) else Down(h, Btn(i)))
            && (forall i: nat :: Proper(t, Btn(i)) == (Proper(h, Btn(i)) && (Bit(applied, i) ==> Bit(buttons, i) != Down(h, Btn(i)))))
            && (EdgesTaken(h, t) ==> forall i: nat :: i < PUBLISH_BTNS ==> Bit(applied, i) == (Bit(buttons, i) != Bit(h.prev, i)))
  {
    hide Edges, Held, Alternates, Bit, Pow2, Bitwise, Merge;
    var changed := Bitwise(Xor, buttons, h.prev);
    var (h1, a) := Edges(h, buttons, changed, PUBLISH_BTNS, accept);
    applied := a;
    EdgesView(h, buttons, changed, PUBLISH_BTNS, accept);
    forall i: nat ensures Bit(changed, i) == (Bit(buttons, i) != Bit(h.prev, i)) { BitwiseBit(Xor, buttons, h.prev, i); }
    Pow2Literals();
    forall i: nat ensures Bit(Merge(h.prev, buttons, a), i) == if Bit(a, i) then Bit(buttons, i) else Bit(h.prev, i) {
      MergeBits(h.prev, buttons, a, i);
    }
    forall i: nat | 8 <= i ensures !Bit(Merge(h.prev, buttons, a), i) {
      BitAbove(h.prev, 8, i);
    }
    BoundedByBits(Merge(h.prev, buttons, a), 8);
  }

  // -------------------------------------------------------------- one publish

  /** From the buttons to the end of the report nothing touches a button. */
  function Rest(h1: Host, r: PointerReport, cfg: Config, accept: Pattern): Host {
    var h2 := Motion(Motion(h1, RelX, r.dx, accept), RelY, r.dy, accept);
    PublishWheel(PublishHWheel(h2, r.hwheel, cfg, accept), r.wheel, cfg, accept)
  }

  /** No button event, and no DPAD press left without a pending release. */
  ghost predicate Harmless(h: Host, t: Host) { ButtonsSame(h, t) && (DpadsPending(h) ==> DpadsPending(t)) }

  lemma HarmlessTransitive(a: Host, b: Host, c: Host)
    requires Harmless(a, b) && Harmless(b, c)
    ensures Harmless(a, c)
  {
    hide Held, Alternates, Bit;
  }

  lemma MotionHarmless(h: Host, axis: RelAxis, value: int32, accept: Pattern)
    ensures Harmless(h, Motion(h, axis, value, accept))
  {
    hide Emit, Held, Alternates, Bit;
    EmitOther(h, Rel(axis, value, false), accept);
  }

  lemma WheelsHarmless(h: Host, v: int32, cfg: Config, accept: Pattern)
    ensures Harmless(h, PublishHWheel(h, v, cfg, accept)) && Harmless(h, PublishWheel(h, v, cfg, accept))
  {
    hide Emit, Tap, Held, Alternates, Bit;
    MotionHarmless(h, RelHWheel, v, accept);
    TapKeeps(h, DPAD_LEFT, accept);
    TapKeeps(h, DPAD_RIGHT, accept);
    TapKeeps(h, DPAD_UP, accept);
    TapKeeps(h, DPAD_DOWN, accept);
    EmitOther(h, Rel(RelWheel, v, true), accept);
    var h1 := if v > 0 then Tap(h, DPAD_UP, accept) else if v < 0 then Tap(h, DPAD_DOWN, accept) else h;
    EmitOther(h1, Rel(RelWheel, 0, true), accept);
    assert Harmless(h, h1) && Harmless(h1, Emit(h1, Rel(RelWheel, 0, true), accept));
    HarmlessTransitive(h, h1, Emit(h1, Rel(RelWheel, 0, true), accept));
  }

  lemma RestHarmless(h: Host, r: PointerReport, cfg: Config, accept: Pattern)
    ensures Harmless(h, Rest(h, r, cfg, accept))
  {
    hide Motion, PublishHWheel, PublishWheel, Harmless;
    var a := Motion(h, RelX, r.dx, accept);
    MotionHarmless(h, RelX, r.dx, accept);
    var b := Motion(a, RelY, r.dy, accept);
    MotionHarmless(a, RelY, r.dy, accept);
    HarmlessTransitive(h, a, b);
    WheelsHarmless(b, r.hwheel, cfg, accept);
    var c := PublishHWheel(b, r.hwheel, cfg, accept);
    HarmlessTransitive(h, b, c);
    WheelsHarmless(c, r.wheel, cfg, accept);
    HarmlessTransitive(h, c, PublishWheel(c, r.wheel, cfg, accept));
  }

  lemma FlushHarmless(h: Host, cfg: Config, accept: Pattern)
    ensures Harmless(h, FlushIfKeyed(h, cfg, accept))
  {
    hide Flush, Held, Alternates, Bit;
    FlushKeeps(h, DPAD_COUNT, accept);
  }

  /** What a publish does to memory and host view of the buttons, whatever is dropped. */
  lemma PublishView(h: Host, r: PointerReport, cfg: Config, accept: Pattern) returns (applied: nat)
    requires LowButtons(h)
    ensures var t := Publish(h, r, cfg, accept);
            && LowButtons(t) && h.calls <= t.calls && (DpadsPending(h) ==> DpadsPending(t))
            && (forall i: nat :: Bit(applied, i) ==> i < PUBLISH_BTNS && Bit(r.buttons, i) != Bit(h.prev, i))
            && (forall i: nat :: Bit(t.prev, i) == if Bit(applied, i) then Bit(r.buttons, i) else Bit(h.prev, i))
            && (forall i: nat :: Down(t, Btn(i)) == if Bit(applied, i) then Bit(r.buttons, i) else Down(h, Btn(i)))
            && (forall i: nat :: Proper(t, Btn(i)) == (Proper(h, Btn(i)) && (Bit(applied, i) ==> Bit(r.buttons, i) != Down(h, Btn(i)))))
            && (EdgesTaken(h, t) ==> forall i: nat :: i < PUBLISH_BTNS ==> Bit(applied, i) == (Bit(r.buttons, i) != Bit(h.prev, i)))
  {
    hide FlushIfKeyed, PublishButtons, Motion, PublishHWheel, PublishWheel, Held, Alternates, Bit, Bitwise;
    var h1 := FlushIfKeyed(h, cfg, accept);
    FlushHarmless(h, cfg, accept);
    applied := ButtonsView(h1, r.buttons, accept);
    var h2 := PublishButtons(h1, r.buttons, accept);
    RestHarmless(h2, r, cfg, accept);
    var t := Publish(h, r, cfg, accept);
    assert t == Rest(h2, r, cfg, accept);
    if EdgesTaken(h, t) {
      forall k: nat | |h1.calls| <= k < |h2.calls| && h2.calls[k].event.Key? && h2.calls[k].event.code.Btn?
        ensures h2.calls[k].accepted
      {
        assert t.calls[k] == h2.calls[k];
      }
    }
  }

  // ------------------------------------------------------------------ one reset

  lemma {:induction false} ReleasesView(h: Host, held: nat, last: int, n: nat, accept: Pattern)
    ensures var t := Releases(h, held, last, n, accept);
            && t.prev == h.prev && DpadsSame(h, t)
            && (forall i: nat :: !(i < n && Bit(held, i)) ==> Down(t, Btn(i)) == Down(h, Btn(i)) && Proper(t, Btn(i)) == Proper(h, Btn(i)))
            && (forall i: nat :: Down(t, Btn(i)) ==> Down(h, Btn(i)))
            && (forall i: nat :: Down(h, Btn(i)) && Proper(h, Btn(i)) ==> Proper(t, Btn(i)))
            && ((forall i: nat :: i < n && Bit(held, i) ==> Down(h, Btn(i))) ==>
                (EdgesTaken(h, t) <==> forall i: nat :: i < n && Bit(held, i) ==> !Down(t, Btn(i))))
    decreases n
  {
    hide Emit, Held, Alternates, Bit;
    if n > 0 {
      ReleasesView(h, held, last, n - 1, accept);
      var h1 := Releases(h, held, last, n - 1, accept);
      if Bit(held, n - 1) {
        var e := Key(Btn(n - 1), false, n - 1 == last);
        EmitOther(h1, e, accept);
        EmitView(h1, e, accept);
        var t := Emit(h1, e, accept);
        assert EdgesTaken(h, t) <==> EdgesTaken(h, h1) && t.calls[|h1.calls|].accepted by {
          assert forall k: nat :: k < |h1.calls| ==> t.calls[k] == h1.calls[k];
        }
      }
    }
  }

  lemma {:induction false} LastHeldBits(held: nat, n: nat)
    ensures var last := LastHeld(held, n);
            last < n && (last >= 0 ==> Bit(held, last)) && forall i: nat :: last < i < n ==> !Bit(held, i)
    decreases n
  {
    if n > 0 && !Bit(held, n - 1) { LastHeldBits(held, n - 1); }
  }

  /** What a reset does to memory and host view, whatever is dropped. */
  lemma ResetView(h: Host, cfg: Config, accept: Pattern)
    requires LowButtons(h)
    ensures var t := Reset(h, cfg, accept);
            && t.prev == 0 && h.calls <= t.calls && (DpadsPending(h) ==> DpadsPending(t))
            && (forall i: nat :: !Bit(h.prev, i) ==> Down(t, Btn(i)) == Down(h, Btn(i)) && Proper(t, Btn(i)) == Proper(h, Btn(i)))
            && (forall i: nat :: Down(h, Btn(i)) && Proper(h, Btn(i)) ==> Proper(t, Btn(i)))
            && (SoundButtons(h) ==> (EdgesTaken(h, t) <==> forall i: nat :: Bit(h.prev, i) ==> !Down(t, Btn(i))))
  {
    hide FlushIfKeyed, Flush, Releases, LastHeld, Held, Alternates, Bit;
    var h1 := FlushIfKeyed(h, cfg, accept);
    FlushHarmless(h, cfg, accept);
    FlushHasNoEdges(h, cfg, accept);
    forall i: nat ensures !Bit(0, i) { BitOfZero(i); }
    if h1.prev != 0 {
      var last := LastHeld(h1.prev, PUBLISH_BTNS);
      var h2 := Releases(h1, h1.prev, last, PUBLISH_BTNS, accept);
      ReleasesView(h1, h1.prev, last, PUBLISH_BTNS, accept);
      Pow2Literals();
      forall i: nat | PUBLISH_BTNS <= i ensures !Bit(h.prev, i) { BitAbove(h.prev, 8, i); }
      var t := Reset(h, cfg, accept);
      assert t.calls == h2.calls;
      assert forall c: Code :: Down(t, c) == Down(h2, c) && Proper(t, c) == Proper(h2, c);
      assert EdgesTaken(h, t) <==> EdgesTaken(h1, h2) by {
        assert forall k: nat :: k < |h1.calls| ==> t.calls[k] == h1.calls[k];
      }
    }
  }

  lemma FlushHasNoEdges(h: Host, cfg: Config, accept: Pattern)
    ensures EdgesTaken(h, FlushIfKeyed(h, cfg, accept))
  {
    FlushOnlyDpads(h, DPAD_COUNT, accept);
  }

  lemma {:induction false} FlushOnlyDpads(h: Host, n: nat, accept: Pattern)
    requires n <= DPAD_COUNT
    ensures h.calls <= Flush(h, n, accept).calls
    ensures forall k: nat :: |h.calls| <= k < |Flush(h, n, accept).calls| ==>
              Flush(h, n, accept).calls[k].event.Key? && Flush(h, n, accept).calls[k].event.code.Dpad?
    decreases n
  {
    if n > 0 { FlushOnlyDpads(h, n - 1, accept); }
  }

  // ------------------------------------------------------------ whole runs

  /** A button set in the memory is held at the host. */
  ghost predicate SoundButtons(h: Host) { forall i: nat :: Bit(h.prev, i) ==> Down(h, Btn(i)) }

  /** The memory is the host view, and no button was ever pressed or released twice in a row. */
  ghost predicate ExactButtons(h: Host) {
    forall i: nat :: Bit(h.prev, i) == Down(h, Btn(i)) && Proper(h, Btn(i))
  }

  datatype Op = Report(report: PointerReport) | Disconnect

  function Do(h: Host, op: Op, cfg: Config, accept: Pattern): Host {
    match op
    case Report(r) => Publish(h, r, cfg, accept)
    case Disconnect => Reset(h, cfg, accept)
  }

  function Session(ops: seq<Op>, cfg: Config, accept: Pattern): Host {
    if |ops| == 0 then IDLE else Do(Session(ops[..|ops| - 1], cfg, accept), ops[|ops| - 1], cfg, accept)
  }

  /**
   * For every sequence of reports and disconnects and every drop pattern: the memory stays within 8
   * bits, a button in it is held at the host, and a DPAD code left pressed has its release pending.
   */
  lemma {:induction false} AlwaysSound(ops: seq<Op>, cfg: Config, accept: Pattern)
    ensures var h := Session(ops, cfg, accept); LowButtons(h) && SoundButtons(h) && DpadsPending(h)
    decreases |ops|
  {
    hide Publish, Reset, Held, Alternates, Bit;
    if |ops| == 0 {
      forall i: nat ensures !Bit(0, i) { BitOfZero(i); }
      assert forall c: Code :: !Down(IDLE, c) by { NothingHeld(); }
    } else {
      var h := Session(ops[..|ops| - 1], cfg, accept);
      AlwaysSound(ops[..|ops| - 1], cfg, accept);
      match ops[|ops| - 1] {
        case Report(r) => var applied := PublishView(h, r, cfg, accept);
        case Disconnect =>
          ResetView(h, cfg, accept);
          forall i: nat ensures !Bit(0, i) { BitOfZero(i); }
      }
    }
  }

  lemma NothingHeld()
    ensures forall c: Code :: !Down(IDLE, c) && Proper(IDLE, c)
  {}

  /** Every disconnect so far had its button releases accepted. */
  ghost predicate CleanDisconnects(ops: seq<Op>, cfg: Config, accept: Pattern) {
    forall k :: 0 <= k < |ops| && ops[k].Disconnect? ==>
      EdgesTaken(Session(ops[..k], cfg, accept), Session(ops[..k + 1], cfg, accept))
  }

  /**
   * Whatever reports drop, the memory equals the last accepted event of every button, and the accepted
   * events of every button alternate press and release, as long as no disconnect lost a release.
   */
  lemma {:induction false} ExactWhileDisconnectsClean(ops: seq<Op>, cfg: Config, accept: Pattern)
    requires CleanDisconnects(ops, cfg, accept)
    ensures ExactButtons(Session(ops, cfg, accept))
    decreases |ops|
  {
    hide Publish, Reset, Held, Alternates, Bit, EdgesTaken;
    if |ops| == 0 {
      forall i: nat ensures !Bit(0, i) { BitOfZero(i); }
      NothingHeld();
    } else {
      var n := |ops| - 1;
      forall k | 0 <= k < n && ops[..n][k].Disconnect?
        ensures EdgesTaken(Session(ops[..n][..k], cfg, accept), Session(ops[..n][..k + 1], cfg, accept))
      {
        assert ops[..n][..k] == ops[..k] && ops[..n][..k + 1] == ops[..k + 1];
      }
      var h := Session(ops[..n], cfg, accept);
      ExactWhileDisconnectsClean(ops[..n], cfg, accept);
      AlwaysSound(ops[..n], cfg, accept);
      match ops[n] {
        case Report(r) => var applied := PublishView(h, r, cfg, accept);
        case Disconnect =>
          assert ops[..n + 1] == ops;
          ResetView(h, cfg, accept);
          forall i: nat ensures !Bit(0, i) { BitOfZero(i); }
      }
    }
  }

  lemma {:induction false} AlternatesPrefix(a: seq<Call>, b: seq<Call>, c: Code)
    requires a <= b && Alternates(b, c)
    ensures Alternates(a, c)
    decreases |b|
  {
    hide Held;
    if |a| < |b| {
      AlternatesPrefix(a, b[..|b| - 1], c);
    } else {
      assert a == b;
    }
  }

  /** Once memory and host have parted, no report and no disconnect brings them together without a press or release out of turn. */
  lemma InexactStays(h: Host, op: Op, cfg: Config, accept: Pattern)
    requires LowButtons(h) && SoundButtons(h) && !ExactButtons(h)
    ensures !ExactButtons(Do(h, op, cfg, accept))
  {
    hide Publish, Reset, Held, Alternates, Bit, EdgesTaken;
    var t := Do(h, op, cfg, accept);
    var i: nat :| !(Bit(h.prev, i) == Down(h, Btn(i)) && Proper(h, Btn(i)));
    match op {
      case Report(r) => var applied := PublishView(h, r, cfg, accept);
      case Disconnect =>
        ResetView(h, cfg, accept);
        BitOfZero(i);
        if Proper(t, Btn(i)) { AlternatesPrefix(h.calls, t.calls, Btn(i)); }
    }
    assert !(Bit(t.prev, i) == Down(t, Btn(i)) && Proper(t, Btn(i)));
  }

  /**
   * Over every session and drop pattern: memory is the last accepted event of every button and the accepted
   * events alternate press and release exactly when no disconnect lost a release. What is lost is never
   * made good.
   */
  lemma {:induction false} ExactIffDisconnectsClean(ops: seq<Op>, cfg: Config, accept: Pattern)
    ensures ExactButtons(Session(ops, cfg, accept)) <==> CleanDisconnects(ops, cfg, accept)
    decreases |ops|
  {
    hide Do, ExactButtons, EdgesTaken, LowButtons, SoundButtons, DpadsPending;
    if CleanDisconnects(ops, cfg, accept) {
      ExactWhileDisconnectsClean(ops, cfg, accept);
    } else {
      var n := |ops| - 1;
      var h := Session(ops[..n], cfg, accept);
      AlwaysSound(ops[..n], cfg, accept);
      ExactIffDisconnectsClean(ops[..n], cfg, accept);
      if ExactButtons(h) {
        LastIsUnclean(ops, cfg, accept);
        ResetParts(h, ops[n], cfg, accept);
      } else {
        InexactStays(h, ops[n], cfg, accept);
      }
    }
  }

  /** If only the whole session is unclean, its last operation is a disconnect that lost a release. */
  lemma LastIsUnclean(ops: seq<Op>, cfg: Config, accept: Pattern)
    requires |ops| > 0 && !CleanDisconnects(ops, cfg, accept) && CleanDisconnects(ops[..|ops| - 1], cfg, accept)
    ensures ops[|ops| - 1].Disconnect?
    ensures !EdgesTaken(Session(ops[..|ops| - 1], cfg, accept), Session(ops, cfg, accept))
  {
    hide Do, EdgesTaken, Session;
    var n := |ops| - 1;
    forall k | 0 <= k < n && ops[k].Disconnect?
      ensures EdgesTaken(Session(ops[..k], cfg, accept), Session(ops[..k + 1], cfg, accept))
    {
      assert ops[..n][..k] == ops[..k] && ops[..n][..k + 1] == ops[..k + 1] && ops[..n][k].Disconnect?;
    }
    assert ops[..n + 1] == ops;
  }

  lemma ResetParts(h: Host, op: Op, cfg: Config, accept: Pattern)
    requires LowButtons(h) && ExactButtons(h) && op.Disconnect? && !EdgesTaken(h, Do(h, op, cfg, accept))
    ensures !ExactButtons(Do(h, op, cfg, accept))
  {
    hide Reset, ExactButtons, EdgesTaken, LowButtons;
    ResetExactIff(h, cfg, accept);
  }

  /** Exactly when a disconnect keeps memory and host view equal: when none of its releases was dropped. */
  lemma ResetExactIff(h: Host, cfg: Config, accept: Pattern)
    requires LowButtons(h) && ExactButtons(h)
    ensures ExactButtons(Reset(h, cfg, accept)) <==> EdgesTaken(h, Reset(h, cfg, accept))
  {
    hide Reset, Held, Alternates, Bit, EdgesTaken;
    ResetView(h, cfg, accept);
    forall i: nat ensures !Bit(0, i) { BitOfZero(i); }
  }

  /**
   * A report none of whose edges is dropped leaves the host view of button i equal to the report,
   * exactly unless a release lost at a disconnect keeps the button down while the report has it up.
   */
  lemma PublishReachesHost(h: Host, r: PointerReport, cfg: Config, accept: Pattern, i: nat)
    requires LowButtons(h) && SoundButtons(h) && i < PUBLISH_BTNS
    requires EdgesTaken(h, Publish(h, r, cfg, accept))
    ensures Down(Publish(h, r, cfg, accept), Btn(i)) == Bit(r.buttons, i)
            <==> Bit(r.buttons, i) || Bit(h.prev, i) == Down(h, Btn(i))
  {
    hide Publish, Held, Bit, EdgesTaken;
    var applied := PublishView(h, r, cfg, accept);
  }

  /** After any session with clean disconnects, a report with no dropped edge is the host view of all eight buttons. */
  lemma FullyAcceptedReportShows(ops: seq<Op>, r: PointerReport, cfg: Config, accept: Pattern, i: nat)
    requires CleanDisconnects(ops, cfg, accept) && i < PUBLISH_BTNS
    requires EdgesTaken(Session(ops, cfg, accept), Session(ops + [Report(r)], cfg, accept))
    ensures Down(Session(ops + [Report(r)], cfg, accept), Btn(i)) == Bit(r.buttons, i)
  {
    hide Publish, Held, Bit, EdgesTaken, Alternates;
    assert (ops + [Report(r)])[..|ops|] == ops;
    AlwaysSound(ops, cfg, accept);
    ExactWhileDisconnectsClean(ops, cfg, accept);
    PublishReachesHost(Session(ops, cfg, accept), r, cfg, accept, i);
  }

  /** Reports one after another on one connection. */
  function Reports(h: Host, rs: seq<PointerReport>, cfg: Config, accept: Pattern): Host {
    if |rs| == 0 then h else Publish(Reports(h, rs[..|rs| - 1], cfg, accept), rs[|rs| - 1], cfg, accept)
  }

  /**
   * A button whose release was lost at a disconnect stays down at the host through every later report
   * that has it up, even when nothing is dropped any more.
   */
  lemma {:induction false} LostReleaseLatches(h: Host, rs: seq<PointerReport>, cfg: Config, accept: Pattern, i: nat)
    requires LowButtons(h) && Down(Reset(h, cfg, accept), Btn(i))
    requires forall k :: 0 <= k < |rs| ==> !Bit(rs[k].buttons, i)
    ensures var t := Reports(Reset(h, cfg, accept), rs, cfg, accept);
            LowButtons(t) && !Bit(t.prev, i) && Down(t, Btn(i))
    decreases |rs|
  {
    hide Publish, Reset, Held, Bit, Alternates;
    if |rs| == 0 {
      ResetView(h, cfg, accept);
      BitOfZero(i);
    } else {
      var init := rs[..|rs| - 1];
      LostReleaseLatches(h, init, cfg, accept, i);
      var applied := PublishView(Reports(Reset(h, cfg, accept), init, cfg, accept), rs[|rs| - 1], cfg, accept);
    }
  }

  lemma {:induction false} OnlyButton0(h: Host, n: nat, accept: Pattern)
    requires n >= 1
    ensures Edges(h, 1, 1, n, accept) == (Emit(h, Key(Btn(0), true, false), accept), if Takes(h, accept) then OrBit(0, 0) else 0)
    ensures LastHeld(1, n) == 0
    ensures Releases(h, 1, 0, n, accept) == Emit(h, Key(Btn(0), false, true), accept)
    decreases n
  {
    assert Bit(1, 0);
    if n == 1 {
      assert Edges(h, 1, 1, 0, accept) == (h, 0) && Releases(h, 1, 0, 0, accept) == h;
    } else {
      OnlyButton0(h, n - 1, accept);
      BitOfZero(n - 2);
      assert !Bit(1, n - 1);
    }
  }

  /** Such a loss exists: left button pressed, then a disconnect whose release is the third call and is dropped. */
  lemma LostReleaseExists()
    ensures var accept := (k: nat) => k != 2;
            var h := Session([Report(PointerReport(0, 0, 0, 0, 1))], Config(false, false), accept);
            ExactButtons(h) && Down(Reset(h, Config(false, false), accept), Btn(0))
  {
    hide Held, Bit, Edges, Releases, LastHeld, Bitwise;
    var accept := (k: nat) => k != 2;
    var cfg, r := Config(false, false), PointerReport(0, 0, 0, 0, 1);
    var ops := [Report(r)];
    assert ops[..0] == [];
    OnlyButton0(IDLE, PUBLISH_BTNS, accept);
    SingleBit();
    var h := Publish(IDLE, r, cfg, accept);
    assert Session(ops, cfg, accept) == h;
    ExactWhileDisconnectsClean(ops, cfg, accept);
    assert |h.calls| == 2 && h.prev == 1;
    OnlyButton0(h, PUBLISH_BTNS, accept);
    EmitView(h, Key(Btn(0), false, true), accept);
    var t := Reset(h, cfg, accept);
    assert Down(t, Btn(0)) == Down(Emit(h, Key(Btn(0), false, true), accept), Btn(0));
    assert Bit(1, 0) by { BitOfPow2(0, 0); }
  }

  lemma SingleBit()
    ensures Bitwise(Xor, 1, 0) == 1 && OrBit(0, 0) == 1 && Merge(0, 1, 1) == 1
  {
    assert forall op: BitOp :: Bitwise(op, 0, 0) == 0;
    assert Pow2(0) == 1;
    assert Bitwise(Or, 0, 1) == 1 && Bitwise(AndNot, 0, 1) == 0 && Bitwise(And, 1, 1) == 1;
  }

  // --------------------------------------------------- the rest of one report

  /** Relative events and DPAD presses: what a report adds besides button edges and releases. */
  predicate IsVisible(e: Event) { e.Rel? || (e.code.Dpad? && e.down) }

  function Visible(calls: seq<Call>): seq<Event> {
    if |calls| == 0 then []
    else
      var e := calls[|calls| - 1].event;
      Visible(calls[..|calls| - 1]) + (if IsVisible(e) then [e] else [])
  }

  function IfMoved(axis: RelAxis, v: int32): seq<Event> { if v != 0 then [Rel(axis, v, false)] else [] }

  function TapOf(v: int32, negative: nat, positive: nat): seq<Event> {
    if v < 0 then [Key(Dpad(negative), true, false)] else if v > 0 then [Key(Dpad(positive), true, false)] else []
  }

  /** What one report owes the listener besides button edges: motion, one tap a keyed wheel, one terminator. */
  function Owed(r: PointerReport, cfg: Config): seq<Event> {
    IfMoved(RelX, r.dx) + IfMoved(RelY, r.dy)
    + HWheelOwed(r.hwheel, cfg)
    + (if cfg.wheelAsKeys then TapOf(r.wheel, DPAD_DOWN, DPAD_UP) else [])
    + [Rel(RelWheel, if cfg.wheelAsKeys then 0 else r.wheel, true)]
  }

  /** Between h and t the visible events were `rels`, and no event had the sync flag. */
  ghost predicate Adds(h: Host, t: Host, rels: seq<Event>) {
    && h.calls <= t.calls
    && Visible(t.calls[|h.calls|..]) == rels
    && forall k :: |h.calls| <= k < |t.calls| ==> !t.calls[k].event.sync
  }

  lemma {:induction false} VisibleConcat(a: seq<Call>, b: seq<Call>)
    ensures Visible(a + b) == Visible(a) + Visible(b)
    decreases |b|
  {
    if |b| == 0 {
      assert a + b == a;
    } else {
      VisibleConcat(a, b[..|b| - 1]);
      assert (a + b)[..|a + b| - 1] == a + b[..|b| - 1];
    }
  }

  lemma AddsThen(a: Host, b: Host, c: Host, x: seq<Event>, y: seq<Event>)
    requires Adds(a, b, x) && Adds(b, c, y)
    ensures Adds(a, c, x + y)
  {
    assert c.calls[|a.calls|..] == b.calls[|a.calls|..] + c.calls[|b.calls|..];
    VisibleConcat(b.calls[|a.calls|..], c.calls[|b.calls|..]);
    forall k | |a.calls| <= k < |c.calls| ensures !c.calls[k].event.sync {
      if k < |b.calls| { assert c.calls[k] == b.calls[k]; }
    }
  }

  lemma AddsNothing(h: Host, t: Host)
    requires t.calls == h.calls
    ensures Adds(h, t, [])
  {
    assert t.calls[|h.calls|..] == [];
  }

  lemma VisibleOne(k: Call)
    ensures Visible([k]) == if IsVisible(k.event) then [k.event] else []
  {
    assert [k][..0] == [];
    assert Visible([]) == [];
  }

  lemma EmitAdds(h: Host, e: Event, accept: Pattern)
    requires !e.sync
    ensures Adds(h, Emit(h, e, accept), if IsVisible(e) then [e] else [])
  {
    var t := Emit(h, e, accept);
    assert t.calls[|h.calls|..] == [Call(e, accept(|h.calls|))];
    VisibleOne(Call(e, accept(|h.calls|)));
  }

  lemma KeyThen(a: Host, b: Host, e: Event, accept: Pattern)
    requires Adds(a, b, []) && !IsVisible(e) && !e.sync
    ensures Adds(a, Emit(b, e, accept), [])
  {
    EmitAdds(b, e, accept);
    AddsThen(a, b, Emit(b, e, accept), [], []);
  }

  lemma {:induction false} FlushAdds(h: Host, n: nat, accept: Pattern)
    requires n <= DPAD_COUNT
    ensures Adds(h, Flush(h, n, accept), [])
    decreases n
  {
    hide Emit, Visible, Bit, Bitwise, Pow2;
    if n == 0 {
      AddsNothing(h, h);
    } else {
      FlushAdds(h, n - 1, accept);
      var h1 := Flush(h, n - 1, accept);
      KeyThen(h, h1, Key(Dpad(n - 1), false, false), accept);
    }
  }

  lemma {:induction false} EdgesAdd(h: Host, buttons: nat, changed: nat, n: nat, accept: Pattern)
    ensures Adds(h, Edges(h, buttons, changed, n, accept).0, [])
    decreases n
  {
    hide Emit, Adds, Bit, Bitwise;
    if n == 0 {
      AddsNothing(h, h);
    } else {
      EdgesAdd(h, buttons, changed, n - 1, accept);
      KeyThen(h, Edges(h, buttons, changed, n - 1, accept).0, Key(Btn(n - 1), Bit(buttons, n - 1), false), accept);
    }
  }

  lemma TapAdds(h: Host, idx: nat, accept: Pattern)
    requires idx < DPAD_COUNT
    ensures Adds(h, Tap(h, idx, accept), [Key(Dpad(idx), true, false)])
  {
    hide Emit, Visible, Bitwise, Pow2;
    var press, release := Key(Dpad(idx), true, false), Key(Dpad(idx), false, false);
    var h1 := Emit(h, press, accept);
    EmitAdds(h, press, accept);
    EmitAdds(h1, release, accept);
    AddsThen(h, h1, Emit(h1, release, accept), [press], []);
    assert [press] + [] == [press];
  }

  lemma MotionAdds(h: Host, axis: RelAxis, v: int32, accept: Pattern)
    ensures Adds(h, Motion(h, axis, v, accept), IfMoved(axis, v))
  {
    hide Emit, Adds;
    AddsNothing(h, h);
    EmitAdds(h, Rel(axis, v, false), accept);
  }

  function HWheelOwed(v: int32, cfg: Config): seq<Event> {
    if cfg.hwheelAsKeys then TapOf(v, DPAD_LEFT, DPAD_RIGHT) else IfMoved(RelHWheel, v)
  }

  lemma HWheelAdds(h: Host, v: int32, cfg: Config, accept: Pattern)
    ensures Adds(h, PublishHWheel(h, v, cfg, accept), HWheelOwed(v, cfg))
  {
    hide Tap, Motion, Adds;
    AddsNothing(h, h);
    MotionAdds(h, RelHWheel, v, accept);
    TapAdds(h, DPAD_LEFT, accept);
    TapAdds(h, DPAD_RIGHT, accept);
  }

  lemma ButtonsAdd(h: Host, buttons: uint32, accept: Pattern)
    ensures Adds(h, PublishButtons(h, buttons, accept), [])
  {
    hide Edges, Visible, Merge, Bitwise;
    EdgesAdd(h, buttons, Bitwise(Xor, buttons, h.prev), PUBLISH_BTNS, accept);
  }

  /**
   * One report makes exactly the calls it owes, in order, and the sync flag is on its last
   * call and on no other.
   */
  lemma OneReportOneUpdate(h: Host, r: PointerReport, cfg: Config, accept: Pattern)
    ensures var t := Publish(h, r, cfg, accept);
            && |h.calls| < |t.calls| && h.calls <= t.calls
            && Visible(t.calls[|h.calls|..]) == Owed(r, cfg)
            && forall k :: |h.calls| <= k < |t.calls| ==> (t.calls[k].event.sync <==> k == |t.calls| - 1)
  {
    hide FlushIfKeyed, PublishButtons, Motion, PublishHWheel, Tap, Adds;
    var h1 := FlushIfKeyed(h, cfg, accept);
    FlushAddsIfKeyed(h, cfg, accept);
    var h2 := PublishButtons(h1, r.buttons, accept);
    ButtonsAdd(h1, r.buttons, accept);
    AddsThen(h, h1, h2, [], []);
    var h3 := Motion(h2, RelX, r.dx, accept);
    MotionAdds(h2, RelX, r.dx, accept);
    AddsThen(h, h2, h3, [], IfMoved(RelX, r.dx));
    var h4 := Motion(h3, RelY, r.dy, accept);
    MotionAdds(h3, RelY, r.dy, accept);
    AddsThen(h, h3, h4, [] + IfMoved(RelX, r.dx), IfMoved(RelY, r.dy));
    var h5 := PublishHWheel(h4, r.hwheel, cfg, accept);
    HWheelAdds(h4, r.hwheel, cfg, accept);
    var sofar := [] + IfMoved(RelX, r.dx) + IfMoved(RelY, r.dy);
    var hw := HWheelOwed(r.hwheel, cfg);
    AddsThen(h, h4, h5, sofar, hw);
    var h6 := if !cfg.wheelAsKeys then h5 else if r.wheel > 0 then Tap(h5, DPAD_UP, accept)
              else if r.wheel < 0 then Tap(h5, DPAD_DOWN, accept) else h5;
    AddsNothing(h5, h5);
    TapAdds(h5, DPAD_UP, accept);
    TapAdds(h5, DPAD_DOWN, accept);
    var taps := if cfg.wheelAsKeys then TapOf(r.wheel, DPAD_DOWN, DPAD_UP) else [];
    AddsThen(h, h5, h6, sofar + hw, taps);
    var last := Rel(RelWheel, if cfg.wheelAsKeys then 0 else r.wheel, true);
    assert Publish(h, r, cfg, accept) == Emit(h6, last, accept);
    Terminated(h, h6, sofar + hw + taps, last, accept);
    assert sofar + hw + taps + [last] == Owed(r, cfg);
  }

  /** The updates the listener sees: accepted events with the sync flag. */
  function Updates(calls: seq<Call>): nat {
    if |calls| == 0 then 0
    else Updates(calls[..|calls| - 1]) + (if calls[|calls| - 1].accepted && calls[|calls| - 1].event.sync then 1 else 0)
  }

  lemma {:induction false} NoUpdates(calls: seq<Call>)
    requires forall k :: 0 <= k < |calls| ==> !calls[k].event.sync
    ensures Updates(calls) == 0
    decreases |calls|
  {
    if |calls| > 0 { NoUpdates(calls[..|calls| - 1]); }
  }

  lemma UpdateIsLast(h: Host, t: Host)
    requires |h.calls| < |t.calls|
    requires forall k :: |h.calls| <= k < |t.calls| ==> (t.calls[k].event.sync <==> k == |t.calls| - 1)
    ensures Updates(t.calls[|h.calls|..]) == if t.calls[|t.calls| - 1].accepted then 1 else 0
  {
    var added := t.calls[|h.calls|..];
    NoUpdates(added[..|added| - 1]);
  }

  /** A report is one update for the listener exactly when its last call is accepted, and none otherwise; so is a reset with a button down. */
  lemma OneUpdateIffLastAccepted(h: Host, r: PointerReport, cfg: Config, accept: Pattern)
    ensures var t := Publish(h, r, cfg, accept);
            && |h.calls| < |t.calls| && Updates(t.calls[|h.calls|..]) == if t.calls[|t.calls| - 1].accepted then 1 else 0
    ensures LowButtons(h) && h.prev != 0 ==>
              var t := Reset(h, cfg, accept);
              && |h.calls| < |t.calls| && Updates(t.calls[|h.calls|..]) == if t.calls[|t.calls| - 1].accepted then 1 else 0
  {
    hide Publish, Reset, Updates, Visible, Owed;
    OneReportOneUpdate(h, r, cfg, accept);
    UpdateIsLast(h, Publish(h, r, cfg, accept));
    if LowButtons(h) && h.prev != 0 {
      ResetOneUpdate(h, cfg, accept);
      UpdateIsLast(h, Reset(h, cfg, accept));
    }
  }

  lemma FlushAddsIfKeyed(h: Host, cfg: Config, accept: Pattern)
    ensures Adds(h, FlushIfKeyed(h, cfg, accept), [])
  {
    hide Adds;
    AddsNothing(h, h);
    FlushAdds(h, DPAD_COUNT, accept);
  }

  lemma Terminated(h: Host, t: Host, rels: seq<Event>, last: Event, accept: Pattern)
    requires Adds(h, t, rels) && last.Rel? && last.sync
    ensures var u := Emit(t, last, accept);
            && |h.calls| < |u.calls| && h.calls <= u.calls
            && Visible(u.calls[|h.calls|..]) == rels + [last]
            && forall k :: |h.calls| <= k < |u.calls| ==> (u.calls[k].event.sync <==> k == |u.calls| - 1)
  {
    var c := Call(last, accept(|t.calls|));
    assert Emit(t, last, accept).calls[|h.calls|..] == t.calls[|h.calls|..] + [c];
    VisibleConcat(t.calls[|h.calls|..], [c]);
    VisibleOne(c);
  }

  lemma {:induction false} ReleasesSync(h: Host, held: nat, n: nat, accept: Pattern)
    requires n <= PUBLISH_BTNS && LastHeld(held, PUBLISH_BTNS) >= 0
    ensures var last := LastHeld(held, PUBLISH_BTNS); var t := Releases(h, held, last, n, accept);
            && h.calls <= t.calls && (n > last ==> |h.calls| < |t.calls|)
            && forall k :: |h.calls| <= k < |t.calls| ==> (t.calls[k].event.sync <==> n > last && k == |t.calls| - 1)
    decreases n
  {
    hide Bit;
    LastHeldBits(held, PUBLISH_BTNS);
    if n > 0 { ReleasesSync(h, held, n - 1, accept); }
  }

  /** A disconnect with a button down makes one update: the sync flag is on its last call and no other. */
  lemma ResetOneUpdate(h: Host, cfg: Config, accept: Pattern)
    requires LowButtons(h) && h.prev != 0
    ensures var t := Reset(h, cfg, accept);
            && |h.calls| < |t.calls| && h.calls <= t.calls
            && forall k :: |h.calls| <= k < |t.calls| ==> (t.calls[k].event.sync <==> k == |t.calls| - 1)
  {
    hide FlushIfKeyed, Releases, LastHeld, Visible, Bit;
    var h1 := FlushIfKeyed(h, cfg, accept);
    FlushHarmless(h, cfg, accept);
    FlushAddsIfKeyed(h, cfg, accept);
    LastHeldBits(h.prev, PUBLISH_BTNS);
    if LastHeld(h.prev, PUBLISH_BTNS) < 0 {
      Pow2Literals();
      forall i: nat ensures Bit(h.prev, i) == Bit(0, i) {
        BitOfZero(i);
        if i >= 8 { BitAbove(h.prev, 8, i); }
      }
      BitsExtensional(h.prev, 0);
    }
    ReleasesSync(h1, h.prev, PUBLISH_BTNS, accept);
    var t := Reset(h, cfg, accept);
    forall k | |h.calls| <= k < |h1.calls| ensures !t.calls[k].event.sync {
      assert t.calls[k] == h1.calls[k];
    }
  }
}

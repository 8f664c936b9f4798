/**
 * What publishing a report does, as functions on values: decoded pointer reports become input events
 * on a queue that may drop any of them. The drop pattern is an arbitrary function of the call number,
 * so every pattern is covered. `PublishDevice` refines these in place.
 */
module Publishing {
  import opened Bits
  import opened HidTypes

  const PUBLISH_BTNS := 8
  const DPAD_COUNT := 4
  const DPAD_LEFT := 0
  const DPAD_RIGHT := 1
  const DPAD_UP := 2
  const DPAD_DOWN := 3

  /** INPUT_BTN_0 + i, and the four DPAD codes a wheel tick can tap. */
  datatype Code = Btn(i: nat) | Dpad(idx: nat)

  datatype RelAxis = RelX | RelY | RelHWheel | RelWheel

  datatype Event =
    | Key(code: Code, down: bool, sync: bool)
    | Rel(axis: RelAxis, value: int32, sync: bool)

  /** One input_report_* call and whether the queue took it. */
  datatype Call = Call(event: Event, accepted: bool)

  datatype Config = Config(hwheelAsKeys: bool, wheelAsKeys: bool)

  /** `calls` is every call so far; call number k is accepted exactly when accept(k). */
  datatype Host = Host(prev: uint32, pending: byte, calls: seq<Call>)

  const IDLE := Host(0, 0, [])

  type Pattern = nat -> bool

  function Emit(h: Host, e: Event, accept: Pattern): Host {
    h.(calls := h.calls + [Call(e, accept(|h.calls|))])
  }

  predicate Takes(h: Host, accept: Pattern) { accept(|h.calls|) }

  function OrBit(m: nat, i: nat): nat { Bitwise(Or, m, Pow2(i)) }

  /** Press then release; a release lost after an accepted press is remembered. */
  function Tap(h: Host, idx: nat, accept: Pattern): Host
    requires idx < DPAD_COUNT
  {
    var h1 := Emit(h, Key(Dpad(idx), true, false), accept);
    if !Takes(h, accept) then h1
    else
      var h2 := Emit(h1, Key(Dpad(idx), false, false), accept);
      if Takes(h1, accept) then h2 else SetPending(h2, idx)
  }

  function SetPending(h: Host, idx: nat): Host
    requires idx < DPAD_COUNT
  {
    BelowByte(idx);
    BitwiseBound(Or, h.pending, Pow2(idx), 8);
    h.(pending := Bitwise(Or, h.pending, Pow2(idx)))
  }

  function ClearPending(h: Host, idx: nat): Host
    requires idx < DPAD_COUNT
  {
    BelowByte(idx);
    BitwiseBound(AndNot, h.pending, Pow2(idx), 8);
    h.(pending := Bitwise(AndNot, h.pending, Pow2(idx)))
  }

  lemma BelowByte(idx: nat)
    requires idx < 8
    ensures Pow2(idx) < Pow2(8) == 0x100
  {
    Pow2Mono(idx + 1, 8);
    Pow2Literals();
  }

  /** Retry the pending releases of DPAD codes 0..n. */
  function Flush(h: Host, n: nat, accept: Pattern): Host
    requires n <= DPAD_COUNT
  {
    if n == 0 then h
    else
      var h1 := Flush(h, n - 1, accept);
      if !Bit(h1.pending, n - 1) then h1
      else
        var h2 := Emit(h1, Key(Dpad(n - 1), false, false), accept);
        if Takes(h1, accept) then ClearPending(h2, n - 1) else h2
  }

  /** The changed buttons among 0..n, each reported once; returns the mask of accepted edges. */
  function Edges(h: Host, buttons: nat, changed: nat, n: nat, accept: Pattern): (Host, nat) {
    if n == 0 then (h, 0)
    else
      var (h1, applied) := Edges(h, buttons, changed, n - 1, accept);
      if !Bit(changed, n - 1) then (h1, applied)
      else (Emit(h1, Key(Btn(n - 1), Bit(buttons, n - 1), false), accept),
            if Takes(h1, accept) then OrBit(applied, n - 1) else applied)
  }

  /** (prev & ~applied) | (buttons & applied) */
  function Merge(prev: nat, buttons: nat, applied: nat): nat {
    Bitwise(Or, Bitwise(AndNot, prev, applied), Bitwise(And, buttons, applied))
  }

  function PublishButtons(h: Host, buttons: uint32, accept: Pattern): Host {
    var (h1, applied) := Edges(h, buttons, Bitwise(Xor, buttons, h.prev), PUBLISH_BTNS, accept);
    h1.(prev := U32(Merge(h.prev, buttons, applied)))
  }

  function Motion(h: Host, axis: RelAxis, value: int32, accept: Pattern): Host {
    if value != 0 then Emit(h, Rel(axis, value, false), accept) else h
  }

  function PublishHWheel(h: Host, v: int32, cfg: Config, accept: Pattern): Host {
    if !cfg.hwheelAsKeys then Motion(h, RelHWheel, v, accept)
    else if v < 0 then Tap(h, DPAD_LEFT, accept)
    else if v > 0 then Tap(h, DPAD_RIGHT, accept)
    else h
  }

  /** The wheel, then the terminator that carries the sync flag. */
  function PublishWheel(h: Host, v: int32, cfg: Config, accept: Pattern): Host {
    if !cfg.wheelAsKeys then Emit(h, Rel(RelWheel, v, true), accept)
    else
      var h1 := if v > 0 then Tap(h, DPAD_UP, accept) else if v < 0 then Tap(h, DPAD_DOWN, accept) else h;
      Emit(h1, Rel(RelWheel, 0, true), accept)
  }

  function FlushIfKeyed(h: Host, cfg: Config, accept: Pattern): Host {
    if cfg.hwheelAsKeys || cfg.wheelAsKeys then Flush(h, DPAD_COUNT, accept) else h
  }

  function Publish(h: Host, r: PointerReport, cfg: Config, accept: Pattern): Host {
    var h1 := PublishButtons(FlushIfKeyed(h, cfg, accept), r.buttons, accept);
    var h2 := Motion(Motion(h1, RelX, r.dx, accept), RelY, r.dy, accept);
    PublishWheel(PublishHWheel(h2, r.hwheel, cfg, accept), r.wheel, cfg, accept)
  }

  /** Index of the last button in `held` among 0..n, or -1. */
  function LastHeld(held: nat, n: nat): int {
    if n == 0 then -1 else if Bit(held, n - 1) then n - 1 else LastHeld(held, n - 1)
  }

  /** Release the held buttons among 0..n; the last one flushes. Return codes are ignored. */
  function Releases(h: Host, held: nat, last: int, n: nat, accept: Pattern): Host {
    if n == 0 then h
    else
      var h1 := Releases(h, held, last, n - 1, accept);
      if Bit(held, n - 1) then Emit(h1, Key(Btn(n - 1), false, n - 1 == last), accept) else h1
  }

  function Reset(h: Host, cfg: Config, accept: Pattern): Host {
    var h1 := FlushIfKeyed(h, cfg, accept);
    if h1.prev == 0 then h1
    else Releases(h1, h1.prev, LastHeld(h1.prev, PUBLISH_BTNS), PUBLISH_BTNS, accept).(prev := 0)
  }
}

/** The virtual input device as it runs, proved against `Publishing`. */
module PublishDevice {
  import opened Bits
  import opened HidTypes
  import opened Publishing

  /** The device's data, updated in place, on top of the queue. */
  class BleHidHost {
    var prevButtons: uint32
    var pendingDpadRelease: byte
    var calls: seq<Call>
    const cfg: Config
    const accept: Pattern

    ghost function GetHost(): Host
      reads this
    {
      Host(prevButtons, pendingDpadRelease, calls)
    }

    constructor (cfg: Config, accept: Pattern)
      ensures GetHost() == IDLE && this.cfg == cfg && this.accept == accept
    {
      prevButtons, pendingDpadRelease, calls := 0, 0, [];
      this.cfg, this.accept := cfg, accept;
    }

    /** input_report_key / input_report_rel with K_NO_WAIT: 0 when queued, -errno when dropped. */
    method InputReport(e: Event) returns (err: int)
      modifies this`calls
      ensures GetHost() == Emit(old(GetHost()), e, accept)
      ensures err == 0 <==> Takes(old(GetHost()), accept)
    {
      err := if accept(|calls|) then 0 else -35;
      calls := calls + [Call(e, accept(|calls|))];
    }

    method TapBtn(idx: nat)
      requires idx < DPAD_COUNT
      modifies this
      ensures GetHost() == Tap(old(GetHost()), idx, accept)
    {
      var press := InputReport(Key(Dpad(idx), true, false));
      if press != 0 {
        return;
      }
      var release := InputReport(Key(Dpad(idx), false, false));
      if release != 0 {
        BelowByte(idx);
        BitwiseBound(Or, pendingDpadRelease, Pow2(idx), 8);
        pendingDpadRelease := Bitwise(Or, pendingDpadRelease, Pow2(idx));
      }
    }

    method FlushPendingDpadReleases()
      modifies this
      ensures GetHost() == Flush(old(GetHost()), DPAD_COUNT, accept)
    {
      var idx := 0;
      while idx < DPAD_COUNT
        invariant 0 <= idx <= DPAD_COUNT
        invariant GetHost() == Flush(old(GetHost()), idx, accept)
      {
        if Bit(pendingDpadRelease, idx) {
          var err := InputReport(Key(Dpad(idx), false, false));
          if err == 0 {
            BelowByte(idx);
            BitwiseBound(AndNot, pendingDpadRelease, Pow2(idx), 8);
            pendingDpadRelease := Bitwise(AndNot, pendingDpadRelease, Pow2(idx));
          }
        }
        idx := idx + 1;
      }
    }

    method PublishEdges(buttons: uint32)
      modifies this
      ensures GetHost() == PublishButtons(old(GetHost()), buttons, accept)
    {
      var changed := Bitwise(Xor, buttons, prevButtons);
      var applied: nat := 0;
      var i := 0;
      while i < PUBLISH_BTNS
        invariant 0 <= i <= PUBLISH_BTNS
        invariant (GetHost(), applied) == Edges(old(GetHost()), buttons, changed, i, accept)
        invariant prevButtons == old(prevButtons)
      {
        if Bit(changed, i) {
          var err := InputReport(Key(Btn(i), Bit(buttons, i), false));
          if err == 0 {
            applied := Bitwise(Or, applied, Pow2(i));
          }
        }
        i := i + 1;
      }
      prevButtons := U32(Bitwise(Or, Bitwise(AndNot, prevButtons, applied), Bitwise(And, buttons, applied)));
    }

    method Publish(r: PointerReport)
      modifies this
      ensures GetHost() == Publishing.Publish(old(GetHost()), r, cfg, accept)
    {
      if cfg.hwheelAsKeys || cfg.wheelAsKeys {
        FlushPendingDpadReleases();
      }
      PublishEdges(r.buttons);
      if r.dx != 0 {
        var _ := InputReport(Rel(RelX, r.dx, false));
      }
      if r.dy != 0 {
        var _ := InputReport(Rel(RelY, r.dy, false));
      }
      if cfg.hwheelAsKeys {
        if r.hwheel < 0 {
          TapBtn(DPAD_LEFT);
        } else if r.hwheel > 0 {
          TapBtn(DPAD_RIGHT);
        }
      } else if r.hwheel != 0 {
        var _ := InputReport(Rel(RelHWheel, r.hwheel, false));
      }
      if cfg.wheelAsKeys {
        if r.wheel > 0 {
          TapBtn(DPAD_UP);
        } else if r.wheel < 0 {
          TapBtn(DPAD_DOWN);
        }
        var _ := InputReport(Rel(RelWheel, 0, true));
      } else {
        var _ := InputReport(Rel(RelWheel, r.wheel, true));
      }
    }

    method Reset()
      modifies this
      ensures GetHost() == Publishing.Reset(old(GetHost()), cfg, accept)
    {
      if cfg.hwheelAsKeys || cfg.wheelAsKeys {
        FlushPendingDpadReleases();
      }
      ghost var h1 := GetHost();
      var held := prevButtons;
      var last := -1;
      if held == 0 {
        return;
      }
      var i := 0;
      while i < PUBLISH_BTNS
        invariant 0 <= i <= PUBLISH_BTNS && GetHost() == h1
        invariant last == LastHeld(held, i)
      {
        if Bit(held, i) { last := i; }
        i := i + 1;
      }
      i := 0;
      while i < PUBLISH_BTNS
        invariant 0 <= i <= PUBLISH_BTNS
        invariant GetHost() == Releases(h1, held, last, i, accept)
      {
        if Bit(held, i) {
          var _ := InputReport(Key(Btn(i), false, i == last));
        }
        i := i + 1;
      }
      prevButtons := 0;
    }
  }
}

/**
 * Laws of the walk over any descriptor: the first application collection wins, Push/Pop is a
 * stack discipline, and Output and Feature items are invisible.
 */
module HidWalkLaws {
  import opened Bits
  import opened HidTypes
  import opened HidItems
  import opened HidWalk
  import opened HidApps

  // ------------------------------------------------- first collection wins

  /** An application that is open opened strictly inside the current depth. */
  predicate LevelsOk(s: State) {
    && CLOSED <= s.mouseLevel < s.depth + (if s.mouseLevel < 0 then 1 else 0)
    && CLOSED <= s.kbdLevel < s.depth + (if s.kbdLevel < 0 then 1 else 0)
  }

  lemma StepLevels(s: State, x: Item)
    requires LevelsOk(s) && |s.stack| <= GLOBAL_STACK_DEPTH
    ensures LevelsOk(Step(s, x)) && |Step(s, x).stack| <= GLOBAL_STACK_DEPTH
  {
    hide AssignInput, AssignKbdInput, LeNat, SignedItem;
  }

  lemma {:induction false} OpenLevelBelowDepth(xs: seq<Item>)
    ensures LevelsOk(Run(INIT, xs)) && |Run(INIT, xs).stack| <= GLOBAL_STACK_DEPTH
    decreases |xs|
  {
    hide Step;
    if |xs| > 0 {
      OpenLevelBelowDepth(xs[..|xs| - 1]);
      StepLevels(Run(INIT, xs[..|xs| - 1]), xs[|xs| - 1]);
    }
  }

  /** `o2` keeps every field `o1` has recorded, and its report id once that is settled. */
  predicate KeepsPointer(o1: PointerLayout, o2: PointerLayout) {
    && (forall a: Axis :: GetAxis(o1, a).bitSize != 0 ==> GetAxis(o2, a) == GetAxis(o1, a))
    && (o1.buttons.bitSize != 0 ==> o2.buttons == o1.buttons && o2.buttonCount == o1.buttonCount)
    && (o1.reportId != 0 || o1.buttons.bitSize != 0 || o1.x.bitSize != 0 || o1.y.bitSize != 0 ==> o2.reportId == o1.reportId)
  }

  predicate KeepsKeyboard(o1: KeyboardLayout, o2: KeyboardLayout) {
    && (o1.modifiers.bitSize != 0 ==> o2.modifiers == o1.modifiers)
    && (o1.keys.bitSize != 0 ==> o2.keys == o1.keys && o2.keyCount == o1.keyCount)
    && (o1.reportId != 0 || o1.modifiers.bitSize != 0 || o1.keys.bitSize != 0 ==> o2.reportId == o1.reportId)
  }

  lemma {:induction false} AssignSlotsKeeps(o: PointerLayout, g: Globals, l: Locals, start: uint32, n: nat)
    ensures KeepsPointer(o, AssignSlots(o, g, l, start, n))
    ensures var r := AssignSlots(o, g, l, start, n);
            r.reportId == o.reportId && r.buttons == o.buttons && r.buttonCount == o.buttonCount && r.valid == o.valid
    decreases n
  {
    if n > 0 {
      AssignSlotsKeeps(o, g, l, start, n - 1);
      var o1 := AssignSlots(o, g, l, start, n - 1);
      var o2 := AssignSlot(o1, g, l, start, n - 1);
      forall a: Axis | GetAxis(o, a).bitSize != 0 ensures GetAxis(o2, a) == GetAxis(o, a) {
        assert GetAxis(o1, a) == GetAxis(o, a);
      }
    }
  }

  lemma StepKeeps(s: State, x: Item)
    ensures KeepsPointer(s.ptr, Step(s, x).ptr) && KeepsKeyboard(s.kbd, Step(s, x).kbd)
    ensures s.mouseLevel == CLOSED ==> Step(s, x).mouseLevel == CLOSED && Step(s, x).ptr == s.ptr
    ensures s.kbdLevel == CLOSED ==> Step(s, x).kbdLevel == CLOSED && Step(s, x).kbd == s.kbd
  {
    hide LeNat, SignedItem, AssignInput, AssignKbdInput, KeepsPointer, KeepsKeyboard;
    AssignInputKeeps(s.ptr, s.g, s.l, s.cursor);
    KeepsItself(s.ptr, s.kbd);
    if |x.data| <= 4 {
      AssignKbdInputKeeps(s.kbd, s.g, s.l, s.cursor, UnsignedItem(x.data));
    }
  }

  lemma KeepsItself(o: PointerLayout, k: KeyboardLayout)
    ensures KeepsPointer(o, o) && KeepsKeyboard(k, k)
  {}

  lemma AssignInputKeeps(o: PointerLayout, g: Globals, l: Locals, start: uint32)
    ensures KeepsPointer(o, AssignInput(o, g, l, start))
  {
    hide AssignSlots, U32, U16;
    AssignSlotsKeeps(LockPointer(o, g), g, l, start, g.reportCount);
    assert KeepsPointer(o, LockPointer(o, g));
  }

  lemma AssignKbdInputKeeps(o: KeyboardLayout, g: Globals, l: Locals, start: uint32, flags: nat)
    ensures KeepsKeyboard(o, AssignKbdInput(o, g, l, start, flags))
  {
    hide UsagesAreModifiers, IsVariable, U32, U16;
  }

  /** No suffix changes a recorded field; after the application closes, nothing changes at all. */
  lemma {:induction false} RunKeeps(s: State, xs: seq<Item>)
    ensures KeepsPointer(s.ptr, Run(s, xs).ptr) && KeepsKeyboard(s.kbd, Run(s, xs).kbd)
    ensures s.mouseLevel == CLOSED ==> Run(s, xs).mouseLevel == CLOSED && Run(s, xs).ptr == s.ptr
    ensures s.kbdLevel == CLOSED ==> Run(s, xs).kbdLevel == CLOSED && Run(s, xs).kbd == s.kbd
    decreases |xs|
  {
    if |xs| > 0 {
      var t := Run(s, xs[..|xs| - 1]);
      RunKeeps(s, xs[..|xs| - 1]);
      StepKeeps(t, xs[|xs| - 1]);
      KeepsTransitive(s.ptr, t.ptr, Run(s, xs).ptr);
    }
  }

  lemma KeepsTransitive(o1: PointerLayout, o2: PointerLayout, o3: PointerLayout)
    requires KeepsPointer(o1, o2) && KeepsPointer(o2, o3)
    ensures KeepsPointer(o1, o3)
  {
    assert GetAxis(o1, X) == o1.x && GetAxis(o1, Y) == o1.y;
    forall a: Axis | GetAxis(o1, a).bitSize != 0 ensures GetAxis(o3, a) == GetAxis(o1, a) {
      assert GetAxis(o2, a) == GetAxis(o1, a);
    }
  }

  /** The walk over bytes is a homomorphism at item boundaries. */
  lemma WalkConcat(a: seq<byte>, c: seq<byte>)
    requires Complete(a)
    ensures Run(INIT, Items(a + c)) == Run(Run(INIT, Items(a)), Items(c))
  {
    ItemsConcat(a, c);
    RunConcat(INIT, Items(a), Items(c));
  }

  /**
   * Once the first mouse (keyboard) application has closed, that is, once the nesting is back at what it
   * was where the application opened, no bytes after it change the layout; they decide only whether the
   * whole descriptor ends with every collection closed.
   */
  lemma FirstMouseWins(a: seq<byte>, c: seq<byte>)
    requires Complete(a) && HasClosed(Items(a), MouseApp)
    ensures var l := ParsePointer(a);
            ParsePointer(a + c) == l.(valid := l.x.bitSize != 0 && l.y.bitSize != 0 && Nesting(Items(a + c)) == 0)
  {
    hide Run, Items, HasClosed, Nesting;
    LevelIff(Items(a), MouseApp);
    DepthIsNesting(Items(a + c));
    WalkConcat(a, c);
    RunKeeps(Run(INIT, Items(a)), Items(c));
  }

  lemma FirstKeyboardWins(a: seq<byte>, c: seq<byte>)
    requires Complete(a) && HasClosed(Items(a), KeyboardApp)
    ensures var l := ParseKeyboard(a);
            ParseKeyboard(a + c) == l.(valid := l.keys.bitSize != 0 && Nesting(Items(a + c)) == 0)
  {
    hide Run, Items, HasClosed, Nesting;
    LevelIff(Items(a), KeyboardApp);
    DepthIsNesting(Items(a + c));
    WalkConcat(a, c);
    RunKeeps(Run(INIT, Items(a)), Items(c));
  }

  /** Even while the application is open, what is recorded stays. */
  lemma RecordedFieldsStay(a: seq<byte>, c: seq<byte>)
    requires Complete(a)
    ensures KeepsPointer(ParsePointer(a), ParsePointer(a + c))
    ensures KeepsKeyboard(ParseKeyboard(a), ParseKeyboard(a + c))
  {
    WalkConcat(a, c);
    RunKeeps(Run(INIT, Items(a)), Items(c));
    KeepsIgnoresValid(Run(INIT, Items(a)).ptr, Run(INIT, Items(a + c)).ptr, ParsePointer(a).valid, ParsePointer(a + c).valid);
  }

  lemma KeepsIgnoresValid(o1: PointerLayout, o2: PointerLayout, v1: bool, v2: bool)
    requires KeepsPointer(o1, o2)
    ensures KeepsPointer(o1.(valid := v1), o2.(valid := v2))
  {
    forall ax: Axis | GetAxis(o1.(valid := v1), ax).bitSize != 0
      ensures GetAxis(o2.(valid := v2), ax) == GetAxis(o1.(valid := v1), ax)
    {
      assert GetAxis(o1, ax) == GetAxis(o2, ax);
    }
  }

  // ----------------------------------------------------- Push / Pop discipline

  predicate IsPush(x: Item) { x.kind == Global && x.tag == TAG_PUSH && |x.data| <= 4 }

  predicate IsPop(x: Item) { x.kind == Global && x.tag == TAG_POP && |x.data| <= 4 }

  /** Every Pop answers a Push of the segment, and at most `room` are ever open. */
  predicate Balanced(xs: seq<Item>, open: nat, room: nat)
    decreases |xs|
  {
    if |xs| == 0 then open == 0
    else if IsPush(xs[0]) then open < room && Balanced(xs[1..], open + 1, room)
    else if IsPop(xs[0]) then open > 0 && Balanced(xs[1..], open - 1, room)
    else Balanced(xs[1..], open, room)
  }

  lemma {:induction false} BalancedKeepsBase(s: State, xs: seq<Item>, base: seq<Globals>, open: nat, room: nat)
    requires |s.stack| == |base| + open && s.stack[..|base|] == base
    requires |base| + room <= GLOBAL_STACK_DEPTH && Balanced(xs, open, room)
    ensures Run(s, xs).stack == base
    decreases |xs|
  {
    if |xs| > 0 {
      var t := Step(s, xs[0]);
      assert xs == [xs[0]] + xs[1..];
      RunCons(s, xs[0], xs[1..]);
      var open' := if IsPush(xs[0]) then open + 1 else if IsPop(xs[0]) then open - 1 else open;
      assert t.stack[..|base|] == base;
      BalancedKeepsBase(t, xs[1..], base, open', room);
    }
  }

  /** Push; segment; Pop, seen as one list. */
  function Framed(push: Item, xs: seq<Item>, pop: Item): seq<Item> { [push] + xs + [pop] }

  lemma RunFramed(s: State, push: Item, xs: seq<Item>, pop: Item)
    ensures Run(s, Framed(push, xs, pop)) == Step(Run(Step(s, push), xs), pop)
  {
    RunConcat(s, [push] + xs, [pop]);
    RunCons(s, push, xs);
    RunOne(Run(s, [push] + xs), pop);
  }

  /** A segment that fits the free slots, run between a Push and its Pop, restores all five globals. */
  lemma PushPopRestores(s: State, push: Item, xs: seq<Item>, pop: Item)
    requires IsPush(push) && IsPop(pop) && |s.stack| < GLOBAL_STACK_DEPTH
    requires Balanced(xs, 0, GLOBAL_STACK_DEPTH - |s.stack| - 1)
    ensures Run(s, Framed(push, xs, pop)).g == s.g
    ensures Run(s, Framed(push, xs, pop)).stack == s.stack
  {
    hide Run;
    RunFramed(s, push, xs, pop);
    BalancedKeepsBase(Step(s, push), xs, s.stack + [s.g], 0, GLOBAL_STACK_DEPTH - |s.stack| - 1);
  }

  /** Once a Push has been dropped, the stack stays below the nesting until the end. */
  lemma {:induction false} DroppedPushIsMissed(s: State, xs: seq<Item>, d: nat, open: nat, room: nat)
    requires 1 <= d && Balanced(xs, open, room)
    requires |s.stack| < d + open
    ensures |Run(s, xs).stack| < d
    decreases |xs|
  {
    if |xs| > 0 {
      assert xs == [xs[0]] + xs[1..];
      RunCons(s, xs[0], xs[1..]);
      var open' := if IsPush(xs[0]) then open + 1 else if IsPop(xs[0]) then open - 1 else open;
      DroppedPushIsMissed(Step(s, xs[0]), xs[1..], d, open', room);
    }
  }

  lemma {:induction false} OverflowDrops(s: State, xs: seq<Item>, d: nat, open: nat, room: nat, wide: nat)
    requires 1 <= d && |s.stack| == d + open && d + room == GLOBAL_STACK_DEPTH
    requires Balanced(xs, open, wide) && !Balanced(xs, open, room)
    ensures |Run(s, xs).stack| < d
    decreases |xs|
  {
    assert xs == [xs[0]] + xs[1..];
    RunCons(s, xs[0], xs[1..]);
    var t := Step(s, xs[0]);
    if IsPush(xs[0]) && open >= room {
      DroppedPushIsMissed(t, xs[1..], d, open + 1, wide);
    } else {
      var open' := if IsPush(xs[0]) then open + 1 else if IsPop(xs[0]) then open - 1 else open;
      OverflowDrops(t, xs[1..], d, open', room, wide);
    }
  }

  /** The Push and a matched segment nested inside it find room in the eight slots. */
  predicate Fits(s: State, xs: seq<Item>) {
    |s.stack| < GLOBAL_STACK_DEPTH && Balanced(xs, 0, GLOBAL_STACK_DEPTH - |s.stack| - 1)
  }

  /**
   * Exactly when a matched segment of any nesting is restored: the closing Pop finds what its Push
   * saved on top if and only if the nesting fits. If it does, the five globals and the stack are as
   * before; if it does not, a stack that held an entry has lost one, and on a stack that was empty the
   * Pop is ignored, so that the segment's own globals stay in force.
   */
  lemma PushPopRestoresIff(s: State, push: Item, xs: seq<Item>, pop: Item, wide: nat)
    requires IsPush(push) && IsPop(pop) && |s.stack| <= GLOBAL_STACK_DEPTH
    requires Balanced(xs, 0, wide)
    ensures Run(Step(s, push), xs).stack == s.stack + [s.g] <==> Fits(s, xs)
    ensures Fits(s, xs) ==> Run(s, Framed(push, xs, pop)).g == s.g && Run(s, Framed(push, xs, pop)).stack == s.stack
    ensures !Fits(s, xs) && s.stack != [] ==> Run(s, Framed(push, xs, pop)).stack != s.stack
    ensures !Fits(s, xs) && s.stack == [] ==> Run(s, Framed(push, xs, pop)).g == Run(Step(s, push), xs).g
  {
    hide Run, Step, Balanced, IsPush, IsPop, Framed, Fits;
    RunFramed(s, push, xs, pop);
    PopStep(Run(Step(s, push), xs), pop);
    if Fits(s, xs) {
      FittingKeepsEntry(s, push, xs);
    } else {
      NestingLosesEntry(s, push, xs, wide);
    }
  }

  lemma PushStep(s: State, push: Item)
    requires IsPush(push)
    ensures Step(s, push).stack == if |s.stack| < GLOBAL_STACK_DEPTH then s.stack + [s.g] else s.stack
  {
    hide LeNat;
  }

  lemma PopStep(s: State, pop: Item)
    requires IsPop(pop)
    ensures s.stack == [] ==> Step(s, pop) == s
    ensures s.stack != [] ==> Step(s, pop).g == s.stack[|s.stack| - 1] && Step(s, pop).stack == s.stack[..|s.stack| - 1]
  {
    hide LeNat;
  }

  lemma FittingKeepsEntry(s: State, push: Item, xs: seq<Item>)
    requires IsPush(push) && Fits(s, xs)
    ensures Run(Step(s, push), xs).stack == s.stack + [s.g]
  {
    hide Run, Step, Balanced, IsPush;
    PushStep(s, push);
    BalancedKeepsBase(Step(s, push), xs, s.stack + [s.g], 0, GLOBAL_STACK_DEPTH - |s.stack| - 1);
  }

  /** A nesting that does not fit loses the frame's own entry before the closing Pop. */
  lemma NestingLosesEntry(s: State, push: Item, xs: seq<Item>, wide: nat)
    requires IsPush(push) && |s.stack| <= GLOBAL_STACK_DEPTH && Balanced(xs, 0, wide) && !Fits(s, xs)
    ensures |Run(Step(s, push), xs).stack| <= |s.stack|
  {
    hide Run, Step, Balanced, IsPush;
    PushStep(s, push);
    if |s.stack| == GLOBAL_STACK_DEPTH {
      DroppedPushIsMissed(Step(s, push), xs, |s.stack| + 1, 0, wide);
    } else {
      OverflowDrops(Step(s, push), xs, |s.stack| + 1, 0, GLOBAL_STACK_DEPTH - |s.stack| - 1, wide);
    }
  }

  // ------------------------------------------- Output and Feature are invisible

  predicate IsOutputOrFeature(x: Item) {
    x.kind == Main && x.tag in {TAG_OUTPUT, TAG_FEATURE} && |x.data| <= 4
  }

  predicate NoMain(xs: seq<Item>) { forall k :: 0 <= k < |xs| ==> xs[k].kind != Main }

  function DropLocals(xs: seq<Item>): seq<Item> {
    if |xs| == 0 then []
    else DropLocals(xs[..|xs| - 1]) + (if xs[|xs| - 1].kind == Local then [] else [xs[|xs| - 1]])
  }

  /** Delete each Output or Feature item with the local items since the main item before it. */
  function Strip(pending: seq<Item>, xs: seq<Item>): seq<Item>
    decreases |xs|
  {
    if |xs| == 0 then pending
    else if IsOutputOrFeature(xs[0]) then DropLocals(pending) + Strip([], xs[1..])
    else if xs[0].kind == Main then pending + [xs[0]] + Strip([], xs[1..])
    else Strip(pending + [xs[0]], xs[1..])
  }

  lemma LocalsDoNotMatter(t: State, l: Locals, x: Item)
    requires x.kind != Main
    ensures x.kind == Local ==> Step(t, x).(l := l) == t.(l := l)
    ensures x.kind != Local ==> Step(t.(l := l), x) == Step(t, x).(l := l)
  {}

  lemma {:induction false} DropLocalsSame(s: State, xs: seq<Item>)
    requires NoMain(xs)
    ensures Run(s, DropLocals(xs)) == Run(s, xs).(l := s.l)
    decreases |xs|
  {
    if |xs| > 0 {
      var init, x := xs[..|xs| - 1], xs[|xs| - 1];
      DropLocalsSame(s, init);
      LocalsDoNotMatter(Run(s, init), s.l, x);
      if x.kind == Local {
        assert DropLocals(xs) == DropLocals(init);
      } else {
        RunSnoc(s, DropLocals(init), x);
      }
    }
  }

  predicate CleanMains(xs: seq<Item>) { forall k :: 0 <= k < |xs| ==> |xs[k].data| <= 4 }

  /** The walk cannot tell a descriptor from its stripped form: every component of the state agrees. */
  lemma {:induction false} StripSame(s: State, pending: seq<Item>, xs: seq<Item>)
    requires s.l == NO_LOCALS && NoMain(pending) && CleanMains(xs)
    ensures Run(s, Strip(pending, xs)) == Run(s, pending + xs)
    decreases |xs|
  {
    if |xs| == 0 {
      assert pending + xs == pending;
    } else {
      var x, rest := xs[0], xs[1..];
      assert pending + xs == (pending + [x]) + rest;
      RunConcat(s, pending + [x], rest);
      RunSnoc(s, pending, x);
      var t := Run(s, pending + [x]);
      if x.kind == Main {
        assert t.l == NO_LOCALS;
        StripSame(t, [], rest);
        assert [] + rest == rest;
        if IsOutputOrFeature(x) {
          DropLocalsSame(s, pending);
          RunConcat(s, DropLocals(pending), Strip([], rest));
        } else {
          RunConcat(s, pending + [x], Strip([], rest));
        }
      } else {
        StripSame(s, pending + [x], rest);
      }
    }
  }

  lemma {:induction false} DropLocalsEncodable(xs: seq<Item>)
    requires AllEncodable(xs)
    ensures AllEncodable(DropLocals(xs))
    decreases |xs|
  {
    if |xs| > 0 { DropLocalsEncodable(xs[..|xs| - 1]); }
  }

  lemma {:induction false} StripEncodable(pending: seq<Item>, xs: seq<Item>)
    requires AllEncodable(pending)
    requires AllEncodable(xs)
    ensures AllEncodable(Strip(pending, xs))
    decreases |xs|
  {
    if |xs| > 0 {
      if xs[0].kind == Main {
        DropLocalsEncodable(pending);
        StripEncodable([], xs[1..]);
      } else {
        StripEncodable(pending + [xs[0]], xs[1..]);
      }
    }
  }

  /** The descriptor printed without its Output and Feature items. */
  function Stripped(bytes: seq<byte>): seq<byte> {
    ItemsBound(bytes);
    StripEncodable([], Items(bytes));
    Print(Strip([], Items(bytes)))
  }

  /** Both layouts, with their validity, are those of the stripped descriptor. */
  lemma OutputAndFeatureInvisible(bytes: seq<byte>)
    ensures ParsePointer(Stripped(bytes)) == ParsePointer(bytes)
    ensures ParseKeyboard(Stripped(bytes)) == ParseKeyboard(bytes)
  {
    hide Run, Items, Strip, Print;
    ItemsBound(bytes);
    StripEncodable([], Items(bytes));
    ItemsOfPrint(Strip([], Items(bytes)));
    StripSame(INIT, [], Items(bytes));
    assert [] + Items(bytes) == Items(bytes);
  }
}

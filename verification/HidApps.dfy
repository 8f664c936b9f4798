/** When an application collection is open, read off the items: where it opens, and how collections nest after that. */
module HidApps {
  import opened Bits
  import opened HidItems
  import opened HidWalk

  /** The two applications a descriptor is searched for. */
  datatype App = MouseApp | KeyboardApp

  function UsageOf(a: App): nat { if a.MouseApp? then USAGE_MOUSE else USAGE_KEYBOARD }

  function LevelOf(s: State, a: App): int { if a.MouseApp? then s.mouseLevel else s.kbdLevel }

  predicate IsMain(x: Item, tag: byte) { x.kind == Main && x.tag == tag && |x.data| <= 4 }

  /** How many collections are open after the items; an End Collection with none open is ignored. */
  function Nesting(xs: seq<Item>): nat
    decreases |xs|
  {
    if |xs| == 0 then 0
    else
      var n, x := Nesting(xs[..|xs| - 1]), xs[|xs| - 1];
      if IsMain(x, TAG_COLLECTION) then n + 1
      else if IsMain(x, TAG_END_COLLECTION) && n > 0 then n - 1
      else n
  }

  /** Item k is a Collection (Application) whose last usage names the application on the Generic Desktop page. */
  predicate Opens(xs: seq<Item>, k: nat, a: App) {
    && k < |xs| && IsMain(xs[k], TAG_COLLECTION) && LeNat(xs[k].data) == 0x01
    && var usages := Run(INIT, xs[..k]).l.usages;
    && |usages| > 0 && usages[|usages| - 1] == 0x1_0000 + UsageOf(a)
  }

  /** The first collection that opens the application; later ones count for nothing. */
  ghost predicate OpensFirst(xs: seq<Item>, k: nat, a: App) {
    Opens(xs, k, a) && forall j: nat :: j < k ==> !Opens(xs, j, a)
  }

  /** Since item k the nesting has stayed above what it was before it. */
  ghost predicate StaysInside(xs: seq<Item>, k: nat)
    requires k < |xs|
  {
    forall j: nat :: k < j <= |xs| ==> Nesting(xs[..j]) > Nesting(xs[..k])
  }

  ghost predicate IsOpen(xs: seq<Item>, a: App) { exists k: nat :: OpensFirst(xs, k, a) && StaysInside(xs, k) }

  ghost predicate HasClosed(xs: seq<Item>, a: App) { exists k: nat :: OpensFirst(xs, k, a) && !StaysInside(xs, k) }

  ghost predicate NeverSeen(xs: seq<Item>, a: App) { forall k: nat :: !Opens(xs, k, a) }

  lemma {:induction false} DepthIsNesting(xs: seq<Item>)
    ensures Run(INIT, xs).depth == Nesting(xs)
    decreases |xs|
  {
    hide Step;
    if |xs| > 0 {
      DepthIsNesting(xs[..|xs| - 1]);
      StepDepth(Run(INIT, xs[..|xs| - 1]), xs[|xs| - 1]);
    }
  }

  lemma StepDepth(s: State, x: Item)
    ensures Step(s, x).depth == if IsMain(x, TAG_COLLECTION) then s.depth + 1
                                else if IsMain(x, TAG_END_COLLECTION) && s.depth > 0 then s.depth - 1
                                else s.depth
  {
    hide LeNat, SignedItem, AssignInput, AssignKbdInput;
  }

  /** The item opens an application not seen before. */
  predicate OpensHere(s: State, x: Item, a: App) {
    && IsMain(x, TAG_COLLECTION) && LeNat(x.data) == 0x01
    && |s.l.usages| > 0 && s.l.usages[|s.l.usages| - 1] == 0x1_0000 + UsageOf(a)
  }

  /** A level appears where the application opens, and closes with the End Collection that leaves it. */
  lemma StepLevelOf(s: State, x: Item, a: App)
    requires LevelOf(s, a) >= CLOSED
    ensures LevelOf(Step(s, x), a)
            == if LevelOf(s, a) == NOT_SEEN then (if OpensHere(s, x, a) then s.depth else NOT_SEEN)
               else if LevelOf(s, a) >= 0 && IsMain(x, TAG_END_COLLECTION) && Step(s, x).depth <= LevelOf(s, a) then CLOSED
               else LevelOf(s, a)
  {
    hide LeNat, SignedItem, AssignInput, AssignKbdInput;
    if |s.l.usages| > 0 { WholeUsage(s.l.usages[|s.l.usages| - 1], a); }
  }

  lemma WholeUsage(u: uint32, a: App)
    ensures UsagePage(u) == PAGE_GENERIC_DESKTOP && UsageId(u) == UsageOf(a) <==> u == 0x1_0000 + UsageOf(a)
  {}

  /** What the level of an application is, read off the items. */
  ghost predicate LevelIs(xs: seq<Item>, a: App, level: int) {
    if level == NOT_SEEN then NeverSeen(xs, a)
    else exists k: nat :: OpensFirst(xs, k, a) && level == if StaysInside(xs, k) then Nesting(xs[..k]) else CLOSED
  }

  lemma OpensPrefix(xs: seq<Item>, n: nat, k: nat, a: App)
    requires k < n <= |xs|
    ensures Opens(xs[..n], k, a) == Opens(xs, k, a)
    ensures StaysInside(xs[..n], k) <==> forall j: nat :: k < j <= n ==> Nesting(xs[..j]) > Nesting(xs[..k])
  {
    assert xs[..n][..k] == xs[..k];
    assert forall j: nat :: j <= n ==> xs[..n][..j] == xs[..j];
  }

  lemma OpensFirstPrefix(xs: seq<Item>, n: nat, k: nat, a: App)
    requires k < n <= |xs|
    ensures OpensFirst(xs[..n], k, a) == OpensFirst(xs, k, a)
  {
    hide Opens;
    OpensPrefix(xs, n, k, a);
    forall j: nat | j < k ensures Opens(xs[..n], j, a) == Opens(xs, j, a) { OpensPrefix(xs, n, j, a); }
  }

  /** Nesting falls only at an End Collection. */
  lemma NestingFalls(xs: seq<Item>)
    requires |xs| > 0 && Nesting(xs) < Nesting(xs[..|xs| - 1])
    ensures IsMain(xs[|xs| - 1], TAG_END_COLLECTION)
  {}

  lemma {:induction false} LevelFollowsItems(xs: seq<Item>, a: App)
    ensures LevelIs(xs, a, LevelOf(Run(INIT, xs), a)) && LevelOf(Run(INIT, xs), a) >= CLOSED
    decreases |xs|
  {
    hide Step, Opens, IsMain;
    if |xs| == 0 {
      NothingOpens(a);
    } else {
      var n := |xs| - 1;
      var init, x := xs[..n], xs[n];
      var s := Run(INIT, init);
      LevelFollowsItems(init, a);
      StepLevelOf(s, x, a);
      DepthIsNesting(init);
      DepthIsNesting(xs);
      assert xs[..|xs|] == xs;
      forall k: nat | k < n ensures Opens(init, k, a) == Opens(xs, k, a) && OpensFirst(init, k, a) == OpensFirst(xs, k, a) {
        OpensPrefix(xs, n, k, a);
        OpensFirstPrefix(xs, n, k, a);
      }
      OnlyWithin(init, a);
      OnlyWithin(xs, a);
      if LevelOf(s, a) == NOT_SEEN {
        LevelAppears(xs, a);
      } else {
        var k: nat :| OpensFirst(init, k, a) && LevelOf(s, a) == if StaysInside(init, k) then Nesting(init[..k]) else CLOSED;
        LevelStays(xs, k, a);
      }
    }
  }

  lemma NothingOpens(a: App)
    ensures NeverSeen([], a)
  {}

  lemma OnlyWithin(xs: seq<Item>, a: App)
    ensures forall k: nat :: Opens(xs, k, a) ==> k < |xs|
  {}

  /** The last item opens the application, or it stays unseen. */
  lemma LevelAppears(xs: seq<Item>, a: App)
    requires |xs| > 0 && NeverSeen(xs[..|xs| - 1], a)
    ensures var s, x := Run(INIT, xs[..|xs| - 1]), xs[|xs| - 1];
            if OpensHere(s, x, a) then LevelIs(xs, a, Nesting(xs[..|xs| - 1])) else NeverSeen(xs, a)
  {
    hide Run, IsMain;
    var n := |xs| - 1;
    forall k: nat | k < n ensures !Opens(xs, k, a) { OpensPrefix(xs, n, k, a); }
    OnlyWithin(xs, a);
    assert Opens(xs, n, a) <==> OpensHere(Run(INIT, xs[..n]), xs[n], a);
    if Opens(xs, n, a) {
      assert OpensFirst(xs, n, a);
      NestingRises(xs);
      assert xs[..|xs|] == xs;
      assert StaysInside(xs, n);
    }
  }

  lemma NestingRises(xs: seq<Item>)
    requires |xs| > 0 && IsMain(xs[|xs| - 1], TAG_COLLECTION)
    ensures Nesting(xs) == Nesting(xs[..|xs| - 1]) + 1
  {}

  /** An open application stays open until the nesting comes back to where it opened; a closed one stays closed. */
  lemma LevelStays(xs: seq<Item>, k: nat, a: App)
    requires |xs| > 0 && k < |xs| - 1 && OpensFirst(xs, k, a)
    ensures var open := StaysInside(xs[..|xs| - 1], k);
            StaysInside(xs, k) <==> open && Nesting(xs) > Nesting(xs[..k])
    ensures StaysInside(xs[..|xs| - 1], k) ==> Nesting(xs[..|xs| - 1]) > Nesting(xs[..k])
    ensures Nesting(xs) <= Nesting(xs[..k]) < Nesting(xs[..|xs| - 1]) ==> IsMain(xs[|xs| - 1], TAG_END_COLLECTION)
    ensures xs[..|xs| - 1][..k] == xs[..k]
  {
    hide Opens, IsMain, Nesting;
    var n := |xs| - 1;
    OpensPrefix(xs, n, k, a);
    assert xs[..n][..n] == xs[..n] && xs[..|xs|] == xs;
    if Nesting(xs) < Nesting(xs[..n]) { NestingFalls(xs); }
  }

  /**
   * When an application is open, closed or not seen, from the items alone: it is open exactly when some
   * collection opens it and, after the first that does, the nesting has stayed above what it was before; it
   * is closed for good exactly when the nesting has come back to that; and its level is that nesting.
   */
  lemma LevelIff(xs: seq<Item>, a: App)
    ensures LevelOf(Run(INIT, xs), a) >= 0 <==> IsOpen(xs, a)
    ensures LevelOf(Run(INIT, xs), a) == CLOSED <==> HasClosed(xs, a)
    ensures LevelOf(Run(INIT, xs), a) == NOT_SEEN <==> NeverSeen(xs, a)
    ensures forall k: nat :: OpensFirst(xs, k, a) && StaysInside(xs, k) ==> LevelOf(Run(INIT, xs), a) == Nesting(xs[..k])
  {
    hide Run, Opens, Nesting;
    LevelFollowsItems(xs, a);
    assert forall k: nat, j: nat :: OpensFirst(xs, k, a) && OpensFirst(xs, j, a) ==> k == j;
    OnlyWithin(xs, a);
  }
}

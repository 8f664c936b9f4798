/** Whose descriptors a report is wired with: what the descriptor windows keep apart, and what they do not. */
module HogTags {
  import opened Bits
  import opened HogSteps
  import opened HogWorld
  import opened HogLaws
  import opened HogDiscovery

  /**
   * The order GATT prescribes: handles ascend, a characteristic's value follows its declaration and
   * comes before the next attribute, and no service ends between a characteristic and its descriptors.
   */
  predicate WellFormed(p: Peer) {
    && ValidPeer(p)
    && (forall k :: 0 <= k < |p.attrs| && p.attrs[k].Chrc? ==>
          && p.attrs[k].handle < p.attrs[k].valueHandle
          && (k + 1 < |p.attrs| ==> p.attrs[k].valueHandle < p.attrs[k + 1].handle))
    && (forall s, k :: 0 <= s < |p.attrs| && p.attrs[s].Service? && 0 < k < |p.attrs| && p.attrs[k].Desc? ==>
          (p.attrs[k - 1].handle <= p.attrs[s].endHandle ==> p.attrs[k].handle <= p.attrs[s].endHandle))
  }

  // ------------------------------------------- a report's own descriptors, and the rest

  /** Where in the table the notifiable reports are declared, among the first n attributes. */
  function Declarations(p: Peer, n: nat, hi: uint16): seq<nat>
    requires n <= |p.attrs|
  {
    if n == 0 then []
    else Declarations(p, n - 1, hi) + (if IsReport(p.attrs[n - 1], hi) && p.attrs[n - 1].notify then [n - 1] else [])
  }

  lemma {:induction false} DeclarationsNotify(p: Peer, n: nat, hi: uint16)
    requires n <= |p.attrs|
    ensures var ds := Declarations(p, n, hi);
            && |ds| == |Notifying(p, n, hi)|
            && (forall i :: 0 <= i < |ds| ==> ds[i] < n && IsReport(p.attrs[ds[i]], hi) && p.attrs[ds[i]].valueHandle == Notifying(p, n, hi)[i])
            && (forall i, j :: 0 <= i < j < |ds| ==> ds[i] < ds[j])
    decreases n
  {
    if n > 0 { DeclarationsNotify(p, n - 1, hi); }
  }

  /** The place of report i's declaration in the table. */
  function DeclarationOf(p: Peer, f: Faults, i: nat): (d: nat)
    requires HasHids(p) && i < |Reports(p, f)|
    ensures d < |p.attrs| && IsReport(p.attrs[d], HidsEnd(p)) && p.attrs[d].valueHandle == Reports(p, f)[i]
  {
    DeclarationsNotify(p, Seen(p, f), HidsEnd(p));
    Declarations(p, Seen(p, f), HidsEnd(p))[i]
  }

  lemma DeclarationsAscend(p: Peer, f: Faults, i: nat, j: nat)
    requires HasHids(p) && i < j < |Reports(p, f)|
    ensures DeclarationOf(p, f, i) < DeclarationOf(p, f, j)
  {
    hide Notifying, HidsIndex;
    DeclarationsNotify(p, Seen(p, f), HidsEnd(p));
  }

  /** The first descriptor with this UUID among the descriptors that start at index k, up to the next declaration. */
  function OwnFrom(attrs: seq<Attr>, k: nat, uuid: uint16): Option<Attr>
    requires k <= |attrs|
    decreases |attrs| - k
  {
    if k == |attrs| || !attrs[k].Desc? then None
    else if attrs[k].uuid == uuid then Some(attrs[k])
    else OwnFrom(attrs, k + 1, uuid)
  }

  /** Where the descriptors that start at index k end: at the next declaration. */
  function OwnEnd(attrs: seq<Attr>, k: nat): (n: nat)
    requires k <= |attrs|
    ensures k <= n <= |attrs| && (n < |attrs| ==> !attrs[n].Desc?)
    ensures forall j :: k <= j < n ==> attrs[j].Desc?
    decreases |attrs| - k
  {
    if k == |attrs| || !attrs[k].Desc? then k else OwnEnd(attrs, k + 1)
  }

  /** The first descriptor with this UUID and a handle up to hi, from index `from` to before index `end`. */
  function FirstDesc(attrs: seq<Attr>, from: nat, end: nat, uuid: uint16, hi: uint16): Option<Attr>
    requires end <= |attrs|
    decreases end - from
  {
    if from >= end then None
    else if attrs[from].Desc? && attrs[from].uuid == uuid && attrs[from].handle <= hi then Some(attrs[from])
    else FirstDesc(attrs, from + 1, end, uuid, hi)
  }

  /** Report i's own descriptor with this UUID: among those that directly follow its declaration. */
  function Own(p: Peer, f: Faults, uuid: uint16, i: nat): Option<Attr>
    requires HasHids(p) && i < |Reports(p, f)|
  {
    OwnFrom(p.attrs, DeclarationOf(p, f, i) + 1, uuid)
  }

  /** Where the rest of report i's window ends: at the next report that notifies. */
  function RestEnd(p: Peer, f: Faults, i: nat): (n: nat)
    requires HasHids(p) && i < |Reports(p, f)|
    ensures n <= |p.attrs|
  {
    if i + 1 < |Reports(p, f)| then DeclarationOf(p, f, i + 1) else |p.attrs|
  }

  /** The start of a window behind a value at the last handle wraps to the start of the table. */
  function SpanStart(p: Peer, f: Faults, i: nat): nat
    requires HasHids(p) && i < |Reports(p, f)|
  {
    if Reports(p, f)[i] == LAST_HANDLE then 0 else DeclarationOf(p, f, i) + 1
  }

  /** The first one behind report i's own descriptors that its window still reaches: it belongs to another characteristic. */
  function Behind(p: Peer, f: Faults, uuid: uint16, i: nat): Option<Attr>
    requires HasHids(p) && i < |Reports(p, f)|
  {
    var from := if Reports(p, f)[i] == LAST_HANDLE then 0 else OwnEnd(p.attrs, DeclarationOf(p, f, i) + 1);
    FirstDesc(p.attrs, from, RestEnd(p, f, i), uuid, HidsEnd(p))
  }

  /** The handle window of report i is a span of the table. */
  lemma WindowIsSpan(p: Peer, f: Faults, i: nat, k: nat)
    requires WellFormed(p) && HasHids(p) && i < |Reports(p, f)| && k < |p.attrs| && p.attrs[k].Desc?
    ensures WindowLo(Reports(p, f), i) <= p.attrs[k].handle <= WindowHi(Reports(p, f), i, HidsEnd(p))
            <==> SpanStart(p, f, i) <= k < RestEnd(p, f, i) && p.attrs[k].handle <= HidsEnd(p)
  {
    hide Reports, HidsEnd, HasHids, DeclarationOf;
    var d := DeclarationOf(p, f, i);
    assert p.attrs[d].Chrc? && k != d;
    AfterValue(p, d, k);
    if i + 1 < |Reports(p, f)| {
      DeclarationsAscend(p, f, i, i + 1);
      var e := DeclarationOf(p, f, i + 1);
      assert p.attrs[e].Chrc? && k != e;
      AfterValue(p, e, k);
    }
  }

  /** What follows a characteristic in the table has handles above its value; what precedes it, below its declaration. */
  lemma AfterValue(p: Peer, d: nat, k: nat)
    requires WellFormed(p) && d < |p.attrs| && p.attrs[d].Chrc? && k < |p.attrs| && k != d
    ensures k > d ==> p.attrs[k].handle > p.attrs[d].valueHandle
    ensures k < d ==> p.attrs[k].handle < p.attrs[d].handle < p.attrs[d].valueHandle
  {
    if k > d + 1 { assert p.attrs[d + 1].handle < p.attrs[k].handle; }
  }

  lemma {:induction false} FirstDescIs(attrs: seq<Attr>, from: nat, end: nat, uuid: uint16, hi: uint16, j: nat)
    requires from <= j <= end <= |attrs|
    requires forall k :: from <= k < j ==> !(attrs[k].Desc? && attrs[k].uuid == uuid && attrs[k].handle <= hi)
    requires j < end ==> attrs[j].Desc? && attrs[j].uuid == uuid && attrs[j].handle <= hi
    ensures FirstDesc(attrs, from, end, uuid, hi) == if j < end then Some(attrs[j]) else None
    decreases j - from
  {
    if from < j { FirstDescIs(attrs, from + 1, end, uuid, hi, j); }
  }

  /** The first match of the window is the first of the span. */
  lemma FirstInIsFirstDesc(p: Peer, f: Faults, uuid: uint16, i: nat)
    requires WellFormed(p) && HasHids(p) && i < |Reports(p, f)|
    ensures FirstIn(p, f, uuid, i) == FirstDesc(p.attrs, SpanStart(p, f, i), RestEnd(p, f, i), uuid, HidsEnd(p))
  {
    hide Reports, HidsEnd, HasHids, SpanStart, RestEnd, WellFormed, WindowLo, WindowHi, FirstDesc;
    var q := Discover(Descriptor, uuid, WindowLo(Reports(p, f), i), WindowHi(Reports(p, f), i, HidsEnd(p)));
    var a, b := SpanStart(p, f, i), RestEnd(p, f, i);
    var j := NextMatch(p.attrs, q, 0);
    forall k: nat | k < |p.attrs|
      ensures Matches(p.attrs[k], q) <==>
                p.attrs[k].Desc? && p.attrs[k].uuid == uuid && a <= k < b && p.attrs[k].handle <= HidsEnd(p)
    {
      if p.attrs[k].Desc? { WindowIsSpan(p, f, i, k); }
    }
    SpanOrder(p, f, i);
    if j < |p.attrs| {
      FirstDescIs(p.attrs, a, b, uuid, HidsEnd(p), j);
    } else {
      FirstDescIs(p.attrs, a, b, uuid, HidsEnd(p), b);
    }
  }

  lemma SpanOrder(p: Peer, f: Faults, i: nat)
    requires HasHids(p) && i < |Reports(p, f)|
    ensures SpanStart(p, f, i) <= RestEnd(p, f, i)
  {
    hide Reports, HidsEnd, HasHids, DeclarationOf;
    if i + 1 < |Reports(p, f)| { DeclarationsAscend(p, f, i, i + 1); }
  }

  /** A span from a report's first descriptor is its own descriptors, then the rest. */
  lemma {:induction false} OwnThenRest(attrs: seq<Attr>, k: nat, end: nat, uuid: uint16, hi: uint16)
    requires k <= end <= |attrs| && OwnEnd(attrs, k) <= end
    requires forall j :: k <= j < OwnEnd(attrs, k) ==> attrs[j].handle <= hi
    ensures FirstDesc(attrs, k, end, uuid, hi)
            == if OwnFrom(attrs, k, uuid).Some? then OwnFrom(attrs, k, uuid) else FirstDesc(attrs, OwnEnd(attrs, k), end, uuid, hi)
    decreases |attrs| - k
  {
    if k < |attrs| && attrs[k].Desc? && attrs[k].uuid != uuid { OwnThenRest(attrs, k + 1, end, uuid, hi); }
  }

  /** The service does not end before a report's own descriptors do. */
  lemma {:induction false} OwnInService(p: Peer, k: nat, s: nat, j: nat)
    requires WellFormed(p) && 0 < k <= |p.attrs| && k <= j < OwnEnd(p.attrs, k)
    requires s < |p.attrs| && p.attrs[s].Service? && p.attrs[k - 1].handle <= p.attrs[s].endHandle
    ensures p.attrs[j].handle <= p.attrs[s].endHandle
    decreases j
  {
    if j > k { OwnInService(p, k, s, j - 1); }
  }

  /**
   * What a report's window finds, for any UUID: the report's own descriptor if it has one, and else the
   * first one behind the next declaration that the window still reaches.
   */
  lemma WindowFinds(p: Peer, f: Faults, uuid: uint16, i: nat)
    requires WellFormed(p) && HasHids(p) && i < |Reports(p, f)|
    ensures FirstIn(p, f, uuid, i) == if Own(p, f, uuid, i).Some? then Own(p, f, uuid, i) else Behind(p, f, uuid, i)
  {
    hide Reports, HasHids, FirstIn, DeclarationOf, FirstDesc, OwnFrom, OwnEnd, WellFormed, HidsIndex;
    FirstInIsFirstDesc(p, f, uuid, i);
    var d := DeclarationOf(p, f, i);
    if Reports(p, f)[i] == LAST_HANDLE {
      LastHasNone(p, d, uuid);
    } else {
      ServiceOf(p, f, i);
      forall j | d + 1 <= j < OwnEnd(p.attrs, d + 1) ensures p.attrs[j].handle <= HidsEnd(p) {
        OwnInService(p, d + 1, HidsIndex(p), j);
      }
      OwnBeforeRest(p, f, i);
      OwnThenRest(p.attrs, d + 1, RestEnd(p, f, i), uuid, HidsEnd(p));
    }
  }

  lemma ServiceOf(p: Peer, f: Faults, i: nat)
    requires HasHids(p) && i < |Reports(p, f)|
    ensures var s := HidsIndex(p);
            && s < |p.attrs| && p.attrs[s].Service? && p.attrs[s].endHandle == HidsEnd(p)
            && p.attrs[DeclarationOf(p, f, i)].handle <= HidsEnd(p)
  {
    hide Reports, DeclarationOf;
  }

  lemma LastHasNone(p: Peer, d: nat, uuid: uint16)
    requires WellFormed(p) && d < |p.attrs| && p.attrs[d].Chrc? && p.attrs[d].valueHandle == LAST_HANDLE
    ensures OwnFrom(p.attrs, d + 1, uuid).None?
  {}

  lemma OwnBeforeRest(p: Peer, f: Faults, i: nat)
    requires HasHids(p) && i < |Reports(p, f)|
    ensures DeclarationOf(p, f, i) + 1 <= OwnEnd(p.attrs, DeclarationOf(p, f, i) + 1) <= RestEnd(p, f, i)
  {
    hide Reports, HidsEnd, HasHids, DeclarationOf;
    if i + 1 < |Reports(p, f)| {
      DeclarationsAscend(p, f, i, i + 1);
      assert !p.attrs[DeclarationOf(p, f, i + 1)].Desc?;
    }
  }

  // ------------------------------------------------ when a report is wired with its own

  /** The tag of report i if only its own descriptors counted. */
  function OwnTag(p: Peer, f: Faults, i: nat): byte
    requires HasHids(p) && i < |Reports(p, f)|
  {
    var d := Own(p, f, UUID_REPORT_REF, i);
    if d.Some? && d.value.Desc? && i !in f.refs then TagOf(d.value.value) else 0
  }

  /** Its subscription if only its own descriptors counted. */
  function OwnSub(p: Peer, f: Faults, i: nat): seq<Sub>
    requires HasHids(p) && i < |Reports(p, f)|
  {
    var d := Own(p, f, UUID_CCC, i);
    if d.Some? && i !in f.cccs then [Sub(Reports(p, f)[i], d.value.handle, OwnTag(p, f, i))] else []
  }

  /** Nothing behind the next declaration can tag report i. */
  predicate TagSafe(p: Peer, f: Faults, i: nat)
    requires HasHids(p) && i < |Reports(p, f)|
  {
    || i in f.refs
    || Own(p, f, UUID_REPORT_REF, i).Some?
    || Behind(p, f, UUID_REPORT_REF, i).None?
    || (Behind(p, f, UUID_REPORT_REF, i).value.Desc? && TagOf(Behind(p, f, UUID_REPORT_REF, i).value.value) == 0)
  }

  /**
   * A report gets its own tag exactly when it has a Report Reference of its own, or the rest of its window
   * has none, or the first one there gives 0 (or its reference could not be sought or read at all): a
   * characteristic that does not notify is not kept apart.
   */
  lemma TagIsOwnIff(p: Peer, f: Faults, i: nat)
    requires WellFormed(p) && HasHids(p) && i < |Reports(p, f)|
    ensures TagFor(p, f, i) == OwnTag(p, f, i) <==> TagSafe(p, f, i)
  {
    hide Reports, HidsEnd, HasHids, DeclarationOf, WellFormed, Own, Behind, FirstIn;
    WindowFinds(p, f, UUID_REPORT_REF, i);
  }

  /**
   * A report is subscribed through its own CCC with its own tag exactly when it has a CCC and its tag is
   * safe, or when it has none and the rest of its window has none either: a CCC behind another
   * declaration is taken for the report's.
   */
  lemma SubIsOwnIff(p: Peer, f: Faults, i: nat)
    requires WellFormed(p) && HasHids(p) && i < |Reports(p, f)|
    ensures SubFor(p, f, i) == OwnSub(p, f, i)
            <==> i in f.cccs || (if Own(p, f, UUID_CCC, i).Some? then TagSafe(p, f, i) else Behind(p, f, UUID_CCC, i).None?)
  {
    hide Reports, HidsEnd, HasHids, DeclarationOf, WellFormed, Own, Behind, FirstIn, TagFor, OwnTag, TagSafe;
    WindowFinds(p, f, UUID_CCC, i);
    TagIsOwnIff(p, f, i);
  }

  // --------------------------------------------------- other reports that notify

  /** The value handles ascend with the reports. */
  lemma ValuesAscend(p: Peer, f: Faults, i: nat, j: nat)
    requires WellFormed(p) && HasHids(p) && i < j < |Reports(p, f)|
    ensures 1 <= Reports(p, f)[i] < Reports(p, f)[j]
  {
    hide Reports, HidsEnd, HasHids, DeclarationOf;
    DeclarationsAscend(p, f, i, j);
    AfterValue(p, DeclarationOf(p, f, j), DeclarationOf(p, f, i));
    AfterValue(p, DeclarationOf(p, f, i), DeclarationOf(p, f, j));
  }

  predicate InWindowOf(p: Peer, f: Faults, i: nat, h: nat)
    requires HasHids(p) && i < |Reports(p, f)|
  {
    WindowLo(Reports(p, f), i) <= h <= WindowHi(Reports(p, f), i, HidsEnd(p))
  }

  /** No handle is in the windows of two notifiable reports, unless the later one's value is at the last handle. */
  lemma WindowsDisjoint(p: Peer, f: Faults, i: nat, k: nat, h: nat)
    requires WellFormed(p) && HasHids(p) && i < k < |Reports(p, f)| && Reports(p, f)[k] != LAST_HANDLE
    ensures !(InWindowOf(p, f, i, h) && InWindowOf(p, f, k, h))
  {
    hide Reports, HidsEnd, HasHids, WellFormed;
    ValuesAscend(p, f, i, k);
    ValuesAscend(p, f, i, i + 1);
    if i + 1 < k { ValuesAscend(p, f, i + 1, k); }
  }

  /** The tables differ only in descriptors, at the same handles, inside the window of report k. */
  predicate DifferIn(p: Peer, q: Peer, f: Faults, k: nat)
    requires HasHids(p) && k < |Reports(p, f)|
  {
    && |q.attrs| == |p.attrs|
    && forall j :: 0 <= j < |p.attrs| ==>
         || q.attrs[j] == p.attrs[j]
         || (p.attrs[j].Desc? && q.attrs[j].Desc? && q.attrs[j].handle == p.attrs[j].handle && InWindowOf(p, f, k, p.attrs[j].handle))
  }

  lemma {:induction false} NotifyingSame(p: Peer, q: Peer, n: nat, hi: uint16)
    requires n <= |p.attrs| == |q.attrs|
    requires forall j :: 0 <= j < n ==> q.attrs[j] == p.attrs[j] || (p.attrs[j].Desc? && q.attrs[j].Desc?)
    ensures Notifying(q, n, hi) == Notifying(p, n, hi)
    decreases n
  {
    if n > 0 {
      NotifyingSame(p, q, n - 1, hi);
      assert q.attrs[n - 1] == p.attrs[n - 1] || (p.attrs[n - 1].Desc? && q.attrs[n - 1].Desc?);
    }
  }

  lemma SameReports(p: Peer, q: Peer, f: Faults)
    requires HasHids(p) && |p.attrs| == |q.attrs|
    requires forall j :: 0 <= j < |p.attrs| ==> q.attrs[j] == p.attrs[j] || (p.attrs[j].Desc? && q.attrs[j].Desc?)
    ensures HasHids(q) && HidsEnd(q) == HidsEnd(p) && Reports(q, f) == Reports(p, f)
  {
    var j := HidsIndex(p);
    assert q.attrs[j] == p.attrs[j];
    NextMatchIs(q.attrs, HIDS_PASS, j);
    NotifyingSame(p, q, Seen(p, f), HidsEnd(p));
  }

  lemma NextMatchIs(attrs: seq<Attr>, q: Proc, j: nat)
    requires j <= |attrs| && (j < |attrs| ==> Matches(attrs[j], q)) && forall k :: 0 <= k < j ==> !Matches(attrs[k], q)
    ensures NextMatch(attrs, q, 0) == j
  {
    hide Matches;
  }

  /** What the window of one notifiable report holds has no influence on how another is wired. */
  lemma TagIgnoresOtherWindows(p: Peer, q: Peer, f: Faults, i: nat, k: nat)
    requires WellFormed(p) && HasHids(p) && i < |Reports(p, f)| && k < |Reports(p, f)| && i != k
    requires Reports(p, f)[i] != LAST_HANDLE && Reports(p, f)[k] != LAST_HANDLE && DifferIn(p, q, f, k)
    ensures HasHids(q) && Reports(q, f) == Reports(p, f)
    ensures TagFor(q, f, i) == TagFor(p, f, i) && SubFor(q, f, i) == SubFor(p, f, i)
  {
    hide Reports, HidsEnd, HasHids, WellFormed, InWindowOf;
    SameReports(p, q, f);
    FirstInIgnores(p, q, f, UUID_REPORT_REF, i, k);
    FirstInIgnores(p, q, f, UUID_CCC, i, k);
  }

  lemma FirstInIgnores(p: Peer, q: Peer, f: Faults, uuid: uint16, i: nat, k: nat)
    requires WellFormed(p) && HasHids(p) && i < |Reports(p, f)| && k < |Reports(p, f)| && i != k
    requires Reports(p, f)[i] != LAST_HANDLE && Reports(p, f)[k] != LAST_HANDLE && DifferIn(p, q, f, k)
    requires HasHids(q) && HidsEnd(q) == HidsEnd(p) && Reports(q, f) == Reports(p, f)
    ensures FirstIn(q, f, uuid, i) == FirstIn(p, f, uuid, i)
  {
    hide Reports, HidsEnd, HasHids, WellFormed, WindowLo, WindowHi;
    var r := Discover(Descriptor, uuid, WindowLo(Reports(p, f), i), WindowHi(Reports(p, f), i, HidsEnd(p)));
    forall j: nat | j < |p.attrs|
      ensures Matches(q.attrs[j], r) == Matches(p.attrs[j], r) && (Matches(p.attrs[j], r) ==> q.attrs[j] == p.attrs[j])
    {
      WindowsDisjoint(p, f, if i < k then i else k, if i < k then k else i, p.attrs[j].handle);
    }
    NextMatchIs(q.attrs, r, NextMatch(p.attrs, r, 0));
  }

  // ------------------------------------------------------------------ witnesses

  /** An Input report without a Report Reference, then an Output report with id 5. */
  const LEAKY := Peer([
    Service(1, UUID_HIDS, 9),
    Chrc(2, UUID_REPORT, 3, true), Desc(4, UUID_CCC, []),
    Chrc(5, UUID_REPORT, 6, false), Desc(7, UUID_REPORT_REF, [5, 2])], [])

  const UUID_BOOT_MOUSE: uint16 := 0x2A33

  /** An Input report without a CCC, then the Boot Mouse Input report with one. */
  const STRAY_CCC := Peer([
    Service(1, UUID_HIDS, 9),
    Chrc(2, UUID_REPORT, 3, true), Desc(4, UUID_REPORT_REF, [1, 1]),
    Chrc(5, UUID_BOOT_MOUSE, 6, true), Desc(7, UUID_CCC, [])], [])

  /** Both tables hold one notifiable report, declared at index 1. */
  lemma OneReport(p: Peer)
    requires |p.attrs| == 5 && p.attrs[0] == Service(1, UUID_HIDS, 9) && p.attrs[1] == Chrc(2, UUID_REPORT, 3, true)
    requires p.attrs[2].Desc? && p.attrs[4].Desc? && p.attrs[3].Chrc? && (p.attrs[3].uuid != UUID_REPORT || !p.attrs[3].notify)
    ensures HasHids(p) && HidsEnd(p) == 9 && Reports(p, NO_FAULTS) == [3]
    ensures DeclarationOf(p, NO_FAULTS, 0) == 1
  {
    assert Matches(p.attrs[0], HIDS_PASS);
    NextMatchIs(p.attrs, HIDS_PASS, 0);
    assert Notifying(p, 0, 9) == [] && Declarations(p, 0, 9) == [];
    assert Notifying(p, 1, 9) == [] && Declarations(p, 1, 9) == [];
    assert Notifying(p, 2, 9) == [3] && Declarations(p, 2, 9) == [1];
    assert Notifying(p, 3, 9) == [3] && Declarations(p, 3, 9) == [1];
    assert Notifying(p, 4, 9) == [3] && Declarations(p, 4, 9) == [1];
    assert Notifying(p, 5, 9) == [3] && Declarations(p, 5, 9) == [1];
  }

  /** Five attributes in order: service, two characteristics with a descriptor each. */
  lemma FiveWellFormed(p: Peer)
    requires |p.attrs| == 5 && p.attrs[0].Service? && p.attrs[1].Chrc? && p.attrs[2].Desc? && p.attrs[3].Chrc? && p.attrs[4].Desc?
    requires p.attrs[0].handle < p.attrs[1].handle < p.attrs[1].valueHandle < p.attrs[2].handle
    requires p.attrs[2].handle < p.attrs[3].handle < p.attrs[3].valueHandle < p.attrs[4].handle <= p.attrs[0].endHandle
    ensures WellFormed(p)
  {}

  lemma OneSub(p: Peer, f: Faults)
    requires HasHids(p) && |Reports(p, f)| == 1
    ensures SubsFor(p, f, 1) == SubFor(p, f, 0)
  {
    hide Reports, HidsEnd, HasHids, SubFor;
    assert SubsFor(p, f, 0) == [];
    assert SubsFor(p, f, 1) == SubsFor(p, f, 0) + SubFor(p, f, 0);
  }

  /** The Input report is subscribed with the Output report's id. */
  lemma TagLeaksFromOutputReport()
    ensures WellFormed(LEAKY) && HasHids(LEAKY) && |Reports(LEAKY, NO_FAULTS)| == 1
    ensures SubsFor(LEAKY, NO_FAULTS, 1) == [Sub(3, 4, 5)] && OwnTag(LEAKY, NO_FAULTS, 0) == 0
  {
    hide Reports, HidsEnd, HasHids, Notifying, DeclarationOf, WellFormed;
    OneReport(LEAKY);
    FiveWellFormed(LEAKY);
    OneSub(LEAKY, NO_FAULTS);
    var a := LEAKY.attrs;
    OwnIs(a, 2);
    FirstDescIs(a, 3, 5, UUID_REPORT_REF, 9, 4);
    WindowFinds(LEAKY, NO_FAULTS, UUID_REPORT_REF, 0);
    WindowFinds(LEAKY, NO_FAULTS, UUID_CCC, 0);
  }

  /** The Input report is subscribed through the Boot Mouse report's CCC. */
  lemma CccLeaksFromBootReport()
    ensures WellFormed(STRAY_CCC) && HasHids(STRAY_CCC) && |Reports(STRAY_CCC, NO_FAULTS)| == 1
    ensures SubsFor(STRAY_CCC, NO_FAULTS, 1) == [Sub(3, 7, 1)] && OwnSub(STRAY_CCC, NO_FAULTS, 0) == []
  {
    hide Reports, HidsEnd, HasHids, Notifying, DeclarationOf, WellFormed;
    OneReport(STRAY_CCC);
    FiveWellFormed(STRAY_CCC);
    OneSub(STRAY_CCC, NO_FAULTS);
    var a := STRAY_CCC.attrs;
    OwnIs(a, 2);
    FirstDescIs(a, 3, 5, UUID_CCC, 9, 4);
    WindowFinds(STRAY_CCC, NO_FAULTS, UUID_REPORT_REF, 0);
    WindowFinds(STRAY_CCC, NO_FAULTS, UUID_CCC, 0);
  }

  /** One descriptor at index k, a declaration after it. */
  lemma OwnIs(attrs: seq<Attr>, k: nat)
    requires k + 1 < |attrs| && attrs[k].Desc? && !attrs[k + 1].Desc?
    ensures OwnEnd(attrs, k) == k + 1
    ensures forall uuid :: OwnFrom(attrs, k, uuid) == if attrs[k].uuid == uuid then Some(attrs[k]) else None
  {
    forall uuid ensures OwnFrom(attrs, k, uuid) == if attrs[k].uuid == uuid then Some(attrs[k]) else None {
      assert OwnFrom(attrs, k + 1, uuid) == None;
    }
  }
}

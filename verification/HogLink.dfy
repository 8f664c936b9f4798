/** Connection, scanner and retry as functions of the events alone: where a connection comes from, and when the scanner runs. */
module HogLink {
  import opened Bits
  import opened HidDecodeLaws
  import opened HogSteps
  import opened HogWorld
  import opened HogLaws

  /** An advert that makes the central connect: of a candidate, with the scan stopped and the connection created. */
  predicate Connects(e: Event) { e.Advert? && e.candidate && e.stopOk && e.createOk }

  predicate EndsLink(e: Event) { e.LinkFailed? || e.LinkDown? }

  /** After the first n events a connection exists or is being made. */
  function Linked(es: seq<Event>, n: nat): bool
    requires n <= |es|
  {
    n > 0 && (Connects(es[n - 1]) || (Linked(es, n - 1) && !EndsLink(es[n - 1])))
  }

  /** How the last scan start went: at start-up, when a link ended, when a retry fired, or when a candidate could not be connected. */
  function LastStart(start: ScanResult, es: seq<Event>, n: nat): ScanResult
    requires n <= |es|
  {
    if n == 0 then start
    else match es[n - 1]
      case LinkFailed(scan) => scan
      case LinkDown(scan) => scan
      case RetryFires(scan) => scan
      case Advert(candidate, stopOk, createOk, scan) =>
        if candidate && stopOk && !createOk && !Linked(es, n - 1) then scan else LastStart(start, es, n - 1)
      case _ => LastStart(start, es, n - 1)
  }

  /** What one event does to connection, scanner and retry. */
  lemma StepLink(w: World, e: Event)
    requires Enabled(w, e) && Sane(w) && Attentive(w.c)
    ensures var c, d := w.c, Next(w, e).c;
            match e
            case Advert(candidate, stopOk, createOk, scan) =>
              if c.conn.Some? || !candidate || !stopOk then d.conn == c.conn && d.scanning == c.scanning && d.retry == c.retry
              else if createOk then d.conn.Some? && !d.scanning && !d.retry
              else d.conn.None? && d.scanning == !scan.ScanFailed? && d.retry == scan.ScanFailed?
            case RetryFires(scan) => d.conn.None? && d.scanning == !scan.ScanFailed? && d.retry == scan.ScanFailed?
            case LinkFailed(scan) => d.conn.None? && d.scanning == !scan.ScanFailed? && d.retry == scan.ScanFailed?
            case LinkDown(scan) => d.conn.None? && d.scanning == !scan.ScanFailed? && d.retry == scan.ScanFailed?
            case _ => d.conn == c.conn && d.scanning == c.scanning && d.retry == c.retry
  {
    hide Published, Cut, Shaped, DoDiscoverNext, Deliver, ReportMapRead, ReportRefRead, DoMapEnd;
    if IsGatt(e) { hide Next; GattKeepsLife(w, e); }
  }

  /**
   * In every run: a connection exists or is being made exactly when a candidate was connected and no link
   * has ended since; without one the scanner runs exactly when the last scan start did not fail, and a
   * retry is scheduled exactly when it did.
   */
  lemma {:induction false} LinkAndScannerAreTheEvents(ws: seq<World>, es: seq<Event>, n: nat, start: ScanResult)
    requires IsRun(ws, es) && n <= |es| && ws[0] == Boot(start)
    ensures ws[n].c.conn.Some? <==> Linked(es, n)
    ensures ws[n].c.scanning <==> !Linked(es, n) && !LastStart(start, es, n).ScanFailed?
    ensures ws[n].c.retry <==> !Linked(es, n) && LastStart(start, es, n).ScanFailed?
    decreases n
  {
    hide Next, Enabled, Sane;
    if n > 0 {
      LinkAndScannerAreTheEvents(ws, es, n - 1, start);
      RunSane(ws, es, n - 1);
      NeverDeaf(ws, es, n - 1);
      StepLink(ws[n - 1], es[n - 1]);
      if es[n - 1].RetryFires? { RetryMeansNoLink(ws[n - 1], es[n - 1]); }
    }
  }

  lemma RetryMeansNoLink(w: World, e: Event)
    requires Enabled(w, e) && e.RetryFires? && Attentive(w.c)
    ensures w.c.conn.None?
  {}

  lemma {:induction false} LinkedSince(es: seq<Event>, n: nat) returns (k: nat)
    requires n <= |es| && Linked(es, n)
    ensures k < n && Connects(es[k]) && forall j :: k < j < n ==> !EndsLink(es[j])
    ensures !Linked(es, k)
    decreases n
  {
    if Linked(es, n - 1) && !EndsLink(es[n - 1]) {
      k := LinkedSince(es, n - 1);
    } else {
      k := n - 1;
      if Linked(es, n - 1) { assert false; }
    }
  }

  /**
   * Every connection, in every run, goes back to an advert of a candidate, met without a connection, whose
   * scan stop and create succeeded, and no link has ended since.
   */
  lemma ConnectionHasCandidate(ws: seq<World>, es: seq<Event>, n: nat) returns (k: nat)
    requires IsRun(ws, es) && n <= |es| && ws[n].c.conn.Some?
    ensures k < n && Connects(es[k]) && ws[k].c.conn.None?
    ensures forall j :: k < j < n ==> !EndsLink(es[j])
  {
    hide Next, Enabled;
    var start :| ws[0] == Boot(start);
    LinkAndScannerAreTheEvents(ws, es, n, start);
    k := LinkedSince(es, n);
    LinkAndScannerAreTheEvents(ws, es, k, start);
  }

  /** Any other advert leaves connection, scanner and retry as they were. */
  lemma OtherAdvertsChangeNothing(ws: seq<World>, es: seq<Event>, n: nat)
    requires IsRun(ws, es) && n < |es| && es[n].Advert?
    requires !es[n].candidate || !es[n].stopOk || ws[n].c.conn.Some?
    ensures ws[n + 1].c.conn == ws[n].c.conn && ws[n + 1].c.scanning == ws[n].c.scanning && ws[n + 1].c.retry == ws[n].c.retry
  {
    hide Next, Enabled, Sane;
    RunSane(ws, es, n);
    NeverDeaf(ws, es, n);
    StepLink(ws[n], es[n]);
  }
}

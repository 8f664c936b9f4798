/** Building runs of the central step by step, and the run that gets stuck at the first step of discovery. */
module HogRuns {
  import opened Bits
  import opened HidTypes
  import opened HogSteps
  import opened HogWorld
  import opened HogLaws
  import HogDiscovery

  /** The central once connection 1 is up and nothing is queued. */
  function At(disc: Disc, hidsEnd: uint16, rm: seq<byte>, layout: PointerLayout, pending: seq<uint16>, idx: nat,
              subs: seq<Sub>, procs: seq<Proc>): Central
  {
    Central(disc, hidsEnd, rm, layout, layout.valid, pending, idx, 0, subs, [], Some(1), false, false, procs)
  }

  /** Its world, on a secured link to p with nothing failed. */
  function In(p: Peer, c: Central, pos: nat, sent: seq<byte>): World {
    World(c, p, 1, true, true, NO_FAULTS, pos, sent, None, [], [], [])
  }

  /** Security just succeeded. */
  function Secure(p: Peer): World { In(p, At(HidsPrimary, 0, [], NO_LAYOUT, [], 0, [], [HIDS_PASS]), 0, []) }

  /** One more enabled event. */
  lemma Extend(ws: seq<World>, es: seq<Event>, e: Event) returns (vs: seq<World>, fs: seq<Event>)
    requires IsRun(ws, es) && |ws| == |es| + 1 && Enabled(ws[|es|], e)
    ensures IsRun(vs, fs) && |vs| == |fs| + 1 && |fs| == |es| + 1 && vs[|fs|] == Next(ws[|es|], e)
  {
    hide Next, Enabled;
    vs, fs := ws + [Next(ws[|es|], e)], es + [e];
  }

  /** From start-up to a secured link with any peer, every call successful. */
  lemma Connects(p: Peer) returns (ws: seq<World>, es: seq<Event>)
    requires ValidPeer(p)
    ensures IsRun(ws, es) && |ws| == |es| + 1 && ws[|es|] == Secure(p)
  {
    ws, es := [Boot(Started)], [];
    assert IsRun(ws, es);
    ws, es := Extend(ws, es, Advert(true, true, true, Started));
    ws, es := Extend(ws, es, LinkUp(p));
    ws, es := Extend(ws, es, Secured(true, true));
  }

  const OK := Api(true, true, true, true, true, Subscribed)

  /** With a peer that has no attributes at all, discovery is stuck after its first answer, and nothing failed. */
  lemma StuckRun() returns (ws: seq<World>, es: seq<Event>)
    ensures IsRun(ws, es) && |ws| == |es| + 1
    ensures var w := ws[|es|];
            && w.started && w.faults == NO_FAULTS && !HogDiscovery.HasHids(w.peer)
            && w.c.disc.HidsPrimary? && w.c.procs == []
  {
    hide IsRun;
    ws, es := Connects(NOBODY);
    ws, es := Extend(ws, es, DiscoverNext(OK));
  }
}

/** The daemon's reload, step by step (src/supervisor.rs). Every state it
    passes through is on `trace`, which nothing reads. */
module Daemon {
  import opened Common
  import opened BridgeState
  import opened Config
  import opened Reconcile
  import opened PlanShape
  import opened Reload
  import opened ReloadFolds
  import opened ReloadEffects
  import opened ReloadResults
  import Planner
  import V = Validate

  // ── Dropping sessions ───────────────────────────────────────────────

  function NotOn(s: seq<SessionView>, port: string): seq<SessionView> {
    if |s| == 0 then []
    else
      var rest := NotOn(s[..|s| - 1], port);
      if s[|s| - 1].id.port == port then rest else rest + [s[|s| - 1]]
  }

  function Except(s: seq<SessionView>, gone: seq<SessionId>): seq<SessionView> {
    if |s| == 0 then []
    else
      var rest := Except(s[..|s| - 1], gone);
      if s[|s| - 1].id in gone then rest else rest + [s[|s| - 1]]
  }

  lemma {:induction false} NotOnIsWithout(s: seq<SessionView>, rp: RunningPort, pp: PortPlan, b: Bridge)
    requires ToStop(Some(rp), pp) && !rp.TncPort?
    ensures Without(s, Stops, Some(rp), pp, b) == NotOn(s, pp.id)
  {
    if |s| > 0 { NotOnIsWithout(s[..|s| - 1], rp, pp, b); }
  }

  lemma {:induction false} ExceptIsWithout(s: seq<SessionView>, rp: Option<RunningPort>, pp: PortPlan, nb: Bridge)
    requires pp.action == Updated && FindPort(nb.ports, pp.id).Some?
    ensures Without(s, Updates, rp, pp, nb) == Except(s, pp.disconnects)
  {
    if |s| > 0 { ExceptIsWithout(s[..|s| - 1], rp, pp, nb); }
  }

  lemma {:induction false} ExceptOneMore(s: seq<SessionView>, gone: seq<SessionId>, x: SessionId)
    ensures Except(Except(s, gone), [x]) == Except(s, gone + [x])
  {
    if |s| > 0 {
      var init, last := s[..|s| - 1], s[|s| - 1];
      ExceptOneMore(init, gone, x);
      if last.id !in gone {
        var rest := Except(init, gone);
        assert (rest + [last])[..|rest|] == rest;
      }
    }
  }

  lemma {:induction false} ExceptNone(s: seq<SessionView>)
    ensures Except(s, []) == s
  {
    if |s| > 0 {
      ExceptNone(s[..|s| - 1]);
      assert s == s[..|s| - 1] + [s[|s| - 1]];
    }
  }

  // ── Points along the way ────────────────────────────────────────────

  /** What runs in `v` runs just so in `w`. */
  ghost predicate PartOf(v: World, w: World) {
    forall id :: id in v ==> id in w && forall p :: PortOf(v[id], p).Some? ==> PortOf(v[id], p) == PortOf(w[id], p)
  }

  lemma PartOfTrans(u: World, v: World, w: World)
    requires PartOf(u, v) && PartOf(v, w)
    ensures PartOf(u, w)
  {
    forall id | id in u ensures id in w && forall p :: PortOf(u[id], p).Some? ==> PortOf(u[id], p) == PortOf(w[id], p) {
      forall p | PortOf(u[id], p).Some? ensures PortOf(u[id], p) == PortOf(w[id], p) {
        assert PortOf(u[id], p) == PortOf(v[id], p);
      }
    }
  }

  lemma PartWithin(v: World, w: World, c: Config)
    requires PartOf(v, w) && Within(w, c)
    ensures Within(v, c)
  {
    forall id | id in v ensures PortsFit(v[id], FindRunning(c, id).value) {
      var b := FindRunning(c, id).value;
      assert PortsFit(w[id], b);
      forall p ensures PortFits(PortOf(v[id], p), FindPort(b.ports, p)) {
        assert PortFits(PortOf(w[id], p), FindPort(b.ports, p));
      }
    }
  }

  /** Each state since `before` is a part of `w`. */
  ghost predicate Shrinking(before: seq<World>, trace: seq<World>, w: World) {
    forall v :: v in trace ==> v in before || PartOf(v, w)
  }

  ghost predicate AllWithin(before: seq<World>, trace: seq<World>, c: Config) {
    forall v :: v in trace ==> v in before || Within(v, c)
  }

  /** A bridge with only these sessions left. */
  function Left(rb: RunningBridge, sessions: seq<SessionView>): RunningBridge {
    rb.(sessions := sessions, linkUp := rb.linkUp && !LastLeaves(rb, sessions))
  }

  function StopIn(w: World, bridge: string, port: string): World {
    if bridge in w && port in w[bridge].ports then
      var rb := w[bridge];
      w[bridge := Left(rb.(ports := rb.ports - {port}), if rb.ports[port].TncPort? then rb.sessions else NotOn(rb.sessions, port))]
    else w
  }

  lemma StopIsPart(w: World, bridge: string, port: string)
    ensures PartOf(StopIn(w, bridge, port), w)
  {
  }

  /** Stopping a port is what the first pass does to one it must stop. */
  lemma StopIsStep(w: World, id: string, pp: PortPlan, b: Bridge, broken: Broken)
    requires id in w
    ensures w[id := PortStep(Stops, w[id], pp, b, broken)] == if ToStop(PortOf(w[id], pp.id), pp) then StopIn(w, id, pp.id) else w
  {
    var rb := w[id];
    var rp := PortOf(rb, pp.id);
    if ToStop(rp, pp) && rp.Some? && rp != Some(TncPort) {
      NotOnIsWithout(rb.sessions, rp.value, pp, b);
    } else {
      NothingEnds(rb.sessions, Stops, rp, pp, b);
    }
    assert !ToStop(rp, pp) || rp.None? ==> SetPort(rb.ports, pp.id, PortAfter(Stops, rp, pp, b, broken)) == rb.ports;
  }

  /** Putting one bridge that fits in place keeps the rest fitting. */
  lemma WithinSet(w: World, c: Config, nb: Bridge, rb: RunningBridge)
    requires Within(w, c) && FindRunning(c, nb.id) == Some(nb) && PortsFit(rb, nb)
    ensures Within(w[nb.id := rb], c)
  {
  }

  /** In the later passes, each step leaves a port the new config has. */
  lemma StepFits(pass: Pass, rb: RunningBridge, pp: PortPlan, nb: Bridge, broken: Broken)
    requires PortsFit(rb, nb)
    ensures PortsFit(PortStep(pass, rb, pp, nb, broken), nb)
  {
    forall p ensures PortFits(PortOf(PortStep(pass, rb, pp, nb, broken), p), FindPort(nb.ports, p)) {
      assert PortFits(PortOf(rb, p), FindPort(nb.ports, p));
      if p == pp.id { PortStays(pass, p, pp, PortOf(rb, p), nb, broken); }
    }
  }

  /** A TNC port restarting in place, or a port with no settings to change. */
  lemma UpdateNothing(rb: RunningBridge, pp: PortPlan, nb: Bridge, broken: Broken)
    requires pp.action != Updated || FindPort(nb.ports, pp.id).None?
    ensures PortStep(Updates, rb, pp, nb, broken) ==
            if Reconnects(Updates, PortOf(rb, pp.id), pp, nb, broken)
            then rb.(linkUp := false, connector := FindPort(nb.ports, pp.id).value.kind) else rb
  {
    NothingEnds(rb.sessions, Updates, PortOf(rb, pp.id), pp, nb);
    assert SetPort(rb.ports, pp.id, PortOf(rb, pp.id)) == rb.ports;
  }

  function UpdateIn(rb: RunningBridge, np: Port): RunningBridge {
    if np.id in rb.ports then rb.(ports := rb.ports[np.id := WithSettings(rb.ports[np.id], np)]) else rb
  }

  lemma UpdateAndKick(rb: RunningBridge, pp: PortPlan, np: Port, nb: Bridge, broken: Broken)
    requires pp.action == Updated && FindPort(nb.ports, pp.id) == Some(np) && np.id == pp.id
    ensures PortStep(Updates, rb, pp, nb, broken) ==
            Left(UpdateIn(rb, np), Except(rb.sessions, pp.disconnects))
  {
    ExceptIsWithout(rb.sessions, PortOf(rb, pp.id), pp, nb);
    assert pp.id !in rb.ports ==> rb.ports - {pp.id} == rb.ports;
  }

  function KickIn(w: World, bridge: string, gone: seq<SessionId>): World {
    if bridge in w then w[bridge := Left(w[bridge], Except(w[bridge].sessions, gone))] else w
  }

  lemma KickNone(w: World, bridge: string)
    ensures KickIn(w, bridge, []) == w
  {
    if bridge in w { ExceptNone(w[bridge].sessions); }
  }

  lemma KickOneMore(w: World, bridge: string, gone: seq<SessionId>, s: SessionId)
    ensures KickIn(KickIn(w, bridge, gone), bridge, [s]) == KickIn(w, bridge, gone + [s])
  {
    if bridge in w {
      ExceptOneMore(w[bridge].sessions, gone, s);
      var rb := w[bridge];
      LeavesEither(rb, Left(rb, Except(rb.sessions, gone)), Except(rb.sessions, gone + [s]));
    }
  }

  lemma KickIsPart(w: World, bridge: string, gone: seq<SessionId>)
    ensures PartOf(KickIn(w, bridge, gone), w)
  {
  }

  lemma StartNothing(rb: RunningBridge, pp: PortPlan, nb: Bridge, broken: Broken)
    ensures PortStep(Starts, rb, pp, nb, broken) ==
            rb.(ports := SetPort(rb.ports, pp.id, PortAfter(Starts, PortOf(rb, pp.id), pp, nb, broken)))
  {
    NothingEnds(rb.sessions, Starts, PortOf(rb, pp.id), pp, nb);
  }

  lemma SetSame(rb: RunningBridge, id: string)
    ensures SetPort(rb.ports, id, PortOf(rb, id)) == rb.ports
  {
  }

  lemma UpdateFits(rb: RunningBridge, np: Port, nb: Bridge)
    requires PortsFit(rb, nb) && FindPort(nb.ports, np.id) == Some(np)
    ensures PortsFit(UpdateIn(rb, np), nb)
  {
    forall p ensures PortFits(PortOf(UpdateIn(rb, np), p), FindPort(nb.ports, p)) {
      assert PortFits(PortOf(rb, p), FindPort(nb.ports, p));
    }
  }

  lemma PartsWithin(before: seq<World>, trace: seq<World>, w: World, c: Config)
    requires Shrinking(before, trace, w) && Within(w, c)
    ensures AllWithin(before, trace, c)
  {
    forall v | v in trace ensures v in before || Within(v, c) {
      if v !in before { PartWithin(v, w, c); }
    }
  }

  lemma CfgWithin(w: World, c: Config, nb: Bridge, rb: RunningBridge, after: World)
    requires Within(w[nb.id := rb], c) && after == w[nb.id := rb.(cfg := nb)]
    ensures Within(after, c)
  {
    PartWithin(after, w[nb.id := rb], c);
  }

  function StartIn(rb: RunningBridge, nb: Bridge, np: Port, broken: Broken): RunningBridge {
    rb.(ports := SetPort(rb.ports, np.id, Launched(PortOf(rb, np.id), np, (nb.id, np.id) in broken)))
  }

  lemma LaunchFits(rb: RunningBridge, nb: Bridge, np: Port, broken: Broken)
    requires PortsFit(rb, nb) && UniquePorts(nb.ports) && np in nb.ports
    ensures PortsFit(StartIn(rb, nb, np, broken), nb)
  {
    forall p ensures PortFits(PortOf(StartIn(rb, nb, np, broken), p), FindPort(nb.ports, p)) {
      assert PortFits(PortOf(rb, p), FindPort(nb.ports, p));
      FindPortExact(nb.ports, p);
    }
  }

  lemma BareFits(nb: Bridge, tnc: Port)
    requires FirstTnc(nb.ports) == Some(tnc) && ConnectsOut(tnc.kind)
    ensures PortsFit(Bare(nb, tnc), nb)
  {
    FirstTncExact(nb.ports);
    FindPortExact(nb.ports, tnc.id);
  }

  lemma SetGet(w: World, id: string)
    ensures Set(w, id, Get(w, id)) == w
  {
  }

  lemma StillShrinking(before: seq<World>, mid: seq<World>, trace: seq<World>, v: World, w: World)
    requires Shrinking(before, mid, w) && Shrinking(mid, trace, v) && PartOf(v, w)
    ensures Shrinking(before, trace, w)
  {
    forall u | u in trace ensures u in before || PartOf(u, w) {
      if u !in mid { PartOfTrans(u, v, w); }
    }
  }

  /** What a plan says is started or updated, the new config has enabled. */
  ghost predicate EntryFits(bp: BridgePlan, now: Config) {
    bp.action == Updated || bp.action == Started ==> FindRunning(now, bp.id).Some?
  }

  ghost predicate EntriesFit(bps: seq<BridgePlan>, now: Config) {
    forall i :: 0 <= i < |bps| ==> EntryFits(bps[i], now)
  }

  lemma PlanEntriesFit(rt: Runtime, was: Config, now: Config)
    requires V.WellDefined(was) && V.WellDefined(now)
    ensures EntriesFit(PlanFor(rt, was, now).bridges, now)
  {
    ValidUnique(was);
    ValidUnique(now);
    PlanExact(rt, was, now);
    var bps := PlanFor(rt, was, now).bridges;
    forall i | 0 <= i < |bps| ensures EntryFits(bps[i], now) {
      assert bps[i] in bps;
      assert BridgeEntry(rt, was, now, bps[i].id) == Some(bps[i]);
    }
  }

  /** Once the stops are done, what runs is what the new config has too. */
  lemma StopsWithin(w: World, rt: Runtime, was: Config, now: Config, broken: Broken)
    requires V.WellDefined(was) && V.WellDefined(now) && Within(w, was)
    ensures Within(BridgeSteps(Stops, w, PlanFor(rt, was, now).bridges, now, broken), now)
  {
    var stopped := BridgeSteps(Stops, w, PlanFor(rt, was, now).bridges, now, broken);
    forall id | id in stopped ensures FindRunning(now, id).Some? && PortsFit(stopped[id], FindRunning(now, id).value) {
      StopWithin(w, rt, was, now, broken, id);
    }
  }

  /** What the first pass leaves of a bridge. */
  lemma AfterStops(w: World, rt: Runtime, was: Config, now: Config, broken: Broken, id: string)
    requires V.WellDefined(was) && V.WellDefined(now)
    ensures var e := BridgeEntry(rt, was, now, id);
            Get(BridgeSteps(Stops, w, PlanFor(rt, was, now).bridges, now, broken), id) ==
            if e.Some? then BridgeStep(Stops, Get(w, id), e.value, now, broken) else Get(w, id)
  {
    var plan := PlanFor(rt, was, now);
    ValidUnique(was);
    ValidUnique(now);
    PlanExact(rt, was, now);
    EntryId(rt, was, now, id);
    var e := BridgeEntry(rt, was, now, id);
    if e.None? {
      forall bp | bp in plan.bridges ensures bp.id != id { assert BridgeEntry(rt, was, now, bp.id) == Some(bp); }
      OtherBridge(Stops, w, plan.bridges, now, broken, id);
    } else {
      OwnBridge(Stops, w, plan.bridges, now, broken, e.value);
    }
  }

  /** A bridge that stays: what is left of it fits its new config. */
  lemma StayWithin(rt: Runtime, ob: Bridge, nb: Bridge, rb: RunningBridge, now: Config, broken: Broken)
    requires Planned(rt, ob, nb, PlanBridge(rt, ob, nb)) && PortsFit(rb, ob)
    ensures var after := BridgeStep(Stops, Some(rb), PlanBridge(rt, ob, nb), now, broken);
            after.Some? ==> PortsFit(after.value, nb)
  {
    var bp := PlanBridge(rt, ob, nb);
    StopsFit(rt, ob, nb, bp, rb, broken);
    StopsLookBack(rb, bp.ports, rb.cfg, nb, broken);
  }

  lemma StopWithin(w: World, rt: Runtime, was: Config, now: Config, broken: Broken, id: string)
    requires V.WellDefined(was) && V.WellDefined(now) && Within(w, was)
    requires id in BridgeSteps(Stops, w, PlanFor(rt, was, now).bridges, now, broken)
    ensures FindRunning(now, id).Some?
    ensures PortsFit(BridgeSteps(Stops, w, PlanFor(rt, was, now).bridges, now, broken)[id], FindRunning(now, id).value)
  {
    AfterStops(w, rt, was, now, broken, id);
    if id in w && FindRunning(now, id).Some? {
      var ob, nb := FindRunning(was, id).value, FindRunning(now, id).value;
      PlannedBridge(rt, was, now, id, ob, nb);
      StayWithin(rt, ob, nb, w[id], now, broken);
    }
  }

  lemma EmptyValid(c: Config)
    requires c.adapters == [] && c.tncs == [] && c.bridges == []
    ensures V.Valid(c)
  {
  }

  class Daemon {
    var cfg: Config
    var bridges: World
    ghost var trace: seq<World>

    method StopPort(bridge: string, port: string)
      modifies this`bridges, this`trace
      ensures bridges == StopIn(old(bridges), bridge, port)
      ensures trace == old(trace) + [bridges]
    {
      if bridge in bridges && port in bridges[bridge].ports {
        var rb := bridges[bridge];
        var rp := rb.ports[port];
        rb := rb.(ports := rb.ports - {port});
        if !rp.TncPort? { rb := Left(rb, NotOn(rb.sessions, port)); }
        bridges := bridges[bridge := rb];
      }
      trace := trace + [bridges];
    }

    method StopBridge(id: string)
      modifies this`bridges, this`trace
      ensures bridges == old(bridges) - {id}
      ensures Shrinking(old(trace), trace, old(bridges))
    {
      if id !in bridges {
        return;
      }
      var todo := bridges[id].ports.Keys;
      while |todo| > 0
        invariant id in bridges && bridges - {id} == old(bridges) - {id}
        invariant PartOf(bridges, old(bridges)) && Shrinking(old(trace), trace, old(bridges))
        decreases |todo|
      {
        var p :| p in todo;
        ghost var before := bridges;
        StopPort(id, p);
        StopIsPart(before, id, p);
        PartOfTrans(bridges, before, old(bridges));
        todo := todo - {p};
      }
      bridges := bridges - {id};
      trace := trace + [bridges];
    }

    method StopPorts(bp: BridgePlan, ghost b: Bridge, ghost broken: Broken)
      requires bp.id in bridges
      modifies this`bridges, this`trace
      ensures bridges == old(bridges)[bp.id := PortSteps(Stops, old(bridges)[bp.id], bp.ports, b, broken)]
      ensures PartOf(bridges, old(bridges)) && Shrinking(old(trace), trace, old(bridges))
    {
      var id := bp.id;
      for n := 0 to |bp.ports|
        invariant id in bridges
        invariant bridges == old(bridges)[id := PortSteps(Stops, old(bridges)[id], bp.ports[..n], b, broken)]
        invariant PartOf(bridges, old(bridges)) && Shrinking(old(trace), trace, old(bridges))
      {
        var pp := bp.ports[n];
        ghost var before := bridges;
        assert bp.ports[..n + 1][..n] == bp.ports[..n];
        StopIsStep(before, id, pp, b, broken);
        var appRestart := pp.action == Restarted && PortOf(bridges[id], pp.id) != Some(TncPort);
        if pp.action == Stopped || appRestart {
          StopPort(id, pp.id);
          StopIsPart(before, id, pp.id);
          PartOfTrans(bridges, before, old(bridges));
        }
      }
      assert bp.ports[..|bp.ports|] == bp.ports;
    }

    // ── Second pass ───────────────────────────────────────────────────

    method UpdatePort(bridge: string, np: Port)
      requires bridge in bridges
      modifies this`bridges, this`trace
      ensures bridges == old(bridges)[bridge := UpdateIn(old(bridges)[bridge], np)]
      ensures trace == old(trace) + [bridges]
    {
      var rb := bridges[bridge];
      if np.id in rb.ports {
        match (np.kind, rb.ports[np.id]) {
          case (TcpServer(_, max, allow, announce), TcpPort(listen, _, _, following)) =>
            var rp := TcpPort(listen, max, allow, following);
            if !announce && following {
              rp := rp.(following := false);
            } else if announce && !following {
              rp := rp.(following := true);
            }
            rb := rb.(ports := rb.ports[np.id := rp]);
          case (BleServer(_, max), BlePort(_)) => rb := rb.(ports := rb.ports[np.id := BlePort(max)]);
          case _ => assert rb.ports == rb.ports[np.id := rb.ports[np.id]];
        }
        bridges := bridges[bridge := rb];
      }
      assert bridges == old(bridges)[bridge := rb];
      trace := trace + [bridges];
    }

    method Kick(bridge: string, s: SessionId)
      modifies this`bridges, this`trace
      ensures bridges == KickIn(old(bridges), bridge, [s])
      ensures trace == old(trace) + [bridges]
    {
      if bridge in bridges {
        var rb := bridges[bridge];
        bridges := bridges[bridge := Left(rb, Except(rb.sessions, [s]))];
      }
      trace := trace + [bridges];
    }

    method KickAll(bridge: string, gone: seq<SessionId>)
      modifies this`bridges, this`trace
      ensures bridges == KickIn(old(bridges), bridge, gone)
      ensures Shrinking(old(trace), trace, old(bridges))
    {
      KickNone(bridges, bridge);
      for n := 0 to |gone|
        invariant bridges == KickIn(old(bridges), bridge, gone[..n])
        invariant Shrinking(old(trace), trace, old(bridges))
      {
        KickOneMore(old(bridges), bridge, gone[..n], gone[n]);
        assert gone[..n + 1] == gone[..n] + [gone[n]];
        Kick(bridge, gone[n]);
        KickIsPart(old(bridges), bridge, gone[..n + 1]);
      }
      assert gone[..|gone|] == gone;
    }

    /** A new connector for the TNC port, if the host can make one. */
    method Reconnect(bridge: string, connector: Option<PortKind>)
      requires bridge in bridges
      modifies this`bridges, this`trace
      ensures bridges == if connector.None? then old(bridges)
                         else old(bridges)[bridge := old(bridges)[bridge].(linkUp := false, connector := connector.value)]
      ensures trace == old(trace) + [bridges]
    {
      if connector.Some? { bridges := bridges[bridge := bridges[bridge].(linkUp := false, connector := connector.value)]; }
      trace := trace + [bridges];
    }

    method UpdateOne(nb: Bridge, pp: PortPlan, ghost now: Config, broken: Broken)
      requires nb.id in bridges && Within(bridges, now) && FindRunning(now, nb.id) == Some(nb)
      modifies this`bridges, this`trace
      ensures bridges == old(bridges)[nb.id := PortStep(Updates, old(bridges)[nb.id], pp, nb, broken)]
      ensures Within(bridges, now) && AllWithin(old(trace), trace, now)
    {
      var rb := bridges[nb.id];
      StepFits(Updates, rb, pp, nb, broken);
      WithinSet(bridges, now, nb, PortStep(Updates, rb, pp, nb, broken));
      var np := FindPort(nb.ports, pp.id);
      if np.None? || pp.action != Updated {
        UpdateNothing(rb, pp, nb, broken);
        var restarts := np.Some? && pp.action == Restarted && PortOf(rb, pp.id) == Some(TncPort);
        Reconnect(nb.id, if restarts && CanConnect(nb, np.value, broken) then Some(np.value.kind) else None);
      } else {
        FindPortExact(nb.ports, pp.id);
        UpdateAndKick(rb, pp, np.value, nb, broken);
        UpdatePort(nb.id, np.value);
        UpdateFits(rb, np.value, nb);
        WithinSet(old(bridges), now, nb, UpdateIn(rb, np.value));
        ghost var v, mid := bridges, trace;
        KickAll(nb.id, pp.disconnects);
        PartsWithin(mid, trace, v, now);
      }
    }

    /** New settings for the TNC port, if there is news of it. */
    method TellSettings(bp: BridgePlan, nb: Bridge)
      requires nb.id in bridges
      modifies this`bridges, this`trace
      ensures bridges == old(bridges)[nb.id := Told(old(bridges)[nb.id], bp, nb)]
      ensures trace == old(trace) + [bridges]
    {
      var rb := bridges[nb.id];
      var settings := SettingsFor(nb);
      if TncUpdated(rb, bp) && settings.Some? {
        var closes := SettingsClose(rb.settings, settings.value, rb.sessions);
        rb := rb.(settings := settings.value, linkUp := rb.linkUp && !closes);
      }
      bridges := bridges[nb.id := rb];
      trace := trace + [bridges];
    }

    method UpdatePorts(bp: BridgePlan, nb: Bridge, ghost now: Config, broken: Broken)
      requires nb.id in bridges && Within(bridges, now) && FindRunning(now, nb.id) == Some(nb)
      modifies this`bridges, this`trace
      ensures bridges == old(bridges)[nb.id := PortSteps(Updates, old(bridges)[nb.id], bp.ports, nb, broken).(cfg := nb)]
      ensures Within(bridges, now) && AllWithin(old(trace), trace, now)
    {
      var id := nb.id;
      for n := 0 to |bp.ports|
        invariant id in bridges
        invariant bridges == old(bridges)[id := PortSteps(Updates, old(bridges)[id], bp.ports[..n], nb, broken)]
        invariant Within(bridges, now) && AllWithin(old(trace), trace, now)
      {
        assert bp.ports[..n + 1][..n] == bp.ports[..n];
        UpdateOne(nb, bp.ports[n], now, broken);
      }
      assert bp.ports[..|bp.ports|] == bp.ports;
      SetCfg(id, nb);
      CfgWithin(old(bridges), now, nb, PortSteps(Updates, old(bridges)[id], bp.ports, nb, broken), bridges);
    }

    method SetCfg(id: string, nb: Bridge)
      requires id in bridges
      modifies this`bridges, this`trace
      ensures bridges == old(bridges)[id := old(bridges)[id].(cfg := nb)]
      ensures trace == old(trace) + [bridges]
    {
      bridges := bridges[id := bridges[id].(cfg := nb)];
      trace := trace + [bridges];
    }

    // ── Third pass ────────────────────────────────────────────────────

    method StartPort(nb: Bridge, np: Port, broken: Broken)
      requires nb.id in bridges
      modifies this`bridges, this`trace
      ensures bridges == old(bridges)[nb.id := StartIn(old(bridges)[nb.id], nb, np, broken)]
      ensures trace == old(trace) + [bridges]
    {
      var rb := bridges[nb.id];
      SetSame(rb, np.id);
      match np.kind {
        case TcpServer(listen, max, allow, announce) =>
          var rp := TcpPort(listen, max, allow, false);
          if announce { rp := rp.(following := true); }
          rb := rb.(ports := rb.ports[np.id := rp]);
        case BleServer(_, max) =>
          if (nb.id, np.id) !in broken { rb := rb.(ports := rb.ports[np.id := BlePort(max)]); }
        case _ =>
      }
      bridges := bridges[nb.id := rb];
      trace := trace + [bridges];
    }

    method StartOne(nb: Bridge, pp: PortPlan, ghost now: Config, broken: Broken)
      requires nb.id in bridges && Within(bridges, now) && FindRunning(now, nb.id) == Some(nb)
      modifies this`bridges, this`trace
      ensures bridges == old(bridges)[nb.id := PortStep(Starts, old(bridges)[nb.id], pp, nb, broken)]
      ensures Within(bridges, now) && AllWithin(old(trace), trace, now)
    {
      var rb := bridges[nb.id];
      StepFits(Starts, rb, pp, nb, broken);
      WithinSet(bridges, now, nb, PortStep(Starts, rb, pp, nb, broken));
      StartNothing(rb, pp, nb, broken);
      SetSame(rb, pp.id);
      var start := pp.action == Started || (pp.action == Restarted && pp.id !in rb.ports);
      var np := FindPort(nb.ports, pp.id);
      if start && np.Some? {
        FindPortExact(nb.ports, pp.id);
        StartPort(nb, np.value, broken);
      }
    }

    method StartPorts(bp: BridgePlan, nb: Bridge, ghost now: Config, broken: Broken)
      requires nb.id in bridges && Within(bridges, now) && FindRunning(now, nb.id) == Some(nb)
      modifies this`bridges, this`trace
      ensures bridges == old(bridges)[nb.id := PortSteps(Starts, old(bridges)[nb.id], bp.ports, nb, broken)]
      ensures Within(bridges, now) && AllWithin(old(trace), trace, now)
    {
      var id := nb.id;
      for n := 0 to |bp.ports|
        invariant id in bridges
        invariant bridges == old(bridges)[id := PortSteps(Starts, old(bridges)[id], bp.ports[..n], nb, broken)]
        invariant Within(bridges, now) && AllWithin(old(trace), trace, now)
      {
        assert bp.ports[..n + 1][..n] == bp.ports[..n];
        StartOne(nb, bp.ports[n], now, broken);
      }
      assert bp.ports[..|bp.ports|] == bp.ports;
    }

    method StartBridge(nb: Bridge, ghost now: Config, broken: Broken)
      requires Within(bridges, now) && FindRunning(now, nb.id) == Some(nb) && UniquePorts(nb.ports)
      modifies this`bridges, this`trace
      ensures bridges == Set(old(bridges), nb.id, BridgeStarted(Get(old(bridges), nb.id), nb, broken))
      ensures Within(bridges, now) && AllWithin(old(trace), trace, now)
    {
      var tnc := FirstTnc(nb.ports);
      SetGet(bridges, nb.id);
      if tnc.None? || !CanConnect(nb, tnc.value, broken) {
        return;
      }
      var bare := Bare(nb, tnc.value);
      BareFits(nb, tnc.value);
      WithinSet(bridges, now, nb, bare);
      bridges := bridges[nb.id := bare];
      trace := trace + [bridges];
      for n := 0 to |nb.ports|
        invariant nb.id in bridges
        invariant bridges == old(bridges)[nb.id := StartApps(bare, nb, nb.ports[..n], broken)]
        invariant Within(bridges, now) && AllWithin(old(trace), trace, now)
      {
        assert nb.ports[..n + 1][..n] == nb.ports[..n];
        if nb.ports[n].role == AppRole {
          LaunchFits(bridges[nb.id], nb, nb.ports[n], broken);
          WithinSet(bridges, now, nb, StartIn(bridges[nb.id], nb, nb.ports[n], broken));
          StartPort(nb, nb.ports[n], broken);
        }
      }
      assert nb.ports[..|nb.ports|] == nb.ports;
    }

    // ── The passes ────────────────────────────────────────────────────

    method FirstPass(bps: seq<BridgePlan>, ghost now: Config, ghost broken: Broken)
      modifies this`bridges, this`trace
      ensures bridges == BridgeSteps(Stops, old(bridges), bps, now, broken)
      ensures Shrinking(old(trace), trace, old(bridges))
    {
      for n := 0 to |bps|
        invariant bridges == BridgeSteps(Stops, old(bridges), bps[..n], now, broken)
        invariant PartOf(bridges, old(bridges)) && Shrinking(old(trace), trace, old(bridges))
      {
        assert bps[..n + 1][..n] == bps[..n];
        ghost var v, mid := bridges, trace;
        StopEntry(bps[n], now, broken);
        StillShrinking(old(trace), mid, trace, v, old(bridges));
        PartOfTrans(bridges, v, old(bridges));
      }
      assert bps[..|bps|] == bps;
    }

    method StopEntry(bp: BridgePlan, ghost now: Config, ghost broken: Broken)
      modifies this`bridges, this`trace
      ensures bridges == Set(old(bridges), bp.id, BridgeStep(Stops, Get(old(bridges), bp.id), bp, now, broken))
      ensures PartOf(bridges, old(bridges)) && Shrinking(old(trace), trace, old(bridges))
    {
      SetGet(bridges, bp.id);
      match bp.action {
        case Stopped => StopBridge(bp.id);
        case Updated =>
          if bp.id in bridges {
            StopPorts(bp, bridges[bp.id].cfg, broken);
          }
        case _ =>
      }
    }

    method SecondPass(bps: seq<BridgePlan>, now: Config, broken: Broken)
      requires Within(bridges, now) && EntriesFit(bps, now)
      modifies this`bridges, this`trace
      ensures bridges == BridgeSteps(Updates, old(bridges), bps, now, broken)
      ensures Within(bridges, now) && AllWithin(old(trace), trace, now)
    {
      for n := 0 to |bps|
        invariant bridges == BridgeSteps(Updates, old(bridges), bps[..n], now, broken)
        invariant Within(bridges, now) && AllWithin(old(trace), trace, now)
      {
        assert bps[..n + 1][..n] == bps[..n];
        UpdateEntry(bps[n], now, broken);
      }
      assert bps[..|bps|] == bps;
    }

    method UpdateEntry(bp: BridgePlan, now: Config, broken: Broken)
      requires Within(bridges, now) && EntryFits(bp, now)
      modifies this`bridges, this`trace
      ensures bridges == Set(old(bridges), bp.id, BridgeStep(Updates, Get(old(bridges), bp.id), bp, now, broken))
      ensures Within(bridges, now) && AllWithin(old(trace), trace, now)
    {
      SetGet(bridges, bp.id);
      var nb := FindBridge(now.bridges, bp.id);
      if bp.action == Updated && nb.Some? && bp.id in bridges {
        FindBridgeExact(now.bridges, bp.id);
        TellSettings(bp, nb.value);
        PartWithin(bridges, old(bridges), now);
        UpdatePorts(bp, nb.value, now, broken);
      }
    }

    method ThirdPass(bps: seq<BridgePlan>, now: Config, broken: Broken)
      requires Within(bridges, now) && EntriesFit(bps, now) && V.WellDefined(now)
      modifies this`bridges, this`trace
      ensures bridges == BridgeSteps(Starts, old(bridges), bps, now, broken)
      ensures Within(bridges, now) && AllWithin(old(trace), trace, now)
    {
      for n := 0 to |bps|
        invariant bridges == BridgeSteps(Starts, old(bridges), bps[..n], now, broken)
        invariant Within(bridges, now) && AllWithin(old(trace), trace, now)
      {
        assert bps[..n + 1][..n] == bps[..n];
        StartEntry(bps[n], now, broken);
      }
      assert bps[..|bps|] == bps;
    }

    method StartEntry(bp: BridgePlan, now: Config, broken: Broken)
      requires Within(bridges, now) && EntryFits(bp, now) && V.WellDefined(now)
      modifies this`bridges, this`trace
      ensures bridges == Set(old(bridges), bp.id, BridgeStep(Starts, Get(old(bridges), bp.id), bp, now, broken))
      ensures Within(bridges, now) && AllWithin(old(trace), trace, now)
    {
      SetGet(bridges, bp.id);
      var nb := FindBridge(now.bridges, bp.id);
      if nb.Some? {
        FindBridgeExact(now.bridges, bp.id);
        match bp.action {
          case Started =>
            ValidUnique(now);
            StartBridge(nb.value, now, broken);
          case Updated => if bp.id in bridges { StartPorts(bp, nb.value, now, broken); }
          case _ =>
        }
      }
    }

    method RefreshAll(now: Config)
      modifies this`bridges, this`trace
      ensures bridges == Refresh(old(bridges), now)
      ensures Shrinking(old(trace), trace, old(bridges))
    {
      var todo := bridges.Keys;
      while |todo| > 0
        invariant bridges.Keys == old(bridges).Keys && todo <= bridges.Keys
        invariant forall id :: id in bridges ==> bridges[id] == if id in todo then old(bridges)[id] else Refreshed(old(bridges)[id], id, now)
        invariant Shrinking(old(trace), trace, old(bridges))
        decreases |todo|
      {
        var id :| id in todo;
        var nb := FindBridge(now.bridges, id);
        if nb.Some? { SetCfg(id, nb.value); }
        todo := todo - {id};
      }
    }

    // ── Reloads ───────────────────────────────────────────────────────

    /** Between reloads; and at no point so far did two bridges hold sockets
        that fight. */
    ghost predicate Valid()
      reads this
    {
      && V.Valid(cfg) && Consistent(bridges, cfg)
      && forall v :: v in trace ==> NoSocketConflict(v)
    }

    constructor (start: Config)
      ensures Valid() && bridges == map[] && trace == []
      ensures cfg == start.(adapters := [], tncs := [], bridges := [])
    {
      cfg := start.(adapters := [], tncs := [], bridges := []);
      bridges := map[];
      trace := [];
      new;
      EmptyValid(cfg);
    }

    method Apply(plan: Plan, now: Config, ghost rt: Runtime, broken: Broken)
      requires Valid() && V.Valid(now) && plan == PlanFor(rt, cfg, now)
      modifies this
      ensures Valid() && cfg == now && bridges == Applied(old(bridges), plan, now, broken)
      ensures forall v :: v in trace ==> v in old(trace) || Within(v, old(cfg)) || Within(v, now)
    {
      ghost var w, was := bridges, cfg;
      PlanEntriesFit(rt, was, now);
      FirstPass(plan.bridges, now, broken);
      StopsWithin(w, rt, was, now, broken);
      ghost var t1 := trace;
      PartsWithin(old(trace), t1, w, was);
      SecondPass(plan.bridges, now, broken);
      ThirdPass(plan.bridges, now, broken);
      ghost var v3, t3 := bridges, trace;
      RefreshAll(now);
      PartsWithin(t3, trace, v3, now);
      ReloadConsistent(w, rt, was, now, broken);
      cfg := now;
      forall v | v in trace ensures NoSocketConflict(v) {
        if v !in old(trace) {
          if Within(v, was) { NoConflict(v, was); } else { NoConflict(v, now); }
        }
      }
    }

    /** Check, plan, and apply unless that would disrupt what it mustn't. */
    method Reload(now: Config, adapterMac: AdapterSel -> Option<Mac>, peerIp: string -> Option<Ip>, nonDisruptive: bool, broken: Broken)
      returns (done: bool)
      requires Valid()
      modifies this
      ensures Valid()
      ensures var plan := PlanFor(RuntimeOf(old(bridges), adapterMac, peerIp), old(cfg), now);
              && (done <==> V.Valid(now) && (nonDisruptive ==> Disruptions(plan) == []))
              && (if done then cfg == now && bridges == Applied(old(bridges), plan, now, broken)
                  else cfg == old(cfg) && bridges == old(bridges))
    {
      var errors := V.Validate(now);
      if errors != [] {
        return false;
      }
      var rt := RuntimeOf(bridges, adapterMac, peerIp);
      var plan := Planner.MakePlan(rt, cfg, now);
      if nonDisruptive && Disruptions(plan) != [] {
        return false;
      }
      Apply(plan, now, rt, broken);
      done := true;
    }

    /** Between reloads, sessions come and go, and the link goes up and down and
        is held or not. */
    method Meanwhile(id: string, sessions: seq<SessionView>, linkUp: bool, held: Option<bool>)
      requires Valid() && id in bridges && SessionsFit(bridges[id].(sessions := sessions))
      modifies this`bridges, this`trace
      ensures Valid() && bridges == old(bridges)[id := old(bridges)[id].(sessions := sessions, linkUp := linkUp, held := held)]
    {
      ghost var w := bridges;
      bridges := bridges[id := bridges[id].(sessions := sessions, linkUp := linkUp, held := held)];
      trace := trace + [bridges];
      PartWithin(bridges, w, cfg);
      NoConflict(bridges, cfg);
    }
  }

  /** What a running daemon meets: a reload, or a bridge whose sessions and link
      are now these. */
  datatype Event =
    | Reloading(now: Config, nonDisruptive: bool, broken: Broken)
    | Changed(bridge: string, sessions: seq<SessionView>, linkUp: bool, held: Option<bool>)

  /** A daemon's life: startup is a reload from the empty config, and whatever
      comes after, the daemon stays consistent with its config and at no point
      do two bridges hold sockets that fight. */
  method Serve(start: Config, broken: Broken, events: seq<Event>, adapterMac: AdapterSel -> Option<Mac>, peerIp: string -> Option<Ip>)
    returns (d: Daemon)
    ensures fresh(d) && d.Valid()
    ensures V.Valid(start) && events == [] ==> d.cfg == start
  {
    d := new Daemon(start);
    var started := d.Reload(start, adapterMac, peerIp, false, broken);
    for n := 0 to |events|
      invariant fresh(d) && d.Valid() && (n == 0 && V.Valid(start) ==> d.cfg == start)
    {
      match events[n] {
        case Reloading(now, nonDisruptive, out) => var done := d.Reload(now, adapterMac, peerIp, nonDisruptive, out);
        case Changed(id, sessions, linkUp, held) =>
          if id in d.bridges && SessionsFit(d.bridges[id].(sessions := sessions)) { d.Meanwhile(id, sessions, linkUp, held); }
      }
    }
  }
}

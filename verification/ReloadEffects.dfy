/** What a reload does: it keeps what runs in line with the config, ends the
    sessions its plan lists, and ends where a fresh start would. */
module ReloadEffects {
  import opened Common
  import opened Sorting
  import opened BridgeState
  import opened Config
  import opened Reconcile
  import opened PlanShape
  import opened Reload
  import opened ReloadFolds
  import Kicks
  import V = Validate

  // ── What runs, and the config it runs under ─────────────────────────

  /** A running port is one the config has; a listener listens where it says. */
  predicate PortFits(rp: Option<RunningPort>, p: Option<Port>) {
    rp.Some? ==>
      && p.Some?
      && match rp.value
         case TncPort => true
         case TcpPort(listen, _, _, _) => p.value.kind.TcpServer? && p.value.kind.listen == listen
         case BlePort(_) => p.value.kind.BleServer?
  }

  ghost predicate PortsFit(rb: RunningBridge, b: Bridge) {
    forall p :: PortFits(PortOf(rb, p), FindPort(b.ports, p))
  }

  /** Sessions are distinct, and on ports that take them. */
  predicate SessionsFit(rb: RunningBridge) {
    && Kicks.Distinguished(rb.sessions)
    && forall x :: x in rb.sessions ==> PortOf(rb, x.id.port).Some? && PortOf(rb, x.id.port) != Some(TncPort)
  }

  ghost predicate Within(w: World, c: Config) {
    forall id :: id in w ==> FindRunning(c, id).Some? && PortsFit(w[id], FindRunning(c, id).value)
  }

  /** What is true of the daemon between reloads. */
  ghost predicate Consistent(w: World, c: Config) {
    && Within(w, c)
    && forall id :: id in w ==> SessionsFit(w[id]) && w[id].cfg == FindRunning(c, id).value
  }

  /** Two bridges never hold sockets that fight. */
  ghost predicate NoSocketConflict(w: World) {
    forall a, b, p, q ::
      (a in w && b in w && a != b && p in w[a].ports && q in w[b].ports && w[a].ports[p].TcpPort? && w[b].ports[q].TcpPort?) ==>
        !ConflictsWith(w[a].ports[p].listen, w[b].ports[q].listen)
  }

  lemma FindPlace(c: Config, id: string) returns (i: nat)
    requires FindRunning(c, id).Some?
    ensures i < |c.bridges| && c.bridges[i] == FindRunning(c, id).value && c.bridges[i].id == id && c.bridges[i].enabled
  {
    FindBridgeExact(c.bridges, id);
    i :| 0 <= i < |c.bridges| && c.bridges[i] == FindRunning(c, id).value;
  }

  lemma FindPortPlace(b: Bridge, id: string) returns (i: nat)
    requires FindPort(b.ports, id).Some?
    ensures i < |b.ports| && b.ports[i] == FindPort(b.ports, id).value
  {
    FindPortExact(b.ports, id);
    i :| 0 <= i < |b.ports| && b.ports[i] == FindPort(b.ports, id).value;
  }

  lemma ConflictSymmetric(a: Listen, b: Listen)
    ensures ConflictsWith(a, b) == ConflictsWith(b, a)
  {
  }

  lemma NoConflictOf(w: World, c: Config, a: string, b: string, p: string, q: string)
    requires V.Valid(c) && Within(w, c)
    requires a in w && b in w && a != b && p in w[a].ports && q in w[b].ports
    requires w[a].ports[p].TcpPort? && w[b].ports[q].TcpPort?
    ensures !ConflictsWith(w[a].ports[p].listen, w[b].ports[q].listen)
  {
    var i := FindPlace(c, a);
    var j := FindPlace(c, b);
    assert PortFits(PortOf(w[a], p), FindPort(c.bridges[i].ports, p));
    assert PortFits(PortOf(w[b], q), FindPort(c.bridges[j].ports, q));
    var m := FindPortPlace(c.bridges[i], p);
    var n := FindPortPlace(c.bridges[j], q);
    ConflictSymmetric(w[a].ports[p].listen, w[b].ports[q].listen);
    if i < j {
      assert !V.Exclusive(c.bridges[i], c.bridges[j]);
      assert !V.BridgesClash(c.bridges[i], c.bridges[j], V.SameListen(m, n));
    } else {
      assert !V.Exclusive(c.bridges[j], c.bridges[i]);
      assert !V.BridgesClash(c.bridges[j], c.bridges[i], V.SameListen(n, m));
    }
  }

  /** Running within a valid config, no two bridges fight over a socket. */
  lemma NoConflict(w: World, c: Config)
    requires V.Valid(c) && Within(w, c)
    ensures NoSocketConflict(w)
  {
    forall a, b, p, q | a in w && b in w && a != b && p in w[a].ports && q in w[b].ports
        && w[a].ports[p].TcpPort? && w[b].ports[q].TcpPort?
      ensures !ConflictsWith(w[a].ports[p].listen, w[b].ports[q].listen)
    {
      NoConflictOf(w, c, a, b, p, q);
    }
  }

  // ── One port ────────────────────────────────────────────────────────

  lemma KeptPort(rt: Runtime, bridge: string, op: Port, np: Port)
    requires PlanPort(rt, bridge, op, np).action != Restarted
    ensures op.role == np.role && SameKind(op.kind, np.kind)
    ensures op.kind.TcpServer? ==> op.kind.listen == np.kind.listen
    ensures PlanPort(rt, bridge, op, np).action == Unchanged && op.kind.TcpServer? ==> op.kind == np.kind
    ensures PlanPort(rt, bridge, op, np).action == Unchanged && op.kind.BleServer? ==> op.kind.maxPhones == np.kind.maxPhones
    ensures PlanPort(rt, bridge, op, np).action == Unchanged ==> PlanPort(rt, bridge, op, np).disconnects == []
  {
  }

  /** From the first pass on, a running port is one the new config has. */
  lemma PortThrough(rt: Runtime, ob: Bridge, nb: Bridge, p: string, pp: PortPlan, rp: Option<RunningPort>, broken: Broken)
    requires PortEntry(rt, ob, nb, p) == Some(pp) && pp.id == p && PortFits(rp, FindPort(ob.ports, p))
    ensures PortFits(PortAfter(Stops, rp, pp, nb, broken), FindPort(nb.ports, p))
  {
    var op, np := FindPort(ob.ports, p), FindPort(nb.ports, p);
    if op.Some? && np.Some? && pp.action != Restarted { KeptPort(rt, ob.id, op.value, np.value); }
  }

  lemma PortStays(pass: Pass, p: string, pp: PortPlan, rp: Option<RunningPort>, nb: Bridge, broken: Broken)
    requires pp.id == p && PortFits(rp, FindPort(nb.ports, p))
    ensures PortFits(PortAfter(pass, rp, pp, nb, broken), FindPort(nb.ports, p))
  {
  }

  // ── One bridge that stays ───────────────────────────────────────────

  /** The ports' entries, with what is known of them. */
  ghost predicate Planned(rt: Runtime, ob: Bridge, nb: Bridge, bp: BridgePlan) {
    && bp == PlanBridge(rt, ob, nb) && ob.id == nb.id
    && UniquePlans(bp.ports)
    && forall pp: PortPlan :: pp in bp.ports <==> PortEntry(rt, ob, nb, pp.id) == Some(pp)
  }

  lemma EntryIds(rt: Runtime, ob: Bridge, nb: Bridge, p: string)
    ensures PortEntry(rt, ob, nb, p).Some? ==> PortEntry(rt, ob, nb, p).value.id == p
  {
    FindPortExact(ob.ports, p);
    FindPortExact(nb.ports, p);
  }

  lemma NoEntry(rt: Runtime, ob: Bridge, nb: Bridge, bp: BridgePlan, p: string)
    requires Planned(rt, ob, nb, bp) && PortEntry(rt, ob, nb, p).None?
    ensures forall pp :: pp in bp.ports ==> pp.id != p
  {
    forall pp | pp in bp.ports ensures pp.id != p { assert PortEntry(rt, ob, nb, pp.id) == Some(pp); }
  }

  function AfterPass(pass: Pass, rb: RunningBridge, bp: BridgePlan, nb: Bridge, broken: Broken): RunningBridge {
    if bp.action == Updated
    then PortSteps(pass, if pass == Updates then Told(rb, bp, nb) else rb, bp.ports, nb, broken)
    else rb
  }

  /** What a pass leaves of a port: its entry's doing, also when the whole
      bridge is unchanged. */
  lemma PassPort(pass: Pass, rt: Runtime, ob: Bridge, nb: Bridge, bp: BridgePlan, rb: RunningBridge, broken: Broken, p: string)
    requires Planned(rt, ob, nb, bp)
    ensures var e := PortEntry(rt, ob, nb, p);
            PortOf(AfterPass(pass, rb, bp, nb, broken), p) ==
            if e.Some? then PortAfter(pass, PortOf(rb, p), e.value, nb, broken) else PortOf(rb, p)
  {
    var e := PortEntry(rt, ob, nb, p);
    if e.None? {
      NoEntry(rt, ob, nb, bp, p);
      PassOther(pass, bp, rb, nb, broken, p);
    } else {
      EntryIds(rt, ob, nb, p);
      assert e.value in bp.ports;
      PassOwn(pass, bp, rb, nb, broken, e.value);
    }
  }

  lemma PassOther(pass: Pass, bp: BridgePlan, rb: RunningBridge, nb: Bridge, broken: Broken, p: string)
    requires forall pp :: pp in bp.ports ==> pp.id != p
    ensures PortOf(AfterPass(pass, rb, bp, nb, broken), p) == PortOf(rb, p)
  {
    OtherPort(pass, if pass == Updates then Told(rb, bp, nb) else rb, bp.ports, nb, broken, p);
  }

  lemma PassOwn(pass: Pass, bp: BridgePlan, rb: RunningBridge, nb: Bridge, broken: Broken, pp: PortPlan)
    requires UniquePlans(bp.ports) && pp in bp.ports && (bp.action == Updated || AllUnchanged(bp.ports))
    ensures PortOf(AfterPass(pass, rb, bp, nb, broken), pp.id) == PortAfter(pass, PortOf(rb, pp.id), pp, nb, broken)
  {
    if bp.action == Updated { OwnPort(pass, if pass == Updates then Told(rb, bp, nb) else rb, bp.ports, nb, broken, pp); }
  }

  lemma StopsFit(rt: Runtime, ob: Bridge, nb: Bridge, bp: BridgePlan, rb: RunningBridge, broken: Broken)
    requires Planned(rt, ob, nb, bp) && PortsFit(rb, ob)
    ensures PortsFit(AfterPass(Stops, rb, bp, nb, broken), nb)
  {
    forall p ensures PortFits(PortOf(AfterPass(Stops, rb, bp, nb, broken), p), FindPort(nb.ports, p)) {
      PassPort(Stops, rt, ob, nb, bp, rb, broken, p);
      EntryIds(rt, ob, nb, p);
      var e := PortEntry(rt, ob, nb, p);
      assert PortFits(PortOf(rb, p), FindPort(ob.ports, p));
      if e.Some? { PortThrough(rt, ob, nb, p, e.value, PortOf(rb, p), broken); }
    }
  }

  lemma PassFits(pass: Pass, rt: Runtime, ob: Bridge, nb: Bridge, bp: BridgePlan, rb: RunningBridge, broken: Broken)
    requires Planned(rt, ob, nb, bp) && PortsFit(rb, nb)
    ensures PortsFit(AfterPass(pass, rb, bp, nb, broken), nb)
  {
    forall p ensures PortFits(PortOf(AfterPass(pass, rb, bp, nb, broken), p), FindPort(nb.ports, p)) {
      PassPort(pass, rt, ob, nb, bp, rb, broken, p);
      EntryIds(rt, ob, nb, p);
      var e := PortEntry(rt, ob, nb, p);
      assert PortFits(PortOf(rb, p), FindPort(nb.ports, p));
      if e.Some? { PortStays(pass, p, e.value, PortOf(rb, p), nb, broken); }
    }
  }

  /** The three passes over a bridge that stays. */
  function Through(rb: RunningBridge, bp: BridgePlan, nb: Bridge, broken: Broken): RunningBridge {
    var stopped := AfterPass(Stops, rb, bp, nb, broken);
    var updated := AfterPass(Updates, stopped, bp, nb, broken).(cfg := nb);
    AfterPass(Starts, updated, bp, nb, broken)
  }

  /** The first pass looks only at what runs. */
  lemma {:induction false} StopsLookBack(rb: RunningBridge, pps: seq<PortPlan>, b: Bridge, nb: Bridge, broken: Broken)
    ensures PortSteps(Stops, rb, pps, b, broken) == PortSteps(Stops, rb, pps, nb, broken)
  {
    if |pps| > 0 {
      StopsLookBack(rb, pps[..|pps| - 1], b, nb, broken);
      var before := PortSteps(Stops, rb, pps[..|pps| - 1], b, broken);
      SameWithout(before.sessions, PortOf(before, pps[|pps| - 1].id), pps[|pps| - 1], b, nb);
    }
  }

  lemma {:induction false} SameWithout(s: seq<SessionView>, rp: Option<RunningPort>, pp: PortPlan, b: Bridge, nb: Bridge)
    ensures Without(s, Stops, rp, pp, b) == Without(s, Stops, rp, pp, nb)
  {
    if |s| > 0 { SameWithout(s[..|s| - 1], rp, pp, b, nb); }
  }

  lemma AfterIsThrough(rb: RunningBridge, bp: BridgePlan, now: Config, nb: Bridge, broken: Broken)
    requires bp.action == Updated || bp.action == Unchanged
    requires FindBridge(now.bridges, bp.id) == Some(nb)
    ensures RefreshedOption(BridgeAfter(Some(rb), bp, now, broken), bp.id, now) == Some(Through(rb, bp, nb, broken))
  {
    if bp.action == Updated {
      StopsLookBack(rb, bp.ports, rb.cfg, nb, broken);
      var stopped := PortSteps(Stops, rb, bp.ports, nb, broken);
      var updated := PortSteps(Updates, Told(stopped, bp, nb), bp.ports, nb, broken).(cfg := nb);
      StepsKeep(Starts, updated, bp.ports, nb, broken);
    }
  }

  // ── A bridge that starts ────────────────────────────────────────────

  /** What a port of a started bridge is. */
  function AppPort(p: Option<Port>, was: Option<RunningPort>, bridge: string, broken: Broken): Option<RunningPort> {
    if p.Some? && p.value.role == AppRole then Launched(was, p.value, (bridge, p.value.id) in broken) else was
  }

  lemma FindLast(ports: seq<Port>, p: string)
    requires |ports| > 0 && UniquePorts(ports)
    ensures UniquePorts(ports[..|ports| - 1])
    ensures FindPort(ports, p) ==
            if ports[|ports| - 1].id == p then Some(ports[|ports| - 1]) else FindPort(ports[..|ports| - 1], p)
  {
    var init, last := ports[..|ports| - 1], ports[|ports| - 1];
    assert ports == init + [last];
    FindPortExact(ports, p);
    FindPortExact(init, p);
  }

  lemma AppStarted(before: RunningBridge, last: Port, broken: bool, p: string)
    ensures var after := before.(ports := SetPort(before.ports, last.id, Launched(PortOf(before, last.id), last, broken)));
            PortOf(after, p) == if p == last.id then Launched(PortOf(before, p), last, broken) else PortOf(before, p)
  {
  }

  lemma {:induction false} AppsStarted(rb: RunningBridge, nb: Bridge, ports: seq<Port>, broken: Broken, p: string)
    requires UniquePorts(ports)
    ensures var after := StartApps(rb, nb, ports, broken);
            && after == rb.(ports := after.ports)
            && PortOf(after, p) == AppPort(FindPort(ports, p), PortOf(rb, p), nb.id, broken)
  {
    if |ports| > 0 {
      var init, last := ports[..|ports| - 1], ports[|ports| - 1];
      FindLast(ports, p);
      FindLast(ports, last.id);
      AppsStarted(rb, nb, init, broken, p);
      var before := StartApps(rb, nb, init, broken);
      AppStarted(before, last, (nb.id, last.id) in broken, p);
      if p == last.id { NotBefore(ports); }
    }
  }

  lemma NotBefore(ports: seq<Port>)
    requires |ports| > 0 && UniquePorts(ports)
    ensures FindPort(ports[..|ports| - 1], ports[|ports| - 1].id).None?
  {
    FindPortExact(ports[..|ports| - 1], ports[|ports| - 1].id);
  }

  lemma {:induction false} FirstTncExact(ports: seq<Port>)
    ensures FirstTnc(ports).Some? ==> FirstTnc(ports).value in ports && FirstTnc(ports).value.role == TncRole
    ensures FirstTnc(ports).None? ==> forall p :: p in ports ==> p.role == AppRole
  {
    if |ports| > 0 && ports[0].role != TncRole { FirstTncExact(ports[1..]); }
  }

  lemma StartedPort(nb: Bridge, broken: Broken, p: string)
    requires UniquePorts(nb.ports) && BridgeStarted(None, nb, broken).Some?
    ensures var rb, tnc := BridgeStarted(None, nb, broken).value, FirstTnc(nb.ports).value;
            && rb.cfg == nb && rb.sessions == []
            && PortOf(rb, p) == if p == tnc.id then Some(TncPort) else AppPort(FindPort(nb.ports, p), None, nb.id, broken)
  {
    var tnc := FirstTnc(nb.ports).value;
    FirstTncExact(nb.ports);
    FindPortExact(nb.ports, p);
    AppsStarted(Bare(nb, tnc), nb, nb.ports, broken, p);
  }

  lemma StartedFits(nb: Bridge, broken: Broken)
    requires UniquePorts(nb.ports) && BridgeStarted(None, nb, broken).Some?
    ensures var rb := BridgeStarted(None, nb, broken).value;
            PortsFit(rb, nb) && SessionsFit(rb) && rb.cfg == nb
  {
    var rb := BridgeStarted(None, nb, broken).value;
    forall p ensures PortFits(PortOf(rb, p), FindPort(nb.ports, p)) {
      StartedPort(nb, broken, p);
      FirstTncExact(nb.ports);
      FindPortExact(nb.ports, p);
    }
    StartedPort(nb, broken, "");
  }

  // ── The whole daemon ────────────────────────────────────────────────

  /** What a reload makes of each bridge. */
  function AfterOf(w: World, rt: Runtime, was: Config, now: Config, broken: Broken, id: string): Option<RunningBridge> {
    match (FindRunning(was, id), FindRunning(now, id))
    case (Some(ob), Some(nb)) => if id in w then Some(Through(w[id], PlanBridge(rt, ob, nb), nb, broken)) else None
    case (None, Some(nb)) => BridgeStarted(None, nb, broken)
    case (_, None) => None
  }

  lemma StartKeepsCfg(w: World, nb: Bridge, now: Config, broken: Broken, id: string)
    requires UniquePorts(nb.ports) && FindBridge(now.bridges, id) == Some(nb)
    ensures RefreshedOption(BridgeStarted(None, nb, broken), id, now) == BridgeStarted(None, nb, broken)
  {
    if BridgeStarted(None, nb, broken).Some? { StartedPort(nb, broken, ""); }
  }

  lemma EntryAfter(w: World, rt: Runtime, was: Config, now: Config, broken: Broken, id: string, bp: BridgePlan)
    requires UniqueBridges(was.bridges) && UniqueBridges(now.bridges) && (forall b :: b in now.bridges ==> UniquePorts(b.ports))
    requires BridgeEntry(rt, was, now, id) == Some(bp) && bp.id == id
    requires id in w ==> FindRunning(was, id).Some?
    ensures RefreshedOption(BridgeAfter(Get(w, id), bp, now, broken), id, now) == AfterOf(w, rt, was, now, broken, id)
  {
    FindBridgeExact(now.bridges, id);
    match (FindRunning(was, id), FindRunning(now, id))
    case (Some(ob), Some(nb)) => if id in w { AfterIsThrough(w[id], bp, now, nb, broken); }
    case (None, Some(nb)) => StartKeepsCfg(w, nb, now, broken, id);
    case (_, None) =>
  }

  lemma EntryId(rt: Runtime, was: Config, now: Config, id: string)
    ensures BridgeEntry(rt, was, now, id).Some? ==> BridgeEntry(rt, was, now, id).value.id == id
  {
    FindBridgeExact(was.bridges, id);
    FindBridgeExact(now.bridges, id);
  }

  lemma AppliedExact(w: World, rt: Runtime, was: Config, now: Config, broken: Broken, id: string)
    requires V.WellDefined(was) && V.WellDefined(now) && Within(w, was)
    ensures Get(Applied(w, PlanFor(rt, was, now), now, broken), id) == AfterOf(w, rt, was, now, broken, id)
  {
    var plan := PlanFor(rt, was, now);
    ValidUnique(was);
    ValidUnique(now);
    PlanExact(rt, was, now);
    EntryId(rt, was, now, id);
    var e := BridgeEntry(rt, was, now, id);
    if e.None? {
      forall bp | bp in plan.bridges ensures bp.id != id { assert BridgeEntry(rt, was, now, bp.id) == Some(bp); }
      AppliedToOther(w, plan, now, broken, id);
    } else {
      AppliedToBridge(w, plan, now, broken, e.value);
      EntryAfter(w, rt, was, now, broken, id, e.value);
    }
  }

  lemma PlannedBridge(rt: Runtime, was: Config, now: Config, id: string, ob: Bridge, nb: Bridge)
    requires V.WellDefined(was) && V.WellDefined(now)
    requires FindRunning(was, id) == Some(ob) && FindRunning(now, id) == Some(nb)
    ensures Planned(rt, ob, nb, PlanBridge(rt, ob, nb)) && ob.id == id
  {
    ValidUnique(was);
    ValidUnique(now);
    FindBridgeExact(was.bridges, id);
    FindBridgeExact(now.bridges, id);
    PortPlansExact(rt, ob, nb);
  }
}

/** Where a reload ends up when ports keep their roles: which bridges run, and
    with which ports; and how exact its plan then is. */
module ReloadSettled {
  import opened Common
  import opened BridgeState
  import opened Config
  import opened Reconcile
  import opened PlanShape
  import opened Reload
  import opened ReloadFolds
  import opened ReloadEffects
  import opened ReloadResults
  import Kicks
  import V = Validate

  /** What a fresh start makes of a port; a `ble-server` may be waiting for an
      adapter. */
  predicate SettledPort(rp: Option<RunningPort>, p: Option<Port>) {
    if p.None? then rp.None?
    else if p.value.role == TncRole then rp == Some(TncPort)
    else
      match p.value.kind
      case TcpServer(listen, max, allow, announce) => rp == Some(TcpPort(listen, max, allow, announce))
      case BleServer(_, max) => rp.None? || rp == Some(BlePort(max))
      case _ => rp.None?
  }

  ghost predicate SettledBridge(rb: RunningBridge, b: Bridge) {
    forall p :: SettledPort(PortOf(rb, p), FindPort(b.ports, p))
  }

  ghost predicate Settled(w: World, c: Config) {
    forall id :: id in w ==> FindRunning(c, id).Some? && SettledBridge(w[id], FindRunning(c, id).value)
  }

  /** Ports keep their roles, and a port that is new is an app port. */
  predicate SteadyPort(op: Option<Port>, np: Option<Port>) {
    np.Some? ==> if op.Some? then op.value.role == np.value.role else np.value.role == AppRole
  }

  ghost predicate Steady(was: Config, now: Config) {
    forall id, p :: FindRunning(was, id).Some? && FindRunning(now, id).Some? ==>
      SteadyPort(FindPort(FindRunning(was, id).value.ports, p), FindPort(FindRunning(now, id).value.ports, p))
  }

  // ── A bridge that stays ─────────────────────────────────────────────

  function PortThroughAll(rp: Option<RunningPort>, pp: PortPlan, nb: Bridge, broken: Broken): Option<RunningPort> {
    PortAfter(Starts, PortAfter(Updates, PortAfter(Stops, rp, pp, nb, broken), pp, nb, broken), pp, nb, broken)
  }

  lemma KeptPortSettles(rt: Runtime, nb: Bridge, op: Port, np: Port, rp: Option<RunningPort>, broken: Broken)
    requires FindPort(nb.ports, np.id) == Some(np) && op.role == np.role && SettledPort(rp, Some(op))
    requires PlanPort(rt, nb.id, op, np).action != Restarted
    ensures SettledPort(PortThroughAll(rp, PlanPort(rt, nb.id, op, np), nb, broken), Some(np))
  {
    KeptPort(rt, nb.id, op, np);
  }

  lemma RestartedPortSettles(rt: Runtime, nb: Bridge, op: Port, np: Port, rp: Option<RunningPort>, broken: Broken)
    requires FindPort(nb.ports, np.id) == Some(np) && op.role == np.role && SettledPort(rp, Some(op))
    requires PlanPort(rt, nb.id, op, np).action == Restarted
    ensures SettledPort(PortThroughAll(rp, PlanPort(rt, nb.id, op, np), nb, broken), Some(np))
  {
    assert np.role == TncRole ==> rp == Some(TncPort);
    assert np.role == AppRole ==> rp != Some(TncPort);
  }

  lemma PortSettles(rt: Runtime, ob: Bridge, nb: Bridge, p: string, rp: Option<RunningPort>, broken: Broken)
    requires ob.id == nb.id && SettledPort(rp, FindPort(ob.ports, p)) && SteadyPort(FindPort(ob.ports, p), FindPort(nb.ports, p))
    ensures var e := PortEntry(rt, ob, nb, p);
            SettledPort(if e.Some? then PortThroughAll(rp, e.value, nb, broken) else rp, FindPort(nb.ports, p))
  {
    FindPortExact(ob.ports, p);
    FindPortExact(nb.ports, p);
    match (FindPort(ob.ports, p), FindPort(nb.ports, p))
    case (Some(op), Some(np)) =>
      if PlanPort(rt, ob.id, op, np).action == Restarted {
        RestartedPortSettles(rt, nb, op, np, rp, broken);
      } else {
        KeptPortSettles(rt, nb, op, np, rp, broken);
      }
    case (Some(op), None) =>
    case (None, _) =>
  }

  lemma ThroughSettles(rt: Runtime, ob: Bridge, nb: Bridge, bp: BridgePlan, rb: RunningBridge, broken: Broken)
    requires Planned(rt, ob, nb, bp) && SettledBridge(rb, ob)
    requires forall p :: SteadyPort(FindPort(ob.ports, p), FindPort(nb.ports, p))
    ensures SettledBridge(Through(rb, bp, nb, broken), nb)
  {
    var stopped := AfterPass(Stops, rb, bp, nb, broken);
    var updated := AfterPass(Updates, stopped, bp, nb, broken).(cfg := nb);
    forall p ensures SettledPort(PortOf(Through(rb, bp, nb, broken), p), FindPort(nb.ports, p)) {
      assert SettledPort(PortOf(rb, p), FindPort(ob.ports, p));
      PassPort(Stops, rt, ob, nb, bp, rb, broken, p);
      PassPort(Updates, rt, ob, nb, bp, stopped, broken, p);
      PassPort(Starts, rt, ob, nb, bp, updated, broken, p);
      PortSettles(rt, ob, nb, p, PortOf(rb, p), broken);
    }
  }

  // ── A bridge that starts ────────────────────────────────────────────

  lemma {:induction false} NoneOfRole(ports: seq<Port>, role: Role)
    requires CountRole(ports, role) == 0
    ensures forall p :: p in ports ==> p.role != role
  {
    if |ports| > 0 {
      NoneOfRole(ports[..|ports| - 1], role);
      assert ports == ports[..|ports| - 1] + [ports[|ports| - 1]];
    }
  }

  lemma {:induction false} OneOfRole(ports: seq<Port>, role: Role)
    requires CountRole(ports, role) == 1
    ensures forall p, q :: p in ports && q in ports && p.role == role && q.role == role ==> p == q
  {
    var init, last := ports[..|ports| - 1], ports[|ports| - 1];
    assert ports == init + [last];
    if last.role == role { NoneOfRole(init, role); } else { OneOfRole(init, role); }
  }

  lemma StartSettles(nb: Bridge, broken: Broken)
    requires UniquePorts(nb.ports) && Complete(nb) && BridgeStarted(None, nb, broken).Some?
    ensures SettledBridge(BridgeStarted(None, nb, broken).value, nb)
  {
    var rb := BridgeStarted(None, nb, broken).value;
    FirstTncExact(nb.ports);
    OneOfRole(nb.ports, TncRole);
    forall p ensures SettledPort(PortOf(rb, p), FindPort(nb.ports, p)) {
      StartedPort(nb, broken, p);
      FindPortExact(nb.ports, p);
    }
  }

  // ── The daemon ──────────────────────────────────────────────────────

  lemma AfterSettles(w: World, rt: Runtime, was: Config, now: Config, broken: Broken, id: string)
    requires V.Valid(was) && V.Valid(now) && Within(w, was) && Settled(w, was) && Steady(was, now)
    requires AfterOf(w, rt, was, now, broken, id).Some?
    ensures FindRunning(now, id).Some?
    ensures SettledBridge(AfterOf(w, rt, was, now, broken, id).value, FindRunning(now, id).value)
  {
    var nb := FindRunning(now, id).value;
    if FindRunning(was, id).Some? {
      var ob := FindRunning(was, id).value;
      PlannedBridge(rt, was, now, id, ob, nb);
      ThroughSettles(rt, ob, nb, PlanBridge(rt, ob, nb), w[id], broken);
    } else {
      ValidUnique(now);
      FindBridgeExact(now.bridges, id);
      StartSettles(nb, broken);
    }
  }

  /** A bridge that has what it takes to start. */
  predicate Startable(b: Bridge, broken: Broken) {
    FirstTnc(b.ports).Some? && CanConnect(b, FirstTnc(b.ports).value, broken)
  }

  /** A bridge runs after a reload when the new config enables it and it ran
      before or is newly enabled and can start. One that couldn't start before
      isn't tried again. */
  ghost predicate RunsAfter(w: World, was: Config, now: Config, broken: Broken, id: string) {
    && FindRunning(now, id).Some?
    && if FindRunning(was, id).Some? then id in w else Startable(FindRunning(now, id).value, broken)
  }

  lemma WhichRun(w: World, rt: Runtime, was: Config, now: Config, broken: Broken, id: string)
    requires V.WellDefined(was) && V.WellDefined(now) && Within(w, was)
    ensures id in Applied(w, PlanFor(rt, was, now), now, broken) <==> RunsAfter(w, was, now, broken, id)
  {
    AppliedExact(w, rt, was, now, broken, id);
  }

  /** From settled to settled, through any change that keeps roles: exactly the
      bridges of `RunsAfter` run, each with a TNC port and the app ports a fresh
      start would give it, none left as the old config had it. What the TNC
      port dials and is told is the matter of `ReloadTnc`. */
  lemma ReloadSettles(w: World, rt: Runtime, was: Config, now: Config, broken: Broken)
    requires V.Valid(was) && V.Valid(now) && Consistent(w, was) && Settled(w, was) && Steady(was, now)
    ensures var after := Applied(w, PlanFor(rt, was, now), now, broken);
            Settled(after, now) && forall id :: id in after <==> RunsAfter(w, was, now, broken, id)
  {
    var after := Applied(w, PlanFor(rt, was, now), now, broken);
    forall id ensures id in after <==> RunsAfter(w, was, now, broken, id) { WhichRun(w, rt, was, now, broken, id); }
    forall id | id in after ensures FindRunning(now, id).Some? && SettledBridge(after[id], FindRunning(now, id).value) {
      AppliedExact(w, rt, was, now, broken, id);
      assert Get(after, id) == Some(after[id]);
      AfterSettles(w, rt, was, now, broken, id);
    }
  }

  lemma AllListed(w: World, rt: Runtime, was: Config, now: Config, id: string, x: SessionView)
    requires Consistent(w, was) && Settled(w, was) && Steady(was, now) && HasSession(w, id, x)
    ensures !Unlisted(rt, was, now, id, x.id)
  {
    var ob := FindRunning(was, id).value;
    assert SettledPort(PortOf(w[id], x.id.port), FindPort(ob.ports, x.id.port));
    if FindRunning(now, id).Some? {
      assert SteadyPort(FindPort(ob.ports, x.id.port), FindPort(FindRunning(now, id).value.ports, x.id.port));
    }
  }

  lemma NoUnlistedLink(w: World, rt: Runtime, was: Config, now: Config, broken: Broken, id: string, p: string)
    requires Settled(w, was) && Steady(was, now)
    ensures !UnlistedLink(rt, was, now, w, broken, id, p)
  {
    if id in w && FindRunning(now, id).Some? {
      var ob := FindRunning(was, id).value;
      assert SettledPort(PortOf(w[id], p), FindPort(ob.ports, p));
      assert SteadyPort(FindPort(ob.ports, p), FindPort(FindRunning(now, id).value.ports, p));
    }
  }

  /** When ports keep their roles, a reload ends exactly the sessions its plan
      lists... */
  lemma PlanIsExact(w: World, adapterMac: AdapterSel -> Option<Mac>, peerIp: string -> Option<Ip>,
                    was: Config, now: Config, broken: Broken, id: string, x: SessionView)
    requires V.Valid(was) && V.Valid(now) && Consistent(w, was) && Settled(w, was) && Steady(was, now)
    requires HasSession(w, id, x)
    ensures var plan := PlanFor(RuntimeOf(w, adapterMac, peerIp), was, now);
            !HasSession(Applied(w, plan, now, broken), id, x) <==> Lists(plan, id, x.id)
  {
    SessionsEnded(w, adapterMac, peerIp, was, now, broken, id, x);
    AllListed(w, RuntimeOf(w, adapterMac, peerIp), was, now, id, x);
  }

  lemma EndedIfAll(w: World, rt: Runtime, was: Config, now: Config, broken: Broken, id: string, x: SessionView)
    requires V.Valid(was) && V.Valid(now) && Consistent(w, was) && HasSession(w, id, x) && FindRunning(now, id).Some?
    requires AllEnd(rt, FindRunning(was, id).value, FindRunning(now, id).value, w[id])
    ensures !HasSession(Applied(w, PlanFor(rt, was, now), now, broken), id, x)
  {
    var ob, nb := FindRunning(was, id).value, FindRunning(now, id).value;
    AppliedExact(w, rt, was, now, broken, id);
    PlannedBridge(rt, was, now, id, ob, nb);
    SessionThrough(rt, ob, nb, PlanBridge(rt, ob, nb), w[id], broken, x);
  }

  /** While no session ends, a link goes only if there was none. */
  lemma NoSessions(w: World, rt: Runtime, was: Config, now: Config, broken: Broken, id: string)
    requires V.Valid(was) && V.Valid(now) && Consistent(w, was) && id in w
    requires forall x :: HasSession(w, id, x) ==> HasSession(Applied(w, PlanFor(rt, was, now), now, broken), id, x)
    ensures !LastDrop(rt, was, now, w, id)
    ensures SettingsDrop(rt, was, now, w, id) ==> |w[id].sessions| == 0
  {
    if FindRunning(now, id).Some? && |w[id].sessions| > 0 {
      var x := w[id].sessions[0];
      var ob, nb := FindRunning(was, id).value, FindRunning(now, id).value;
      assert HasSession(w, id, x);
      assert AllStop(rt, ob, nb, w[id]) ==> AllEnd(rt, ob, nb, w[id]);
      if AllEnd(rt, ob, nb, w[id]) { EndedIfAll(w, rt, was, now, broken, id, x); }
    }
  }

  /** ...and one whose plan isn't disruptive ends none. It drops a link in use
      only where nobody uses it: with no session there, and new settings that
      no longer keep it up. */
  lemma NothingDisrupted(w: World, adapterMac: AdapterSel -> Option<Mac>, peerIp: string -> Option<Ip>,
                         was: Config, now: Config, broken: Broken)
    requires V.Valid(was) && V.Valid(now) && Consistent(w, was) && Settled(w, was) && Steady(was, now)
    requires Disruptions(PlanFor(RuntimeOf(w, adapterMac, peerIp), was, now)) == []
    ensures var rt := RuntimeOf(w, adapterMac, peerIp); var after := Applied(w, PlanFor(rt, was, now), now, broken);
            && (forall id, x :: HasSession(w, id, x) ==> HasSession(after, id, x))
            && (forall id :: id in w && w[id].linkUp ==>
                  (LinkDropped(w, after, id) <==> |w[id].sessions| == 0 && SettingsDrop(rt, was, now, w, id)))
  {
    var rt := RuntimeOf(w, adapterMac, peerIp);
    var after := Applied(w, PlanFor(rt, was, now), now, broken);
    NonDisruptive(w, adapterMac, peerIp, was, now, broken);
    forall id, x | HasSession(w, id, x) ensures HasSession(after, id, x) { AllListed(w, rt, was, now, id, x); }
    forall id | id in w && w[id].linkUp
      ensures LinkDropped(w, after, id) <==> |w[id].sessions| == 0 && SettingsDrop(rt, was, now, w, id)
    {
      forall p ensures !UnlistedLink(rt, was, now, w, broken, id, p) { NoUnlistedLink(w, rt, was, now, broken, id, p); }
      NoSessions(w, rt, was, now, broken, id);
    }
  }
}

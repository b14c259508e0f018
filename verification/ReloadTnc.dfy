/** What a bridge that stays through a reload tells its TNC port and dials, when
    ports keep their roles. */
module ReloadTnc {
  import opened Common
  import opened BridgeState
  import opened Config
  import opened Reconcile
  import opened PlanShape
  import opened Reload
  import opened ReloadFolds
  import opened ReloadEffects
  import opened ReloadResults
  import opened ReloadSettled
  import V = Validate

  // ── The TNC's settings ──────────────────────────────────────────────

  /** The bridge has been told what its config says. */
  predicate Current(rb: RunningBridge, b: Bridge) {
    SettingsFor(b) == Some(rb.settings)
  }

  /** What a bridge that stays was last told. */
  lemma SettingsThrough(rt: Runtime, ob: Bridge, nb: Bridge, bp: BridgePlan, rb: RunningBridge, broken: Broken)
    requires Planned(rt, ob, nb, bp)
    ensures Through(rb, bp, nb, broken).settings == SettingsAfter(rt, ob, nb, rb)
  {
    var stopped := AfterPass(Stops, rb, bp, nb, broken);
    NewsIff(rt, ob, nb, bp, rb, broken);
    StepsKeep(Stops, rb, bp.ports, nb, broken);
    StepsKeep(Updates, Told(stopped, bp, nb), bp.ports, nb, broken);
    StepsKeep(Starts, AfterPass(Updates, stopped, bp, nb, broken).(cfg := nb), bp.ports, nb, broken);
  }

  /** The TNC port of a settled bridge, before and after. */
  lemma SameTnc(ob: Bridge, nb: Bridge, rb: RunningBridge)
    requires Complete(ob) && Complete(nb) && UniquePorts(ob.ports) && UniquePorts(nb.ports) && SettledBridge(rb, ob)
    requires forall p :: SteadyPort(FindPort(ob.ports, p), FindPort(nb.ports, p))
    ensures FirstTnc(ob.ports).Some? && FirstTnc(nb.ports).Some?
    ensures var o, n := FirstTnc(ob.ports).value, FirstTnc(nb.ports).value;
            && o.id == n.id && FindPort(ob.ports, o.id) == Some(o) && FindPort(nb.ports, n.id) == Some(n)
            && forall p :: PortOf(rb, p) == Some(TncPort) <==> p == o.id
  {
    FirstTncExact(ob.ports);
    FirstTncExact(nb.ports);
    OneOfRole(ob.ports, TncRole);
    SomeOfRole(ob.ports, TncRole);
    SomeOfRole(nb.ports, TncRole);
    var o, n := FirstTnc(ob.ports).value, FirstTnc(nb.ports).value;
    FindPortExact(ob.ports, o.id);
    FindPortExact(nb.ports, n.id);
    FindPortExact(ob.ports, n.id);
    assert SteadyPort(FindPort(ob.ports, n.id), FindPort(nb.ports, n.id));
    forall p ensures PortOf(rb, p) == Some(TncPort) <==> p == o.id {
      assert SettledPort(PortOf(rb, p), FindPort(ob.ports, p));
      FindPortExact(ob.ports, p);
    }
  }

  lemma {:induction false} SomeOfRole(ports: seq<Port>, role: Role)
    requires CountRole(ports, role) > 0
    ensures exists p :: p in ports && p.role == role
  {
    if ports[|ports| - 1].role != role { SomeOfRole(ports[..|ports| - 1], role); }
  }

  /** A restart that also changes the settings: only updated ports' bridges
      are told. */
  predicate Untold(rt: Runtime, ob: Bridge, nb: Bridge, o: Port, n: Port) {
    && PlanPort(rt, ob.id, o, n).action == Restarted
    && ob.appParams == nb.appParams && SettingsFor(ob) != SettingsFor(nb)
  }

  lemma SameSettings(rt: Runtime, ob: Bridge, nb: Bridge, o: Port, n: Port)
    requires FirstTnc(ob.ports) == Some(o) && FirstTnc(nb.ports) == Some(n) && o.id == n.id && ob.appParams == nb.appParams
    requires PlanPort(rt, ob.id, o, n).action == Unchanged
    ensures SettingsFor(ob) == SettingsFor(nb)
  {
  }

  lemma SettingsOfBridge(rt: Runtime, ob: Bridge, nb: Bridge, bp: BridgePlan, rb: RunningBridge, broken: Broken, o: Port, n: Port)
    requires Planned(rt, ob, nb, bp) && Current(rb, ob) && FirstTnc(ob.ports) == Some(o) && FirstTnc(nb.ports) == Some(n)
    requires o.id == n.id && FindPort(ob.ports, o.id) == Some(o) && FindPort(nb.ports, n.id) == Some(n)
    requires forall p :: PortOf(rb, p) == Some(TncPort) <==> p == o.id
    ensures Current(Through(rb, bp, nb, broken), nb) <==> SettingsFor(nb).Some? && !Untold(rt, ob, nb, o, n)
  {
    SettingsThrough(rt, ob, nb, bp, rb, broken);
    assert TncNews(rt, ob, nb, rb, o.id) <==> PlanPort(rt, ob.id, o, n).action == Updated;
    if ob.appParams == nb.appParams && PlanPort(rt, ob.id, o, n).action == Unchanged { SameSettings(rt, ob, nb, o, n); }
  }

  /** When ports keep their roles, a bridge that stays has the new settings
      after a reload if and only if its TNC port is one that connects out and
      isn't restarted and given new settings at once. */
  lemma SettingsReach(w: World, rt: Runtime, was: Config, now: Config, broken: Broken, id: string)
    requires V.Valid(was) && V.Valid(now) && Consistent(w, was) && Settled(w, was) && Steady(was, now)
    requires id in w && FindRunning(now, id).Some? && Current(w[id], FindRunning(was, id).value)
    ensures var ob, nb := FindRunning(was, id).value, FindRunning(now, id).value;
            var after := Applied(w, PlanFor(rt, was, now), now, broken);
            && id in after && FirstTnc(ob.ports).Some? && FirstTnc(nb.ports).Some?
            && (Current(after[id], nb) <==>
                  SettingsFor(nb).Some? && !Untold(rt, ob, nb, FirstTnc(ob.ports).value, FirstTnc(nb.ports).value))
  {
    var ob, nb := FindRunning(was, id).value, FindRunning(now, id).value;
    var bp := PlanBridge(rt, ob, nb);
    AppliedExact(w, rt, was, now, broken, id);
    BothComplete(was, now, id, ob, nb);
    assert forall p :: SteadyPort(FindPort(ob.ports, p), FindPort(nb.ports, p));
    SameTnc(ob, nb, w[id]);
    PlannedBridge(rt, was, now, id, ob, nb);
    SettingsOfBridge(rt, ob, nb, bp, w[id], broken, FirstTnc(ob.ports).value, FirstTnc(nb.ports).value);
  }

  lemma BothComplete(was: Config, now: Config, id: string, ob: Bridge, nb: Bridge)
    requires V.Valid(was) && V.Valid(now) && FindRunning(was, id) == Some(ob) && FindRunning(now, id) == Some(nb)
    ensures Complete(ob) && Complete(nb) && UniquePorts(ob.ports) && UniquePorts(nb.ports)
  {
    ValidUnique(was);
    ValidUnique(now);
    FindBridgeExact(was.bridges, id);
    FindBridgeExact(now.bridges, id);
  }

  /** And a bridge that starts has them. */
  lemma StartIsCurrent(nb: Bridge, broken: Broken)
    requires UniquePorts(nb.ports) && BridgeStarted(None, nb, broken).Some?
    ensures Current(BridgeStarted(None, nb, broken).value, nb)
  {
    var tnc := FirstTnc(nb.ports).value;
    AppsStarted(Bare(nb, tnc), nb, nb.ports, broken, "");
  }

  // ── What the TNC port dials ─────────────────────────────────────────

  /** Two definitions of a port reach the same thing: nothing a connector is
      made from differs, adapters taken for what they are on this host. */
  predicate SameLink(rt: Runtime, a: PortKind, b: PortKind) {
    match (a, b)
    case (TcpClient(host, port, _, _), TcpClient(host', port', _, _)) => host == host' && port == port'
    case (SppClient(_, model, spp, _), SppClient(_, model', spp', _)) =>
      model == model' && spp.address == spp'.address && spp.channel == spp'.channel && SameAdapter(rt, spp.adapter, spp'.adapter)
    case (BleClient(_, model, ble, _), BleClient(_, model', ble', _)) =>
      model == model' && ble.address == ble'.address && SameAdapter(rt, ble.adapter, ble'.adapter)
    case (SerialClient(_, model, serial, _), SerialClient(_, model', serial', _)) => model == model' && serial == serial'
    case (TcpServer(listen, _, _, _), TcpServer(listen', _, _, _)) => listen == listen'
    case (BleServer(adapter, _), BleServer(adapter', _)) => SameAdapter(rt, adapter, adapter')
    case _ => false
  }

  lemma SameLinkEquivalence(rt: Runtime, a: PortKind, b: PortKind, c: PortKind)
    ensures SameLink(rt, a, a)
    ensures SameLink(rt, a, b) && SameLink(rt, b, c) ==> SameLink(rt, a, c)
    ensures SameLink(rt, a, b) && SameLink(rt, a, c) ==> SameLink(rt, b, c)
  {
  }

  /** A port that keeps its role is restarted exactly when it would reach
      something else. */
  lemma RestartIff(rt: Runtime, bridge: string, o: Port, n: Port)
    requires o.role == n.role
    ensures PlanPort(rt, bridge, o, n).action == Restarted <==> !SameLink(rt, o.kind, n.kind)
  {
  }

  lemma {:induction false} ConnectorThrough(pass: Pass, rb: RunningBridge, pps: seq<PortPlan>, nb: Bridge, broken: Broken, t: string)
    requires UniquePlans(pps) && forall pp :: pp in pps && Reconnects(pass, PortOf(rb, pp.id), pp, nb, broken) ==> pp.id == t
    ensures Reconnected(pass, rb, pps, nb, broken) ==> FindPort(nb.ports, t).Some?
    ensures PortSteps(pass, rb, pps, nb, broken).connector ==
            if Reconnected(pass, rb, pps, nb, broken) then FindPort(nb.ports, t).value.kind else rb.connector
  {
    if |pps| > 0 {
      InitPlans(pps);
      var init, last := pps[..|pps| - 1], pps[|pps| - 1];
      ConnectorThrough(pass, rb, init, nb, broken, t);
      OtherPort(pass, rb, init, nb, broken, last.id);
      assert Reconnected(pass, rb, pps, nb, broken) <==>
             Reconnected(pass, rb, init, nb, broken) || Reconnects(pass, PortOf(rb, last.id), last, nb, broken);
    }
  }

  lemma PassConnector(pass: Pass, rt: Runtime, ob: Bridge, nb: Bridge, bp: BridgePlan, rb: RunningBridge, broken: Broken, t: string)
    requires Planned(rt, ob, nb, bp) && forall p :: PortOf(rb, p) == Some(TncPort) ==> p == t
    ensures Reconnected(pass, rb, bp.ports, nb, broken) ==> FindPort(nb.ports, t).Some?
    ensures AfterPass(pass, rb, bp, nb, broken).connector ==
            if Reconnected(pass, rb, bp.ports, nb, broken) then FindPort(nb.ports, t).value.kind else rb.connector
    ensures pass != Updates ==> !Reconnected(pass, rb, bp.ports, nb, broken)
  {
    var from := if pass == Updates then Told(rb, bp, nb) else rb;
    if bp.action == Updated {
      forall pp | pp in bp.ports && Reconnects(pass, PortOf(from, pp.id), pp, nb, broken) ensures pp.id == t {
        assert PortOf(from, pp.id) == PortOf(rb, pp.id);
      }
      ConnectorThrough(pass, from, bp.ports, nb, broken, t);
      ReconnectedSame(pass, rb, from, bp.ports, nb, broken);
    } else {
      UnchangedQuiet(pass, rt, ob, nb, bp, rb, broken);
    }
  }

  /** After the stops, no port is a TNC port that wasn't. */
  lemma StopsKeepTnc(rt: Runtime, ob: Bridge, nb: Bridge, bp: BridgePlan, rb: RunningBridge, broken: Broken, t: string)
    requires Planned(rt, ob, nb, bp) && forall p :: PortOf(rb, p) == Some(TncPort) ==> p == t
    ensures forall p :: PortOf(AfterPass(Stops, rb, bp, nb, broken), p) == Some(TncPort) ==> p == t
  {
    forall p | PortOf(AfterPass(Stops, rb, bp, nb, broken), p) == Some(TncPort) ensures p == t {
      PassPort(Stops, rt, ob, nb, bp, rb, broken, p);
    }
  }

  lemma ConnectorOfBridge(rt: Runtime, ob: Bridge, nb: Bridge, bp: BridgePlan, rb: RunningBridge, broken: Broken, o: Port, n: Port)
    requires Planned(rt, ob, nb, bp) && o.id == n.id && FindPort(ob.ports, o.id) == Some(o) && FindPort(nb.ports, n.id) == Some(n)
    requires forall p :: PortOf(rb, p) == Some(TncPort) <==> p == o.id
    ensures Through(rb, bp, nb, broken).connector ==
            if PlanPort(rt, ob.id, o, n).action == Restarted && CanConnect(nb, n, broken) then n.kind else rb.connector
  {
    var stopped := AfterPass(Stops, rb, bp, nb, broken);
    PassConnector(Stops, rt, ob, nb, bp, rb, broken, o.id);
    StopsKeepTnc(rt, ob, nb, bp, rb, broken, o.id);
    PassConnector(Updates, rt, ob, nb, bp, stopped, broken, o.id);
    StartsKeepConnector(AfterPass(Updates, stopped, bp, nb, broken).(cfg := nb), bp.ports, nb, broken);
    RestartsIff(rt, ob, nb, bp, rb, broken);
    assert LinkRestarts(rt, ob, nb, rb, broken, o.id) <==>
           PlanPort(rt, ob.id, o, n).action == Restarted && CanConnect(nb, n, broken);
  }

  lemma {:induction false} StartsKeepConnector(rb: RunningBridge, pps: seq<PortPlan>, nb: Bridge, broken: Broken)
    ensures PortSteps(Starts, rb, pps, nb, broken).connector == rb.connector
  {
    if |pps| > 0 { StartsKeepConnector(rb, pps[..|pps| - 1], nb, broken); }
  }

  /** The bridge dials what its TNC port says. */
  predicate Dials(rt: Runtime, rb: RunningBridge, b: Bridge) {
    FirstTnc(b.ports).Some? && SameLink(rt, rb.connector, FirstTnc(b.ports).value.kind)
  }

  /** When ports keep their roles, a bridge that stays dials its new TNC port
      after a reload if and only if the port wasn't to be restarted or a
      connector for it could be made. Otherwise it goes on with the old one,
      where a fresh start wouldn't run it at all. */
  lemma ConnectorReaches(w: World, rt: Runtime, was: Config, now: Config, broken: Broken, id: string)
    requires V.Valid(was) && V.Valid(now) && Consistent(w, was) && Settled(w, was) && Steady(was, now)
    requires id in w && FindRunning(now, id).Some? && Dials(rt, w[id], FindRunning(was, id).value)
    ensures var ob, nb := FindRunning(was, id).value, FindRunning(now, id).value;
            var after := Applied(w, PlanFor(rt, was, now), now, broken);
            && id in after && FirstTnc(ob.ports).Some? && FirstTnc(nb.ports).Some?
            && (Dials(rt, after[id], nb) <==>
                  || PlanPort(rt, ob.id, FirstTnc(ob.ports).value, FirstTnc(nb.ports).value).action != Restarted
                  || CanConnect(nb, FirstTnc(nb.ports).value, broken))
            && (!Dials(rt, after[id], nb) ==> after[id].connector == w[id].connector && !Startable(nb, broken))
  {
    var ob, nb := FindRunning(was, id).value, FindRunning(now, id).value;
    AppliedExact(w, rt, was, now, broken, id);
    BothComplete(was, now, id, ob, nb);
    assert forall p :: SteadyPort(FindPort(ob.ports, p), FindPort(nb.ports, p));
    SameTnc(ob, nb, w[id]);
    PlannedBridge(rt, was, now, id, ob, nb);
    var o, n := FirstTnc(ob.ports).value, FirstTnc(nb.ports).value;
    ConnectorOfBridge(rt, ob, nb, PlanBridge(rt, ob, nb), w[id], broken, o, n);
    FirstTncExact(ob.ports);
    FirstTncExact(nb.ports);
    RestartIff(rt, ob.id, o, n);
    SameLinkEquivalence(rt, w[id].connector, o.kind, n.kind);
    SameLinkEquivalence(rt, n.kind, n.kind, n.kind);
  }

  /** And a bridge that starts dials what it should. */
  lemma StartDials(rt: Runtime, nb: Bridge, broken: Broken)
    requires UniquePorts(nb.ports) && BridgeStarted(None, nb, broken).Some?
    ensures Dials(rt, BridgeStarted(None, nb, broken).value, nb)
  {
    var tnc := FirstTnc(nb.ports).value;
    AppsStarted(Bare(nb, tnc), nb, nb.ports, broken, "");
    SameLinkEquivalence(rt, tnc.kind, tnc.kind, tnc.kind);
  }
}

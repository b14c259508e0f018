/** Reloads whose plans leave something out, each at a concrete config. */
module ReloadExamples {
  import opened Common
  import opened Policy
  import opened BridgeState
  import opened Config
  import opened Reconcile
  import opened PlanShape
  import opened Reload
  import opened ReloadEffects
  import opened ReloadResults
  import opened ReloadSettled
  import opened ReloadTnc
  import Kicks
  import V = Validate

  // ── A session the plan can't see ────────────────────────────────────

  function Lan(role: Role): Port {
    Port("lan", role, TcpServer(Addr(V4(1), 8001), None, [], false))
  }

  function Before(): Bridge {
    Bridge("b", "b", "b", true, None, DropParams, [Port("radio", TncRole, TcpClient("host", 1, OnDemand, 0)), Lan(AppRole)], Dynamic)
  }

  function After(): Bridge {
    Before().(ports := [Lan(TncRole), Port("phone", AppRole, BleServer(DefaultAdapter, 1))])
  }

  function One(b: Bridge): Config {
    Config("info", DefaultAdapter, "group", [], [], [b])
  }

  function App(): SessionView {
    SessionView(SessionId("lan", "peer"), 0)
  }

  function Busy(): World {
    map["b" := RunningBridge(Before(), map["radio" := TncPort, "lan" := TcpPort(Addr(V4(1), 8001), None, [], false)], [App()], false,
                             Settings("radio", OnDemand, 0, DropParams, false), None, Before().ports[0].kind)]
  }

  lemma OneValid(b: Bridge)
    requires Complete(b) && V.Distinct(V.PortIds(b))
    ensures V.Valid(One(b))
  {
    forall what ensures V.KeysDistinct(One(b), what) {}
  }

  lemma ExampleValid()
    ensures V.Valid(One(Before())) && V.Valid(One(After()))
    ensures Consistent(Busy(), One(Before())) && HasSession(Busy(), "b", App())
  {
    var before, after := Before(), After();
    assert before.ports[..1] == [before.ports[0]] && after.ports[..1] == [after.ports[0]];
    assert V.PortIds(before) == [Some("radio"), Some("lan")];
    assert V.PortIds(after) == [Some("lan"), Some("phone")];
    OneValid(before);
    OneValid(after);
    assert FindRunning(One(before), "b") == Some(before);
    assert FindPort(before.ports, "radio") == Some(before.ports[0]);
    assert before.ports[1..] == [Lan(AppRole)];
    assert FindPort(before.ports, "lan") == Some(Lan(AppRole));
  }

  lemma ExampleEnds(adapterMac: AdapterSel -> Option<Mac>, peerIp: string -> Option<Ip>)
    requires V.Valid(One(Before())) && V.Valid(One(After()))
    requires Consistent(Busy(), One(Before())) && HasSession(Busy(), "b", App())
    ensures var plan := PlanFor(RuntimeOf(Busy(), adapterMac, peerIp), One(Before()), One(After()));
            !HasSession(Applied(Busy(), plan, One(After()), {}), "b", App())
  {
    var was, now := One(Before()), One(After());
    assert FindRunning(was, "b") == Some(Before()) && FindRunning(now, "b") == Some(After());
    assert Before().ports[1..] == [Lan(AppRole)];
    assert FindPort(Before().ports, "lan") == Some(Lan(AppRole)) && FindPort(After().ports, "lan") == Some(Lan(TncRole));
    assert Unlisted(RuntimeOf(Busy(), adapterMac, peerIp), was, now, "b", App().id);
    SessionsEnded(Busy(), adapterMac, peerIp, was, now, {}, "b", App());
  }

  /** A plan that calls itself harmless can end a session: when an app port
      becomes the TNC port. */
  lemma UnlistedHappens(adapterMac: AdapterSel -> Option<Mac>, peerIp: string -> Option<Ip>)
    ensures V.Valid(One(Before())) && V.Valid(One(After()))
    ensures Consistent(Busy(), One(Before())) && HasSession(Busy(), "b", App())
    ensures var plan := PlanFor(RuntimeOf(Busy(), adapterMac, peerIp), One(Before()), One(After()));
            Disruptions(plan) == [] && !HasSession(Applied(Busy(), plan, One(After()), {}), "b", App())
  {
    ExampleValid();
    ExampleEnds(adapterMac, peerIp);
    ExampleQuiet(RuntimeOf(Busy(), adapterMac, peerIp));
  }

  lemma ExampleQuiet(rt: Runtime)
    requires "b" in rt.bridges && rt.bridges["b"] == BridgeView(false, [App()])
    ensures Disruptions(PlanFor(rt, One(Before()), One(After()))) == []
  {
    var bps := PlanFor(rt, One(Before()), One(After())).bridges;
    forall bp | bp in bps ensures !bp.stopsInUse { ExampleBridge(rt, bp); }
    forall bp, pp | bp in bps && pp in bp.ports ensures pp.disconnects == [] && !pp.dropsTncLink {
      ExampleBridge(rt, bp);
      ExampleEntry(rt, pp.id, pp);
    }
    QuietBridges(bps);
  }

  lemma ExampleBridge(rt: Runtime, bp: BridgePlan)
    requires bp in PlanFor(rt, One(Before()), One(After())).bridges
    ensures !bp.stopsInUse && forall pp :: pp in bp.ports ==> PortEntry(rt, Before(), After(), pp.id) == Some(pp)
  {
    var was, now := One(Before()), One(After());
    ExampleValid();
    ValidUnique(was);
    ValidUnique(now);
    EntryExact(rt, was, now, bp);
    FindBridgeExact(was.bridges, bp.id);
    FindBridgeExact(now.bridges, bp.id);
    assert bp.id == "b";
    PlannedBridge(rt, was, now, "b", Before(), After());
  }

  lemma ExampleEntry(rt: Runtime, p: string, pp: PortPlan)
    requires "b" in rt.bridges && rt.bridges["b"] == BridgeView(false, [App()])
    requires PortEntry(rt, Before(), After(), p) == Some(pp)
    ensures pp.disconnects == [] && !pp.dropsTncLink
  {
    FindPortExact(Before().ports, p);
    FindPortExact(After().ports, p);
    if p == "lan" {
      assert Before().ports[1..] == [Lan(AppRole)];
      assert FindPort(Before().ports, p) == Some(Lan(AppRole)) && FindPort(After().ports, p) == Some(Lan(TncRole));
    } else {
      OtherPortIdle(p);
      assert Sessions(rt, "b", p) == [];
    }
  }

  lemma OtherPortIdle(p: string)
    requires p != "lan"
    ensures OnPort([App()], p) == []
  {
    assert [App()][..0] == [];
  }

  // ── A link the plan can't see ───────────────────────────────────────

  /** The TNC port goes on as an app port, and a new port is the TNC port. */
  function Moved(): Bridge {
    Before().(ports := [Port("radio", AppRole, TcpClient("host", 1, OnDemand, 0)), Port("new", TncRole, TcpClient("host", 2, OnDemand, 0))])
  }

  function Linked(): World {
    map["b" := Busy()["b"].(sessions := [], linkUp := true)]
  }

  lemma RadioPorts()
    ensures FindPort(Before().ports, "radio") == Some(Before().ports[0]) && FindPort(Before().ports, "lan") == Some(Lan(AppRole))
    ensures forall p :: FindPort(Before().ports, p).Some? <==> p == "radio" || p == "lan"
  {
    assert Before().ports[1..] == [Lan(AppRole)];
    forall p ensures FindPort(Before().ports, p).Some? <==> p == "radio" || p == "lan" { FindPortExact(Before().ports, p); }
  }

  lemma MovedValid()
    ensures V.Valid(One(Moved()))
  {
    var moved := Moved();
    assert moved.ports[..1] == [moved.ports[0]];
    assert V.PortIds(moved) == [Some("radio"), Some("new")];
    OneValid(moved);
  }

  lemma LinkedConsistent()
    ensures Consistent(Linked(), One(Before()))
  {
    assert FindRunning(One(Before()), "b") == Some(Before());
    RadioPorts();
  }

  lemma MovedEntry(rt: Runtime, p: string, pp: PortPlan)
    requires "b" in rt.bridges && rt.bridges["b"] == BridgeView(true, [])
    requires PortEntry(rt, Before(), Moved(), p) == Some(pp)
    ensures pp.disconnects == [] && !pp.dropsTncLink
  {
    RadioPorts();
    FindPortExact(Moved().ports, p);
    assert Sessions(rt, "b", p) == [];
    if p == "radio" { assert FindPort(Moved().ports, p) == Some(Moved().ports[0]); }
  }

  lemma MovedBridge(rt: Runtime, bp: BridgePlan)
    requires bp in PlanFor(rt, One(Before()), One(Moved())).bridges
    ensures !bp.stopsInUse && forall pp :: pp in bp.ports ==> PortEntry(rt, Before(), Moved(), pp.id) == Some(pp)
  {
    var was, now := One(Before()), One(Moved());
    ExampleValid();
    MovedValid();
    ValidUnique(was);
    ValidUnique(now);
    EntryExact(rt, was, now, bp);
    FindBridgeExact(was.bridges, bp.id);
    FindBridgeExact(now.bridges, bp.id);
    assert bp.id == "b";
    PlannedBridge(rt, was, now, "b", Before(), Moved());
  }

  lemma MovedQuiet(rt: Runtime)
    requires "b" in rt.bridges && rt.bridges["b"] == BridgeView(true, [])
    ensures Disruptions(PlanFor(rt, One(Before()), One(Moved()))) == []
  {
    var bps := PlanFor(rt, One(Before()), One(Moved())).bridges;
    forall bp | bp in bps ensures !bp.stopsInUse { MovedBridge(rt, bp); }
    forall bp, pp | bp in bps && pp in bp.ports ensures pp.disconnects == [] && !pp.dropsTncLink {
      MovedBridge(rt, bp);
      MovedEntry(rt, pp.id, pp);
    }
    QuietBridges(bps);
  }

  lemma MovedDrops(adapterMac: AdapterSel -> Option<Mac>, peerIp: string -> Option<Ip>)
    requires V.Valid(One(Before())) && V.Valid(One(Moved())) && Consistent(Linked(), One(Before()))
    ensures var plan := PlanFor(RuntimeOf(Linked(), adapterMac, peerIp), One(Before()), One(Moved()));
            LinkDropped(Linked(), Applied(Linked(), plan, One(Moved()), {}), "b")
  {
    var was, now := One(Before()), One(Moved());
    assert FindRunning(was, "b") == Some(Before()) && FindRunning(now, "b") == Some(Moved());
    RadioPorts();
    assert FindPort(Moved().ports, "radio") == Some(Moved().ports[0]);
    assert UnlistedLink(RuntimeOf(Linked(), adapterMac, peerIp), was, now, Linked(), {}, "b", "radio");
    LinksDropped(Linked(), adapterMac, peerIp, was, now, {}, "b");
  }

  /** A plan that calls itself harmless can drop a link in use: when the TNC
      port becomes an app port beside a new TNC port. */
  lemma UnlistedLinkHappens(adapterMac: AdapterSel -> Option<Mac>, peerIp: string -> Option<Ip>)
    ensures V.Valid(One(Before())) && V.Valid(One(Moved())) && Consistent(Linked(), One(Before()))
    ensures var plan := PlanFor(RuntimeOf(Linked(), adapterMac, peerIp), One(Before()), One(Moved()));
            Disruptions(plan) == [] && LinkDropped(Linked(), Applied(Linked(), plan, One(Moved()), {}), "b")
  {
    ExampleValid();
    MovedValid();
    LinkedConsistent();
    MovedDrops(adapterMac, peerIp);
    MovedQuiet(RuntimeOf(Linked(), adapterMac, peerIp));
  }

  // ── One bridge, its TNC port changing ───────────────────────────────

  function Radio(kind: PortKind): Port {
    Port("radio", TncRole, kind)
  }

  function With(kind: PortKind): Bridge {
    Before().(ports := [Radio(kind), Lan(AppRole)])
  }

  /** Running as a fresh start leaves it, with the link up since. */
  function Dialing(kind: PortKind): World
    requires ConnectsOut(kind)
  {
    map["b" := RunningBridge(With(kind), map["radio" := TncPort, "lan" := TcpPort(Addr(V4(1), 8001), None, [], false)], [], true,
                             SettingsOf(With(kind), Radio(kind)), None, kind)]
  }

  lemma WithPorts(kind: PortKind, p: string)
    ensures FindPort(With(kind).ports, p) ==
            if p == "radio" then Some(Radio(kind)) else if p == "lan" then Some(Lan(AppRole)) else None
  {
    assert With(kind).ports[1..] == [Lan(AppRole)];
    FindPortExact(With(kind).ports, p);
  }

  lemma CountOne(p: Port, role: Role)
    ensures CountRole([p], role) == if p.role == role then 1 else 0
  {
    assert [p][..0] == [];
  }

  lemma WithValid(kind: PortKind)
    ensures V.Valid(One(With(kind)))
  {
    var b := With(kind);
    assert b.ports[..1] == [Radio(kind)];
    CountOne(Radio(kind), TncRole);
    CountOne(Radio(kind), AppRole);
    assert V.PortIds(b) == [Some("radio"), Some("lan")];
    OneValid(b);
  }

  lemma WithFound(kind: PortKind, id: string)
    ensures FindRunning(One(With(kind)), id) == if id == "b" then Some(With(kind)) else None
    ensures FirstTnc(With(kind).ports) == Some(Radio(kind))
  {
    FindBridgeExact(One(With(kind)).bridges, id);
  }

  lemma DialingFits(kind: PortKind)
    requires ConnectsOut(kind)
    ensures Consistent(Dialing(kind), One(With(kind))) && Settled(Dialing(kind), One(With(kind)))
  {
    WithFound(kind, "b");
    forall p ensures PortFits(PortOf(Dialing(kind)["b"], p), FindPort(With(kind).ports, p)) { WithPorts(kind, p); }
    forall p ensures SettledPort(PortOf(Dialing(kind)["b"], p), FindPort(With(kind).ports, p)) { WithPorts(kind, p); }
  }

  lemma WithSteady(a: PortKind, b: PortKind)
    ensures Steady(One(With(a)), One(With(b)))
  {
    forall id, p | FindRunning(One(With(a)), id).Some? && FindRunning(One(With(b)), id).Some?
      ensures SteadyPort(FindPort(FindRunning(One(With(a)), id).value.ports, p), FindPort(FindRunning(One(With(b)), id).value.ports, p))
    {
      WithFound(a, id);
      WithFound(b, id);
      WithPorts(a, p);
      WithPorts(b, p);
    }
  }

  /** All that the examples below start from. */
  lemma WithReady(a: PortKind, b: PortKind)
    requires ConnectsOut(a)
    ensures V.Valid(One(With(a))) && V.Valid(One(With(b))) && Steady(One(With(a)), One(With(b)))
    ensures Consistent(Dialing(a), One(With(a))) && Settled(Dialing(a), One(With(a)))
  {
    WithValid(a);
    WithValid(b);
    WithSteady(a, b);
    DialingFits(a);
  }

  // ── Settings that don't arrive ──────────────────────────────────────

  /** The TNC port's address changes, and its idle timeout with it: the bridge
      goes on with the old timeout. */
  lemma UntoldHappens(rt: Runtime)
    ensures var a, b := TcpClient("host", 1, OnDemand, 0), TcpClient("other", 1, OnDemand, 5);
            var after := Applied(Dialing(a), PlanFor(rt, One(With(a)), One(With(b))), One(With(b)), {});
            && V.Valid(One(With(a))) && V.Valid(One(With(b))) && Steady(One(With(a)), One(With(b)))
            && Consistent(Dialing(a), One(With(a))) && Settled(Dialing(a), One(With(a)))
            && Current(Dialing(a)["b"], With(a)) && "b" in after && !Current(after["b"], With(b))
  {
    var a, b := TcpClient("host", 1, OnDemand, 0), TcpClient("other", 1, OnDemand, 5);
    WithReady(a, b);
    UntoldEffect(rt, a, b);
  }

  lemma UntoldEffect(rt: Runtime, a: PortKind, b: PortKind)
    requires a == TcpClient("host", 1, OnDemand, 0) && b == TcpClient("other", 1, OnDemand, 5)
    requires V.Valid(One(With(a))) && V.Valid(One(With(b))) && Steady(One(With(a)), One(With(b)))
    requires Consistent(Dialing(a), One(With(a))) && Settled(Dialing(a), One(With(a)))
    ensures var after := Applied(Dialing(a), PlanFor(rt, One(With(a)), One(With(b))), One(With(b)), {});
            Current(Dialing(a)["b"], With(a)) && "b" in after && !Current(after["b"], With(b))
  {
    WithFound(a, "b");
    WithFound(b, "b");
    UntoldFacts(rt, a, b);
    SettingsReach(Dialing(a), rt, One(With(a)), One(With(b)), {}, "b");
  }

  lemma UntoldFacts(rt: Runtime, a: PortKind, b: PortKind)
    requires a == TcpClient("host", 1, OnDemand, 0) && b == TcpClient("other", 1, OnDemand, 5)
    ensures Current(Dialing(a)["b"], With(a)) && Untold(rt, With(a), With(b), Radio(a), Radio(b))
  {
    WithFound(a, "b");
    WithFound(b, "b");
    RestartIff(rt, "b", Radio(a), Radio(b));
  }

  // ── Settings that close the link ────────────────────────────────────

  lemma PolicyEntry(rt: Runtime, a: PortKind, b: PortKind, p: string, pp: PortPlan)
    requires "b" in rt.bridges && rt.bridges["b"] == BridgeView(true, [])
    requires a == TcpClient("host", 1, Always, 0) && b == TcpClient("host", 1, OnDemand, 0)
    requires PortEntry(rt, With(a), With(b), p) == Some(pp)
    ensures pp.disconnects == [] && !pp.dropsTncLink
    ensures p == "radio" ==> pp.action == Updated
  {
    WithPorts(a, p);
    WithPorts(b, p);
    assert Sessions(rt, "b", p) == [];
  }

  lemma PolicyQuiet(rt: Runtime, a: PortKind, b: PortKind)
    requires "b" in rt.bridges && rt.bridges["b"] == BridgeView(true, [])
    requires a == TcpClient("host", 1, Always, 0) && b == TcpClient("host", 1, OnDemand, 0)
    ensures Disruptions(PlanFor(rt, One(With(a)), One(With(b)))) == []
  {
    var bps := PlanFor(rt, One(With(a)), One(With(b))).bridges;
    forall bp | bp in bps ensures !bp.stopsInUse { WithEntry(rt, a, b, bp); }
    forall bp, pp | bp in bps && pp in bp.ports ensures pp.disconnects == [] && !pp.dropsTncLink {
      WithEntry(rt, a, b, bp);
      PolicyEntry(rt, a, b, pp.id, pp);
    }
    QuietBridges(bps);
  }

  lemma WithEntry(rt: Runtime, a: PortKind, b: PortKind, bp: BridgePlan)
    requires bp in PlanFor(rt, One(With(a)), One(With(b))).bridges
    ensures !bp.stopsInUse && forall pp :: pp in bp.ports ==> PortEntry(rt, With(a), With(b), pp.id) == Some(pp)
  {
    var was, now := One(With(a)), One(With(b));
    WithValid(a);
    WithValid(b);
    ValidUnique(was);
    ValidUnique(now);
    EntryExact(rt, was, now, bp);
    WithFound(a, bp.id);
    WithFound(b, bp.id);
    PlannedBridge(rt, was, now, "b", With(a), With(b));
  }

  lemma PolicyCloses(rt: Runtime, a: PortKind, b: PortKind)
    requires "b" in rt.bridges && rt.bridges["b"] == BridgeView(true, [])
    requires a == TcpClient("host", 1, Always, 0) && b == TcpClient("host", 1, OnDemand, 0)
    ensures SettingsDrop(rt, One(With(a)), One(With(b)), Dialing(a), "b")
  {
    WithFound(a, "b");
    WithFound(b, "b");
    WithPorts(a, "radio");
    WithPorts(b, "radio");
    PolicyEntry(rt, a, b, "radio", PortEntry(rt, With(a), With(b), "radio").value);
    assert TncNews(rt, With(a), With(b), Dialing(a)["b"], "radio");
  }

  /** A plan that calls itself harmless can drop a link in use, with every port
      keeping its role: the link was to be kept up always, nobody has a session,
      and now it is to be up on demand. */
  lemma PolicyDropHappens(adapterMac: AdapterSel -> Option<Mac>, peerIp: string -> Option<Ip>)
    ensures var a, b := TcpClient("host", 1, Always, 0), TcpClient("host", 1, OnDemand, 0);
            var plan := PlanFor(RuntimeOf(Dialing(a), adapterMac, peerIp), One(With(a)), One(With(b)));
            && V.Valid(One(With(a))) && V.Valid(One(With(b))) && Steady(One(With(a)), One(With(b)))
            && Consistent(Dialing(a), One(With(a))) && Settled(Dialing(a), One(With(a)))
            && Disruptions(plan) == [] && LinkDropped(Dialing(a), Applied(Dialing(a), plan, One(With(b)), {}), "b")
  {
    var a, b := TcpClient("host", 1, Always, 0), TcpClient("host", 1, OnDemand, 0);
    var rt := RuntimeOf(Dialing(a), adapterMac, peerIp);
    WithReady(a, b);
    PolicyQuiet(rt, a, b);
    PolicyCloses(rt, a, b);
    NothingDisrupted(Dialing(a), adapterMac, peerIp, One(With(a)), One(With(b)), {});
  }

  // ── A restart that is refused ───────────────────────────────────────

  /** The TNC port moves to another host, but no connector can be made: the
      bridge goes on with the old host, where a fresh start wouldn't run it. */
  lemma RefusedRestartHappens(rt: Runtime)
    ensures var a, b := TcpClient("host", 1, OnDemand, 0), TcpClient("other", 1, OnDemand, 0);
            var after := Applied(Dialing(a), PlanFor(rt, One(With(a)), One(With(b))), One(With(b)), {("b", "radio")});
            && V.Valid(One(With(a))) && V.Valid(One(With(b))) && Steady(One(With(a)), One(With(b)))
            && Consistent(Dialing(a), One(With(a))) && Settled(Dialing(a), One(With(a)))
            && "b" in after && after["b"].connector == a && !Startable(With(b), {("b", "radio")})
  {
    var a, b := TcpClient("host", 1, OnDemand, 0), TcpClient("other", 1, OnDemand, 0);
    WithReady(a, b);
    WithFound(a, "b");
    WithFound(b, "b");
    ConnectorReaches(Dialing(a), rt, One(With(a)), One(With(b)), {("b", "radio")}, "b");
    RestartIff(rt, "b", Radio(a), Radio(b));
  }

  // ── A bridge that isn't tried again ─────────────────────────────────

  /** A bridge that is enabled and could start now, but didn't before: a reload
      of the same config leaves it so, a fresh start would run it. */
  lemma NotRetried(rt: Runtime)
    ensures var c := One(With(TcpClient("host", 1, OnDemand, 0)));
            && V.Valid(c) && Consistent(map[], c) && Settled(map[], c) && Startable(c.bridges[0], {})
            && "b" !in Applied(map[], PlanFor(rt, c, c), c, {})
            && "b" in Applied(map[], PlanFor(rt, c.(bridges := []), c), c, {})
  {
    var kind := TcpClient("host", 1, OnDemand, 0);
    WithValid(kind);
    WithFound(kind, "b");
    NothingFromNothing(rt, kind);
    FreshStartRuns(rt, kind);
  }

  lemma NothingFromNothing(rt: Runtime, kind: PortKind)
    requires V.WellDefined(One(With(kind)))
    ensures "b" !in Applied(map[], PlanFor(rt, One(With(kind)), One(With(kind))), One(With(kind)), {})
  {
    WithFound(kind, "b");
    WhichRun(map[], rt, One(With(kind)), One(With(kind)), {}, "b");
  }

  lemma FreshStartRuns(rt: Runtime, kind: PortKind)
    requires ConnectsOut(kind) && V.WellDefined(One(With(kind)))
    ensures "b" in Applied(map[], PlanFor(rt, One(With(kind)).(bridges := []), One(With(kind))), One(With(kind)), {})
  {
    var empty := One(With(kind)).(bridges := []);
    EmptyDefined(empty);
    WithFound(kind, "b");
    WhichRun(map[], rt, empty, One(With(kind)), {}, "b");
  }

  lemma EmptyDefined(c: Config)
    requires c.adapters == [] && c.tncs == [] && c.bridges == []
    ensures V.WellDefined(c)
  {
  }
}

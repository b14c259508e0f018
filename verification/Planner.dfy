/** The planner as the source builds it, list by list and flag by flag
    (src/reconcile.rs); each method gives what `Reconcile` says. */
module Planner {
  import opened Common
  import opened Sorting
  import opened BridgeState
  import opened Config
  import opened Reconcile

  method KickNotAllowed(rt: Runtime, allow: seq<IpNet>, sessions: seq<SessionView>, kick: seq<SessionId>) returns (out: seq<SessionId>)
    ensures out == kick + NotAllowed(rt, allow, sessions)
  {
    out := kick;
    for n := 0 to |sessions|
      invariant out == kick + NotAllowed(rt, allow, sessions[..n])
    {
      var ip := rt.peerIp(sessions[n].id.peer);
      if ip.Some? && !Allowed(allow, ip.value) { out := out + [sessions[n].id]; }
      assert sessions[..n + 1][..n] == sessions[..n];
    }
    assert sessions[..|sessions|] == sessions;
  }

  method KickNewest(sessions: seq<SessionView>, max: nat, kick: seq<SessionId>) returns (out: seq<SessionId>)
    ensures out == kick + NewestBeyond(sessions, max)
  {
    if |sessions| <= max { return kick; }
    var byAge := Sort(sessions, Older);
    SortHolds(sessions, Older);
    out := kick + Ids(byAge[max..]);
  }

  method FindTcpServer(rt: Runtime, sessions: seq<SessionView>, o: PortKind, n: PortKind) returns (f: Found)
    requires o.TcpServer? && n.TcpServer?
    ensures f == CompareTcpServer(rt, sessions, o, n)
  {
    var changes, restart, kick: seq<SessionId> := [], false, [];
    if o.listen != n.listen {
      changes, restart := changes + ["listen"], true;
    } else {
      if o.allow != n.allow {
        changes := changes + ["allow"];
        kick := KickNotAllowed(rt, n.allow, sessions, kick);
      }
      if o.maxClients != n.maxClients {
        changes := changes + ["max_clients"];
        if n.maxClients.Some? { kick := KickNewest(sessions, n.maxClients.value, kick); }
      }
    }
    if o.announce != n.announce { changes := changes + ["announce"]; }
    f := Found(changes, restart, kick);
  }

  method FindOptions(o: LinkOptions, n: LinkOptions, changes: seq<string>) returns (out: seq<string>)
    ensures out == changes + OptionChanges(o, n)
  {
    out := changes;
    if o.connect != n.connect { out := out + ["connect"]; }
    if o.idleTimeout != n.idleTimeout { out := out + ["idle_timeout"]; }
    if o.exitKiss != n.exitKiss { out := out + ["exit_kiss_on_disconnect"]; }
  }

  /** The part common to the ports that use a TNC. */
  method FindTnc(o: PortKind, n: PortKind, changes: seq<string>, restart: bool) returns (out: seq<string>, restart': bool)
    requires TncOf(o).Some? && TncOf(n).Some?
    ensures out == changes + TncChanges(o, n)
    ensures restart' == (restart || o.model != n.model)
  {
    out, restart' := [], restart;
    if o.model != n.model { out, restart' := out + ["model"], true; }
    if o.tnc != n.tnc { out := out + ["tnc"]; }
    assert out == Noted(o.model != n.model, "model") + Noted(o.tnc != n.tnc, "tnc");
    out := FindOptions(o.options, n.options, out);
    assert out == TncChanges(o, n);
    out := changes + out;
  }

  method FindSpp(rt: Runtime, o: PortKind, n: PortKind) returns (f: Found)
    requires o.SppClient? && n.SppClient?
    ensures f == CompareSpp(rt, o, n)
  {
    var changes, restart := [], false;
    if o.spp.address != n.spp.address || o.spp.channel != n.spp.channel {
      changes, restart := changes + ["spp"], true;
    } else if !SameAdapter(rt, o.spp.adapter, n.spp.adapter) {
      changes, restart := changes + ["spp.adapter"], true;
    }
    changes, restart := FindTnc(o, n, changes, restart);
    f := Found(changes, restart, []);
  }

  method FindBle(rt: Runtime, o: PortKind, n: PortKind) returns (f: Found)
    requires o.BleClient? && n.BleClient?
    ensures f == CompareBle(rt, o, n)
  {
    var changes, restart := [], false;
    if o.ble.address != n.ble.address {
      changes, restart := changes + ["ble"], true;
    } else if !SameAdapter(rt, o.ble.adapter, n.ble.adapter) {
      changes, restart := changes + ["ble.adapter"], true;
    }
    changes, restart := FindTnc(o, n, changes, restart);
    f := Found(changes, restart, []);
  }

  method FindSerial(o: PortKind, n: PortKind) returns (f: Found)
    requires o.SerialClient? && n.SerialClient?
    ensures f == CompareSerial(o, n)
  {
    var changes, restart := [], false;
    if o.serial != n.serial { changes, restart := changes + ["serial"], true; }
    changes, restart := FindTnc(o, n, changes, restart);
    f := Found(changes, restart, []);
  }

  method FindTcpClient(o: PortKind, n: PortKind) returns (f: Found)
    requires o.TcpClient? && n.TcpClient?
    ensures f == CompareTcpClient(o, n)
  {
    var changes, restart := [], false;
    if (o.host, o.port) != (n.host, n.port) { changes, restart := changes + ["address"], true; }
    if o.connect != n.connect { changes := changes + ["connect"]; }
    if o.idleTimeout != n.idleTimeout { changes := changes + ["idle_timeout"]; }
    f := Found(changes, restart, []);
  }

  method FindBleServer(rt: Runtime, sessions: seq<SessionView>, o: PortKind, n: PortKind) returns (f: Found)
    requires o.BleServer? && n.BleServer?
    ensures f == CompareBleServer(rt, sessions, o, n)
  {
    if !SameAdapter(rt, o.adapter, n.adapter) { return Found(["adapter"], true, []); }
    if o.maxPhones != n.maxPhones {
      var kick := KickNewest(sessions, n.maxPhones, []);
      return Found(["max_clients"], false, kick);
    }
    f := Found([], false, []);
  }

  method ComparePort(rt: Runtime, bridge: string, was: Port, now: Port) returns (p: PortPlan)
    ensures p == PlanPort(rt, bridge, was, now)
  {
    var sessions := Sessions(rt, bridge, was.id);
    var f;
    if was.role != now.role || !SameKind(was.kind, now.kind) {
      f := Found([if was.role != now.role then "role" else "type"], true, []);
    } else {
      match was.kind {
        case TcpClient(_, _, _, _) => f := FindTcpClient(was.kind, now.kind);
        case TcpServer(_, _, _, _) => f := FindTcpServer(rt, sessions, was.kind, now.kind);
        case BleServer(_, _) => f := FindBleServer(rt, sessions, was.kind, now.kind);
        case SppClient(_, _, _, _) => f := FindSpp(rt, was.kind, now.kind);
        case BleClient(_, _, _, _) => f := FindBle(rt, was.kind, now.kind);
        case SerialClient(_, _, _, _) => f := FindSerial(was.kind, now.kind);
      }
    }
    var dropsTncLink := false;
    var disconnects;
    if f.restart {
      if now.role == TncRole {
        dropsTncLink := TncActive(rt, bridge);
        disconnects := [];
      } else {
        disconnects := Ids(sessions);
      }
    } else {
      disconnects := Dedup(Sort(f.kick, PeerLe));
    }
    var action := if f.restart then Restarted else if f.changes == [] then Unchanged else Updated;
    p := PortPlan(now.id, action, f.changes, disconnects, dropsTncLink);
  }

  method PlanStoppedPorts(rt: Runtime, was: Bridge, now: Bridge) returns (ports: seq<PortPlan>)
    ensures ports == StoppedPorts(rt, was.id, was.ports, now.ports)
  {
    ports := [];
    for n := 0 to |was.ports|
      invariant ports == StoppedPorts(rt, was.id, was.ports[..n], now.ports)
    {
      if FindPort(now.ports, was.ports[n].id).None? { ports := ports + [PlanStop(rt, was.id, was.ports[n])]; }
      assert was.ports[..n + 1][..n] == was.ports[..n];
    }
    assert was.ports[..|was.ports|] == was.ports;
  }

  method PlanOnePort(rt: Runtime, was: Bridge, np: Port) returns (p: PortPlan)
    ensures p == PlanNewPort(rt, was, np)
  {
    match FindPort(was.ports, np.id) {
      case Some(op) => p := ComparePort(rt, was.id, op, np);
      case None => p := PlanStart(np);
    }
  }

  method PlanNewPorts(rt: Runtime, was: Bridge, now: Bridge) returns (ports: seq<PortPlan>)
    ensures ports == NewPorts(rt, was, now.ports)
  {
    ports := [];
    for n := 0 to |now.ports|
      invariant ports == NewPorts(rt, was, now.ports[..n])
    {
      var p := PlanOnePort(rt, was, now.ports[n]);
      ports := ports + [p];
    }
    assert now.ports[..|now.ports|] == now.ports;
  }

  method CompareBridge(rt: Runtime, was: Bridge, now: Bridge) returns (b: BridgePlan)
    ensures b == PlanBridge(rt, was, now)
  {
    var changes := [];
    if was.name != now.name { changes := changes + ["name"]; }
    if was.publicName != now.publicName { changes := changes + ["public_name"]; }
    if was.appParams != now.appParams { changes := changes + ["app_params"]; }
    var stopped := PlanStoppedPorts(rt, was, now);
    var others := PlanNewPorts(rt, was, now);
    var ports := stopped + others;
    b := BridgePlan(now.id, if changes == [] && AllUnchanged(ports) then Unchanged else Updated, changes, ports, false);
  }

  /** What applying `now` over `was` would do. */
  method MakePlan(rt: Runtime, was: Config, now: Config) returns (p: Plan)
    ensures p == PlanFor(rt, was, now)
  {
    var globals := [];
    if was.logLevel != now.logLevel { globals := globals + ["log_level"]; }
    if was.group != now.group { globals := globals + ["control.group"]; }
    var before, after := Running(was.bridges), Running(now.bridges);
    var bridges := [];
    for n := 0 to |before|
      invariant bridges == PlanStops(rt, before[..n], after)
    {
      if FindBridge(after, before[n].id).None? { bridges := bridges + [PlanStopBridge(rt, before[n])]; }
      assert before[..n + 1][..n] == before[..n];
    }
    assert before[..|before|] == before;
    ghost var stops := bridges;
    for n := 0 to |after|
      invariant bridges == stops + NewEntries(rt, before, after[..n])
    {
      var b;
      match FindBridge(before, after[n].id) {
        case Some(ob) => b := CompareBridge(rt, ob, after[n]);
        case None => b := PlanStartBridge(after[n]);
      }
      bridges := bridges + [b];
      assert NewEntries(rt, before, after[..n + 1]) == NewEntries(rt, before, after[..n]) + [b];
    }
    assert after[..|after|] == after;
    p := Plan(globals, bridges);
  }
}

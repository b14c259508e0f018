/** The reload planner (src/reconcile.rs): what a new effective config
    means for each bridge, port and session that runs. The functions say what
    each plan is; the methods below build it as the source does. */
module Reconcile {
  import opened Common
  import opened Sorting
  import opened BridgeState
  import opened Config

  datatype SessionView = SessionView(id: SessionId, seqNo: nat)

  datatype BridgeView = BridgeView(tncActive: bool, sessions: seq<SessionView>)

  /** The running daemon, as the plan sees it. `peerIp` is the library's
      reading of a session's peer as a socket address. */
  datatype Runtime = Runtime(
    bridges: map<string, BridgeView>,
    adapterMac: Option<AdapterSel -> Option<Mac>>,
    peerIp: string -> Option<Ip>)

  predicate SameAdapter(rt: Runtime, a: AdapterSel, b: AdapterSel) {
    || a == b
    || (rt.adapterMac.Some? && rt.adapterMac.value(a).Some? && rt.adapterMac.value(a) == rt.adapterMac.value(b))
  }

  function OnPort(sessions: seq<SessionView>, port: string): seq<SessionView> {
    if |sessions| == 0 then []
    else
      var rest := OnPort(sessions[..|sessions| - 1], port);
      if sessions[|sessions| - 1].id.port == port then rest + [sessions[|sessions| - 1]] else rest
  }

  function Ids(sessions: seq<SessionView>): seq<SessionId> {
    seq(|sessions|, i requires 0 <= i < |sessions| => sessions[i].id)
  }

  function Sessions(rt: Runtime, bridge: string, port: string): seq<SessionView> {
    if bridge in rt.bridges then OnPort(rt.bridges[bridge].sessions, port) else []
  }

  predicate TncActive(rt: Runtime, bridge: string) {
    bridge in rt.bridges && rt.bridges[bridge].tncActive
  }

  // ── Plans ───────────────────────────────────────────────────────────

  datatype Action = Unchanged | Updated | Restarted | Started | Stopped

  datatype PortPlan = PortPlan(id: string, action: Action, changes: seq<string>, disconnects: seq<SessionId>, dropsTncLink: bool)

  datatype BridgePlan = BridgePlan(id: string, action: Action, changes: seq<string>, ports: seq<PortPlan>, stopsInUse: bool)

  datatype Plan = Plan(globals: seq<string>, bridges: seq<BridgePlan>)

  datatype Disruption = StopInUse(bridge: string) | Disconnect(bridge: string, session: SessionId) | RestartTnc(bridge: string, port: string)

  function PortDisruptions(bridge: string, p: PortPlan): seq<Disruption> {
    seq(|p.disconnects|, i requires 0 <= i < |p.disconnects| => Disconnect(bridge, p.disconnects[i]))
    + (if p.dropsTncLink then [RestartTnc(bridge, p.id)] else [])
  }

  function PortsDisruptions(bridge: string, ports: seq<PortPlan>): seq<Disruption> {
    if |ports| == 0 then []
    else PortsDisruptions(bridge, ports[..|ports| - 1]) + PortDisruptions(bridge, ports[|ports| - 1])
  }

  function BridgesDisruptions(bridges: seq<BridgePlan>): seq<Disruption> {
    if |bridges| == 0 then []
    else
      var b := bridges[|bridges| - 1];
      BridgesDisruptions(bridges[..|bridges| - 1])
      + (if b.stopsInUse then [StopInUse(b.id)] else [])
      + PortsDisruptions(b.id, b.ports)
  }

  /** Why the plan is disruptive, if it is. */
  function Disruptions(plan: Plan): seq<Disruption> {
    BridgesDisruptions(plan.bridges)
  }

  // ── Ports ───────────────────────────────────────────────────────────

  function Noted(changed: bool, name: string): seq<string> {
    if changed then [name] else []
  }

  predicate Disallowed(rt: Runtime, allow: seq<IpNet>, s: SessionView) {
    rt.peerIp(s.id.peer).Some? && !Allowed(allow, rt.peerIp(s.id.peer).value)
  }

  function NotAllowed(rt: Runtime, allow: seq<IpNet>, sessions: seq<SessionView>): seq<SessionId> {
    if |sessions| == 0 then []
    else
      var rest := NotAllowed(rt, allow, sessions[..|sessions| - 1]);
      var s := sessions[|sessions| - 1];
      if Disallowed(rt, allow, s) then rest + [s.id] else rest
  }

  predicate Older(a: SessionView, b: SessionView) {
    a.seqNo <= b.seqNo
  }

  /** The newest sessions over `max`. */
  function NewestBeyond(sessions: seq<SessionView>, max: nat): seq<SessionId> {
    if |sessions| <= max then []
    else
      SortHolds(sessions, Older);
      Ids(Sort(sessions, Older)[max..])
  }

  predicate PeerLe(a: SessionId, b: SessionId) {
    StringLe(a.peer, b.peer)
  }

  /** What a comparison finds: the settings that differ, whether the port must
      restart, and the sessions to drop when it needn't. */
  datatype Found = Found(changes: seq<string>, restart: bool, kick: seq<SessionId>)

  function OptionChanges(o: LinkOptions, n: LinkOptions): seq<string> {
    Noted(o.connect != n.connect, "connect")
    + Noted(o.idleTimeout != n.idleTimeout, "idle_timeout")
    + Noted(o.exitKiss != n.exitKiss, "exit_kiss_on_disconnect")
  }

  function TncChanges(o: PortKind, n: PortKind): seq<string>
    requires TncOf(o).Some? && TncOf(n).Some?
  {
    Noted(o.model != n.model, "model") + Noted(o.tnc != n.tnc, "tnc") + OptionChanges(o.options, n.options)
  }

  function CompareTcpServer(rt: Runtime, sessions: seq<SessionView>, o: PortKind, n: PortKind): Found
    requires o.TcpServer? && n.TcpServer?
  {
    var announce := Noted(o.announce != n.announce, "announce");
    if o.listen != n.listen then Found(["listen"] + announce, true, [])
    else
      Found(
        Noted(o.allow != n.allow, "allow") + Noted(o.maxClients != n.maxClients, "max_clients") + announce,
        false,
        (if o.allow != n.allow then NotAllowed(rt, n.allow, sessions) else [])
        + (if o.maxClients != n.maxClients && n.maxClients.Some? then NewestBeyond(sessions, n.maxClients.value) else []))
  }

  function CompareBleServer(rt: Runtime, sessions: seq<SessionView>, o: PortKind, n: PortKind): Found
    requires o.BleServer? && n.BleServer?
  {
    if !SameAdapter(rt, o.adapter, n.adapter) then Found(["adapter"], true, [])
    else if o.maxPhones != n.maxPhones then Found(["max_clients"], false, NewestBeyond(sessions, n.maxPhones))
    else Found([], false, [])
  }

  function CompareSpp(rt: Runtime, o: PortKind, n: PortKind): Found
    requires o.SppClient? && n.SppClient?
  {
    var spp := o.spp.address != n.spp.address || o.spp.channel != n.spp.channel;
    var adapter := !spp && !SameAdapter(rt, o.spp.adapter, n.spp.adapter);
    Found(
      Noted(spp, "spp") + Noted(adapter, "spp.adapter") + TncChanges(o, n),
      spp || adapter || o.model != n.model,
      [])
  }

  function CompareBle(rt: Runtime, o: PortKind, n: PortKind): Found
    requires o.BleClient? && n.BleClient?
  {
    var ble := o.ble.address != n.ble.address;
    var adapter := !ble && !SameAdapter(rt, o.ble.adapter, n.ble.adapter);
    Found(
      Noted(ble, "ble") + Noted(adapter, "ble.adapter") + TncChanges(o, n),
      ble || adapter || o.model != n.model,
      [])
  }

  function CompareSerial(o: PortKind, n: PortKind): Found
    requires o.SerialClient? && n.SerialClient?
  {
    Found(
      Noted(o.serial != n.serial, "serial") + TncChanges(o, n),
      o.serial != n.serial || o.model != n.model,
      [])
  }

  function CompareTcpClient(o: PortKind, n: PortKind): Found
    requires o.TcpClient? && n.TcpClient?
  {
    var address := o.host != n.host || o.port != n.port;
    Found(
      Noted(address, "address") + Noted(o.connect != n.connect, "connect") + Noted(o.idleTimeout != n.idleTimeout, "idle_timeout"),
      address,
      [])
  }

  predicate SameKind(o: PortKind, n: PortKind) {
    match o
    case TcpClient(_, _, _, _) => n.TcpClient?
    case TcpServer(_, _, _, _) => n.TcpServer?
    case BleServer(_, _) => n.BleServer?
    case SppClient(_, _, _, _) => n.SppClient?
    case BleClient(_, _, _, _) => n.BleClient?
    case SerialClient(_, _, _, _) => n.SerialClient?
  }

  function Compared(rt: Runtime, sessions: seq<SessionView>, was: Port, now: Port): Found {
    if was.role != now.role then Found(["role"], true, [])
    else if !SameKind(was.kind, now.kind) then Found(["type"], true, [])
    else
      match was.kind
      case TcpClient(_, _, _, _) => CompareTcpClient(was.kind, now.kind)
      case TcpServer(_, _, _, _) => CompareTcpServer(rt, sessions, was.kind, now.kind)
      case BleServer(_, _) => CompareBleServer(rt, sessions, was.kind, now.kind)
      case SppClient(_, _, _, _) => CompareSpp(rt, was.kind, now.kind)
      case BleClient(_, _, _, _) => CompareBle(rt, was.kind, now.kind)
      case SerialClient(_, _, _, _) => CompareSerial(was.kind, now.kind)
  }

  function KickList(kick: seq<SessionId>): seq<SessionId> {
    Dedup(Sort(kick, PeerLe))
  }

  function PlanPort(rt: Runtime, bridge: string, was: Port, now: Port): PortPlan {
    var sessions := Sessions(rt, bridge, was.id);
    var f := Compared(rt, sessions, was, now);
    var tnc := now.role == TncRole;
    PortPlan(
      now.id,
      if f.restart then Restarted else if |f.changes| == 0 then Unchanged else Updated,
      f.changes,
      if f.restart then (if tnc then [] else Ids(sessions)) else KickList(f.kick),
      f.restart && tnc && TncActive(rt, bridge))
  }

  function PlanStart(p: Port): PortPlan {
    PortPlan(p.id, Started, [], [], false)
  }

  function PlanStop(rt: Runtime, bridge: string, p: Port): PortPlan {
    PortPlan(p.id, Stopped, [], Ids(Sessions(rt, bridge, p.id)), false)
  }

  // ── Bridges ─────────────────────────────────────────────────────────

  function FindPort(ports: seq<Port>, id: string): Option<Port> {
    if |ports| == 0 then None
    else if ports[0].id == id then Some(ports[0])
    else FindPort(ports[1..], id)
  }

  function StoppedPorts(rt: Runtime, bridge: string, was: seq<Port>, now: seq<Port>): seq<PortPlan> {
    if |was| == 0 then []
    else
      var rest := StoppedPorts(rt, bridge, was[..|was| - 1], now);
      var p := was[|was| - 1];
      if FindPort(now, p.id).None? then rest + [PlanStop(rt, bridge, p)] else rest
  }

  function PlanNewPort(rt: Runtime, was: Bridge, p: Port): PortPlan {
    match FindPort(was.ports, p.id)
    case Some(op) => PlanPort(rt, was.id, op, p)
    case None => PlanStart(p)
  }

  function NewPorts(rt: Runtime, was: Bridge, now: seq<Port>): seq<PortPlan> {
    seq(|now|, i requires 0 <= i < |now| => PlanNewPort(rt, was, now[i]))
  }

  predicate AllUnchanged(ports: seq<PortPlan>) {
    forall i :: 0 <= i < |ports| ==> ports[i].action == Unchanged
  }

  function PlanBridge(rt: Runtime, was: Bridge, now: Bridge): BridgePlan {
    var changes :=
      Noted(was.name != now.name, "name") + Noted(was.publicName != now.publicName, "public_name")
      + Noted(was.appParams != now.appParams, "app_params");
    var ports := StoppedPorts(rt, was.id, was.ports, now.ports) + NewPorts(rt, was, now.ports);
    BridgePlan(now.id, if |changes| == 0 && AllUnchanged(ports) then Unchanged else Updated, changes, ports, false)
  }

  function PlanStopBridge(rt: Runtime, b: Bridge): BridgePlan {
    var ports := seq(|b.ports|, i requires 0 <= i < |b.ports| => PlanStop(rt, b.id, b.ports[i]));
    BridgePlan(b.id, Stopped, [], ports,
               TncActive(rt, b.id) || exists i :: 0 <= i < |ports| && |ports[i].disconnects| > 0)
  }

  function PlanStartBridge(b: Bridge): BridgePlan {
    BridgePlan(b.id, Started, [], seq(|b.ports|, i requires 0 <= i < |b.ports| => PlanStart(b.ports[i])), false)
  }

  // ── The whole plan ──────────────────────────────────────────────────

  /** Into a table ordered by id; an equal id is replaced. */
  function Put(table: seq<Bridge>, b: Bridge): seq<Bridge> {
    if |table| == 0 then [b]
    else if table[0].id == b.id then [b] + table[1..]
    else if StringLe(b.id, table[0].id) then [b] + table
    else [table[0]] + Put(table[1..], b)
  }

  /** The enabled bridges, by id. */
  function Running(bridges: seq<Bridge>): seq<Bridge> {
    if |bridges| == 0 then []
    else
      var rest := Running(bridges[..|bridges| - 1]);
      if bridges[|bridges| - 1].enabled then Put(rest, bridges[|bridges| - 1]) else rest
  }

  function FindBridge(bridges: seq<Bridge>, id: string): Option<Bridge> {
    if |bridges| == 0 then None
    else if bridges[0].id == id then Some(bridges[0])
    else FindBridge(bridges[1..], id)
  }

  function PlanStops(rt: Runtime, before: seq<Bridge>, after: seq<Bridge>): seq<BridgePlan> {
    if |before| == 0 then []
    else
      var rest := PlanStops(rt, before[..|before| - 1], after);
      var b := before[|before| - 1];
      if FindBridge(after, b.id).None? then rest + [PlanStopBridge(rt, b)] else rest
  }

  function PlanNewBridge(rt: Runtime, before: seq<Bridge>, b: Bridge): BridgePlan {
    match FindBridge(before, b.id)
    case Some(ob) => PlanBridge(rt, ob, b)
    case None => PlanStartBridge(b)
  }

  function NewEntries(rt: Runtime, before: seq<Bridge>, after: seq<Bridge>): seq<BridgePlan> {
    seq(|after|, i requires 0 <= i < |after| => PlanNewBridge(rt, before, after[i]))
  }

  function PlanFor(rt: Runtime, was: Config, now: Config): Plan {
    var before, after := Running(was.bridges), Running(now.bridges);
    Plan(
      Noted(was.logLevel != now.logLevel, "log_level") + Noted(was.group != now.group, "control.group"),
      PlanStops(rt, before, after) + NewEntries(rt, before, after))
  }
}

/** Applying a plan (`Daemon::apply` and what it calls, src/supervisor.rs), as
    functions of what is running. `Daemon` runs the same thing step by step. */
module Reload {
  import opened Common
  import opened BridgeState
  import opened Config
  import opened Reconcile

  /** A port that runs. A TNC port lives inside its bridge; the others accept
      sessions of their own. */
  datatype RunningPort =
    | TncPort
    | TcpPort(listen: Listen, maxClients: Option<nat>, allow: seq<IpNet>, following: bool)
    | BlePort(maxPhones: nat)

  /** `settings` is what the bridge was last told about its TNC port, `held`
      whether somebody holds its link up or down, and `connector` the port its
      connector was made for: what the bridge dials. */
  datatype RunningBridge = RunningBridge(cfg: Bridge, ports: map<string, RunningPort>, sessions: seq<SessionView>, linkUp: bool,
                                         settings: Settings, held: Option<bool>, connector: PortKind)

  type World = map<string, RunningBridge>

  /** Ports the host won't let start this time: no adapter, no device. */
  type Broken = set<(string, string)>

  function Get(w: World, id: string): Option<RunningBridge> {
    if id in w then Some(w[id]) else None
  }

  function Set(w: World, id: string, rb: Option<RunningBridge>): World {
    if rb.Some? then w[id := rb.value] else w - {id}
  }

  function PortOf(rb: RunningBridge, id: string): Option<RunningPort> {
    if id in rb.ports then Some(rb.ports[id]) else None
  }

  function SetPort(ports: map<string, RunningPort>, id: string, rp: Option<RunningPort>): map<string, RunningPort> {
    if rp.Some? then ports[id := rp.value] else ports - {id}
  }

  // ── What each pass does to a port ───────────────────────────────────

  datatype Pass = Stops | Updates | Starts

  predicate ToStop(rp: Option<RunningPort>, pp: PortPlan) {
    pp.action == Stopped || (pp.action == Restarted && rp != Some(TncPort))
  }

  predicate ToStart(rp: Option<RunningPort>, pp: PortPlan) {
    pp.action == Started || (pp.action == Restarted && rp.None?)
  }

  /** A port's live settings. */
  function WithSettings(rp: RunningPort, p: Port): RunningPort {
    match (rp, p.kind)
    case (TcpPort(listen, _, _, _), TcpServer(_, max, allow, announce)) => TcpPort(listen, max, allow, announce)
    case (BlePort(_), BleServer(_, max)) => BlePort(max)
    case _ => rp
  }

  /** A port started: the kinds that connect out have nothing to start. */
  function Launched(rp: Option<RunningPort>, p: Port, broken: bool): Option<RunningPort> {
    match p.kind
    case TcpServer(listen, max, allow, announce) => Some(TcpPort(listen, max, allow, announce))
    case BleServer(_, max) => if broken then rp else Some(BlePort(max))
    case _ => rp
  }

  function PortAfter(pass: Pass, rp: Option<RunningPort>, pp: PortPlan, nb: Bridge, broken: Broken): Option<RunningPort> {
    var np := FindPort(nb.ports, pp.id);
    match pass
    case Stops => if ToStop(rp, pp) then None else rp
    case Updates => if pp.action == Updated && rp.Some? && np.Some? then Some(WithSettings(rp.value, np.value)) else rp
    case Starts => if ToStart(rp, pp) && np.Some? then Launched(rp, np.value, (nb.id, pp.id) in broken) else rp
  }

  /** Whether the pass ends a session: its port stops, or it is kicked. */
  predicate Ends(pass: Pass, rp: Option<RunningPort>, pp: PortPlan, nb: Bridge, s: SessionId) {
    match pass
    case Stops => ToStop(rp, pp) && rp.Some? && rp != Some(TncPort) && s.port == pp.id
    case Updates => pp.action == Updated && FindPort(nb.ports, pp.id).Some? && s in pp.disconnects
    case Starts => false
  }

  /** A TNC port connects out: a server kind can't be one, whatever the host. */
  predicate ConnectsOut(k: PortKind) {
    !k.TcpServer? && !k.BleServer?
  }

  /** Whether a connector for the port can be made. */
  predicate CanConnect(nb: Bridge, p: Port, broken: Broken) {
    ConnectsOut(p.kind) && (nb.id, p.id) !in broken
  }

  /** Whether the pass gives the TNC link a new connector. */
  predicate Reconnects(pass: Pass, rp: Option<RunningPort>, pp: PortPlan, nb: Bridge, broken: Broken) {
    && pass == Updates && pp.action == Restarted && rp == Some(TncPort)
    && var np := FindPort(nb.ports, pp.id); np.Some? && CanConnect(nb, np.value, broken)
  }

  function Without(s: seq<SessionView>, pass: Pass, rp: Option<RunningPort>, pp: PortPlan, nb: Bridge): seq<SessionView> {
    if |s| == 0 then []
    else
      var rest := Without(s[..|s| - 1], pass, rp, pp, nb);
      if Ends(pass, rp, pp, nb, s[|s| - 1].id) then rest else rest + [s[|s| - 1]]
  }

  /** With no session left, the bridge closes the link at once: nothing else
      wants it, and there is no timeout to wait for. */
  predicate LetsGo(held: Option<bool>, settings: Settings) {
    !(match held case Some(up) => up case None => settings.connect == Always) && settings.idleTimeout == 0
  }

  predicate LastLeaves(rb: RunningBridge, left: seq<SessionView>) {
    |rb.sessions| > 0 && |left| == 0 && LetsGo(rb.held, rb.settings)
  }

  /** New settings close the link: it was to be kept up and now isn't, with no
      session there and no timeout. The hold isn't looked at. */
  predicate SettingsClose(was: Settings, now: Settings, sessions: seq<SessionView>) {
    was.connect == Always && now.connect == OnDemand && |sessions| == 0 && now.idleTimeout == 0
  }

  function PortStep(pass: Pass, rb: RunningBridge, pp: PortPlan, nb: Bridge, broken: Broken): RunningBridge {
    var rp := PortOf(rb, pp.id);
    var left := Without(rb.sessions, pass, rp, pp, nb);
    var reconnects := Reconnects(pass, rp, pp, nb, broken);
    rb.(ports := SetPort(rb.ports, pp.id, PortAfter(pass, rp, pp, nb, broken)),
        sessions := left,
        linkUp := rb.linkUp && !reconnects && !LastLeaves(rb, left),
        connector := if reconnects then FindPort(nb.ports, pp.id).value.kind else rb.connector)
  }

  function PortSteps(pass: Pass, rb: RunningBridge, pps: seq<PortPlan>, nb: Bridge, broken: Broken): RunningBridge {
    if |pps| == 0 then rb
    else PortStep(pass, PortSteps(pass, rb, pps[..|pps| - 1], nb, broken), pps[|pps| - 1], nb, broken)
  }

  // ── What each pass does to a bridge ─────────────────────────────────

  function FirstTnc(ports: seq<Port>): Option<Port> {
    if |ports| == 0 then None
    else if ports[0].role == TncRole then Some(ports[0])
    else FirstTnc(ports[1..])
  }

  function StartApps(rb: RunningBridge, nb: Bridge, ports: seq<Port>, broken: Broken): RunningBridge {
    if |ports| == 0 then rb
    else
      var before := StartApps(rb, nb, ports[..|ports| - 1], broken);
      var p := ports[|ports| - 1];
      if p.role == AppRole
      then before.(ports := SetPort(before.ports, p.id, Launched(PortOf(before, p.id), p, (nb.id, p.id) in broken)))
      else before
  }

  /** A TNC port's settings, as its bridge is told them. */
  function SettingsOf(b: Bridge, tnc: Port): Settings
    requires ConnectsOut(tnc.kind)
  {
    match tnc.kind
    case TcpClient(_, _, connect, idle) => Settings(tnc.id, connect, idle, b.appParams, false)
    case SppClient(_, _, _, o) => Settings(tnc.id, o.connect, o.idleTimeout, b.appParams, o.exitKiss)
    case BleClient(_, _, _, o) => Settings(tnc.id, o.connect, o.idleTimeout, b.appParams, o.exitKiss)
    case SerialClient(_, _, _, o) => Settings(tnc.id, o.connect, o.idleTimeout, b.appParams, o.exitKiss)
  }

  /** `settings_for`. */
  function SettingsFor(b: Bridge): Option<Settings> {
    match FirstTnc(b.ports)
    case Some(tnc) => if ConnectsOut(tnc.kind) then Some(SettingsOf(b, tnc)) else None
    case None => None
  }

  /** Whether the second pass has news for the bridge's TNC port. */
  predicate TncUpdated(rb: RunningBridge, bp: BridgePlan) {
    || "app_params" in bp.changes
    || exists i :: 0 <= i < |bp.ports| && bp.ports[i].action == Updated && PortOf(rb, bp.ports[i].id) == Some(TncPort)
  }

  /** The bridge takes its new settings, and may close the link over them. */
  function WithTncSettings(rb: RunningBridge, new_: Settings): RunningBridge {
    rb.(settings := new_, linkUp := rb.linkUp && !SettingsClose(rb.settings, new_, rb.sessions))
  }

  function Told(rb: RunningBridge, bp: BridgePlan, nb: Bridge): RunningBridge {
    if TncUpdated(rb, bp) && SettingsFor(nb).Some? then WithTncSettings(rb, SettingsFor(nb).value) else rb
  }

  /** A bridge just started, before its app ports are. */
  function Bare(nb: Bridge, tnc: Port): RunningBridge
    requires ConnectsOut(tnc.kind)
  {
    RunningBridge(nb, map[tnc.id := TncPort], [], false, SettingsOf(nb, tnc), None, tnc.kind)
  }

  function BridgeStarted(was: Option<RunningBridge>, nb: Bridge, broken: Broken): Option<RunningBridge> {
    match FirstTnc(nb.ports)
    case None => was
    case Some(tnc) => if CanConnect(nb, tnc, broken) then Some(StartApps(Bare(nb, tnc), nb, nb.ports, broken)) else was
  }

  function BridgeStep(pass: Pass, rb: Option<RunningBridge>, bp: BridgePlan, now: Config, broken: Broken): Option<RunningBridge> {
    var nb := FindBridge(now.bridges, bp.id);
    match pass
    case Stops =>
      if bp.action == Stopped then None
      else if bp.action == Updated && rb.Some? then Some(PortSteps(Stops, rb.value, bp.ports, rb.value.cfg, broken))
      else rb
    case Updates =>
      if bp.action == Updated && rb.Some? && nb.Some?
      then Some(PortSteps(Updates, Told(rb.value, bp, nb.value), bp.ports, nb.value, broken).(cfg := nb.value))
      else rb
    case Starts =>
      if nb.None? then rb
      else if bp.action == Started then BridgeStarted(rb, nb.value, broken)
      else if bp.action == Updated && rb.Some? then Some(PortSteps(Starts, rb.value, bp.ports, nb.value, broken))
      else rb
  }

  function BridgeSteps(pass: Pass, w: World, bps: seq<BridgePlan>, now: Config, broken: Broken): World {
    if |bps| == 0 then w
    else
      var before := BridgeSteps(pass, w, bps[..|bps| - 1], now, broken);
      var bp := bps[|bps| - 1];
      Set(before, bp.id, BridgeStep(pass, Get(before, bp.id), bp, now, broken))
  }

  function Refreshed(rb: RunningBridge, id: string, now: Config): RunningBridge {
    match FindBridge(now.bridges, id)
    case Some(nb) => rb.(cfg := nb)
    case None => rb
  }

  function Refresh(w: World, now: Config): World {
    map id | id in w :: Refreshed(w[id], id, now)
  }

  /** Everything `apply` does. */
  function Applied(w: World, plan: Plan, now: Config, broken: Broken): World {
    var stopped := BridgeSteps(Stops, w, plan.bridges, now, broken);
    var updated := BridgeSteps(Updates, stopped, plan.bridges, now, broken);
    Refresh(BridgeSteps(Starts, updated, plan.bridges, now, broken), now)
  }

  /** What the planner sees of the running daemon. */
  function RuntimeOf(w: World, adapterMac: AdapterSel -> Option<Mac>, peerIp: string -> Option<Ip>): Runtime {
    Runtime(map id | id in w :: BridgeView(w[id].linkUp, w[id].sessions), Some(adapterMac), peerIp)
  }
}

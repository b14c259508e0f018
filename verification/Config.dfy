/** The effective config, after every reference is resolved
    (src/config/resolve.rs). */
module Config {
  import opened Common
  import opened Policy
  import opened BridgeState

  /** The file an object comes from. */
  datatype Source = Static(file: string) | Dynamic

  datatype Mac = Mac(octets: seq<byte>)

  /** The Bluetooth adapter a port uses. */
  datatype AdapterSel = DefaultAdapter | AdapterMac(mac: Mac) | Hci(name: string)

  datatype Ip = V4(bits: nat) | V6(bits: nat)

  function Width(ip: Ip): nat {
    if ip.V4? then 32 else 128
  }

  predicate Unspecified(ip: Ip) {
    ip.bits == 0
  }

  /** The binding of a `tcp-server`. */
  datatype Listen = Addr(ip: Ip, port: nat) | Interface(name: string, port: nat)

  /** Two bindings the host couldn't both grant. */
  predicate ConflictsWith(a: Listen, b: Listen) {
    && a.port == b.port
    && match (a, b)
       case (Addr(i, _), Addr(j, _)) => i == j || Unspecified(i) || Unspecified(j)
       case (Interface(m, _), Interface(n, _)) => m == n
       case (Interface(_, _), Addr(i, _)) => Unspecified(i)
       case (Addr(i, _), Interface(_, _)) => Unspecified(i)
  }

  datatype IpNet = IpNet(addr: Ip, prefix: nat)

  function Power2(n: int): nat {
    if n <= 0 then 1 else 2 * Power2(n - 1)
  }

  lemma Power2Positive(n: int)
    ensures Power2(n) > 0
  {
  }

  /** The address and the network agree on the network's prefix. */
  predicate Contains(net: IpNet, ip: Ip) {
    Power2Positive(Width(ip) - net.prefix);
    && net.addr.V4? == ip.V4?
    && net.addr.bits / Power2(Width(ip) - net.prefix) == ip.bits / Power2(Width(ip) - net.prefix)
  }

  /** An IPv4 peer of a dual-stack listener, as itself. */
  function Unmapped(ip: Ip): Ip {
    if ip.V6? && ip.bits / 0x1_0000_0000 == 0xFFFF then V4(ip.bits % 0x1_0000_0000) else ip
  }

  /** Whether a peer may connect (src/port/listen.rs). */
  predicate Allowed(allow: seq<IpNet>, peer: Ip) {
    |allow| == 0 || exists net :: net in allow && Contains(net, Unmapped(peer))
  }

  datatype Role = TncRole | AppRole

  datatype Spp = Spp(address: Mac, adapter: AdapterSel, channel: Option<nat>)

  datatype Ble = Ble(address: Mac, adapter: AdapterSel)

  datatype Serial = Serial(path: string, baud: nat)

  /** `connect`, `idle_timeout` and `exit_kiss_on_disconnect` of a TNC port. */
  datatype LinkOptions = LinkOptions(connect: ConnectPolicy, idleTimeout: nat, exitKiss: bool)

  datatype PortKind =
    | TcpClient(host: string, port: nat, connect: ConnectPolicy, idleTimeout: nat)
    | TcpServer(listen: Listen, maxClients: Option<nat>, allow: seq<IpNet>, announce: bool)
    | BleServer(adapter: AdapterSel, maxPhones: nat)
    | SppClient(tnc: string, model: string, spp: Spp, options: LinkOptions)
    | BleClient(tnc: string, model: string, ble: Ble, options: LinkOptions)
    | SerialClient(tnc: string, model: string, serial: Serial, options: LinkOptions)

  datatype Port = Port(id: string, role: Role, kind: PortKind)

  function TncOf(k: PortKind): Option<string> {
    match k
    case SppClient(tnc, _, _, _) => Some(tnc)
    case BleClient(tnc, _, _, _) => Some(tnc)
    case SerialClient(tnc, _, _, _) => Some(tnc)
    case _ => None
  }

  datatype Adapter = Adapter(id: string, mac: Mac, source: Source)

  datatype Tnc = Tnc(id: string, name: string, model: string, spp: Option<Spp>, ble: Option<Ble>,
                     serial: Option<Serial>, source: Source)

  datatype Bridge = Bridge(id: string, name: string, publicName: string, enabled: bool,
                           enabledOverride: Option<bool>, appParams: AppParams, ports: seq<Port>, source: Source)

  datatype Config = Config(logLevel: string, adapter: AdapterSel, group: string,
                           adapters: seq<Adapter>, tncs: seq<Tnc>, bridges: seq<Bridge>)

  function CountRole(ports: seq<Port>, role: Role): nat {
    if |ports| == 0 then 0
    else CountRole(ports[..|ports| - 1], role) + (if ports[|ports| - 1].role == role then 1 else 0)
  }

  /** Nothing for `incomplete` to report. */
  predicate Complete(b: Bridge) {
    CountRole(b.ports, TncRole) == 1 && CountRole(b.ports, AppRole) > 0
  }
}

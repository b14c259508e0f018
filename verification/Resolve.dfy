/** From config files to the effective config (src/config/model.rs and
    `resolve` in src/config/resolve.rs). A file is given with its plain values
    already read: `Bad` is a text that doesn't parse. References to adapters
    and TNCs are text, as written. */
module Resolve {
  import opened Common
  import opened Policy
  import opened BridgeState
  import opened Config
  import Calendar

  // ── Files ───────────────────────────────────────────────────────────

  datatype Text<T> = Good(value: T) | Bad

  datatype AdapterDef = AdapterDef(id: string, mac: string)

  datatype SppDef = SppDef(address: string, adapter: Option<string>, channel: Option<nat>)

  datatype BleDef = BleDef(address: string, adapter: Option<string>)

  datatype SerialDef = SerialDef(path: string, baud: Option<nat>)

  datatype TncDef = TncDef(id: string, name: Option<string>, model: Option<Text<string>>,
                           spp: Option<SppDef>, ble: Option<BleDef>, serial: Option<SerialDef>)

  datatype Transport = OverSpp | OverBle | OverSerial

  datatype KindDef =
    | TcpClientDef(address: Text<(string, nat)>, connect: Option<ConnectPolicy>, idle: Option<Text<nat>>)
    | TcpServerDef(listen: Text<Listen>, maxClients: Option<nat>, allow: seq<Text<IpNet>>, announce: Option<bool>)
    | BleServerDef(adapter: Option<string>, maxPhones: Option<nat>)
    | TncPortDef(over: Transport, tnc: string, connect: Option<ConnectPolicy>, idle: Option<Text<nat>>, exitKiss: Option<bool>)

  /** `stray`: it has a key that ports of its type don't, which no loader takes. */
  datatype PortDef = PortDef(id: Option<string>, role: Option<Role>, kind: KindDef, stray: bool)

  datatype BridgeDef = BridgeDef(id: Option<string>, name: string, enabled: Option<bool>, publicName: Option<string>,
                                 appParams: Option<AppParams>, ports: seq<PortDef>)

  datatype ConfigFile = ConfigFile(logLevel: Option<string>, adapter: Option<string>, group: Option<string>,
                                   adapters: seq<AdapterDef>, tncs: seq<TncDef>, bridges: seq<BridgeDef>)

  /** A definition and where it is. */
  datatype At<T> = At(source: Source, def: T)

  type Files = seq<At<ConfigFile>>

  // ── Values ──────────────────────────────────────────────────────────

  const MAX_ID_LEN := 15

  predicate IdChar(ch: char) {
    'a' <= ch <= 'z' || '0' <= ch <= '9' || ch == '-'
  }

  /** `check_id`. */
  predicate GoodId(id: string) {
    0 < |id| <= MAX_ID_LEN && forall i :: 0 <= i < |id| ==> IdChar(id[i])
  }

  predicate Space(ch: char) {
    var c := ch as int;
    || 9 <= c <= 13 || c == 0x20 || c == 0x85 || c == 0xA0 || c == 0x1680 || 0x2000 <= c <= 0x200A
    || c == 0x2028 || c == 0x2029 || c == 0x202F || c == 0x205F || c == 0x3000
  }

  /** Nothing left after trimming. */
  predicate Blank(s: string) {
    forall i :: 0 <= i < |s| ==> Space(s[i])
  }

  function HexDigit(ch: char): Option<int> {
    if '0' <= ch <= '9' then Some(ch as int - '0' as int)
    else if 'a' <= ch <= 'f' then Some(ch as int - 'a' as int + 10)
    else if 'A' <= ch <= 'F' then Some(ch as int - 'A' as int + 10)
    else None
  }

  /** Two characters as an octet; the library takes a plus sign too. */
  function Octet(a: char, b: char): Option<byte> {
    match (HexDigit(a), HexDigit(b))
    case (Some(x), Some(y)) => Some(16 * x + y)
    case (None, Some(y)) => if a == '+' then Some(y) else None
    case _ => None
  }

  function Octets(s: string): Option<seq<byte>>
    requires |s| % 3 == 2
  {
    match Octet(s[0], s[1])
    case None => None
    case Some(o) =>
      if |s| == 2 then Some([o])
      else if s[2] != ':' then None
      else
        match Octets(s[3..])
        case Some(rest) => Some([o] + rest)
        case None => None
  }

  function ParseMac(s: string): Option<Mac> {
    if |s| != 17 then None
    else
      match Octets(s)
      case Some(octets) => Some(Mac(octets))
      case None => None
  }

  predicate HciName(s: string) {
    |s| > 3 && s[..3] == "hci" && forall i :: 3 <= i < |s| ==> '0' <= s[i] <= '9'
  }

  /** An adapter value is an id when it is neither a MAC nor an `hciN` name. */
  predicate IsId(s: string) {
    ParseMac(s).None? && !HciName(s)
  }

  // ── References ──────────────────────────────────────────────────────

  /** The adapter of that id; of several, the last. */
  function AdapterById(adapters: seq<Adapter>, id: string): Option<Adapter> {
    if |adapters| == 0 then None
    else if adapters[|adapters| - 1].id == id then Some(adapters[|adapters| - 1])
    else AdapterById(adapters[..|adapters| - 1], id)
  }

  /** What a file may refer to: static config only to static objects. */
  predicate Visible(from: Source, defined: Source) {
    from.Static? ==> defined.Static?
  }

  /** An adapter value in a file of `source`; none when it refers to nothing,
      or to what it may not. */
  function ResolveAdapterValue(adapters: seq<Adapter>, value: string, source: Source): Option<AdapterSel> {
    if ParseMac(value).Some? then Some(AdapterMac(ParseMac(value).value))
    else if HciName(value) then Some(Hci(value))
    else
      match AdapterById(adapters, value)
      case Some(a) => if Visible(source, a.source) then Some(AdapterMac(a.mac)) else None
      case None => None
  }

  /** With the fallback to the global adapter. */
  function ResolveOrGlobal(adapters: seq<Adapter>, global: AdapterSel, value: Option<string>, source: Source): Option<AdapterSel> {
    if value.Some? then ResolveAdapterValue(adapters, value.value, source) else Some(global)
  }

  /** The TNC of that id; of several, the first. */
  function TncById(tncs: seq<Tnc>, id: string): Option<Tnc> {
    if |tncs| == 0 then None
    else if tncs[0].id == id then Some(tncs[0])
    else TncById(tncs[1..], id)
  }

  // ── Adapters and TNCs ───────────────────────────────────────────────

  function ResolveAdapter(d: At<AdapterDef>): Option<Adapter> {
    if GoodId(d.def.id) && IsId(d.def.id) && ParseMac(d.def.mac).Some?
    then Some(Adapter(d.def.id, ParseMac(d.def.mac).value, d.source))
    else None
  }

  function ResolveSpp(adapters: seq<Adapter>, global: AdapterSel, d: SppDef, source: Source): Option<Spp> {
    var adapter, address := ResolveOrGlobal(adapters, global, d.adapter, source), ParseMac(d.address);
    if adapter.Some? && address.Some? && (d.channel.Some? ==> 1 <= d.channel.value <= 30)
    then Some(Spp(address.value, adapter.value, d.channel))
    else None
  }

  function ResolveBle(adapters: seq<Adapter>, global: AdapterSel, d: BleDef, source: Source): Option<Ble> {
    var adapter, address := ResolveOrGlobal(adapters, global, d.adapter, source), ParseMac(d.address);
    if adapter.Some? && address.Some? then Some(Ble(address.value, adapter.value)) else None
  }

  function ResolveSerial(d: SerialDef): Option<Serial> {
    var baud := if d.baud.Some? then d.baud.value else 9600;
    if |d.path| > 0 && d.path[0] == '/' && baud > 0 then Some(Serial(d.path, baud)) else None
  }

  function TncName(d: TncDef): string {
    if d.name.Some? then d.name.value else d.id
  }

  function ResolveTnc(adapters: seq<Adapter>, global: AdapterSel, d: At<TncDef>): Option<Tnc> {
    var def := d.def;
    var spp := if def.spp.Some? then ResolveSpp(adapters, global, def.spp.value, d.source) else None;
    var ble := if def.ble.Some? then ResolveBle(adapters, global, def.ble.value, d.source) else None;
    var serial := if def.serial.Some? then ResolveSerial(def.serial.value) else None;
    if
      && GoodId(def.id) && !Blank(TncName(def)) && def.model != Some(Bad)
      && (def.spp.Some? ==> spp.Some?) && (def.ble.Some? ==> ble.Some?) && (def.serial.Some? ==> serial.Some?)
      && (def.spp.Some? || def.ble.Some? || def.serial.Some?)
    then
      Some(Tnc.Tnc(def.id, TncName(def), if def.model.Some? then def.model.value.value else "generic", spp, ble, serial, d.source))
    else None
  }

  // ── Bridges ─────────────────────────────────────────────────────────

  function TypeName(k: KindDef): string {
    match k
    case TcpClientDef(_, _, _) => "tcp-client"
    case TcpServerDef(_, _, _, _) => "tcp-server"
    case BleServerDef(_, _) => "ble-server"
    case TncPortDef(over, _, _, _, _) =>
      (match over case OverSpp => "spp-client" case OverBle => "ble-client" case OverSerial => "serial")
  }

  function DefaultRole(k: KindDef): Role {
    match k
    case TcpClientDef(_, _, _) => TncRole
    case TncPortDef(_, _, _, _, _) => TncRole
    case TcpServerDef(_, _, _, _) => AppRole
    case BleServerDef(_, _) => AppRole
  }

  function CountType(ports: seq<PortDef>, name: string): nat {
    if |ports| == 0 then 0
    else CountType(ports[..|ports| - 1], name) + (if TypeName(ports[|ports| - 1].kind) == name then 1 else 0)
  }

  /** A port's id, or its type and how many of that type came before. */
  function PortId(before: seq<PortDef>, p: PortDef): string {
    if p.id.Some? then p.id.value else TypeName(p.kind) + Calendar.Decimal(CountType(before, TypeName(p.kind)))
  }

  function PortRole(p: PortDef): Role {
    if p.role.Some? then p.role.value else DefaultRole(p.kind)
  }

  function Idle(t: Option<Text<nat>>): Option<nat> {
    match t
    case None => Some(0)
    case Some(Good(n)) => Some(n)
    case Some(Bad) => None
  }

  function Connect(c: Option<ConnectPolicy>): ConnectPolicy {
    if c.Some? then c.value else OnDemand
  }

  function Nets(allow: seq<Text<IpNet>>): seq<IpNet>
    requires forall i :: 0 <= i < |allow| ==> allow[i].Good?
  {
    seq(|allow|, i requires 0 <= i < |allow| => allow[i].value)
  }

  predicate Loopback(l: Listen) {
    l.Addr? && (if l.ip.V4? then l.ip.bits / 0x100_0000 == 127 else l.ip.bits == 1)
  }

  /** A port that uses a TNC: it must be there, be visible, and have the
      section the port needs. */
  function ResolveTncPort(tncs: seq<Tnc>, k: KindDef, source: Source): Option<PortKind>
    requires k.TncPortDef?
  {
    var idle := Idle(k.idle);
    match TncById(tncs, k.tnc)
    case None => None
    case Some(t) =>
      if idle.None? || !Visible(source, t.source) then None
      else
        var options := LinkOptions(Connect(k.connect), idle.value, k.exitKiss == Some(true));
        match k.over
        case OverSpp => if t.spp.Some? then Some(SppClient(t.id, t.model, t.spp.value, options)) else None
        case OverBle => if t.ble.Some? then Some(BleClient(t.id, t.model, t.ble.value, options)) else None
        case OverSerial => if t.serial.Some? then Some(SerialClient(t.id, t.model, t.serial.value, options)) else None
  }

  function ResolveKind(adapters: seq<Adapter>, global: AdapterSel, tncs: seq<Tnc>, k: KindDef, source: Source): Option<PortKind> {
    match k
    case TcpClientDef(address, connect, idle) =>
      if address.Good? && Idle(idle).Some? then Some(TcpClient(address.value.0, address.value.1, Connect(connect), Idle(idle).value)) else None
    case TcpServerDef(listen, max, allow, announce) =>
      if listen.Good? && max != Some(0) && forall i :: 0 <= i < |allow| ==> allow[i].Good?
      then Some(TcpServer(listen.value, max, Nets(allow), if announce.Some? then announce.value else !Loopback(listen.value)))
      else None
    case BleServerDef(adapter, max) =>
      var sel := ResolveOrGlobal(adapters, global, adapter, source);
      if sel.Some? && max != Some(0) then Some(BleServer(sel.value, if max.Some? then max.value else 1)) else None
    case TncPortDef(_, _, _, _, _) => ResolveTncPort(tncs, k, source)
  }

  function ResolvePort(adapters: seq<Adapter>, global: AdapterSel, tncs: seq<Tnc>, before: seq<PortDef>, p: PortDef, source: Source): Option<Port> {
    var id, kind := PortId(before, p), ResolveKind(adapters, global, tncs, p.kind, source);
    if GoodId(id) && kind.Some? then Some(Port(id, PortRole(p), kind.value)) else None
  }

  function ResolvePorts(adapters: seq<Adapter>, global: AdapterSel, tncs: seq<Tnc>, ports: seq<PortDef>, source: Source): Option<seq<Port>> {
    if |ports| == 0 then Some([])
    else
      var before := ports[..|ports| - 1];
      match (ResolvePorts(adapters, global, tncs, before, source), ResolvePort(adapters, global, tncs, before, ports[|ports| - 1], source))
      case (Some(rest), Some(p)) => Some(rest + [p])
      case _ => None
  }

  function ResolveBridge(adapters: seq<Adapter>, global: AdapterSel, tncs: seq<Tnc>, d: At<BridgeDef>): Option<Bridge> {
    var def := d.def;
    match (def.id, ResolvePorts(adapters, global, tncs, def.ports, d.source))
    case (Some(id), Some(ports)) =>
      if GoodId(id) && !Blank(def.name) && (def.publicName.Some? ==> !Blank(def.publicName.value))
      then Some(Bridge(id, def.name, if def.publicName.Some? then def.publicName.value else def.name,
                       def.enabled != Some(false), None, if def.appParams.Some? then def.appParams.value else PassParams,
                       ports, d.source))
      else None
    case _ => None
  }

  // ── Everything ──────────────────────────────────────────────────────

  function Located<T>(source: Source, defs: seq<T>): seq<At<T>> {
    seq(|defs|, i requires 0 <= i < |defs| => At(source, defs[i]))
  }

  function AdapterDefs(files: Files): seq<At<AdapterDef>> {
    if |files| == 0 then []
    else AdapterDefs(files[..|files| - 1]) + Located(files[|files| - 1].source, files[|files| - 1].def.adapters)
  }

  function TncDefs(files: Files): seq<At<TncDef>> {
    if |files| == 0 then []
    else TncDefs(files[..|files| - 1]) + Located(files[|files| - 1].source, files[|files| - 1].def.tncs)
  }

  function BridgeDefs(files: Files): seq<At<BridgeDef>> {
    if |files| == 0 then []
    else BridgeDefs(files[..|files| - 1]) + Located(files[|files| - 1].source, files[|files| - 1].def.bridges)
  }

  /** All of a list resolved, or nothing. */
  function Every<D, T>(f: D -> Option<T>, defs: seq<D>): Option<seq<T>> {
    if |defs| == 0 then Some([])
    else
      match (Every(f, defs[..|defs| - 1]), f(defs[|defs| - 1]))
      case (Some(rest), Some(x)) => Some(rest + [x])
      case _ => None
  }

  function AdapterResolver(): At<AdapterDef> -> Option<Adapter> {
    d => ResolveAdapter(d)
  }

  function TncResolver(adapters: seq<Adapter>, global: AdapterSel): At<TncDef> -> Option<Tnc> {
    d => ResolveTnc(adapters, global, d)
  }

  function BridgeResolver(adapters: seq<Adapter>, global: AdapterSel, tncs: seq<Tnc>): At<BridgeDef> -> Option<Bridge> {
    d => ResolveBridge(adapters, global, tncs, d)
  }

  function ResolveAdapters(defs: seq<At<AdapterDef>>): Option<seq<Adapter>> {
    Every(AdapterResolver(), defs)
  }

  function ResolveTncs(adapters: seq<Adapter>, global: AdapterSel, defs: seq<At<TncDef>>): Option<seq<Tnc>> {
    Every(TncResolver(adapters, global), defs)
  }

  function ResolveBridges(adapters: seq<Adapter>, global: AdapterSel, tncs: seq<Tnc>, defs: seq<At<BridgeDef>>): Option<seq<Bridge>> {
    Every(BridgeResolver(adapters, global, tncs), defs)
  }

  /** The last file's word on a global setting. */
  function LogLevel(files: Files): string {
    if |files| == 0 then "info"
    else
      match files[|files| - 1].def.logLevel
      case Some(l) => l
      case None => LogLevel(files[..|files| - 1])
  }

  function Group(files: Files): string {
    if |files| == 0 then "kiss-tnc-bridge"
    else
      match files[|files| - 1].def.group
      case Some(g) => g
      case None => Group(files[..|files| - 1])
  }

  function GlobalAdapter(files: Files): Option<At<string>> {
    if |files| == 0 then None
    else
      match files[|files| - 1].def.adapter
      case Some(a) => Some(At(files[|files| - 1].source, a))
      case None => GlobalAdapter(files[..|files| - 1])
  }

  function ResolveGlobal(adapters: seq<Adapter>, value: Option<At<string>>): Option<AdapterSel> {
    match value
    case Some(At(source, v)) => ResolveAdapterValue(adapters, v, source)
    case None => Some(DefaultAdapter)
  }

  /** The effective config, or none when anything in the files is wrong. */
  function Resolved(files: Files): Option<Config> {
    match ResolveAdapters(AdapterDefs(files))
    case None => None
    case Some(adapters) =>
      match ResolveGlobal(adapters, GlobalAdapter(files))
      case None => None
      case Some(global) =>
        match ResolveTncs(adapters, global, TncDefs(files))
        case None => None
        case Some(tncs) =>
          match ResolveBridges(adapters, global, tncs, BridgeDefs(files))
          case None => None
          case Some(bridges) => Some(Config(LogLevel(files), global, Group(files), adapters, tncs, bridges))
  }

  /** Resolve each, and note whether all could be. */
  method Collect<D, T>(f: D -> Option<T>, defs: seq<D>) returns (list: seq<T>, ok: bool)
    ensures ok <==> Every(f, defs).Some?
    ensures ok ==> Every(f, defs) == Some(list)
  {
    list, ok := [], true;
    for n := 0 to |defs|
      invariant ok <==> Every(f, defs[..n]).Some?
      invariant ok ==> Every(f, defs[..n]) == Some(list)
    {
      assert defs[..n + 1][..n] == defs[..n];
      match f(defs[n]) {
        case Some(x) => list := list + [x];
        case None => ok := false;
      }
    }
    assert defs[..|defs|] == defs;
  }

  /** Every list is built even after an error, so that all errors are found;
      any one of them makes the whole result an error. */
  method ResolveFiles(files: Files) returns (r: Option<Config>)
    ensures r == Resolved(files)
  {
    var adapters, adaptersOk := Collect(AdapterResolver(), AdapterDefs(files));
    var sel := ResolveGlobal(adapters, GlobalAdapter(files));
    var global := if sel.Some? then sel.value else DefaultAdapter;
    var tncs, tncsOk := Collect(TncResolver(adapters, global), TncDefs(files));
    var bridges, bridgesOk := Collect(BridgeResolver(adapters, global, tncs), BridgeDefs(files));
    r := if adaptersOk && sel.Some? && tncsOk && bridgesOk
         then Some(Config(LogLevel(files), global, Group(files), adapters, tncs, bridges))
         else None;
  }
}

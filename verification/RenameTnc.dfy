/** Renaming a dynamic TNC changes its id in the effective config, in the
    ports that use it, and in its name if it had none; and nothing else. */
module RenameTnc {
  import opened Common
  import opened BridgeState
  import opened Config
  import opened Resolve
  import opened Build
  import opened StaticConfig
  import opened Rename
  import V = Validate

  // ── The config after ────────────────────────────────────────────────

  /** `unnamed`: the TNC goes by its id. */
  function FollowTnc(t: Tnc, from: string, to: string, unnamed: bool): Tnc {
    if t.id == from then t.(id := to, name := if unnamed then to else t.name) else t
  }

  function FollowTncs(tncs: seq<Tnc>, from: string, to: string, unnamed: bool): seq<Tnc> {
    seq(|tncs|, i requires 0 <= i < |tncs| => FollowTnc(tncs[i], from, to, unnamed))
  }

  function FollowKind(k: PortKind, from: string, to: string): PortKind {
    if TncOf(k) == Some(from) then k.(tnc := to) else k
  }

  function FollowPort(p: Port, from: string, to: string): Port {
    p.(kind := FollowKind(p.kind, from, to))
  }

  function FollowPorts(ports: seq<Port>, from: string, to: string): seq<Port> {
    seq(|ports|, i requires 0 <= i < |ports| => FollowPort(ports[i], from, to))
  }

  function FollowBridge(b: Bridge, from: string, to: string): Bridge {
    b.(ports := FollowPorts(b.ports, from, to))
  }

  function FollowBridges(bridges: seq<Bridge>, from: string, to: string): seq<Bridge> {
    seq(|bridges|, i requires 0 <= i < |bridges| => FollowBridge(bridges[i], from, to))
  }

  function Followed(c: Config, from: string, to: string, unnamed: bool): Config {
    c.(tncs := FollowTncs(c.tncs, from, to, unnamed), bridges := FollowBridges(c.bridges, from, to))
  }

  ghost predicate Renames(tncs: seq<Tnc>, from: string, to: string) {
    && from != to
    && forall i :: 0 <= i < |tncs| ==> tncs[i].id != to && (tncs[i].id == from ==> tncs[i].source == Dynamic)
  }

  // ── References ──────────────────────────────────────────────────────

  lemma {:induction false} LookupFollows(tncs: seq<Tnc>, from: string, to: string, unnamed: bool, v: string)
    requires Renames(tncs, from, to) && v != to
    ensures TncById(FollowTncs(tncs, from, to, unnamed), if v == from then to else v) ==
            (match TncById(tncs, v) case Some(t) => Some(FollowTnc(t, from, to, unnamed)) case None => None)
  {
    if |tncs| > 0 {
      LookupFollows(tncs[1..], from, to, unnamed, v);
      assert FollowTncs(tncs, from, to, unnamed)[1..] == FollowTncs(tncs[1..], from, to, unnamed);
    }
  }

  lemma TncPortFollows(tncs: seq<Tnc>, from: string, to: string, unnamed: bool, k: KindDef, source: Source)
    requires k.TncPortDef? && Renames(tncs, from, to) && ResolveTncPort(tncs, k, source).Some?
    ensures ResolveTncPort(FollowTncs(tncs, from, to, unnamed), RenKind(TncKind, from, to, k), source) ==
            Some(FollowKind(ResolveTncPort(tncs, k, source).value, from, to))
    ensures source.Static? ==> RenKind(TncKind, from, to, k) == k
    ensures TncOf(ResolveTncPort(tncs, k, source).value) != Some(to)
  {
    TncFound(tncs, k.tnc);
    LookupFollows(tncs, from, to, unnamed, k.tnc);
  }

  lemma KindFollows(adapters: seq<Adapter>, global: AdapterSel, tncs: seq<Tnc>, from: string, to: string, unnamed: bool,
                    k: KindDef, source: Source)
    requires Renames(tncs, from, to) && ResolveKind(adapters, global, tncs, k, source).Some?
    ensures ResolveKind(adapters, global, FollowTncs(tncs, from, to, unnamed), RenKind(TncKind, from, to, k), source) ==
            Some(FollowKind(ResolveKind(adapters, global, tncs, k, source).value, from, to))
    ensures source.Static? ==> RenKind(TncKind, from, to, k) == k
    ensures TncOf(ResolveKind(adapters, global, tncs, k, source).value) != Some(to)
  {
    if k.TncPortDef? { TncPortFollows(tncs, from, to, unnamed, k, source); }
  }

  ghost predicate NoneUses(ports: seq<Port>, id: string) {
    forall i :: 0 <= i < |ports| ==> TncOf(ports[i].kind) != Some(id)
  }

  lemma RenSnoc(ports: seq<PortDef>, from: string, to: string)
    requires |ports| > 0
    ensures var before, last := ports[..|ports| - 1], ports[|ports| - 1];
            RenPorts(TncKind, from, to, ports) == RenPorts(TncKind, from, to, before) + [RenPort(TncKind, from, to, last)]
  {
  }

  lemma {:induction false} PortsFollow(adapters: seq<Adapter>, global: AdapterSel, tncs: seq<Tnc>, from: string, to: string, unnamed: bool,
                                       ports: seq<PortDef>, source: Source)
    requires Renames(tncs, from, to) && ResolvePorts(adapters, global, tncs, ports, source).Some?
    ensures var v := ResolvePorts(adapters, global, tncs, ports, source).value;
            && ResolvePorts(adapters, global, FollowTncs(tncs, from, to, unnamed), RenPorts(TncKind, from, to, ports), source) ==
               Some(FollowPorts(v, from, to))
            && NoneUses(v, to)
  {
    if |ports| == 0 {
      assert FollowPorts([], from, to) == [] && RenPorts(TncKind, from, to, ports) == ports;
    } else {
      var before, last := ports[..|ports| - 1], ports[|ports| - 1];
      PortsFollow(adapters, global, tncs, from, to, unnamed, before, source);
      PortFollows(adapters, global, tncs, from, to, unnamed, before, last, source);
      RenSnoc(ports, from, to);
      var ren := RenPorts(TncKind, from, to, ports);
      assert ren[..|ren| - 1] == RenPorts(TncKind, from, to, before);
      FollowSnoc(ResolvePorts(adapters, global, tncs, before, source).value,
                 ResolvePort(adapters, global, tncs, before, last, source).value, from, to);
    }
  }

  lemma StayStep(ports: seq<PortDef>, from: string, to: string)
    requires |ports| > 0 && RenPort(TncKind, from, to, ports[|ports| - 1]) == ports[|ports| - 1]
    requires RenPorts(TncKind, from, to, ports[..|ports| - 1]) == ports[..|ports| - 1]
    ensures RenPorts(TncKind, from, to, ports) == ports
  {
    RenSnoc(ports, from, to);
    assert ports == ports[..|ports| - 1] + [ports[|ports| - 1]];
  }

  lemma LastResolves(adapters: seq<Adapter>, global: AdapterSel, tncs: seq<Tnc>, ports: seq<PortDef>, source: Source)
    requires |ports| > 0 && ResolvePorts(adapters, global, tncs, ports, source).Some?
    ensures ResolvePorts(adapters, global, tncs, ports[..|ports| - 1], source).Some?
    ensures ResolvePort(adapters, global, tncs, ports[..|ports| - 1], ports[|ports| - 1], source).Some?
  {
  }

  /** A static port that resolves doesn't use the TNC, so it stays as it is. */
  lemma {:induction false} StaticPortsStay(adapters: seq<Adapter>, global: AdapterSel, tncs: seq<Tnc>, from: string, to: string,
                                           ports: seq<PortDef>, source: Source)
    requires Renames(tncs, from, to) && source.Static? && ResolvePorts(adapters, global, tncs, ports, source).Some?
    ensures RenPorts(TncKind, from, to, ports) == ports
  {
    if |ports| > 0 {
      LastResolves(adapters, global, tncs, ports, source);
      StaticPortsStay(adapters, global, tncs, from, to, ports[..|ports| - 1], source);
      PortFollows(adapters, global, tncs, from, to, false, ports[..|ports| - 1], ports[|ports| - 1], source);
      StayStep(ports, from, to);
    }
  }

  lemma FollowSnoc(ports: seq<Port>, p: Port, from: string, to: string)
    ensures FollowPorts(ports + [p], from, to) == FollowPorts(ports, from, to) + [FollowPort(p, from, to)]
  {
  }

  lemma PortFollows(adapters: seq<Adapter>, global: AdapterSel, tncs: seq<Tnc>, from: string, to: string, unnamed: bool,
                    before: seq<PortDef>, p: PortDef, source: Source)
    requires Renames(tncs, from, to) && ResolvePort(adapters, global, tncs, before, p, source).Some?
    ensures ResolvePort(adapters, global, FollowTncs(tncs, from, to, unnamed), RenPorts(TncKind, from, to, before),
                        RenPort(TncKind, from, to, p), source) ==
            Some(FollowPort(ResolvePort(adapters, global, tncs, before, p, source).value, from, to))
    ensures source.Static? ==> RenPort(TncKind, from, to, p) == p
    ensures TncOf(ResolvePort(adapters, global, tncs, before, p, source).value.kind) != Some(to)
  {
    KindFollows(adapters, global, tncs, from, to, unnamed, p.kind, source);
    SamePortId(TncKind, from, to, before, p);
  }

  lemma BridgeFollows(adapters: seq<Adapter>, global: AdapterSel, tncs: seq<Tnc>, from: string, to: string, unnamed: bool, d: At<BridgeDef>)
    requires Renames(tncs, from, to) && ResolveBridge(adapters, global, tncs, d).Some?
    ensures ResolveBridge(adapters, global, FollowTncs(tncs, from, to, unnamed), d.(def := RenBridge(TncKind, from, to, d.def))) ==
            Some(FollowBridge(ResolveBridge(adapters, global, tncs, d).value, from, to))
    ensures d.source.Static? ==> RenBridge(TncKind, from, to, d.def) == d.def
    ensures NoneUses(ResolveBridge(adapters, global, tncs, d).value.ports, to)
  {
    PortsFollow(adapters, global, tncs, from, to, unnamed, d.def.ports, d.source);
    if d.source.Static? { StaticPortsStay(adapters, global, tncs, from, to, d.def.ports, d.source); }
  }

  // ── Lists ───────────────────────────────────────────────────────────

  ghost predicate BridgeDefsFollow(defs: seq<At<BridgeDef>>, after: seq<At<BridgeDef>>, from: string, to: string) {
    |after| == |defs| && forall i :: 0 <= i < |defs| ==>
      after[i] == if defs[i].source.Static? then defs[i] else defs[i].(def := RenBridge(TncKind, from, to, defs[i].def))
  }

  ghost predicate NoBridgeUses(bridges: seq<Bridge>, id: string) {
    forall i :: 0 <= i < |bridges| ==> NoneUses(bridges[i].ports, id)
  }

  lemma BridgesFollow(adapters: seq<Adapter>, global: AdapterSel, tncs: seq<Tnc>, from: string, to: string, unnamed: bool,
                      defs: seq<At<BridgeDef>>, after: seq<At<BridgeDef>>)
    requires Renames(tncs, from, to) && ResolveBridges(adapters, global, tncs, defs).Some? && BridgeDefsFollow(defs, after, from, to)
    ensures var v := ResolveBridges(adapters, global, tncs, defs).value;
            && ResolveBridges(adapters, global, FollowTncs(tncs, from, to, unnamed), after) == Some(FollowBridges(v, from, to))
            && NoBridgeUses(v, to)
  {
    var v := ResolveBridges(adapters, global, tncs, defs).value;
    BridgesOne(adapters, global, tncs, defs);
    forall i | 0 <= i < |after|
      ensures ResolveBridge(adapters, global, FollowTncs(tncs, from, to, unnamed), after[i]) == Some(FollowBridges(v, from, to)[i])
      ensures NoneUses(v[i].ports, to)
    {
      BridgeFollows(adapters, global, tncs, from, to, unnamed, defs[i]);
    }
    BridgesAll(adapters, global, FollowTncs(tncs, from, to, unnamed), after, FollowBridges(v, from, to));
  }

  ghost predicate TncDefsFollow(defs: seq<At<TncDef>>, after: seq<At<TncDef>>, from: string, to: string) {
    |after| == |defs| && forall i :: 0 <= i < |defs| ==>
      after[i] == if defs[i].def.id == from then defs[i].(def := defs[i].def.(id := to)) else defs[i]
  }

  lemma GoodIdNotBlank(id: string)
    requires GoodId(id)
    ensures !Blank(id)
  {
    assert IdChar(id[0]) && !Space(id[0]);
  }

  lemma TncFollows(adapters: seq<Adapter>, global: AdapterSel, d: At<TncDef>, t: Tnc, from: string, to: string)
    requires ResolveTnc(adapters, global, d) == Some(t) && d.def.id == from && GoodId(to)
    ensures ResolveTnc(adapters, global, d.(def := d.def.(id := to))) == Some(FollowTnc(t, from, to, d.def.name.None?))
  {
    GoodIdNotBlank(to);
  }

  lemma TncIs(adapters: seq<Adapter>, global: AdapterSel, d: At<TncDef>, t: Tnc)
    requires ResolveTnc(adapters, global, d) == Some(t)
    ensures t.id == d.def.id && t.source == d.source && GoodId(t.id)
  {
  }

  lemma TncsFollow(adapters: seq<Adapter>, global: AdapterSel, defs: seq<At<TncDef>>, after: seq<At<TncDef>>,
                   from: string, to: string, unnamed: bool)
    requires ResolveTncs(adapters, global, defs).Some? && TncDefsFollow(defs, after, from, to) && GoodId(to)
    requires forall i :: 0 <= i < |defs| && defs[i].def.id == from ==> defs[i].def.name.None? == unnamed
    ensures ResolveTncs(adapters, global, after) ==
            Some(FollowTncs(ResolveTncs(adapters, global, defs).value, from, to, unnamed))
  {
    var v := ResolveTncs(adapters, global, defs).value;
    TncsOne(adapters, global, defs);
    forall i | 0 <= i < |after| ensures ResolveTnc(adapters, global, after[i]) == Some(FollowTncs(v, from, to, unnamed)[i]) {
      TncIs(adapters, global, defs[i], v[i]);
      if defs[i].def.id == from { TncFollows(adapters, global, defs[i], v[i], from, to); }
    }
    TncsAll(adapters, global, after, FollowTncs(v, from, to, unnamed));
  }

  // ── The whole config ────────────────────────────────────────────────

  lemma DefsFollow(statics: Files, f: ConfigFile, from: string, to: string)
    requires AllStatic(statics) && PlainFile(f) && !TncTaken(statics, from)
    ensures var files, after := statics + [At(Dynamic, f)], statics + [At(Dynamic, Renamed(f, TncKind, from, to))];
            && AdapterDefs(files) == AdapterDefs(after)
            && TncDefsFollow(TncDefs(files), TncDefs(after), from, to)
            && BridgeDefsFollow(BridgeDefs(files), BridgeDefs(after), from, to)
  {
    FilesSplit(statics, f);
    FilesSplit(statics, Renamed(f, TncKind, from, to));
    LocatedRenamed(f, TncKind, from, to);
    DefsStatic(statics);
    assert RenAdapters(TncKind, from, to, f.adapters) == f.adapters;
    forall i | 0 <= i < |TncDefs(statics)| ensures TncDefs(statics)[i].def.id != from {
      assert TncDefs(statics)[i] in TncDefs(statics);
    }
  }

  lemma ResolvedFollows(statics: Files, f: ConfigFile, from: string, to: string, unnamed: bool, c: Config)
    requires AllStatic(statics) && PlainFile(f) && Resolved(statics + [At(Dynamic, f)]) == Some(c)
    requires !TncTaken(statics, from) && Renames(c.tncs, from, to) && GoodId(to)
    requires forall d :: d in f.tncs && d.id == from ==> d.name.None? == unnamed
    ensures Resolved(statics + [At(Dynamic, Renamed(f, TncKind, from, to))]) == Some(Followed(c, from, to, unnamed))
    ensures NoBridgeUses(c.bridges, to)
  {
    var files, after := statics + [At(Dynamic, f)], statics + [At(Dynamic, Renamed(f, TncKind, from, to))];
    DefsFollow(statics, f, from, to);
    FilesSplit(statics, f);
    FilesSplit(statics, Renamed(f, TncKind, from, to));
    OneName(statics, f, from, unnamed);
    TncsFollow(c.adapters, c.adapter, TncDefs(files), TncDefs(after), from, to, unnamed);
    BridgesFollow(c.adapters, c.adapter, c.tncs, from, to, unnamed, BridgeDefs(files), BridgeDefs(after));
  }

  lemma OneName(statics: Files, f: ConfigFile, from: string, unnamed: bool)
    requires PlainFile(f) && !TncTaken(statics, from) && forall d :: d in f.tncs && d.id == from ==> d.name.None? == unnamed
    ensures var defs := TncDefs(statics + [At(Dynamic, f)]);
            forall i :: 0 <= i < |defs| && defs[i].def.id == from ==> defs[i].def.name.None? == unnamed
  {
    FilesSplit(statics, f);
    var defs, n := TncDefs(statics + [At(Dynamic, f)]), |TncDefs(statics)|;
    forall i | 0 <= i < n ensures defs[i].def.id != from {
      assert TncDefs(statics)[i] in TncDefs(statics) && TncDefs(statics)[i] == defs[i];
    }
    forall i | n <= i < |defs| && defs[i].def.id == from ensures defs[i].def.name.None? == unnamed {
      assert defs[i].def == f.tncs[i - n] && f.tncs[i - n] in f.tncs;
    }
  }

  /** What `update_object` accepts as a rename of `d`, with no other TNC of
      that id in the store. */
  ghost predicate Accepted(statics: Files, f: ConfigFile, d: TncDef, to: string) {
    && d.id != to
    && !TncTaken(statics, d.id) && d in f.tncs && (forall e :: e in f.tncs && e.id == d.id ==> e == d)
    && !TncTaken(statics, to) && forall e :: e in f.tncs ==> e.id != to
  }

  ghost predicate TncIdsOf(c: Config, statics: Files, kept: ConfigFile) {
    && |c.tncs| == |TncDefs(statics)| + |kept.tncs|
    && (forall i :: 0 <= i < |TncDefs(statics)| ==> c.tncs[i].id == TncDefs(statics)[i].def.id)
    && (forall i :: 0 <= i < |kept.tncs| ==>
          c.tncs[|TncDefs(statics)| + i].id == kept.tncs[i].id && c.tncs[|TncDefs(statics)| + i].source == Dynamic)
  }

  lemma TncsNamed(adapters: seq<Adapter>, global: AdapterSel, defs: seq<At<TncDef>>, v: seq<Tnc>)
    requires TncsAre(adapters, global, defs, v)
    ensures forall i :: 0 <= i < |v| ==> v[i].id == defs[i].def.id && v[i].source == defs[i].source
  {
    forall i | 0 <= i < |v| ensures v[i].id == defs[i].def.id && v[i].source == defs[i].source {
      TncIs(adapters, global, defs[i], v[i]);
    }
  }

  lemma NamesSplit(statics: Files, kept: ConfigFile, defs: seq<At<TncDef>>, c: Config)
    requires defs == TncDefs(statics) + Located(Dynamic, kept.tncs) && |c.tncs| == |defs|
    requires forall i :: 0 <= i < |defs| ==> c.tncs[i].id == defs[i].def.id && c.tncs[i].source == defs[i].source
    ensures TncIdsOf(c, statics, kept)
  {
    var n := |TncDefs(statics)|;
    forall i | 0 <= i < |kept.tncs| ensures c.tncs[n + i].id == kept.tncs[i].id && c.tncs[n + i].source == Dynamic {
      assert defs[n + i] == At(Dynamic, kept.tncs[i]);
    }
  }

  lemma IdsKept(statics: Files, kept: ConfigFile, c: Config)
    requires PlainFile(kept) && Resolved(statics + [At(Dynamic, kept)]) == Some(c)
    ensures TncIdsOf(c, statics, kept)
  {
    FilesSplit(statics, kept);
    var defs := TncDefs(statics + [At(Dynamic, kept)]);
    TncsOne(c.adapters, c.adapter, defs);
    TncsNamed(c.adapters, c.adapter, defs, c.tncs);
    NamesSplit(statics, kept, defs, c);
  }

  lemma AcceptedRenames(statics: Files, f: ConfigFile, c: Config, d: TncDef, to: string)
    requires Accepted(statics, f, d, to) && TncIdsOf(c, statics, SetAside(statics, f))
    ensures Renames(c.tncs, d.id, to)
  {
    var kept := SetAside(statics, f);
    var n := |TncDefs(statics)|;
    forall i | 0 <= i < |c.tncs| ensures c.tncs[i].id != to && (c.tncs[i].id == d.id ==> c.tncs[i].source == Dynamic) {
      if i < n {
        assert TncDefs(statics)[i] in TncDefs(statics);
      } else {
        assert c.tncs[i].id == kept.tncs[i - n].id && kept.tncs[i - n] in kept.tncs;
        KeptTncs(statics, f.tncs, kept.tncs[i - n]);
      }
    }
  }

  lemma ConfigRenames(statics: Files, f: ConfigFile, c: Config, d: TncDef, to: string)
    requires PlainFile(f) && Accepted(statics, f, d, to)
    requires Resolved(statics + [At(Dynamic, SetAside(statics, f))]) == Some(c)
    ensures Renames(c.tncs, d.id, to)
  {
    IdsKept(statics, SetAside(statics, f), c);
    AcceptedRenames(statics, f, c, d, to);
  }

  // ── Still valid ─────────────────────────────────────────────────────

  lemma {:induction false} CountFollows(ports: seq<Port>, from: string, to: string, role: Role)
    ensures CountRole(FollowPorts(ports, from, to), role) == CountRole(ports, role)
  {
    if |ports| > 0 {
      var init := ports[..|ports| - 1];
      CountFollows(init, from, to, role);
      assert FollowPorts(ports, from, to)[..|ports| - 1] == FollowPorts(init, from, to);
    }
  }

  lemma ClashFollows(a: Bridge, b: Bridge, from: string, to: string)
    requires NoneUses(a.ports, to) && NoneUses(b.ports, to) && V.Exclusive(FollowBridge(a, from, to), FollowBridge(b, from, to))
    ensures V.Exclusive(a, b)
  {
    var clash :| V.BridgesClash(FollowBridge(a, from, to), FollowBridge(b, from, to), clash);
    assert V.BridgesClash(a, b, clash);
  }

  lemma FollowKeys(c: Config, from: string, to: string, unnamed: bool, what: V.What)
    requires V.Valid(c) && forall i :: 0 <= i < |c.tncs| ==> c.tncs[i].id != to
    ensures V.KeysDistinct(Followed(c, from, to, unnamed), what)
  {
    var d := Followed(c, from, to, unnamed);
    assert V.KeysDistinct(c, what);
    match what
    case AdapterId => assert V.AdapterIds(d) == V.AdapterIds(c);
    case AdapterAddress => assert V.AdapterMacs(d) == V.AdapterMacs(c);
    case TncId =>
      forall i, j | 0 <= i < j < |d.tncs| ensures V.TncIds(d)[i] != V.TncIds(d)[j] { assert V.TncIds(c)[i] != V.TncIds(c)[j]; }
    case TncSpp => assert V.SppKeys(d) == V.SppKeys(c);
    case TncBle => assert V.BleKeys(d) == V.BleKeys(c);
    case TncPath => assert V.Paths(d) == V.Paths(c);
    case BridgeId => assert V.BridgeIds(d) == V.BridgeIds(c);
    case BridgeName => assert V.BridgeNames(d) == V.BridgeNames(c);
  }

  lemma FollowValid(c: Config, from: string, to: string, unnamed: bool)
    requires V.Valid(c) && NoBridgeUses(c.bridges, to) && forall i :: 0 <= i < |c.tncs| ==> c.tncs[i].id != to
    ensures V.Valid(Followed(c, from, to, unnamed))
  {
    var d := Followed(c, from, to, unnamed);
    forall what ensures V.KeysDistinct(d, what) { FollowKeys(c, from, to, unnamed, what); }
    forall b | b in d.bridges ensures V.Distinct(V.PortIds(b)) && (b.enabled ==> Complete(b)) {
      var i :| 0 <= i < |d.bridges| && d.bridges[i] == b;
      var was := c.bridges[i];
      assert was in c.bridges;
      assert V.PortIds(b) == V.PortIds(was);
      CountFollows(was.ports, from, to, TncRole);
      CountFollows(was.ports, from, to, AppRole);
    }
    forall i, j | 0 <= i < j < |d.bridges| && d.bridges[i].enabled && d.bridges[j].enabled
      ensures !V.Exclusive(d.bridges[i], d.bridges[j])
    {
      assert !V.Exclusive(c.bridges[i], c.bridges[j]);
      if V.Exclusive(d.bridges[i], d.bridges[j]) { ClashFollows(c.bridges[i], c.bridges[j], from, to); }
    }
  }

  // ── The theorem ─────────────────────────────────────────────────────

  lemma OneBadId(adapters: seq<Adapter>, global: AdapterSel, defs: seq<At<TncDef>>, i: nat)
    requires i < |defs| && !GoodId(defs[i].def.id)
    ensures ResolveTncs(adapters, global, defs).None?
  {
    EveryNone(TncResolver(adapters, global), defs, i);
  }

  lemma BadIdRefused(statics: Files, kept: ConfigFile, d: TncDef, to: string)
    requires PlainFile(kept) && d in kept.tncs && !GoodId(to)
    ensures Resolved(statics + [At(Dynamic, Renamed(kept, TncKind, d.id, to))]).None?
  {
    var after := Renamed(kept, TncKind, d.id, to);
    FilesSplit(statics, after);
    LocatedRenamed(kept, TncKind, d.id, to);
    var files := statics + [At(Dynamic, after)];
    var defs, n := TncDefs(files), |TncDefs(statics)|;
    var i :| 0 <= i < |kept.tncs| && kept.tncs[i] == d;
    assert defs[n + i] == At(Dynamic, d.(id := to));
    forall adapters, global ensures ResolveTncs(adapters, global, defs).None? { OneBadId(adapters, global, defs, n + i); }
  }

  lemma OverrideFollows(bridges: seq<Bridge>, from: string, to: string, enabled: map<string, bool>)
    ensures Override(FollowBridges(bridges, from, to), enabled) == FollowBridges(Override(bridges, enabled), from, to)
    ensures NoBridgeUses(bridges, to) ==> NoBridgeUses(Override(bridges, enabled), to)
  {
  }

  lemma GoodRename(statics: Files, f: ConfigFile, d: TncDef, to: string, r: Config)
    requires AllStatic(statics) && PlainFile(f) && Accepted(statics, f, d, to) && GoodId(to)
    requires Resolved(statics + [At(Dynamic, SetAside(statics, f))]) == Some(r)
    ensures Resolved(statics + [At(Dynamic, Renamed(SetAside(statics, f), TncKind, d.id, to))]) ==
            Some(Followed(r, d.id, to, d.name.None?))
    ensures Renames(r.tncs, d.id, to) && NoBridgeUses(r.bridges, to)
  {
    var kept := SetAside(statics, f);
    ConfigRenames(statics, f, r, d, to);
    forall e | e in kept.tncs && e.id == d.id ensures e == d { KeptTncs(statics, f.tncs, e); }
    ResolvedFollows(statics, kept, d.id, to, d.name.None?, r);
  }

  /** With the overrides, which are by bridge. */
  lemma OverriddenRename(r: Config, from: string, to: string, unnamed: bool, enabled: map<string, bool>)
    requires Renames(r.tncs, from, to) && NoBridgeUses(r.bridges, to) && V.Valid(r.(bridges := Override(r.bridges, enabled)))
    ensures var c, d := r.(bridges := Override(r.bridges, enabled)), Followed(r, from, to, unnamed);
            d.(bridges := Override(d.bridges, enabled)) == Followed(c, from, to, unnamed) && V.Valid(Followed(c, from, to, unnamed))
  {
    OverrideFollows(r.bridges, from, to, enabled);
    FollowValid(r.(bridges := Override(r.bridges, enabled)), from, to, unnamed);
  }

  /** An accepted rename of a TNC, otherwise unchanged, builds exactly when the
      new id is well formed; the config is then the same but for that id, where
      it is used, and the name of a TNC that goes by its id. */
  lemma TncRename(s: Sources, f: ConfigFile, d: TncDef, to: string, c: Config)
    requires AllStatic(s.statics) && s.dynamic == Some(Good(f)) && Built(s) == Some(c) && Accepted(s.statics, f, d, to)
    ensures Built(s.(dynamic := Some(Good(Renamed(f, TncKind, d.id, to))))) ==
            if GoodId(to) then Some(Followed(c, d.id, to, d.name.None?)) else None
  {
    var statics := s.statics;
    var kept := SetAside(statics, f);
    var r := Resolved(statics + [At(Dynamic, kept)]).value;
    SetAsideRenamed(statics, f, TncKind, d.id, to);
    RenamedLoadable(f, TncKind, d.id, to);
    if GoodId(to) {
      GoodRename(statics, f, d, to, r);
      OverriddenRename(r, d.id, to, d.name.None?, s.enabled);
    } else {
      KeptTncs(statics, f.tncs, d);
      BadIdRefused(statics, kept, d, to);
    }
  }
}

/** Renaming a dynamic TNC or adapter: what the store becomes, and what that
    means (`update_object` in src/control/edit.rs). */
module Rename {
  import opened Common
  import opened BridgeState
  import opened Config
  import opened Resolve
  import opened Build
  import opened StaticConfig
  import V = Validate

  datatype Kind = TncKind | AdapterKind

  // ── The store ───────────────────────────────────────────────────────

  function RenRef(from: string, to: string, value: Option<string>): Option<string> {
    if value == Some(from) then Some(to) else value
  }

  function RenKind(kind: Kind, from: string, to: string, k: KindDef): KindDef {
    if kind == TncKind && k.TncPortDef? && k.tnc == from then k.(tnc := to)
    else if kind == AdapterKind && k.BleServerDef? then k.(adapter := RenRef(from, to, k.adapter))
    else k
  }

  function RenPort(kind: Kind, from: string, to: string, p: PortDef): PortDef {
    p.(kind := RenKind(kind, from, to, p.kind))
  }

  function RenPorts(kind: Kind, from: string, to: string, ports: seq<PortDef>): seq<PortDef> {
    seq(|ports|, i requires 0 <= i < |ports| => RenPort(kind, from, to, ports[i]))
  }

  function RenBridge(kind: Kind, from: string, to: string, b: BridgeDef): BridgeDef {
    b.(ports := RenPorts(kind, from, to, b.ports))
  }

  function RenBridges(kind: Kind, from: string, to: string, bridges: seq<BridgeDef>): seq<BridgeDef> {
    seq(|bridges|, i requires 0 <= i < |bridges| => RenBridge(kind, from, to, bridges[i]))
  }

  function RenSections(from: string, to: string, t: TncDef): TncDef {
    t.(spp := if t.spp.Some? then Some(t.spp.value.(adapter := RenRef(from, to, t.spp.value.adapter))) else None,
       ble := if t.ble.Some? then Some(t.ble.value.(adapter := RenRef(from, to, t.ble.value.adapter))) else None)
  }

  function RenTnc(kind: Kind, from: string, to: string, t: TncDef): TncDef {
    match kind
    case TncKind => if t.id == from then t.(id := to) else t
    case AdapterKind => RenSections(from, to, t)
  }

  function RenTncs(kind: Kind, from: string, to: string, tncs: seq<TncDef>): seq<TncDef> {
    seq(|tncs|, i requires 0 <= i < |tncs| => RenTnc(kind, from, to, tncs[i]))
  }

  function RenAdapter(kind: Kind, from: string, to: string, a: AdapterDef): AdapterDef {
    if kind == AdapterKind && a.id == from then a.(id := to) else a
  }

  function RenAdapters(kind: Kind, from: string, to: string, adapters: seq<AdapterDef>): seq<AdapterDef> {
    seq(|adapters|, i requires 0 <= i < |adapters| => RenAdapter(kind, from, to, adapters[i]))
  }

  /** The store after a rename: the object under its new id, and every
      reference to it following. */
  function Renamed(f: ConfigFile, kind: Kind, from: string, to: string): ConfigFile {
    f.(adapters := RenAdapters(kind, from, to, f.adapters),
       tncs := RenTncs(kind, from, to, f.tncs),
       bridges := RenBridges(kind, from, to, f.bridges))
  }

  /** Nothing defines the id or refers to it. */
  ghost predicate Unmentioned(f: ConfigFile, kind: Kind, id: string) {
    && (kind == AdapterKind ==> forall a :: a in f.adapters ==> a.id != id)
    && (kind == TncKind ==> forall t :: t in f.tncs ==> t.id != id)
    && (forall t :: t in f.tncs && kind == AdapterKind ==>
          (t.spp.Some? ==> t.spp.value.adapter != Some(id)) && (t.ble.Some? ==> t.ble.value.adapter != Some(id)))
    && (forall b, p :: b in f.bridges && p in b.ports ==>
          (kind == TncKind && p.kind.TncPortDef? ==> p.kind.tnc != id)
          && (kind == AdapterKind && p.kind.BleServerDef? ==> p.kind.adapter != Some(id)))
  }

  lemma RenamedUnmentioned(f: ConfigFile, kind: Kind, from: string, to: string)
    requires from != to
    ensures Unmentioned(Renamed(f, kind, from, to), kind, from)
  {
  }

  lemma RenamedLoadable(f: ConfigFile, kind: Kind, from: string, to: string)
    ensures Loadable(Renamed(f, kind, from, to)) <==> Loadable(f)
  {
    var g := Renamed(f, kind, from, to);
    forall i, j | 0 <= i < |f.bridges| && 0 <= j < |f.bridges[i].ports| ensures g.bridges[i].ports[j].stray == f.bridges[i].ports[j].stray {}
    if !Loadable(f) && PlainFile(f) {
      var b :| b in f.bridges && exists p :: p in b.ports && p.stray;
      var p :| p in b.ports && p.stray;
      var i :| 0 <= i < |f.bridges| && f.bridges[i] == b;
      var j :| 0 <= j < |b.ports| && b.ports[j] == p;
      assert g.bridges[i] in g.bridges && g.bridges[i].ports[j] in g.bridges[i].ports;
    }
    if Loadable(f) {
      forall b, p | b in g.bridges && p in b.ports ensures !p.stray {
        var i :| 0 <= i < |g.bridges| && g.bridges[i] == b;
        var j :| 0 <= j < |b.ports| && b.ports[j] == p;
        assert f.bridges[i] in f.bridges && f.bridges[i].ports[j] in f.bridges[i].ports;
      }
    }
  }

  // ── Setting aside ───────────────────────────────────────────────────

  lemma {:induction false} KeepRenamedTncs(statics: Files, kind: Kind, from: string, to: string, defs: seq<TncDef>)
    requires kind == TncKind ==> TncTaken(statics, from) == TncTaken(statics, to)
    ensures KeepTncs(statics, RenTncs(kind, from, to, defs)) == RenTncs(kind, from, to, KeepTncs(statics, defs))
  {
    if |defs| > 0 {
      KeepRenamedTncs(statics, kind, from, to, defs[..|defs| - 1]);
      var ren := RenTncs(kind, from, to, defs);
      assert ren[..|ren| - 1] == RenTncs(kind, from, to, defs[..|defs| - 1]);
      assert TncTaken(statics, ren[|ren| - 1].id) == TncTaken(statics, defs[|defs| - 1].id);
    }
  }

  lemma {:induction false} KeepRenamedAdapters(statics: Files, kind: Kind, from: string, to: string, defs: seq<AdapterDef>)
    requires kind == AdapterKind ==> AdapterTaken(statics, from) == AdapterTaken(statics, to)
    ensures KeepAdapters(statics, RenAdapters(kind, from, to, defs)) == RenAdapters(kind, from, to, KeepAdapters(statics, defs))
  {
    if |defs| > 0 {
      KeepRenamedAdapters(statics, kind, from, to, defs[..|defs| - 1]);
      var ren := RenAdapters(kind, from, to, defs);
      assert ren[..|ren| - 1] == RenAdapters(kind, from, to, defs[..|defs| - 1]);
      assert AdapterTaken(statics, ren[|ren| - 1].id) == AdapterTaken(statics, defs[|defs| - 1].id);
    }
  }

  lemma {:induction false} KeepRenamedBridges(statics: Files, kind: Kind, from: string, to: string, defs: seq<BridgeDef>)
    ensures KeepBridges(statics, RenBridges(kind, from, to, defs)) == RenBridges(kind, from, to, KeepBridges(statics, defs))
  {
    if |defs| > 0 {
      KeepRenamedBridges(statics, kind, from, to, defs[..|defs| - 1]);
      var ren := RenBridges(kind, from, to, defs);
      assert ren[..|ren| - 1] == RenBridges(kind, from, to, defs[..|defs| - 1]);
      assert BridgeTaken(statics, ren[|ren| - 1]) == BridgeTaken(statics, defs[|defs| - 1]);
    }
  }

  /** Renaming and setting aside don't get in each other's way. */
  lemma SetAsideRenamed(statics: Files, f: ConfigFile, kind: Kind, from: string, to: string)
    requires kind == TncKind ==> TncTaken(statics, from) == TncTaken(statics, to)
    requires kind == AdapterKind ==> AdapterTaken(statics, from) == AdapterTaken(statics, to)
    ensures SetAside(statics, Renamed(f, kind, from, to)) == Renamed(SetAside(statics, f), kind, from, to)
  {
    KeepRenamedAdapters(statics, kind, from, to, f.adapters);
    KeepRenamedTncs(statics, kind, from, to, f.tncs);
    KeepRenamedBridges(statics, kind, from, to, f.bridges);
  }

  lemma {:induction false} KeptAdapters(statics: Files, defs: seq<AdapterDef>, d: AdapterDef)
    ensures d in KeepAdapters(statics, defs) <==> d in defs && !AdapterTaken(statics, d.id)
  {
    if |defs| > 0 {
      KeptAdapters(statics, defs[..|defs| - 1], d);
      assert defs == defs[..|defs| - 1] + [defs[|defs| - 1]];
    }
  }

  lemma {:induction false} KeptTncs(statics: Files, defs: seq<TncDef>, d: TncDef)
    ensures d in KeepTncs(statics, defs) <==> d in defs && !TncTaken(statics, d.id)
  {
    if |defs| > 0 {
      KeptTncs(statics, defs[..|defs| - 1], d);
      assert defs == defs[..|defs| - 1] + [defs[|defs| - 1]];
    }
  }

  // ── Ids and roles of ports don't follow ─────────────────────────────

  lemma SameType(kind: Kind, from: string, to: string, k: KindDef)
    ensures TypeName(RenKind(kind, from, to, k)) == TypeName(k)
  {
  }

  lemma {:induction false} CountRenamed(kind: Kind, from: string, to: string, ports: seq<PortDef>, name: string)
    ensures CountType(RenPorts(kind, from, to, ports), name) == CountType(ports, name)
  {
    if |ports| > 0 {
      CountRenamed(kind, from, to, ports[..|ports| - 1], name);
      SameType(kind, from, to, ports[|ports| - 1].kind);
      var ren := RenPorts(kind, from, to, ports);
      assert ren[..|ren| - 1] == RenPorts(kind, from, to, ports[..|ports| - 1]);
    }
  }

  lemma SamePortId(kind: Kind, from: string, to: string, before: seq<PortDef>, p: PortDef)
    ensures PortId(RenPorts(kind, from, to, before), RenPort(kind, from, to, p)) == PortId(before, p)
    ensures PortRole(RenPort(kind, from, to, p)) == PortRole(p)
  {
    CountRenamed(kind, from, to, before, TypeName(p.kind));
  }

  /** The dynamic file at the end of the files, renamed. */
  lemma LocatedRenamed(f: ConfigFile, kind: Kind, from: string, to: string)
    ensures var g := Renamed(f, kind, from, to);
            && |g.adapters| == |f.adapters| && |g.tncs| == |f.tncs| && |g.bridges| == |f.bridges|
            && (forall i :: 0 <= i < |f.adapters| ==> Located(Dynamic, g.adapters)[i] == At(Dynamic, RenAdapter(kind, from, to, f.adapters[i])))
            && (forall i :: 0 <= i < |f.tncs| ==> Located(Dynamic, g.tncs)[i] == At(Dynamic, RenTnc(kind, from, to, f.tncs[i])))
            && (forall i :: 0 <= i < |f.bridges| ==> Located(Dynamic, g.bridges)[i] == At(Dynamic, RenBridge(kind, from, to, f.bridges[i])))
  {
  }
}

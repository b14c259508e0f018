/** Renaming a dynamic adapter changes its id in the effective config, and
    nothing else. */
module RenameAdapter {
  import opened Common
  import opened BridgeState
  import opened Config
  import opened Resolve
  import opened Build
  import opened StaticConfig
  import opened Rename
  import V = Validate

  function Follow(a: Adapter, from: string, to: string): Adapter {
    if a.id == from then a.(id := to) else a
  }

  function FollowAll(adapters: seq<Adapter>, from: string, to: string): seq<Adapter> {
    seq(|adapters|, i requires 0 <= i < |adapters| => Follow(adapters[i], from, to))
  }

  /** The old id is a dynamic adapter's, the new one is free, and both can
      only be read as ids. */
  ghost predicate Renames(adapters: seq<Adapter>, from: string, to: string) {
    && IsId(from) && IsId(to) && from != to
    && forall i :: 0 <= i < |adapters| ==> adapters[i].id != to && (adapters[i].id == from ==> adapters[i].source == Dynamic)
  }

  lemma {:induction false} LookupFollows(adapters: seq<Adapter>, from: string, to: string, v: string)
    requires forall i :: 0 <= i < |adapters| ==> adapters[i].id != to
    requires v != to
    ensures AdapterById(FollowAll(adapters, from, to), if v == from then to else v) ==
            (match AdapterById(adapters, v) case Some(a) => Some(Follow(a, from, to)) case None => None)
  {
    if |adapters| > 0 {
      var rest, all := adapters[..|adapters| - 1], FollowAll(adapters, from, to);
      LookupFollows(rest, from, to, v);
      assert all[..|all| - 1] == FollowAll(rest, from, to);
    }
  }

  /** A reference that follows finds what it found. */
  lemma ValueFollows(adapters: seq<Adapter>, from: string, to: string, v: string, source: Source)
    requires Renames(adapters, from, to) && ResolveAdapterValue(adapters, v, source).Some?
    ensures ResolveAdapterValue(FollowAll(adapters, from, to), if v == from then to else v, source) ==
            ResolveAdapterValue(adapters, v, source)
    ensures source.Static? ==> v != from
  {
    AdapterFound(adapters, v);
    if v != to { LookupFollows(adapters, from, to, v); }
  }

  lemma OrGlobalFollows(adapters: seq<Adapter>, from: string, to: string, global: AdapterSel, v: Option<string>, source: Source)
    requires Renames(adapters, from, to) && ResolveOrGlobal(adapters, global, v, source).Some?
    ensures ResolveOrGlobal(FollowAll(adapters, from, to), global, RenRef(from, to, v), source) ==
            ResolveOrGlobal(adapters, global, v, source)
    ensures source.Static? ==> RenRef(from, to, v) == v
  {
    if v.Some? { ValueFollows(adapters, from, to, v.value, source); }
  }

  lemma TncFollows(adapters: seq<Adapter>, from: string, to: string, global: AdapterSel, d: At<TncDef>)
    requires Renames(adapters, from, to) && ResolveTnc(adapters, global, d).Some?
    ensures ResolveTnc(FollowAll(adapters, from, to), global, d.(def := RenSections(from, to, d.def))) == ResolveTnc(adapters, global, d)
    ensures d.source.Static? ==> RenSections(from, to, d.def) == d.def
  {
    if d.def.spp.Some? { OrGlobalFollows(adapters, from, to, global, d.def.spp.value.adapter, d.source); }
    if d.def.ble.Some? { OrGlobalFollows(adapters, from, to, global, d.def.ble.value.adapter, d.source); }
  }

  lemma KindFollows(adapters: seq<Adapter>, from: string, to: string, global: AdapterSel, tncs: seq<Tnc>, k: KindDef, source: Source)
    requires Renames(adapters, from, to) && ResolveKind(adapters, global, tncs, k, source).Some?
    ensures ResolveKind(FollowAll(adapters, from, to), global, tncs, RenKind(AdapterKind, from, to, k), source) ==
            ResolveKind(adapters, global, tncs, k, source)
    ensures source.Static? ==> RenKind(AdapterKind, from, to, k) == k
  {
    if k.BleServerDef? { OrGlobalFollows(adapters, from, to, global, k.adapter, source); }
  }

  lemma {:induction false} PortsFollow(adapters: seq<Adapter>, from: string, to: string, global: AdapterSel, tncs: seq<Tnc>,
                                       ports: seq<PortDef>, source: Source)
    requires Renames(adapters, from, to) && ResolvePorts(adapters, global, tncs, ports, source).Some?
    ensures ResolvePorts(FollowAll(adapters, from, to), global, tncs, RenPorts(AdapterKind, from, to, ports), source) ==
            ResolvePorts(adapters, global, tncs, ports, source)
    ensures source.Static? ==> RenPorts(AdapterKind, from, to, ports) == ports
  {
    if |ports| > 0 {
      var before, last := ports[..|ports| - 1], ports[|ports| - 1];
      PortsFollow(adapters, from, to, global, tncs, before, source);
      KindFollows(adapters, from, to, global, tncs, last.kind, source);
      SamePortId(AdapterKind, from, to, before, last);
      var ren := RenPorts(AdapterKind, from, to, ports);
      assert ren[..|ren| - 1] == RenPorts(AdapterKind, from, to, before);
      if source.Static? { assert ports == before + [last] && ren == RenPorts(AdapterKind, from, to, before) + [last]; }
    }
  }

  lemma BridgeFollows(adapters: seq<Adapter>, from: string, to: string, global: AdapterSel, tncs: seq<Tnc>, d: At<BridgeDef>)
    requires Renames(adapters, from, to) && ResolveBridge(adapters, global, tncs, d).Some?
    ensures ResolveBridge(FollowAll(adapters, from, to), global, tncs, d.(def := RenBridge(AdapterKind, from, to, d.def))) ==
            ResolveBridge(adapters, global, tncs, d)
    ensures d.source.Static? ==> RenBridge(AdapterKind, from, to, d.def) == d.def
  {
    PortsFollow(adapters, from, to, global, tncs, d.def.ports, d.source);
  }

  // ── Lists ───────────────────────────────────────────────────────────

  /** Each definition as before, or following if it is dynamic. */
  ghost predicate TncDefsFollow(defs: seq<At<TncDef>>, after: seq<At<TncDef>>, from: string, to: string) {
    |after| == |defs| && forall i :: 0 <= i < |defs| ==>
      after[i] == if defs[i].source.Static? then defs[i] else defs[i].(def := RenSections(from, to, defs[i].def))
  }

  ghost predicate BridgeDefsFollow(defs: seq<At<BridgeDef>>, after: seq<At<BridgeDef>>, from: string, to: string) {
    |after| == |defs| && forall i :: 0 <= i < |defs| ==>
      after[i] == if defs[i].source.Static? then defs[i] else defs[i].(def := RenBridge(AdapterKind, from, to, defs[i].def))
  }

  lemma TncsFollow(adapters: seq<Adapter>, from: string, to: string, global: AdapterSel, defs: seq<At<TncDef>>, after: seq<At<TncDef>>)
    requires Renames(adapters, from, to) && ResolveTncs(adapters, global, defs).Some? && TncDefsFollow(defs, after, from, to)
    ensures ResolveTncs(FollowAll(adapters, from, to), global, after) == ResolveTncs(adapters, global, defs)
  {
    var v := ResolveTncs(adapters, global, defs).value;
    TncsOne(adapters, global, defs);
    forall i | 0 <= i < |after| ensures ResolveTnc(FollowAll(adapters, from, to), global, after[i]) == Some(v[i]) {
      TncFollows(adapters, from, to, global, defs[i]);
    }
    TncsAll(FollowAll(adapters, from, to), global, after, v);
  }

  lemma BridgesFollow(adapters: seq<Adapter>, from: string, to: string, global: AdapterSel, tncs: seq<Tnc>,
                      defs: seq<At<BridgeDef>>, after: seq<At<BridgeDef>>)
    requires Renames(adapters, from, to) && ResolveBridges(adapters, global, tncs, defs).Some? && BridgeDefsFollow(defs, after, from, to)
    ensures ResolveBridges(FollowAll(adapters, from, to), global, tncs, after) == ResolveBridges(adapters, global, tncs, defs)
  {
    var v := ResolveBridges(adapters, global, tncs, defs).value;
    BridgesOne(adapters, global, tncs, defs);
    forall i | 0 <= i < |after| ensures ResolveBridge(FollowAll(adapters, from, to), global, tncs, after[i]) == Some(v[i]) {
      BridgeFollows(adapters, from, to, global, tncs, defs[i]);
    }
    BridgesAll(FollowAll(adapters, from, to), global, tncs, after, v);
  }

  /** The adapters' own definitions. */
  ghost predicate AdapterDefsFollow(defs: seq<At<AdapterDef>>, after: seq<At<AdapterDef>>, from: string, to: string) {
    |after| == |defs| && forall i :: 0 <= i < |defs| ==>
      after[i] == if defs[i].def.id == from then defs[i].(def := defs[i].def.(id := to)) else defs[i]
  }

  lemma AdapterFollows(d: At<AdapterDef>, a: Adapter, from: string, to: string)
    requires ResolveAdapter(d) == Some(a) && d.def.id == from && GoodId(to) && IsId(to)
    ensures ResolveAdapter(d.(def := d.def.(id := to))) == Some(Follow(a, from, to)) && a.id == from
  {
  }

  lemma AdaptersFollow(defs: seq<At<AdapterDef>>, after: seq<At<AdapterDef>>, from: string, to: string)
    requires GoodId(to) && IsId(to) && ResolveAdapters(defs).Some? && AdapterDefsFollow(defs, after, from, to)
    ensures ResolveAdapters(after) == Some(FollowAll(ResolveAdapters(defs).value, from, to))
  {
    var v := ResolveAdapters(defs).value;
    AdaptersOne(defs);
    forall i | 0 <= i < |after| ensures ResolveAdapter(after[i]) == Some(FollowAll(v, from, to)[i]) {
      AdapterSource(defs[i], v[i]);
      if defs[i].def.id == from { AdapterFollows(defs[i], v[i], from, to); }
    }
    AdaptersAll(after, FollowAll(v, from, to));
  }

  // ── The whole config ────────────────────────────────────────────────

  lemma GlobalFollows(adapters: seq<Adapter>, from: string, to: string, value: Option<At<string>>)
    requires Renames(adapters, from, to) && ResolveGlobal(adapters, value).Some?
    requires value.Some? ==> value.value.source.Static?
    ensures ResolveGlobal(FollowAll(adapters, from, to), value) == ResolveGlobal(adapters, value)
  {
    if value.Some? { ValueFollows(adapters, from, to, value.value.def, value.value.source); }
  }

  /** What the rename does to the lists of definitions. */
  lemma DefsFollow(statics: Files, f: ConfigFile, from: string, to: string)
    requires AllStatic(statics) && PlainFile(f) && !AdapterTaken(statics, from)
    ensures var files, after := statics + [At(Dynamic, f)], statics + [At(Dynamic, Renamed(f, AdapterKind, from, to))];
            && AdapterDefsFollow(AdapterDefs(files), AdapterDefs(after), from, to)
            && TncDefsFollow(TncDefs(files), TncDefs(after), from, to)
            && BridgeDefsFollow(BridgeDefs(files), BridgeDefs(after), from, to)
  {
    FilesSplit(statics, f);
    FilesSplit(statics, Renamed(f, AdapterKind, from, to));
    LocatedRenamed(f, AdapterKind, from, to);
    DefsStatic(statics);
    forall i | 0 <= i < |AdapterDefs(statics)| ensures AdapterDefs(statics)[i].def.id != from {
      assert AdapterDefs(statics)[i] in AdapterDefs(statics);
    }
  }

  lemma ResolvedFollows(statics: Files, f: ConfigFile, from: string, to: string, c: Config)
    requires AllStatic(statics) && PlainFile(f) && Resolved(statics + [At(Dynamic, f)]) == Some(c)
    requires !AdapterTaken(statics, from) && Renames(c.adapters, from, to) && GoodId(to)
    ensures Resolved(statics + [At(Dynamic, Renamed(f, AdapterKind, from, to))]) ==
            Some(c.(adapters := FollowAll(c.adapters, from, to)))
  {
    var files, after := statics + [At(Dynamic, f)], statics + [At(Dynamic, Renamed(f, AdapterKind, from, to))];
    DefsFollow(statics, f, from, to);
    FilesSplit(statics, f);
    FilesSplit(statics, Renamed(f, AdapterKind, from, to));
    DefsStatic(statics);
    AdaptersFollow(AdapterDefs(files), AdapterDefs(after), from, to);
    GlobalFollows(c.adapters, from, to, GlobalAdapter(statics));
    TncsFollow(c.adapters, from, to, c.adapter, TncDefs(files), TncDefs(after));
    BridgesFollow(c.adapters, from, to, c.adapter, c.tncs, BridgeDefs(files), BridgeDefs(after));
  }

  /** What `update_object` accepts as a rename. */
  ghost predicate Accepted(statics: Files, f: ConfigFile, from: string, to: string) {
    && from != to
    && !AdapterTaken(statics, from) && (exists d :: d in f.adapters && d.id == from)
    && !AdapterTaken(statics, to) && forall d :: d in f.adapters ==> d.id != to
  }

  ghost predicate AdapterIdsOf(c: Config, statics: Files, kept: ConfigFile) {
    && |c.adapters| == |AdapterDefs(statics)| + |kept.adapters|
    && (forall i :: 0 <= i < |AdapterDefs(statics)| ==> c.adapters[i].id == AdapterDefs(statics)[i].def.id)
    && (forall i :: 0 <= i < |kept.adapters| ==>
          c.adapters[|AdapterDefs(statics)| + i].id == kept.adapters[i].id && c.adapters[|AdapterDefs(statics)| + i].source == Dynamic)
  }

  lemma AdaptersNamed(defs: seq<At<AdapterDef>>, v: seq<Adapter>)
    requires AdaptersAre(defs, v)
    ensures forall i :: 0 <= i < |v| ==> v[i].id == defs[i].def.id && v[i].source == defs[i].source
  {
    forall i | 0 <= i < |v| ensures v[i].id == defs[i].def.id && v[i].source == defs[i].source { AdapterSource(defs[i], v[i]); }
  }

  lemma NamesSplit(statics: Files, kept: ConfigFile, defs: seq<At<AdapterDef>>, c: Config)
    requires defs == AdapterDefs(statics) + Located(Dynamic, kept.adapters) && |c.adapters| == |defs|
    requires forall i :: 0 <= i < |defs| ==> c.adapters[i].id == defs[i].def.id && c.adapters[i].source == defs[i].source
    ensures AdapterIdsOf(c, statics, kept)
  {
    var n := |AdapterDefs(statics)|;
    forall i | 0 <= i < |kept.adapters| ensures c.adapters[n + i].id == kept.adapters[i].id && c.adapters[n + i].source == Dynamic {
      assert defs[n + i] == At(Dynamic, kept.adapters[i]);
    }
  }

  lemma IdsKept(statics: Files, kept: ConfigFile, c: Config)
    requires PlainFile(kept) && Resolved(statics + [At(Dynamic, kept)]) == Some(c)
    ensures AdapterIdsOf(c, statics, kept)
  {
    FilesSplit(statics, kept);
    var defs := AdapterDefs(statics + [At(Dynamic, kept)]);
    AdaptersOne(defs);
    AdaptersNamed(defs, c.adapters);
    NamesSplit(statics, kept, defs, c);
  }

  lemma FromIsId(statics: Files, kept: ConfigFile, c: Config, d: AdapterDef)
    requires PlainFile(kept) && Resolved(statics + [At(Dynamic, kept)]) == Some(c) && d in kept.adapters
    ensures IsId(d.id)
  {
    FilesSplit(statics, kept);
    var defs := AdapterDefs(statics + [At(Dynamic, kept)]);
    AdaptersOne(defs);
    var i :| 0 <= i < |kept.adapters| && kept.adapters[i] == d;
    var n := |AdapterDefs(statics)|;
    assert defs[n + i] == At(Dynamic, d);
    assert ResolveAdapter(defs[n + i]).Some?;
  }

  lemma IdsAccepted(statics: Files, f: ConfigFile, c: Config, from: string, to: string)
    requires Accepted(statics, f, from, to) && AdapterIdsOf(c, statics, SetAside(statics, f))
    ensures forall i :: 0 <= i < |c.adapters| ==>
              c.adapters[i].id != to && (c.adapters[i].id == from ==> c.adapters[i].source == Dynamic)
  {
    var kept := SetAside(statics, f);
    var n := |AdapterDefs(statics)|;
    forall i | 0 <= i < |c.adapters|
      ensures c.adapters[i].id != to && (c.adapters[i].id == from ==> c.adapters[i].source == Dynamic)
    {
      if i < n {
        assert AdapterDefs(statics)[i] in AdapterDefs(statics);
      } else {
        assert c.adapters[i].id == kept.adapters[i - n].id && kept.adapters[i - n] in kept.adapters;
        KeptAdapters(statics, f.adapters, kept.adapters[i - n]);
      }
    }
  }

  lemma AcceptedRenames(statics: Files, f: ConfigFile, c: Config, from: string, to: string)
    requires PlainFile(f) && Accepted(statics, f, from, to) && IsId(to)
    requires Resolved(statics + [At(Dynamic, SetAside(statics, f))]) == Some(c)
    ensures Renames(c.adapters, from, to)
  {
    var kept := SetAside(statics, f);
    IdsKept(statics, kept, c);
    IdsAccepted(statics, f, c, from, to);
    var d :| d in f.adapters && d.id == from;
    KeptAdapters(statics, f.adapters, d);
    FromIsId(statics, kept, c, d);
  }

  lemma FollowValid(c: Config, from: string, to: string)
    requires V.Valid(c) && forall i :: 0 <= i < |c.adapters| ==> c.adapters[i].id != to
    ensures V.Valid(c.(adapters := FollowAll(c.adapters, from, to)))
  {
    var d := c.(adapters := FollowAll(c.adapters, from, to));
    assert V.AdapterMacs(d) == V.AdapterMacs(c) && V.TncIds(d) == V.TncIds(c) && V.SppKeys(d) == V.SppKeys(c)
      && V.BleKeys(d) == V.BleKeys(c) && V.Paths(d) == V.Paths(c) && V.BridgeIds(d) == V.BridgeIds(c) && V.BridgeNames(d) == V.BridgeNames(c);
    assert V.KeysDistinct(c, V.AdapterId);
    forall i, j | 0 <= i < j < |d.adapters| ensures V.AdapterIds(d)[i] != V.AdapterIds(d)[j] {
      assert V.AdapterIds(c)[i] != V.AdapterIds(c)[j];
    }
    forall what ensures V.KeysDistinct(d, what) { assert V.KeysDistinct(c, what); }
  }

  /** A bad new id makes the file an error. */
  lemma BadIdRefused(statics: Files, kept: ConfigFile, from: string, to: string, d: AdapterDef)
    requires PlainFile(kept) && d in kept.adapters && d.id == from && !(GoodId(to) && IsId(to))
    ensures Resolved(statics + [At(Dynamic, Renamed(kept, AdapterKind, from, to))]).None?
  {
    var after := Renamed(kept, AdapterKind, from, to);
    FilesSplit(statics, after);
    LocatedRenamed(kept, AdapterKind, from, to);
    var defs := AdapterDefs(statics + [At(Dynamic, after)]);
    var i :| 0 <= i < |kept.adapters| && kept.adapters[i] == d;
    assert defs[|AdapterDefs(statics)| + i] == At(Dynamic, d.(id := to));
    EveryNone(AdapterResolver(), defs, |AdapterDefs(statics)| + i);
  }

  /** An accepted rename of an adapter builds exactly when the new id is one an
      adapter can have; the config is then the same but for that id. */
  lemma AdapterRename(s: Sources, f: ConfigFile, from: string, to: string, c: Config)
    requires AllStatic(s.statics) && s.dynamic == Some(Good(f)) && Built(s) == Some(c) && Accepted(s.statics, f, from, to)
    ensures Built(s.(dynamic := Some(Good(Renamed(f, AdapterKind, from, to))))) ==
            if GoodId(to) && IsId(to) then Some(c.(adapters := FollowAll(c.adapters, from, to))) else None
  {
    var statics := s.statics;
    var kept := SetAside(statics, f);
    var r := Resolved(statics + [At(Dynamic, kept)]).value;
    SetAsideRenamed(statics, f, AdapterKind, from, to);
    RenamedLoadable(f, AdapterKind, from, to);
    if GoodId(to) && IsId(to) {
      AcceptedRenames(statics, f, r, from, to);
      ResolvedFollows(statics, kept, from, to, r);
      FollowValid(c, from, to);
    } else {
      var d :| d in f.adapters && d.id == from;
      KeptAdapters(statics, f.adapters, d);
      BadIdRefused(statics, kept, from, to, d);
    }
  }
}

/** No dynamic object reaches into static config: whatever a dynamic file holds, what the
    static files define is what they define without it. */
module StaticConfig {
  import opened Common
  import opened BridgeState
  import opened Config
  import opened Resolve
  import opened Build
  import V = Validate

  // ── Lists resolve one by one ────────────────────────────────────────

  lemma {:induction false} EveryOne<D, T>(f: D -> Option<T>, defs: seq<D>)
    requires Every(f, defs).Some?
    ensures |Every(f, defs).value| == |defs|
    ensures forall i :: 0 <= i < |defs| ==> f(defs[i]) == Some(Every(f, defs).value[i])
  {
    if |defs| > 0 { EveryOne(f, defs[..|defs| - 1]); }
  }

  lemma {:induction false} EveryAll<D, T>(f: D -> Option<T>, defs: seq<D>, v: seq<T>)
    requires |v| == |defs| && forall i :: 0 <= i < |defs| ==> f(defs[i]) == Some(v[i])
    ensures Every(f, defs) == Some(v)
  {
    if |defs| > 0 {
      EveryAll(f, defs[..|defs| - 1], v[..|v| - 1]);
      assert v == v[..|v| - 1] + [v[|v| - 1]];
    }
  }

  lemma {:induction false} EveryNone<D, T>(f: D -> Option<T>, defs: seq<D>, i: nat)
    requires i < |defs| && f(defs[i]).None?
    ensures Every(f, defs).None?
  {
    if i < |defs| - 1 { EveryNone(f, defs[..|defs| - 1], i); }
  }

  ghost predicate AdaptersAre(defs: seq<At<AdapterDef>>, v: seq<Adapter>) {
    |v| == |defs| && forall i :: 0 <= i < |v| ==> ResolveAdapter(defs[i]) == Some(v[i])
  }

  lemma AdaptersOne(defs: seq<At<AdapterDef>>)
    requires ResolveAdapters(defs).Some?
    ensures AdaptersAre(defs, ResolveAdapters(defs).value)
  {
    var f, v := AdapterResolver(), ResolveAdapters(defs).value;
    EveryOne(f, defs);
    forall i | 0 <= i < |v| ensures ResolveAdapter(defs[i]) == Some(v[i]) { assert f(defs[i]) == Some(v[i]); }
  }

  lemma AdaptersAll(defs: seq<At<AdapterDef>>, v: seq<Adapter>)
    requires AdaptersAre(defs, v)
    ensures ResolveAdapters(defs) == Some(v)
  {
    EveryAll(AdapterResolver(), defs, v);
  }

  ghost predicate TncsAre(adapters: seq<Adapter>, global: AdapterSel, defs: seq<At<TncDef>>, v: seq<Tnc>) {
    |v| == |defs| && forall i :: 0 <= i < |v| ==> ResolveTnc(adapters, global, defs[i]) == Some(v[i])
  }

  lemma TncsOne(adapters: seq<Adapter>, global: AdapterSel, defs: seq<At<TncDef>>)
    requires ResolveTncs(adapters, global, defs).Some?
    ensures TncsAre(adapters, global, defs, ResolveTncs(adapters, global, defs).value)
  {
    var f, v := TncResolver(adapters, global), ResolveTncs(adapters, global, defs).value;
    EveryOne(f, defs);
    forall i | 0 <= i < |v| ensures ResolveTnc(adapters, global, defs[i]) == Some(v[i]) { assert f(defs[i]) == Some(v[i]); }
  }

  lemma TncsAll(adapters: seq<Adapter>, global: AdapterSel, defs: seq<At<TncDef>>, v: seq<Tnc>)
    requires TncsAre(adapters, global, defs, v)
    ensures ResolveTncs(adapters, global, defs) == Some(v)
  {
    EveryAll(TncResolver(adapters, global), defs, v);
  }

  ghost predicate BridgesAre(adapters: seq<Adapter>, global: AdapterSel, tncs: seq<Tnc>, defs: seq<At<BridgeDef>>, v: seq<Bridge>) {
    |v| == |defs| && forall i :: 0 <= i < |v| ==> ResolveBridge(adapters, global, tncs, defs[i]) == Some(v[i])
  }

  lemma BridgesOne(adapters: seq<Adapter>, global: AdapterSel, tncs: seq<Tnc>, defs: seq<At<BridgeDef>>)
    requires ResolveBridges(adapters, global, tncs, defs).Some?
    ensures BridgesAre(adapters, global, tncs, defs, ResolveBridges(adapters, global, tncs, defs).value)
  {
    var f, v := BridgeResolver(adapters, global, tncs), ResolveBridges(adapters, global, tncs, defs).value;
    EveryOne(f, defs);
    forall i | 0 <= i < |v| ensures ResolveBridge(adapters, global, tncs, defs[i]) == Some(v[i]) { assert f(defs[i]) == Some(v[i]); }
  }

  lemma BridgesAll(adapters: seq<Adapter>, global: AdapterSel, tncs: seq<Tnc>, defs: seq<At<BridgeDef>>, v: seq<Bridge>)
    requires BridgesAre(adapters, global, tncs, defs, v)
    ensures ResolveBridges(adapters, global, tncs, defs) == Some(v)
  {
    EveryAll(BridgeResolver(adapters, global, tncs), defs, v);
  }

  // ── References from static config ───────────────────────────────────

  ghost predicate AllStatic(files: Files) {
    forall f :: f in files ==> f.source.Static?
  }

  lemma {:induction false} LastAdapter(a: seq<Adapter>, more: seq<Adapter>, id: string)
    ensures AdapterById(a + more, id) == if AdapterById(more, id).Some? then AdapterById(more, id) else AdapterById(a, id)
  {
    if |more| == 0 {
      assert a + more == a;
    } else {
      LastAdapter(a, more[..|more| - 1], id);
      assert (a + more)[..|a + more| - 1] == a + more[..|more| - 1];
    }
  }

  lemma {:induction false} AdapterFound(a: seq<Adapter>, id: string)
    ensures AdapterById(a, id).Some? ==> AdapterById(a, id).value in a && AdapterById(a, id).value.id == id
    ensures AdapterById(a, id).None? ==> forall x :: x in a ==> x.id != id
  {
    if |a| > 0 {
      AdapterFound(a[..|a| - 1], id);
      assert a == a[..|a| - 1] + [a[|a| - 1]];
    }
  }

  lemma {:induction false} FirstTncFound(t: seq<Tnc>, more: seq<Tnc>, id: string)
    ensures TncById(t + more, id) == if TncById(t, id).Some? then TncById(t, id) else TncById(more, id)
  {
    if |t| == 0 {
      assert t + more == more;
    } else {
      FirstTncFound(t[1..], more, id);
      assert (t + more)[1..] == t[1..] + more;
    }
  }

  lemma {:induction false} TncFound(t: seq<Tnc>, id: string)
    ensures TncById(t, id).Some? ==> TncById(t, id).value in t && TncById(t, id).value.id == id
    ensures TncById(t, id).None? ==> forall x :: x in t ==> x.id != id
  {
    if |t| > 0 { TncFound(t[1..], id); }
  }

  ghost predicate AdaptersDynamic(more: seq<Adapter>) {
    forall i :: 0 <= i < |more| ==> more[i].source == Dynamic
  }

  ghost predicate TncsDynamic(more: seq<Tnc>) {
    forall i :: 0 <= i < |more| ==> more[i].source == Dynamic
  }

  /** A static reference that resolves, resolves without the dynamic objects. */
  lemma StaticValue(a: seq<Adapter>, more: seq<Adapter>, value: string, source: Source)
    requires source.Static? && AdaptersDynamic(more) && ResolveAdapterValue(a + more, value, source).Some?
    ensures ResolveAdapterValue(a, value, source) == ResolveAdapterValue(a + more, value, source)
  {
    LastAdapter(a, more, value);
    AdapterFound(more, value);
  }

  lemma StaticOrGlobal(a: seq<Adapter>, more: seq<Adapter>, global: AdapterSel, value: Option<string>, source: Source)
    requires source.Static? && AdaptersDynamic(more) && ResolveOrGlobal(a + more, global, value, source).Some?
    ensures ResolveOrGlobal(a, global, value, source) == ResolveOrGlobal(a + more, global, value, source)
  {
    if value.Some? { StaticValue(a, more, value.value, source); }
  }

  lemma StaticTnc(a: seq<Adapter>, more: seq<Adapter>, global: AdapterSel, d: At<TncDef>)
    requires d.source.Static? && AdaptersDynamic(more) && ResolveTnc(a + more, global, d).Some?
    ensures ResolveTnc(a, global, d) == ResolveTnc(a + more, global, d)
  {
    if d.def.spp.Some? { StaticOrGlobal(a, more, global, d.def.spp.value.adapter, d.source); }
    if d.def.ble.Some? { StaticOrGlobal(a, more, global, d.def.ble.value.adapter, d.source); }
  }

  lemma StaticKind(a: seq<Adapter>, more: seq<Adapter>, global: AdapterSel, t: seq<Tnc>, moreTncs: seq<Tnc>, k: KindDef, source: Source)
    requires source.Static? && AdaptersDynamic(more) && TncsDynamic(moreTncs)
    requires ResolveKind(a + more, global, t + moreTncs, k, source).Some?
    ensures ResolveKind(a, global, t, k, source) == ResolveKind(a + more, global, t + moreTncs, k, source)
  {
    match k
    case BleServerDef(adapter, _) => StaticOrGlobal(a, more, global, adapter, source);
    case TncPortDef(_, tnc, _, _, _) =>
      FirstTncFound(t, moreTncs, tnc);
      TncFound(moreTncs, tnc);
    case _ =>
  }

  lemma {:induction false} StaticPorts(a: seq<Adapter>, more: seq<Adapter>, global: AdapterSel, t: seq<Tnc>, moreTncs: seq<Tnc>,
                                       ports: seq<PortDef>, source: Source)
    requires source.Static? && AdaptersDynamic(more) && TncsDynamic(moreTncs)
    requires ResolvePorts(a + more, global, t + moreTncs, ports, source).Some?
    ensures ResolvePorts(a, global, t, ports, source) == ResolvePorts(a + more, global, t + moreTncs, ports, source)
  {
    if |ports| > 0 {
      StaticPorts(a, more, global, t, moreTncs, ports[..|ports| - 1], source);
      StaticKind(a, more, global, t, moreTncs, ports[|ports| - 1].kind, source);
    }
  }

  // ── The static part of a config ─────────────────────────────────────

  /** `c` is `part`, and more that is dynamic. */
  ghost predicate Extends(part: Config, c: Config) {
    && part.logLevel == c.logLevel && part.adapter == c.adapter && part.group == c.group
    && part.adapters <= c.adapters && part.tncs <= c.tncs && part.bridges <= c.bridges
    && (forall i :: 0 <= i < |c.adapters| ==> (c.adapters[i].source.Static? <==> i < |part.adapters|))
    && (forall i :: 0 <= i < |c.tncs| ==> (c.tncs[i].source.Static? <==> i < |part.tncs|))
    && (forall i :: 0 <= i < |c.bridges| ==> (c.bridges[i].source.Static? <==> i < |part.bridges|))
  }

  lemma PrefixDistinct<K>(keys: seq<Option<K>>, more: seq<Option<K>>)
    requires V.Distinct(more) && |keys| <= |more| && forall i :: 0 <= i < |keys| ==> keys[i] == more[i]
    ensures V.Distinct(keys)
  {
  }

  lemma PartKeys(part: Config, c: Config, what: V.What)
    requires Extends(part, c) && V.KeysDistinct(c, what)
    ensures V.KeysDistinct(part, what)
  {
    match what
    case AdapterId => PrefixDistinct(V.AdapterIds(part), V.AdapterIds(c));
    case AdapterAddress => PrefixDistinct(V.AdapterMacs(part), V.AdapterMacs(c));
    case TncId => PrefixDistinct(V.TncIds(part), V.TncIds(c));
    case TncSpp => PrefixDistinct(V.SppKeys(part), V.SppKeys(c));
    case TncBle => PrefixDistinct(V.BleKeys(part), V.BleKeys(c));
    case TncPath => PrefixDistinct(V.Paths(part), V.Paths(c));
    case BridgeId => PrefixDistinct(V.BridgeIds(part), V.BridgeIds(c));
    case BridgeName => PrefixDistinct(V.BridgeNames(part), V.BridgeNames(c));
  }

  lemma PartValid(part: Config, c: Config)
    requires Extends(part, c) && V.Valid(c)
    ensures V.Valid(part)
  {
    forall what ensures V.KeysDistinct(part, what) { PartKeys(part, c, what); }
    forall b | b in part.bridges ensures b in c.bridges {
      var i :| 0 <= i < |part.bridges| && part.bridges[i] == b;
      assert c.bridges[i] == b;
    }
    forall i, j | 0 <= i < j < |part.bridges| && part.bridges[i].enabled && part.bridges[j].enabled
      ensures !V.Exclusive(part.bridges[i], part.bridges[j])
    {
      assert c.bridges[i] == part.bridges[i] && c.bridges[j] == part.bridges[j];
    }
  }

  // ── Files ───────────────────────────────────────────────────────────

  lemma {:induction false} DefsStatic(files: Files)
    requires AllStatic(files)
    ensures forall i :: 0 <= i < |AdapterDefs(files)| ==> AdapterDefs(files)[i].source.Static?
    ensures forall i :: 0 <= i < |TncDefs(files)| ==> TncDefs(files)[i].source.Static?
    ensures forall i :: 0 <= i < |BridgeDefs(files)| ==> BridgeDefs(files)[i].source.Static?
    ensures GlobalAdapter(files).Some? ==> GlobalAdapter(files).value.source.Static?
  {
    if |files| > 0 {
      assert files[|files| - 1] in files;
      DefsStatic(files[..|files| - 1]);
    }
  }

  lemma FilesSplit(statics: Files, f: ConfigFile)
    requires PlainFile(f)
    ensures var files := statics + [At(Dynamic, f)];
            && AdapterDefs(files) == AdapterDefs(statics) + Located(Dynamic, f.adapters)
            && TncDefs(files) == TncDefs(statics) + Located(Dynamic, f.tncs)
            && BridgeDefs(files) == BridgeDefs(statics) + Located(Dynamic, f.bridges)
            && LogLevel(files) == LogLevel(statics) && Group(files) == Group(statics)
            && GlobalAdapter(files) == GlobalAdapter(statics)
  {
    var files := statics + [At(Dynamic, f)];
    assert files[..|files| - 1] == statics;
  }

  lemma AdapterSource(d: At<AdapterDef>, a: Adapter)
    requires ResolveAdapter(d) == Some(a)
    ensures a.source == d.source && a.id == d.def.id
  {
  }

  lemma AdapterSources(defs: seq<At<AdapterDef>>, v: seq<Adapter>)
    requires AdaptersAre(defs, v)
    ensures forall i :: 0 <= i < |defs| ==> v[i].source == defs[i].source
  {
    forall i | 0 <= i < |defs| ensures v[i].source == defs[i].source { AdapterSource(defs[i], v[i]); }
  }

  lemma AdaptersPrefix(defs: seq<At<AdapterDef>>, more: seq<At<AdapterDef>>, v: seq<Adapter>)
    requires AdaptersAre(defs + more, v)
    ensures AdaptersAre(defs, v[..|defs|])
  {
    var all := defs + more;
    forall i | 0 <= i < |defs| ensures ResolveAdapter(defs[i]) == Some(v[..|defs|][i]) { assert all[i] == defs[i]; }
  }

  lemma AdaptersSuffix(defs: seq<At<AdapterDef>>, more: seq<At<AdapterDef>>, v: seq<Adapter>)
    requires |v| == |defs| + |more| && forall i :: 0 <= i < |v| ==> v[i].source == (defs + more)[i].source
    requires forall i :: 0 <= i < |more| ==> more[i].source == Dynamic
    ensures AdaptersDynamic(v[|defs|..])
  {
    forall i | 0 <= i < |more| ensures v[|defs|..][i].source == Dynamic { assert (defs + more)[|defs| + i] == more[i]; }
  }

  lemma SplitAdapters(defs: seq<At<AdapterDef>>, more: seq<At<AdapterDef>>, v: seq<Adapter>)
    requires AdaptersAre(defs + more, v) && forall i :: 0 <= i < |more| ==> more[i].source == Dynamic
    ensures ResolveAdapters(defs) == Some(v[..|defs|]) && AdaptersDynamic(v[|defs|..])
    ensures forall i :: 0 <= i < |defs| ==> v[i].source == defs[i].source
  {
    AdapterSources(defs + more, v);
    AdaptersPrefix(defs, more, v);
    AdaptersAll(defs, v[..|defs|]);
    AdaptersSuffix(defs, more, v);
  }

  lemma SplitTncs(a: seq<Adapter>, more: seq<Adapter>, global: AdapterSel, defs: seq<At<TncDef>>, f: seq<TncDef>, v: seq<Tnc>)
    requires AdaptersDynamic(more) && ResolveTncs(a + more, global, defs + Located(Dynamic, f)) == Some(v)
    requires forall i :: 0 <= i < |defs| ==> defs[i].source.Static?
    ensures |v| == |defs| + |f| && ResolveTncs(a, global, defs) == Some(v[..|defs|]) && TncsDynamic(v[|defs|..])
    ensures forall i :: 0 <= i < |defs| ==> v[i].source.Static?
  {
    var all := defs + Located(Dynamic, f);
    TncsOne(a + more, global, all);
    forall i | 0 <= i < |v| ensures v[i].source == all[i].source { assert ResolveTnc(a + more, global, all[i]) == Some(v[i]); }
    forall i | 0 <= i < |defs| ensures ResolveTnc(a, global, defs[i]) == Some(v[..|defs|][i]) {
      assert all[i] == defs[i];
      StaticTnc(a, more, global, defs[i]);
    }
    TncsAll(a, global, defs, v[..|defs|]);
    forall i | 0 <= i < |f| ensures v[|defs|..][i].source == Dynamic { assert all[|defs| + i].source == Dynamic; }
  }

  lemma SplitBridges(a: seq<Adapter>, more: seq<Adapter>, global: AdapterSel, t: seq<Tnc>, moreTncs: seq<Tnc>,
                     defs: seq<At<BridgeDef>>, f: seq<BridgeDef>, v: seq<Bridge>)
    requires AdaptersDynamic(more) && TncsDynamic(moreTncs)
    requires ResolveBridges(a + more, global, t + moreTncs, defs + Located(Dynamic, f)) == Some(v)
    requires forall i :: 0 <= i < |defs| ==> defs[i].source.Static?
    ensures |v| == |defs| + |f| && ResolveBridges(a, global, t, defs) == Some(v[..|defs|])
    ensures forall i :: 0 <= i < |v| ==> (v[i].source.Static? <==> i < |defs|)
  {
    var all := defs + Located(Dynamic, f);
    BridgesOne(a + more, global, t + moreTncs, all);
    forall i | 0 <= i < |v| ensures v[i].source == all[i].source {
      assert ResolveBridge(a + more, global, t + moreTncs, all[i]) == Some(v[i]);
    }
    forall i | 0 <= i < |defs| ensures ResolveBridge(a, global, t, defs[i]) == Some(v[..|defs|][i]) {
      assert all[i] == defs[i];
      StaticPorts(a, more, global, t, moreTncs, defs[i].def.ports, defs[i].source);
    }
    BridgesAll(a, global, t, defs, v[..|defs|]);
  }

  lemma StaticGlobal(a: seq<Adapter>, more: seq<Adapter>, value: Option<At<string>>)
    requires value.Some? ==> value.value.source.Static?
    requires AdaptersDynamic(more) && ResolveGlobal(a + more, value).Some?
    ensures ResolveGlobal(a, value) == ResolveGlobal(a + more, value)
  {
    if value.Some? { StaticValue(a, more, value.value.def, value.value.source); }
  }

  lemma {:induction false} Rejoined<T>(s: seq<T>, n: nat)
    requires n <= |s|
    ensures s[..n] + s[n..] == s && s[..n] <= s
  {
  }

  /** Whatever the dynamic file, the static part resolves as it does alone. */
  lemma ResolvedStatic(statics: Files, f: ConfigFile, c: Config)
    requires AllStatic(statics) && PlainFile(f) && Resolved(statics + [At(Dynamic, f)]) == Some(c)
    ensures Resolved(statics).Some? && Extends(Resolved(statics).value, c)
  {
    FilesSplit(statics, f);
    DefsStatic(statics);
    var n, m, k := |AdapterDefs(statics)|, |TncDefs(statics)|, |BridgeDefs(statics)|;
    AdaptersOne(AdapterDefs(statics) + Located(Dynamic, f.adapters));
    SplitAdapters(AdapterDefs(statics), Located(Dynamic, f.adapters), c.adapters);
    var a, more := c.adapters[..n], c.adapters[n..];
    Rejoined(c.adapters, n);
    StaticGlobal(a, more, GlobalAdapter(statics));
    SplitTncs(a, more, c.adapter, TncDefs(statics), f.tncs, c.tncs);
    var t, moreTncs := c.tncs[..m], c.tncs[m..];
    Rejoined(c.tncs, m);
    SplitBridges(a, more, c.adapter, t, moreTncs, BridgeDefs(statics), f.bridges, c.bridges);
    Rejoined(c.bridges, k);
    var part := Config(c.logLevel, c.adapter, c.group, a, t, c.bridges[..k]);
    assert Resolved(statics) == Some(part);
    PartExtends(part, c, n, m, k);
  }

  lemma PartExtends(part: Config, c: Config, n: nat, m: nat, k: nat)
    requires n <= |c.adapters| && m <= |c.tncs| && k <= |c.bridges|
    requires part == Config(c.logLevel, c.adapter, c.group, c.adapters[..n], c.tncs[..m], c.bridges[..k])
    requires (forall i :: 0 <= i < n ==> c.adapters[i].source.Static?) && AdaptersDynamic(c.adapters[n..])
    requires (forall i :: 0 <= i < m ==> c.tncs[i].source.Static?) && TncsDynamic(c.tncs[m..])
    requires forall i :: 0 <= i < |c.bridges| ==> (c.bridges[i].source.Static? <==> i < k)
    ensures Extends(part, c)
  {
    forall i | n <= i < |c.adapters| ensures !c.adapters[i].source.Static? { assert c.adapters[n..][i - n] == c.adapters[i]; }
    forall i | m <= i < |c.tncs| ensures !c.tncs[i].source.Static? { assert c.tncs[m..][i - m] == c.tncs[i]; }
  }

  /** Static non-interference: a build that succeeds with a dynamic file has
      the static files' adapters, TNCs and bridges, enabled as the state says,
      just as a build without it, which succeeds too. */
  lemma StaticUnaffected(s: Sources)
    requires AllStatic(s.statics) && s.dynamic.Some? && Built(s).Some?
    ensures Built(s.(dynamic := None)).Some?
    ensures Extends(Built(s.(dynamic := None)).value, Built(s).value)
  {
    var f := SetAside(s.statics, s.dynamic.value.value);
    var c := Resolved(s.statics + [At(Dynamic, f)]).value;
    ResolvedStatic(s.statics, f, c);
    var part := Resolved(s.statics).value;
    var partBuilt, built := part.(bridges := Override(part.bridges, s.enabled)), c.(bridges := Override(c.bridges, s.enabled));
    assert Extends(partBuilt, built);
    PartValid(partBuilt, built);
  }
}

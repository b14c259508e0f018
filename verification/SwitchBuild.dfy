/** A switch as the daemon makes it: edits of the dynamic store and of the
    overrides, and a rebuild (`set_enabled` and `BridgeSwitch` in
    src/supervisor.rs). */
module SwitchBuild {
  import opened Common
  import opened BridgeState
  import opened Config
  import opened Resolve
  import opened Build
  import opened StaticConfig
  import opened Switch
  import Edit
  import V = Validate

  // ── Enabling one bridge ─────────────────────────────────────────────

  predicate StaticBridge(statics: Files, id: string) {
    exists d :: d in BridgeDefs(statics) && d.def.id == Some(id)
  }

  /** The first definition of that id has its new flag. */
  function EnableFirst(bridges: seq<BridgeDef>, id: string, on: bool): seq<BridgeDef> {
    seq(|bridges|, i requires 0 <= i < |bridges| =>
      if Edit.BridgeIndex(bridges, id) == Some(i) then bridges[i].(enabled := Some(on)) else bridges[i])
  }

  /** An error if the store has no bridge of that id. */
  ghost predicate EditedStore(s: Sources, id: string, on: bool, r: Option<Sources>) {
    match s.dynamic
    case Some(Good(f)) =>
      r == if Edit.BridgeIndex(f.bridges, id).None? then None
           else Some(s.(dynamic := Some(Good(f.(bridges := EnableFirst(f.bridges, id, on))))))
    case _ => r == None
  }

  /** A static bridge through its override, a dynamic one in its definition. */
  method SetEnabled(s: Sources, id: string, on: bool) returns (r: Option<Sources>)
    ensures StaticBridge(s.statics, id) ==> r == Some(s.(enabled := s.enabled[id := on]))
    ensures !StaticBridge(s.statics, id) ==> EditedStore(s, id, on, r)
  {
    if StaticBridge(s.statics, id) {
      return Some(s.(enabled := s.enabled[id := on]));
    }
    match s.dynamic {
      case Some(Good(f)) =>
        Edit.BridgeIndexFinds(f.bridges, id);
        match Edit.BridgeIndex(f.bridges, id) {
          case None => return None;
          case Some(i) =>
            var bridges := f.bridges[i := f.bridges[i].(enabled := Some(on))];
            assert bridges == EnableFirst(f.bridges, id, on);
            r := Some(s.(dynamic := Some(Good(f.(bridges := bridges)))));
        }
      case _ => r := None;
    }
  }

  // ── What an edit by id reaches ──────────────────────────────────────

  ghost predicate FirstStays(statics: Files, defs: seq<BridgeDef>, id: string) {
    exists i :: 0 <= i < |defs| && Edit.BridgeIndex(defs, id) == Some(i) && !BridgeTaken(statics, defs[i])
  }

  /** An edit of the bridge of that id is seen in the effective config: it is
      static, or the store's first of that id isn't set aside. */
  ghost predicate Reaches(s: Sources, id: string) {
    || StaticBridge(s.statics, id)
    || match s.dynamic
       case Some(Good(f)) => FirstStays(s.statics, f.bridges, id)
       case _ => false
  }

  lemma FirstStaysOn(statics: Files, defs: seq<BridgeDef>, id: string, on: bool, other: string)
    ensures FirstStays(statics, EnableFirst(defs, id, on), other) <==> FirstStays(statics, defs, other)
  {
    var after := EnableFirst(defs, id, on);
    Edit.BridgeIndexSame(defs, after, other);
    forall i | 0 <= i < |defs| ensures BridgeTaken(statics, after[i]) <==> BridgeTaken(statics, defs[i]) {
      assert after[i].id == defs[i].id && after[i].name == defs[i].name;
    }
  }

  function EnableDef(b: BridgeDef, id: string, on: bool): BridgeDef {
    if b.id == Some(id) then b.(enabled := Some(on)) else b
  }

  function EnableDefs(bridges: seq<BridgeDef>, id: string, on: bool): seq<BridgeDef> {
    seq(|bridges|, i requires 0 <= i < |bridges| => EnableDef(bridges[i], id, on))
  }

  lemma {:induction false} KeptBridges(statics: Files, defs: seq<BridgeDef>, d: BridgeDef)
    ensures d in KeepBridges(statics, defs) <==> d in defs && !BridgeTaken(statics, d)
  {
    if |defs| > 0 {
      KeptBridges(statics, defs[..|defs| - 1], d);
      assert defs == defs[..|defs| - 1] + [defs[|defs| - 1]];
    }
  }

  ghost predicate OneOf(defs: seq<BridgeDef>, id: string) {
    forall i, j :: 0 <= i < j < |defs| && defs[i].id == Some(id) ==> defs[j].id != Some(id)
  }

  /** Of the definitions of that id, only one is kept. */
  lemma {:induction false} OneStays(statics: Files, defs: seq<BridgeDef>, id: string)
    requires OneOf(KeepBridges(statics, defs), id)
    ensures forall i, j :: 0 <= i < j < |defs| && defs[i].id == Some(id) && defs[j].id == Some(id) && !BridgeTaken(statics, defs[i]) ==>
              BridgeTaken(statics, defs[j])
  {
    if |defs| > 0 {
      var n := |defs| - 1;
      var rest, all := KeepBridges(statics, defs[..n]), KeepBridges(statics, defs);
      assert rest == all[..|rest|];
      OneStays(statics, defs[..n], id);
      assert !BridgeTaken(statics, defs[n]) ==> all == rest + [defs[n]] && all[|rest|] == defs[n];
      forall i | 0 <= i < n && defs[i].id == Some(id) && !BridgeTaken(statics, defs[i]) && defs[n].id == Some(id)
        ensures BridgeTaken(statics, defs[n])
      {
        assert defs[i] == defs[..n][i];
        KeptBridges(statics, defs[..n], defs[i]);
        var k :| 0 <= k < |rest| && rest[k] == defs[i];
        assert all[k] == rest[k];
      }
    }
  }

  lemma EnableNone(defs: seq<BridgeDef>, id: string, on: bool)
    requires forall d :: d in defs ==> d.id != Some(id)
    ensures EnableDefs(defs, id, on) == defs
  {
  }

  ghost predicate OthersTaken(statics: Files, defs: seq<BridgeDef>, i: nat, id: string) {
    forall j :: 0 <= j < |defs| && j != i && defs[j].id == Some(id) ==> BridgeTaken(statics, defs[j])
  }

  lemma NoneKept(statics: Files, defs: seq<BridgeDef>, id: string, on: bool)
    requires OthersTaken(statics, defs, |defs|, id)
    ensures EnableDefs(KeepBridges(statics, defs), id, on) == KeepBridges(statics, defs)
  {
    forall d | d in KeepBridges(statics, defs) ensures d.id != Some(id) { KeptBridges(statics, defs, d); }
    EnableNone(KeepBridges(statics, defs), id, on);
  }

  lemma EnableSnoc(defs: seq<BridgeDef>, d: BridgeDef, id: string, on: bool)
    ensures EnableDefs(defs + [d], id, on) == EnableDefs(defs, id, on) + [EnableDef(d, id, on)]
  {
  }

  /** Setting aside, with the definition at `i` turned on or off. */
  lemma {:induction false} KeepEdited(statics: Files, defs: seq<BridgeDef>, i: nat, id: string, on: bool)
    requires i < |defs| && defs[i].id == Some(id)
    requires !BridgeTaken(statics, defs[i]) ==> OthersTaken(statics, defs, i, id)
    ensures KeepBridges(statics, defs[i := defs[i].(enabled := Some(on))]) ==
            if BridgeTaken(statics, defs[i]) then KeepBridges(statics, defs) else EnableDefs(KeepBridges(statics, defs), id, on)
  {
    var n := |defs| - 1;
    var before, last := defs[..n], defs[n];
    var after := defs[i := defs[i].(enabled := Some(on))];
    assert BridgeTaken(statics, after[i]) == BridgeTaken(statics, defs[i]);
    assert forall j :: 0 <= j < n ==> before[j] == defs[j];
    EnableSnoc(KeepBridges(statics, before), last, id, on);
    if i < n {
      KeepEdited(statics, before, i, id, on);
      assert after[..n] == before[i := after[i]];
    } else {
      assert after[..n] == before;
      if !BridgeTaken(statics, last) { NoneKept(statics, before, id, on); }
    }
  }

  lemma KeepEnabled(statics: Files, defs: seq<BridgeDef>, id: string, on: bool)
    requires OneOf(KeepBridges(statics, defs), id) && Edit.BridgeIndex(defs, id).Some?
    ensures KeepBridges(statics, EnableFirst(defs, id, on)) ==
            if FirstStays(statics, defs, id) then EnableDefs(KeepBridges(statics, defs), id, on) else KeepBridges(statics, defs)
  {
    Edit.BridgeIndexFinds(defs, id);
    var i := Edit.BridgeIndex(defs, id).value;
    assert EnableFirst(defs, id, on) == defs[i := defs[i].(enabled := Some(on))];
    OneStays(statics, defs, id);
    KeepEdited(statics, defs, i, id, on);
  }

  // ── What the rebuild makes of it ────────────────────────────────────

  function EnableBridge(b: Bridge, id: string, on: bool): Bridge {
    if b.id == id then b.(enabled := on) else b
  }

  function EnableBridges(bridges: seq<Bridge>, id: string, on: bool): seq<Bridge> {
    seq(|bridges|, i requires 0 <= i < |bridges| => EnableBridge(bridges[i], id, on))
  }

  lemma BridgeEnabled(adapters: seq<Adapter>, global: AdapterSel, tncs: seq<Tnc>, d: At<BridgeDef>, id: string, on: bool)
    requires ResolveBridge(adapters, global, tncs, d).Some?
    ensures ResolveBridge(adapters, global, tncs, d.(def := EnableDef(d.def, id, on))) ==
            Some(EnableBridge(ResolveBridge(adapters, global, tncs, d).value, id, on))
    ensures d.def.id == Some(ResolveBridge(adapters, global, tncs, d).value.id)
    ensures ResolveBridge(adapters, global, tncs, d).value.source == d.source
  {
  }

  /** Each definition as before, but for the bridge turned on or off. */
  ghost predicate DefsEnabled(defs: seq<At<BridgeDef>>, after: seq<At<BridgeDef>>, id: string, on: bool) {
    |after| == |defs| && forall i :: 0 <= i < |defs| ==> after[i] == defs[i].(def := EnableDef(defs[i].def, id, on))
  }

  lemma BridgesEnabled(adapters: seq<Adapter>, global: AdapterSel, tncs: seq<Tnc>, defs: seq<At<BridgeDef>>, after: seq<At<BridgeDef>>,
                       id: string, on: bool)
    requires ResolveBridges(adapters, global, tncs, defs).Some? && DefsEnabled(defs, after, id, on)
    ensures ResolveBridges(adapters, global, tncs, after) ==
            Some(EnableBridges(ResolveBridges(adapters, global, tncs, defs).value, id, on))
  {
    var v := ResolveBridges(adapters, global, tncs, defs).value;
    BridgesOne(adapters, global, tncs, defs);
    forall i | 0 <= i < |after| ensures ResolveBridge(adapters, global, tncs, after[i]) == Some(EnableBridges(v, id, on)[i]) {
      BridgeEnabled(adapters, global, tncs, defs[i], id, on);
    }
    BridgesAll(adapters, global, tncs, after, EnableBridges(v, id, on));
  }

  lemma FilesEnabled(statics: Files, f: ConfigFile, id: string, on: bool)
    requires PlainFile(f) && !StaticBridge(statics, id)
    ensures var files, after := statics + [At(Dynamic, f)], statics + [At(Dynamic, f.(bridges := EnableDefs(f.bridges, id, on)))];
            && DefsEnabled(BridgeDefs(files), BridgeDefs(after), id, on)
            && AdapterDefs(files) == AdapterDefs(after) && TncDefs(files) == TncDefs(after)
  {
    var g := f.(bridges := EnableDefs(f.bridges, id, on));
    FilesSplit(statics, f);
    FilesSplit(statics, g);
    var before, after := BridgeDefs(statics + [At(Dynamic, f)]), BridgeDefs(statics + [At(Dynamic, g)]);
    var n := |BridgeDefs(statics)|;
    forall i | 0 <= i < |before| ensures after[i] == before[i].(def := EnableDef(before[i].def, id, on)) {
      if i < n {
        assert BridgeDefs(statics)[i] in BridgeDefs(statics) && before[i] == after[i] == BridgeDefs(statics)[i];
      } else {
        assert before[i] == At(Dynamic, f.bridges[i - n]) && after[i] == At(Dynamic, g.bridges[i - n]);
      }
    }
  }

  lemma ResolvedEnabled(statics: Files, f: ConfigFile, id: string, on: bool, c: Config)
    requires PlainFile(f) && !StaticBridge(statics, id) && Resolved(statics + [At(Dynamic, f)]) == Some(c)
    ensures Resolved(statics + [At(Dynamic, f.(bridges := EnableDefs(f.bridges, id, on)))]) ==
            Some(c.(bridges := EnableBridges(c.bridges, id, on)))
  {
    var g := f.(bridges := EnableDefs(f.bridges, id, on));
    FilesEnabled(statics, f, id, on);
    FilesSplit(statics, f);
    FilesSplit(statics, g);
    BridgesEnabled(c.adapters, c.adapter, c.tncs, BridgeDefs(statics + [At(Dynamic, f)]), BridgeDefs(statics + [At(Dynamic, g)]), id, on);
  }

  /** The resolved bridges have the ids and the sources of these definitions. */
  ghost predicate IdsFrom(bridges: seq<Bridge>, defs: seq<At<BridgeDef>>) {
    && |bridges| == |defs|
    && forall i :: 0 <= i < |defs| ==> defs[i].def.id == Some(bridges[i].id) && defs[i].source == bridges[i].source
  }

  lemma BridgeOrigins(c: Config, files: Files)
    requires Resolved(files) == Some(c)
    ensures IdsFrom(c.bridges, BridgeDefs(files))
  {
    var defs := BridgeDefs(files);
    BridgesOne(c.adapters, c.adapter, c.tncs, defs);
    forall i | 0 <= i < |defs| ensures defs[i].def.id == Some(c.bridges[i].id) && defs[i].source == c.bridges[i].source {
      BridgeEnabled(c.adapters, c.adapter, c.tncs, defs[i], "", true);
    }
  }

  /** The dynamic bridges that aren't set aside. */
  function Kept(s: Sources): seq<BridgeDef> {
    match s.dynamic
    case Some(Good(f)) => KeepBridges(s.statics, f.bridges)
    case _ => []
  }

  function AllDefs(s: Sources): seq<At<BridgeDef>> {
    BridgeDefs(s.statics) + Located(Dynamic, Kept(s))
  }

  lemma AllOrigins(s: Sources, c: Config, files: Files)
    requires FilesOf(s) == Some(files) && Resolved(files) == Some(c)
    ensures IdsFrom(c.bridges, AllDefs(s))
  {
    BridgeOrigins(c, files);
    if s.dynamic.Some? { FilesSplit(s.statics, SetAside(s.statics, s.dynamic.value.value)); }
    assert BridgeDefs(files) == AllDefs(s);
  }

  lemma KeptIsDynamic(s: Sources, d: BridgeDef)
    requires d in Kept(s)
    ensures s.dynamic.Some? && s.dynamic.value.Good? && d in s.dynamic.value.value.bridges && !BridgeTaken(s.statics, d)
  {
    KeptBridges(s.statics, s.dynamic.value.value.bridges, d);
  }

  /** A bridge is static exactly when a static file has its id. */
  lemma StaticById(s: Sources, bridges: seq<Bridge>, i: nat)
    requires AllStatic(s.statics) && IdsFrom(bridges, AllDefs(s)) && i < |bridges|
    ensures bridges[i].source.Static? <==> StaticBridge(s.statics, bridges[i].id)
    ensures bridges[i].source == Dynamic ==> exists d :: d in Kept(s) && d.id == Some(bridges[i].id)
  {
    var n := |BridgeDefs(s.statics)|;
    if i < n {
      DefsStatic(s.statics);
      assert BridgeDefs(s.statics)[i] in BridgeDefs(s.statics);
    } else {
      var d := Kept(s)[i - n];
      assert AllDefs(s)[i] == At(Dynamic, d) && d in Kept(s);
      KeptIsDynamic(s, d);
    }
  }

  lemma OverrideStatic(s: Sources, r: Config, id: string, on: bool)
    requires AllStatic(s.statics) && IdsFrom(r.bridges, AllDefs(s)) && StaticBridge(s.statics, id)
    ensures Override(r.bridges, s.enabled[id := on]) == Enable(r.(bridges := Override(r.bridges, s.enabled)), id, on).bridges
  {
    var was := Override(r.bridges, s.enabled);
    forall i | 0 <= i < |r.bridges|
      ensures Overridden(r.bridges[i], s.enabled[id := on]) == if was[i].id == id then Turned(was[i], on) else was[i]
    {
      StaticById(s, r.bridges, i);
    }
  }

  lemma OverrideDynamic(s: Sources, r: Config, id: string, on: bool)
    requires AllStatic(s.statics) && IdsFrom(r.bridges, AllDefs(s)) && !StaticBridge(s.statics, id)
    ensures Override(EnableBridges(r.bridges, id, on), s.enabled) == Enable(r.(bridges := Override(r.bridges, s.enabled)), id, on).bridges
  {
    var was := Override(r.bridges, s.enabled);
    forall i | 0 <= i < |r.bridges|
      ensures Overridden(EnableBridge(r.bridges[i], id, on), s.enabled) == if was[i].id == id then Turned(was[i], on) else was[i]
    {
      StaticById(s, r.bridges, i);
    }
  }

  ghost predicate OwnIds(c: Config) {
    forall i, j :: 0 <= i < j < |c.bridges| ==> c.bridges[i].id != c.bridges[j].id
  }

  /** With its own id in the config, a bridge is kept once. */
  lemma KeptOnce(s: Sources, r: Config, id: string)
    requires IdsFrom(r.bridges, AllDefs(s)) && OwnIds(r)
    ensures OneOf(Kept(s), id)
  {
    var n := |BridgeDefs(s.statics)|;
    forall i, j | 0 <= i < j < |Kept(s)| && Kept(s)[i].id == Some(id) ensures Kept(s)[j].id != Some(id) {
      assert AllDefs(s)[n + i] == At(Dynamic, Kept(s)[i]) && AllDefs(s)[n + j] == At(Dynamic, Kept(s)[j]);
    }
  }

  lemma MergedStatic(s: Sources, c: Config, id: string, on: bool)
    requires AllStatic(s.statics) && Merged(s) == Some(c) && StaticBridge(s.statics, id)
    ensures Merged(s.(enabled := s.enabled[id := on])) == Some(Enable(c, id, on))
  {
    var files := FilesOf(s).value;
    AllOrigins(s, Resolved(files).value, files);
    OverrideStatic(s, Resolved(files).value, id, on);
  }

  lemma LoadableOn(f: ConfigFile, id: string, on: bool)
    ensures Loadable(f.(bridges := EnableFirst(f.bridges, id, on))) <==> Loadable(f)
  {
    var g := f.(bridges := EnableFirst(f.bridges, id, on));
    forall i | 0 <= i < |f.bridges| ensures g.bridges[i].ports == f.bridges[i].ports {}
    if Loadable(f) {
      forall b | b in g.bridges ensures forall p :: p in b.ports ==> !p.stray {
        var i :| 0 <= i < |g.bridges| && g.bridges[i] == b;
        assert f.bridges[i] in f.bridges;
      }
    }
    if Loadable(g) {
      forall b | b in f.bridges ensures forall p :: p in b.ports ==> !p.stray {
        var i :| 0 <= i < |f.bridges| && f.bridges[i] == b;
        assert g.bridges[i] in g.bridges;
      }
    }
  }

  lemma OverrideKeepsIds(c: Config, r: Config, enabled: map<string, bool>)
    requires OwnIds(c) && c.bridges == Override(r.bridges, enabled)
    ensures OwnIds(r)
  {
    forall i, j | 0 <= i < j < |r.bridges| ensures r.bridges[i].id != r.bridges[j].id {
      assert c.bridges[i].id == r.bridges[i].id && c.bridges[j].id == r.bridges[j].id;
    }
  }

  /** Setting aside and resolving, with the first of that id turned on or off. */
  lemma EditResolved(statics: Files, f: ConfigFile, r: Config, id: string, on: bool)
    requires PlainFile(f) && Resolved(statics + [At(Dynamic, SetAside(statics, f))]) == Some(r) && !StaticBridge(statics, id)
    requires OneOf(KeepBridges(statics, f.bridges), id) && Edit.BridgeIndex(f.bridges, id).Some?
    ensures Resolved(statics + [At(Dynamic, SetAside(statics, f.(bridges := EnableFirst(f.bridges, id, on))))]) ==
            Some(if FirstStays(statics, f.bridges, id) then r.(bridges := EnableBridges(r.bridges, id, on)) else r)
  {
    var kept := SetAside(statics, f);
    KeepEnabled(statics, f.bridges, id, on);
    if FirstStays(statics, f.bridges, id) {
      ResolvedEnabled(statics, kept, id, on, r);
    }
  }

  lemma MergedDynamic(s: Sources, f: ConfigFile, c: Config, id: string, on: bool)
    requires AllStatic(s.statics) && Merged(s) == Some(c) && OwnIds(c) && !StaticBridge(s.statics, id)
    requires s.dynamic == Some(Good(f)) && Edit.BridgeIndex(f.bridges, id).Some?
    ensures Merged(s.(dynamic := Some(Good(f.(bridges := EnableFirst(f.bridges, id, on)))))) ==
            Some(if FirstStays(s.statics, f.bridges, id) then Enable(c, id, on) else c)
  {
    var files := FilesOf(s).value;
    var r := Resolved(files).value;
    LoadableOn(f, id, on);
    OverrideKeepsIds(c, r, s.enabled);
    AllOrigins(s, r, files);
    KeptOnce(s, r, id);
    EditResolved(s.statics, f, r, id, on);
    OverrideDynamic(s, r, id, on);
  }

  /** A dynamic bridge of the config is in the store. */
  lemma InStore(s: Sources, c: Config, i: nat)
    requires AllStatic(s.statics) && Merged(s) == Some(c) && i < |c.bridges| && !StaticBridge(s.statics, c.bridges[i].id)
    ensures s.dynamic.Some? && s.dynamic.value.Good?
    ensures Edit.BridgeIndex(s.dynamic.value.value.bridges, c.bridges[i].id).Some?
  {
    var files := FilesOf(s).value;
    var r := Resolved(files).value;
    AllOrigins(s, r, files);
    StaticById(s, r.bridges, i);
    assert c.bridges[i].id == r.bridges[i].id;
    var d :| d in Kept(s) && d.id == Some(c.bridges[i].id);
    KeptIsDynamic(s, d);
    var all := s.dynamic.value.value.bridges;
    Edit.BridgeIndexFinds(all, c.bridges[i].id);
    var k :| 0 <= k < |all| && all[k] == d;
  }

  ghost predicate SameReach(s: Sources, t: Sources) {
    forall id :: Reaches(t, id) <==> Reaches(s, id)
  }

  /** Enabling or disabling a bridge that is there, and rebuilding, turns just
      that bridge on or off in the config, or none if a set-aside one of its
      id is first in the store. */
  method Edited(s: Sources, ghost c: Config, id: string, on: bool, ghost i: nat) returns (t: Sources)
    requires AllStatic(s.statics) && Merged(s) == Some(c) && OwnIds(c) && i < |c.bridges| && c.bridges[i].id == id
    ensures t.statics == s.statics && SameReach(s, t)
    ensures Merged(t) == Some(if Reaches(s, id) then Enable(c, id, on) else c)
  {
    var r := SetEnabled(s, id, on);
    if StaticBridge(s.statics, id) {
      MergedStatic(s, c, id, on);
    } else {
      InStore(s, c, i);
      MergedDynamic(s, s.dynamic.value.value, c, id, on);
      forall x { FirstStaysOn(s.statics, s.dynamic.value.value.bridges, id, on, x); }
    }
    t := r.value;
  }

  // ── The switch ──────────────────────────────────────────────────────

  /** The config with the first `n` of those in the way turned off, where an
      edit reaches them. */
  ghost predicate PartWay(s: Sources, c: Config, d: Config, others: seq<string>, n: nat)
    requires n <= |others|
  {
    && d == c.(bridges := d.bridges) && |d.bridges| == |c.bridges|
    && forall i :: 0 <= i < |c.bridges| ==>
         d.bridges[i] == if c.bridges[i].id in others[..n] && Reaches(s, c.bridges[i].id) then Turned(c.bridges[i], false) else c.bridges[i]
  }

  ghost function EnableIn(s: Sources, c: Config, id: string, on: bool): Config {
    if Reaches(s, id) then Enable(c, id, on) else c
  }

  lemma PartWayOn(s: Sources, c: Config, d: Config, others: seq<string>, n: nat)
    requires n < |others| && PartWay(s, c, d, others, n) && OwnIds(d)
    ensures PartWay(s, c, EnableIn(s, d, others[n], false), others, n + 1) && OwnIds(EnableIn(s, d, others[n], false))
  {
    assert others[..n + 1] == others[..n] + [others[n]];
  }

  lemma PlaceInTheWay(s: Sources, c: Config, d: Config, id: string, others: seq<string>, n: nat) returns (i: nat)
    requires n < |others| && PartWay(s, c, d, others, n) && InTheWay(c, id, others[n])
    ensures i < |d.bridges| && d.bridges[i].id == others[n]
  {
    var b :| b in c.bridges && b.enabled && b.id == others[n];
    i :| 0 <= i < |c.bridges| && c.bridges[i] == b;
  }

  method DisableAll(s: Sources, ghost c: Config, ghost id: string, others: seq<string>) returns (t: Sources, ghost d: Config)
    requires AllStatic(s.statics) && Merged(s) == Some(c) && OwnIds(c) && forall n :: 0 <= n < |others| ==> InTheWay(c, id, others[n])
    ensures t.statics == s.statics && SameReach(s, t) && Merged(t) == Some(d) && OwnIds(d) && PartWay(s, c, d, others, |others|)
  {
    t, d := s, c;
    for n := 0 to |others|
      invariant t.statics == s.statics && SameReach(s, t) && Merged(t) == Some(d) && OwnIds(d) && PartWay(s, c, d, others, n)
    {
      ghost var i := PlaceInTheWay(s, c, d, id, others, n);
      PartWayOn(s, c, d, others, n);
      t := Edited(t, d, others[n], false, i);
      d := EnableIn(s, d, others[n], false);
    }
  }

  /** The switched config, but for the bridges no edit reaches. */
  ghost function SwitchedIn(s: Sources, c: Config, id: string): Config {
    var d := Switched(c, id);
    c.(bridges := seq(|c.bridges|, i requires 0 <= i < |c.bridges| =>
      if Reaches(s, c.bridges[i].id) then d.bridges[i] else c.bridges[i]))
  }

  lemma PartWayDone(s: Sources, c: Config, d: Config, id: string, others: seq<string>)
    requires PartWay(s, c, d, others, |others|) && forall x :: x in others <==> InTheWay(c, id, x)
    ensures EnableIn(s, d, id, true) == SwitchedIn(s, c, id)
  {
    assert others[..|others|] == others;
    assert EnableIn(s, d, id, true).bridges == SwitchedIn(s, c, id).bridges;
  }

  /** With every bridge reached, it is the switched config. */
  lemma SwitchedAll(s: Sources, c: Config, id: string)
    requires forall b :: b in c.bridges ==> Reaches(s, b.id)
    ensures SwitchedIn(s, c, id) == Switched(c, id)
  {
    assert SwitchedIn(s, c, id).bridges == Switched(c, id).bridges;
  }

  /** The switch goes through: the target isn't reached, or is complete with
      everything in its way reached. */
  ghost predicate Goes(s: Sources, c: Config, target: nat)
    requires target < |c.bridges|
  {
    var id := c.bridges[target].id;
    Reaches(s, id) ==> Complete(c.bridges[target]) && forall b :: b in c.bridges && InTheWay(c, id, b.id) ==> Reaches(s, b.id)
  }

  lemma SwitchedInValid(s: Sources, c: Config, t: nat)
    requires V.Valid(c) && t < |c.bridges|
    ensures V.Valid(SwitchedIn(s, c, c.bridges[t].id)) <==> Goes(s, c, t)
  {
    var id := c.bridges[t].id;
    var d, e := Switched(c, id), SwitchedIn(s, c, id);
    forall o | 0 <= o < |c.bridges|
      ensures SameBut(c, d)
      ensures d.bridges[o].enabled <==>
              o == t || (c.bridges[o].enabled && Complete(c.bridges[t]) && Apart(c.bridges[t], c.bridges[o]))
      ensures o != t ==> (InTheWay(c, id, c.bridges[o].id) <==>
                          c.bridges[o].enabled && !(Complete(c.bridges[t]) && Apart(c.bridges[t], c.bridges[o])))
    {
      EnabledAfter(c, t, o);
      if o != t { InTheWayIff(c, t, o); }
    }
    ValidByPlace(c, e);
    ValidByPlace(c, c);
    if V.Valid(e) && Reaches(s, id) {
      forall b | b in c.bridges && InTheWay(c, id, b.id) ensures Reaches(s, b.id) {
        var o :| 0 <= o < |c.bridges| && c.bridges[o] == b;
        ApartIff(c.bridges[t], b);
        ApartIff(b, c.bridges[t]);
      }
    }
    if Goes(s, c, t) { StaysApart(s, c, t); }
  }

  /** What is enabled beside the target doesn't clash with it. */
  lemma StaysApart(s: Sources, c: Config, t: nat)
    requires V.Valid(c) && t < |c.bridges| && Goes(s, c, t)
    ensures V.Valid(SwitchedIn(s, c, c.bridges[t].id))
  {
    var id := c.bridges[t].id;
    var e := SwitchedIn(s, c, id);
    forall o | 0 <= o < |c.bridges| && e.bridges[o].enabled
      ensures Complete(c.bridges[o]) && (o == t || c.bridges[o].enabled)
      ensures o != t && e.bridges[t].enabled ==> Apart(c.bridges[t], c.bridges[o])
    {
      EnabledAfter(c, t, o);
      assert c.bridges[o] in c.bridges;
      if o != t {
        InTheWayIff(c, t, o);
        ApartIff(c.bridges[t], c.bridges[o]);
        ApartIff(c.bridges[o], c.bridges[t]);
      }
    }
    assert SameBut(c, e);
    ValidByPlace(c, e);
    ValidByPlace(c, c);
  }

  lemma ValidOwnIds(c: Config)
    requires V.Valid(c)
    ensures OwnIds(c)
  {
    forall i, j | 0 <= i < j < |c.bridges| ensures c.bridges[i].id != c.bridges[j].id {
      if c.bridges[i].id == c.bridges[j].id { DistinctIds(c, i, j); }
    }
  }

  /** The whole switch, from files to files. Built from a valid config it gives
      the switched config exactly when it goes through, and otherwise nothing. */
  method SwitchSources(s: Sources, c: Config, id: string, ghost target: nat) returns (t: Sources)
    requires AllStatic(s.statics) && Built(s) == Some(c) && target < |c.bridges| && c.bridges[target].id == id
    ensures t.statics == s.statics && Merged(t) == Some(SwitchedIn(s, c, id))
    ensures Built(t) == if Goes(s, c, target) then Some(SwitchedIn(s, c, id)) else None
  {
    ValidOwnIds(c);
    var others := Conflicting(c, id);
    ghost var d;
    t, d := DisableAll(s, c, id, others);
    t := Edited(t, d, id, true, target);
    PartWayDone(s, c, d, id, others);
    SwitchedInValid(s, c, target);
  }

  // ── A bridge no edit reaches ────────────────────────────────────────

  function Bare(id: string, name: string): BridgeDef {
    BridgeDef(Some(id), name, None, None, None, [])
  }

  function OnlyBridges(bridges: seq<BridgeDef>): ConfigFile {
    ConfigFile(None, None, None, [], [], bridges)
  }

  /** The first bridge x of the store has a static bridge's name. */
  function Shadowed(): Sources {
    Sources([At(Static("etc"), OnlyBridges([Bare("s", "one")]))],
            Some(Good(OnlyBridges([Bare("x", "one"), Bare("x", "two")]))), map[])
  }

  /** The second one runs, and an edit by id changes the first. */
  lemma NotReached()
    ensures Kept(Shadowed()) == [Bare("x", "two")] && !Reaches(Shadowed(), "x")
  {
    var statics, defs := Shadowed().statics, [Bare("x", "one"), Bare("x", "two")];
    assert statics[..0] == [];
    assert BridgeDefs(statics) == [At(Static("etc"), Bare("s", "one"))];
    assert BridgeTaken(statics, defs[0]) && !BridgeTaken(statics, defs[1]);
    assert defs[..1] == [defs[0]] && defs[..1][..0] == [];
    assert KeepBridges(statics, []) == [] && KeepBridges(statics, defs[..1]) == [];
    assert Edit.BridgeIndex(defs, "x") == Some(0);
  }
}

/** Building the effective config from the static files, the dynamic file and
    the enable overrides (src/config/mod.rs), and what dynamic config can't
    change. */
module Build {
  import opened Common
  import opened BridgeState
  import opened Config
  import opened Resolve
  import V = Validate

  /** `dynamic` is `Bad` when it can't be parsed. `enabled` is what
      `state.toml` overrides. */
  datatype Sources = Sources(statics: Files, dynamic: Option<Text<ConfigFile>>, enabled: map<string, bool>)

  // ── Collisions ──────────────────────────────────────────────────────

  predicate AdapterTaken(statics: Files, id: string) {
    exists d :: d in AdapterDefs(statics) && d.def.id == id
  }

  predicate TncTaken(statics: Files, id: string) {
    exists d :: d in TncDefs(statics) && d.def.id == id
  }

  predicate BridgeTaken(statics: Files, b: BridgeDef) {
    exists d :: d in BridgeDefs(statics) &&
      ((d.def.id.Some? && d.def.id.value == if b.id.Some? then b.id.value else "") || d.def.name == b.name)
  }

  function KeepAdapters(statics: Files, defs: seq<AdapterDef>): seq<AdapterDef> {
    if |defs| == 0 then []
    else
      var rest := KeepAdapters(statics, defs[..|defs| - 1]);
      if AdapterTaken(statics, defs[|defs| - 1].id) then rest else rest + [defs[|defs| - 1]]
  }

  function KeepTncs(statics: Files, defs: seq<TncDef>): seq<TncDef> {
    if |defs| == 0 then []
    else
      var rest := KeepTncs(statics, defs[..|defs| - 1]);
      if TncTaken(statics, defs[|defs| - 1].id) then rest else rest + [defs[|defs| - 1]]
  }

  function KeepBridges(statics: Files, defs: seq<BridgeDef>): seq<BridgeDef> {
    if |defs| == 0 then []
    else
      var rest := KeepBridges(statics, defs[..|defs| - 1]);
      if BridgeTaken(statics, defs[|defs| - 1]) then rest else rest + [defs[|defs| - 1]]
  }

  /** Dynamic objects that a static one shadows are left out. */
  function SetAside(statics: Files, dynamic: ConfigFile): ConfigFile {
    dynamic.(adapters := KeepAdapters(statics, dynamic.adapters),
             tncs := KeepTncs(statics, dynamic.tncs),
             bridges := KeepBridges(statics, dynamic.bridges))
  }

  method SetAsideCollisions(statics: Files, dynamic: ConfigFile) returns (kept: ConfigFile, warnings: nat)
    ensures kept == SetAside(statics, dynamic)
    ensures warnings + |kept.adapters| + |kept.tncs| + |kept.bridges| == |dynamic.adapters| + |dynamic.tncs| + |dynamic.bridges|
  {
    var adapters, tncs, bridges := [], [], [];
    warnings := 0;
    for n := 0 to |dynamic.adapters|
      invariant adapters == KeepAdapters(statics, dynamic.adapters[..n]) && warnings + |adapters| == n
    {
      assert dynamic.adapters[..n + 1][..n] == dynamic.adapters[..n];
      if AdapterTaken(statics, dynamic.adapters[n].id) {
        warnings := warnings + 1;
      } else {
        adapters := adapters + [dynamic.adapters[n]];
      }
    }
    assert dynamic.adapters[..|dynamic.adapters|] == dynamic.adapters;
    for n := 0 to |dynamic.tncs|
      invariant tncs == KeepTncs(statics, dynamic.tncs[..n]) && warnings + |adapters| + |tncs| == |dynamic.adapters| + n
    {
      assert dynamic.tncs[..n + 1][..n] == dynamic.tncs[..n];
      if TncTaken(statics, dynamic.tncs[n].id) {
        warnings := warnings + 1;
      } else {
        tncs := tncs + [dynamic.tncs[n]];
      }
    }
    assert dynamic.tncs[..|dynamic.tncs|] == dynamic.tncs;
    for n := 0 to |dynamic.bridges|
      invariant bridges == KeepBridges(statics, dynamic.bridges[..n])
      invariant warnings + |adapters| + |tncs| + |bridges| == |dynamic.adapters| + |dynamic.tncs| + n
    {
      assert dynamic.bridges[..n + 1][..n] == dynamic.bridges[..n];
      if BridgeTaken(statics, dynamic.bridges[n]) {
        warnings := warnings + 1;
      } else {
        bridges := bridges + [dynamic.bridges[n]];
      }
    }
    assert dynamic.bridges[..|dynamic.bridges|] == dynamic.bridges;
    kept := dynamic.(adapters := adapters, tncs := tncs, bridges := bridges);
  }

  // ── Overrides ───────────────────────────────────────────────────────

  /** Overrides are for static bridges. */
  function Overridden(b: Bridge, enabled: map<string, bool>): Bridge {
    if b.source.Static? && b.id in enabled then b.(enabled := enabled[b.id], enabledOverride := Some(enabled[b.id])) else b
  }

  function Override(bridges: seq<Bridge>, enabled: map<string, bool>): seq<Bridge> {
    seq(|bridges|, i requires 0 <= i < |bridges| => Overridden(bridges[i], enabled))
  }

  method ApplyOverrides(bridges: seq<Bridge>, enabled: map<string, bool>) returns (out: seq<Bridge>)
    ensures out == Override(bridges, enabled)
  {
    out := bridges;
    for n := 0 to |bridges|
      invariant |out| == |bridges|
      invariant forall i :: 0 <= i < n ==> out[i] == Overridden(bridges[i], enabled)
      invariant forall i :: n <= i < |bridges| ==> out[i] == bridges[i]
    {
      var b := out[n];
      if b.source.Static? && b.id in enabled {
        out := out[n := b.(enabled := enabled[b.id], enabledOverride := Some(enabled[b.id]))];
      }
    }
  }

  // ── Building ────────────────────────────────────────────────────────

  /** No daemon-wide settings: only a static file may have those. */
  predicate PlainFile(f: ConfigFile) {
    f.logLevel.None? && f.adapter.None? && f.group.None?
  }

  /** What the loader takes as a dynamic file. */
  predicate Loadable(f: ConfigFile) {
    PlainFile(f) && forall b :: b in f.bridges ==> forall p :: p in b.ports ==> !p.stray
  }

  function FilesOf(s: Sources): Option<Files> {
    match s.dynamic
    case None => Some(s.statics)
    case Some(Bad) => None
    case Some(Good(f)) => if Loadable(f) then Some(s.statics + [At(Dynamic, SetAside(s.statics, f))]) else None
  }

  /** The config before it is validated. */
  function Merged(s: Sources): Option<Config> {
    match FilesOf(s)
    case None => None
    case Some(files) =>
      match Resolved(files)
      case None => None
      case Some(c) => Some(c.(bridges := Override(c.bridges, s.enabled)))
  }

  ghost function Built(s: Sources): Option<Config> {
    if Merged(s).Some? && V.Valid(Merged(s).value) then Merged(s) else None
  }

  method BuildConfig(s: Sources) returns (r: Option<Config>)
    ensures r == Built(s)
  {
    var files := s.statics;
    match s.dynamic {
      case None =>
      case Some(Bad) => return None;
      case Some(Good(f)) =>
        if !Loadable(f) { return None; }
        var kept, warnings := SetAsideCollisions(s.statics, f);
        files := files + [At(Dynamic, kept)];
    }
    var c := ResolveFiles(files);
    if c.None? { return None; }
    var bridges := ApplyOverrides(c.value.bridges, s.enabled);
    var d := c.value.(bridges := bridges);
    var errors := V.Validate(d);
    r := if errors == [] then Some(d) else None;
  }
}

/** Edits of the dynamic store (src/control/edit.rs): updating, renaming and
    deleting a TNC or an adapter, with the references that follow. */
module Edit {
  import opened Common
  import opened Config
  import opened Resolve
  import opened Build
  import opened Rename

  // ── References ──────────────────────────────────────────────────────

  /** Where a reference is: a port of a bridge, or a section of a TNC. */
  datatype RefPath = PortRef(bridge: string, port: nat) | SectionRef(tnc: string, spp: bool)

  function BridgeKey(b: BridgeDef): string {
    if b.id.Some? then b.id.value else "?"
  }

  predicate PortRefers(p: PortDef, kind: Kind, id: string) {
    match kind
    case TncKind => p.kind.TncPortDef? && p.kind.tnc == id
    case AdapterKind => p.kind.BleServerDef? && p.kind.adapter == Some(id)
  }

  function SectionAdapter(t: TncDef, spp: bool): Option<string> {
    if spp then (if t.spp.Some? then t.spp.value.adapter else None)
    else if t.ble.Some? then t.ble.value.adapter else None
  }

  predicate BridgeRefers(b: BridgeDef, kind: Kind, id: string, r: RefPath) {
    r.PortRef? && r.bridge == BridgeKey(b) && r.port < |b.ports| && PortRefers(b.ports[r.port], kind, id)
  }

  predicate TncRefers(t: TncDef, kind: Kind, id: string, r: RefPath) {
    kind == AdapterKind && r.SectionRef? && r.tnc == t.id && SectionAdapter(t, r.spp) == Some(id)
  }

  ghost predicate Refers(f: ConfigFile, kind: Kind, id: string, r: RefPath) {
    || (exists b :: b in f.bridges && BridgeRefers(b, kind, id, r))
    || (exists t :: t in f.tncs && TncRefers(t, kind, id, r))
  }

  method ReferencesInBridge(b: BridgeDef, kind: Kind, id: string) returns (refs: seq<RefPath>)
    ensures forall r :: r in refs <==> BridgeRefers(b, kind, id, r)
  {
    refs := [];
    for n := 0 to |b.ports|
      invariant forall r :: r in refs <==> BridgeRefers(b, kind, id, r) && r.port < n
    {
      if PortRefers(b.ports[n], kind, id) { refs := refs + [PortRef(BridgeKey(b), n)]; }
    }
  }

  method References(f: ConfigFile, kind: Kind, id: string) returns (refs: seq<RefPath>)
    ensures forall r :: r in refs <==> Refers(f, kind, id, r)
  {
    refs := [];
    for n := 0 to |f.bridges|
      invariant forall r :: r in refs <==> exists i :: 0 <= i < n && BridgeRefers(f.bridges[i], kind, id, r)
    {
      var more := ReferencesInBridge(f.bridges[n], kind, id);
      refs := refs + more;
    }
    ghost var ports := refs;
    assert forall r :: r in ports <==> exists b :: b in f.bridges && BridgeRefers(b, kind, id, r);
    if kind == AdapterKind {
      for n := 0 to |f.tncs|
        invariant forall r :: r in refs <==> r in ports || exists i :: 0 <= i < n && TncRefers(f.tncs[i], kind, id, r)
      {
        var t := f.tncs[n];
        if SectionAdapter(t, true) == Some(id) { refs := refs + [SectionRef(t.id, true)]; }
        if SectionAdapter(t, false) == Some(id) { refs := refs + [SectionRef(t.id, false)]; }
      }
    }
  }

  // ── Following them ──────────────────────────────────────────────────

  function BridgeIndex(bridges: seq<BridgeDef>, id: string): Option<nat> {
    if |bridges| == 0 then None
    else if bridges[0].id == Some(id) then Some(0)
    else
      match BridgeIndex(bridges[1..], id)
      case Some(i) => Some(i + 1)
      case None => None
  }

  function TncIndex(tncs: seq<TncDef>, id: string): Option<nat> {
    if |tncs| == 0 then None
    else if tncs[0].id == id then Some(0)
    else
      match TncIndex(tncs[1..], id)
      case Some(i) => Some(i + 1)
      case None => None
  }

  function AdapterIndex(adapters: seq<AdapterDef>, id: string): Option<nat> {
    if |adapters| == 0 then None
    else if adapters[0].id == id then Some(0)
    else
      match AdapterIndex(adapters[1..], id)
      case Some(i) => Some(i + 1)
      case None => None
  }

  /** Every object has an id of its own. */
  ghost predicate UniqueIds(f: ConfigFile) {
    && (forall i :: 0 <= i < |f.bridges| ==> f.bridges[i].id.Some?)
    && (forall i, j :: 0 <= i < j < |f.bridges| ==> f.bridges[i].id != f.bridges[j].id)
    && (forall i, j :: 0 <= i < j < |f.tncs| ==> f.tncs[i].id != f.tncs[j].id)
    && (forall i, j :: 0 <= i < j < |f.adapters| ==> f.adapters[i].id != f.adapters[j].id)
  }

  ghost predicate OneTnc(tncs: seq<TncDef>, id: string) {
    forall i, j :: 0 <= i < j < |tncs| && tncs[i].id == id ==> tncs[j].id != id
  }

  ghost predicate OneAdapter(adapters: seq<AdapterDef>, id: string) {
    forall i, j :: 0 <= i < j < |adapters| && adapters[i].id == id ==> adapters[j].id != id
  }

  lemma {:induction false} BridgeIndexFinds(bridges: seq<BridgeDef>, id: string)
    ensures match BridgeIndex(bridges, id)
            case Some(i) => i < |bridges| && bridges[i].id == Some(id)
            case None => forall i :: 0 <= i < |bridges| ==> bridges[i].id != Some(id)
  {
    if |bridges| > 0 && bridges[0].id != Some(id) { BridgeIndexFinds(bridges[1..], id); }
  }

  lemma {:induction false} TncIndexFinds(tncs: seq<TncDef>, id: string)
    ensures match TncIndex(tncs, id)
            case Some(i) => i < |tncs| && tncs[i].id == id
            case None => forall i :: 0 <= i < |tncs| ==> tncs[i].id != id
  {
    if |tncs| > 0 && tncs[0].id != id { TncIndexFinds(tncs[1..], id); }
  }

  lemma {:induction false} AdapterIndexFinds(adapters: seq<AdapterDef>, id: string)
    ensures match AdapterIndex(adapters, id)
            case Some(i) => i < |adapters| && adapters[i].id == id
            case None => forall i :: 0 <= i < |adapters| ==> adapters[i].id != id
  {
    if |adapters| > 0 && adapters[0].id != id { AdapterIndexFinds(adapters[1..], id); }
  }

  function PointPort(p: PortDef, kind: Kind, to: string): PortDef {
    if kind == TncKind && p.kind.TncPortDef? then p.(kind := p.kind.(tnc := to))
    else if kind == AdapterKind && p.kind.BleServerDef? then p.(kind := p.kind.(adapter := Some(to)))
    else p.(stray := true)
  }

  function PointSection(t: TncDef, spp: bool, to: string): TncDef {
    if spp then (if t.spp.Some? then t.(spp := Some(t.spp.value.(adapter := Some(to)))) else t)
    else if t.ble.Some? then t.(ble := Some(t.ble.value.(adapter := Some(to)))) else t
  }

  /** The first object of its id, which is the one an edit by id reaches. */
  predicate FirstBridge(bridges: seq<BridgeDef>, i: nat)
    requires i < |bridges|
  {
    bridges[i].id.Some? && BridgeIndex(bridges, bridges[i].id.value) == Some(i)
  }

  predicate FirstTncDef(tncs: seq<TncDef>, i: nat)
    requires i < |tncs|
  {
    TncIndex(tncs, tncs[i].id) == Some(i)
  }

  lemma {:induction false} BridgeIndexSame(a: seq<BridgeDef>, b: seq<BridgeDef>, id: string)
    requires |a| == |b| && forall i :: 0 <= i < |a| ==> a[i].id == b[i].id
    ensures BridgeIndex(a, id) == BridgeIndex(b, id)
  {
    if |a| > 0 { BridgeIndexSame(a[1..], b[1..], id); }
  }

  lemma {:induction false} TncIndexSame(a: seq<TncDef>, b: seq<TncDef>, id: string)
    requires |a| == |b| && forall i :: 0 <= i < |a| ==> a[i].id == b[i].id
    ensures TncIndex(a, id) == TncIndex(b, id)
  {
    if |a| > 0 { TncIndexSame(a[1..], b[1..], id); }
  }

  /** Between the two stores: the references in `done` follow, in the object
      their id finds, and nothing else changes. */
  ghost predicate PortsFollow(was: seq<BridgeDef>, now: seq<BridgeDef>, kind: Kind, to: string, done: seq<RefPath>) {
    && |now| == |was|
    && (forall i :: 0 <= i < |was| ==> now[i] == was[i].(ports := now[i].ports) && |now[i].ports| == |was[i].ports|)
    && (forall i, j: nat :: 0 <= i < |was| && j < |was[i].ports| ==>
          now[i].ports[j] ==
          if FirstBridge(was, i) && PortRef(BridgeKey(was[i]), j) in done then PointPort(was[i].ports[j], kind, to) else was[i].ports[j])
  }

  function Pointed(t: TncDef, to: string, spp: bool, ble: bool): TncDef {
    var u := if spp then PointSection(t, true, to) else t;
    if ble then PointSection(u, false, to) else u
  }

  ghost predicate SectionsFollow(was: seq<TncDef>, now: seq<TncDef>, to: string, done: seq<RefPath>) {
    && |now| == |was|
    && forall i :: 0 <= i < |was| ==>
         now[i] == if FirstTncDef(was, i)
                   then Pointed(was[i], to, SectionRef(was[i].id, true) in done, SectionRef(was[i].id, false) in done)
                   else was[i]
  }

  method SetPortReference(bridges: seq<BridgeDef>, kind: Kind, r: RefPath, to: string, ghost was: seq<BridgeDef>, ghost done: seq<RefPath>)
    returns (out: seq<BridgeDef>)
    requires r.PortRef? && PortsFollow(was, bridges, kind, to, done)
    ensures PortsFollow(was, out, kind, to, done + [r])
  {
    out := bridges;
    BridgeIndexSame(bridges, was, r.bridge);
    BridgeIndexFinds(bridges, r.bridge);
    match BridgeIndex(bridges, r.bridge) {
      case None =>
      case Some(i) =>
        var b := bridges[i];
        if r.port < |b.ports| {
          out := bridges[i := b.(ports := b.ports[r.port := PointPort(b.ports[r.port], kind, to)])];
        }
    }
  }

  method SetSectionReference(tncs: seq<TncDef>, r: RefPath, to: string, ghost was: seq<TncDef>, ghost done: seq<RefPath>)
    returns (out: seq<TncDef>)
    requires r.SectionRef? && SectionsFollow(was, tncs, to, done)
    ensures SectionsFollow(was, out, to, done + [r])
  {
    out := tncs;
    TncIndexSame(tncs, was, r.tnc);
    TncIndexFinds(tncs, r.tnc);
    match TncIndex(tncs, r.tnc) {
      case None =>
      case Some(i) => out := tncs[i := PointSection(tncs[i], r.spp, to)];
    }
  }

  // ── All of them ─────────────────────────────────────────────────────

  ghost predicate AllRefs(refs: seq<RefPath>, f: ConfigFile, kind: Kind, id: string) {
    forall r :: r in refs <==> Refers(f, kind, id, r)
  }

  /** Every reference to `from` that its object's id finds follows; what another
      object of the same id hides doesn't. */
  ghost predicate Followed(was: ConfigFile, now: ConfigFile, kind: Kind, from: string, to: string) {
    exists refs :: AllRefs(refs, was, kind, from) && FollowedBy(was, now, kind, to, refs)
  }

  ghost predicate FollowedBy(was: ConfigFile, now: ConfigFile, kind: Kind, to: string, refs: seq<RefPath>) {
    && now == was.(bridges := now.bridges, tncs := now.tncs)
    && PortsFollow(was.bridges, now.bridges, kind, to, refs) && SectionsFollow(was.tncs, now.tncs, to, refs)
  }

  /** The objects that refer to `id` are the ones their ids find. */
  ghost predicate NoneHidden(f: ConfigFile, kind: Kind, id: string) {
    && (forall i, j :: 0 <= i < |f.bridges| && 0 <= j < |f.bridges[i].ports| && PortRefers(f.bridges[i].ports[j], kind, id) ==>
          FirstBridge(f.bridges, i))
    && (forall i, spp :: 0 <= i < |f.tncs| && kind == AdapterKind && SectionAdapter(f.tncs[i], spp) == Some(id) ==> FirstTncDef(f.tncs, i))
  }

  lemma OwnIdsHideNothing(f: ConfigFile, kind: Kind, id: string)
    requires UniqueIds(f)
    ensures NoneHidden(f, kind, id)
  {
    forall i | 0 <= i < |f.bridges| ensures FirstBridge(f.bridges, i) { BridgeIndexFinds(f.bridges, f.bridges[i].id.value); }
    forall i | 0 <= i < |f.tncs| ensures FirstTncDef(f.tncs, i) { TncIndexFinds(f.tncs, f.tncs[i].id); }
  }

  lemma PortRefIff(f: ConfigFile, kind: Kind, id: string, i: nat, j: nat)
    requires NoneHidden(f, kind, id) && i < |f.bridges| && j < |f.bridges[i].ports|
    ensures FirstBridge(f.bridges, i) && Refers(f, kind, id, PortRef(BridgeKey(f.bridges[i]), j)) <==>
            PortRefers(f.bridges[i].ports[j], kind, id)
  {
    var r := PortRef(BridgeKey(f.bridges[i]), j);
    if FirstBridge(f.bridges, i) && Refers(f, kind, id, r) {
      var b :| b in f.bridges && BridgeRefers(b, kind, id, r);
      var k :| 0 <= k < |f.bridges| && f.bridges[k] == b;
      assert FirstBridge(f.bridges, k);
    }
    if PortRefers(f.bridges[i].ports[j], kind, id) { assert f.bridges[i] in f.bridges && BridgeRefers(f.bridges[i], kind, id, r); }
  }

  lemma SectionRefIff(f: ConfigFile, kind: Kind, id: string, i: nat, spp: bool)
    requires NoneHidden(f, kind, id) && i < |f.tncs|
    ensures FirstTncDef(f.tncs, i) && Refers(f, kind, id, SectionRef(f.tncs[i].id, spp)) <==>
            kind == AdapterKind && SectionAdapter(f.tncs[i], spp) == Some(id)
  {
    var r := SectionRef(f.tncs[i].id, spp);
    if FirstTncDef(f.tncs, i) && Refers(f, kind, id, r) {
      var t :| t in f.tncs && TncRefers(t, kind, id, r);
      var k :| 0 <= k < |f.tncs| && f.tncs[k] == t;
      assert FirstTncDef(f.tncs, k);
    }
    if kind == AdapterKind && SectionAdapter(f.tncs[i], spp) == Some(id) {
      assert f.tncs[i] in f.tncs && TncRefers(f.tncs[i], kind, id, r);
    }
  }

  lemma BridgesFollowed(f: ConfigFile, now: seq<BridgeDef>, kind: Kind, from: string, to: string, refs: seq<RefPath>)
    requires NoneHidden(f, kind, from) && AllRefs(refs, f, kind, from) && PortsFollow(f.bridges, now, kind, to, refs)
    ensures now == RenBridges(kind, from, to, f.bridges)
  {
    forall i | 0 <= i < |now| ensures now[i] == RenBridge(kind, from, to, f.bridges[i]) {
      forall j | 0 <= j < |now[i].ports| ensures now[i].ports[j] == RenPort(kind, from, to, f.bridges[i].ports[j]) {
        PortRefIff(f, kind, from, i, j);
      }
      assert now[i].ports == RenPorts(kind, from, to, f.bridges[i].ports);
    }
  }

  lemma SectionsFollowed(f: ConfigFile, now: seq<TncDef>, kind: Kind, from: string, to: string, refs: seq<RefPath>)
    requires NoneHidden(f, kind, from) && AllRefs(refs, f, kind, from) && SectionsFollow(f.tncs, now, to, refs)
    ensures now == if kind == AdapterKind then RenTncs(kind, from, to, f.tncs) else f.tncs
  {
    forall i | 0 <= i < |now|
      ensures now[i] == if kind == AdapterKind then RenSections(from, to, f.tncs[i]) else f.tncs[i]
    {
      SectionRefIff(f, kind, from, i, true);
      SectionRefIff(f, kind, from, i, false);
    }
    assert kind == TncKind ==> now == f.tncs;
  }

  /** With no referring object hidden, every reference follows. */
  lemma FollowedAll(was: ConfigFile, now: ConfigFile, kind: Kind, from: string, to: string)
    requires NoneHidden(was, kind, from) && Followed(was, now, kind, from, to)
    ensures now == was.(bridges := RenBridges(kind, from, to, was.bridges),
                        tncs := if kind == AdapterKind then RenTncs(kind, from, to, was.tncs) else was.tncs)
  {
    var refs :| AllRefs(refs, was, kind, from) && FollowedBy(was, now, kind, to, refs);
    BridgesFollowed(was, now.bridges, kind, from, to, refs);
    SectionsFollowed(was, now.tncs, kind, from, to, refs);
  }

  ghost predicate NoneRefers(f: ConfigFile, kind: Kind, id: string) {
    && (forall i, j :: 0 <= i < |f.bridges| && 0 <= j < |f.bridges[i].ports| ==> !PortRefers(f.bridges[i].ports[j], kind, id))
    && (forall i, spp :: 0 <= i < |f.tncs| ==> kind == AdapterKind ==> SectionAdapter(f.tncs[i], spp) != Some(id))
  }

  lemma PortAfter(was: ConfigFile, now: ConfigFile, kind: Kind, from: string, to: string, refs: seq<RefPath>, i: nat, j: nat)
    requires from != to && AllRefs(refs, was, kind, from) && FollowedBy(was, now, kind, to, refs)
    requires i < |was.bridges| && j < |was.bridges[i].ports|
    ensures PortRefers(now.bridges[i].ports[j], kind, from) <==>
            PortRefers(was.bridges[i].ports[j], kind, from) && !FirstBridge(was.bridges, i)
  {
    var b := was.bridges[i];
    if PortRefers(b.ports[j], kind, from) {
      assert b in was.bridges && BridgeRefers(b, kind, from, PortRef(BridgeKey(b), j));
    }
  }

  lemma SectionAfter(was: ConfigFile, now: ConfigFile, from: string, to: string, refs: seq<RefPath>, i: nat, spp: bool)
    requires from != to && AllRefs(refs, was, AdapterKind, from) && FollowedBy(was, now, AdapterKind, to, refs) && i < |was.tncs|
    ensures SectionAdapter(now.tncs[i], spp) == Some(from) <==>
            SectionAdapter(was.tncs[i], spp) == Some(from) && !FirstTncDef(was.tncs, i)
  {
    var t := was.tncs[i];
    if SectionAdapter(t, spp) == Some(from) { assert t in was.tncs && TncRefers(t, AdapterKind, from, SectionRef(t.id, spp)); }
  }

  /** A rename leaves no reference to the old id exactly when no referring
      object was hidden behind another of its id. */
  lemma NoneLeftIff(was: ConfigFile, now: ConfigFile, kind: Kind, from: string, to: string)
    requires from != to && Followed(was, now, kind, from, to)
    ensures NoneRefers(now, kind, from) <==> NoneHidden(was, kind, from)
  {
    var refs :| AllRefs(refs, was, kind, from) && FollowedBy(was, now, kind, to, refs);
    forall i: nat, j: nat | i < |was.bridges| && j < |was.bridges[i].ports|
      ensures PortRefers(now.bridges[i].ports[j], kind, from) <==>
              PortRefers(was.bridges[i].ports[j], kind, from) && !FirstBridge(was.bridges, i)
    {
      PortAfter(was, now, kind, from, to, refs, i, j);
    }
    forall i: nat, spp | i < |was.tncs| && kind == AdapterKind
      ensures SectionAdapter(now.tncs[i], spp) == Some(from) <==>
              SectionAdapter(was.tncs[i], spp) == Some(from) && !FirstTncDef(was.tncs, i)
    {
      SectionAfter(was, now, from, to, refs, i, spp);
    }
  }

  datatype Outcome = Done | ReadOnly | NotFound | Conflict | InUse

  class DynamicStore {
    var file: ConfigFile

    constructor (f: ConfigFile)
      ensures file == f
    {
      file := f;
    }

    /** Every reference to `from` becomes one to `to`. */
    method FollowReferences(kind: Kind, from: string, to: string)
      modifies this
      ensures Followed(old(file), file, kind, from, to)
    {
      ghost var was := file;
      var refs := References(file, kind, from);
      for n := 0 to |refs|
        invariant file == was.(bridges := file.bridges, tncs := file.tncs)
        invariant PortsFollow(was.bridges, file.bridges, kind, to, refs[..n])
        invariant SectionsFollow(was.tncs, file.tncs, to, refs[..n])
      {
        assert refs[..n + 1] == refs[..n] + [refs[n]];
        match refs[n] {
          case PortRef(_, _) =>
            var bridges := SetPortReference(file.bridges, kind, refs[n], to, was.bridges, refs[..n]);
            file := file.(bridges := bridges);
          case SectionRef(_, _) =>
            var tncs := SetSectionReference(file.tncs, refs[n], to, was.tncs, refs[..n]);
            file := file.(tncs := tncs);
        }
      }
      assert refs[..|refs|] == refs;
      assert AllRefs(refs, was, kind, from) && FollowedBy(was, file, kind, to, refs);
    }

    /** A TNC gets a new definition, and perhaps a new id. */
    method UpdateTnc(statics: Files, id: string, def: TncDef) returns (r: Outcome)
      modifies this
      ensures var i := TncIndex(old(file).tncs, id);
              && (r == ReadOnly <==> TncTaken(statics, id))
              && (r == NotFound <==> !TncTaken(statics, id) && i.None?)
              && (r == Done <==> !TncTaken(statics, id) && i.Some?
                                 && (def.id != id ==> !TncTaken(statics, def.id) && TncIndex(old(file).tncs, def.id).None?))
              && (r == Done ==>
                    && i.value < |old(file).tncs|
                    && (if def.id == id then file == old(file).(tncs := old(file).tncs[i.value := def])
                        else Followed(old(file).(tncs := old(file).tncs[i.value := def]), file, TncKind, id, def.id))
                    && (NoneHidden(old(file), TncKind, id) && OneTnc(old(file).tncs, id) ==>
                          file == Renamed(old(file).(tncs := old(file).tncs[i.value := def.(id := id)]), TncKind, id, def.id)))
              && (r != Done ==> file == old(file)) && r != InUse
    {
      if TncTaken(statics, id) { return ReadOnly; }
      var i := TncIndex(file.tncs, id);
      TncIndexFinds(file.tncs, id);
      if i.None? { return NotFound; }
      if def.id != id && (TncTaken(statics, def.id) || TncIndex(file.tncs, def.id).Some?) { return Conflict; }
      TncIndexFinds(file.tncs, def.id);
      ghost var was, g := file, file.(tncs := file.tncs[i.value := def.(id := id)]);
      file := file.(tncs := file.tncs[i.value := def]);
      ghost var mid := file;
      if def.id != id {
        FollowReferences(TncKind, id, def.id);
      }
      if NoneHidden(was, TncKind, id) && OneTnc(was.tncs, id) { TncRenamed(was, g, mid, file, i.value, id, def); }
      r := Done;
    }

    /** An adapter gets a new definition, and perhaps a new id. */
    method UpdateAdapter(statics: Files, id: string, def: AdapterDef) returns (r: Outcome)
      modifies this
      ensures var i := AdapterIndex(old(file).adapters, id);
              && (r == ReadOnly <==> AdapterTaken(statics, id))
              && (r == NotFound <==> !AdapterTaken(statics, id) && i.None?)
              && (r == Done <==> !AdapterTaken(statics, id) && i.Some?
                                 && (def.id != id ==> !AdapterTaken(statics, def.id) && AdapterIndex(old(file).adapters, def.id).None?))
              && (r == Done ==>
                    && i.value < |old(file).adapters|
                    && (if def.id == id then file == old(file).(adapters := old(file).adapters[i.value := def])
                        else Followed(old(file).(adapters := old(file).adapters[i.value := def]), file, AdapterKind, id, def.id))
                    && (NoneHidden(old(file), AdapterKind, id) && OneAdapter(old(file).adapters, id) ==>
                          file == Renamed(old(file).(adapters := old(file).adapters[i.value := def.(id := id)]), AdapterKind, id, def.id)))
              && (r != Done ==> file == old(file)) && r != InUse
    {
      if AdapterTaken(statics, id) { return ReadOnly; }
      var i := AdapterIndex(file.adapters, id);
      AdapterIndexFinds(file.adapters, id);
      if i.None? { return NotFound; }
      if def.id != id && (AdapterTaken(statics, def.id) || AdapterIndex(file.adapters, def.id).Some?) { return Conflict; }
      AdapterIndexFinds(file.adapters, def.id);
      ghost var was, g := file, file.(adapters := file.adapters[i.value := def.(id := id)]);
      file := file.(adapters := file.adapters[i.value := def]);
      ghost var mid := file;
      if def.id != id {
        FollowReferences(AdapterKind, id, def.id);
      }
      if NoneHidden(was, AdapterKind, id) && OneAdapter(was.adapters, id) { AdapterRenamed(was, g, mid, file, i.value, id, def); }
      r := Done;
    }

    /** Goes only if nothing would be left pointing at it. */
    method DeleteTnc(statics: Files, id: string) returns (r: Outcome)
      modifies this
      ensures var i := TncIndex(old(file).tncs, id);
              && (r == ReadOnly <==> TncTaken(statics, id))
              && (r == NotFound <==> !TncTaken(statics, id) && i.None?)
              && (r == InUse <==> !TncTaken(statics, id) && i.Some? && exists p :: Refers(old(file), TncKind, id, p))
              && r != Conflict
              && (if r != Done then file == old(file)
                  else
                    && i.value < |old(file).tncs|
                    && file == old(file).(tncs := old(file).tncs[..i.value] + old(file).tncs[i.value + 1..])
                    && (forall p :: !Refers(file, TncKind, id, p))
                    && (Unmentioned(file, TncKind, id) <==> TncIndex(file.tncs, id).None?)
                    && (UniqueIds(old(file)) ==> Unmentioned(file, TncKind, id)))
    {
      if TncTaken(statics, id) { return ReadOnly; }
      var i := TncIndex(file.tncs, id);
      TncIndexFinds(file.tncs, id);
      if i.None? { return NotFound; }
      var refs := References(file, TncKind, id);
      if |refs| > 0 {
        assert refs[0] in refs;
        return InUse;
      }
      ghost var was := file;
      file := file.(tncs := file.tncs[..i.value] + file.tncs[i.value + 1..]);
      TncIndexFinds(file.tncs, id);
      TncGone(was, file, i.value, id);
      r := Done;
    }

    /** Goes only if nothing would be left pointing at it. */
    method DeleteAdapter(statics: Files, id: string) returns (r: Outcome)
      modifies this
      ensures var i := AdapterIndex(old(file).adapters, id);
              && (r == ReadOnly <==> AdapterTaken(statics, id))
              && (r == NotFound <==> !AdapterTaken(statics, id) && i.None?)
              && (r == InUse <==> !AdapterTaken(statics, id) && i.Some? && exists p :: Refers(old(file), AdapterKind, id, p))
              && r != Conflict
              && (if r != Done then file == old(file)
                  else
                    && i.value < |old(file).adapters|
                    && file == old(file).(adapters := old(file).adapters[..i.value] + old(file).adapters[i.value + 1..])
                    && (forall p :: !Refers(file, AdapterKind, id, p))
                    && (Unmentioned(file, AdapterKind, id) <==> AdapterIndex(file.adapters, id).None?)
                    && (UniqueIds(old(file)) ==> Unmentioned(file, AdapterKind, id)))
    {
      if AdapterTaken(statics, id) { return ReadOnly; }
      var i := AdapterIndex(file.adapters, id);
      AdapterIndexFinds(file.adapters, id);
      if i.None? { return NotFound; }
      var refs := References(file, AdapterKind, id);
      if |refs| > 0 {
        assert refs[0] in refs;
        return InUse;
      }
      ghost var was := file;
      file := file.(adapters := file.adapters[..i.value] + file.adapters[i.value + 1..]);
      AdapterIndexFinds(file.adapters, id);
      AdapterGone(was, file, i.value, id);
      r := Done;
    }
  }

  /** With no reference to it, only its own definition mentions an id. */
  lemma NoRefs(f: ConfigFile, kind: Kind, id: string)
    requires forall r :: !Refers(f, kind, id, r)
    ensures forall t :: t in f.tncs && kind == AdapterKind ==> SectionAdapter(t, true) != Some(id) && SectionAdapter(t, false) != Some(id)
    ensures forall b, p :: b in f.bridges && p in b.ports ==> !PortRefers(p, kind, id)
  {
    forall t | t in f.tncs && kind == AdapterKind ensures SectionAdapter(t, true) != Some(id) && SectionAdapter(t, false) != Some(id) {
      assert !TncRefers(t, kind, id, SectionRef(t.id, true)) by { assert !Refers(f, kind, id, SectionRef(t.id, true)); }
      assert !TncRefers(t, kind, id, SectionRef(t.id, false)) by { assert !Refers(f, kind, id, SectionRef(t.id, false)); }
    }
    forall b, p | b in f.bridges && p in b.ports ensures !PortRefers(p, kind, id) {
      var j :| 0 <= j < |b.ports| && b.ports[j] == p;
      assert !Refers(f, kind, id, PortRef(BridgeKey(b), j));
      assert !BridgeRefers(b, kind, id, PortRef(BridgeKey(b), j));
    }
  }

  lemma UnmentionedAfter(f: ConfigFile, kind: Kind, id: string, now: ConfigFile)
    requires forall r :: !Refers(f, kind, id, r)
    requires now.bridges == f.bridges
    requires forall t :: t in now.tncs ==> t in f.tncs && (kind == TncKind ==> t.id != id)
    requires forall a :: a in now.adapters && kind == AdapterKind ==> a.id != id
    ensures Unmentioned(now, kind, id)
  {
    NoRefs(f, kind, id);
    forall t | t in now.tncs && kind == AdapterKind
      ensures (t.spp.Some? ==> t.spp.value.adapter != Some(id)) && (t.ble.Some? ==> t.ble.value.adapter != Some(id))
    {
      assert SectionAdapter(t, true) != Some(id) && SectionAdapter(t, false) != Some(id);
    }
    forall b, p | b in now.bridges && p in b.ports
      ensures kind == TncKind && p.kind.TncPortDef? ==> p.kind.tnc != id
      ensures kind == AdapterKind && p.kind.BleServerDef? ==> p.kind.adapter != Some(id)
    {
      assert !PortRefers(p, kind, id);
    }
  }

  lemma TncGone(was: ConfigFile, now: ConfigFile, i: nat, id: string)
    requires i < |was.tncs| && was.tncs[i].id == id && now == was.(tncs := was.tncs[..i] + was.tncs[i + 1..])
    requires forall p :: !Refers(was, TncKind, id, p)
    ensures forall p :: !Refers(now, TncKind, id, p)
    ensures Unmentioned(now, TncKind, id) <==> forall t :: t in now.tncs ==> t.id != id
    ensures UniqueIds(was) ==> forall t :: t in now.tncs ==> t.id != id
  {
    forall p ensures !Refers(now, TncKind, id, p) { assert !Refers(was, TncKind, id, p); }
    if forall t :: t in now.tncs ==> t.id != id { UnmentionedAfter(now, TncKind, id, now); }
  }

  lemma AdapterGone(was: ConfigFile, now: ConfigFile, i: nat, id: string)
    requires i < |was.adapters| && was.adapters[i].id == id && now == was.(adapters := was.adapters[..i] + was.adapters[i + 1..])
    requires forall p :: !Refers(was, AdapterKind, id, p)
    ensures forall p :: !Refers(now, AdapterKind, id, p)
    ensures Unmentioned(now, AdapterKind, id) <==> forall a :: a in now.adapters ==> a.id != id
    ensures UniqueIds(was) ==> forall a :: a in now.adapters ==> a.id != id
  {
    forall p ensures !Refers(now, AdapterKind, id, p) { assert !Refers(was, AdapterKind, id, p); }
    if forall a :: a in now.adapters ==> a.id != id { UnmentionedAfter(now, AdapterKind, id, now); }
  }

  lemma TncRenamed(was: ConfigFile, g: ConfigFile, mid: ConfigFile, now: ConfigFile, i: nat, id: string, def: TncDef)
    requires NoneHidden(was, TncKind, id) && OneTnc(was.tncs, id) && i < |was.tncs| && was.tncs[i].id == id
    requires g == was.(tncs := was.tncs[i := def.(id := id)]) && mid == was.(tncs := was.tncs[i := def])
    requires def.id != id ==> forall j :: 0 <= j < |was.tncs| ==> was.tncs[j].id != def.id
    requires if def.id == id then now == mid else Followed(mid, now, TncKind, id, def.id)
    ensures now == Renamed(g, TncKind, id, def.id)
  {
    if def.id == id {
      RenamedSame(g, TncKind, id);
    } else {
      TncReplaced(g, mid, i, id, def);
      FollowedAll(mid, now, TncKind, id, def.id);
    }
  }

  lemma AdapterRenamed(was: ConfigFile, g: ConfigFile, mid: ConfigFile, now: ConfigFile, i: nat, id: string, def: AdapterDef)
    requires NoneHidden(was, AdapterKind, id) && OneAdapter(was.adapters, id) && i < |was.adapters| && was.adapters[i].id == id
    requires g == was.(adapters := was.adapters[i := def.(id := id)]) && mid == was.(adapters := was.adapters[i := def])
    requires def.id != id ==> forall j :: 0 <= j < |was.adapters| ==> was.adapters[j].id != def.id
    requires if def.id == id then now == mid else Followed(mid, now, AdapterKind, id, def.id)
    ensures now == Renamed(g, AdapterKind, id, def.id)
  {
    if def.id == id {
      RenamedSame(g, AdapterKind, id);
    } else {
      AdapterReplaced(g, mid, i, id, def);
      FollowedAll(mid, now, AdapterKind, id, def.id);
    }
  }

  /** A rename in place, before the references follow. */
  lemma TncReplaced(g: ConfigFile, now: ConfigFile, i: nat, id: string, def: TncDef)
    requires OneTnc(g.tncs, id) && i < |g.tncs| && g.tncs[i] == def.(id := id) && now == g.(tncs := g.tncs[i := def])
    requires forall j :: 0 <= j < |g.tncs| && def.id != id ==> g.tncs[j].id != def.id
    ensures now.tncs == RenTncs(TncKind, id, def.id, g.tncs) && RenAdapters(TncKind, id, def.id, g.adapters) == g.adapters
  {
  }

  lemma AdapterReplaced(g: ConfigFile, now: ConfigFile, i: nat, id: string, def: AdapterDef)
    requires OneAdapter(g.adapters, id) && i < |g.adapters| && g.adapters[i] == def.(id := id) && now == g.(adapters := g.adapters[i := def])
    requires forall j :: 0 <= j < |g.adapters| && def.id != id ==> g.adapters[j].id != def.id
    ensures now.adapters == RenAdapters(AdapterKind, id, def.id, g.adapters)
  {
  }

  lemma RenamedSame(g: ConfigFile, kind: Kind, id: string)
    ensures Renamed(g, kind, id, id) == g
  {
    assert RenAdapters(kind, id, id, g.adapters) == g.adapters;
    assert RenTncs(kind, id, id, g.tncs) == g.tncs;
    forall i | 0 <= i < |g.bridges| ensures RenBridge(kind, id, id, g.bridges[i]) == g.bridges[i] {
      assert RenPorts(kind, id, id, g.bridges[i].ports) == g.bridges[i].ports;
    }
  }

  // ── Two bridges of one id ───────────────────────────────────────────

  function Using(tnc: string): PortDef {
    PortDef(Some("radio"), None, TncPortDef(OverSpp, tnc, None, None, None), false)
  }

  /** The second bridge of the id uses the TNC, the first has no ports. */
  function Twins(): ConfigFile {
    ConfigFile(None, None, None, [], [TncDef("t", None, None, None, None, None)],
               [BridgeDef(Some("x"), "one", None, None, None, []), BridgeDef(Some("x"), "two", None, None, None, [Using("t")])])
  }

  /** However the references follow, one to the old id is left behind. */
  lemma HiddenReference(now: ConfigFile)
    requires Followed(Twins(), now, TncKind, "t", "u")
    ensures !NoneRefers(now, TncKind, "t")
  {
    var f := Twins();
    assert PortRefers(f.bridges[1].ports[0], TncKind, "t");
    assert BridgeIndex(f.bridges, "x") == Some(0);
    assert !NoneHidden(f, TncKind, "t");
    NoneLeftIff(f, now, TncKind, "t", "u");
  }
}

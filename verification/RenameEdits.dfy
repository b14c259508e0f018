/** A rename from the edit of the store, through the rebuild, to the plan
    (`update_object` in src/control/edit.rs, then a reload). */
module RenameEdits {
  import opened Common
  import opened Config
  import opened Resolve
  import opened Build
  import opened StaticConfig
  import opened Rename
  import opened Edit
  import opened Reconcile
  import RenameAdapter
  import RenameTnc
  import RenamePlans
  import V = Validate

  // ── A config that builds has one dynamic object of an id ────────────

  lemma {:induction false} OneKeptTnc(statics: Files, defs: seq<TncDef>, id: string)
    requires !TncTaken(statics, id) && OneTnc(KeepTncs(statics, defs), id)
    ensures OneTnc(defs, id)
  {
    if |defs| > 0 {
      var n := |defs| - 1;
      var rest, all := KeepTncs(statics, defs[..n]), KeepTncs(statics, defs);
      assert rest == all[..|rest|];
      OneKeptTnc(statics, defs[..n], id);
      assert !TncTaken(statics, defs[n].id) ==> all == rest + [defs[n]] && all[|rest|] == defs[n];
      forall i | 0 <= i < n && defs[i].id == id ensures defs[n].id != id {
        assert defs[i] == defs[..n][i];
        KeptTncs(statics, defs[..n], defs[i]);
        var k :| 0 <= k < |rest| && rest[k] == defs[i];
        assert all[k] == rest[k];
      }
    }
  }

  lemma {:induction false} OneKeptAdapter(statics: Files, defs: seq<AdapterDef>, id: string)
    requires !AdapterTaken(statics, id) && OneAdapter(KeepAdapters(statics, defs), id)
    ensures OneAdapter(defs, id)
  {
    if |defs| > 0 {
      var n := |defs| - 1;
      var rest, all := KeepAdapters(statics, defs[..n]), KeepAdapters(statics, defs);
      assert rest == all[..|rest|];
      OneKeptAdapter(statics, defs[..n], id);
      assert !AdapterTaken(statics, defs[n].id) ==> all == rest + [defs[n]] && all[|rest|] == defs[n];
      forall i | 0 <= i < n && defs[i].id == id ensures defs[n].id != id {
        assert defs[i] == defs[..n][i];
        KeptAdapters(statics, defs[..n], defs[i]);
        var k :| 0 <= k < |rest| && rest[k] == defs[i];
        assert all[k] == rest[k];
      }
    }
  }

  /** What a config that builds is resolved from. */
  lemma BuiltFrom(s: Sources, f: ConfigFile, c: Config) returns (r: Config)
    requires s.dynamic == Some(Good(f)) && Built(s) == Some(c)
    ensures PlainFile(SetAside(s.statics, f)) && Resolved(s.statics + [At(Dynamic, SetAside(s.statics, f))]) == Some(r)
    ensures r.adapters == c.adapters && r.tncs == c.tncs && V.Valid(c)
  {
    r := Resolved(s.statics + [At(Dynamic, SetAside(s.statics, f))]).value;
  }

  lemma KeptOneTnc(statics: Files, f: ConfigFile, r: Config, id: string)
    requires PlainFile(SetAside(statics, f)) && Resolved(statics + [At(Dynamic, SetAside(statics, f))]) == Some(r)
    requires V.KeysDistinct(r, V.TncId) && !TncTaken(statics, id)
    ensures OneTnc(f.tncs, id)
  {
    RenameTnc.IdsKept(statics, SetAside(statics, f), r);
    OwnTncIds(statics, SetAside(statics, f), r);
    OneKeptTnc(statics, f.tncs, id);
  }

  lemma KeptOneAdapter(statics: Files, f: ConfigFile, r: Config, id: string)
    requires PlainFile(SetAside(statics, f)) && Resolved(statics + [At(Dynamic, SetAside(statics, f))]) == Some(r)
    requires V.KeysDistinct(r, V.AdapterId) && !AdapterTaken(statics, id)
    ensures OneAdapter(f.adapters, id)
  {
    RenameAdapter.IdsKept(statics, SetAside(statics, f), r);
    OwnAdapterIds(statics, SetAside(statics, f), r);
    OneKeptAdapter(statics, f.adapters, id);
  }

  lemma OwnTncIds(statics: Files, kept: ConfigFile, c: Config)
    requires RenameTnc.TncIdsOf(c, statics, kept) && V.KeysDistinct(c, V.TncId)
    ensures forall i, j :: 0 <= i < j < |kept.tncs| ==> kept.tncs[i].id != kept.tncs[j].id
  {
    var n := |TncDefs(statics)|;
    forall i, j | 0 <= i < j < |kept.tncs| ensures kept.tncs[i].id != kept.tncs[j].id {
      assert V.TncIds(c)[n + i] != V.TncIds(c)[n + j];
    }
  }

  lemma BuiltOneTnc(s: Sources, f: ConfigFile, c: Config, id: string)
    requires s.dynamic == Some(Good(f)) && Built(s) == Some(c) && !TncTaken(s.statics, id)
    ensures OneTnc(f.tncs, id)
  {
    var r := BuiltFrom(s, f, c);
    assert V.KeysDistinct(c, V.TncId);
    assert V.TncIds(r) == V.TncIds(c);
    KeptOneTnc(s.statics, f, r, id);
  }

  lemma OwnAdapterIds(statics: Files, kept: ConfigFile, c: Config)
    requires RenameAdapter.AdapterIdsOf(c, statics, kept) && V.KeysDistinct(c, V.AdapterId)
    ensures forall i, j :: 0 <= i < j < |kept.adapters| ==> kept.adapters[i].id != kept.adapters[j].id
  {
    var n := |AdapterDefs(statics)|;
    forall i, j | 0 <= i < j < |kept.adapters| ensures kept.adapters[i].id != kept.adapters[j].id {
      assert V.AdapterIds(c)[n + i] != V.AdapterIds(c)[n + j];
    }
  }

  lemma BuiltOneAdapter(s: Sources, f: ConfigFile, c: Config, id: string)
    requires s.dynamic == Some(Good(f)) && Built(s) == Some(c) && !AdapterTaken(s.statics, id)
    ensures OneAdapter(f.adapters, id)
  {
    var r := BuiltFrom(s, f, c);
    assert V.KeysDistinct(c, V.AdapterId);
    assert V.AdapterIds(r) == V.AdapterIds(c);
    KeptOneAdapter(s.statics, f, r, id);
  }

  // ── A TNC ───────────────────────────────────────────────────────────

  /** The rebuild has the TNC under its new id, or is refused for the id, and
      reloading it restarts nothing. */
  ghost predicate TncFollows(t: Sources, c: Config, d: TncDef, to: string) {
    && Built(t) == (if GoodId(to) then Some(RenameTnc.Followed(c, d.id, to, d.name.None?)) else None)
    && (Built(t).Some? ==> forall rt :: RenamePlans.RestartsNothing(PlanFor(rt, c, Built(t).value)))
  }

  lemma TncFollowed(s: Sources, f: ConfigFile, t: Sources, c: Config, d: TncDef, to: string)
    requires AllStatic(s.statics) && s.dynamic == Some(Good(f)) && Built(s) == Some(c) && RenameTnc.Accepted(s.statics, f, d, to)
    requires t == s.(dynamic := Some(Good(Renamed(f, TncKind, d.id, to))))
    ensures TncFollows(t, c, d, to)
  {
    RenameTnc.TncRename(s, f, d, to, c);
    forall rt | Built(t).Some? ensures RenamePlans.RestartsNothing(PlanFor(rt, c, Built(t).value)) {
      RenamePlans.TncRenameRestartsNothing(rt, s, f, d, to, c);
    }
  }

  /** What an edit of the store answers. */
  ghost predicate TncAnswer(statics: Files, f: ConfigFile, id: string, to: string, r: Outcome) {
    && (r == Done <==> !TncTaken(statics, id) && TncIndex(f.tncs, id).Some?
                       && (to != id ==> !TncTaken(statics, to) && TncIndex(f.tncs, to).None?))
    && r != InUse
  }

  /** What the edit asks is a rename of the only one of its id. */
  lemma TncAccepted(s: Sources, f: ConfigFile, c: Config, d: TncDef, to: string, file: ConfigFile)
    requires s.dynamic == Some(Good(f)) && Built(s) == Some(c) && d in f.tncs && d.id != to
    requires !TncTaken(s.statics, d.id) && !TncTaken(s.statics, to) && TncIndex(f.tncs, d.id).Some? && TncIndex(f.tncs, to).None?
    requires var i := TncIndex(f.tncs, d.id).value;
             i < |f.tncs| && (OneTnc(f.tncs, d.id) ==> file == Renamed(f.(tncs := f.tncs[i := d]), TncKind, d.id, to))
    ensures RenameTnc.Accepted(s.statics, f, d, to) && file == Renamed(f, TncKind, d.id, to)
  {
    BuiltOneTnc(s, f, c, d.id);
    TncIndexFinds(f.tncs, d.id);
    TncIndexFinds(f.tncs, to);
    var i := TncIndex(f.tncs, d.id).value;
    assert f.tncs[i := d] == f.tncs;
  }

  /** Gives a TNC another id and nothing else, and rebuilds. */
  method RenameTncDef(s: Sources, f: ConfigFile, ghost c: Config, d: TncDef, to: string) returns (r: Outcome, t: Sources)
    requires AllStatic(s.statics) && s.dynamic == Some(Good(f)) && Built(s) == Some(c) && d in f.tncs && d.id != to
    ensures TncAnswer(s.statics, f, d.id, to, r)
    ensures r != Done ==> t == s
    ensures r == Done && NoneHidden(f, TncKind, d.id) ==> TncFollows(t, c, d, to)
  {
    var store := new DynamicStore(f);
    r := store.UpdateTnc(s.statics, d.id, d.(id := to));
    t := s.(dynamic := Some(Good(store.file)));
    if r == Done && NoneHidden(f, TncKind, d.id) {
      TncAccepted(s, f, c, d, to, store.file);
      TncFollowed(s, f, t, c, d, to);
    }
  }

  // ── An adapter ──────────────────────────────────────────────────────

  /** The rebuild has the adapter under its new id, or is refused for the id,
      and there is nothing to reload. */
  ghost predicate AdapterFollows(t: Sources, c: Config, from: string, to: string) {
    && Built(t) == (if GoodId(to) && IsId(to) then Some(c.(adapters := RenameAdapter.FollowAll(c.adapters, from, to))) else None)
    && (Built(t).Some? ==> forall rt :: RenamePlans.Noop(PlanFor(rt, c, Built(t).value)))
  }

  lemma AdapterFollowed(s: Sources, f: ConfigFile, t: Sources, c: Config, from: string, to: string)
    requires AllStatic(s.statics) && s.dynamic == Some(Good(f)) && Built(s) == Some(c) && RenameAdapter.Accepted(s.statics, f, from, to)
    requires t == s.(dynamic := Some(Good(Renamed(f, AdapterKind, from, to))))
    ensures AdapterFollows(t, c, from, to)
  {
    RenameAdapter.AdapterRename(s, f, from, to, c);
    forall rt | Built(t).Some? ensures RenamePlans.Noop(PlanFor(rt, c, Built(t).value)) {
      RenamePlans.AdapterRenameIsNoop(rt, s, f, from, to, c);
    }
  }

  ghost predicate AdapterAnswer(statics: Files, f: ConfigFile, id: string, to: string, r: Outcome) {
    && (r == Done <==> !AdapterTaken(statics, id) && AdapterIndex(f.adapters, id).Some?
                       && (to != id ==> !AdapterTaken(statics, to) && AdapterIndex(f.adapters, to).None?))
    && r != InUse
  }

  /** What the edit asks is a rename of the only one of its id. */
  lemma AdapterAccepted(s: Sources, f: ConfigFile, c: Config, d: AdapterDef, to: string, file: ConfigFile)
    requires s.dynamic == Some(Good(f)) && Built(s) == Some(c) && d in f.adapters && d.id != to
    requires !AdapterTaken(s.statics, d.id) && !AdapterTaken(s.statics, to) && AdapterIndex(f.adapters, d.id).Some? && AdapterIndex(f.adapters, to).None?
    requires var i := AdapterIndex(f.adapters, d.id).value;
             i < |f.adapters| && (OneAdapter(f.adapters, d.id) ==> file == Renamed(f.(adapters := f.adapters[i := d]), AdapterKind, d.id, to))
    ensures RenameAdapter.Accepted(s.statics, f, d.id, to) && file == Renamed(f, AdapterKind, d.id, to)
  {
    BuiltOneAdapter(s, f, c, d.id);
    AdapterIndexFinds(f.adapters, d.id);
    AdapterIndexFinds(f.adapters, to);
    var i := AdapterIndex(f.adapters, d.id).value;
    assert f.adapters[i := d] == f.adapters;
  }

  /** Gives an adapter another id and nothing else, and rebuilds. */
  method RenameAdapterDef(s: Sources, f: ConfigFile, ghost c: Config, d: AdapterDef, to: string) returns (r: Outcome, t: Sources)
    requires AllStatic(s.statics) && s.dynamic == Some(Good(f)) && Built(s) == Some(c) && d in f.adapters && d.id != to
    ensures AdapterAnswer(s.statics, f, d.id, to, r)
    ensures r != Done ==> t == s
    ensures r == Done && NoneHidden(f, AdapterKind, d.id) ==> AdapterFollows(t, c, d.id, to)
  {
    var store := new DynamicStore(f);
    r := store.UpdateAdapter(s.statics, d.id, d.(id := to));
    t := s.(dynamic := Some(Good(store.file)));
    if r == Done && NoneHidden(f, AdapterKind, d.id) {
      AdapterAccepted(s, f, c, d, to, store.file);
      AdapterFollowed(s, f, t, c, d.id, to);
    }
  }
}

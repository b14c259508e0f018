/** What a rename does to the running daemon: an adapter's, nothing; a TNC's
    restarts no port. */
module RenamePlans {
  import opened Common
  import opened BridgeState
  import opened Config
  import opened Reconcile
  import opened PlanShape
  import opened Reload
  import opened ReloadEffects
  import opened ReloadResults
  import opened Build
  import opened StaticConfig
  import Resolve
  import Rename
  import RenameAdapter
  import opened RenameTnc
  import V = Validate

  /** `is_noop`. */
  ghost predicate Noop(plan: Plan) {
    plan.globals == [] && forall bp :: bp in plan.bridges ==> bp.action == Unchanged
  }

  // ── A TNC's new id, seen by the planner ─────────────────────────────

  lemma {:induction false} FindPortFollows(ports: seq<Port>, from: string, to: string, id: string)
    ensures FindPort(FollowPorts(ports, from, to), id) ==
            (match FindPort(ports, id) case Some(p) => Some(FollowPort(p, from, to)) case None => None)
  {
    if |ports| > 0 {
      FindPortFollows(ports[1..], from, to, id);
      assert FollowPorts(ports, from, to)[1..] == FollowPorts(ports[1..], from, to);
    }
  }

  lemma {:induction false} FindBridgeFollows(bridges: seq<Bridge>, from: string, to: string, id: string)
    ensures FindBridge(FollowBridges(bridges, from, to), id) ==
            (match FindBridge(bridges, id) case Some(b) => Some(FollowBridge(b, from, to)) case None => None)
  {
    if |bridges| > 0 {
      FindBridgeFollows(bridges[1..], from, to, id);
      assert FollowBridges(bridges, from, to)[1..] == FollowBridges(bridges[1..], from, to);
    }
  }

  /** Nothing of the port but its TNC's id changes: it is updated at most. */
  lemma PortPlanFollows(rt: Runtime, bridge: string, p: Port, from: string, to: string)
    ensures var pp := PlanPort(rt, bridge, p, FollowPort(p, from, to));
            && pp.action == (if TncOf(p.kind) == Some(from) && from != to then Updated else Unchanged)
            && pp.disconnects == [] && !pp.dropsTncLink
  {
  }

  lemma EntriesFollow(rt: Runtime, b: Bridge, from: string, to: string)
    requires UniquePorts(b.ports)
    ensures forall pp :: pp in PlanBridge(rt, b, FollowBridge(b, from, to)).ports ==>
              (pp.action == Unchanged || (pp.action == Updated && from != to)) && pp.disconnects == [] && !pp.dropsTncLink
  {
    var nb := FollowBridge(b, from, to);
    PortPlansExact(rt, b, nb);
    forall pp | pp in PlanBridge(rt, b, nb).ports
      ensures (pp.action == Unchanged || (pp.action == Updated && from != to)) && pp.disconnects == [] && !pp.dropsTncLink
    {
      FindPortFollows(b.ports, from, to, pp.id);
      assert PortEntry(rt, b, nb, pp.id) == Some(pp);
      PortPlanFollows(rt, b.id, FindPort(b.ports, pp.id).value, from, to);
    }
  }

  lemma FollowUnique(c: Config, from: string, to: string)
    requires UniqueBridges(c.bridges) && forall b :: b in c.bridges ==> UniquePorts(b.ports)
    ensures UniqueBridges(FollowBridges(c.bridges, from, to))
  {
  }

  /** At most an update (when one is due at all), and nobody is cut off. */
  ghost predicate Gentle(bp: BridgePlan, update: bool) {
    && (bp.action == Unchanged || (bp.action == Updated && update)) && !bp.stopsInUse
    && forall pp :: pp in bp.ports ==>
         (pp.action == Unchanged || (pp.action == Updated && update)) && pp.disconnects == [] && !pp.dropsTncLink
  }

  /** The plan for a TNC's new id: no bridge or port stops, starts or restarts,
      and no session or link is lost. */
  lemma PlanFollows(rt: Runtime, c: Config, d: Config, from: string, to: string, bp: BridgePlan)
    requires V.WellDefined(c) && d.bridges == FollowBridges(c.bridges, from, to) && bp in PlanFor(rt, c, d).bridges
    ensures Gentle(bp, from != to)
  {
    ValidUnique(c);
    FollowUnique(c, from, to);
    EntryExact(rt, c, d, bp);
    FindBridgeFollows(c.bridges, from, to, bp.id);
    FindBridgeExact(c.bridges, bp.id);
    var b := FindRunning(c, bp.id).value;
    EntriesFollow(rt, b, from, to);
    var pps := PlanBridge(rt, b, FollowBridge(b, from, to)).ports;
    assert from == to ==> AllUnchanged(pps) by {
      forall i | 0 <= i < |pps| && from == to ensures pps[i].action == Unchanged { assert pps[i] in pps; }
    }
  }

  // ── The two renames ─────────────────────────────────────────────────

  lemma {:induction false} FollowNothing(c: Config, id: string)
    ensures FollowBridges(c.bridges, id, id) == c.bridges
  {
    forall i | 0 <= i < |c.bridges| ensures FollowBridge(c.bridges[i], id, id) == c.bridges[i] {
      var ports := c.bridges[i].ports;
      assert FollowPorts(ports, id, id) == ports;
    }
  }

  /** Renaming an adapter is nothing to the daemon. */
  lemma AdapterRenameIsNoop(rt: Runtime, s: Sources, f: Resolve.ConfigFile, from: string, to: string, c: Config)
    requires AllStatic(s.statics) && s.dynamic == Some(Resolve.Good(f)) && Built(s) == Some(c)
    requires RenameAdapter.Accepted(s.statics, f, from, to)
    ensures var after := Built(s.(dynamic := Some(Resolve.Good(Rename.Renamed(f, Rename.AdapterKind, from, to)))));
            after.Some? ==> Noop(PlanFor(rt, c, after.value))
  {
    RenameAdapter.AdapterRename(s, f, from, to, c);
    var d := c.(adapters := RenameAdapter.FollowAll(c.adapters, from, to));
    FollowNothing(c, "");
    forall bp | bp in PlanFor(rt, c, d).bridges ensures bp.action == Unchanged { PlanFollows(rt, c, d, "", "", bp); }
  }

  /** Bridges and ports go on, and nobody is cut off. */
  ghost predicate RestartsNothing(plan: Plan) {
    plan.globals == [] && Disruptions(plan) == [] && forall bp :: bp in plan.bridges ==> Gentle(bp, true)
  }

  lemma GentleIsQuiet(bps: seq<BridgePlan>)
    requires forall bp :: bp in bps ==> Gentle(bp, true)
    ensures BridgesDisruptions(bps) == []
  {
    QuietBridges(bps);
  }

  lemma FollowedPlan(rt: Runtime, c: Config, d: Config, from: string, to: string)
    requires V.WellDefined(c) && d.bridges == FollowBridges(c.bridges, from, to)
    requires d.logLevel == c.logLevel && d.group == c.group
    ensures RestartsNothing(PlanFor(rt, c, d))
  {
    var bps := PlanFor(rt, c, d).bridges;
    forall bp | bp in bps ensures Gentle(bp, true) { PlanFollows(rt, c, d, from, to, bp); }
    GentleIsQuiet(bps);
  }

  /** Renaming a TNC restarts nothing and disrupts nothing. */
  lemma TncRenameRestartsNothing(rt: Runtime, s: Sources, f: Resolve.ConfigFile, t: Resolve.TncDef, to: string, c: Config)
    requires AllStatic(s.statics) && s.dynamic == Some(Resolve.Good(f)) && Built(s) == Some(c) && Accepted(s.statics, f, t, to)
    ensures var after := Built(s.(dynamic := Some(Resolve.Good(Rename.Renamed(f, Rename.TncKind, t.id, to)))));
            after.Some? ==> RestartsNothing(PlanFor(rt, c, after.value))
  {
    TncRename(s, f, t, to, c);
    FollowedPlan(rt, c, Followed(c, t.id, to, t.name.None?), t.id, to);
  }
}

/** A pass acts on each bridge, and in it on each port, by itself: what a
    whole pass does to one of them is what its own entry does. */
module ReloadFolds {
  import opened Common
  import opened BridgeState
  import opened Config
  import opened Reconcile
  import opened PlanShape
  import opened Reload
  import Kicks

  lemma {:induction false} WithoutExact(s: seq<SessionView>, pass: Pass, rp: Option<RunningPort>, pp: PortPlan, nb: Bridge)
    ensures forall x :: x in Without(s, pass, rp, pp, nb) <==> x in s && !Ends(pass, rp, pp, nb, x.id)
    ensures Kicks.Distinguished(s) ==> Kicks.Distinguished(Without(s, pass, rp, pp, nb))
  {
    if |s| > 0 {
      var rest, last := s[..|s| - 1], s[|s| - 1];
      WithoutExact(rest, pass, rp, pp, nb);
      assert forall x :: x in s <==> x in rest || x == last by { assert s == rest + [last]; }
      assert Kicks.Distinguished(s) ==> forall x :: x in rest ==> x.id != last.id && x.seqNo != last.seqNo;
    }
  }

  /** A port with no entry is left alone. */
  lemma {:induction false} OtherPort(pass: Pass, rb: RunningBridge, pps: seq<PortPlan>, nb: Bridge, broken: Broken, p: string)
    requires forall pp :: pp in pps ==> pp.id != p
    ensures PortOf(PortSteps(pass, rb, pps, nb, broken), p) == PortOf(rb, p)
    ensures PortSteps(pass, rb, pps, nb, broken).cfg == rb.cfg
  {
    if |pps| > 0 {
      assert pps[|pps| - 1] in pps;
      OtherPort(pass, rb, pps[..|pps| - 1], nb, broken, p);
    }
  }

  lemma InitPlans(pps: seq<PortPlan>)
    requires |pps| > 0 && UniquePlans(pps)
    ensures UniquePlans(pps[..|pps| - 1])
    ensures forall pp :: pp in pps[..|pps| - 1] ==> pp.id != pps[|pps| - 1].id
    ensures pps == pps[..|pps| - 1] + [pps[|pps| - 1]]
  {
  }

  /** A port with an entry gets what the entry says. */
  lemma {:induction false} OwnPort(pass: Pass, rb: RunningBridge, pps: seq<PortPlan>, nb: Bridge, broken: Broken, pp: PortPlan)
    requires UniquePlans(pps) && pp in pps
    ensures PortOf(PortSteps(pass, rb, pps, nb, broken), pp.id) == PortAfter(pass, PortOf(rb, pp.id), pp, nb, broken)
  {
    InitPlans(pps);
    var init, last := pps[..|pps| - 1], pps[|pps| - 1];
    if pp == last {
      OtherPort(pass, rb, init, nb, broken, pp.id);
    } else {
      OwnPort(pass, rb, init, nb, broken, pp);
    }
  }

  ghost predicate Ended(pass: Pass, rb: RunningBridge, pps: seq<PortPlan>, nb: Bridge, s: SessionId) {
    exists pp :: pp in pps && Ends(pass, PortOf(rb, pp.id), pp, nb, s)
  }

  /** A session ends when some port's entry ends it. */
  lemma {:induction false} SessionsThrough(pass: Pass, rb: RunningBridge, pps: seq<PortPlan>, nb: Bridge, broken: Broken)
    requires UniquePlans(pps)
    ensures forall x :: x in PortSteps(pass, rb, pps, nb, broken).sessions <==>
              x in rb.sessions && !Ended(pass, rb, pps, nb, x.id)
    ensures Kicks.Distinguished(rb.sessions) ==> Kicks.Distinguished(PortSteps(pass, rb, pps, nb, broken).sessions)
  {
    if |pps| > 0 {
      InitPlans(pps);
      var init, last := pps[..|pps| - 1], pps[|pps| - 1];
      SessionsThrough(pass, rb, init, nb, broken);
      OtherPort(pass, rb, init, nb, broken, last.id);
      var before := PortSteps(pass, rb, init, nb, broken);
      WithoutExact(before.sessions, pass, PortOf(before, last.id), last, nb);
    }
  }

  ghost predicate Reconnected(pass: Pass, rb: RunningBridge, pps: seq<PortPlan>, nb: Bridge, broken: Broken) {
    exists pp :: pp in pps && Reconnects(pass, PortOf(rb, pp.id), pp, nb, broken)
  }

  lemma {:induction false} StepsKeep(pass: Pass, rb: RunningBridge, pps: seq<PortPlan>, nb: Bridge, broken: Broken)
    ensures var after := PortSteps(pass, rb, pps, nb, broken);
            && after.cfg == rb.cfg && after.settings == rb.settings && after.held == rb.held
            && (|rb.sessions| == 0 ==> |after.sessions| == 0)
  {
    if |pps| > 0 { StepsKeep(pass, rb, pps[..|pps| - 1], nb, broken); }
  }

  /** The link goes when some port's entry gives it a new connector, or when
      the last session leaves a bridge that then lets it go. */
  lemma {:induction false} LinkThrough(pass: Pass, rb: RunningBridge, pps: seq<PortPlan>, nb: Bridge, broken: Broken)
    requires UniquePlans(pps)
    ensures var after := PortSteps(pass, rb, pps, nb, broken);
            after.linkUp <==> rb.linkUp && !Reconnected(pass, rb, pps, nb, broken) && !LastLeaves(rb, after.sessions)
  {
    if |pps| > 0 {
      InitPlans(pps);
      var init, last := pps[..|pps| - 1], pps[|pps| - 1];
      LinkThrough(pass, rb, init, nb, broken);
      OtherPort(pass, rb, init, nb, broken, last.id);
      StepsKeep(pass, rb, init, nb, broken);
      var before := PortSteps(pass, rb, init, nb, broken);
      LeavesEither(rb, before, PortStep(pass, before, last, nb, broken).sessions);
      assert Reconnected(pass, rb, pps, nb, broken) <==>
             Reconnected(pass, rb, init, nb, broken) || Reconnects(pass, PortOf(rb, last.id), last, nb, broken);
    }
  }

  lemma LeavesEither(rb: RunningBridge, before: RunningBridge, left: seq<SessionView>)
    requires before.settings == rb.settings && before.held == rb.held && (|rb.sessions| == 0 ==> |before.sessions| == 0)
    requires |before.sessions| == 0 ==> |left| == 0
    ensures LastLeaves(rb, left) <==> LastLeaves(rb, before.sessions) || LastLeaves(before, left)
  {
  }

  lemma {:induction false} OtherBridge(pass: Pass, w: World, bps: seq<BridgePlan>, now: Config, broken: Broken, id: string)
    requires forall bp :: bp in bps ==> bp.id != id
    ensures Get(BridgeSteps(pass, w, bps, now, broken), id) == Get(w, id)
  {
    if |bps| > 0 {
      assert bps[|bps| - 1] in bps;
      OtherBridge(pass, w, bps[..|bps| - 1], now, broken, id);
    }
  }

  lemma InitEntries(bps: seq<BridgePlan>)
    requires |bps| > 0 && UniqueEntries(bps)
    ensures UniqueEntries(bps[..|bps| - 1])
    ensures forall bp :: bp in bps[..|bps| - 1] ==> bp.id != bps[|bps| - 1].id
    ensures bps == bps[..|bps| - 1] + [bps[|bps| - 1]]
  {
  }

  lemma {:induction false} OwnBridge(pass: Pass, w: World, bps: seq<BridgePlan>, now: Config, broken: Broken, bp: BridgePlan)
    requires UniqueEntries(bps) && bp in bps
    ensures Get(BridgeSteps(pass, w, bps, now, broken), bp.id) == BridgeStep(pass, Get(w, bp.id), bp, now, broken)
  {
    InitEntries(bps);
    var init, last := bps[..|bps| - 1], bps[|bps| - 1];
    if bp == last {
      OtherBridge(pass, w, init, now, broken, bp.id);
    } else {
      OwnBridge(pass, w, init, now, broken, bp);
    }
  }

  /** What `apply` makes of a bridge. */
  function BridgeAfter(rb: Option<RunningBridge>, bp: BridgePlan, now: Config, broken: Broken): Option<RunningBridge> {
    var stopped := BridgeStep(Stops, rb, bp, now, broken);
    var updated := BridgeStep(Updates, stopped, bp, now, broken);
    BridgeStep(Starts, updated, bp, now, broken)
  }

  function RefreshedOption(rb: Option<RunningBridge>, id: string, now: Config): Option<RunningBridge> {
    if rb.Some? then Some(Refreshed(rb.value, id, now)) else None
  }

  lemma AppliedToBridge(w: World, plan: Plan, now: Config, broken: Broken, bp: BridgePlan)
    requires UniqueEntries(plan.bridges) && bp in plan.bridges
    ensures Get(Applied(w, plan, now, broken), bp.id) ==
            RefreshedOption(BridgeAfter(Get(w, bp.id), bp, now, broken), bp.id, now)
  {
    var stopped := BridgeSteps(Stops, w, plan.bridges, now, broken);
    var updated := BridgeSteps(Updates, stopped, plan.bridges, now, broken);
    OwnBridge(Stops, w, plan.bridges, now, broken, bp);
    OwnBridge(Updates, stopped, plan.bridges, now, broken, bp);
    OwnBridge(Starts, updated, plan.bridges, now, broken, bp);
  }

  lemma AppliedToOther(w: World, plan: Plan, now: Config, broken: Broken, id: string)
    requires forall bp :: bp in plan.bridges ==> bp.id != id
    ensures Get(Applied(w, plan, now, broken), id) == RefreshedOption(Get(w, id), id, now)
  {
    var stopped := BridgeSteps(Stops, w, plan.bridges, now, broken);
    var updated := BridgeSteps(Updates, stopped, plan.bridges, now, broken);
    OtherBridge(Stops, w, plan.bridges, now, broken, id);
    OtherBridge(Updates, stopped, plan.bridges, now, broken, id);
    OtherBridge(Starts, updated, plan.bridges, now, broken, id);
  }
}

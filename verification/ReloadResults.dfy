/** The main results about a reload. */
module ReloadResults {
  import opened Common
  import opened Sorting
  import opened BridgeState
  import opened Config
  import opened Reconcile
  import opened PlanShape
  import opened Reload
  import opened ReloadFolds
  import opened ReloadEffects
  import Kicks
  import V = Validate

  // ── Sessions of a bridge that stays ─────────────────────────────────

  lemma EndedSame(pass: Pass, rb: RunningBridge, from: RunningBridge, pps: seq<PortPlan>, nb: Bridge, s: SessionId)
    requires from.ports == rb.ports
    ensures Ended(pass, rb, pps, nb, s) <==> Ended(pass, from, pps, nb, s)
  {
    forall p ensures PortOf(from, p) == PortOf(rb, p) {}
  }

  lemma PassSessions(pass: Pass, rt: Runtime, ob: Bridge, nb: Bridge, bp: BridgePlan, rb: RunningBridge, broken: Broken)
    requires Planned(rt, ob, nb, bp)
    ensures forall x :: x in AfterPass(pass, rb, bp, nb, broken).sessions <==>
              x in rb.sessions && !Ended(pass, rb, bp.ports, nb, x.id)
    ensures Kicks.Distinguished(rb.sessions) ==> Kicks.Distinguished(AfterPass(pass, rb, bp, nb, broken).sessions)
    ensures pass == Starts ==> forall s :: !Ended(pass, rb, bp.ports, nb, s)
  {
    if bp.action == Updated {
      var from := if pass == Updates then Told(rb, bp, nb) else rb;
      SessionsThrough(pass, from, bp.ports, nb, broken);
      forall s ensures Ended(pass, rb, bp.ports, nb, s) <==> Ended(pass, from, bp.ports, nb, s) { EndedSame(pass, rb, from, bp.ports, nb, s); }
    } else {
      forall x ensures !Ended(pass, rb, bp.ports, nb, x) {
        forall pp | pp in bp.ports ensures !Ends(pass, PortOf(rb, pp.id), pp, nb, x) {
          var i :| 0 <= i < |bp.ports| && bp.ports[i] == pp;
          assert bp.ports[i].action == Unchanged;
        }
      }
    }
  }

  /** A port's entry lists only sessions of that port. */
  lemma ListsOwn(rt: Runtime, ob: Bridge, nb: Bridge, p: string, pp: PortPlan)
    requires PortEntry(rt, ob, nb, p) == Some(pp)
    ensures forall s :: s in pp.disconnects ==> s.port == p
  {
    FindPortExact(ob.ports, p);
    FindPortExact(nb.ports, p);
    Kicks.SessionsSane(rt, ob.id, p);
    var op, np := FindPort(ob.ports, p), FindPort(nb.ports, p);
    if op.Some? && np.Some? && pp.action != Restarted {
      var s := Sessions(rt, ob.id, p);
      Kicks.FoundFrom(rt, s, op.value, np.value);
      Kicks.KickListExact(Compared(rt, s, op.value, np.value).kick, p);
    }
  }

  /** So only a port's own entry ends its sessions. */
  lemma EndedByOwn(pass: Pass, rt: Runtime, ob: Bridge, nb: Bridge, bp: BridgePlan, rb: RunningBridge, s: SessionId)
    requires Planned(rt, ob, nb, bp)
    ensures Ended(pass, rb, bp.ports, nb, s) <==>
            var e := PortEntry(rt, ob, nb, s.port); e.Some? && Ends(pass, PortOf(rb, s.port), e.value, nb, s)
  {
    EntryIds(rt, ob, nb, s.port);
    if Ended(pass, rb, bp.ports, nb, s) {
      var pp :| pp in bp.ports && Ends(pass, PortOf(rb, pp.id), pp, nb, s);
      ListsOwn(rt, ob, nb, pp.id, pp);
    }
  }

  predicate EndsSession(pp: PortPlan, s: SessionId) {
    pp.action == Stopped || pp.action == Restarted || (pp.action == Updated && s in pp.disconnects)
  }

  /** A session ends when its port stops or restarts, or when it is kicked. */
  lemma SessionThrough(rt: Runtime, ob: Bridge, nb: Bridge, bp: BridgePlan, rb: RunningBridge, broken: Broken, x: SessionView)
    requires Planned(rt, ob, nb, bp) && PortsFit(rb, ob) && SessionsFit(rb) && x in rb.sessions
    ensures PortEntry(rt, ob, nb, x.id.port).Some?
    ensures x in Through(rb, bp, nb, broken).sessions <==> !EndsSession(PortEntry(rt, ob, nb, x.id.port).value, x.id)
  {
    var s := x.id;
    assert PortFits(PortOf(rb, s.port), FindPort(ob.ports, s.port));
    var stopped := AfterPass(Stops, rb, bp, nb, broken);
    var updated := AfterPass(Updates, stopped, bp, nb, broken);
    PassSessions(Stops, rt, ob, nb, bp, rb, broken);
    EndedByOwn(Stops, rt, ob, nb, bp, rb, s);
    PassSessions(Updates, rt, ob, nb, bp, stopped, broken);
    EndedByOwn(Updates, rt, ob, nb, bp, stopped, s);
    PassSessions(Starts, rt, ob, nb, bp, updated.(cfg := nb), broken);
    EntryIds(rt, ob, nb, s.port);
  }

  lemma SessionsStayFit(rt: Runtime, ob: Bridge, nb: Bridge, bp: BridgePlan, rb: RunningBridge, broken: Broken)
    requires Planned(rt, ob, nb, bp) && PortsFit(rb, ob) && SessionsFit(rb)
    ensures SessionsFit(Through(rb, bp, nb, broken))
  {
    var after := Through(rb, bp, nb, broken);
    var stopped := AfterPass(Stops, rb, bp, nb, broken);
    var updated := AfterPass(Updates, stopped, bp, nb, broken).(cfg := nb);
    PassSessions(Stops, rt, ob, nb, bp, rb, broken);
    PassSessions(Updates, rt, ob, nb, bp, stopped, broken);
    PassSessions(Starts, rt, ob, nb, bp, updated, broken);
    forall x | x in after.sessions ensures PortOf(after, x.id.port).Some? && PortOf(after, x.id.port) != Some(TncPort) {
      assert x in rb.sessions;
      SessionPortStays(rt, ob, nb, bp, rb, broken, x);
    }
  }

  /** The port of a session that stays keeps running. */
  lemma SessionPortStays(rt: Runtime, ob: Bridge, nb: Bridge, bp: BridgePlan, rb: RunningBridge, broken: Broken, x: SessionView)
    requires Planned(rt, ob, nb, bp) && PortsFit(rb, ob) && SessionsFit(rb)
    requires x in rb.sessions && x in Through(rb, bp, nb, broken).sessions
    ensures var rp := PortOf(Through(rb, bp, nb, broken), x.id.port); rp.Some? && rp != Some(TncPort)
  {
    var p := x.id.port;
    var stopped := AfterPass(Stops, rb, bp, nb, broken);
    var updated := AfterPass(Updates, stopped, bp, nb, broken).(cfg := nb);
    SessionThrough(rt, ob, nb, bp, rb, broken, x);
    assert PortFits(PortOf(rb, p), FindPort(ob.ports, p));
    PassPort(Stops, rt, ob, nb, bp, rb, broken, p);
    PassPort(Updates, rt, ob, nb, bp, stopped, broken, p);
    PassPort(Starts, rt, ob, nb, bp, updated, broken, p);
  }

  lemma ThroughFits(rt: Runtime, ob: Bridge, nb: Bridge, bp: BridgePlan, rb: RunningBridge, broken: Broken)
    requires Planned(rt, ob, nb, bp) && PortsFit(rb, ob)
    ensures PortsFit(Through(rb, bp, nb, broken), nb) && Through(rb, bp, nb, broken).cfg == nb
  {
    var stopped := AfterPass(Stops, rb, bp, nb, broken);
    var updated := AfterPass(Updates, stopped, bp, nb, broken);
    StopsFit(rt, ob, nb, bp, rb, broken);
    PassFits(Updates, rt, ob, nb, bp, stopped, broken);
    forall p ensures PortFits(PortOf(updated.(cfg := nb), p), FindPort(nb.ports, p)) {
      assert PortFits(PortOf(updated, p), FindPort(nb.ports, p));
    }
    PassFits(Starts, rt, ob, nb, bp, updated.(cfg := nb), broken);
    StepsKeep(Starts, updated.(cfg := nb), bp.ports, nb, broken);
  }

  // ── What a reload keeps ─────────────────────────────────────────────

  lemma AfterConsistent(w: World, rt: Runtime, was: Config, now: Config, broken: Broken, id: string)
    requires V.Valid(was) && V.Valid(now) && Consistent(w, was)
    requires AfterOf(w, rt, was, now, broken, id).Some?
    ensures FindRunning(now, id).Some?
    ensures var rb, nb := AfterOf(w, rt, was, now, broken, id).value, FindRunning(now, id).value;
            PortsFit(rb, nb) && SessionsFit(rb) && rb.cfg == nb
  {
    var nb := FindRunning(now, id).value;
    if FindRunning(was, id).Some? {
      var ob := FindRunning(was, id).value;
      var bp := PlanBridge(rt, ob, nb);
      PlannedBridge(rt, was, now, id, ob, nb);
      ThroughFits(rt, ob, nb, bp, w[id], broken);
      SessionsStayFit(rt, ob, nb, bp, w[id], broken);
    } else {
      ValidUnique(now);
      FindBridgeExact(now.bridges, id);
      StartedFits(nb, broken);
    }
  }

  /** A reload leaves the daemon consistent with the new config, whatever
      wouldn't start. */
  lemma ReloadConsistent(w: World, rt: Runtime, was: Config, now: Config, broken: Broken)
    requires V.Valid(was) && V.Valid(now) && Consistent(w, was)
    ensures Consistent(Applied(w, PlanFor(rt, was, now), now, broken), now)
  {
    var after := Applied(w, PlanFor(rt, was, now), now, broken);
    forall id | id in after
      ensures FindRunning(now, id).Some? && PortsFit(after[id], FindRunning(now, id).value)
      ensures SessionsFit(after[id]) && after[id].cfg == FindRunning(now, id).value
    {
      AppliedExact(w, rt, was, now, broken, id);
      assert Get(after, id) == Some(after[id]);
      AfterConsistent(w, rt, was, now, broken, id);
    }
  }

  // ── What a reload ends ──────────────────────────────────────────────

  ghost predicate HasSession(w: World, id: string, x: SessionView) {
    id in w && x in w[id].sessions
  }

  /** `Plan::disconnects`, with the bridge each session is of. */
  ghost predicate Lists(plan: Plan, id: string, s: SessionId) {
    exists bp, pp :: bp in plan.bridges && bp.id == id && pp in bp.ports && s in pp.disconnects
  }

  /** A session on a port that restarts as a TNC port: the plan expects none
      there, so it doesn't list it. */
  ghost predicate Unlisted(rt: Runtime, was: Config, now: Config, id: string, s: SessionId) {
    var ob, nb := FindRunning(was, id), FindRunning(now, id);
    && ob.Some? && nb.Some?
    && var op, np := FindPort(ob.value.ports, s.port), FindPort(nb.value.ports, s.port);
       && op.Some? && np.Some? && np.value.role == TncRole
       && PlanPort(rt, ob.value.id, op.value, np.value).action == Restarted
  }

  ghost predicate BridgeLists(bp: BridgePlan, s: SessionId) {
    exists pp :: pp in bp.ports && s in pp.disconnects
  }

  lemma ListedByOwn(rt: Runtime, was: Config, now: Config, id: string, s: SessionId)
    requires V.WellDefined(was) && V.WellDefined(now)
    ensures Lists(PlanFor(rt, was, now), id, s) <==>
            var e := BridgeEntry(rt, was, now, id); e.Some? && BridgeLists(e.value, s)
  {
    var plan := PlanFor(rt, was, now);
    ValidUnique(was);
    ValidUnique(now);
    PlanExact(rt, was, now);
    EntryId(rt, was, now, id);
    var e := BridgeEntry(rt, was, now, id);
    if Lists(plan, id, s) {
      var bp, pp :| bp in plan.bridges && bp.id == id && pp in bp.ports && s in pp.disconnects;
      assert e == Some(bp);
    }
    if e.Some? && BridgeLists(e.value, s) {
      var pp :| pp in e.value.ports && s in pp.disconnects;
      assert e.value in plan.bridges;
    }
  }

  lemma SessionSeen(rt: Runtime, id: string, x: SessionView)
    requires id in rt.bridges && x in rt.bridges[id].sessions
    ensures x.id in Ids(Sessions(rt, id, x.id.port))
  {
    Kicks.OnPortExact(rt.bridges[id].sessions, x.id.port);
    var s := Sessions(rt, id, x.id.port);
    var k :| 0 <= k < |s| && s[k] == x;
    assert Ids(s)[k] == x.id;
  }

  /** A bridge that stops lists every session it has. */
  lemma StopLists(rt: Runtime, b: Bridge, rb: RunningBridge, x: SessionView)
    requires PortsFit(rb, b) && SessionsFit(rb) && x in rb.sessions
    requires b.id in rt.bridges && rt.bridges[b.id].sessions == rb.sessions
    ensures BridgeLists(PlanStopBridge(rt, b), x.id) && PlanStopBridge(rt, b).stopsInUse
  {
    var p := x.id.port;
    assert PortFits(PortOf(rb, p), FindPort(b.ports, p));
    var k := FindPortPlace(b, p);
    FindPortExact(b.ports, p);
    SessionSeen(rt, b.id, x);
    var pps := PlanStopBridge(rt, b).ports;
    assert pps[k] in pps && x.id in pps[k].disconnects;
  }

  /** A bridge that stays lists the sessions it ends, but for the unlisted. */
  lemma StayLists(rt: Runtime, ob: Bridge, nb: Bridge, bp: BridgePlan, rb: RunningBridge, x: SessionView)
    requires Planned(rt, ob, nb, bp) && PortsFit(rb, ob) && SessionsFit(rb) && x in rb.sessions
    requires ob.id in rt.bridges && rt.bridges[ob.id].sessions == rb.sessions
    requires PortEntry(rt, ob, nb, x.id.port).Some?
    ensures var e, np := PortEntry(rt, ob, nb, x.id.port).value, FindPort(nb.ports, x.id.port);
            && (BridgeLists(bp, x.id) <==> x.id in e.disconnects)
            && (x.id in e.disconnects <==>
                  EndsSession(e, x.id) && !(e.action == Restarted && np.Some? && np.value.role == TncRole))
  {
    var p := x.id.port;
    var e := PortEntry(rt, ob, nb, p).value;
    EntryIds(rt, ob, nb, p);
    assert e in bp.ports;
    assert PortFits(PortOf(rb, p), FindPort(ob.ports, p));
    FindPortExact(ob.ports, p);
    SessionSeen(rt, ob.id, x);
    if BridgeLists(bp, x.id) {
      var pp :| pp in bp.ports && x.id in pp.disconnects;
      ListsOwn(rt, ob, nb, pp.id, pp);
    }
    var op, np := FindPort(ob.ports, p), FindPort(nb.ports, p);
    if np.Some? && e.action == Unchanged { KeptPort(rt, ob.id, op.value, np.value); }
  }

  /** A reload ends exactly the sessions the plan lists and the unlisted ones,
      and no session is both. */
  lemma SessionsEnded(w: World, adapterMac: AdapterSel -> Option<Mac>, peerIp: string -> Option<Ip>,
                      was: Config, now: Config, broken: Broken, id: string, x: SessionView)
    requires V.Valid(was) && V.Valid(now) && Consistent(w, was) && HasSession(w, id, x)
    ensures var rt := RuntimeOf(w, adapterMac, peerIp); var plan := PlanFor(rt, was, now);
            && (!HasSession(Applied(w, plan, now, broken), id, x) <==>
                  Lists(plan, id, x.id) || Unlisted(rt, was, now, id, x.id))
            && !(Lists(plan, id, x.id) && Unlisted(rt, was, now, id, x.id))
  {
    var rt := RuntimeOf(w, adapterMac, peerIp);
    var ob := FindRunning(was, id).value;
    AppliedExact(w, rt, was, now, broken, id);
    ListedByOwn(rt, was, now, id, x.id);
    FindBridgeExact(was.bridges, id);
    if FindRunning(now, id).None? {
      StopLists(rt, ob, w[id], x);
    } else {
      var nb := FindRunning(now, id).value;
      var bp := PlanBridge(rt, ob, nb);
      PlannedBridge(rt, was, now, id, ob, nb);
      SessionThrough(rt, ob, nb, bp, w[id], broken, x);
      StayLists(rt, ob, nb, bp, w[id], x);
    }
  }

  // ── The TNC link ────────────────────────────────────────────────────

  /** A link in use is dropped. */
  ghost predicate LinkDropped(w: World, after: World, id: string) {
    id in w && w[id].linkUp && !(id in after && after[id].linkUp)
  }

  lemma ReconnectedSame(pass: Pass, rb: RunningBridge, from: RunningBridge, pps: seq<PortPlan>, nb: Bridge, broken: Broken)
    requires from.ports == rb.ports
    ensures Reconnected(pass, rb, pps, nb, broken) <==> Reconnected(pass, from, pps, nb, broken)
  {
    forall p ensures PortOf(from, p) == PortOf(rb, p) {}
  }

  lemma PassLink(pass: Pass, rt: Runtime, ob: Bridge, nb: Bridge, bp: BridgePlan, rb: RunningBridge, broken: Broken)
    requires Planned(rt, ob, nb, bp)
    ensures var from, after := if pass == Updates then Told(rb, bp, nb) else rb, AfterPass(pass, rb, bp, nb, broken);
            after.linkUp <==> from.linkUp && !Reconnected(pass, rb, bp.ports, nb, broken) && !LastLeaves(from, after.sessions)
    ensures pass != Updates ==> !Reconnected(pass, rb, bp.ports, nb, broken)
  {
    var from := if pass == Updates then Told(rb, bp, nb) else rb;
    if bp.action == Updated {
      LinkThrough(pass, from, bp.ports, nb, broken);
      ReconnectedSame(pass, rb, from, bp.ports, nb, broken);
    } else {
      UnchangedQuiet(pass, rt, ob, nb, bp, rb, broken);
    }
  }

  lemma UnchangedQuiet(pass: Pass, rt: Runtime, ob: Bridge, nb: Bridge, bp: BridgePlan, rb: RunningBridge, broken: Broken)
    requires Planned(rt, ob, nb, bp) && bp.action != Updated
    ensures !Reconnected(pass, rb, bp.ports, nb, broken) && !TncUpdated(rb, bp) && Told(rb, bp, nb) == rb
  {
    forall pp | pp in bp.ports ensures !Reconnects(pass, PortOf(rb, pp.id), pp, nb, broken) {
      var i :| 0 <= i < |bp.ports| && bp.ports[i] == pp;
      assert bp.ports[i].action == Unchanged;
    }
  }

  // What a plan says of a bridge that stays, in terms of its ports' entries.

  /** A running TNC port that restarts, and can. */
  ghost predicate LinkRestarts(rt: Runtime, ob: Bridge, nb: Bridge, rb: RunningBridge, broken: Broken, p: string) {
    var e, np := PortEntry(rt, ob, nb, p), FindPort(nb.ports, p);
    && PortOf(rb, p) == Some(TncPort) && e.Some? && e.value.action == Restarted
    && np.Some? && CanConnect(nb, np.value, broken)
  }

  ghost predicate TncNews(rt: Runtime, ob: Bridge, nb: Bridge, rb: RunningBridge, p: string) {
    var e := PortEntry(rt, ob, nb, p);
    PortOf(rb, p) == Some(TncPort) && e.Some? && e.value.action == Updated
  }

  /** The bridge is told its settings. */
  ghost predicate News(rt: Runtime, ob: Bridge, nb: Bridge, rb: RunningBridge) {
    ob.appParams != nb.appParams || exists p :: TncNews(rt, ob, nb, rb, p)
  }

  /** What it then goes by. */
  ghost function SettingsAfter(rt: Runtime, ob: Bridge, nb: Bridge, rb: RunningBridge): Settings {
    if News(rt, ob, nb, rb) && SettingsFor(nb).Some? then SettingsFor(nb).value else rb.settings
  }

  /** Every session is on a port that stops or restarts. */
  ghost predicate AllStop(rt: Runtime, ob: Bridge, nb: Bridge, rb: RunningBridge) {
    forall x :: x in rb.sessions ==>
      var e := PortEntry(rt, ob, nb, x.id.port); e.Some? && (e.value.action == Stopped || e.value.action == Restarted)
  }

  ghost predicate AllEnd(rt: Runtime, ob: Bridge, nb: Bridge, rb: RunningBridge) {
    forall x :: x in rb.sessions ==> var e := PortEntry(rt, ob, nb, x.id.port); e.Some? && EndsSession(e.value, x.id)
  }

  /** New settings close the link. */
  ghost predicate ClosedBySettings(rt: Runtime, ob: Bridge, nb: Bridge, rb: RunningBridge) {
    && News(rt, ob, nb, rb) && SettingsFor(nb).Some? && AllStop(rt, ob, nb, rb)
    && rb.settings.connect == Always && SettingsFor(nb).value.connect == OnDemand && SettingsFor(nb).value.idleTimeout == 0
  }

  /** The link goes with the last session: by the old settings if they all end
      with their ports, by the new ones if the rest are kicked. */
  ghost predicate ClosedByLast(rt: Runtime, ob: Bridge, nb: Bridge, rb: RunningBridge) {
    && |rb.sessions| > 0
    && if AllStop(rt, ob, nb, rb) then LetsGo(rb.held, rb.settings)
       else AllEnd(rt, ob, nb, rb) && LetsGo(rb.held, SettingsAfter(rt, ob, nb, rb))
  }

  lemma AppParamsNoted(rt: Runtime, ob: Bridge, nb: Bridge)
    ensures "app_params" in PlanBridge(rt, ob, nb).changes <==> ob.appParams != nb.appParams
    ensures ob.appParams != nb.appParams ==> PlanBridge(rt, ob, nb).action == Updated
  {
  }

  lemma NewsIff(rt: Runtime, ob: Bridge, nb: Bridge, bp: BridgePlan, rb: RunningBridge, broken: Broken)
    requires Planned(rt, ob, nb, bp)
    ensures TncUpdated(AfterPass(Stops, rb, bp, nb, broken), bp) <==> News(rt, ob, nb, rb)
    ensures News(rt, ob, nb, rb) ==> bp.action == Updated
  {
    var stopped := AfterPass(Stops, rb, bp, nb, broken);
    AppParamsNoted(rt, ob, nb);
    forall i | 0 <= i < |bp.ports| && bp.ports[i].action == Updated
      ensures PortOf(stopped, bp.ports[i].id) == Some(TncPort) <==> TncNews(rt, ob, nb, rb, bp.ports[i].id)
    {
      assert bp.ports[i] in bp.ports;
      PassPort(Stops, rt, ob, nb, bp, rb, broken, bp.ports[i].id);
    }
    forall p | TncNews(rt, ob, nb, rb, p) ensures TncUpdated(stopped, bp) && bp.action == Updated {
      EntryIds(rt, ob, nb, p);
      var e := PortEntry(rt, ob, nb, p).value;
      assert e in bp.ports;
      var k :| 0 <= k < |bp.ports| && bp.ports[k] == e;
      assert bp.ports[k].action == Updated;
    }
  }

  lemma StopsEmpty(rt: Runtime, ob: Bridge, nb: Bridge, bp: BridgePlan, rb: RunningBridge, broken: Broken)
    requires Planned(rt, ob, nb, bp) && PortsFit(rb, ob) && SessionsFit(rb)
    ensures |AfterPass(Stops, rb, bp, nb, broken).sessions| == 0 <==> AllStop(rt, ob, nb, rb)
  {
    var left := AfterPass(Stops, rb, bp, nb, broken).sessions;
    PassSessions(Stops, rt, ob, nb, bp, rb, broken);
    forall x | x in rb.sessions
      ensures var e := PortEntry(rt, ob, nb, x.id.port);
              x in left <==> !(e.Some? && (e.value.action == Stopped || e.value.action == Restarted))
    {
      EndedByOwn(Stops, rt, ob, nb, bp, rb, x.id);
      EntryIds(rt, ob, nb, x.id.port);
    }
    EmptyIff(left, rb.sessions);
  }

  lemma EmptyIff(left: seq<SessionView>, all: seq<SessionView>)
    requires forall x :: x in left ==> x in all
    ensures |left| == 0 <==> forall x :: x in all ==> x !in left
  {
    if |left| > 0 { assert left[0] in left; }
  }

  lemma AllEmpty(rt: Runtime, ob: Bridge, nb: Bridge, bp: BridgePlan, rb: RunningBridge, broken: Broken)
    requires Planned(rt, ob, nb, bp) && PortsFit(rb, ob) && SessionsFit(rb)
    ensures |Through(rb, bp, nb, broken).sessions| == 0 <==> AllEnd(rt, ob, nb, rb)
  {
    var left := Through(rb, bp, nb, broken).sessions;
    SessionsShrink(rt, ob, nb, bp, rb, broken);
    forall x | x in rb.sessions
      ensures var e := PortEntry(rt, ob, nb, x.id.port); e.Some? && (x in left <==> !EndsSession(e.value, x.id))
    {
      SessionThrough(rt, ob, nb, bp, rb, broken, x);
    }
    EmptyIff(left, rb.sessions);
  }

  /** A reload opens no session. */
  lemma SessionsShrink(rt: Runtime, ob: Bridge, nb: Bridge, bp: BridgePlan, rb: RunningBridge, broken: Broken)
    requires Planned(rt, ob, nb, bp)
    ensures forall x :: x in Through(rb, bp, nb, broken).sessions ==> x in rb.sessions
    ensures Through(rb, bp, nb, broken).sessions == AfterPass(Updates, AfterPass(Stops, rb, bp, nb, broken), bp, nb, broken).sessions
  {
    var stopped := AfterPass(Stops, rb, bp, nb, broken);
    var updated := AfterPass(Updates, stopped, bp, nb, broken).(cfg := nb);
    PassSessions(Stops, rt, ob, nb, bp, rb, broken);
    PassSessions(Updates, rt, ob, nb, bp, stopped, broken);
    StartsKeepSessions(updated, bp.ports, nb, broken);
  }

  lemma {:induction false} StartsKeepSessions(rb: RunningBridge, pps: seq<PortPlan>, nb: Bridge, broken: Broken)
    ensures PortSteps(Starts, rb, pps, nb, broken).sessions == rb.sessions
  {
    if |pps| > 0 {
      StartsKeepSessions(rb, pps[..|pps| - 1], nb, broken);
      var before := PortSteps(Starts, rb, pps[..|pps| - 1], nb, broken);
      NothingEnds(before.sessions, Starts, PortOf(before, pps[|pps| - 1].id), pps[|pps| - 1], nb);
    }
  }

  lemma {:induction false} NothingEnds(s: seq<SessionView>, pass: Pass, rp: Option<RunningPort>, pp: PortPlan, nb: Bridge)
    requires forall x: SessionId :: !Ends(pass, rp, pp, nb, x)
    ensures Without(s, pass, rp, pp, nb) == s
  {
    if |s| > 0 {
      NothingEnds(s[..|s| - 1], pass, rp, pp, nb);
      assert s == s[..|s| - 1] + [s[|s| - 1]];
    }
  }

  lemma RestartsIff(rt: Runtime, ob: Bridge, nb: Bridge, bp: BridgePlan, rb: RunningBridge, broken: Broken)
    requires Planned(rt, ob, nb, bp)
    ensures Reconnected(Updates, AfterPass(Stops, rb, bp, nb, broken), bp.ports, nb, broken) <==>
            exists p :: LinkRestarts(rt, ob, nb, rb, broken, p)
  {
    var stopped := AfterPass(Stops, rb, bp, nb, broken);
    forall p | LinkRestarts(rt, ob, nb, rb, broken, p) ensures Reconnected(Updates, stopped, bp.ports, nb, broken) {
      PassPort(Stops, rt, ob, nb, bp, rb, broken, p);
      EntryIds(rt, ob, nb, p);
      var pp := PortEntry(rt, ob, nb, p).value;
      assert Reconnects(Updates, PortOf(stopped, p), pp, nb, broken);
      assert pp in bp.ports;
    }
    if Reconnected(Updates, stopped, bp.ports, nb, broken) {
      var pp :| pp in bp.ports && Reconnects(Updates, PortOf(stopped, pp.id), pp, nb, broken);
      PassPort(Stops, rt, ob, nb, bp, rb, broken, pp.id);
      assert LinkRestarts(rt, ob, nb, rb, broken, pp.id);
    }
  }

  lemma StopsKeep(rb: RunningBridge, bp: BridgePlan, nb: Bridge, broken: Broken)
    ensures var stopped := AfterPass(Stops, rb, bp, nb, broken);
            stopped.settings == rb.settings && stopped.held == rb.held
  {
    StepsKeep(Stops, rb, bp.ports, nb, broken);
  }

  /** A bridge that stays drops its link when a running TNC port restarts, when
      its new settings close it, or when the last session leaves it. */
  lemma LinkOfThrough(rt: Runtime, ob: Bridge, nb: Bridge, bp: BridgePlan, rb: RunningBridge, broken: Broken)
    requires Planned(rt, ob, nb, bp) && PortsFit(rb, ob) && SessionsFit(rb)
    ensures Through(rb, bp, nb, broken).linkUp <==>
            && rb.linkUp && (forall p :: !LinkRestarts(rt, ob, nb, rb, broken, p))
            && !ClosedBySettings(rt, ob, nb, rb) && !ClosedByLast(rt, ob, nb, rb)
  {
    var stopped := AfterPass(Stops, rb, bp, nb, broken);
    var updated := AfterPass(Updates, stopped, bp, nb, broken);
    PassLink(Stops, rt, ob, nb, bp, rb, broken);
    PassLink(Updates, rt, ob, nb, bp, stopped, broken);
    PassLink(Starts, rt, ob, nb, bp, updated.(cfg := nb), broken);
    RestartsIff(rt, ob, nb, bp, rb, broken);
    NewsIff(rt, ob, nb, bp, rb, broken);
    StopsKeep(rb, bp, nb, broken);
    StopsEmpty(rt, ob, nb, bp, rb, broken);
    AllEmpty(rt, ob, nb, bp, rb, broken);
    SessionsShrink(rt, ob, nb, bp, rb, broken);
    PassSessions(Stops, rt, ob, nb, bp, rb, broken);
    assert |stopped.sessions| > 0 ==> stopped.sessions[0] in rb.sessions;
  }

  // ── Disruptions ─────────────────────────────────────────────────────

  ghost predicate InPorts(bridge: string, pps: seq<PortPlan>, d: Disruption) {
    match d
    case StopInUse(_) => false
    case Disconnect(b, s) => b == bridge && exists pp :: pp in pps && s in pp.disconnects
    case RestartTnc(b, p) => b == bridge && exists pp :: pp in pps && pp.id == p && pp.dropsTncLink
  }

  lemma InPort(bridge: string, pp: PortPlan, d: Disruption)
    ensures d in PortDisruptions(bridge, pp) <==>
            match d
            case StopInUse(_) => false
            case Disconnect(b, s) => b == bridge && s in pp.disconnects
            case RestartTnc(b, p) => b == bridge && pp.id == p && pp.dropsTncLink
  {
    if d.Disconnect? && d.bridge == bridge && d.session in pp.disconnects {
      var i :| 0 <= i < |pp.disconnects| && pp.disconnects[i] == d.session;
      assert PortDisruptions(bridge, pp)[i] == d;
    }
  }

  lemma {:induction false} InPortsExact(bridge: string, pps: seq<PortPlan>, d: Disruption)
    ensures d in PortsDisruptions(bridge, pps) <==> InPorts(bridge, pps, d)
  {
    if |pps| > 0 {
      InPortsExact(bridge, pps[..|pps| - 1], d);
      InPort(bridge, pps[|pps| - 1], d);
      assert pps == pps[..|pps| - 1] + [pps[|pps| - 1]];
    }
  }

  ghost predicate InBridges(bps: seq<BridgePlan>, d: Disruption) {
    exists bp :: bp in bps && if d.StopInUse? then d.bridge == bp.id && bp.stopsInUse else InPorts(bp.id, bp.ports, d)
  }

  /** The disruptions are those of the plan's entries. */
  lemma {:induction false} DisruptionsExact(bps: seq<BridgePlan>, d: Disruption)
    ensures d in BridgesDisruptions(bps) <==> InBridges(bps, d)
  {
    if |bps| > 0 {
      var init, last := bps[..|bps| - 1], bps[|bps| - 1];
      DisruptionsExact(init, d);
      InPortsExact(last.id, last.ports, d);
      assert bps == init + [last];
    }
  }

  /** A running TNC port that restarts in place, under a role in the new
      config, with a connector to restart with. */
  ghost predicate RestartsAs(rt: Runtime, was: Config, now: Config, w: World, broken: Broken, id: string, p: string, role: Role) {
    var ob, nb := FindRunning(was, id), FindRunning(now, id);
    && id in w && ob.Some? && nb.Some? && PortOf(w[id], p) == Some(TncPort)
    && var op, np := FindPort(ob.value.ports, p), FindPort(nb.value.ports, p);
       && op.Some? && np.Some? && np.value.role == role && CanConnect(nb.value, np.value, broken)
       && PlanPort(rt, ob.value.id, op.value, np.value).action == Restarted
  }

  /** As a TNC port it is one the plan lists... */
  ghost predicate ListedLink(rt: Runtime, was: Config, now: Config, w: World, broken: Broken, id: string, p: string) {
    RestartsAs(rt, was, now, w, broken, id, p, TncRole)
  }

  /** ...as an app port it isn't: the plan takes no link to be there. */
  ghost predicate UnlistedLink(rt: Runtime, was: Config, now: Config, w: World, broken: Broken, id: string, p: string) {
    RestartsAs(rt, was, now, w, broken, id, p, AppRole)
  }

  lemma RestartsEither(rt: Runtime, was: Config, now: Config, w: World, broken: Broken, id: string, p: string, ob: Bridge, nb: Bridge)
    requires id in w && FindRunning(was, id) == Some(ob) && FindRunning(now, id) == Some(nb) && PortsFit(w[id], ob)
    ensures LinkRestarts(rt, ob, nb, w[id], broken, p) <==>
            ListedLink(rt, was, now, w, broken, id, p) || UnlistedLink(rt, was, now, w, broken, id, p)
  {
    assert PortFits(PortOf(w[id], p), FindPort(ob.ports, p));
  }

  /** What the plan says of a bridge's link. */
  lemma PlanOnLink(rt: Runtime, was: Config, now: Config, id: string, bp: BridgePlan)
    requires V.WellDefined(was) && V.WellDefined(now) && BridgeEntry(rt, was, now, id) == Some(bp)
    ensures StopInUse(id) in Disruptions(PlanFor(rt, was, now)) <==> bp.stopsInUse
    ensures forall p :: RestartTnc(id, p) in Disruptions(PlanFor(rt, was, now)) <==>
              exists pp :: pp in bp.ports && pp.id == p && pp.dropsTncLink
    ensures forall s :: Disconnect(id, s) in Disruptions(PlanFor(rt, was, now)) <==> BridgeLists(bp, s)
  {
    var bps := PlanFor(rt, was, now).bridges;
    ValidUnique(was);
    ValidUnique(now);
    EntryId(rt, was, now, id);
    EntryExact(rt, was, now, bp);
    OnlyEntry(rt, was, now, id, bp);
    DisruptionsExact(bps, StopInUse(id));
    forall p ensures RestartTnc(id, p) in BridgesDisruptions(bps) <==> exists pp :: pp in bp.ports && pp.id == p && pp.dropsTncLink {
      DisruptionsExact(bps, RestartTnc(id, p));
      InEntry(bps, bp, RestartTnc(id, p));
    }
    forall s ensures Disconnect(id, s) in BridgesDisruptions(bps) <==> BridgeLists(bp, s) {
      DisruptionsExact(bps, Disconnect(id, s));
      InEntry(bps, bp, Disconnect(id, s));
      assert InPorts(id, bp.ports, Disconnect(id, s)) <==> BridgeLists(bp, s);
    }
  }

  lemma OnlyEntry(rt: Runtime, was: Config, now: Config, id: string, bp: BridgePlan)
    requires UniqueBridges(was.bridges) && UniqueBridges(now.bridges) && BridgeEntry(rt, was, now, id) == Some(bp)
    ensures forall b :: b in PlanFor(rt, was, now).bridges && b.id == id ==> b == bp
  {
    forall b | b in PlanFor(rt, was, now).bridges && b.id == id ensures b == bp { EntryExact(rt, was, now, b); }
  }

  /** A disruption of a bridge is in that bridge's own entry. */
  lemma InEntry(bps: seq<BridgePlan>, bp: BridgePlan, d: Disruption)
    requires bp in bps && d.bridge == bp.id && !d.StopInUse? && forall b :: b in bps && b.id == bp.id ==> b == bp
    ensures InBridges(bps, d) <==> InPorts(bp.id, bp.ports, d)
  {
  }

  /** The plan lists a running TNC port's restart exactly when the port stays
      a TNC port. */
  lemma ListedOrNot(rt: Runtime, was: Config, now: Config, w: World, broken: Broken, id: string, p: string)
    requires V.WellDefined(was) && V.WellDefined(now) && id in rt.bridges && rt.bridges[id].tncActive
    ensures ListedLink(rt, was, now, w, broken, id, p) ==> RestartTnc(id, p) in Disruptions(PlanFor(rt, was, now))
    ensures UnlistedLink(rt, was, now, w, broken, id, p) ==> RestartTnc(id, p) !in Disruptions(PlanFor(rt, was, now))
  {
    var ob, nb := FindRunning(was, id), FindRunning(now, id);
    if ob.Some? && nb.Some? {
      var bp := PlanBridge(rt, ob.value, nb.value);
      PlannedBridge(rt, was, now, id, ob.value, nb.value);
      PlanOnLink(rt, was, now, id, bp);
      EntryIds(rt, ob.value, nb.value, p);
      var e := PortEntry(rt, ob.value, nb.value, p);
      assert forall pp :: pp in bp.ports && pp.id == p ==> e == Some(pp);
      if e.Some? { assert e.value in bp.ports; }
    }
  }

  /** The settings a reload sends close the bridge's link; plans don't look at
      that. */
  ghost predicate SettingsDrop(rt: Runtime, was: Config, now: Config, w: World, id: string) {
    var ob, nb := FindRunning(was, id), FindRunning(now, id);
    id in w && ob.Some? && nb.Some? && ClosedBySettings(rt, ob.value, nb.value, w[id])
  }

  /** The sessions a reload ends are the last the bridge had, and it lets the
      link go with them; plans list the sessions, not the link. */
  ghost predicate LastDrop(rt: Runtime, was: Config, now: Config, w: World, id: string) {
    var ob, nb := FindRunning(was, id), FindRunning(now, id);
    id in w && ob.Some? && nb.Some? && ClosedByLast(rt, ob.value, nb.value, w[id])
  }

  lemma DroppedStaying(w: World, rt: Runtime, was: Config, now: Config, broken: Broken, id: string, ob: Bridge, nb: Bridge)
    requires V.WellDefined(was) && V.WellDefined(now) && id in w && PortsFit(w[id], ob) && SessionsFit(w[id])
    requires FindRunning(was, id) == Some(ob) && FindRunning(now, id) == Some(nb)
    ensures Through(w[id], PlanBridge(rt, ob, nb), nb, broken).linkUp <==>
            && w[id].linkUp
            && !(exists p :: ListedLink(rt, was, now, w, broken, id, p))
            && !(exists p :: UnlistedLink(rt, was, now, w, broken, id, p))
            && !SettingsDrop(rt, was, now, w, id) && !LastDrop(rt, was, now, w, id)
  {
    PlannedBridge(rt, was, now, id, ob, nb);
    LinkOfThrough(rt, ob, nb, PlanBridge(rt, ob, nb), w[id], broken);
    forall p ensures LinkRestarts(rt, ob, nb, w[id], broken, p) <==>
                     ListedLink(rt, was, now, w, broken, id, p) || UnlistedLink(rt, was, now, w, broken, id, p)
    {
      RestartsEither(rt, was, now, w, broken, id, p, ob, nb);
    }
  }

  lemma DroppedByBridge(w: World, rt: Runtime, was: Config, now: Config, broken: Broken, id: string)
    requires V.WellDefined(was) && V.WellDefined(now) && Consistent(w, was) && id in w && w[id].linkUp
    ensures LinkDropped(w, Applied(w, PlanFor(rt, was, now), now, broken), id) <==>
            || FindRunning(now, id).None?
            || (exists p :: ListedLink(rt, was, now, w, broken, id, p))
            || (exists p :: UnlistedLink(rt, was, now, w, broken, id, p))
            || SettingsDrop(rt, was, now, w, id) || LastDrop(rt, was, now, w, id)
  {
    AppliedExact(w, rt, was, now, broken, id);
    if FindRunning(now, id).Some? {
      DroppedStaying(w, rt, was, now, broken, id, FindRunning(was, id).value, FindRunning(now, id).value);
    }
  }

  /** A reload drops a link in use exactly when its plan lists the bridge's
      stop, or the restart of a running TNC port that has a connector; when a
      running TNC port restarts as an app port, which no plan lists; when the
      settings it sends close the link; or when it ends the last session of a
      bridge that lets the link go at once. */
  lemma LinksDropped(w: World, adapterMac: AdapterSel -> Option<Mac>, peerIp: string -> Option<Ip>,
                     was: Config, now: Config, broken: Broken, id: string)
    requires V.Valid(was) && V.Valid(now) && Consistent(w, was) && id in w && w[id].linkUp
    ensures var rt := RuntimeOf(w, adapterMac, peerIp); var plan := PlanFor(rt, was, now);
            && (LinkDropped(w, Applied(w, plan, now, broken), id) <==>
                  || StopInUse(id) in Disruptions(plan)
                  || (exists p :: ListedLink(rt, was, now, w, broken, id, p))
                  || (exists p :: UnlistedLink(rt, was, now, w, broken, id, p))
                  || SettingsDrop(rt, was, now, w, id) || LastDrop(rt, was, now, w, id))
            && (forall p :: ListedLink(rt, was, now, w, broken, id, p) ==> RestartTnc(id, p) in Disruptions(plan))
            && (forall p :: UnlistedLink(rt, was, now, w, broken, id, p) ==> RestartTnc(id, p) !in Disruptions(plan))
  {
    var rt := RuntimeOf(w, adapterMac, peerIp);
    DroppedByBridge(w, rt, was, now, broken, id);
    StopListed(rt, was, now, id);
    forall p
      ensures ListedLink(rt, was, now, w, broken, id, p) ==> RestartTnc(id, p) in Disruptions(PlanFor(rt, was, now))
      ensures UnlistedLink(rt, was, now, w, broken, id, p) ==> RestartTnc(id, p) !in Disruptions(PlanFor(rt, was, now))
    {
      ListedOrNot(rt, was, now, w, broken, id, p);
    }
  }

  lemma StopListed(rt: Runtime, was: Config, now: Config, id: string)
    requires V.WellDefined(was) && V.WellDefined(now) && FindRunning(was, id).Some? && id in rt.bridges && rt.bridges[id].tncActive
    ensures StopInUse(id) in Disruptions(PlanFor(rt, was, now)) <==> FindRunning(now, id).None?
  {
    FindBridgeExact(was.bridges, id);
    PlanOnLink(rt, was, now, id, BridgeEntry(rt, was, now, id).value);
  }

  lemma QuietSession(rt: Runtime, was: Config, now: Config, id: string, s: SessionId)
    requires V.WellDefined(was) && V.WellDefined(now) && Disruptions(PlanFor(rt, was, now)) == []
    ensures !Lists(PlanFor(rt, was, now), id, s)
  {
    ListedByOwn(rt, was, now, id, s);
    var e := BridgeEntry(rt, was, now, id);
    if e.Some? { PlanOnLink(rt, was, now, id, e.value); }
  }

  /** So a plan without disruptions ends exactly the sessions and drops exactly
      the links it can't see. */
  lemma NonDisruptive(w: World, adapterMac: AdapterSel -> Option<Mac>, peerIp: string -> Option<Ip>,
                      was: Config, now: Config, broken: Broken)
    requires V.Valid(was) && V.Valid(now) && Consistent(w, was)
    requires Disruptions(PlanFor(RuntimeOf(w, adapterMac, peerIp), was, now)) == []
    ensures var rt := RuntimeOf(w, adapterMac, peerIp); var after := Applied(w, PlanFor(rt, was, now), now, broken);
            && (forall id, x :: HasSession(w, id, x) ==> (!HasSession(after, id, x) <==> Unlisted(rt, was, now, id, x.id)))
            && (forall id :: id in w && w[id].linkUp ==>
                  (LinkDropped(w, after, id) <==>
                     || (exists p :: UnlistedLink(rt, was, now, w, broken, id, p))
                     || SettingsDrop(rt, was, now, w, id) || LastDrop(rt, was, now, w, id)))
  {
    var rt := RuntimeOf(w, adapterMac, peerIp);
    var after := Applied(w, PlanFor(rt, was, now), now, broken);
    forall id, x | HasSession(w, id, x) ensures !HasSession(after, id, x) <==> Unlisted(rt, was, now, id, x.id) {
      SessionsEnded(w, adapterMac, peerIp, was, now, broken, id, x);
      QuietSession(rt, was, now, id, x.id);
    }
    forall id | id in w && w[id].linkUp
      ensures LinkDropped(w, after, id) <==>
              || (exists p :: UnlistedLink(rt, was, now, w, broken, id, p))
              || SettingsDrop(rt, was, now, w, id) || LastDrop(rt, was, now, w, id)
    {
      LinksDropped(w, adapterMac, peerIp, was, now, broken, id);
    }
  }

  lemma {:induction false} QuietPorts(bridge: string, pps: seq<PortPlan>)
    requires forall pp :: pp in pps ==> pp.disconnects == [] && !pp.dropsTncLink
    ensures PortsDisruptions(bridge, pps) == []
  {
    if |pps| > 0 {
      QuietPorts(bridge, pps[..|pps| - 1]);
      assert pps[|pps| - 1] in pps;
    }
  }

  lemma {:induction false} QuietBridges(bps: seq<BridgePlan>)
    requires forall bp, pp :: bp in bps && pp in bp.ports ==> pp.disconnects == [] && !pp.dropsTncLink
    requires forall bp :: bp in bps ==> !bp.stopsInUse
    ensures BridgesDisruptions(bps) == []
  {
    if |bps| > 0 {
      QuietBridges(bps[..|bps| - 1]);
      assert bps[|bps| - 1] in bps;
      QuietPorts(bps[|bps| - 1].id, bps[|bps| - 1].ports);
    }
  }
}

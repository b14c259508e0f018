/** What is in a plan: one entry per bridge and port concerned, for valid
    configs. */
module PlanShape {
  import opened Common
  import opened Sorting
  import opened BridgeState
  import opened Config
  import opened Reconcile
  import V = Validate

  // ── Looking up by id ────────────────────────────────────────────────

  ghost predicate UniquePorts(ports: seq<Port>) {
    forall i, j :: 0 <= i < j < |ports| ==> ports[i].id != ports[j].id
  }

  ghost predicate UniqueBridges(bridges: seq<Bridge>) {
    forall i, j :: 0 <= i < j < |bridges| ==> bridges[i].id != bridges[j].id
  }

  lemma {:induction false} FindPortExact(ports: seq<Port>, id: string)
    ensures FindPort(ports, id).Some? ==> FindPort(ports, id).value in ports && FindPort(ports, id).value.id == id
    ensures FindPort(ports, id).None? ==> forall p :: p in ports ==> p.id != id
    ensures UniquePorts(ports) ==> forall p :: p in ports && p.id == id ==> FindPort(ports, id) == Some(p)
  {
    if |ports| > 0 && ports[0].id != id { FindPortExact(ports[1..], id); }
  }

  lemma {:induction false} FindBridgeExact(bridges: seq<Bridge>, id: string)
    ensures FindBridge(bridges, id).Some? ==> FindBridge(bridges, id).value in bridges && FindBridge(bridges, id).value.id == id
    ensures FindBridge(bridges, id).None? ==> forall b :: b in bridges ==> b.id != id
    ensures UniqueBridges(bridges) ==> forall b :: b in bridges && b.id == id ==> FindBridge(bridges, id) == Some(b)
  {
    if |bridges| > 0 && bridges[0].id != id { FindBridgeExact(bridges[1..], id); }
  }

  lemma ValidUnique(c: Config)
    requires V.WellDefined(c)
    ensures UniqueBridges(c.bridges)
    ensures forall b :: b in c.bridges ==> UniquePorts(b.ports)
  {
    assert V.KeysDistinct(c, V.BridgeId);
    forall i, j | 0 <= i < j < |c.bridges| ensures c.bridges[i].id != c.bridges[j].id {
      assert V.BridgeIds(c)[i] != V.BridgeIds(c)[j];
    }
    forall b | b in c.bridges ensures UniquePorts(b.ports) {
      assert V.Distinct(V.PortIds(b));
      forall i, j | 0 <= i < j < |b.ports| ensures b.ports[i].id != b.ports[j].id {
        assert V.PortIds(b)[i] != V.PortIds(b)[j];
      }
    }
  }

  // ── The table of running bridges ────────────────────────────────────

  lemma {:induction false} PutExact(table: seq<Bridge>, b: Bridge)
    requires forall x :: x in table ==> x.id != b.id
    ensures forall x :: x in Put(table, b) <==> x in table || x == b
    ensures UniqueBridges(table) ==> UniqueBridges(Put(table, b))
  {
    if |table| > 0 {
      assert table[0] in table;
      if !StringLe(b.id, table[0].id) {
        PutExact(table[1..], b);
        var rest := Put(table[1..], b);
        assert table == [table[0]] + table[1..];
        forall i | 0 <= i < |rest| && UniqueBridges(table) ensures rest[i].id != table[0].id {
          assert rest[i] in rest;
          if rest[i] != b { assert rest[i] in table[1..]; }
        }
      }
    }
  }

  /** The enabled bridges, and no two alike. */
  lemma {:induction false} RunningExact(bridges: seq<Bridge>)
    requires UniqueBridges(bridges)
    ensures forall b :: b in Running(bridges) <==> b in bridges && b.enabled
    ensures UniqueBridges(Running(bridges))
  {
    if |bridges| > 0 {
      var rest, last := bridges[..|bridges| - 1], bridges[|bridges| - 1];
      RunningExact(rest);
      assert bridges == rest + [last];
      if last.enabled {
        forall x | x in Running(rest) ensures x.id != last.id {
          var i :| 0 <= i < |rest| && rest[i] == x;
          assert bridges[i] == x;
        }
        PutExact(Running(rest), last);
      }
    }
  }

  /** An enabled bridge of that id. */
  function FindRunning(c: Config, id: string): Option<Bridge> {
    match FindBridge(c.bridges, id)
    case Some(b) => if b.enabled then Some(b) else None
    case None => None
  }

  lemma FindInTable(c: Config, id: string)
    requires UniqueBridges(c.bridges)
    ensures FindBridge(Running(c.bridges), id) == FindRunning(c, id)
  {
    RunningExact(c.bridges);
    FindBridgeExact(c.bridges, id);
    FindBridgeExact(Running(c.bridges), id);
  }

  // ── A bridge's port plans ───────────────────────────────────────────

  /** What the plan has for a port of a bridge that stays. */
  function PortEntry(rt: Runtime, was: Bridge, now: Bridge, id: string): Option<PortPlan> {
    match (FindPort(was.ports, id), FindPort(now.ports, id))
    case (Some(op), Some(np)) => Some(PlanPort(rt, was.id, op, np))
    case (Some(op), None) => Some(PlanStop(rt, was.id, op))
    case (None, Some(np)) => Some(PlanStart(np))
    case (None, None) => None
  }

  ghost predicate UniquePlans(pps: seq<PortPlan>) {
    forall i, j :: 0 <= i < j < |pps| ==> pps[i].id != pps[j].id
  }

  lemma {:induction false} StoppedExact(rt: Runtime, bridge: string, was: seq<Port>, now: seq<Port>)
    requires UniquePorts(was)
    ensures forall pp :: pp in StoppedPorts(rt, bridge, was, now) <==>
              exists p :: p in was && FindPort(now, p.id).None? && pp == PlanStop(rt, bridge, p)
    ensures UniquePlans(StoppedPorts(rt, bridge, was, now))
  {
    if |was| > 0 {
      var init, last := was[..|was| - 1], was[|was| - 1];
      StoppedExact(rt, bridge, init, now);
      assert was == init + [last];
      var rest := StoppedPorts(rt, bridge, init, now);
      forall i | 0 <= i < |rest| ensures rest[i].id != last.id {
        assert rest[i] in rest;
        var p :| p in init && FindPort(now, p.id).None? && rest[i] == PlanStop(rt, bridge, p);
        var k :| 0 <= k < |init| && init[k] == p;
        assert was[k] == p;
      }
    }
  }

  lemma NewPortsExact(rt: Runtime, was: Bridge, now: seq<Port>)
    requires UniquePorts(now)
    ensures forall pp :: pp in NewPorts(rt, was, now) <==> exists p :: p in now && pp == PlanNewPort(rt, was, p)
    ensures UniquePlans(NewPorts(rt, was, now))
  {
    var pps := NewPorts(rt, was, now);
    forall p | p in now ensures PlanNewPort(rt, was, p) in pps {
      var i :| 0 <= i < |now| && now[i] == p;
      assert pps[i] == PlanNewPort(rt, was, p);
    }
  }

  /** One entry for each port before or after, as `PortEntry` says. */
  lemma PortPlansExact(rt: Runtime, was: Bridge, now: Bridge)
    requires UniquePorts(was.ports) && UniquePorts(now.ports)
    ensures var pps := PlanBridge(rt, was, now).ports;
            UniquePlans(pps) && forall pp: PortPlan :: pp in pps <==> PortEntry(rt, was, now, pp.id) == Some(pp)
  {
    var stopped, fresh_ := StoppedPorts(rt, was.id, was.ports, now.ports), NewPorts(rt, was, now.ports);
    StoppedExact(rt, was.id, was.ports, now.ports);
    NewPortsExact(rt, was, now.ports);
    forall pp: PortPlan ensures pp in stopped + fresh_ <==> PortEntry(rt, was, now, pp.id) == Some(pp) {
      FindPortExact(was.ports, pp.id);
      FindPortExact(now.ports, pp.id);
    }
    forall i, j | 0 <= i < |stopped| && 0 <= j < |fresh_| ensures stopped[i].id != fresh_[j].id {
      assert stopped[i] in stopped;
      FindPortExact(now.ports, stopped[i].id);
      assert now.ports[j] in now.ports;
    }
  }

  // ── The plan's bridges ──────────────────────────────────────────────

  /** What the plan has for a bridge. */
  function BridgeEntry(rt: Runtime, was: Config, now: Config, id: string): Option<BridgePlan> {
    match (FindRunning(was, id), FindRunning(now, id))
    case (Some(ob), Some(nb)) => Some(PlanBridge(rt, ob, nb))
    case (Some(ob), None) => Some(PlanStopBridge(rt, ob))
    case (None, Some(nb)) => Some(PlanStartBridge(nb))
    case (None, None) => None
  }

  ghost predicate UniqueEntries(bps: seq<BridgePlan>) {
    forall i, j :: 0 <= i < j < |bps| ==> bps[i].id != bps[j].id
  }

  lemma {:induction false} StopsExact(rt: Runtime, before: seq<Bridge>, after: seq<Bridge>)
    requires UniqueBridges(before)
    ensures forall bp :: bp in PlanStops(rt, before, after) <==>
              exists b :: b in before && FindBridge(after, b.id).None? && bp == PlanStopBridge(rt, b)
    ensures UniqueEntries(PlanStops(rt, before, after))
  {
    if |before| > 0 {
      var init, last := before[..|before| - 1], before[|before| - 1];
      StopsExact(rt, init, after);
      assert before == init + [last];
      var rest := PlanStops(rt, init, after);
      forall i | 0 <= i < |rest| ensures rest[i].id != last.id {
        assert rest[i] in rest;
        var b :| b in init && FindBridge(after, b.id).None? && rest[i] == PlanStopBridge(rt, b);
        var k :| 0 <= k < |init| && init[k] == b;
        assert before[k] == b;
      }
    }
  }

  lemma NewEntriesExact(rt: Runtime, before: seq<Bridge>, after: seq<Bridge>)
    requires UniqueBridges(after)
    ensures forall bp :: bp in NewEntries(rt, before, after) <==> exists b :: b in after && bp == PlanNewBridge(rt, before, b)
    ensures UniqueEntries(NewEntries(rt, before, after))
  {
    var bps := NewEntries(rt, before, after);
    forall b | b in after ensures PlanNewBridge(rt, before, b) in bps {
      var i :| 0 <= i < |after| && after[i] == b;
      assert bps[i] == PlanNewBridge(rt, before, b);
    }
  }

  lemma EntryExact(rt: Runtime, was: Config, now: Config, bp: BridgePlan)
    requires UniqueBridges(was.bridges) && UniqueBridges(now.bridges)
    ensures bp in PlanFor(rt, was, now).bridges <==> BridgeEntry(rt, was, now, bp.id) == Some(bp)
  {
    var before, after := Running(was.bridges), Running(now.bridges);
    RunningExact(was.bridges);
    RunningExact(now.bridges);
    StopsExact(rt, before, after);
    NewEntriesExact(rt, before, after);
    assert PlanFor(rt, was, now).bridges == PlanStops(rt, before, after) + NewEntries(rt, before, after);
    FindInTable(was, bp.id);
    FindInTable(now, bp.id);
    FindBridgeExact(before, bp.id);
    FindBridgeExact(after, bp.id);
  }

  /** One entry for each bridge enabled before or after, as `BridgeEntry` says. */
  lemma PlanExact(rt: Runtime, was: Config, now: Config)
    requires UniqueBridges(was.bridges) && UniqueBridges(now.bridges)
    ensures var bps := PlanFor(rt, was, now).bridges;
            UniqueEntries(bps) && forall bp: BridgePlan :: bp in bps <==> BridgeEntry(rt, was, now, bp.id) == Some(bp)
  {
    var before, after := Running(was.bridges), Running(now.bridges);
    RunningExact(was.bridges);
    RunningExact(now.bridges);
    StopsExact(rt, before, after);
    NewEntriesExact(rt, before, after);
    var stops, fresh_ := PlanStops(rt, before, after), NewEntries(rt, before, after);
    assert PlanFor(rt, was, now).bridges == stops + fresh_;
    forall i, j | 0 <= i < |stops| && 0 <= j < |fresh_| ensures stops[i].id != fresh_[j].id {
      assert stops[i] in stops;
      FindBridgeExact(after, stops[i].id);
      assert after[j] in after;
    }
    forall bp: BridgePlan ensures bp in stops + fresh_ <==> BridgeEntry(rt, was, now, bp.id) == Some(bp) { EntryExact(rt, was, now, bp); }
  }
}

/** Which sessions a plan drops when a server port's limits change in place. */
module Kicks {
  import opened Common
  import opened Sorting
  import opened BridgeState
  import opened Config
  import opened Reconcile

  /** A bridge's sessions have ids and ages of their own. */
  predicate Distinguished(s: seq<SessionView>) {
    forall i, j :: 0 <= i < j < |s| ==> s[i].id != s[j].id && s[i].seqNo != s[j].seqNo
  }

  /** How many sessions are older than `x`. */
  ghost function Rank(s: seq<SessionView>, x: SessionView): nat {
    |set t | t in s && t.seqNo < x.seqNo|
  }

  lemma OlderIsOrder()
    ensures Order(Older)
  {
  }

  lemma {:induction false} SeqCard<T>(s: seq<T>)
    requires NoRepeats(s)
    ensures |set t | t in s| == |s|
  {
    if |s| > 0 {
      var rest, last := s[..|s| - 1], s[|s| - 1];
      SeqCard(rest);
      assert s == rest + [last];
      assert (set t | t in s) == (set t | t in rest) + {last};
    }
  }

  lemma DistinguishedNoRepeats(s: seq<SessionView>)
    requires Distinguished(s)
    ensures NoRepeats(s)
    ensures forall x, y :: x in s && y in s && (x.id == y.id || x.seqNo == y.seqNo) ==> x == y
  {
  }

  /** Oldest first, a session's place is its rank. */
  lemma PlaceIsRank(s: seq<SessionView>, i: nat)
    requires Distinguished(s) && i < |s|
    ensures |Sort(s, Older)| == |s| && Rank(s, Sort(s, Older)[i]) == i
  {
    var a := Sort(s, Older);
    DistinguishedNoRepeats(s);
    SortHolds(s, Older);
    OlderIsOrder();
    SortSorts(s, Older);
    SortNoRepeats(s, Older);
    var x := a[i];
    assert x in s;
    forall k | 0 <= k < |a| ensures a[k].seqNo < x.seqNo <==> k < i {
      if k < i { assert Older(a[k], x) && a[k] != x; }
      if k > i { assert Older(x, a[k]); }
      assert a[k] in s;
    }
    forall t ensures t in s && t.seqNo < x.seqNo <==> t in a[..i] {
      if t in s && t.seqNo < x.seqNo {
        var k :| 0 <= k < |a| && a[k] == t;
        assert a[..i][k] == t;
      }
    }
    assert (set t | t in s && t.seqNo < x.seqNo) == (set t | t in a[..i]);
    SeqCard(a[..i]);
  }

  /** The newest beyond `max` are those with `max` older ones. */
  lemma NewestExact(s: seq<SessionView>, max: nat, x: SessionView)
    requires Distinguished(s) && x in s
    ensures x.id in NewestBeyond(s, max) <==> Rank(s, x) >= max
  {
    var a := Sort(s, Older);
    SortHolds(s, Older);
    assert x in a;
    var i :| 0 <= i < |a| && a[i] == x;
    PlaceIsRank(s, i);
    if |s| > max {
      var over := Ids(a[max..]);
      if i >= max { assert over[i - max] == x.id; }
      if x.id in over {
        var k :| 0 <= k < |over| && over[k] == x.id;
        assert a[max + k] in s;
        DistinguishedNoRepeats(s);
        PlaceIsRank(s, max + k);
      }
    }
  }

  lemma NewestFrom(s: seq<SessionView>, max: nat)
    ensures forall id :: id in NewestBeyond(s, max) ==> id in Ids(s)
  {
    SortHolds(s, Older);
    var a := Sort(s, Older);
    forall id | id in NewestBeyond(s, max) ensures id in Ids(s) {
      var k :| 0 <= k < |a| - max && a[max..][k].id == id;
      assert a[max + k] in s;
      var j :| 0 <= j < |s| && s[j] == a[max + k];
      assert Ids(s)[j] == id;
    }
  }

  lemma {:induction false} NotAllowedExact(rt: Runtime, allow: seq<IpNet>, s: seq<SessionView>, id: SessionId)
    ensures id in NotAllowed(rt, allow, s) <==> exists x :: x in s && x.id == id && Disallowed(rt, allow, x)
  {
    if |s| > 0 {
      NotAllowedExact(rt, allow, s[..|s| - 1], id);
      assert s == s[..|s| - 1] + [s[|s| - 1]];
    }
  }

  lemma OnPortExact(s: seq<SessionView>, port: string)
    ensures forall x :: x in OnPort(s, port) <==> x in s && x.id.port == port
    ensures Distinguished(s) ==> Distinguished(OnPort(s, port))
  {
    if |s| > 0 {
      OnPortExact(s[..|s| - 1], port);
      assert s == s[..|s| - 1] + [s[|s| - 1]];
    }
  }

  lemma PeerLeIsOrder()
    ensures Order(PeerLe)
  {
    forall a: SessionId, b: SessionId ensures PeerLe(a, b) || PeerLe(b, a) { StringTotal(a.peer, b.peer); }
    forall a: SessionId, b: SessionId, c: SessionId | PeerLe(a, b) && PeerLe(b, c) ensures PeerLe(a, c) {
      StringTransitive(a.peer, b.peer, c.peer);
    }
  }

  /** Sorting by peer and dropping repeats keeps each session once. */
  lemma KickListExact(kick: seq<SessionId>, port: string)
    requires forall id :: id in kick ==> id.port == port
    ensures forall id :: id in KickList(kick) <==> id in kick
    ensures NoRepeats(KickList(kick))
  {
    var sorted := Sort(kick, PeerLe);
    SortHolds(kick, PeerLe);
    DedupHolds(sorted);
    PeerLeIsOrder();
    SortSorts(kick, PeerLe);
    forall a, b | a in sorted && b in sorted && PeerLe(a, b) && PeerLe(b, a) ensures a == b {
      StringAntisymmetric(a.peer, b.peer);
      assert a in kick && b in kick;
    }
    DedupSorted(sorted, PeerLe);
  }

  /** Whether a change of limits in place drops a session. */
  ghost predicate Kicked(rt: Runtime, s: seq<SessionView>, o: PortKind, n: PortKind, x: SessionView) {
    match (o, n)
    case (TcpServer(_, om, oa, _), TcpServer(_, nm, na, _)) =>
      (oa != na && Disallowed(rt, na, x)) || (om != nm && nm.Some? && Rank(s, x) >= nm.value)
    case (BleServer(_, om), BleServer(_, nm)) => om != nm && Rank(s, x) >= nm
    case _ => false
  }

  lemma FoundKicks(rt: Runtime, s: seq<SessionView>, was: Port, now: Port, x: SessionView)
    requires Distinguished(s) && x in s && !Compared(rt, s, was, now).restart
    ensures x.id in Compared(rt, s, was, now).kick <==> Kicked(rt, s, was.kind, now.kind, x)
  {
    if was.kind.TcpServer? {
      NotAllowedExact(rt, now.kind.allow, s, x.id);
      DistinguishedNoRepeats(s);
      if now.kind.maxClients.Some? { NewestExact(s, now.kind.maxClients.value, x); }
    } else if was.kind.BleServer? {
      NewestExact(s, now.kind.maxPhones, x);
    }
  }

  lemma FoundFrom(rt: Runtime, s: seq<SessionView>, was: Port, now: Port)
    ensures forall id :: id in Compared(rt, s, was, now).kick ==> id in Ids(s)
  {
    var kick := Compared(rt, s, was, now).kick;
    if was.role == now.role && SameKind(was.kind, now.kind) {
      if was.kind.TcpServer? {
        forall id | id in NotAllowed(rt, now.kind.allow, s) ensures id in Ids(s) {
          NotAllowedExact(rt, now.kind.allow, s, id);
          var x :| x in s && x.id == id && Disallowed(rt, now.kind.allow, x);
          var j :| 0 <= j < |s| && s[j] == x;
          assert Ids(s)[j] == id;
        }
        if now.kind.maxClients.Some? { NewestFrom(s, now.kind.maxClients.value); }
      } else if was.kind.BleServer? {
        NewestFrom(s, now.kind.maxPhones);
      }
    }
  }

  /** The port's running sessions, each with an id and age of its own. */
  ghost predicate Sane(rt: Runtime, bridge: string) {
    bridge in rt.bridges ==> Distinguished(rt.bridges[bridge].sessions)
  }

  lemma SessionsSane(rt: Runtime, bridge: string, port: string)
    ensures forall x :: x in Sessions(rt, bridge, port) ==> x.id.port == port
    ensures forall id :: id in Ids(Sessions(rt, bridge, port)) ==> id.port == port
    ensures Sane(rt, bridge) ==> Distinguished(Sessions(rt, bridge, port))
  {
    if bridge in rt.bridges { OnPortExact(rt.bridges[bridge].sessions, port); }
    var s := Sessions(rt, bridge, port);
    forall id | id in Ids(s) ensures id.port == port {
      var k :| 0 <= k < |s| && s[k].id == id;
      assert s[k] in s;
    }
  }

  /** A port that stays up drops exactly the sessions its new limits call for,
      each listed once. */
  lemma KickExact(rt: Runtime, bridge: string, was: Port, now: Port)
    requires Sane(rt, bridge) && PlanPort(rt, bridge, was, now).action != Restarted
    ensures var s, p := Sessions(rt, bridge, was.id), PlanPort(rt, bridge, was, now);
            && NoRepeats(p.disconnects)
            && (forall id :: id in p.disconnects ==> id in Ids(s))
            && (forall x :: x in s ==> (x.id in p.disconnects <==> Kicked(rt, s, was.kind, now.kind, x)))
  {
    var s := Sessions(rt, bridge, was.id);
    var kick := Compared(rt, s, was, now).kick;
    SessionsSane(rt, bridge, was.id);
    FoundFrom(rt, s, was, now);
    KickListExact(kick, was.id);
    forall x | x in s ensures x.id in kick <==> Kicked(rt, s, was.kind, now.kind, x) { FoundKicks(rt, s, was, now, x); }
  }

  /** The sessions a plan for the port leaves. */
  ghost function Survivors(s: seq<SessionView>, gone: seq<SessionId>): set<SessionView> {
    set x | x in s && x.id !in gone
  }

  ghost function Limit(k: PortKind): Option<nat> {
    match k
    case TcpServer(_, max, _, _) => max
    case BleServer(_, max) => Some(max)
    case _ => None
  }

  lemma FewOfLowRank(s: seq<SessionView>, max: nat)
    requires Distinguished(s)
    ensures |set x | x in s && Rank(s, x) < max| <= max
  {
    var a := Sort(s, Older);
    SortHolds(s, Older);
    var k := if max < |a| then max else |a|;
    DistinguishedNoRepeats(s);
    SortNoRepeats(s, Older);
    SeqCard(a[..k]);
    var low, first := set x | x in s && Rank(s, x) < max, set t | t in a[..k];
    forall x | x in low ensures x in first {
      assert x in a;
      var i :| 0 <= i < |a| && a[i] == x;
      PlaceIsRank(s, i);
      assert a[..k][i] == x;
    }
    SubsetCard(low, first);
  }

  lemma SubsetCard<T>(a: set<T>, b: set<T>)
    requires a <= b
    ensures |a| <= |b|
  {
    assert b == a + (b - a);
  }

  /** When a limit changes in place, no more than the new limit are left. */
  lemma LimitMet(rt: Runtime, bridge: string, was: Port, now: Port)
    requires Sane(rt, bridge) && PlanPort(rt, bridge, was, now).action != Restarted
    requires Limit(was.kind) != Limit(now.kind) && Limit(now.kind).Some?
    ensures |Survivors(Sessions(rt, bridge, was.id), PlanPort(rt, bridge, was, now).disconnects)| <= Limit(now.kind).value
  {
    var s := Sessions(rt, bridge, was.id);
    var left := Survivors(s, PlanPort(rt, bridge, was, now).disconnects);
    KickExact(rt, bridge, was, now);
    SessionsSane(rt, bridge, was.id);
    FewOfLowRank(s, Limit(now.kind).value);
    SubsetCard(left, set x | x in s && Rank(s, x) < Limit(now.kind).value);
  }

  /** Those left are the oldest, unless the allow list changed too. */
  lemma OldestStay(rt: Runtime, bridge: string, was: Port, now: Port, x: SessionView)
    requires Sane(rt, bridge) && PlanPort(rt, bridge, was, now).action != Restarted
    requires was.kind.TcpServer? ==> was.kind.allow == now.kind.allow
    requires Limit(was.kind) != Limit(now.kind) && Limit(now.kind).Some? && x in Sessions(rt, bridge, was.id)
    ensures x in Survivors(Sessions(rt, bridge, was.id), PlanPort(rt, bridge, was, now).disconnects) <==>
            Rank(Sessions(rt, bridge, was.id), x) < Limit(now.kind).value
  {
    KickExact(rt, bridge, was, now);
  }

  /** When the allow list changes, whoever is left and can be checked is allowed. */
  lemma SurvivorsAllowed(rt: Runtime, bridge: string, was: Port, now: Port, x: SessionView)
    requires Sane(rt, bridge) && PlanPort(rt, bridge, was, now).action != Restarted
    requires now.kind.TcpServer? && was.kind.TcpServer? && was.kind.allow != now.kind.allow
    requires x in Survivors(Sessions(rt, bridge, was.id), PlanPort(rt, bridge, was, now).disconnects)
    ensures rt.peerIp(x.id.peer).Some? ==> Allowed(now.kind.allow, rt.peerIp(x.id.peer).value)
  {
    KickExact(rt, bridge, was, now);
  }
}

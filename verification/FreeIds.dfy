/** Free ids: the lowest free `ktbrN` for a new bridge, and an id for each
    port that has none (`next_bridge_id` and `name_ports` in
    src/control/edit.rs). */
module FreeIds {
  import opened Common
  import opened Resolve
  import Calendar

  function Numbered(prefix: string, n: nat): string {
    prefix + Calendar.Decimal(n)
  }

  lemma NumberedDiffer(prefix: string, m: nat, n: nat)
    requires Numbered(prefix, m) == Numbered(prefix, n)
    ensures m == n
  {
    Calendar.PaddedDigits(0, m);
    Calendar.PaddedDigits(0, n);
    assert Calendar.Zeros(0) + Calendar.Decimal(m) == Calendar.Decimal(m) == Numbered(prefix, m)[|prefix|..];
    assert Calendar.Zeros(0) + Calendar.Decimal(n) == Calendar.Decimal(n) == Numbered(prefix, n)[|prefix|..];
  }

  function Ids(prefix: string, n: nat): set<string> {
    set i | 0 <= i < n :: Numbered(prefix, i)
  }

  lemma {:induction false} IdsCount(prefix: string, n: nat)
    ensures |Ids(prefix, n)| == n
  {
    if n > 0 {
      IdsCount(prefix, n - 1);
      forall i | 0 <= i < n - 1 ensures Numbered(prefix, i) != Numbered(prefix, n - 1) {
        if Numbered(prefix, i) == Numbered(prefix, n - 1) { NumberedDiffer(prefix, i, n - 1); }
      }
      assert Ids(prefix, n) == Ids(prefix, n - 1) + {Numbered(prefix, n - 1)};
    }
  }

  lemma TakenBound(prefix: string, n: nat, taken: seq<string>)
    requires forall i :: 0 <= i < n ==> Numbered(prefix, i) in taken
    ensures n <= |taken|
  {
    IdsCount(prefix, n);
    var all := set x | x in taken;
    SeqSetCard(taken);
    assert all == Ids(prefix, n) + (all - Ids(prefix, n));
  }

  lemma {:induction false} SeqSetCard(s: seq<string>)
    ensures |set x | x in s| <= |s|
  {
    if |s| > 0 {
      var init := s[..|s| - 1];
      SeqSetCard(init);
      assert s == init + [s[|s| - 1]];
      assert (set x | x in s) == (set x | x in init) + {s[|s| - 1]};
    }
  }

  /** The search over all numbers ends, at the lowest one free. */
  method FirstFree(prefix: string, taken: seq<string>) returns (id: string, n: nat)
    ensures id == Numbered(prefix, n) && id !in taken
    ensures forall i :: 0 <= i < n ==> Numbered(prefix, i) in taken
    ensures n <= |taken|
  {
    n := 0;
    while Numbered(prefix, n) in taken
      invariant forall i :: 0 <= i < n ==> Numbered(prefix, i) in taken
      invariant n <= |taken|
      decreases |taken| - n
    {
      TakenBound(prefix, n + 1, taken);
      n := n + 1;
    }
    id := Numbered(prefix, n);
  }

  // ── Ports ───────────────────────────────────────────────────────────

  function Explicit(ports: seq<PortDef>): seq<string> {
    if |ports| == 0 then []
    else
      var rest := Explicit(ports[..|ports| - 1]);
      if ports[|ports| - 1].id.Some? then rest + [ports[|ports| - 1].id.value] else rest
  }

  /** Ids no port without one may get: those given in the file, and those
      given to ports before it. */
  ghost predicate Taken(was: seq<PortDef>, now: seq<PortDef>, i: nat, id: string)
    requires |now| == |was|
  {
    || (exists j :: 0 <= j < |was| && was[j].id == Some(id))
    || (exists j :: 0 <= j < i && j < |now| && now[j].id == Some(id))
  }

  /** The port's type and the lowest index that is free when its turn comes. */
  ghost predicate LowestFree(was: seq<PortDef>, now: seq<PortDef>, i: nat, k: nat)
    requires |now| == |was| && i < |was|
  {
    var prefix := TypeName(was[i].kind);
    && now[i].id == Some(Numbered(prefix, k)) && !Taken(was, now, i, Numbered(prefix, k))
    && forall m :: 0 <= m < k ==> Taken(was, now, i, Numbered(prefix, m))
  }

  /** Each port has an id: its own if it had one, otherwise the lowest free of
      its type, which no other port has. */
  ghost predicate Named(was: seq<PortDef>, now: seq<PortDef>) {
    && |now| == |was|
    && (forall i :: 0 <= i < |was| ==> now[i].id.Some? && now[i] == was[i].(id := now[i].id))
    && (forall i :: 0 <= i < |was| && was[i].id.Some? ==> now[i] == was[i])
    && (forall i :: 0 <= i < |was| && was[i].id.None? ==> exists k: nat :: LowestFree(was, now, i, k))
    && (forall i, j :: 0 <= i < |was| && 0 <= j < |was| && i != j && was[i].id.None? ==> now[i].id != now[j].id)
  }

  /** `taken` is the ids given in the file and those given to the first `n`. */
  ghost predicate Tracks(taken: seq<string>, was: seq<PortDef>, now: seq<PortDef>, n: nat)
    requires |now| == |was|
  {
    forall id :: id in taken <==> Taken(was, now, n, id)
  }

  lemma TakenSame(was: seq<PortDef>, now: seq<PortDef>, later: seq<PortDef>, n: nat)
    requires |now| == |was| == |later| && forall j :: 0 <= j < n && j < |was| ==> now[j].id == later[j].id
    ensures forall id :: Taken(was, now, n, id) <==> Taken(was, later, n, id)
  {
  }

  lemma TakenNext(was: seq<PortDef>, now: seq<PortDef>, n: nat, id: string)
    requires |now| == |was| && n < |was|
    ensures Taken(was, now, n + 1, id) <==> Taken(was, now, n, id) || now[n].id == Some(id)
  {
  }

  lemma {:induction false} ExplicitExact(ports: seq<PortDef>, id: string)
    ensures id in Explicit(ports) <==> exists j :: 0 <= j < |ports| && ports[j].id == Some(id)
  {
    if |ports| > 0 {
      var init := ports[..|ports| - 1];
      ExplicitExact(init, id);
      assert ports == init + [ports[|ports| - 1]];
    }
  }

  /** One port's turn. */
  method NameOne(was: seq<PortDef>, now: seq<PortDef>, taken: seq<string>, n: nat) returns (next: seq<PortDef>, taken': seq<string>)
    requires |now| == |was| && n < |was| && now[n] == was[n] && Tracks(taken, was, now, n)
    ensures |next| == |was| && (forall i :: 0 <= i < |was| && i != n ==> next[i] == now[i])
    ensures next[n].id.Some? && next[n] == was[n].(id := next[n].id) && (was[n].id.Some? ==> next[n] == was[n])
    ensures was[n].id.None? ==> exists k: nat :: LowestFree(was, next, n, k)
    ensures Tracks(taken', was, next, n + 1)
  {
    next, taken' := now, taken;
    if now[n].id.None? {
      var id, k := FirstFree(TypeName(now[n].kind), taken);
      next := now[n := now[n].(id := Some(id))];
      taken' := taken + [id];
      TakenSame(was, now, next, n);
      assert LowestFree(was, next, n, k);
    }
    forall x ensures x in taken' <==> Taken(was, next, n + 1, x) { TakenNext(was, next, n, x); }
  }

  lemma NewOnesDiffer(was: seq<PortDef>, now: seq<PortDef>)
    requires |now| == |was| && forall i :: 0 <= i < |was| ==> now[i].id.Some? && (was[i].id.Some? ==> now[i] == was[i])
    requires forall i :: 0 <= i < |was| && was[i].id.None? ==> exists k: nat :: LowestFree(was, now, i, k)
    ensures forall i, j :: 0 <= i < |was| && 0 <= j < |was| && i != j && was[i].id.None? ==> now[i].id != now[j].id
  {
    forall i, j | 0 <= i < |was| && 0 <= j < |was| && i != j && was[i].id.None? ensures now[i].id != now[j].id {
      var k: nat :| LowestFree(was, now, i, k);
      assert !Taken(was, now, i, now[i].id.value);
      if j > i && was[j].id.None? {
        var m: nat :| LowestFree(was, now, j, m);
        assert !Taken(was, now, j, now[j].id.value);
      }
    }
  }

  method NamePorts(was: seq<PortDef>) returns (now: seq<PortDef>)
    ensures Named(was, now)
  {
    now := was;
    var taken := Explicit(was);
    forall id ensures id in taken <==> Taken(was, now, 0, id) { ExplicitExact(was, id); }
    for n := 0 to |was|
      invariant |now| == |was| && Tracks(taken, was, now, n)
      invariant forall i :: 0 <= i < n ==> now[i].id.Some? && now[i] == was[i].(id := now[i].id) && (was[i].id.Some? ==> now[i] == was[i])
      invariant forall i :: n <= i < |was| ==> now[i] == was[i]
      invariant forall i :: 0 <= i < n && was[i].id.None? ==> exists k: nat :: LowestFree(was, now, i, k)
    {
      ghost var before := now;
      now, taken := NameOne(was, now, taken, n);
      forall i | 0 <= i < n && was[i].id.None? ensures exists k: nat :: LowestFree(was, now, i, k) {
        var k: nat :| LowestFree(was, before, i, k);
        TakenSame(was, before, now, i);
        assert LowestFree(was, now, i, k);
      }
    }
    NewOnesDiffer(was, now);
  }
}

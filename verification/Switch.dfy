/** Switching to a bridge: disable what couldn't run beside it, then enable it
    (`conflicting` and `BridgeSwitch` in src/supervisor.rs). */
module Switch {
  import opened Common
  import opened Config
  import opened Validate

  /** A bridge turned on or off: a static one through its override. */
  function Turned(b: Bridge, on: bool): Bridge {
    if b.source.Static? then b.(enabled := on, enabledOverride := Some(on)) else b.(enabled := on)
  }

  function Enable(c: Config, id: string, on: bool): Config {
    c.(bridges := seq(|c.bridges|, i requires 0 <= i < |c.bridges| =>
      if c.bridges[i].id == id then Turned(c.bridges[i], on) else c.bridges[i]))
  }

  /** Only these two enabled. */
  function OnlyPair(c: Config, id: string, other: string): Config {
    c.(bridges := seq(|c.bridges|, i requires 0 <= i < |c.bridges| =>
      c.bridges[i].(enabled := c.bridges[i].id == id || c.bridges[i].id == other)))
  }

  ghost predicate InTheWay(c: Config, id: string, other: string) {
    other != id && (exists b :: b in c.bridges && b.enabled && b.id == other) && !Valid(OnlyPair(c, id, other))
  }

  method Conflicting(c: Config, id: string) returns (r: seq<string>)
    ensures forall x :: x in r <==> InTheWay(c, id, x)
  {
    r := [];
    for n := 0 to |c.bridges|
      invariant forall x :: x in r <==>
                  && x != id && !Valid(OnlyPair(c, id, x))
                  && exists i :: 0 <= i < n && c.bridges[i].enabled && c.bridges[i].id == x
    {
      var b := c.bridges[n];
      if b.enabled && b.id != id {
        var errors := Validate.Validate(OnlyPair(c, id, b.id));
        if errors != [] { r := r + [b.id]; }
      }
    }
  }

  /** The config the switch asks for. */
  ghost function Switched(c: Config, id: string): Config {
    c.(bridges := seq(|c.bridges|, i requires 0 <= i < |c.bridges| =>
      if c.bridges[i].id == id then Turned(c.bridges[i], true)
      else if InTheWay(c, id, c.bridges[i].id) then Turned(c.bridges[i], false)
      else c.bridges[i]))
  }

  method SwitchTo(c: Config, id: string) returns (d: Config)
    ensures d == Switched(c, id)
  {
    var others := Conflicting(c, id);
    d := c;
    for n := 0 to |others|
      invariant d == c.(bridges := d.bridges) && |d.bridges| == |c.bridges|
      invariant forall i :: 0 <= i < |c.bridges| ==>
                  d.bridges[i] == if c.bridges[i].id in others[..n] then Turned(c.bridges[i], false) else c.bridges[i]
    {
      d := Enable(d, others[n], false);
      assert others[..n + 1] == others[..n] + [others[n]];
    }
    assert others[..|others|] == others;
    d := Enable(d, id, true);
    assert d.bridges == Switched(c, id).bridges;
  }

  // ── What doesn't depend on which bridges are enabled ────────────────

  /** The same config but for which bridges are enabled. */
  ghost predicate SameBut(c: Config, d: Config) {
    && c.adapters == d.adapters && c.tncs == d.tncs && |c.bridges| == |d.bridges|
    && forall i :: 0 <= i < |c.bridges| ==>
         d.bridges[i] == c.bridges[i].(enabled := d.bridges[i].enabled, enabledOverride := d.bridges[i].enabledOverride)
  }

  lemma SameDefinitions(c: Config, d: Config)
    requires SameBut(c, d) && WellDefined(c)
    ensures WellDefined(d)
  {
    assert BridgeIds(c) == BridgeIds(d) && BridgeNames(c) == BridgeNames(d);
    forall what ensures KeysDistinct(d, what) { assert KeysDistinct(c, what); }
    forall b | b in d.bridges ensures Distinct(PortIds(b)) {
      var i :| 0 <= i < |d.bridges| && d.bridges[i] == b;
      assert c.bridges[i] in c.bridges;
      assert PortIds(c.bridges[i]) == PortIds(b);
    }
  }

  lemma ExclusiveSymmetric(a: Bridge, b: Bridge)
    requires Exclusive(a, b)
    ensures Exclusive(b, a)
  {
    var clash :| BridgesClash(a, b, clash);
    var back := match clash
      case SamePublicName => SamePublicName
      case SameTnc(pa, pb) => SameTnc(pb, pa)
      case SameListen(pa, pb) => SameListen(pb, pa)
      case SameAdapter(pa, pb) => SameAdapter(pb, pa);
    assert BridgesClash(b, a, back);
  }

  /** Being enabled plays no part in a clash or in being complete. */
  lemma ExclusiveStays(a: Bridge, b: Bridge, a': Bridge, b': Bridge)
    requires a' == a.(enabled := a'.enabled, enabledOverride := a'.enabledOverride)
    requires b' == b.(enabled := b'.enabled, enabledOverride := b'.enabledOverride)
    ensures Exclusive(a, b) <==> Exclusive(a', b')
  {
    if Exclusive(a, b) {
      var clash :| BridgesClash(a, b, clash);
      assert BridgesClash(a', b', clash);
    }
    if Exclusive(a', b') {
      var clash :| BridgesClash(a', b', clash);
      assert BridgesClash(a, b, clash);
    }
  }

  /** Validity by place, for a config that differs only in what's enabled. */
  lemma ValidByPlace(c: Config, d: Config)
    requires SameBut(c, d) && WellDefined(c)
    ensures Valid(d) <==>
            && (forall i :: 0 <= i < |c.bridges| && d.bridges[i].enabled ==> Complete(c.bridges[i]))
            && (forall i, j :: 0 <= i < j < |c.bridges| && d.bridges[i].enabled && d.bridges[j].enabled ==>
                  !Exclusive(c.bridges[i], c.bridges[j]))
  {
    SameDefinitions(c, d);
    forall i, j | 0 <= i < j < |c.bridges| ensures Exclusive(c.bridges[i], c.bridges[j]) <==> Exclusive(d.bridges[i], d.bridges[j]) {
      ExclusiveStays(c.bridges[i], c.bridges[j], d.bridges[i], d.bridges[j]);
    }
    forall i | 0 <= i < |c.bridges| ensures Complete(c.bridges[i]) <==> Complete(d.bridges[i]) && d.bridges[i] in d.bridges {
      assert c.bridges[i].ports == d.bridges[i].ports;
    }
  }

  ghost predicate Apart(a: Bridge, b: Bridge) {
    !Exclusive(a, b) && !Exclusive(b, a)
  }

  lemma ApartIff(a: Bridge, b: Bridge)
    ensures Apart(a, b) <==> !Exclusive(a, b)
  {
    if Exclusive(b, a) { ExclusiveSymmetric(b, a); }
  }

  lemma DistinctIds(c: Config, i: nat, j: nat)
    requires WellDefined(c) && i < |c.bridges| && j < |c.bridges| && c.bridges[i].id == c.bridges[j].id
    ensures i == j
  {
    assert KeysDistinct(c, BridgeId);
    assert BridgeIds(c)[i] == BridgeIds(c)[j];
  }

  /** What the pair check finds: two complete bridges that don't clash. */
  lemma PairCheck(c: Config, t: nat, o: nat)
    requires WellDefined(c) && t < |c.bridges| && o < |c.bridges| && t != o
    ensures Valid(OnlyPair(c, c.bridges[t].id, c.bridges[o].id)) <==>
            Complete(c.bridges[t]) && Complete(c.bridges[o]) && Apart(c.bridges[t], c.bridges[o])
  {
    var id, other := c.bridges[t].id, c.bridges[o].id;
    var d := OnlyPair(c, id, other);
    forall i | 0 <= i < |c.bridges| ensures d.bridges[i].enabled <==> i == t || i == o {
      if c.bridges[i].id == id { DistinctIds(c, i, t); }
      if c.bridges[i].id == other { DistinctIds(c, i, o); }
    }
    ValidByPlace(c, d);
    ApartIff(c.bridges[t], c.bridges[o]);
    ApartIff(c.bridges[o], c.bridges[t]);
    var lo, hi := if t < o then t else o, if t < o then o else t;
    assert d.bridges[lo].enabled && d.bridges[hi].enabled;
  }

  lemma InTheWayIff(c: Config, t: nat, o: nat)
    requires Valid(c) && t < |c.bridges| && o < |c.bridges| && t != o
    ensures InTheWay(c, c.bridges[t].id, c.bridges[o].id) <==>
            c.bridges[o].enabled && !(Complete(c.bridges[t]) && Apart(c.bridges[t], c.bridges[o]))
  {
    PairCheck(c, t, o);
    if c.bridges[t].id == c.bridges[o].id { DistinctIds(c, t, o); }
    if exists b :: b in c.bridges && b.enabled && b.id == c.bridges[o].id {
      var b :| b in c.bridges && b.enabled && b.id == c.bridges[o].id;
      var i :| 0 <= i < |c.bridges| && c.bridges[i] == b;
      DistinctIds(c, i, o);
    }
    assert c.bridges[o] in c.bridges;
  }

  /** Who is enabled after a switch. */
  lemma EnabledAfter(c: Config, t: nat, o: nat)
    requires Valid(c) && t < |c.bridges| && o < |c.bridges|
    ensures var d := Switched(c, c.bridges[t].id);
            && SameBut(c, d)
            && (d.bridges[o].enabled <==>
                  o == t || (c.bridges[o].enabled && Complete(c.bridges[t]) && Apart(c.bridges[t], c.bridges[o])))
  {
    if o != t {
      InTheWayIff(c, t, o);
      if c.bridges[o].id == c.bridges[t].id { DistinctIds(c, t, o); }
    }
  }

  /** From a valid config, a switch gives a valid config exactly when the
      bridge it switches to is complete. */
  lemma SwitchSound(c: Config, t: nat)
    requires Valid(c) && t < |c.bridges|
    ensures Valid(Switched(c, c.bridges[t].id)) <==> Complete(c.bridges[t])
  {
    var d := Switched(c, c.bridges[t].id);
    forall o | 0 <= o < |c.bridges|
      ensures SameBut(c, d)
      ensures d.bridges[o].enabled <==>
              o == t || (c.bridges[o].enabled && Complete(c.bridges[t]) && Apart(c.bridges[t], c.bridges[o]))
    {
      EnabledAfter(c, t, o);
    }
    ValidByPlace(c, d);
    ValidByPlace(c, c);
  }

  /** Nothing is disabled needlessly: turn any one of those back on, and the
      config is not valid any more. */
  lemma SwitchMinimal(c: Config, t: nat, o: nat)
    requires Valid(c) && t < |c.bridges| && o < |c.bridges|
    requires c.bridges[o].enabled && !Switched(c, c.bridges[t].id).bridges[o].enabled
    ensures InTheWay(c, c.bridges[t].id, c.bridges[o].id)
    ensures !Valid(Enable(Switched(c, c.bridges[t].id), c.bridges[o].id, true))
  {
    var d := Switched(c, c.bridges[t].id);
    var e := Enable(d, c.bridges[o].id, true);
    EnabledAfter(c, t, o);
    EnabledAfter(c, t, t);
    assert SameBut(c, e);
    assert e.bridges[t].enabled && e.bridges[o].enabled;
    ApartIff(c.bridges[t], c.bridges[o]);
    ApartIff(c.bridges[o], c.bridges[t]);
    ValidByPlace(c, e);
  }

  /** And what isn't in the way stays as it was. */
  lemma SwitchLeavesTheRest(c: Config, t: nat, o: nat)
    requires Valid(c) && t < |c.bridges| && o < |c.bridges| && o != t
    requires Complete(c.bridges[t]) && (!c.bridges[o].enabled || Apart(c.bridges[t], c.bridges[o]))
    ensures Switched(c, c.bridges[t].id).bridges[o] == c.bridges[o]
  {
    InTheWayIff(c, t, o);
    if c.bridges[o].id == c.bridges[t].id { DistinctIds(c, t, o); }
  }
}

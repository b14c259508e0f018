/** When an effective config may be used: the errors of `validate` in
    src/config/validate.rs, and what a config without errors is. */
module Validate {
  import opened Common
  import opened Config

  // ── Repeated keys ───────────────────────────────────────────────────

  /** `first` is the latest place before `i` with the key of `i`. */
  ghost predicate Repeats<K>(keys: seq<Option<K>>, i: nat, first: nat) {
    && first < i < |keys|
    && keys[i].Some? && keys[first] == keys[i]
    && forall k :: first < k < i ==> keys[k] != keys[i]
  }

  ghost predicate Distinct<K>(keys: seq<Option<K>>) {
    forall i, j :: 0 <= i < j < |keys| && keys[i].Some? ==> keys[i] != keys[j]
  }

  /** `seen` gives the latest place of each key among the first `n`. */
  ghost predicate Seen<K>(keys: seq<Option<K>>, n: nat, seen: map<K, nat>)
    requires n <= |keys|
  {
    && (forall k :: k in seen ==> seen[k] < n && keys[seen[k]] == Some(k))
    && (forall i :: 0 <= i < n && keys[i].Some? ==> keys[i].value in seen && i <= seen[keys[i].value])
  }

  /** One turn of a seen-map: insert the key, and say what it was at before. */
  method Note<K(==)>(keys: seq<Option<K>>, n: nat, seen: map<K, nat>) returns (seen': map<K, nat>, first: Option<nat>)
    requires n < |keys| && Seen(keys, n, seen)
    ensures Seen(keys, n + 1, seen')
    ensures first.Some? ==> Repeats(keys, n, first.value)
    ensures forall k: nat :: Repeats(keys, n, k) ==> first == Some(k)
  {
    seen', first := seen, None;
    if keys[n].Some? {
      var k := keys[n].value;
      if k in seen { first := Some(seen[k]); }
      seen' := seen[k := n];
    }
  }

  lemma {:induction false} FindRepeat<K>(keys: seq<Option<K>>, i: nat, j: nat) returns (first: nat)
    requires i < j < |keys| && keys[i].Some? && keys[i] == keys[j]
    ensures Repeats(keys, j, first)
    decreases j - i
  {
    if k :| i < k < j && keys[k] == keys[j] {
      first := FindRepeat(keys, k, j);
    } else {
      first := i;
    }
  }

  /** Keys are distinct exactly when no place repeats another. */
  lemma DistinctIff<K>(keys: seq<Option<K>>)
    ensures Distinct(keys) <==> forall i: nat, first: nat :: !Repeats(keys, i, first)
  {
    if !Distinct(keys) {
      var i, j :| 0 <= i < j < |keys| && keys[i].Some? && keys[i] == keys[j];
      var first := FindRepeat(keys, i, j);
    }
  }

  // ── The errors ──────────────────────────────────────────────────────

  /** What is defined twice. */
  datatype What = AdapterId | AdapterAddress | TncId | TncSpp | TncBle | TncPath | BridgeId | BridgeName

  datatype Clash = SamePublicName | SameTnc(pa: nat, pb: nat) | SameListen(pa: nat, pb: nat) | SameAdapter(pa: nat, pb: nat)

  /** An error and the places it is about: those of the list it names, or of
      `bridges` and of a bridge's `ports`. */
  datatype Problem =
    | Duplicate(what: What, at: nat, first: nat)
    | DuplicatePort(bridge: nat, at: nat)
    | NotOneTncPort(bridge: nat, count: nat)
    | NoAppPort(bridge: nat)
    | Conflict(a: nat, b: nat, clash: Clash)

  function AdapterIds(c: Config): seq<Option<string>> { seq(|c.adapters|, i requires 0 <= i < |c.adapters| => Some(c.adapters[i].id)) }

  function AdapterMacs(c: Config): seq<Option<Mac>> { seq(|c.adapters|, i requires 0 <= i < |c.adapters| => Some(c.adapters[i].mac)) }

  function TncIds(c: Config): seq<Option<string>> { seq(|c.tncs|, i requires 0 <= i < |c.tncs| => Some(c.tncs[i].id)) }

  function SppKey(t: Tnc): Option<(Mac, AdapterSel)> {
    if t.spp.Some? then Some((t.spp.value.address, t.spp.value.adapter)) else None
  }

  function BleKey(t: Tnc): Option<(Mac, AdapterSel)> {
    if t.ble.Some? then Some((t.ble.value.address, t.ble.value.adapter)) else None
  }

  function PathKey(t: Tnc): Option<string> {
    if t.serial.Some? then Some(t.serial.value.path) else None
  }

  function SppKeys(c: Config): seq<Option<(Mac, AdapterSel)>> { seq(|c.tncs|, i requires 0 <= i < |c.tncs| => SppKey(c.tncs[i])) }

  function BleKeys(c: Config): seq<Option<(Mac, AdapterSel)>> { seq(|c.tncs|, i requires 0 <= i < |c.tncs| => BleKey(c.tncs[i])) }

  function Paths(c: Config): seq<Option<string>> { seq(|c.tncs|, i requires 0 <= i < |c.tncs| => PathKey(c.tncs[i])) }

  function BridgeIds(c: Config): seq<Option<string>> { seq(|c.bridges|, i requires 0 <= i < |c.bridges| => Some(c.bridges[i].id)) }

  function BridgeNames(c: Config): seq<Option<string>> { seq(|c.bridges|, i requires 0 <= i < |c.bridges| => Some(c.bridges[i].name)) }

  function PortIds(b: Bridge): seq<Option<string>> { seq(|b.ports|, i requires 0 <= i < |b.ports| => Some(b.ports[i].id)) }

  ghost predicate Repeated(c: Config, what: What, at: nat, first: nat) {
    match what
    case AdapterId => Repeats(AdapterIds(c), at, first)
    case AdapterAddress => Repeats(AdapterMacs(c), at, first)
    case TncId => Repeats(TncIds(c), at, first)
    case TncSpp => Repeats(SppKeys(c), at, first)
    case TncBle => Repeats(BleKeys(c), at, first)
    case TncPath => Repeats(Paths(c), at, first)
    case BridgeId => Repeats(BridgeIds(c), at, first)
    case BridgeName => Repeats(BridgeNames(c), at, first)
  }

  ghost predicate PortRepeats(b: Bridge, at: nat) {
    exists first: nat :: Repeats(PortIds(b), at, first)
  }

  /** Two ports of different bridges that want the same thing. */
  predicate PortsClash(a: Port, b: Port, clash: Clash) {
    match clash
    case SamePublicName => false
    case SameTnc(_, _) => TncOf(a.kind).Some? && TncOf(a.kind) == TncOf(b.kind)
    case SameListen(_, _) => a.kind.TcpServer? && b.kind.TcpServer? && ConflictsWith(a.kind.listen, b.kind.listen)
    case SameAdapter(_, _) => a.kind.BleServer? && b.kind.BleServer? && a.kind.adapter == b.kind.adapter
  }

  predicate BridgesClash(a: Bridge, b: Bridge, clash: Clash) {
    if clash == SamePublicName then a.publicName == b.publicName
    else clash.pa < |a.ports| && clash.pb < |b.ports| && PortsClash(a.ports[clash.pa], b.ports[clash.pb], clash)
  }

  ghost predicate BridgeProblem(c: Config, i: nat, p: Problem)
    requires i < |c.bridges|
  {
    match p
    case Duplicate(what, at, first) => at == i && (what.BridgeId? || what.BridgeName?) && Repeated(c, what, at, first)
    case DuplicatePort(b, at) => b == i && PortRepeats(c.bridges[i], at)
    case NotOneTncPort(b, n) => b == i && c.bridges[i].enabled && n == CountRole(c.bridges[i].ports, TncRole) != 1
    case NoAppPort(b) => b == i && c.bridges[i].enabled && CountRole(c.bridges[i].ports, AppRole) == 0
    case Conflict(_, _, _) => false
  }

  ghost predicate PairProblem(c: Config, p: Problem) {
    && p.Conflict? && p.a < p.b < |c.bridges|
    && c.bridges[p.a].enabled && c.bridges[p.b].enabled
    && BridgesClash(c.bridges[p.a], c.bridges[p.b], p.clash)
  }

  /** The errors a config has. */
  ghost predicate Reported(c: Config, p: Problem) {
    match p
    case Duplicate(what, at, first) => Repeated(c, what, at, first)
    case Conflict(_, _, _) => PairProblem(c, p)
    case _ => p.bridge < |c.bridges| && BridgeProblem(c, p.bridge, p)
  }

  // ── Finding them ────────────────────────────────────────────────────

  method NoteDuplicate<K(==)>(c: Config, what: What, keys: seq<Option<K>>, n: nat, seen: map<K, nat>, errors: seq<Problem>)
    returns (seen': map<K, nat>, errors': seq<Problem>)
    requires n < |keys| && Seen(keys, n, seen)
    requires forall first: nat :: Repeated(c, what, n, first) <==> Repeats(keys, n, first)
    ensures Seen(keys, n + 1, seen')
    ensures forall p :: p in errors' <==>
              p in errors || (p.Duplicate? && p.what == what && p.at == n && Repeated(c, what, n, p.first))
  {
    var first;
    seen', first := Note(keys, n, seen);
    errors' := errors;
    if first.Some? { errors' := errors + [Duplicate(what, n, first.value)]; }
  }

  method CheckAdapters(c: Config) returns (errors: seq<Problem>)
    ensures forall p :: p in errors <==>
              p.Duplicate? && (p.what.AdapterId? || p.what.AdapterAddress?) && Repeated(c, p.what, p.at, p.first)
  {
    errors := [];
    var ids: map<string, nat>, macs: map<Mac, nat> := map[], map[];
    for n := 0 to |c.adapters|
      invariant Seen(AdapterIds(c), n, ids) && Seen(AdapterMacs(c), n, macs)
      invariant forall p :: p in errors <==>
                  && p.Duplicate? && (p.what.AdapterId? || p.what.AdapterAddress?) && p.at < n
                  && Repeated(c, p.what, p.at, p.first)
    {
      ids, errors := NoteDuplicate(c, AdapterId, AdapterIds(c), n, ids, errors);
      macs, errors := NoteDuplicate(c, AdapterAddress, AdapterMacs(c), n, macs, errors);
    }
  }

  method CheckTncs(c: Config) returns (errors: seq<Problem>)
    ensures forall p :: p in errors <==>
              && p.Duplicate? && (p.what.TncId? || p.what.TncSpp? || p.what.TncBle? || p.what.TncPath?)
              && Repeated(c, p.what, p.at, p.first)
  {
    errors := [];
    var ids: map<string, nat>, paths: map<string, nat> := map[], map[];
    var spp: map<(Mac, AdapterSel), nat>, ble: map<(Mac, AdapterSel), nat> := map[], map[];
    for n := 0 to |c.tncs|
      invariant Seen(TncIds(c), n, ids) && Seen(SppKeys(c), n, spp) && Seen(BleKeys(c), n, ble) && Seen(Paths(c), n, paths)
      invariant forall p :: p in errors <==>
                  && p.Duplicate? && (p.what.TncId? || p.what.TncSpp? || p.what.TncBle? || p.what.TncPath?) && p.at < n
                  && Repeated(c, p.what, p.at, p.first)
    {
      ids, errors := NoteDuplicate(c, TncId, TncIds(c), n, ids, errors);
      spp, errors := NoteDuplicate(c, TncSpp, SppKeys(c), n, spp, errors);
      ble, errors := NoteDuplicate(c, TncBle, BleKeys(c), n, ble, errors);
      paths, errors := NoteDuplicate(c, TncPath, Paths(c), n, paths, errors);
    }
  }

  method CheckPorts(b: Bridge, i: nat) returns (errors: seq<Problem>)
    ensures forall p :: p in errors <==>
              p.DuplicatePort? && p.bridge == i && PortRepeats(b, p.at)
  {
    errors := [];
    var seen: map<string, nat> := map[];
    for n := 0 to |b.ports|
      invariant Seen(PortIds(b), n, seen)
      invariant forall p :: p in errors <==>
                  p.DuplicatePort? && p.bridge == i && p.at < n && PortRepeats(b, p.at)
    {
      var first;
      seen, first := Note(PortIds(b), n, seen);
      assert PortRepeats(b, n) <==> first.Some?;
      if first.Some? { errors := errors + [DuplicatePort(i, n)]; }
    }
  }

  method CheckBridge(c: Config, i: nat) returns (errors: seq<Problem>)
    requires i < |c.bridges|
    ensures forall p :: p in errors <==> !p.Duplicate? && BridgeProblem(c, i, p)
  {
    var b := c.bridges[i];
    errors := CheckPorts(b, i);
    var tnc, app := CountRole(b.ports, TncRole), CountRole(b.ports, AppRole);
    if b.enabled && tnc != 1 { errors := errors + [NotOneTncPort(i, tnc)]; }
    if b.enabled && app == 0 { errors := errors + [NoAppPort(i)]; }
  }

  /** A problem of one of the first `n` bridges by itself. */
  ghost predicate EarlierProblem(c: Config, n: nat, p: Problem)
    requires n <= |c.bridges|
  {
    exists i :: 0 <= i < n && BridgeProblem(c, i, p)
  }

  lemma NextProblem(c: Config, n: nat, p: Problem)
    requires n < |c.bridges|
    ensures EarlierProblem(c, n + 1, p) <==> EarlierProblem(c, n, p) || BridgeProblem(c, n, p)
  {
  }

  method CheckNext(c: Config, n: nat, ids: map<string, nat>, names: map<string, nat>, errors: seq<Problem>)
    returns (ids': map<string, nat>, names': map<string, nat>, errors': seq<Problem>)
    requires n < |c.bridges| && Seen(BridgeIds(c), n, ids) && Seen(BridgeNames(c), n, names)
    ensures Seen(BridgeIds(c), n + 1, ids') && Seen(BridgeNames(c), n + 1, names')
    ensures forall p :: p in errors' <==> p in errors || BridgeProblem(c, n, p)
  {
    ids', errors' := NoteDuplicate(c, BridgeId, BridgeIds(c), n, ids, errors);
    names', errors' := NoteDuplicate(c, BridgeName, BridgeNames(c), n, names, errors');
    var more := CheckBridge(c, n);
    errors' := errors' + more;
  }

  method CheckBridges(c: Config) returns (errors: seq<Problem>)
    ensures forall p :: p in errors <==> EarlierProblem(c, |c.bridges|, p)
  {
    errors := [];
    var ids: map<string, nat>, names: map<string, nat> := map[], map[];
    for n := 0 to |c.bridges|
      invariant Seen(BridgeIds(c), n, ids) && Seen(BridgeNames(c), n, names)
      invariant forall p :: p in errors <==> EarlierProblem(c, n, p)
    {
      ids, names, errors := CheckNext(c, n, ids, names, errors);
      forall p ensures p in errors <==> EarlierProblem(c, n + 1, p) { NextProblem(c, n, p); }
    }
  }

  method CheckPortPair(a: Bridge, i: nat, b: Bridge, j: nat, m: nat, n: nat) returns (errors: seq<Problem>)
    requires m < |a.ports| && n < |b.ports|
    ensures forall p :: p in errors <==>
              && p.Conflict? && p.a == i && p.b == j && !p.clash.SamePublicName? && p.clash.pa == m && p.clash.pb == n
              && PortsClash(a.ports[m], b.ports[n], p.clash)
  {
    errors := [];
    var pa, pb := a.ports[m].kind, b.ports[n].kind;
    if TncOf(pa).Some? && TncOf(pb).Some? && TncOf(pa).value == TncOf(pb).value {
      errors := errors + [Conflict(i, j, SameTnc(m, n))];
    }
    if pa.TcpServer? && pb.TcpServer? && ConflictsWith(pa.listen, pb.listen) {
      errors := errors + [Conflict(i, j, SameListen(m, n))];
    } else if pa.BleServer? && pb.BleServer? && pa.adapter == pb.adapter {
      errors := errors + [Conflict(i, j, SameAdapter(m, n))];
    }
  }

  predicate PairError(a: Bridge, i: nat, b: Bridge, j: nat, p: Problem) {
    p.Conflict? && p.a == i && p.b == j && BridgesClash(a, b, p.clash)
  }

  predicate OfPorts(p: Problem, m: nat, n: nat) {
    p.Conflict? && !p.clash.SamePublicName? && p.clash.pa == m && p.clash.pb < n
  }

  method CheckPair(a: Bridge, i: nat, b: Bridge, j: nat) returns (errors: seq<Problem>)
    ensures forall p :: p in errors <==> PairError(a, i, b, j, p)
  {
    errors := [];
    if a.publicName == b.publicName { errors := [Conflict(i, j, SamePublicName)]; }
    for m := 0 to |a.ports|
      invariant forall p :: p in errors <==>
                  PairError(a, i, b, j, p) && (p.clash.SamePublicName? || p.clash.pa < m)
    {
      ghost var before := errors;
      for n := 0 to |b.ports|
        invariant forall p :: p in errors <==> p in before || (PairError(a, i, b, j, p) && OfPorts(p, m, n))
      {
        var more := CheckPortPair(a, i, b, j, m, n);
        errors := errors + more;
      }
    }
  }

  /** Each pair of enabled bridges, the earlier one first. */
  method CheckPairs(c: Config) returns (errors: seq<Problem>)
    ensures forall p :: p in errors <==> PairProblem(c, p)
  {
    errors := [];
    for i := 0 to |c.bridges|
      invariant forall p :: p in errors <==> PairProblem(c, p) && p.a < i
    {
      if c.bridges[i].enabled {
        ghost var before := errors;
        for j := i + 1 to |c.bridges|
          invariant forall p :: p in errors <==> p in before || (PairProblem(c, p) && p.a == i && p.b < j)
        {
          if c.bridges[j].enabled {
            var more := CheckPair(c.bridges[i], i, c.bridges[j], j);
            errors := errors + more;
          }
        }
      }
    }
  }

  /** `validate` reports exactly the problems there are. */
  method Validate(c: Config) returns (errors: seq<Problem>)
    ensures forall p :: p in errors <==> Reported(c, p)
    ensures errors == [] <==> Valid(c)
  {
    var adapters := CheckAdapters(c);
    var tncs := CheckTncs(c);
    var bridges := CheckBridges(c);
    var pairs := CheckPairs(c);
    errors := adapters + tncs + bridges + pairs;
    forall p ensures p in errors <==> Reported(c, p) { Collected(c, p, adapters, tncs, bridges, pairs); }
    ValidIff(c);
    assert errors != [] ==> errors[0] in errors;
  }

  lemma Collected(c: Config, p: Problem, adapters: seq<Problem>, tncs: seq<Problem>, bridges: seq<Problem>, pairs: seq<Problem>)
    requires p in adapters <==> p.Duplicate? && (p.what.AdapterId? || p.what.AdapterAddress?) && Repeated(c, p.what, p.at, p.first)
    requires p in tncs <==>
             && p.Duplicate? && (p.what.TncId? || p.what.TncSpp? || p.what.TncBle? || p.what.TncPath?)
             && Repeated(c, p.what, p.at, p.first)
    requires p in bridges <==> EarlierProblem(c, |c.bridges|, p)
    requires p in pairs <==> PairProblem(c, p)
    ensures p in adapters + tncs + bridges + pairs <==> Reported(c, p)
  {
    if p.Duplicate? && (p.what.BridgeId? || p.what.BridgeName?) && Repeated(c, p.what, p.at, p.first) {
      assert BridgeProblem(c, p.at, p);
    }
  }

  // ── What a config without errors is ─────────────────────────────────

  ghost predicate KeysDistinct(c: Config, what: What) {
    match what
    case AdapterId => Distinct(AdapterIds(c))
    case AdapterAddress => Distinct(AdapterMacs(c))
    case TncId => Distinct(TncIds(c))
    case TncSpp => Distinct(SppKeys(c))
    case TncBle => Distinct(BleKeys(c))
    case TncPath => Distinct(Paths(c))
    case BridgeId => Distinct(BridgeIds(c))
    case BridgeName => Distinct(BridgeNames(c))
  }

  /** The part of validity that doesn't depend on which bridges are enabled. */
  ghost predicate WellDefined(c: Config) {
    && (forall what :: KeysDistinct(c, what))
    && forall b :: b in c.bridges ==> Distinct(PortIds(b))
  }

  /** Two bridges that can't both be enabled. */
  ghost predicate Exclusive(a: Bridge, b: Bridge) {
    exists clash :: BridgesClash(a, b, clash)
  }

  ghost predicate Valid(c: Config) {
    && WellDefined(c)
    && (forall b :: b in c.bridges && b.enabled ==> Complete(b))
    && (forall i, j :: 0 <= i < j < |c.bridges| && c.bridges[i].enabled && c.bridges[j].enabled ==>
          !Exclusive(c.bridges[i], c.bridges[j]))
  }

  ghost predicate NoReports(c: Config) {
    forall p :: !Reported(c, p)
  }

  lemma KeysOf<K>(c: Config, what: What, keys: seq<Option<K>>)
    requires forall at: nat, first: nat :: Repeated(c, what, at, first) <==> Repeats(keys, at, first)
    ensures Distinct(keys) <==> forall at: nat, first: nat :: !Repeated(c, what, at, first)
  {
    DistinctIff(keys);
  }

  lemma DistinctKeys(c: Config, what: What)
    ensures KeysDistinct(c, what) <==> forall at: nat, first: nat :: !Repeated(c, what, at, first)
  {
    match what
    case AdapterId => KeysOf(c, what, AdapterIds(c));
    case AdapterAddress => KeysOf(c, what, AdapterMacs(c));
    case TncId => KeysOf(c, what, TncIds(c));
    case TncSpp => KeysOf(c, what, SppKeys(c));
    case TncBle => KeysOf(c, what, BleKeys(c));
    case TncPath => KeysOf(c, what, Paths(c));
    case BridgeId => KeysOf(c, what, BridgeIds(c));
    case BridgeName => KeysOf(c, what, BridgeNames(c));
  }

  lemma NoneRepeated(c: Config, what: What)
    requires NoReports(c)
    ensures KeysDistinct(c, what)
  {
    forall at: nat, first: nat ensures !Repeated(c, what, at, first) {
      assert !Reported(c, Duplicate(what, at, first));
    }
    DistinctKeys(c, what);
  }

  lemma NoReportsBridge(c: Config, i: nat)
    requires NoReports(c) && i < |c.bridges|
    ensures Distinct(PortIds(c.bridges[i]))
    ensures c.bridges[i].enabled ==> Complete(c.bridges[i])
  {
    var b := c.bridges[i];
    forall at: nat, first: nat ensures !Repeats(PortIds(b), at, first) {
      assert !Reported(c, DuplicatePort(i, at));
      assert !PortRepeats(b, at);
    }
    DistinctIff(PortIds(b));
    assert !Reported(c, NotOneTncPort(i, CountRole(b.ports, TncRole)));
    assert !Reported(c, NoAppPort(i));
  }

  lemma NoReportsPair(c: Config, i: nat, j: nat)
    requires NoReports(c) && i < j < |c.bridges| && c.bridges[i].enabled && c.bridges[j].enabled
    ensures !Exclusive(c.bridges[i], c.bridges[j])
  {
    forall clash ensures !BridgesClash(c.bridges[i], c.bridges[j], clash) {
      assert !Reported(c, Conflict(i, j, clash));
    }
  }

  lemma NoReportsValid(c: Config)
    requires NoReports(c)
    ensures Valid(c)
  {
    forall what ensures KeysDistinct(c, what) { NoneRepeated(c, what); }
    forall i: nat | i < |c.bridges|
      ensures Distinct(PortIds(c.bridges[i])) && (c.bridges[i].enabled ==> Complete(c.bridges[i])) { NoReportsBridge(c, i); }
    forall i, j | 0 <= i < j < |c.bridges| && c.bridges[i].enabled && c.bridges[j].enabled
      ensures !Exclusive(c.bridges[i], c.bridges[j]) { NoReportsPair(c, i, j); }
  }

  lemma ValidNoReport(c: Config, p: Problem)
    requires Valid(c)
    ensures !Reported(c, p)
  {
    if p.Duplicate? {
      DistinctKeys(c, p.what);
    } else if p.Conflict? {
      if p.a < p.b < |c.bridges| && c.bridges[p.a].enabled && c.bridges[p.b].enabled {
        assert !Exclusive(c.bridges[p.a], c.bridges[p.b]);
      }
    } else if p.bridge < |c.bridges| {
      assert c.bridges[p.bridge] in c.bridges;
      DistinctIff(PortIds(c.bridges[p.bridge]));
    }
  }

  /** The errors split: none exactly when every object is well defined, every
      enabled bridge is complete, and no two enabled bridges clash. */
  lemma ValidIff(c: Config)
    ensures Valid(c) <==> forall p :: !Reported(c, p)
  {
    if Valid(c) {
      forall p ensures !Reported(c, p) { ValidNoReport(c, p); }
    }
    if NoReports(c) { NoReportsValid(c); }
  }
}

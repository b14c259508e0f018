/** The activity coalescer (`coalesce` in src/control/events.rs): byte
    counts go in, and for each key one event at most comes out every 100 ms
    with their sum. Times are milliseconds that never go back. */
module Coalesce {
  import opened Common

  const INTERVAL: int := 100
  const FORGET: int := 60_000

  datatype Dir = Rx | Tx

  datatype Key = Key(object: string, dir: Dir)

  datatype Slot = Slot(last: int, pending: nat)

  /** Bytes counted for a key, on the way in or out, and when. */
  datatype Count = Count(key: Key, bytes: nat, at: int)

  /** The coalescer's slots, with everything that came in and went out so far. */
  datatype State = State(slots: map<Key, Slot>, got: seq<Count>, out: seq<Count>, clock: int)

  function Sum(s: seq<Count>, k: Key): nat {
    if |s| == 0 then 0
    else Sum(s[..|s| - 1], k) + (if s[|s| - 1].key == k then s[|s| - 1].bytes else 0)
  }

  function Pending(slots: map<Key, Slot>, k: Key): nat {
    if k in slots then slots[k].pending else 0
  }

  predicate Due(slot: Slot, now: int) {
    now - slot.last >= INTERVAL
  }

  // ── The two arms of the loop ────────────────────────────────────────

  function Entry(slots: map<Key, Slot>, k: Key, now: int): Slot {
    if k in slots then slots[k] else Slot(now - INTERVAL, 0)
  }

  /** Bytes arrive. */
  function Receive(s: State, k: Key, bytes: nat, now: int): State {
    var slot := Entry(s.slots, k, now).(pending := Entry(s.slots, k, now).pending + bytes);
    var got := s.got + [Count(k, bytes, now)];
    if Due(slot, now)
    then State(s.slots[k := Slot(now, 0)], got, s.out + [Count(k, slot.pending, now)], now)
    else State(s.slots[k := slot], got, s.out, now)
  }

  predicate Overdue(slots: map<Key, Slot>, k: Key, now: int) {
    k in slots && slots[k].pending > 0 && Due(slots[k], now)
  }

  /** One slot's turn in a tick. */
  function Flush(s: State, k: Key, now: int): State {
    if Overdue(s.slots, k, now)
    then State(s.slots[k := Slot(now, 0)], s.got, s.out + [Count(k, s.slots[k].pending, now)], now)
    else s.(clock := now)
  }

  /** Every slot has its turn, in whatever order the table gives them. */
  ghost predicate Flushed(s: State, todo: set<Key>, now: int, t: State)
    decreases |todo|
  {
    if |todo| == 0 then t == s.(clock := now)
    else exists k :: k in todo && Flushed(Flush(s, k, now), todo - {k}, now, t)
  }

  predicate Kept(slot: Slot, now: int) {
    slot.pending > 0 || now - slot.last < FORGET
  }

  function Forget(s: State, now: int): State {
    s.(slots := map k | k in s.slots && Kept(s.slots[k], now) :: s.slots[k])
  }

  ghost predicate Ticked(s: State, now: int, t: State) {
    exists f :: Flushed(s, s.slots.Keys, now, f) && t == Forget(f, now)
  }

  // ── What holds throughout ───────────────────────────────────────────

  /** What went out and what waits is what came in. */
  ghost predicate Conserved(s: State) {
    forall k :: Sum(s.out, k) + Pending(s.slots, k) == Sum(s.got, k)
  }

  ghost predicate Spaced(out: seq<Count>) {
    forall i, j :: 0 <= i < j < |out| && out[i].key == out[j].key ==> out[j].at - out[i].at >= INTERVAL
  }

  /** A key last went out no later than its slot says; a key with no slot went
      out an interval ago or more. */
  ghost predicate Remembered(s: State) {
    && (forall k :: k in s.slots ==> s.slots[k].last <= s.clock)
    && (forall i :: 0 <= i < |s.out| ==>
          if s.out[i].key in s.slots then s.out[i].at <= s.slots[s.out[i].key].last
          else s.out[i].at + INTERVAL <= s.clock)
  }

  ghost predicate WentOut(out: seq<Count>, k: Key, at: int) {
    exists i :: 0 <= i < |out| && out[i].key == k && out[i].at == at
  }

  ghost predicate OutWithin(out: seq<Count>, k: Key, now: int) {
    exists at :: now - INTERVAL < at <= now && WentOut(out, k, at)
  }

  /** A slot's time is that of an event that did go out, so bytes wait only
      behind an event of their own key. */
  ghost predicate Prompt(s: State) {
    forall k :: k in s.slots ==> WentOut(s.out, k, s.slots[k].last)
  }

  ghost predicate Inv(s: State) {
    Conserved(s) && Spaced(s.out) && Remembered(s) && Prompt(s)
  }

  lemma SumSnoc(s: seq<Count>, c: Count)
    ensures forall k :: Sum(s + [c], k) == Sum(s, k) + (if c.key == k then c.bytes else 0)
  {
    assert (s + [c])[..|s|] == s;
  }

  lemma WentOutGrows(out: seq<Count>, c: Count, k: Key, at: int)
    requires WentOut(out, k, at) || (c.key == k && c.at == at)
    ensures WentOut(out + [c], k, at)
  {
    var more := out + [c];
    if WentOut(out, k, at) {
      var i :| 0 <= i < |out| && out[i].key == k && out[i].at == at;
      assert more[i] == out[i];
    } else {
      assert more[|out|] == c;
    }
  }

  /** Letting a due slot out. */
  lemma EmitInv(s: State, k: Key, bytes: nat, now: int, t: State)
    requires Spaced(s.out) && Remembered(s) && Prompt(s) && s.clock <= now
    requires Due(Entry(s.slots, k, now), now)
    requires t == State(s.slots[k := Slot(now, 0)], t.got, s.out + [Count(k, bytes, now)], now)
    ensures Spaced(t.out) && Remembered(t) && Prompt(t)
  {
    forall q | q in t.slots ensures WentOut(t.out, q, t.slots[q].last) {
      WentOutGrows(s.out, Count(k, bytes, now), q, t.slots[q].last);
    }
  }

  lemma ReceiveInv(s: State, k: Key, bytes: nat, now: int)
    requires Inv(s) && s.clock <= now
    ensures Inv(Receive(s, k, bytes, now))
  {
    var t := Receive(s, k, bytes, now);
    var slot := Entry(s.slots, k, now);
    SumSnoc(s.got, Count(k, bytes, now));
    if Due(slot, now) {
      EmitInv(s, k, slot.pending + bytes, now, t);
      SumSnoc(s.out, Count(k, slot.pending + bytes, now));
    }
  }

  lemma FlushInv(s: State, k: Key, now: int)
    requires Inv(s) && s.clock <= now
    ensures Inv(Flush(s, k, now))
  {
    if Overdue(s.slots, k, now) {
      EmitInv(s, k, s.slots[k].pending, now, Flush(s, k, now));
      SumSnoc(s.out, Count(k, s.slots[k].pending, now));
    }
  }

  lemma FlushOne(s: State, k: Key, todo: set<Key>, now: int)
    requires forall q :: Overdue(s.slots, q, now) ==> q in todo
    ensures forall q :: Overdue(Flush(s, k, now).slots, q, now) ==> q in todo - {k}
    ensures Flush(s, k, now).clock == now
  {
    var t := Flush(s, k, now);
    forall q | Overdue(t.slots, q, now) ensures q in todo - {k} {
      assert Overdue(s.slots, q, now);
    }
  }

  /** A round of turns leaves nothing overdue among the slots it visits. */
  lemma {:induction false} FlushedInv(s: State, todo: set<Key>, now: int, t: State)
    requires Inv(s) && s.clock <= now && Flushed(s, todo, now, t)
    requires forall k :: Overdue(s.slots, k, now) ==> k in todo
    ensures Inv(t) && t.clock == now && t.got == s.got
    ensures forall k :: !Overdue(t.slots, k, now)
    ensures s.out <= t.out
    decreases |todo|
  {
    if |todo| > 0 {
      var k :| k in todo && Flushed(Flush(s, k, now), todo - {k}, now, t);
      FlushInv(s, k, now);
      FlushOne(s, k, todo, now);
      FlushedInv(Flush(s, k, now), todo - {k}, now, t);
    }
  }

  lemma ForgetInv(s: State, now: int)
    requires Inv(s) && s.clock == now
    requires forall k :: !Overdue(s.slots, k, now)
    ensures Inv(Forget(s, now))
    ensures forall k :: !Overdue(Forget(s, now).slots, k, now)
    ensures forall k :: k in Forget(s, now).slots ==> Kept(Forget(s, now).slots[k], now)
  {
    var t := Forget(s, now);
    forall k ensures !Overdue(t.slots, k, now) { assert !Overdue(s.slots, k, now); }
    forall k ensures Pending(t.slots, k) == Pending(s.slots, k) {}
  }

  lemma TickInv(s: State, now: int, t: State)
    requires Inv(s) && s.clock <= now && Ticked(s, now, t)
    ensures Inv(t) && t.clock == now && t.got == s.got && s.out <= t.out
    ensures forall k :: !Overdue(t.slots, k, now)
    ensures forall k :: k in t.slots ==> Kept(t.slots[k], now)
  {
    var f :| Flushed(s, s.slots.Keys, now, f) && t == Forget(f, now);
    forall k | Overdue(s.slots, k, now) ensures k in s.slots.Keys {}
    FlushedInv(s, s.slots.Keys, now, f);
    ForgetInv(f, now);
  }

  // ── Runs ────────────────────────────────────────────────────────────

  datatype Input = Bytes(key: Key, bytes: nat) | Tick

  datatype Timed = Timed(input: Input, now: int)

  ghost predicate Step(s: State, i: Timed, t: State) {
    && s.clock <= i.now
    && match i.input
       case Bytes(k, n) => t == Receive(s, k, n, i.now)
       case Tick => Ticked(s, i.now, t)
  }

  function Start(now: int): State {
    State(map[], [], [], now)
  }

  /** `trace` is what the loop goes through on `inputs`. */
  ghost predicate IsRun(inputs: seq<Timed>, trace: seq<State>) {
    && |trace| == |inputs| + 1
    && trace[0] == Start(trace[0].clock)
    && forall i :: 0 <= i < |inputs| ==> Step(trace[i], inputs[i], trace[i + 1])
  }

  lemma {:induction false} RunInv(inputs: seq<Timed>, trace: seq<State>, n: nat)
    requires IsRun(inputs, trace) && n < |trace|
    ensures Inv(trace[n])
  {
    if n > 0 {
      RunInv(inputs, trace, n - 1);
      var i := inputs[n - 1];
      assert Step(trace[n - 1], i, trace[n]);
      match i.input
      case Bytes(k, b) => ReceiveInv(trace[n - 1], k, b, i.now);
      case Tick => TickInv(trace[n - 1], i.now, trace[n]);
    }
  }

  function BytesOf(inputs: seq<Timed>, k: Key): nat {
    if |inputs| == 0 then 0
    else
      var i := inputs[|inputs| - 1].input;
      BytesOf(inputs[..|inputs| - 1], k) + (if i.Bytes? && i.key == k then i.bytes else 0)
  }

  lemma {:induction false} GotIsInput(inputs: seq<Timed>, trace: seq<State>, n: nat, k: Key)
    requires IsRun(inputs, trace) && n < |trace|
    ensures Sum(trace[n].got, k) == BytesOf(inputs[..n], k)
  {
    if n > 0 {
      GotIsInput(inputs, trace, n - 1, k);
      RunInv(inputs, trace, n - 1);
      var i := inputs[n - 1];
      assert inputs[..n][..n - 1] == inputs[..n - 1];
      assert Step(trace[n - 1], i, trace[n]);
      match i.input
      case Bytes(q, b) => SumSnoc(trace[n - 1].got, Count(q, b, i.now));
      case Tick => TickInv(trace[n - 1], i.now, trace[n]);
    }
  }

  /** In every run and for every key: the bytes out and the bytes waiting are
      the bytes received. */
  lemma NothingLost(inputs: seq<Timed>, trace: seq<State>, n: nat, k: Key)
    requires IsRun(inputs, trace) && n < |trace|
    ensures Sum(trace[n].out, k) + Pending(trace[n].slots, k) == BytesOf(inputs[..n], k)
  {
    RunInv(inputs, trace, n);
    GotIsInput(inputs, trace, n, k);
  }

  /** Any two events of one key are 100 ms apart, also when the slot was
      forgotten and made again between them. */
  lemma RateLimited(inputs: seq<Timed>, trace: seq<State>, n: nat, i: nat, j: nat)
    requires IsRun(inputs, trace) && n < |trace|
    requires i < j < |trace[n].out| && trace[n].out[i].key == trace[n].out[j].key
    ensures trace[n].out[j].at - trace[n].out[i].at >= INTERVAL
  {
    RunInv(inputs, trace, n);
  }

  /** After a tick, a key with bytes waiting had an event less than 100 ms ago. */
  lemma NothingOverdue(inputs: seq<Timed>, trace: seq<State>, n: nat, k: Key)
    requires IsRun(inputs, trace) && n < |inputs| && inputs[n].input == Tick
    ensures Pending(trace[n + 1].slots, k) > 0 ==> OutWithin(trace[n + 1].out, k, inputs[n].now)
  {
    RunInv(inputs, trace, n);
    assert Step(trace[n], inputs[n], trace[n + 1]);
    var t := trace[n + 1];
    TickInv(trace[n], inputs[n].now, t);
    if Pending(t.slots, k) > 0 {
      assert !Overdue(t.slots, k, inputs[n].now);
      assert WentOut(t.out, k, t.slots[k].last);
    }
  }

  // ── The loop itself ─────────────────────────────────────────────────

  class Coalescer {
    var slots: map<Key, Slot>
    /** The events sent, in order. */
    var out: seq<Count>
    ghost var got: seq<Count>
    ghost var clock: int

    ghost function View(): State
      reads this
    {
      State(slots, got, out, clock)
    }

    constructor (ghost now: int)
      ensures View() == Start(now)
    {
      slots, out, got, clock := map[], [], [], now;
    }

    method OnBytes(k: Key, bytes: nat, now: int)
      modifies this
      ensures View() == Receive(old(View()), k, bytes, now)
    {
      if k !in slots {
        slots := slots[k := Slot(now - INTERVAL, 0)];
      }
      slots := slots[k := slots[k].(pending := slots[k].pending + bytes)];
      if now - slots[k].last >= INTERVAL {
        out := out + [Count(k, slots[k].pending, now)];
        slots := slots[k := Slot(now, 0)];
      }
      got := got + [Count(k, bytes, now)];
      clock := now;
    }

    method OnTick(now: int)
      modifies this
      ensures Ticked(old(View()), now, View())
    {
      var todo := slots.Keys;
      clock := now;
      ghost var start := View();
      while |todo| > 0
        invariant todo <= slots.Keys && clock == now
        invariant forall t :: Flushed(View(), todo, now, t) ==> Flushed(start, start.slots.Keys, now, t)
        decreases |todo|
      {
        var k :| k in todo;
        ghost var before := View();
        if slots[k].pending > 0 && now - slots[k].last >= INTERVAL {
          out := out + [Count(k, slots[k].pending, now)];
          slots := slots[k := Slot(now, 0)];
        }
        assert View() == Flush(before, k, now);
        forall t | Flushed(View(), todo - {k}, now, t) ensures Flushed(start, start.slots.Keys, now, t) {
          assert Flushed(before, todo, now, t);
        }
        todo := todo - {k};
      }
      assert Flushed(start, start.slots.Keys, now, View());
      assert Flushed(old(View()), start.slots.Keys, now, View()) by { ClockFirst(old(View()), start.slots.Keys, now, View()); }
      slots := map k | k in slots && (slots[k].pending > 0 || now - slots[k].last < FORGET) :: slots[k];
    }
  }

  /** Only the turns matter, not the clock they start from. */
  lemma {:induction false} ClockFirst(s: State, todo: set<Key>, now: int, t: State)
    requires Flushed(s.(clock := now), todo, now, t)
    ensures Flushed(s, todo, now, t)
  {
    if |todo| > 0 {
      var k :| k in todo && Flushed(Flush(s.(clock := now), k, now), todo - {k}, now, t);
      assert Flush(s.(clock := now), k, now) == Flush(s, k, now);
    }
  }

  predicate Forward(inputs: seq<Timed>, start: int) {
    && (|inputs| > 0 ==> start <= inputs[0].now)
    && forall i :: 0 < i < |inputs| ==> inputs[i - 1].now <= inputs[i].now
  }

  /** The loop, on what it is woken for. */
  method Loop(inputs: seq<Timed>, start: int) returns (out: seq<Count>, ghost trace: seq<State>)
    requires Forward(inputs, start)
    ensures IsRun(inputs, trace)
    ensures out == trace[|inputs|].out
  {
    var c := new Coalescer(start);
    trace := [c.View()];
    for n := 0 to |inputs|
      invariant fresh(c)
      invariant |trace| == n + 1 && trace[0] == Start(start) && trace[n] == c.View()
      invariant c.clock == if n == 0 then start else inputs[n - 1].now
      invariant forall i :: 0 <= i < n ==> Step(trace[i], inputs[i], trace[i + 1])
    {
      ghost var before := c.View();
      match inputs[n].input {
        case Bytes(k, b) => c.OnBytes(k, b, inputs[n].now);
        case Tick =>
          c.OnTick(inputs[n].now);
          TickClock(before, inputs[n].now, c.View());
      }
      trace := trace + [c.View()];
    }
    out := c.out;
  }

  lemma {:induction false} FlushedClock(s: State, todo: set<Key>, now: int, t: State)
    requires Flushed(s, todo, now, t)
    ensures t.clock == now
    decreases |todo|
  {
    if |todo| > 0 {
      var k :| k in todo && Flushed(Flush(s, k, now), todo - {k}, now, t);
      FlushedClock(Flush(s, k, now), todo - {k}, now, t);
    }
  }

  lemma TickClock(s: State, now: int, t: State)
    requires Ticked(s, now, t)
    ensures t.clock == now
  {
    var f :| Flushed(s, s.slots.Keys, now, f) && t == Forget(f, now);
    FlushedClock(s, s.slots.Keys, now, f);
  }
}

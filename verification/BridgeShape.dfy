/** What the bridge's link looks like in every reachable state: the writer,
    the pending queue, the published state, and demand for the link. */
module BridgeShape {
  import opened Common
  import opened Policy
  import opened BridgeState

  // ── Shape ───────────────────────────────────────────────────────────

  /** The delay the documentation promises: 1 s doubling to 30 s. */
  function PromisedDelay(attempt: nat): nat
    requires attempt >= 1
  {
    Min(1_000 * Pow2(attempt - 1), 30_000)
  }

  predicate ShownMatches(s: State) {
    match s.link
    case Idle => s.shown == ShowIdle
    case Connected(_) => s.shown == ShowConnected
    case Connecting(_) =>
      (match s.waiting
       case None => s.shown == ShowConnecting
       case Some(Unpaired) => s.shown.ShowUnpaired?
       case Some(Device) => s.shown.ShowWaitingForDevice?)
    case Backoff(_) =>
      match s.waiting
      case None => s.attempt >= 1 && s.shown == ShowBackoff(s.attempt, PromisedDelay(s.attempt))
      case Some(Unpaired) => s.shown.ShowUnpaired?
      case Some(Device) => s.shown.ShowWaitingForDevice?
  }

  predicate Trying(s: State) {
    s.link.Connecting? || s.link.Backoff?
  }

  predicate Shape(s: State) {
    && (s.writer.Some? <==> s.link.Connected?)
    && |s.pending| <= UPLINK_QUEUE_FRAMES
    && (s.pending != [] ==> Trying(s))
    && (s.waiting.Some? ==> Trying(s))
    && (s.link.Connecting? || s.link.Connected? ==> s.link.via == s.connector)
    && ShownMatches(s)
  }

  lemma {:induction false} Pow2Grows(a: nat, b: nat)
    requires a <= b
    ensures 1 <= Pow2(a) <= Pow2(b)
    decreases b - a, a
  {
    if a < b {
      Pow2Grows(a, b - 1);
    } else if a > 0 {
      Pow2Grows(a - 1, a - 1);
    }
  }

  /** The capped shift never shows: the delay is the promised one. */
  lemma DelayAsPromised(attempt: nat)
    requires attempt >= 1
    ensures BackoffDelay(attempt) == PromisedDelay(attempt)
  {
    if attempt - 1 > 16 {
      Pow2Grows(5, 16);
      Pow2Grows(5, attempt - 1);
      assert Pow2(5) == 32;
    }
  }

  /** Flushing changes what is on the channels and the counts, and nothing
      the link's state depends on. */
  predicate SameLink(s: State, t: State) {
    && t.link == s.link && t.writer == s.writer && t.pending == s.pending && t.waiting == s.waiting
    && t.shown == s.shown && t.attempt == s.attempt && t.connector == s.connector && t.running == s.running
    && t.settings == s.settings && t.sessions == s.sessions && t.held == s.held && t.idleTimer == s.idleTimer
    && t.generation == s.generation && t.now == s.now && t.consumed == s.consumed && t.nextSeq == s.nextSeq
    && t.linkStart == s.linkStart && t.exitKiss == s.exitKiss && |t.links| == |s.links|
    && |t.arrived| >= |s.arrived| && t.arrived[..|s.arrived|] == s.arrived
    && t.counters.framesDown == s.counters.framesDown
  }

  lemma FlushOneFrame(s: State, entry: Pending, cutoff: int, writerDies: bool)
    requires s.link.Connected?
    ensures SameLink(s, FlushOne(s, entry, cutoff, writerDies))
  {
  }

  lemma {:induction false} FlushFrame(s: State, entries: seq<Pending>, cutoff: int, dieAt: nat)
    requires s.link.Connected?
    ensures SameLink(s, Flush(s, entries, cutoff, dieAt))
    decreases |entries|
  {
    if |entries| > 0 {
      FlushOneFrame(s, entries[0], cutoff, dieAt == 0);
      FlushFrame(FlushOne(s, entries[0], cutoff, dieAt == 0), entries[1..], cutoff, if dieAt == 0 then 0 else dieAt - 1);
    }
  }

  lemma ShapeDisconnect(s: State)
    requires Shape(s)
    ensures Shape(Disconnect(s)) && Shape(LetGo(s))
  {
  }

  lemma ShapeConnect(s: State)
    requires Shape(s) && !s.link.Connected?
    ensures Shape(StartConnect(s))
  {
  }

  lemma ShapeUplink(s: State, frame: Frame, from: Option<SessionId>)
    requires Shape(s)
    ensures Shape(Uplink(s, frame, from))
  {
  }

  lemma ShapeApp(s: State, ev: AppEvent)
    requires Shape(s)
    ensures Shape(OnApp(s, ev))
  {
    match ev
    case SessionOpened(id) =>
      var s1 := AddSession(s, id);
      if !s1.link.Connected? { ShapeConnect(s1); }
    case SessionClosed(id) =>
      ShapeDisconnect(RemoveSession(s, id));
    case AppFrame(id, frame) =>
      ShapeUplink(Accept(s, frame), frame, Some(id));
  }

  lemma ShapeSettings(s: State, new_: Settings)
    requires Shape(s)
    ensures Shape(ApplySettings(s, new_))
  {
    ShapeDisconnect(SetSettings(s, new_));
  }

  lemma ShapeConnector(s: State, c: nat)
    requires Shape(s)
    ensures Shape(OnConnector(s, c))
  {
    ShapeDisconnect(s);
  }

  lemma ShapeHold(s: State, hold: Option<bool>)
    requires Shape(s)
    ensures Shape(OnHold(s, hold))
  {
    ShapeDisconnect(SetHold(s, hold));
  }

  lemma ShapeKick(s: State, id: SessionId)
    requires Shape(s)
    ensures Shape(OnKick(s, id))
  {
  }

  lemma ShapeCmd(s: State, cmd: Cmd)
    requires Shape(s)
    ensures Shape(OnCmd(s, cmd))
  {
    match cmd
    case NewSettings(new_) => ShapeSettings(s, new_);
    case NewConnector(c) => ShapeConnector(s, c);
    case Kick(id) => ShapeKick(s, id);
    case Hold(hold) => ShapeHold(s, hold);
  }

  /** Backing off from a link that is not up. */
  lemma ShapeBackoff(s: State)
    requires s.writer.None? && |s.pending| <= UPLINK_QUEUE_FRAMES && s.waiting.None?
    ensures Shape(StartBackoff(s))
  {
    DelayAsPromised(s.attempt + 1);
  }

  lemma ShapeFrame(s: State, ev: TncEvent, full: set<SessionId>)
    requires Shape(s) && ev.TncFrame?
    ensures Shape(OnTncFrame(s, ev, full))
  {
  }

  lemma ShapeClosed(s: State, ev: TncEvent)
    requires Shape(s) && ev.TncClosed?
    ensures Shape(OnTncClosed(s, ev))
  {
    if s.link.Connected? { ShapeBackoff(ResetAttempt(Lose(s))); }
  }

  lemma ShapeTnc(s: State, full: set<SessionId>)
    requires Shape(s) && s.consumed < |s.arrived|
    ensures Shape(OnTnc(s, full))
  {
    var ev := s.arrived[s.consumed];
    assert Shape(TakeEvent(s));
    if ev.TncFrame? { ShapeFrame(TakeEvent(s), ev, full); } else { ShapeClosed(TakeEvent(s), ev); }
  }

  lemma ShapeLinkUp(s: State, exitKiss: seq<seq<byte>>, dieAt: nat)
    requires Shape(s) && s.link.Connecting?
    ensures Shape(OnLinkUp(s, exitKiss, dieAt))
  {
    FlushFrame(OpenLink(s, exitKiss), s.pending, s.now - UPLINK_QUEUE_AGE, dieAt);
    ShapeDisconnect(Flushed(s, exitKiss, dieAt));
  }

  lemma ShapeFailed(s: State, error: ConnectError)
    requires Shape(s) && s.link.Connecting?
    ensures Shape(OnLinkFailed(s, error))
  {
    ShapeBackoff(StopWaiting(s));
  }

  lemma ShapeBackoffOver(s: State)
    requires Shape(s) && s.link.Backoff?
    ensures Shape(OnBackoffOver(s))
  {
    ShapeConnect(s);
  }

  lemma ShapeIdleElapsed(s: State)
    requires Shape(s)
    ensures Shape(OnIdleElapsed(s))
  {
    ShapeDisconnect(StopTimer(s));
  }

  lemma ShapeLink(s: State, i: Input)
    requires Shape(s) && Enabled(s, i) && (i.LinkFailed? || i.BackoffOver? || i.IdleElapsed?)
    ensures Shape(Step(s, i))
  {
    if i.LinkFailed? { ShapeFailed(s, i.error); } else if i.BackoffOver? { ShapeBackoffOver(s); } else { ShapeIdleElapsed(s); }
  }

  lemma ShapeStep(s: State, i: Input)
    requires Shape(s) && Enabled(s, i)
    ensures Shape(Step(s, i))
  {
    match i
    case App(ev) => ShapeApp(s, ev);
    case Tnc(full) => ShapeTnc(s, full);
    case Command(cmd) => ShapeCmd(s, cmd);
    case LinkUp(exitKiss, dieAt) => ShapeLinkUp(s, exitKiss, dieAt);
    case LinkFailed(_) => ShapeLink(s, i);
    case BackoffOver => ShapeLink(s, i);
    case IdleElapsed => ShapeLink(s, i);
    case Shutdown => ShapeDisconnect(s);
    case _ =>
  }

  // ── Demand ──────────────────────────────────────────────────────────

  /** While nobody holds the link: idle means unwanted, and an unwanted link
      that is not idle is on its way out. And whenever somebody could use the
      link, it is not idle. */
  predicate Demand(s: State) {
    s.running ==>
      && (s.held.None? && s.link.Idle? ==> !WantsLink(s))
      && (s.held.None? && !s.link.Idle? && !WantsLink(s) ==> s.idleTimer.Some?)
      && (|s.sessions| > 0 && s.held != Some(false) ==> !s.link.Idle?)
  }

  lemma DemandApp(s: State, ev: AppEvent)
    requires Demand(s) && s.running
    ensures Demand(OnApp(s, ev))
  {
  }

  lemma DemandCmd(s: State, cmd: Cmd)
    requires Demand(s) && s.running
    ensures Demand(OnCmd(s, cmd))
  {
  }

  lemma DemandTnc(s: State, full: set<SessionId>)
    requires Demand(s) && s.running && s.consumed < |s.arrived|
    ensures Demand(OnTnc(s, full))
  {
  }

  /** Every step keeps the link in line with the demand for it. */
  lemma DemandStep(s: State, i: Input)
    requires Demand(s) && Enabled(s, i)
    ensures Demand(Step(s, i))
  {
    match i
    case App(ev) => DemandApp(s, ev);
    case Tnc(full) => DemandTnc(s, full);
    case Command(cmd) => DemandCmd(s, cmd);
    case LinkUp(exitKiss, dieAt) =>
      FlushFrame(OpenLink(s, exitKiss), s.pending, s.now - UPLINK_QUEUE_AGE, dieAt);
    case _ =>
  }
}

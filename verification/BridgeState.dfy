/** The bridge's event loop as a state machine (src/bridge/mod.rs).

    `State` holds the fields of the source's `Run`, the channels around it
    (one writer channel per link ever opened, and the queue of events from the
    links' tasks), and counts of what happened so far. Each handler is a
    function from state to state; `Step` is one turn of the select loop, or one
    move of the tasks and clocks around it. */
module BridgeState {
  import opened Common
  import opened Policy

  // ── Constants (milliseconds) ────────────────────────────────────────

  const UPLINK_QUEUE_FRAMES: nat := 32
  const UPLINK_QUEUE_AGE: nat := 5_000
  const BACKOFF_MIN: nat := 1_000
  const BACKOFF_MAX: nat := 30_000
  const UNPAIRED_POLL: nat := 5_000
  const DEVICE_POLL: nat := 2_000
  const WRITER_QUEUE: nat := 256

  // ── Values ──────────────────────────────────────────────────────────

  datatype ConnectPolicy = OnDemand | Always

  datatype Settings = Settings(portId: string, connect: ConnectPolicy, idleTimeout: nat,
                               appParams: AppParams, exitKissOnDisconnect: bool)

  datatype SessionId = SessionId(port: string, peer: string)

  /** `got` is what the bridge put on the session's channel since it opened. */
  datatype Session = Session(seqNo: nat, kicked: bool, got: seq<Frame>, openedAt: nat)

  /** The published state of the TNC port. */
  datatype Shown =
    | ShowIdle
    | ShowConnecting
    | ShowConnected
    | ShowBackoff(attempt: nat, retryIn: nat)
    | ShowUnpaired(why: string)
    | ShowWaitingForDevice(why: string)

  datatype Wait = Unpaired | Device

  /** `via` is the connector the attempt or the link belongs to. */
  datatype Link =
    | Idle
    | Connecting(via: nat)
    | Connected(via: nat)
    | Backoff(until: nat)

  datatype Pending = Pending(at: nat, frame: Frame, from: Option<SessionId>)

  datatype Counters = Counters(framesUp: nat, framesDown: nat, dropped: nat, sessions: nat, tncConnects: nat)

  // ── The tasks around the loop ───────────────────────────────────────

  datatype WriterMsg = FrameMsg(frame: Frame) | ExitKissMsg(steps: seq<seq<byte>>)

  /** How the bridge is done with a link, if it is. */
  datatype Fate = InUse | ClosedOnPurpose | LinkLost

  /** One link that was opened, and its writer's channel: everything the
      channel accepted, how much of it the writer has taken, and whether the
      writer is still there. */
  datatype Channel = Channel(generation: nat, sent: seq<WriterMsg>, taken: nat, alive: bool, fate: Fate)

  function Room(ch: Channel): int {
    if ch.alive then WRITER_QUEUE - (|ch.sent| - ch.taken) else WRITER_QUEUE
  }

  predicate Accepts(ch: Channel) {
    ch.alive && Room(ch) > 0
  }

  /** What a link's reader or writer reports. */
  datatype TncEvent = TncFrame(generation: nat, frame: Frame) | TncClosed(generation: nat)

  // ── The loop's state ────────────────────────────────────────────────

  /** What happened so far; nothing in the loop reads it. */
  datatype History = History(
    received: nat,            // frames apps sent
    refused: nat,             // of those: from an unknown session, or dropped by policy
    accepted: seq<Frame>,     // the rest, in arrival order
    upDropped: nat,           // accepted, then dropped and counted
    cleared: nat,             // accepted, then cleared by going idle
    lostToFull: nat,          // of upDropped: a live writer's queue was full
    downDropped: nat,         // copies for sessions that couldn't keep up
    heard: seq<TncEvent>,     // broadcast frames, in order
    losses: nat)              // times a link was taken as lost

  datatype State = State(
    now: nat,
    running: bool,
    settings: Settings,
    connector: nat,
    sessions: map<SessionId, Session>,
    nextSeq: nat,
    link: Link,
    writer: Option<nat>,      // the writer channel's place in `links`
    exitKiss: seq<seq<byte>>,
    generation: nat,
    attempt: nat,
    pending: seq<Pending>,
    idleTimer: Option<nat>,
    waiting: Option<Wait>,
    linkStart: (nat, nat),
    held: Option<bool>,
    shown: Shown,
    counters: Counters,
    links: seq<Channel>,
    arrived: seq<TncEvent>,   // everything ever put on the TNC event queue
    consumed: nat,            // how much of it the loop has taken
    hist: History)

  // ── Inputs ──────────────────────────────────────────────────────────

  datatype ConnectError = UnpairedError(why: string) | DeviceAbsentError(why: string) | OtherError(why: string)

  datatype AppEvent =
    | SessionOpened(id: SessionId)
    | SessionClosed(id: SessionId)
    | AppFrame(id: SessionId, frame: Frame)

  datatype Cmd =
    | NewSettings(settings: Settings)
    | NewConnector(connector: nat)
    | Kick(id: SessionId)
    | Hold(hold: Option<bool>)

  datatype Input =
    // arms of the select loop
    | App(ev: AppEvent)
    | Tnc(full: set<SessionId>)                 // the sessions whose channel can't take a frame now
    | Command(cmd: Cmd)
    | LinkUp(exitKiss: seq<seq<byte>>, dieAt: nat)  // connected; the writer fails after `dieAt` flushed entries
    | LinkFailed(error: ConnectError)
    | BackoffOver
    | IdleElapsed
    | Shutdown
    // the tasks and the clock
    | ReaderFrame(channel: nat, frame: Frame)
    | ReaderClosed(channel: nat)
    | WriterTakes(channel: nat)
    | WriterGone(channel: nat, report: bool)
    | TimePasses(millis: nat)

  // ── Channel moves ───────────────────────────────────────────────────

  predicate WriterAccepts(s: State) {
    s.writer.Some? && s.writer.value < |s.links| && Accepts(s.links[s.writer.value])
  }

  /** The channels once `msg` is on the current writer's. */
  function Sent(s: State, msg: WriterMsg): seq<Channel> {
    if WriterAccepts(s) then
      var ch := s.links[s.writer.value];
      s.links[s.writer.value := ch.(sent := ch.sent + [msg])]
    else s.links
  }

  /** The channels once the bridge is done with the current link: `last` goes
      to the writer if it takes it, and a writer left over from a lost link is
      stopped. */
  function Retired(s: State, last: Option<WriterMsg>, fate: Fate): seq<Channel> {
    if s.writer.Some? && s.writer.value < |s.links| then
      var ch := s.links[s.writer.value];
      var sent := if last.Some? && Accepts(ch) then ch.sent + [last.value] else ch.sent;
      s.links[s.writer.value := Channel(ch.generation, sent, ch.taken, ch.alive && fate.ClosedOnPurpose?, fate)]
    else s.links
  }

  /** A writer task ends early, with or without reporting the link closed. */
  function LoseWriter(s: State, i: nat, report: bool): State {
    var there := i < |s.links| && s.links[i].alive;
    s.(links := if there then s.links[i := s.links[i].(alive := false)] else s.links,
       arrived := if there && report then s.arrived + [TncClosed(s.links[i].generation)] else s.arrived)
  }

  /** The guard on app events: room in the writer's queue, if there is one. */
  predicate AppReady(s: State) {
    s.writer.None? || s.writer.value >= |s.links| || Room(s.links[s.writer.value]) > 0
  }

  // ── Handlers ────────────────────────────────────────────────────────

  predicate WantsLink(s: State) {
    match s.held
    case Some(up) => up
    case None => s.settings.connect == Always || |s.sessions| > 0
  }

  function StartConnect(s: State): State {
    s.(generation := s.generation + 1, link := Connecting(s.connector),
       shown := if s.waiting.None? then ShowConnecting else s.shown)
  }

  function StartWait(s: State, kind: Wait, why: string): State {
    var delay := if kind == Unpaired then UNPAIRED_POLL else DEVICE_POLL;
    s.(waiting := Some(kind), attempt := 0, link := Backoff(s.now + delay),
       shown := if kind == Unpaired then ShowUnpaired(why) else ShowWaitingForDevice(why))
  }

  function Pow2(n: nat): nat {
    if n == 0 then 1 else 2 * Pow2(n - 1)
  }

  /** The delay the code computes: a shift capped at 16 places, then capped. */
  function BackoffDelay(attempt: nat): nat
    requires attempt >= 1
  {
    Min(BACKOFF_MIN * Pow2(Min(attempt - 1, 16)), BACKOFF_MAX)
  }

  function StartBackoff(s: State): State {
    var attempt := s.attempt + 1;
    var delay := BackoffDelay(attempt);
    s.(attempt := attempt, link := Backoff(s.now + delay), shown := ShowBackoff(attempt, delay))
  }

  function Cleared(s: State): History {
    s.hist.(cleared := s.hist.cleared + |s.pending|)
  }

  /** A deliberate end to whatever the link is doing. */
  function Disconnect(s: State): State {
    var up := s.link.Connected?;
    var exit := if s.settings.exitKissOnDisconnect && s.exitKiss != [] then Some(ExitKissMsg(s.exitKiss)) else None;
    s.(link := Idle,
       links := if up then Retired(s, exit, ClosedOnPurpose) else s.links,
       writer := if up then None else s.writer,
       generation := s.generation + 1, pending := [], hist := Cleared(s), waiting := None, shown := ShowIdle)
  }

  function DropUp(s: State): State {
    s.(counters := s.counters.(dropped := s.counters.dropped + 1),
       hist := s.hist.(upDropped := s.hist.upDropped + 1))
  }

  /** A frame from an unknown session, or one the policy drops. */
  function Refuse(s: State): State {
    s.(counters := s.counters.(dropped := s.counters.dropped + 1),
       hist := s.hist.(received := s.hist.received + 1, refused := s.hist.refused + 1))
  }

  function Accept(s: State, frame: Frame): State {
    s.(hist := s.hist.(received := s.hist.received + 1, accepted := s.hist.accepted + [frame]))
  }

  function QueuePending(s: State, frame: Frame, from: Option<SessionId>): State {
    var entry := Pending(s.now, frame, from);
    if |s.pending| >= UPLINK_QUEUE_FRAMES then DropUp(s).(pending := s.pending[1..] + [entry])
    else s.(pending := s.pending + [entry])
  }

  /** Hand a frame to the connected link's writer, or count it as dropped. */
  function Transmit(s: State, frame: Frame): State {
    var full := s.writer.Some? && s.writer.value < |s.links| && s.links[s.writer.value].alive;
    if WriterAccepts(s) then
      s.(links := Sent(s, FrameMsg(frame)), counters := s.counters.(framesUp := s.counters.framesUp + 1))
    else
      s.(counters := s.counters.(dropped := s.counters.dropped + 1),
         hist := s.hist.(upDropped := s.hist.upDropped + 1,
                         lostToFull := s.hist.lostToFull + if full then 1 else 0))
  }

  function Uplink(s: State, frame: Frame, from: Option<SessionId>): State {
    match s.link
    case Connected(_) => Transmit(s, frame)
    case Idle => if s.held == Some(false) then DropUp(s) else StartConnect(QueuePending(s, frame, from))
    case Connecting(_) => QueuePending(s, frame, from)
    case Backoff(_) => QueuePending(s, frame, from)
  }

  /** Register a session; it starts with an empty channel. */
  function AddSession(s: State, id: SessionId): State {
    var sessions := s.sessions[id := Session(s.nextSeq + 1, false, [], s.consumed)];
    s.(nextSeq := s.nextSeq + 1, sessions := sessions,
       counters := s.counters.(sessions := |sessions|), idleTimer := None)
  }

  function OnSessionOpened(s: State, id: SessionId): State {
    var s1 := AddSession(s, id);
    if s1.link.Idle? && WantsLink(s1) then StartConnect(s1) else s1
  }

  function RemoveSession(s: State, id: SessionId): State {
    var sessions := s.sessions - {id};
    s.(sessions := sessions, counters := s.counters.(sessions := |sessions|))
  }

  /** Nobody wants the link any more: close it now, or when the timeout is up. */
  function LetGo(s: State): State {
    if s.settings.idleTimeout == 0 then Disconnect(s)
    else s.(idleTimer := Some(s.now + s.settings.idleTimeout))
  }

  function OnSessionClosed(s: State, id: SessionId): State {
    var s1 := RemoveSession(s, id);
    if |s1.sessions| == 0 && !WantsLink(s1) then LetGo(s1) else s1
  }

  function OnAppFrame(s: State, id: SessionId, frame: Frame): State {
    if id in s.sessions && FilterAppFrame(frame, s.settings.appParams).Pass?
    then Uplink(Accept(s, frame), frame, Some(id))
    else Refuse(s)
  }

  function OnApp(s: State, ev: AppEvent): State {
    match ev
    case SessionOpened(id) => OnSessionOpened(s, id)
    case SessionClosed(id) => OnSessionClosed(s, id)
    case AppFrame(id, frame) => OnAppFrame(s, id, frame)
  }

  function ConnectIfIdle(s: State): State {
    if s.link.Idle? then StartConnect(s) else s
  }

  function SetSettings(s: State, new_: Settings): State {
    s.(settings := new_)
  }

  function StopTimer(s: State): State {
    s.(idleTimer := None)
  }

  function ApplySettings(s: State, new_: Settings): State {
    var s1 := SetSettings(s, new_);
    if s.settings == new_ then s1
    else if s.settings.connect == OnDemand && new_.connect == Always then ConnectIfIdle(StopTimer(s1))
    else if s.settings.connect == Always && new_.connect == OnDemand && |s.sessions| == 0 then LetGo(s1)
    else s1
  }

  function SetConnector(s: State, connector: nat): State {
    s.(connector := connector, attempt := 0)
  }

  function OnConnector(s: State, connector: nat): State {
    var s1 := SetConnector(Disconnect(s), connector);
    if WantsLink(s1) then StartConnect(s1) else s1
  }

  function SetHold(s: State, hold: Option<bool>): State {
    s.(held := hold, idleTimer := None)
  }

  function OnHold(s: State, hold: Option<bool>): State {
    var s1 := SetHold(s, hold);
    if WantsLink(s1) then ConnectIfIdle(s1)
    else if hold.Some? then Disconnect(s1)
    else LetGo(s1)
  }

  function OnKick(s: State, id: SessionId): State {
    if id in s.sessions then s.(sessions := s.sessions[id := s.sessions[id].(kicked := true)]) else s
  }

  function OnCmd(s: State, cmd: Cmd): State {
    match cmd
    case NewSettings(new_) => ApplySettings(s, new_)
    case NewConnector(c) => OnConnector(s, c)
    case Kick(id) => OnKick(s, id)
    case Hold(hold) => OnHold(s, hold)
  }

  /** A session's channel takes the frame, unless it is full. */
  function Offered(ses: Session, frame: Frame, full: bool): Session {
    if full then ses else ses.(got := ses.got + [frame])
  }

  /** Every session is offered the frame. */
  function Broadcast(sessions: map<SessionId, Session>, frame: Frame, full: set<SessionId>): (r: map<SessionId, Session>)
    ensures r.Keys == sessions.Keys && |r| == |sessions|
  {
    var r := map id | id in sessions :: Offered(sessions[id], frame, id in full);
    assert r.Keys == sessions.Keys && |r| == |r.Keys|;
    r
  }

  function OnTncFrame(s: State, ev: TncEvent, full: set<SessionId>): State
    requires ev.TncFrame?
  {
    if ev.generation != s.generation then s
    else
      var slow := |full * s.sessions.Keys|;
      s.(sessions := Broadcast(s.sessions, ev.frame, full),
         counters := s.counters.(framesDown := s.counters.framesDown + 1, dropped := s.counters.dropped + slow),
         hist := s.hist.(downDropped := s.hist.downDropped + slow, heard := s.hist.heard + [ev]))
  }

  /** The connected link is gone; its tasks are stopped. */
  function Lose(s: State): State {
    s.(link := Idle, writer := None, links := Retired(s, None, LinkLost), generation := s.generation + 1,
       hist := s.hist.(losses := s.hist.losses + 1), shown := ShowIdle)
  }

  function ResetAttempt(s: State): State {
    s.(attempt := 0)
  }

  function OnTncClosed(s: State, ev: TncEvent): State
    requires ev.TncClosed?
  {
    if ev.generation != s.generation || !s.link.Connected? then s
    else
      var s1 := Lose(s);
      if WantsLink(s1) then StartBackoff(ResetAttempt(s1)) else s1
  }

  function TakeEvent(s: State): State {
    s.(consumed := s.consumed + 1)
  }

  function OnTnc(s: State, full: set<SessionId>): State
    requires s.consumed < |s.arrived|
  {
    var ev := s.arrived[s.consumed];
    if ev.TncFrame? then OnTncFrame(TakeEvent(s), ev, full) else OnTncClosed(TakeEvent(s), ev)
  }

  /** One entry that waited for the link: too old is dropped, fresh is sent. */
  function FlushOne(s: State, entry: Pending, cutoff: int, writerDies: bool): State {
    var s1 := if writerDies && s.writer.Some? then LoseWriter(s, s.writer.value, true) else s;
    if entry.at < cutoff then DropUp(s1) else Uplink(s1, entry.frame, entry.from)
  }

  /** Send the entries that arrived while connecting, oldest first, dropping
      the stale ones; the writer fails before entry `dieAt`. */
  function Flush(s: State, entries: seq<Pending>, cutoff: int, dieAt: nat): State
    decreases |entries|
  {
    if |entries| == 0 then s
    else Flush(FlushOne(s, entries[0], cutoff, dieAt == 0), entries[1..], cutoff, if dieAt == 0 then 0 else dieAt - 1)
  }

  /** The link is up, before anything is flushed into it. */
  function OpenLink(s: State, exitKiss: seq<seq<byte>>): State
    requires s.link.Connecting?
  {
    s.(waiting := None, exitKiss := exitKiss, link := Connected(s.link.via),
       links := s.links + [Channel(s.generation, [], 0, true, InUse)], writer := Some(|s.links|),
       attempt := 0, counters := s.counters.(tncConnects := s.counters.tncConnects + 1),
       linkStart := (s.counters.framesUp, s.counters.framesDown),
       shown := ShowConnected, pending := [])
  }

  function Flushed(s: State, exitKiss: seq<seq<byte>>, dieAt: nat): State
    requires s.link.Connecting?
  {
    Flush(OpenLink(s, exitKiss), s.pending, s.now - UPLINK_QUEUE_AGE, dieAt)
  }

  function OnLinkUp(s: State, exitKiss: seq<seq<byte>>, dieAt: nat): State
    requires s.link.Connecting?
  {
    var s1 := Flushed(s, exitKiss, dieAt);
    if !WantsLink(s1) && s1.settings.idleTimeout == 0 then Disconnect(s1) else s1
  }

  function GoIdle(s: State): State {
    s.(pending := [], hist := Cleared(s), link := Idle, waiting := None, shown := ShowIdle)
  }

  function StopWaiting(s: State): State {
    s.(waiting := None)
  }

  function OnLinkFailed(s: State, error: ConnectError): State {
    if !WantsLink(s) then GoIdle(s)
    else
      match error
      case UnpairedError(why) => StartWait(s, Unpaired, why)
      case DeviceAbsentError(why) => StartWait(s, Device, why)
      case OtherError(_) => StartBackoff(StopWaiting(s))
  }

  function OnBackoffOver(s: State): State {
    if WantsLink(s) then StartConnect(s) else GoIdle(s)
  }

  function OnIdleElapsed(s: State): State {
    var s1 := StopTimer(s);
    if !WantsLink(s1) then Disconnect(s1) else s1
  }

  // ── Steps and runs ──────────────────────────────────────────────────

  /** The select guards, and what the surrounding tasks can do. */
  predicate Enabled(s: State, i: Input) {
    && s.running
    && match i
       case App(_) => AppReady(s)
       case Tnc(_) => s.consumed < |s.arrived|
       case Command(_) => true
       case LinkUp(_, _) => s.link.Connecting?
       case LinkFailed(_) => s.link.Connecting?
       case BackoffOver => s.link.Backoff? && s.link.until <= s.now
       case IdleElapsed => s.idleTimer.Some? && s.idleTimer.value <= s.now
       case Shutdown => true
       case ReaderFrame(c, _) => c < |s.links|
       case ReaderClosed(c) => c < |s.links|
       case WriterTakes(c) => c < |s.links| && s.links[c].alive && s.links[c].taken < |s.links[c].sent|
       case WriterGone(c, _) => c < |s.links|
       case TimePasses(_) => true
  }

  function Step(s: State, i: Input): State
    requires Enabled(s, i)
  {
    match i
    case App(ev) => OnApp(s, ev)
    case Tnc(full) => OnTnc(s, full)
    case Command(cmd) => OnCmd(s, cmd)
    case LinkUp(exitKiss, dieAt) => OnLinkUp(s, exitKiss, dieAt)
    case LinkFailed(error) => OnLinkFailed(s, error)
    case BackoffOver => OnBackoffOver(s)
    case IdleElapsed => OnIdleElapsed(s)
    case Shutdown => Disconnect(s).(running := false)
    case ReaderFrame(c, frame) => s.(arrived := s.arrived + [TncFrame(s.links[c].generation, frame)])
    case ReaderClosed(c) => s.(arrived := s.arrived + [TncClosed(s.links[c].generation)])
    case WriterTakes(c) => s.(links := s.links[c := s.links[c].(taken := s.links[c].taken + 1)])
    case WriterGone(c, report) => LoseWriter(s, c, report)
    case TimePasses(millis) => s.(now := s.now + millis)
  }

  /** A bridge as it is when its loop starts. */
  function Fresh(settings: Settings, connector: nat, now: nat): State {
    State(now, true, settings, connector, map[], 0, Idle, None, [], 0, 0, [], None, None, (0, 0), None,
          ShowIdle, Counters(0, 0, 0, 0, 0), [], [], 0, History(0, 0, [], 0, 0, 0, 0, [], 0))
  }

  function Start(settings: Settings, connector: nat, now: nat): State {
    var s := Fresh(settings, connector, now);
    if settings.connect == Always then StartConnect(s) else s
  }

  ghost predicate ValidRun(s: State, inputs: seq<Input>)
    decreases |inputs|
  {
    |inputs| == 0 || (Enabled(s, inputs[0]) && ValidRun(Step(s, inputs[0]), inputs[1..]))
  }

  function After(s: State, inputs: seq<Input>): State
    requires ValidRun(s, inputs)
    decreases |inputs|
  {
    if |inputs| == 0 then s else After(Step(s, inputs[0]), inputs[1..])
  }
}

/** The bridge's loop as it is written: an object whose handlers update its
    fields (`Run` in src/bridge/mod.rs), each proved to do what its function
    in `BridgeState` says, so that everything proved of runs there holds here. */
module BridgeRun {
  import opened Common
  import opened Policy
  import opened BridgeState
  import opened BridgeShape
  import opened BridgeRuns

  lemma OneMore(full: set<SessionId>, done: set<SessionId>, id: SessionId)
    requires id !in done
    ensures |full * (done + {id})| == |full * done| + if id in full then 1 else 0
  {
    if id in full {
      assert full * (done + {id}) == full * done + {id};
    } else {
      assert full * (done + {id}) == full * done;
    }
  }

  /** Offer a frame to each session in turn, counting those that can't take it. */
  method OfferEach(sessions: map<SessionId, Session>, frame: Frame, full: set<SessionId>)
    returns (offered: map<SessionId, Session>, slow: nat)
    ensures offered == Broadcast(sessions, frame, full)
    ensures slow == |full * sessions.Keys|
  {
    offered, slow := map[], 0;
    var rest, done: set<SessionId> := sessions.Keys, {};
    while rest != {}
      invariant forall id :: id in sessions <==> id in done || id in rest
      invariant forall id :: id in rest ==> id !in done
      invariant forall id :: id in offered <==> id in done
      invariant slow == |full * done|
      invariant forall id :: id in done ==> offered[id] == Offered(sessions[id], frame, id in full)
      decreases rest
    {
      var id :| id in rest;
      OneMore(full, done, id);
      if id in full {
        slow := slow + 1;
      }
      offered := offered[id := Offered(sessions[id], frame, id in full)];
      rest, done := rest - {id}, done + {id};
    }
    assert done == sessions.Keys;
  }

  class Run {
    // the loop's own fields
    var running: bool
    var settings: Settings
    var connector: nat
    var sessions: map<SessionId, Session>
    var nextSeq: nat
    var link: Link
    var writerTx: Option<nat>
    var exitKiss: seq<seq<byte>>
    var generation: nat
    var attempt: nat
    var pending: seq<Pending>
    var idleTimer: Option<nat>
    var waiting: Option<Wait>
    var linkStart: (nat, nat)
    var held: Option<bool>
    var state: Shown
    var counters: Counters
    // what is outside it: the clock, the links' writer channels, the event queue
    var now: nat
    var links: seq<Channel>
    var arrived: seq<TncEvent>
    var consumed: nat
    // what happened
    ghost var hist: History

    ghost function View(): State
      reads this
    {
      State(now, running, settings, connector, sessions, nextSeq, link, writerTx, exitKiss, generation, attempt,
            pending, idleTimer, waiting, linkStart, held, state, counters, links, arrived, consumed, hist)
    }

    constructor (settings: Settings, connector: nat, now: nat)
      ensures View() == Fresh(settings, connector, now)
    {
      this.now, this.running, this.settings, this.connector := now, true, settings, connector;
      sessions, nextSeq, link, writerTx, exitKiss := map[], 0, Idle, None, [];
      generation, attempt, pending, idleTimer, waiting := 0, 0, [], None, None;
      linkStart, held, state, counters := (0, 0), None, ShowIdle, Counters(0, 0, 0, 0, 0);
      links, arrived, consumed := [], [], 0;
      hist := History(0, 0, [], 0, 0, 0, 0, [], 0);
    }

    // ── Link transitions ──────────────────────────────────────────────

    function WantsLinkNow(): (r: bool)
      reads this
      ensures r == WantsLink(View())
    {
      match held
      case Some(up) => up
      case None => settings.connect == Always || |sessions| > 0
    }

    method EnterConnecting()
      modifies this`generation, this`link, this`state
      ensures generation == old(generation) + 1 && link == Connecting(connector)
      ensures state == if waiting.None? then ShowConnecting else old(state)
    {
      generation := generation + 1;
      link := Connecting(connector);
      if waiting.None? {
        state := ShowConnecting;
      }
    }

    method StartConnecting()
      modifies this
      ensures View() == StartConnect(old(View()))
    {
      EnterConnecting();
    }

    method EnterWaiting(kind: Wait, why: string)
      modifies this`waiting, this`attempt, this`link, this`state
      ensures waiting == Some(kind) && attempt == 0
      ensures kind == Unpaired ==> link == Backoff(now + 5_000) && state == ShowUnpaired(why)
      ensures kind == Device ==> link == Backoff(now + 2_000) && state == ShowWaitingForDevice(why)
    {
      waiting := Some(kind);
      attempt := 0;
      var delay, shown;
      match kind {
        case Unpaired => delay, shown := UNPAIRED_POLL, ShowUnpaired(why);
        case Device => delay, shown := DEVICE_POLL, ShowWaitingForDevice(why);
      }
      link := Backoff(now + delay);
      state := shown;
    }

    method StartWaiting(kind: Wait, why: string)
      modifies this
      ensures View() == StartWait(old(View()), kind, why)
    {
      EnterWaiting(kind, why);
    }

    method EnterBackoff()
      modifies this`attempt, this`link, this`state
      ensures attempt == old(attempt) + 1
      ensures link == Backoff(now + BackoffDelay(attempt)) && state == ShowBackoff(attempt, BackoffDelay(attempt))
    {
      attempt := attempt + 1;
      var delay := BackoffDelay(attempt);
      link := Backoff(now + delay);
      state := ShowBackoff(attempt, delay);
    }

    method StartBackingOff()
      modifies this
      ensures View() == StartBackoff(old(View()))
    {
      EnterBackoff();
    }

    /** Put a message on the writer's channel, if there is one and it takes it. */
    method TrySend(msg: WriterMsg) returns (ok: bool)
      modifies this`links
      ensures ok == old(WriterAccepts(View()))
      ensures links == old(Sent(View(), msg))
    {
      ok := writerTx.Some? && writerTx.value < |links| && Accepts(links[writerTx.value]);
      if ok {
        var i := writerTx.value;
        links := links[i := links[i].(sent := links[i].sent + [msg])];
      }
    }

    /** Let go of the writer's channel, with an order to leave KISS mode as the
        last word if that is set. The writer finishes on its own. */
    method ReleaseWriter()
      modifies this`links, this`writerTx
      ensures writerTx == None
      ensures var exit := if settings.exitKissOnDisconnect && exitKiss != [] then Some(ExitKissMsg(exitKiss)) else None;
              links == old(Retired(View(), exit, ClosedOnPurpose))
    {
      if writerTx.Some? && settings.exitKissOnDisconnect && exitKiss != [] {
        var _ := TrySend(ExitKissMsg(exitKiss));
      }
      if writerTx.Some? && writerTx.value < |links| {
        links := links[writerTx.value := links[writerTx.value].(fate := ClosedOnPurpose)];
      }
      writerTx := None;
    }

    /** A deliberate end to whatever the link is doing. */
    method EnterIdle()
      modifies this`links, this`writerTx, this`hist, this`link, this`generation, this`pending, this`waiting, this`state
      ensures link == Idle && generation == old(generation) + 1 && pending == [] && waiting == None && state == ShowIdle
      ensures writerTx == if old(link).Connected? then None else old(writerTx)
      ensures links == old(Disconnect(View()).links) && hist == old(Cleared(View()))
    {
      hist := hist.(cleared := hist.cleared + |pending|);
      if link.Connected? {
        ReleaseWriter();
      }
      link := Idle;
      generation := generation + 1;
      pending := [];
      waiting := None;
      state := ShowIdle;
    }

    method Close()
      modifies this
      ensures View() == Disconnect(old(View()))
    {
      EnterIdle();
    }

    /** Nobody wants the link any more: close it now, or when the timeout is up. */
    method CloseOrWait()
      modifies this
      ensures View() == LetGo(old(View()))
    {
      if settings.idleTimeout == 0 {
        Close();
      } else {
        idleTimer := Some(now + settings.idleTimeout);
      }
    }

    // ── App events ────────────────────────────────────────────────────

    function AppReadyNow(): (r: bool)
      reads this
      ensures r == AppReady(View())
    {
      writerTx.None? || writerTx.value >= |links| || Room(links[writerTx.value]) > 0
    }

    method CountDrop()
      modifies this`counters
      ensures counters == old(counters.(dropped := counters.dropped + 1))
    {
      counters := counters.(dropped := counters.dropped + 1);
    }

    method DropFrame()
      modifies this
      ensures View() == DropUp(old(View()))
    {
      CountDrop();
      hist := hist.(upDropped := hist.upDropped + 1);
    }

    method Queue(frame: Frame, from: Option<SessionId>)
      modifies this
      ensures View() == QueuePending(old(View()), frame, from)
    {
      if |pending| >= UPLINK_QUEUE_FRAMES {
        pending := pending[1..];
        CountDrop();
        hist := hist.(upDropped := hist.upDropped + 1);
      }
      pending := pending + [Pending(now, frame, from)];
    }

    /** Hand a frame to the connected link's writer, or count it as dropped. */
    method SendToWriter(frame: Frame)
      modifies this`links, this`counters, this`hist
      ensures links == old(Transmit(View(), frame).links)
      ensures counters == old(Transmit(View(), frame).counters)
      ensures hist == old(Transmit(View(), frame).hist)
    {
      ghost var full := writerTx.Some? && writerTx.value < |links| && links[writerTx.value].alive;
      var ok := TrySend(FrameMsg(frame));
      if ok {
        counters := counters.(framesUp := counters.framesUp + 1);
      } else {
        CountDrop();
        hist := hist.(upDropped := hist.upDropped + 1, lostToFull := hist.lostToFull + if full then 1 else 0);
      }
    }

    method SendUp(frame: Frame, from: Option<SessionId>)
      modifies this
      ensures View() == Uplink(old(View()), frame, from)
    {
      match link {
        case Connected(_) => SendToWriter(frame);
        case Idle =>
          if held == Some(false) {
            DropFrame();
          } else {
            Queue(frame, from);
            StartConnecting();
          }
        case Connecting(_) => Queue(frame, from);
        case Backoff(_) => Queue(frame, from);
      }
    }

    method Insert(id: SessionId)
      modifies this`nextSeq, this`sessions, this`counters, this`idleTimer
      ensures nextSeq == old(nextSeq) + 1 && idleTimer == None
      ensures sessions == old(sessions)[id := Session(nextSeq, false, [], consumed)]
      ensures counters == old(counters).(sessions := |sessions|)
    {
      nextSeq := nextSeq + 1;
      sessions := sessions[id := Session(nextSeq, false, [], consumed)];
      counters := counters.(sessions := |sessions|);
      idleTimer := None;
    }

    method Register(id: SessionId)
      modifies this
      ensures View() == AddSession(old(View()), id)
    {
      Insert(id);
    }

    method HandleOpened(id: SessionId)
      modifies this
      ensures View() == OnSessionOpened(old(View()), id)
    {
      Register(id);
      if link.Idle? && WantsLinkNow() {
        StartConnecting();
      }
    }

    method HandleClosed(id: SessionId)
      modifies this
      ensures View() == OnSessionClosed(old(View()), id)
    {
      sessions := sessions - {id};
      counters := counters.(sessions := |sessions|);
      assert View() == RemoveSession(old(View()), id);
      if |sessions| == 0 && !WantsLinkNow() {
        CloseOrWait();
      }
    }

    method HandleFrame(id: SessionId, frame: Frame)
      modifies this
      ensures View() == OnAppFrame(old(View()), id, frame)
    {
      if id !in sessions || FilterAppFrame(frame, settings.appParams).Drop? {
        hist := hist.(received := hist.received + 1, refused := hist.refused + 1);
        CountDrop();
      } else {
        hist := hist.(received := hist.received + 1, accepted := hist.accepted + [frame]);
        assert View() == Accept(old(View()), frame);
        SendUp(frame, Some(id));
      }
    }

    method HandleApp(ev: AppEvent)
      modifies this
      ensures View() == OnApp(old(View()), ev)
    {
      match ev {
        case SessionOpened(id) => HandleOpened(id);
        case SessionClosed(id) => HandleClosed(id);
        case AppFrame(id, frame) => HandleFrame(id, frame);
      }
    }

    // ── Commands ──────────────────────────────────────────────────────

    method ConnectUnlessBusy()
      modifies this
      ensures View() == ConnectIfIdle(old(View()))
    {
      if link.Idle? {
        StartConnecting();
      }
    }

    method ApplyNewSettings(new_: Settings)
      modifies this
      ensures View() == ApplySettings(old(View()), new_)
    {
      var before := settings;
      settings := new_;
      assert View() == SetSettings(old(View()), new_);
      if before == settings {
        return;
      }
      if before.connect == OnDemand && settings.connect == Always {
        idleTimer := None;
        assert View() == StopTimer(SetSettings(old(View()), new_));
        ConnectUnlessBusy();
      } else if before.connect == Always && settings.connect == OnDemand && |sessions| == 0 {
        CloseOrWait();
      }
    }

    method ChangeConnector(c: nat)
      modifies this
      ensures View() == OnConnector(old(View()), c)
    {
      Close();
      connector := c;
      attempt := 0;
      assert View() == SetConnector(Disconnect(old(View())), c);
      if WantsLinkNow() {
        StartConnecting();
      }
    }

    method TakeHold(hold: Option<bool>)
      modifies this
      ensures View() == SetHold(old(View()), hold)
    {
      held := hold;
      idleTimer := None;
    }

    method ChangeHold(hold: Option<bool>)
      modifies this
      ensures View() == OnHold(old(View()), hold)
    {
      TakeHold(hold);
      if WantsLinkNow() {
        ConnectUnlessBusy();
      } else if hold.Some? {
        Close();
      } else {
        // no hold and no sessions: the idle timeout decides
        CloseOrWait();
      }
    }

    method HandleCmd(cmd: Cmd)
      modifies this
      ensures View() == OnCmd(old(View()), cmd)
    {
      match cmd {
        case NewSettings(new_) => ApplyNewSettings(new_);
        case NewConnector(c) => ChangeConnector(c);
        case Kick(id) =>
          if id in sessions {
            sessions := sessions[id := sessions[id].(kicked := true)];
          }
        case Hold(hold) => ChangeHold(hold);
      }
    }

    // ── TNC events ────────────────────────────────────────────────────

    /** Count a frame from the TNC and offer it to every session. */
    method BroadcastFrame(ev: TncEvent, full: set<SessionId>)
      requires ev.TncFrame?
      modifies this`sessions, this`counters, this`hist
      ensures sessions == Broadcast(old(sessions), ev.frame, full)
      ensures counters == old(counters).(framesDown := old(counters).framesDown + 1,
                                         dropped := old(counters).dropped + |full * old(sessions).Keys|)
      ensures hist == old(hist).(downDropped := old(hist).downDropped + |full * old(sessions).Keys|,
                                 heard := old(hist).heard + [ev])
    {
      counters := counters.(framesDown := counters.framesDown + 1);
      var offered, slow := OfferEach(sessions, ev.frame, full);
      sessions := offered;
      counters := counters.(dropped := counters.dropped + slow);
      hist := hist.(downDropped := hist.downDropped + slow, heard := hist.heard + [ev]);
    }

    method HandleTncFrame(ev: TncEvent, full: set<SessionId>)
      requires ev.TncFrame?
      modifies this
      ensures View() == OnTncFrame(old(View()), ev, full)
    {
      if ev.generation == generation {
        BroadcastFrame(ev, full);
      }
    }

    /** The connected link is gone: stop its tasks. */
    method EnterLost()
      modifies this`link, this`links, this`writerTx, this`generation, this`hist, this`state
      ensures link == Idle && writerTx == None && generation == old(generation) + 1 && state == ShowIdle
      ensures links == old(Retired(View(), None, LinkLost))
      ensures hist == old(hist).(losses := old(hist).losses + 1)
    {
      if writerTx.Some? && writerTx.value < |links| {
        links := links[writerTx.value := links[writerTx.value].(fate := LinkLost, alive := false)];
      }
      link := Idle;
      writerTx := None;
      generation := generation + 1;
      hist := hist.(losses := hist.losses + 1);
      state := ShowIdle;
    }

    method DropLink()
      modifies this
      ensures View() == Lose(old(View()))
    {
      EnterLost();
    }

    method HandleTncClosed(ev: TncEvent)
      requires ev.TncClosed?
      modifies this
      ensures View() == OnTncClosed(old(View()), ev)
    {
      if ev.generation != generation || !link.Connected? {
        return;
      }
      DropLink();
      if WantsLinkNow() {
        attempt := 0;
        assert View() == ResetAttempt(Lose(old(View())));
        StartBackingOff();
      }
    }

    method HandleTnc(full: set<SessionId>)
      requires consumed < |arrived|
      modifies this
      ensures View() == OnTnc(old(View()), full)
    {
      var ev := arrived[consumed];
      consumed := consumed + 1;
      assert View() == TakeEvent(old(View()));
      if ev.TncFrame? {
        HandleTncFrame(ev, full);
      } else {
        HandleTncClosed(ev);
      }
    }

    // ── Link outcomes and timers ──────────────────────────────────────

    /** The link is up: a fresh writer channel, and the pending entries in hand. */
    method TakeLink(exit: seq<seq<byte>>) returns (entries: seq<Pending>)
      requires link.Connecting?
      modifies this`waiting, this`exitKiss, this`link, this`writerTx, this`links, this`attempt, this`counters
      modifies this`linkStart, this`state, this`pending
      ensures waiting == None && exitKiss == exit && link == Connected(old(link).via) && attempt == 0
      ensures writerTx == Some(|old(links)|) && links == old(links) + [Channel(generation, [], 0, true, InUse)]
      ensures counters == old(counters).(tncConnects := old(counters).tncConnects + 1)
      ensures linkStart == (counters.framesUp, counters.framesDown)
      ensures state == ShowConnected && pending == [] && entries == old(pending)
    {
      waiting := None;
      exitKiss := exit;
      link := Connected(link.via);
      writerTx := Some(|links|);
      links := links + [Channel(generation, [], 0, true, InUse)];
      attempt := 0;
      counters := counters.(tncConnects := counters.tncConnects + 1);
      linkStart := (counters.framesUp, counters.framesDown);
      state := ShowConnected;
      entries := pending;
      pending := [];
    }

    method HandleLinkUp(exit: seq<seq<byte>>, dieAt: nat)
      requires link.Connecting?
      modifies this
      ensures View() == OnLinkUp(old(View()), exit, dieAt)
    {
      var cutoff := now - UPLINK_QUEUE_AGE;
      var entries := TakeLink(exit);
      assert View() == OpenLink(old(View()), exit);
      FlushInto(entries, cutoff, dieAt);
      assert View() == Flushed(old(View()), exit, dieAt);
      if !WantsLinkNow() && settings.idleTimeout == 0 {
        // nobody to hold the link open for
        Close();
      }
    }

    /** Send the entries in order, skipping stale ones. The writer task may
        fail while this goes on: before entry `dieAt` here. */
    method FlushInto(entries: seq<Pending>, cutoff: int, dieAt: nat)
      modifies this
      ensures View() == Flush(old(View()), entries, cutoff, dieAt)
    {
      var i := 0;
      while i < |entries|
        invariant i <= |entries|
        invariant Flush(old(View()), entries, cutoff, dieAt) ==
                  Flush(View(), entries[i..], cutoff, if dieAt <= i then 0 else dieAt - i)
      {
        FlushEntry(entries[i], cutoff, dieAt <= i);
        assert entries[i..][1..] == entries[i + 1..];
        i := i + 1;
      }
    }

    method FlushEntry(entry: Pending, cutoff: int, writerDies: bool)
      modifies this
      ensures View() == FlushOne(old(View()), entry, cutoff, writerDies)
    {
      if writerDies && writerTx.Some? {
        WriterFails(writerTx.value, true);
      }
      if entry.at < cutoff {
        DropFrame();
      } else {
        SendUp(entry.frame, entry.from);
      }
    }

    method WriterFails(i: nat, report: bool)
      modifies this
      ensures View() == LoseWriter(old(View()), i, report)
    {
      if i < |links| && links[i].alive {
        if report {
          arrived := arrived + [TncClosed(links[i].generation)];
        }
        links := links[i := links[i].(alive := false)];
      }
    }

    method EnterIdleUnconnected()
      modifies this`link, this`hist, this`pending, this`waiting, this`state
      ensures link == Idle && pending == [] && waiting == None && state == ShowIdle
      ensures hist == old(Cleared(View()))
    {
      hist := hist.(cleared := hist.cleared + |pending|);
      link := Idle;
      pending := [];
      waiting := None;
      state := ShowIdle;
    }

    method BackToIdle()
      modifies this
      ensures View() == GoIdle(old(View()))
    {
      EnterIdleUnconnected();
    }

    method HandleLinkFailed(error: ConnectError)
      modifies this
      ensures View() == OnLinkFailed(old(View()), error)
    {
      if !WantsLinkNow() {
        BackToIdle();
        return;
      }
      match error {
        case UnpairedError(why) => StartWaiting(Unpaired, why);
        case DeviceAbsentError(why) => StartWaiting(Device, why);
        case OtherError(_) =>
          waiting := None;
          assert View() == StopWaiting(old(View()));
          StartBackingOff();
      }
    }

    method HandleBackoffOver()
      modifies this
      ensures View() == OnBackoffOver(old(View()))
    {
      if WantsLinkNow() {
        StartConnecting();
      } else {
        BackToIdle();
      }
    }

    method HandleIdleElapsed()
      modifies this
      ensures View() == OnIdleElapsed(old(View()))
    {
      idleTimer := None;
      assert View() == StopTimer(old(View()));
      if !WantsLinkNow() {
        Close();
      }
    }

    // ── The loop ──────────────────────────────────────────────────────

    /** One turn of the select loop, or one move of what is around it. */
    method Turn(i: Input)
      requires Enabled(View(), i)
      modifies this
      ensures View() == Step(old(View()), i)
    {
      match i {
        case App(ev) => HandleApp(ev);
        case Tnc(full) => HandleTnc(full);
        case Command(cmd) => HandleCmd(cmd);
        case LinkUp(exit, dieAt) => HandleLinkUp(exit, dieAt);
        case LinkFailed(error) => HandleLinkFailed(error);
        case BackoffOver => HandleBackoffOver();
        case IdleElapsed => HandleIdleElapsed();
        case Shutdown =>
          Close();
          running := false;
        case ReaderFrame(c, frame) => arrived := arrived + [TncFrame(links[c].generation, frame)];
        case ReaderClosed(c) => arrived := arrived + [TncClosed(links[c].generation)];
        case WriterTakes(c) => links := links[c := links[c].(taken := links[c].taken + 1)];
        case WriterGone(c, report) => WriterFails(c, report);
        case TimePasses(millis) => now := now + millis;
      }
    }

    /** The select guards: whether an arm would be polled, or a move could be
        made, as things are. */
    function Ready(i: Input): (r: bool)
      reads this
      ensures r == Enabled(View(), i)
    {
      running
      && match i
         case App(_) => AppReadyNow()
         case Tnc(_) => consumed < |arrived|
         case LinkUp(_, _) => link.Connecting?
         case LinkFailed(_) => link.Connecting?
         case BackoffOver => link.Backoff? && link.until <= now
         case IdleElapsed => idleTimer.Some? && idleTimer.value <= now
         case ReaderFrame(c, _) => c < |links|
         case ReaderClosed(c) => c < |links|
         case WriterTakes(c) => c < |links| && links[c].alive && links[c].taken < |links[c].sent|
         case WriterGone(c, _) => c < |links|
         case _ => true
    }

    /** The main loop, over whatever offers itself: it takes what its guards
        let through, and that is a run. */
    method Loop(offers: seq<Input>)
      requires View() == Fresh(settings, connector, now)
      modifies this
      ensures var start := old(Start(settings, connector, now));
              && ValidRun(start, Taken(start, offers)) && View() == After(start, Taken(start, offers))
              && Inv(View())
    {
      ghost var start := Start(settings, connector, now);
      StartInv(settings, connector, now);
      TakenRuns(start, offers);
      if settings.connect == Always {
        StartConnecting();
      }
      assert View() == start;
      var i := 0;
      while i < |offers|
        invariant i <= |offers|
        invariant Inv(View())
        invariant ValidRun(View(), Taken(View(), offers[i..]))
        invariant After(View(), Taken(View(), offers[i..])) == After(start, Taken(start, offers))
      {
        assert offers[i..][1..] == offers[i + 1..];
        if Ready(offers[i]) {
          TakenOne(View(), offers[i..]);
          StepInv(View(), offers[i]);
          Turn(offers[i]);
        }
        i := i + 1;
      }
    }
  }

  /** The inputs the guards let through, each as things are when it comes. */
  ghost function Taken(s: State, offers: seq<Input>): seq<Input>
    decreases |offers|
  {
    if |offers| == 0 then []
    else if Enabled(s, offers[0]) then [offers[0]] + Taken(Step(s, offers[0]), offers[1..])
    else Taken(s, offers[1..])
  }

  lemma {:induction false} TakenRuns(s: State, offers: seq<Input>)
    ensures ValidRun(s, Taken(s, offers))
    decreases |offers|
  {
    if |offers| > 0 {
      if Enabled(s, offers[0]) {
        TakenRuns(Step(s, offers[0]), offers[1..]);
        assert Taken(s, offers)[1..] == Taken(Step(s, offers[0]), offers[1..]);
      } else {
        TakenRuns(s, offers[1..]);
      }
    }
  }

  lemma TakenOne(s: State, offers: seq<Input>)
    requires |offers| > 0 && Enabled(s, offers[0])
    ensures var t := Taken(Step(s, offers[0]), offers[1..]);
            && ValidRun(s, Taken(s, offers)) && ValidRun(Step(s, offers[0]), t)
            && After(s, Taken(s, offers)) == After(Step(s, offers[0]), t)
  {
    TakenRuns(s, offers);
    TakenRuns(Step(s, offers[0]), offers[1..]);
    assert Taken(s, offers)[1..] == Taken(Step(s, offers[0]), offers[1..]);
  }

  /** Any run there is, the loop takes in full when it is offered. */
  lemma {:induction false} EveryRunTaken(s: State, inputs: seq<Input>)
    requires ValidRun(s, inputs)
    ensures Taken(s, inputs) == inputs
    decreases |inputs|
  {
    if |inputs| > 0 { EveryRunTaken(Step(s, inputs[0]), inputs[1..]); }
  }
}

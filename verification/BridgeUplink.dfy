/** Uplink: where every frame an app sent is, and in which order the TNC's
    writers get them. */
module BridgeUplink {
  import opened Common
  import opened Policy
  import opened BridgeState
  import opened BridgeShape
  import opened BridgeLinks

  // ── What the writers were handed ────────────────────────────────────

  function FramesIn(sent: seq<WriterMsg>): seq<Frame> {
    if |sent| == 0 then []
    else
      var init := FramesIn(sent[..|sent| - 1]);
      if sent[|sent| - 1].FrameMsg? then init + [sent[|sent| - 1].frame] else init
  }

  /** The frames handed to the writers of all links, one link after another. */
  function Handed(links: seq<Channel>): seq<Frame> {
    if |links| == 0 then [] else Handed(links[..|links| - 1]) + FramesIn(links[|links| - 1].sent)
  }

  function FramesOf(entries: seq<Pending>): (r: seq<Frame>)
    ensures |r| == |entries|
  {
    seq(|entries|, i requires 0 <= i < |entries| => entries[i].frame)
  }

  lemma FramesInSend(sent: seq<WriterMsg>, msg: WriterMsg)
    ensures FramesIn(sent + [msg]) == if msg.FrameMsg? then FramesIn(sent) + [msg.frame] else FramesIn(sent)
  {
    assert (sent + [msg])[..|sent|] == sent;
  }

  ghost predicate SameFrames(a: seq<Channel>, b: seq<Channel>) {
    |a| == |b| && forall i :: 0 <= i < |a| ==> FramesIn(a[i].sent) == FramesIn(b[i].sent)
  }

  lemma {:induction false} HandedSame(a: seq<Channel>, b: seq<Channel>)
    requires SameFrames(a, b)
    ensures Handed(a) == Handed(b)
    decreases |a|
  {
    if |a| > 0 { HandedSame(a[..|a| - 1], b[..|b| - 1]); }
  }

  lemma HandedOpen(a: seq<Channel>, ch: Channel)
    requires ch.sent == []
    ensures Handed(a + [ch]) == Handed(a)
  {
    assert (a + [ch])[..|a|] == a;
  }

  lemma HandedSend(a: seq<Channel>, frame: Frame)
    requires |a| > 0
    ensures var ch := a[|a| - 1];
            Handed(a[|a| - 1 := ch.(sent := ch.sent + [FrameMsg(frame)])]) == Handed(a) + [frame]
  {
    var n := |a| - 1;
    var b := a[n := a[n].(sent := a[n].sent + [FrameMsg(frame)])];
    assert b[..n] == a[..n];
    FramesInSend(a[n].sent, FrameMsg(frame));
  }

  // ── The ledger ──────────────────────────────────────────────────────

  /** Every frame received is accounted for once, and the frames that were
      handed over or still wait are, in this order, among those accepted. */
  ghost predicate Ledger(links: seq<Channel>, waiting: seq<Pending>, hist: History, counters: Counters) {
    && Subseq(Handed(links) + FramesOf(waiting), hist.accepted)
    && |hist.accepted| == |Handed(links)| + |waiting| + hist.upDropped + hist.cleared
    && hist.received == hist.refused + |hist.accepted|
    && counters.framesUp == |Handed(links)|
    && counters.dropped == hist.refused + hist.upDropped + hist.downDropped
    && hist.lostToFull == 0
    && (forall i :: 0 <= i < |hist.accepted| ==> Harmless(hist.accepted[i]))
  }

  /** Entries wait in arrival order. */
  predicate Aged(entries: seq<Pending>, now: nat) {
    && (forall i :: 0 <= i < |entries| ==> entries[i].at <= now)
    && (forall i, j :: 0 <= i < j < |entries| ==> entries[i].at <= entries[j].at)
  }

  /** What `link_frames` logs: never negative, and for the link in use the
      number of frames its writer was handed. */
  predicate LinkTotals(s: State) {
    && s.linkStart.0 <= s.counters.framesUp
    && s.linkStart.1 <= s.counters.framesDown
    && (s.writer.Some? && s.writer.value < |s.links| ==>
          s.counters.framesUp - s.linkStart.0 == |FramesIn(s.links[s.writer.value].sent)|)
  }

  ghost predicate Up(s: State) {
    && Ledger(s.links, s.pending, s.hist, s.counters)
    && Aged(s.pending, s.now)
    && LinkTotals(s)
  }

  /** The rest of the invariant the ledger relies on. */
  ghost predicate Ground(s: State) {
    Shape(s) && Links(s)
  }

  // ── Moves ───────────────────────────────────────────────────────────

  lemma FramesOfAppend(a: seq<Pending>, e: Pending)
    ensures FramesOf(a + [e]) == FramesOf(a) + [e.frame]
  {
  }

  /** Nothing uplink depends on changed, except who holds the frames. */
  lemma UpSame(s: State, t: State)
    requires Up(s) && SameFrames(s.links, t.links)
    requires t.pending == s.pending && t.linkStart == s.linkStart && t.now >= s.now
    requires t.hist.accepted == s.hist.accepted && t.hist.received == s.hist.received
    requires t.hist.refused == s.hist.refused && t.hist.upDropped == s.hist.upDropped
    requires t.hist.cleared == s.hist.cleared && t.hist.downDropped == s.hist.downDropped
    requires t.hist.lostToFull == s.hist.lostToFull
    requires t.counters.framesUp == s.counters.framesUp && t.counters.dropped == s.counters.dropped
    requires t.counters.framesDown >= s.counters.framesDown
    requires t.writer == s.writer || t.writer.None?
    ensures Up(t)
  {
    HandedSame(s.links, t.links);
  }

  /** Going idle clears what was pending, and says so. */
  lemma UpCleared(s: State, t: State)
    requires Up(s) && SameFrames(s.links, t.links)
    requires t.pending == [] && t.hist == Cleared(s) && t.counters == s.counters && t.linkStart == s.linkStart
    requires t.writer == s.writer || t.writer.None?
    ensures Up(t)
  {
    HandedSame(s.links, t.links);
    SubseqCut(Handed(s.links), FramesOf(s.pending), s.hist.accepted);
    assert Handed(s.links) + FramesOf([]) == Handed(s.links);
  }

  lemma RetiredSame(s: State, last: Option<WriterMsg>, fate: Fate)
    requires last.Some? ==> last.value.ExitKissMsg?
    ensures SameFrames(s.links, Retired(s, last, fate))
  {
    if s.writer.Some? && s.writer.value < |s.links| && last.Some? {
      FramesInSend(s.links[s.writer.value].sent, last.value);
    }
  }

  lemma UpDisconnect(s: State)
    requires Up(s)
    ensures Up(Disconnect(s))
  {
    var exit := if s.settings.exitKissOnDisconnect && s.exitKiss != [] then Some(ExitKissMsg(s.exitKiss)) else None;
    RetiredSame(s, exit, ClosedOnPurpose);
    UpCleared(s, Disconnect(s));
  }

  lemma UpLetGo(s: State)
    requires Up(s)
    ensures Up(LetGo(s))
  {
    if s.settings.idleTimeout == 0 { UpDisconnect(s); } else { UpSame(s, LetGo(s)); }
  }

  lemma UpRefuse(s: State)
    requires Up(s)
    ensures Up(Refuse(s))
  {
  }

  /** The ledger once `frame` is accepted and waits at the end. */
  lemma LedgerQueue(links: seq<Channel>, waiting: seq<Pending>, hist: History, counters: Counters, e: Pending)
    requires Ledger(links, waiting, hist, counters) && Harmless(e.frame)
    ensures Ledger(links, waiting + [e],
                   hist.(received := hist.received + 1, accepted := hist.accepted + [e.frame]), counters)
  {
    SubseqGrow(Handed(links) + FramesOf(waiting), hist.accepted, e.frame);
    FramesOfAppend(waiting, e);
    assert Handed(links) + FramesOf(waiting + [e]) == Handed(links) + FramesOf(waiting) + [e.frame];
  }

  /** The ledger once the oldest waiting frame is dropped and counted. */
  lemma LedgerDrop(links: seq<Channel>, waiting: seq<Pending>, hist: History, counters: Counters)
    requires Ledger(links, waiting, hist, counters) && |waiting| > 0
    ensures Ledger(links, waiting[1..], hist.(upDropped := hist.upDropped + 1),
                   counters.(dropped := counters.dropped + 1))
  {
    SubseqDropMiddle(Handed(links), FramesOf(waiting), hist.accepted);
    FramesOfRest(waiting);
  }

  lemma FramesOfRest(waiting: seq<Pending>)
    requires |waiting| > 0
    ensures |FramesOf(waiting)| == |waiting| && FramesOf(waiting[1..]) == FramesOf(waiting)[1..]
  {
  }

  lemma SubseqDropMiddle(a: seq<Frame>, b: seq<Frame>, all: seq<Frame>)
    requires Subseq(a + b, all) && |b| > 0
    ensures Subseq(a + b[1..], all)
  {
    assert a + b == a + [b[0]] + b[1..];
    SubseqDelete(a, b[0], b[1..], all);
  }

  /** The ledger once the oldest waiting frame is handed to the newest link. */
  lemma LedgerSend(links: seq<Channel>, waiting: seq<Pending>, hist: History, counters: Counters)
    requires Ledger(links, waiting, hist, counters) && |waiting| > 0 && |links| > 0
    ensures var ch := links[|links| - 1];
            Ledger(links[|links| - 1 := ch.(sent := ch.sent + [FrameMsg(waiting[0].frame)])], waiting[1..], hist,
                   counters.(framesUp := counters.framesUp + 1))
  {
    HandedSend(links, waiting[0].frame);
    var frames := FramesOf(waiting);
    assert FramesOf(waiting[1..]) == frames[1..];
    assert Handed(links) + [frames[0]] + frames[1..] == Handed(links) + frames;
  }

  /** Queueing an accepted frame, with the oldest making room if needed. */
  lemma UpQueue(s: State, frame: Frame, from: Option<SessionId>)
    requires Up(s) && Harmless(frame)
    ensures Up(QueuePending(Accept(s, frame), frame, from))
  {
    var e := Pending(s.now, frame, from);
    LedgerQueue(s.links, s.pending, s.hist, s.counters, e);
    var a := Accept(s, frame);
    if |s.pending| >= UPLINK_QUEUE_FRAMES {
      LedgerDrop(s.links, s.pending + [e], a.hist, s.counters);
      assert (s.pending + [e])[1..] == s.pending[1..] + [e];
    }
  }

  /** One waiting entry, with the rest of them still in hand, meets a connected
      link: it is handed over unless it is stale or the writer is gone. */
  ghost predicate InHand(s: State, entries: seq<Pending>) {
    && Ledger(s.links, entries, s.hist, s.counters)
    && LinkTotals(s)
    && Links(s) && WriterOk(s) && s.link.Connected?
    && s.pending == []
    && (var ch := s.links[s.writer.value]; ch.alive ==> |ch.sent| - ch.taken + |entries| <= WRITER_QUEUE)
  }

  lemma UpTransmit(s: State, entries: seq<Pending>)
    requires InHand(s, entries) && |entries| > 0
    ensures InHand(Transmit(s, entries[0].frame), entries[1..])
  {
    LinksTransmit(s, entries[0].frame);
    if WriterAccepts(s) {
      LedgerSend(s.links, entries, s.hist, s.counters);
      FramesInSend(s.links[s.writer.value].sent, FrameMsg(entries[0].frame));
    } else {
      LedgerDrop(s.links, entries, s.hist, s.counters);
    }
  }

  lemma UpDropStale(s: State, entries: seq<Pending>)
    requires InHand(s, entries) && |entries| > 0
    ensures InHand(DropUp(s), entries[1..])
  {
    LedgerDrop(s.links, entries, s.hist, s.counters);
    LinksQuiet(s, DropUp(s));
  }

  lemma UpLoseWriter(s: State, entries: seq<Pending>)
    requires InHand(s, entries)
    ensures InHand(LoseWriter(s, s.writer.value, true), entries)
  {
    LoseWriterOk(s, s.writer.value, true);
    HandedSame(s.links, LoseWriter(s, s.writer.value, true).links);
  }

  lemma UpFlushOne(s: State, entries: seq<Pending>, cutoff: int, writerDies: bool)
    requires InHand(s, entries) && |entries| > 0
    ensures InHand(FlushOne(s, entries[0], cutoff, writerDies), entries[1..])
  {
    var s1 := if writerDies then LoseWriter(s, s.writer.value, true) else s;
    if writerDies { UpLoseWriter(s, entries); }
    if entries[0].at < cutoff { UpDropStale(s1, entries); } else { UpTransmit(s1, entries); }
  }

  lemma {:induction false} UpFlush(s: State, entries: seq<Pending>, cutoff: int, dieAt: nat)
    requires InHand(s, entries)
    ensures InHand(Flush(s, entries, cutoff, dieAt), [])
    decreases |entries|
  {
    if |entries| > 0 {
      UpFlushOne(s, entries, cutoff, dieAt == 0);
      UpFlush(FlushOne(s, entries[0], cutoff, dieAt == 0), entries[1..], cutoff, if dieAt == 0 then 0 else dieAt - 1);
    }
  }

  // ── Steps ───────────────────────────────────────────────────────────

  lemma UpConnected(s: State, id: SessionId, frame: Frame)
    requires Up(s) && Ground(s) && AppReady(s) && s.link.Connected? && Harmless(frame)
    ensures Up(Transmit(Accept(s, frame), frame))
  {
    var e := Pending(s.now, frame, Some(id));
    var a := Accept(s, frame);
    LedgerQueue(s.links, [], s.hist, s.counters, e);
    assert [] + [e] == [e];
    LinksQuiet(s, a);
    UpTransmit(a, [e]);
  }

  lemma UpHeldDown(s: State, id: SessionId, frame: Frame)
    requires Up(s) && s.pending == [] && Harmless(frame)
    ensures Up(DropUp(Accept(s, frame)))
  {
    var e := Pending(s.now, frame, Some(id));
    LedgerQueue(s.links, [], s.hist, s.counters, e);
    assert [] + [e] == [e] && [e][1..] == [];
    LedgerDrop(s.links, [e], Accept(s, frame).hist, s.counters);
  }

  lemma UpAppFrame(s: State, id: SessionId, frame: Frame)
    requires Up(s) && Ground(s) && AppReady(s)
    ensures Up(OnAppFrame(s, id, frame))
  {
    FilterExact(frame, s.settings.appParams);
    if !(id in s.sessions && FilterAppFrame(frame, s.settings.appParams).Pass?) {
      UpRefuse(s);
    } else if s.link.Connected? {
      UpConnected(s, id, frame);
    } else if s.link.Idle? && s.held == Some(false) {
      UpHeldDown(s, id, frame);
    } else {
      UpQueue(s, frame, Some(id));
      var q := QueuePending(Accept(s, frame), frame, Some(id));
      UpSame(q, StartConnect(q));
    }
  }

  lemma UpApp(s: State, ev: AppEvent)
    requires Up(s) && Ground(s) && AppReady(s)
    ensures Up(OnApp(s, ev))
  {
    match ev
    case SessionOpened(id) =>
      UpSame(s, OnSessionOpened(s, id));
    case SessionClosed(id) =>
      var s1 := RemoveSession(s, id);
      UpSame(s, s1);
      UpLetGo(s1);
    case AppFrame(id, frame) =>
      UpAppFrame(s, id, frame);
  }

  lemma UpIfIdle(s: State)
    requires Up(s)
    ensures Up(ConnectIfIdle(s))
  {
    UpSame(s, ConnectIfIdle(s));
  }

  lemma UpSettings(s: State, new_: Settings)
    requires Up(s)
    ensures Up(ApplySettings(s, new_))
  {
    var s1 := SetSettings(s, new_);
    UpSame(s, s1);
    if s.settings.connect == OnDemand {
      UpSame(s1, StopTimer(s1));
      UpIfIdle(StopTimer(s1));
    } else {
      UpLetGo(s1);
    }
  }

  lemma UpConnector(s: State, c: nat)
    requires Up(s)
    ensures Up(OnConnector(s, c))
  {
    UpDisconnect(s);
    UpSame(Disconnect(s), OnConnector(s, c));
  }

  lemma UpHold(s: State, hold: Option<bool>)
    requires Up(s)
    ensures Up(OnHold(s, hold))
  {
    var s1 := SetHold(s, hold);
    UpSame(s, s1);
    if WantsLink(s1) { UpIfIdle(s1); }
    else if hold.Some? { UpDisconnect(s1); }
    else { UpLetGo(s1); }
  }

  lemma UpCmd(s: State, cmd: Cmd)
    requires Up(s)
    ensures Up(OnCmd(s, cmd))
  {
    match cmd
    case NewSettings(new_) => UpSettings(s, new_);
    case NewConnector(c) => UpConnector(s, c);
    case Kick(id) => UpSame(s, OnKick(s, id));
    case Hold(hold) => UpHold(s, hold);
  }

  lemma UpTncFrame(s: State, ev: TncEvent, full: set<SessionId>)
    requires Up(s) && ev.TncFrame?
    ensures Up(OnTncFrame(s, ev, full))
  {
  }

  lemma UpTncClosed(s: State, ev: TncEvent)
    requires Up(s) && ev.TncClosed?
    ensures Up(OnTncClosed(s, ev))
  {
    if ev.generation == s.generation && s.link.Connected? {
      RetiredSame(s, None, LinkLost);
      UpSame(s, Lose(s));
      if WantsLink(Lose(s)) { UpSame(Lose(s), OnTncClosed(s, ev)); }
    }
  }

  lemma UpTnc(s: State, full: set<SessionId>)
    requires Up(s) && s.consumed < |s.arrived|
    ensures Up(OnTnc(s, full))
  {
    var s1 := TakeEvent(s);
    var ev := s.arrived[s.consumed];
    UpSame(s, s1);
    if ev.TncFrame? { UpTncFrame(s1, ev, full); } else { UpTncClosed(s1, ev); }
  }

  lemma UpOpen(s: State, exitKiss: seq<seq<byte>>)
    requires Up(s) && Ground(s) && s.link.Connecting?
    ensures InHand(OpenLink(s, exitKiss), s.pending)
  {
    LinksOpen(s, exitKiss);
    HandedOpen(s.links, Channel(s.generation, [], 0, true, InUse));
  }

  lemma UpLinkUp(s: State, exitKiss: seq<seq<byte>>, dieAt: nat)
    requires Up(s) && Ground(s) && s.link.Connecting?
    ensures Up(OnLinkUp(s, exitKiss, dieAt))
  {
    UpOpen(s, exitKiss);
    UpFlush(OpenLink(s, exitKiss), s.pending, s.now - UPLINK_QUEUE_AGE, dieAt);
    UpDisconnect(Flushed(s, exitKiss, dieAt));
  }

  lemma UpFailed(s: State, error: ConnectError)
    requires Up(s)
    ensures Up(OnLinkFailed(s, error))
  {
    if WantsLink(s) { UpSame(s, OnLinkFailed(s, error)); } else { UpCleared(s, GoIdle(s)); }
  }

  lemma UpBackoffOver(s: State)
    requires Up(s)
    ensures Up(OnBackoffOver(s))
  {
    if WantsLink(s) { UpSame(s, StartConnect(s)); } else { UpCleared(s, GoIdle(s)); }
  }

  lemma UpIdleElapsed(s: State)
    requires Up(s)
    ensures Up(OnIdleElapsed(s))
  {
    UpSame(s, StopTimer(s));
    UpDisconnect(StopTimer(s));
  }

  lemma UpTasks(s: State, i: Input)
    requires Up(s) && Enabled(s, i)
    requires i.ReaderFrame? || i.ReaderClosed? || i.WriterTakes? || i.WriterGone? || i.TimePasses?
    ensures Up(Step(s, i))
  {
    UpSame(s, Step(s, i));
  }

  /** Every step keeps the ledger balanced and in order. */
  lemma UpStep(s: State, i: Input)
    requires Up(s) && Ground(s) && Enabled(s, i)
    ensures Up(Step(s, i))
  {
    match i
    case App(ev) => UpApp(s, ev);
    case Tnc(full) => UpTnc(s, full);
    case Command(cmd) => UpCmd(s, cmd);
    case LinkUp(exitKiss, dieAt) => UpLinkUp(s, exitKiss, dieAt);
    case LinkFailed(error) => UpFailed(s, error);
    case BackoffOver => UpBackoffOver(s);
    case IdleElapsed => UpIdleElapsed(s);
    case Shutdown => UpDisconnect(s);
    case _ => UpTasks(s, i);
  }

  // ── What is flushed on connect ──────────────────────────────────────

  function Msgs(entries: seq<Pending>): (r: seq<WriterMsg>)
    ensures |r| == |entries|
  {
    seq(|entries|, i requires 0 <= i < |entries| => FrameMsg(entries[i].frame))
  }

  /** Where the stale entries end: `k` splits the queue into stale and fresh. */
  ghost predicate SplitsAt(entries: seq<Pending>, cutoff: int, k: nat) {
    && k <= |entries|
    && (forall i :: 0 <= i < k ==> entries[i].at < cutoff)
    && (forall i :: k <= i < |entries| ==> entries[i].at >= cutoff)
  }

  lemma {:induction false} FindSplit(entries: seq<Pending>, now: nat, cutoff: int) returns (k: nat)
    requires Aged(entries, now)
    ensures SplitsAt(entries, cutoff, k)
    decreases |entries|
  {
    if |entries| == 0 || entries[0].at >= cutoff {
      k := 0;
    } else {
      var k' := FindSplit(entries[1..], now, cutoff);
      k := k' + 1;
      assert forall i :: 1 <= i < |entries| ==> entries[i] == entries[1..][i - 1];
    }
  }

  /** The fresh entries before entry `dieAt`, as messages. */
  function Told(entries: seq<Pending>, cutoff: int, dieAt: nat): seq<WriterMsg>
    decreases |entries|
  {
    if |entries| == 0 || dieAt == 0 then []
    else
      (if entries[0].at < cutoff then [] else [FrameMsg(entries[0].frame)]) + Told(entries[1..], cutoff, dieAt - 1)
  }

  lemma {:induction false} ToldIsSuffix(entries: seq<Pending>, cutoff: int, dieAt: nat, k: nat)
    requires SplitsAt(entries, cutoff, k)
    ensures Told(entries, cutoff, dieAt) == Msgs(entries[k..if dieAt < k then k else Min(dieAt, |entries|)])
    decreases |entries|
  {
    if |entries| > 0 && dieAt > 0 {
      var rest := entries[1..];
      var k' := if k == 0 then 0 else k - 1;
      assert forall i :: 0 <= i < |rest| ==> rest[i] == entries[i + 1];
      ToldIsSuffix(rest, cutoff, dieAt - 1, k');
      var end := if dieAt < k then k else Min(dieAt, |entries|);
      if k > 0 {
        assert entries[k..end] == rest[k - 1..end - 1];
      } else {
        assert entries[0..end] == [entries[0]] + rest[0..end - 1];
      }
    }
  }

  /** The connected link's queue has room for `n` more messages. */
  predicate RoomFor(s: State, n: nat) {
    && s.link.Connected? && s.writer.Some? && s.writer.value < |s.links|
    && (var ch := s.links[s.writer.value]; ch.alive ==> |ch.sent| - ch.taken + n <= WRITER_QUEUE)
  }

  /** What one entry adds to the writer's channel. */
  lemma FlushOneTells(s: State, entry: Pending, cutoff: int, writerDies: bool, n: nat)
    requires RoomFor(s, n + 1)
    ensures var t := FlushOne(s, entry, cutoff, writerDies);
            var ch := s.links[s.writer.value];
            && RoomFor(t, n) && t.writer == s.writer && |t.links| == |s.links|
            && t.links[s.writer.value].alive == (ch.alive && !writerDies)
            && t.links[s.writer.value].sent ==
               if !ch.alive || writerDies || entry.at < cutoff then ch.sent else ch.sent + [FrameMsg(entry.frame)]
  {
  }

  lemma {:induction false} FlushTells(s: State, entries: seq<Pending>, cutoff: int, dieAt: nat)
    requires RoomFor(s, |entries|)
    ensures var ch := s.links[s.writer.value];
            var t := Flush(s, entries, cutoff, dieAt);
            && |t.links| == |s.links|
            && t.links[s.writer.value].sent == ch.sent + if ch.alive then Told(entries, cutoff, dieAt) else []
    decreases |entries|
  {
    if |entries| > 0 {
      var ch := s.links[s.writer.value];
      var one := FlushOne(s, entries[0], cutoff, dieAt == 0);
      var left := if dieAt == 0 then 0 else dieAt - 1;
      FlushOneTells(s, entries[0], cutoff, dieAt == 0, |entries| - 1);
      FlushTells(one, entries[1..], cutoff, left);
      FlushFirst(s, entries, cutoff, dieAt);
      ToldFirst(ch.sent, ch.alive, entries, cutoff, dieAt, one.links[s.writer.value].sent);
    }
  }

  lemma FlushFirst(s: State, entries: seq<Pending>, cutoff: int, dieAt: nat)
    requires |entries| > 0
    ensures Flush(s, entries, cutoff, dieAt) ==
            Flush(FlushOne(s, entries[0], cutoff, dieAt == 0), entries[1..], cutoff, if dieAt == 0 then 0 else dieAt - 1)
  {
  }

  lemma ToldFirst(sent: seq<WriterMsg>, alive: bool, entries: seq<Pending>, cutoff: int, dieAt: nat, next: seq<WriterMsg>)
    requires |entries| > 0
    requires next == if !alive || dieAt == 0 || entries[0].at < cutoff then sent else sent + [FrameMsg(entries[0].frame)]
    ensures next + (if alive && dieAt != 0 then Told(entries[1..], cutoff, dieAt - 1) else []) ==
            sent + (if alive then Told(entries, cutoff, dieAt) else [])
  {
  }

  lemma {:induction false} FlushAccepts(s: State, entries: seq<Pending>, cutoff: int, dieAt: nat)
    requires s.link.Connected?
    ensures var t := Flush(s, entries, cutoff, dieAt);
            t.hist.accepted == s.hist.accepted && t.hist.cleared == s.hist.cleared
    decreases |entries|
  {
    if |entries| > 0 {
      FlushOneFrame(s, entries[0], cutoff, dieAt == 0);
      FlushAccepts(FlushOne(s, entries[0], cutoff, dieAt == 0), entries[1..], cutoff, if dieAt == 0 then 0 else dieAt - 1);
    }
  }

  /** On connect, the new link's writer is told exactly the pending frames no
      older than the limit, in order: the queue's suffix from some point on
      (cut short only where the writer itself fails). */
  lemma ConnectSendsFreshSuffix(s: State, exitKiss: seq<seq<byte>>, dieAt: nat) returns (k: nat)
    requires Shape(s) && Aged(s.pending, s.now) && s.link.Connecting?
    ensures SplitsAt(s.pending, s.now - UPLINK_QUEUE_AGE, k)
    ensures var t := Flushed(s, exitKiss, dieAt);
            && |t.links| == |s.links| + 1
            && t.links[|s.links|].sent <= Msgs(s.pending[k..])
            && (dieAt >= |s.pending| ==> t.links[|s.links|].sent == Msgs(s.pending[k..]))
  {
    var cutoff := s.now - UPLINK_QUEUE_AGE;
    k := FindSplit(s.pending, s.now, cutoff);
    FlushTells(OpenLink(s, exitKiss), s.pending, cutoff, dieAt);
    ToldIsSuffix(s.pending, cutoff, dieAt, k);
    var end := if dieAt < k then k else Min(dieAt, |s.pending|);
    assert Msgs(s.pending[k..end]) == Msgs(s.pending[k..])[..end - k];
    if dieAt >= |s.pending| { assert s.pending[k..end] == s.pending[k..]; }
  }

  /** Every pending frame not sent on connect is counted as dropped. */
  lemma ConnectCountsTheRest(s: State, exitKiss: seq<seq<byte>>, dieAt: nat)
    requires Up(s) && Ground(s) && s.link.Connecting?
    ensures var t := Flushed(s, exitKiss, dieAt);
            && |t.links| == |s.links| + 1
            && t.hist.upDropped == s.hist.upDropped + |s.pending| - |FramesIn(t.links[|s.links|].sent)|
  {
    var cutoff := s.now - UPLINK_QUEUE_AGE;
    var open := OpenLink(s, exitKiss);
    UpOpen(s, exitKiss);
    UpFlush(open, s.pending, cutoff, dieAt);
    FlushFrame(open, s.pending, cutoff, dieAt);
    FlushAccepts(open, s.pending, cutoff, dieAt);
  }
}

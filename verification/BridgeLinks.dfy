/** Links and generations: which link an event belongs to, what each link's
    writer was told, and how each link ended. */
module BridgeLinks {
  import opened Common
  import opened Policy
  import opened BridgeState
  import opened BridgeShape

  // ── One channel ─────────────────────────────────────────────────────

  /** The queue is within bounds, and an order to leave KISS mode is the
      last thing a writer is told, once, and only when the bridge closed the
      link on purpose. */
  predicate ChannelOk(ch: Channel) {
    && ch.taken <= |ch.sent| <= ch.taken + WRITER_QUEUE
    && (forall i :: 0 <= i < |ch.sent| && ch.sent[i].ExitKissMsg? ==>
          i == |ch.sent| - 1 && ch.fate.ClosedOnPurpose?)
  }

  // ── All links ───────────────────────────────────────────────────────

  /** Generations grow from link to link; the one link in use, if any, is the
      newest and carries the current generation, and no other link does. */
  predicate LinksOk(links: seq<Channel>, generation: nat, writer: Option<nat>) {
    && (forall i, j :: 0 <= i < j < |links| ==> links[i].generation < links[j].generation)
    && (forall i :: 0 <= i < |links| ==> links[i].generation <= generation)
    && (forall i :: 0 <= i < |links| ==> ChannelOk(links[i]))
    && (forall i :: 0 <= i < |links| ==> (links[i].fate.InUse? <==> writer == Some(i)))
    && (forall i :: 0 <= i < |links| ==> (links[i].generation == generation <==> writer == Some(i)))
    && (writer.Some? ==> writer.value == |links| - 1)
  }

  ghost predicate FromALink(links: seq<Channel>, ev: TncEvent) {
    exists i :: 0 <= i < |links| && links[i].generation == ev.generation
  }

  /** Every queued event came from a link that was opened. */
  ghost predicate EventsOk(links: seq<Channel>, arrived: seq<TncEvent>, consumed: nat) {
    && consumed <= |arrived|
    && forall k :: 0 <= k < |arrived| ==> FromALink(links, arrived[k])
  }

  ghost predicate Links(s: State) {
    && LinksOk(s.links, s.generation, s.writer)
    && EventsOk(s.links, s.arrived, s.consumed)
  }

  /** There is a writer exactly while connected. */
  predicate WriterOk(s: State) {
    s.writer.Some? <==> s.link.Connected?
  }

  // ── Moves ───────────────────────────────────────────────────────────

  /** Same links, seen from one state to a later one: a link keeps its
      generation, a writer is never untold anything, and an ended link stays
      as it ended. */
  ghost predicate Grown(a: seq<Channel>, b: seq<Channel>) {
    && |a| <= |b|
    && forall i :: 0 <= i < |a| ==>
         && b[i].generation == a[i].generation
         && a[i].sent <= b[i].sent && a[i].taken <= b[i].taken
         && (b[i].fate == a[i].fate || a[i].fate.InUse?)
         && (a[i].fate.InUse? || b[i].sent == a[i].sent)
  }

  lemma EventsGrown(a: seq<Channel>, b: seq<Channel>, arrived: seq<TncEvent>, consumed: nat)
    requires EventsOk(a, arrived, consumed) && Grown(a, b)
    ensures EventsOk(b, arrived, consumed)
  {
    forall k | 0 <= k < |arrived| ensures FromALink(b, arrived[k]) {
      var i :| 0 <= i < |a| && a[i].generation == arrived[k].generation;
      assert b[i].generation == arrived[k].generation;
    }
  }

  lemma SentOk(s: State, frame: Frame)
    requires LinksOk(s.links, s.generation, s.writer)
    ensures LinksOk(Sent(s, FrameMsg(frame)), s.generation, s.writer)
    ensures Grown(s.links, Sent(s, FrameMsg(frame)))
  {
  }

  lemma RetiredOk(s: State, last: Option<WriterMsg>, fate: Fate, generation: nat)
    requires LinksOk(s.links, s.generation, s.writer)
    requires generation > s.generation && !fate.InUse?
    requires last.Some? ==> fate.ClosedOnPurpose?
    ensures LinksOk(Retired(s, last, fate), generation, None)
    ensures Grown(s.links, Retired(s, last, fate))
  {
  }

  /** A state whose links are in order, and later than `a`. */
  ghost predicate LinksFrom(s: State, t: State) {
    Links(t) && Grown(s.links, t.links) && WriterOk(t)
  }

  lemma LinksDisconnect(s: State)
    requires Links(s) && WriterOk(s)
    ensures LinksFrom(s, Disconnect(s))
  {
    var exit := if s.settings.exitKissOnDisconnect && s.exitKiss != [] then Some(ExitKissMsg(s.exitKiss)) else None;
    RetiredOk(s, exit, ClosedOnPurpose, s.generation + 1);
    EventsGrown(s.links, Disconnect(s).links, s.arrived, s.consumed);
  }

  lemma LinksLetGo(s: State)
    requires Links(s) && WriterOk(s)
    ensures LinksFrom(s, LetGo(s))
  {
    LinksDisconnect(s);
  }

  /** Moves that touch no link: the generation may grow between links. */
  lemma LinksQuiet(s: State, t: State)
    requires Links(s) && WriterOk(t)
    requires t.links == s.links && t.writer == s.writer && t.arrived == s.arrived
    requires s.consumed <= t.consumed <= |t.arrived|
    requires t.generation == s.generation || (t.generation > s.generation && s.writer.None?)
    ensures LinksFrom(s, t)
  {
  }

  lemma LinksConnect(s: State)
    requires Links(s) && WriterOk(s) && !s.link.Connected?
    ensures LinksFrom(s, StartConnect(s))
  {
    LinksQuiet(s, StartConnect(s));
  }

  lemma LinksTransmit(s: State, frame: Frame)
    requires Links(s) && WriterOk(s)
    ensures LinksFrom(s, Transmit(s, frame))
  {
    SentOk(s, frame);
    EventsGrown(s.links, Sent(s, FrameMsg(frame)), s.arrived, s.consumed);
  }

  lemma LinksUplink(s: State, frame: Frame, from: Option<SessionId>)
    requires Links(s) && WriterOk(s)
    ensures LinksFrom(s, Uplink(s, frame, from))
  {
    if s.link.Connected? {
      LinksTransmit(s, frame);
    } else {
      LinksQuiet(s, Uplink(s, frame, from));
    }
  }

  lemma LinksApp(s: State, ev: AppEvent)
    requires Links(s) && WriterOk(s)
    ensures LinksFrom(s, OnApp(s, ev))
  {
    match ev
    case SessionOpened(id) =>
      var s1 := AddSession(s, id);
      if !s1.link.Connected? { LinksConnect(s1); }
    case SessionClosed(id) =>
      LinksLetGo(RemoveSession(s, id));
    case AppFrame(id, frame) =>
      LinksUplink(Accept(s, frame), frame, Some(id));
  }

  lemma LinksIfIdle(s: State)
    requires Links(s) && WriterOk(s)
    ensures LinksFrom(s, ConnectIfIdle(s))
  {
    if s.link.Idle? { LinksConnect(s); }
  }

  lemma LinksConnector(s: State, c: nat)
    requires Links(s) && WriterOk(s)
    ensures LinksFrom(s, OnConnector(s, c))
  {
    LinksDisconnect(s);
    var s1 := SetConnector(Disconnect(s), c);
    LinksConnect(s1);
  }

  lemma LinksSettings(s: State, new_: Settings)
    requires Links(s) && WriterOk(s)
    ensures LinksFrom(s, ApplySettings(s, new_))
  {
    var s1 := SetSettings(s, new_);
    if s.settings.connect == OnDemand {
      LinksIfIdle(StopTimer(s1));
    } else {
      LinksLetGo(s1);
    }
  }

  lemma LinksHold(s: State, hold: Option<bool>)
    requires Links(s) && WriterOk(s)
    ensures LinksFrom(s, OnHold(s, hold))
  {
    var s1 := SetHold(s, hold);
    LinksDisconnect(s1);
    LinksLetGo(s1);
    LinksIfIdle(s1);
  }

  lemma LinksCmd(s: State, cmd: Cmd)
    requires Links(s) && WriterOk(s)
    ensures LinksFrom(s, OnCmd(s, cmd))
  {
    match cmd
    case NewSettings(new_) => LinksSettings(s, new_);
    case NewConnector(c) => LinksConnector(s, c);
    case Kick(id) =>
    case Hold(hold) => LinksHold(s, hold);
  }

  lemma LinksLose(s: State)
    requires Links(s) && WriterOk(s) && s.link.Connected?
    ensures Links(Lose(s)) && Grown(s.links, Lose(s).links)
  {
    RetiredOk(s, None, LinkLost, s.generation + 1);
    EventsGrown(s.links, Lose(s).links, s.arrived, s.consumed);
  }

  lemma LinksTnc(s: State, full: set<SessionId>)
    requires Links(s) && WriterOk(s) && s.consumed < |s.arrived|
    ensures LinksFrom(s, OnTnc(s, full))
  {
    var s1 := TakeEvent(s);
    var ev := s.arrived[s.consumed];
    if ev.TncClosed? && ev.generation == s.generation && s.link.Connected? {
      LinksLose(s1);
      LinksQuiet(Lose(s1), OnTnc(s, full));
    } else {
      LinksQuiet(s, OnTnc(s, full));
    }
  }

  lemma LoseWriterOk(s: State, i: nat, report: bool)
    requires Links(s)
    ensures Links(LoseWriter(s, i, report)) && Grown(s.links, LoseWriter(s, i, report).links)
  {
    var t := LoseWriter(s, i, report);
    assert LinksOk(t.links, t.generation, t.writer);
    EventsGrown(s.links, t.links, s.arrived, s.consumed);
    if i < |s.links| {
      assert FromALink(t.links, TncClosed(s.links[i].generation)) by {
        assert t.links[i].generation == s.links[i].generation;
      }
    }
  }

  lemma LinksFlushOne(s: State, entry: Pending, cutoff: int, writerDies: bool)
    requires Links(s) && WriterOk(s) && s.link.Connected?
    ensures LinksFrom(s, FlushOne(s, entry, cutoff, writerDies))
  {
    var s1 := if writerDies && s.writer.Some? then LoseWriter(s, s.writer.value, true) else s;
    if writerDies && s.writer.Some? { LoseWriterOk(s, s.writer.value, true); }
    LinksUplink(s1, entry.frame, entry.from);
  }

  lemma {:induction false} LinksFlush(s: State, entries: seq<Pending>, cutoff: int, dieAt: nat)
    requires Links(s) && WriterOk(s) && s.link.Connected?
    ensures LinksFrom(s, Flush(s, entries, cutoff, dieAt))
    decreases |entries|
  {
    if |entries| > 0 {
      FlushOneFrame(s, entries[0], cutoff, dieAt == 0);
      LinksFlushOne(s, entries[0], cutoff, dieAt == 0);
      LinksFlush(FlushOne(s, entries[0], cutoff, dieAt == 0), entries[1..], cutoff, if dieAt == 0 then 0 else dieAt - 1);
    }
  }

  lemma LinksOpen(s: State, exitKiss: seq<seq<byte>>)
    requires Links(s) && WriterOk(s) && s.link.Connecting?
    ensures LinksFrom(s, OpenLink(s, exitKiss))
  {
    var t := OpenLink(s, exitKiss);
    EventsGrown(s.links, t.links, s.arrived, s.consumed);
  }

  lemma LinksLinkUp(s: State, exitKiss: seq<seq<byte>>, dieAt: nat)
    requires Links(s) && WriterOk(s) && s.link.Connecting?
    ensures LinksFrom(s, OnLinkUp(s, exitKiss, dieAt))
  {
    LinksOpen(s, exitKiss);
    LinksFlush(OpenLink(s, exitKiss), s.pending, s.now - UPLINK_QUEUE_AGE, dieAt);
    LinksDisconnect(Flushed(s, exitKiss, dieAt));
  }

  lemma LinksLink(s: State, i: Input)
    requires Links(s) && WriterOk(s) && Enabled(s, i) && (i.LinkFailed? || i.BackoffOver? || i.IdleElapsed?)
    ensures LinksFrom(s, Step(s, i))
  {
    if i.IdleElapsed? {
      LinksDisconnect(StopTimer(s));
    } else {
      LinksQuiet(s, Step(s, i));
    }
  }

  lemma LinksReader(s: State, i: Input)
    requires Links(s) && WriterOk(s) && Enabled(s, i) && (i.ReaderFrame? || i.ReaderClosed?)
    ensures LinksFrom(s, Step(s, i))
  {
    assert FromALink(s.links, Step(s, i).arrived[|s.arrived|]);
  }

  lemma LinksTakes(s: State, i: Input)
    requires Links(s) && WriterOk(s) && Enabled(s, i) && i.WriterTakes?
    ensures LinksFrom(s, Step(s, i))
  {
    EventsGrown(s.links, Step(s, i).links, s.arrived, s.consumed);
  }

  lemma LinksTasks(s: State, i: Input)
    requires Links(s) && WriterOk(s) && Enabled(s, i)
    requires i.ReaderFrame? || i.ReaderClosed? || i.WriterTakes? || i.WriterGone? || i.TimePasses?
    ensures LinksFrom(s, Step(s, i))
  {
    if i.ReaderFrame? || i.ReaderClosed? {
      LinksReader(s, i);
    } else if i.WriterTakes? {
      LinksTakes(s, i);
    } else if i.WriterGone? {
      LoseWriterOk(s, i.channel, i.report);
    }
  }

  /** Every step keeps the links in order and only adds to what writers were told. */
  lemma LinksStep(s: State, i: Input)
    requires Links(s) && WriterOk(s) && Enabled(s, i)
    ensures Links(Step(s, i)) && Grown(s.links, Step(s, i).links)
  {
    match i
    case App(ev) => LinksApp(s, ev);
    case Tnc(full) => LinksTnc(s, full);
    case Command(cmd) => LinksCmd(s, cmd);
    case LinkUp(exitKiss, dieAt) => LinksLinkUp(s, exitKiss, dieAt);
    case LinkFailed(_) => LinksLink(s, i);
    case BackoffOver => LinksLink(s, i);
    case IdleElapsed => LinksLink(s, i);
    case Shutdown => LinksDisconnect(s);
    case _ => LinksTasks(s, i);
  }
}

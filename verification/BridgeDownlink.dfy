/** Downlink: which frames are broadcast, and what each session gets. */
module BridgeDownlink {
  import opened Common
  import opened Policy
  import opened BridgeState
  import opened BridgeShape
  import opened BridgeLinks

  function FrameEvents(events: seq<TncEvent>): seq<Frame> {
    if |events| == 0 then []
    else
      var init := FrameEvents(events[..|events| - 1]);
      var last := events[|events| - 1];
      if last.TncFrame? then init + [last.frame] else init
  }

  function LostLinks(links: seq<Channel>): nat {
    if |links| == 0 then 0
    else LostLinks(links[..|links| - 1]) + if links[|links| - 1].fate.LinkLost? then 1 else 0
  }

  /** A session's channel holds, in order and unchanged, some of the frames
      that came from TNC links since it opened. */
  ghost predicate SessionOk(ses: Session, arrived: seq<TncEvent>, consumed: nat, nextSeq: nat) {
    && 1 <= ses.seqNo <= nextSeq
    && ses.openedAt <= consumed <= |arrived|
    && Subseq(ses.got, FrameEvents(arrived[ses.openedAt..consumed]))
  }

  ghost predicate SessionsOk(sessions: map<SessionId, Session>, arrived: seq<TncEvent>, consumed: nat, nextSeq: nat) {
    && (forall id :: id in sessions ==> SessionOk(sessions[id], arrived, consumed, nextSeq))
    && (forall a, b :: a in sessions && b in sessions && a != b ==> sessions[a].seqNo != sessions[b].seqNo)
  }

  ghost predicate Down(s: State) {
    && s.consumed <= |s.arrived|
    && SessionsOk(s.sessions, s.arrived, s.consumed, s.nextSeq)
    && Subseq(s.hist.heard, s.arrived[..s.consumed])
    && s.counters.framesDown == |s.hist.heard|
    && s.counters.sessions == |s.sessions|
    && s.counters.tncConnects == |s.links|
    && s.hist.losses == LostLinks(s.links)
  }

  // ── Moves ───────────────────────────────────────────────────────────

  lemma FrameEventsOne(events: seq<TncEvent>, ev: TncEvent)
    ensures FrameEvents(events + [ev]) ==
            if ev.TncFrame? then FrameEvents(events) + [ev.frame] else FrameEvents(events)
  {
    assert (events + [ev])[..|events|] == events;
  }

  /** Another event is taken; the session may get it if it is a frame. */
  lemma SessionTakes(ses: Session, arrived: seq<TncEvent>, consumed: nat, nextSeq: nat)
    requires SessionOk(ses, arrived, consumed, nextSeq) && consumed < |arrived|
    ensures SessionOk(ses, arrived, consumed + 1, nextSeq)
    ensures arrived[consumed].TncFrame? ==>
              SessionOk(ses.(got := ses.got + [arrived[consumed].frame]), arrived, consumed + 1, nextSeq)
  {
    var since := arrived[ses.openedAt..consumed];
    var ev := arrived[consumed];
    assert arrived[ses.openedAt..consumed + 1] == since + [ev];
    FrameEventsOne(since, ev);
    if ev.TncFrame? { SubseqGrow(ses.got, FrameEvents(since), ev.frame); }
  }

  lemma {:induction false} FrameEventsSplit(a: seq<TncEvent>, b: seq<TncEvent>)
    ensures FrameEvents(a + b) == FrameEvents(a) + FrameEvents(b)
    decreases |b|
  {
    if |b| == 0 {
      assert a + b == a;
    } else {
      FrameEventsSplit(a, b[..|b| - 1]);
      assert (a + b)[..|a + b| - 1] == a + b[..|b| - 1];
    }
  }

  lemma {:induction false} SubseqInside(x: seq<Frame>, a: seq<Frame>, b: seq<Frame>, c: seq<Frame>)
    requires Subseq(x, b)
    ensures Subseq(x, a + b + c)
    decreases |c|, |b|, |a|
  {
    var all := a + b + c;
    if |c| > 0 {
      SubseqInside(x, a, b, c[..|c| - 1]);
      assert all == a + b + c[..|c| - 1] + [c[|c| - 1]];
      SubseqGrow(x, a + b + c[..|c| - 1], c[|c| - 1]);
    } else if |b| > 0 {
      var b', last := b[..|b| - 1], b[|b| - 1];
      assert all == a + b' + [] + [last];
      if |x| > 0 && x[|x| - 1] == last && Subseq(x[..|x| - 1], b') {
        SubseqInside(x[..|x| - 1], a, b', []);
        SubseqGrow(x[..|x| - 1], a + b' + [], last);
        assert x == x[..|x| - 1] + [last];
      } else {
        SubseqInside(x, a, b', []);
        SubseqGrow(x, a + b' + [], last);
      }
    }
  }

  /** A selection of what came in a while is one of all that came. */
  lemma FrameEventsSlice(events: seq<TncEvent>, lo: nat, hi: nat, x: seq<Frame>)
    requires lo <= hi <= |events| && Subseq(x, FrameEvents(events[lo..hi]))
    ensures Subseq(x, FrameEvents(events))
  {
    assert events == events[..lo] + events[lo..hi] + events[hi..];
    FrameEventsSplit(events[..lo] + events[lo..hi], events[hi..]);
    FrameEventsSplit(events[..lo], events[lo..hi]);
    SubseqInside(x, FrameEvents(events[..lo]), FrameEvents(events[lo..hi]), FrameEvents(events[hi..]));
  }

  lemma SessionsTake(s: State)
    requires Down(s) && s.consumed < |s.arrived|
    ensures SessionsOk(s.sessions, s.arrived, s.consumed + 1, s.nextSeq)
  {
    forall id | id in s.sessions ensures SessionOk(s.sessions[id], s.arrived, s.consumed + 1, s.nextSeq) {
      SessionTakes(s.sessions[id], s.arrived, s.consumed, s.nextSeq);
    }
  }

  lemma SessionsHear(s: State, full: set<SessionId>, ev: TncEvent)
    requires Down(s) && s.consumed < |s.arrived| && s.arrived[s.consumed] == ev && ev.TncFrame?
    ensures SessionsOk(Broadcast(s.sessions, ev.frame, full), s.arrived, s.consumed + 1, s.nextSeq)
  {
    var after := Broadcast(s.sessions, ev.frame, full);
    forall id | id in after ensures SessionOk(after[id], s.arrived, s.consumed + 1, s.nextSeq) {
      SessionTakes(s.sessions[id], s.arrived, s.consumed, s.nextSeq);
    }
  }

  lemma {:induction false} LostSame(a: seq<Channel>, b: seq<Channel>)
    requires |a| == |b| && forall i :: 0 <= i < |a| ==> (a[i].fate.LinkLost? <==> b[i].fate.LinkLost?)
    ensures LostLinks(a) == LostLinks(b)
    decreases |a|
  {
    if |a| > 0 { LostSame(a[..|a| - 1], b[..|b| - 1]); }
  }

  lemma LostOpen(a: seq<Channel>, ch: Channel)
    requires !ch.fate.LinkLost?
    ensures LostLinks(a + [ch]) == LostLinks(a)
  {
    assert (a + [ch])[..|a|] == a;
  }

  /** Losing the newest link, which was in use, is one more loss. */
  lemma LostNewest(a: seq<Channel>, ch: Channel)
    requires |a| > 0 && a[|a| - 1].fate.InUse? && ch.fate.LinkLost?
    ensures LostLinks(a[|a| - 1 := ch]) == LostLinks(a) + 1
  {
    var b := a[|a| - 1 := ch];
    assert b[..|b| - 1] == a[..|a| - 1];
  }

  /** Moves that take no event from the queue and lose no link. */
  lemma DownSame(s: State, t: State)
    requires Down(s)
    requires t.sessions == s.sessions && t.nextSeq == s.nextSeq && t.consumed == s.consumed
    requires |t.arrived| >= |s.arrived| && t.arrived[..|s.arrived|] == s.arrived
    requires t.hist.heard == s.hist.heard && t.hist.losses == s.hist.losses
    requires t.counters.framesDown == s.counters.framesDown && t.counters.sessions == s.counters.sessions
    requires t.counters.tncConnects == s.counters.tncConnects
    requires |t.links| == |s.links|
    requires forall i :: 0 <= i < |s.links| ==> (t.links[i].fate.LinkLost? <==> s.links[i].fate.LinkLost?)
    ensures Down(t)
  {
    LostSame(s.links, t.links);
    assert t.arrived[..t.consumed] == s.arrived[..s.consumed];
    forall id | id in s.sessions ensures SessionOk(s.sessions[id], t.arrived, t.consumed, t.nextSeq) {
      assert t.arrived[s.sessions[id].openedAt..t.consumed] == s.arrived[s.sessions[id].openedAt..s.consumed];
    }
  }

  lemma DownDisconnect(s: State)
    requires Down(s) && Links(s)
    ensures Down(Disconnect(s))
  {
    DownSame(s, Disconnect(s));
  }

  lemma DownLetGo(s: State)
    requires Down(s) && Links(s)
    ensures Down(LetGo(s))
  {
    if s.settings.idleTimeout == 0 { DownDisconnect(s); } else { DownSame(s, LetGo(s)); }
  }

  lemma DownAdd(s: State, id: SessionId)
    requires Down(s)
    ensures Down(AddSession(s, id))
  {
    var t := AddSession(s, id);
    assert s.arrived[s.consumed..s.consumed] == [];
    forall k | k in t.sessions ensures SessionOk(t.sessions[k], t.arrived, t.consumed, t.nextSeq) {
      if k != id { assert SessionOk(s.sessions[k], s.arrived, s.consumed, s.nextSeq); }
    }
  }

  lemma DownRemove(s: State, id: SessionId)
    requires Down(s)
    ensures Down(RemoveSession(s, id))
  {
  }

  lemma DownKick(s: State, id: SessionId)
    requires Down(s)
    ensures Down(OnKick(s, id))
  {
    if id in s.sessions {
      var t := OnKick(s, id);
      assert t.sessions.Keys == s.sessions.Keys;
      assert |t.sessions| == |t.sessions.Keys| == |s.sessions.Keys|;
      forall k | k in t.sessions ensures SessionOk(t.sessions[k], t.arrived, t.consumed, t.nextSeq) {
        assert SessionOk(s.sessions[k], s.arrived, s.consumed, s.nextSeq);
      }
    }
  }

  lemma DownAppFrame(s: State, id: SessionId, frame: Frame)
    requires Down(s)
    ensures Down(OnAppFrame(s, id, frame))
  {
    if id in s.sessions && FilterAppFrame(frame, s.settings.appParams).Pass? {
      DownSame(s, Accept(s, frame));
      DownUplink(Accept(s, frame), frame, Some(id));
    } else {
      DownSame(s, Refuse(s));
    }
  }

  lemma DownApp(s: State, ev: AppEvent)
    requires Down(s) && Links(s)
    ensures Down(OnApp(s, ev))
  {
    match ev
    case SessionOpened(id) => DownOpened(s, id);
    case SessionClosed(id) => DownSessionClosed(s, id);
    case AppFrame(id, frame) => DownAppFrame(s, id, frame);
  }

  lemma DownOpened(s: State, id: SessionId)
    requires Down(s)
    ensures Down(OnSessionOpened(s, id))
  {
    DownAdd(s, id);
    DownSame(AddSession(s, id), OnSessionOpened(s, id));
  }

  lemma DownSessionClosed(s: State, id: SessionId)
    requires Down(s) && Links(s)
    ensures Down(OnSessionClosed(s, id))
  {
    DownRemove(s, id);
    DownLetGo(RemoveSession(s, id));
  }

  lemma DownSettings(s: State, new_: Settings)
    requires Down(s) && Links(s)
    ensures Down(ApplySettings(s, new_))
  {
    var s1 := SetSettings(s, new_);
    DownSame(s, s1);
    DownLetGo(s1);
    DownSame(s1, ConnectIfIdle(StopTimer(s1)));
  }

  lemma DownHold(s: State, hold: Option<bool>)
    requires Down(s) && Links(s)
    ensures Down(OnHold(s, hold))
  {
    var s1 := SetHold(s, hold);
    DownSame(s, s1);
    if WantsLink(s1) { DownSame(s1, ConnectIfIdle(s1)); }
    else if hold.Some? { DownDisconnect(s1); }
    else { DownLetGo(s1); }
  }

  lemma DownConnector(s: State, c: nat)
    requires Down(s) && Links(s)
    ensures Down(OnConnector(s, c))
  {
    DownDisconnect(s);
    DownSame(Disconnect(s), OnConnector(s, c));
  }

  lemma DownCmd(s: State, cmd: Cmd)
    requires Down(s) && Links(s)
    ensures Down(OnCmd(s, cmd))
  {
    match cmd
    case NewSettings(new_) => DownSettings(s, new_);
    case NewConnector(c) => DownConnector(s, c);
    case Kick(id) => DownKick(s, id);
    case Hold(hold) => DownHold(s, hold);
  }

  /** Taking an event off the queue, before acting on it. */
  lemma DownTake(s: State)
    requires Down(s) && s.consumed < |s.arrived|
    ensures Down(TakeEvent(s))
  {
    SessionsTake(s);
    SubseqGrow(s.hist.heard, s.arrived[..s.consumed], s.arrived[s.consumed]);
    assert s.arrived[..s.consumed] + [s.arrived[s.consumed]] == s.arrived[..s.consumed + 1];
  }

  lemma DownFrame(s: State, full: set<SessionId>)
    requires Down(s) && s.consumed < |s.arrived| && s.arrived[s.consumed].TncFrame?
    ensures Down(OnTnc(s, full))
  {
    DownTake(s);
    var ev := s.arrived[s.consumed];
    SessionsHear(s, full, ev);
    SubseqGrow(s.hist.heard, s.arrived[..s.consumed], ev);
    assert s.arrived[..s.consumed] + [ev] == s.arrived[..s.consumed + 1];
  }

  lemma DownLose(s: State)
    requires Down(s) && Links(s) && WriterOk(s) && s.link.Connected?
    ensures Down(Lose(s))
  {
    LostNewest(s.links, Lose(s).links[|s.links| - 1]);
  }

  lemma DownClosed(s: State, ev: TncEvent)
    requires Down(s) && Links(s) && WriterOk(s) && ev.TncClosed?
    ensures Down(OnTncClosed(s, ev))
  {
    if ev.generation == s.generation && s.link.Connected? {
      DownLose(s);
      DownSame(Lose(s), OnTncClosed(s, ev));
    }
  }

  lemma DownTnc(s: State, full: set<SessionId>)
    requires Down(s) && Links(s) && WriterOk(s) && s.consumed < |s.arrived|
    ensures Down(OnTnc(s, full))
  {
    if s.arrived[s.consumed].TncFrame? {
      DownFrame(s, full);
    } else {
      DownTake(s);
      var s1 := TakeEvent(s);
      LinksQuiet(s, s1);
      DownClosed(s1, s.arrived[s.consumed]);
    }
  }

  lemma DownQueue(s: State, frame: Frame, from: Option<SessionId>)
    requires Down(s)
    ensures Down(QueuePending(s, frame, from)) && Down(StartConnect(QueuePending(s, frame, from)))
  {
    var q := QueuePending(s, frame, from);
    DownSame(s, q);
    DownSame(q, StartConnect(q));
  }

  lemma DownUplink(s: State, frame: Frame, from: Option<SessionId>)
    requires Down(s)
    ensures Down(Uplink(s, frame, from))
  {
    if s.link.Connected? { DownSame(s, Transmit(s, frame)); }
    else if s.link.Idle? && s.held == Some(false) { DownSame(s, DropUp(s)); }
    else { DownQueue(s, frame, from); }
  }

  lemma FlushOneDown(s: State, entry: Pending, cutoff: int, writerDies: bool)
    requires Down(s)
    ensures Down(FlushOne(s, entry, cutoff, writerDies))
  {
    var s1 := if writerDies && s.writer.Some? then LoseWriter(s, s.writer.value, true) else s;
    DownSame(s, s1);
    if entry.at < cutoff { DownSame(s1, DropUp(s1)); } else { DownUplink(s1, entry.frame, entry.from); }
  }

  lemma {:induction false} FlushDown(s: State, entries: seq<Pending>, cutoff: int, dieAt: nat)
    requires Down(s) && s.link.Connected?
    ensures Down(Flush(s, entries, cutoff, dieAt))
    decreases |entries|
  {
    if |entries| > 0 {
      FlushOneDown(s, entries[0], cutoff, dieAt == 0);
      FlushOneFrame(s, entries[0], cutoff, dieAt == 0);
      FlushDown(FlushOne(s, entries[0], cutoff, dieAt == 0), entries[1..], cutoff, if dieAt == 0 then 0 else dieAt - 1);
    }
  }

  lemma DownOpen(s: State, exitKiss: seq<seq<byte>>)
    requires Down(s) && s.link.Connecting?
    ensures Down(OpenLink(s, exitKiss))
  {
    LostOpen(s.links, Channel(s.generation, [], 0, true, InUse));
  }

  lemma DownLinkUp(s: State, exitKiss: seq<seq<byte>>, dieAt: nat)
    requires Down(s) && Links(s) && WriterOk(s) && s.link.Connecting?
    ensures Down(OnLinkUp(s, exitKiss, dieAt))
  {
    DownFlushed(s, exitKiss, dieAt);
    DownDisconnect(Flushed(s, exitKiss, dieAt));
  }

  lemma DownFlushed(s: State, exitKiss: seq<seq<byte>>, dieAt: nat)
    requires Down(s) && Links(s) && WriterOk(s) && s.link.Connecting?
    ensures Down(Flushed(s, exitKiss, dieAt)) && Links(Flushed(s, exitKiss, dieAt))
  {
    DownOpen(s, exitKiss);
    LinksOpen(s, exitKiss);
    var open := OpenLink(s, exitKiss);
    FlushDown(open, s.pending, s.now - UPLINK_QUEUE_AGE, dieAt);
    LinksFlush(open, s.pending, s.now - UPLINK_QUEUE_AGE, dieAt);
  }

  lemma DownFailed(s: State, error: ConnectError)
    requires Down(s)
    ensures Down(OnLinkFailed(s, error))
  {
    if !WantsLink(s) { DownSame(s, GoIdle(s)); } else if error.OtherError? {
      DownSame(s, StartBackoff(StopWaiting(s)));
    } else {
      DownWait(s, if error.UnpairedError? then Unpaired else Device, error.why);
    }
  }

  lemma DownWait(s: State, kind: Wait, why: string)
    requires Down(s)
    ensures Down(StartWait(s, kind, why))
  {
    DownSame(s, StartWait(s, kind, why));
  }

  lemma DownBackoffOver(s: State)
    requires Down(s)
    ensures Down(OnBackoffOver(s))
  {
    if WantsLink(s) { DownSame(s, StartConnect(s)); } else { DownSame(s, GoIdle(s)); }
  }

  lemma DownIdleElapsed(s: State)
    requires Down(s) && Links(s)
    ensures Down(OnIdleElapsed(s))
  {
    DownSame(s, StopTimer(s));
    DownDisconnect(StopTimer(s));
  }

  lemma DownTasks(s: State, i: Input)
    requires Down(s) && Enabled(s, i)
    requires i.ReaderFrame? || i.ReaderClosed? || i.WriterTakes? || i.WriterGone? || i.TimePasses?
    ensures Down(Step(s, i))
  {
    DownSame(s, Step(s, i));
  }

  /** Every step keeps what sessions got in line with what the links sent. */
  lemma DownStep(s: State, i: Input)
    requires Down(s) && Links(s) && WriterOk(s) && Enabled(s, i)
    ensures Down(Step(s, i))
  {
    match i
    case App(ev) => DownApp(s, ev);
    case Tnc(full) => DownTnc(s, full);
    case Command(cmd) => DownCmd(s, cmd);
    case LinkUp(exitKiss, dieAt) => DownLinkUp(s, exitKiss, dieAt);
    case LinkFailed(error) => DownFailed(s, error);
    case BackoffOver => DownBackoffOver(s);
    case IdleElapsed => DownIdleElapsed(s);
    case Shutdown => DownDisconnect(s);
    case _ => DownTasks(s, i);
  }
}

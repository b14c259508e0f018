/** The bridge's counts of what happened, tied to the run's own inputs: what
    apps sent and what the policy let through, frames cleared with a link let
    go, copies for sessions that couldn't take them, and frames read. */
module BridgeHistory {
  import opened Common
  import opened Policy
  import opened BridgeState
  import opened BridgeShape
  import opened BridgeUplink
  import opened BridgeDownlink

  // ── One step ────────────────────────────────────────────────────────

  predicate IsAppFrame(i: Input) {
    i.App? && i.ev.AppFrame?
  }

  /** The frame an app gets past the policy in force, if this is one: from a
      session that is open, and not dropped under the current settings. */
  function Passed(s: State, i: Input): seq<Frame> {
    if IsAppFrame(i) && i.ev.id in s.sessions && FilterAppFrame(i.ev.frame, s.settings.appParams).Pass?
    then [i.ev.frame] else []
  }

  /** Frames still waiting when the link they wait for is given up. */
  function ClearedBy(s: State, i: Input): nat
    requires Enabled(s, i)
  {
    if i.LinkUp? then 0
    else if (i.Command? && i.cmd.NewConnector?) || Step(s, i).link.Idle? then |s.pending|
    else 0
  }

  /** Sessions that can't take a frame from the connected link. */
  function SlowBy(s: State, i: Input): nat
    requires Enabled(s, i)
  {
    if i.Tnc? && s.arrived[s.consumed].TncFrame? && s.arrived[s.consumed].generation == s.generation
    then |i.full * s.sessions.Keys| else 0
  }

  ghost predicate Recorded(s: State, t: State, passed: seq<Frame>, sent: nat, cleared: nat, slow: nat) {
    && t.hist.accepted == s.hist.accepted + passed && t.hist.received == s.hist.received + sent
    && t.hist.cleared == s.hist.cleared + cleared && t.hist.downDropped == s.hist.downDropped + slow
  }

  lemma RecordedApp(s: State, ev: AppEvent)
    requires Shape(s) && Enabled(s, App(ev))
    ensures Recorded(s, OnApp(s, ev), Passed(s, App(ev)), if ev.AppFrame? then 1 else 0, ClearedBy(s, App(ev)), 0)
  {
    match ev
    case SessionOpened(id) =>
    case SessionClosed(id) =>
    case AppFrame(id, frame) => RecordedFrame(s, id, frame);
  }

  lemma RecordedFrame(s: State, id: SessionId, frame: Frame)
    requires Shape(s)
    ensures Recorded(s, OnAppFrame(s, id, frame), Passed(s, App(AppFrame(id, frame))), 1,
                     if OnAppFrame(s, id, frame).link.Idle? then |s.pending| else 0, 0)
  {
  }

  lemma RecordedCmd(s: State, cmd: Cmd)
    requires Shape(s) && Enabled(s, Command(cmd))
    ensures Recorded(s, OnCmd(s, cmd), [], 0, ClearedBy(s, Command(cmd)), 0)
  {
  }

  lemma RecordedTnc(s: State, full: set<SessionId>)
    requires Shape(s) && Enabled(s, Tnc(full))
    ensures Recorded(s, OnTnc(s, full), [], 0, ClearedBy(s, Tnc(full)), SlowBy(s, Tnc(full)))
  {
  }

  lemma {:induction false} FlushRecords(s: State, entries: seq<Pending>, cutoff: int, dieAt: nat)
    requires s.link.Connected?
    ensures Recorded(s, Flush(s, entries, cutoff, dieAt), [], 0, 0, 0)
    decreases |entries|
  {
    if |entries| > 0 {
      FlushOneFrame(s, entries[0], cutoff, dieAt == 0);
      FlushRecords(FlushOne(s, entries[0], cutoff, dieAt == 0), entries[1..], cutoff, if dieAt == 0 then 0 else dieAt - 1);
    }
  }

  lemma RecordedLinkUp(s: State, exitKiss: seq<seq<byte>>, dieAt: nat)
    requires Shape(s) && s.link.Connecting?
    ensures Recorded(s, OnLinkUp(s, exitKiss, dieAt), [], 0, 0, 0)
  {
    var open := OpenLink(s, exitKiss);
    FlushRecords(open, s.pending, s.now - UPLINK_QUEUE_AGE, dieAt);
    FlushFrame(open, s.pending, s.now - UPLINK_QUEUE_AGE, dieAt);
  }

  lemma StepRecords(s: State, i: Input)
    requires Shape(s) && Enabled(s, i)
    ensures Recorded(s, Step(s, i), Passed(s, i), if IsAppFrame(i) then 1 else 0, ClearedBy(s, i), SlowBy(s, i))
  {
    match i
    case App(ev) => RecordedApp(s, ev);
    case Command(cmd) => RecordedCmd(s, cmd);
    case Tnc(full) => RecordedTnc(s, full);
    case LinkUp(exitKiss, dieAt) => RecordedLinkUp(s, exitKiss, dieAt);
    case _ =>
  }

  // ── A run ───────────────────────────────────────────────────────────

  /** The app frames that pass, in the order they arrive. */
  ghost function PassedAll(s: State, inputs: seq<Input>): seq<Frame>
    requires ValidRun(s, inputs)
    decreases |inputs|
  {
    if |inputs| == 0 then [] else Passed(s, inputs[0]) + PassedAll(Step(s, inputs[0]), inputs[1..])
  }

  function CountAppFrames(inputs: seq<Input>): nat {
    if |inputs| == 0 then 0 else (if IsAppFrame(inputs[0]) then 1 else 0) + CountAppFrames(inputs[1..])
  }

  ghost function ClearedIn(s: State, inputs: seq<Input>): nat
    requires ValidRun(s, inputs)
    decreases |inputs|
  {
    if |inputs| == 0 then 0 else ClearedBy(s, inputs[0]) + ClearedIn(Step(s, inputs[0]), inputs[1..])
  }

  ghost function SlowIn(s: State, inputs: seq<Input>): nat
    requires ValidRun(s, inputs)
    decreases |inputs|
  {
    if |inputs| == 0 then 0 else SlowBy(s, inputs[0]) + SlowIn(Step(s, inputs[0]), inputs[1..])
  }

  lemma {:induction false} RunRecords(s: State, inputs: seq<Input>)
    requires Shape(s) && ValidRun(s, inputs)
    ensures Recorded(s, After(s, inputs), PassedAll(s, inputs), CountAppFrames(inputs), ClearedIn(s, inputs), SlowIn(s, inputs))
    decreases |inputs|
  {
    if |inputs| > 0 {
      StepRecords(s, inputs[0]);
      ShapeStep(s, inputs[0]);
      RunRecords(Step(s, inputs[0]), inputs[1..]);
    }
  }

  // ── What links read ─────────────────────────────────────────────────

  function ReadBy(i: Input): seq<Frame> {
    if i.ReaderFrame? then [i.frame] else []
  }

  /** The frames the links' readers got, in order. */
  function ReadIn(inputs: seq<Input>): seq<Frame> {
    if |inputs| == 0 then [] else ReadBy(inputs[0]) + ReadIn(inputs[1..])
  }

  lemma {:induction false} FlushQuiet(s: State, entries: seq<Pending>, cutoff: int, dieAt: nat)
    requires s.link.Connected?
    ensures FrameEvents(Flush(s, entries, cutoff, dieAt).arrived) == FrameEvents(s.arrived)
    decreases |entries|
  {
    if |entries| > 0 {
      FlushOneFrame(s, entries[0], cutoff, dieAt == 0);
      FlushOneQuiet(s, entries[0], cutoff, dieAt == 0);
      FlushQuiet(FlushOne(s, entries[0], cutoff, dieAt == 0), entries[1..], cutoff, if dieAt == 0 then 0 else dieAt - 1);
    }
  }

  lemma FlushOneQuiet(s: State, entry: Pending, cutoff: int, writerDies: bool)
    requires s.link.Connected?
    ensures FrameEvents(FlushOne(s, entry, cutoff, writerDies).arrived) == FrameEvents(s.arrived)
  {
    if writerDies && s.writer.Some? { LoseQuiet(s, s.writer.value, true); }
  }

  lemma LoseQuiet(s: State, c: nat, report: bool)
    ensures FrameEvents(LoseWriter(s, c, report).arrived) == FrameEvents(s.arrived)
  {
    forall generation ensures FrameEvents(s.arrived + [TncClosed(generation)]) == FrameEvents(s.arrived) {
      FrameEventsOne(s.arrived, TncClosed(generation));
    }
  }

  /** A turn of the loop puts nothing on the queue, unless it flushes. */
  lemma TurnQuiet(s: State, i: Input)
    requires Enabled(s, i) && !i.LinkUp? && !i.ReaderFrame? && !i.ReaderClosed? && !i.WriterGone?
    ensures Step(s, i).arrived == s.arrived
  {
    match i
    case App(ev) => AppQuiet(s, ev);
    case Command(cmd) => CmdQuiet(s, cmd);
    case Tnc(full) => TncQuiet(s, full);
    case _ =>
  }

  lemma AppQuiet(s: State, ev: AppEvent)
    ensures OnApp(s, ev).arrived == s.arrived
  {
    match ev
    case SessionOpened(id) =>
    case SessionClosed(id) =>
    case AppFrame(id, frame) => UplinkQuiet(Accept(s, frame), frame, Some(id));
  }

  lemma UplinkQuiet(s: State, frame: Frame, from: Option<SessionId>)
    ensures Uplink(s, frame, from).arrived == s.arrived
  {
    match s.link
    case Connected(_) =>
    case Idle =>
    case Connecting(_) =>
    case Backoff(_) =>
  }

  lemma CmdQuiet(s: State, cmd: Cmd)
    ensures OnCmd(s, cmd).arrived == s.arrived
  {
  }

  lemma TncQuiet(s: State, full: set<SessionId>)
    requires s.consumed < |s.arrived|
    ensures OnTnc(s, full).arrived == s.arrived
  {
  }

  lemma LinkUpQuiet(s: State, exitKiss: seq<seq<byte>>, dieAt: nat)
    requires s.link.Connecting?
    ensures FrameEvents(OnLinkUp(s, exitKiss, dieAt).arrived) == FrameEvents(s.arrived)
  {
    var open := OpenLink(s, exitKiss);
    FlushQuiet(open, s.pending, s.now - UPLINK_QUEUE_AGE, dieAt);
  }

  lemma StepReads(s: State, i: Input)
    requires Enabled(s, i)
    ensures FrameEvents(Step(s, i).arrived) == FrameEvents(s.arrived) + ReadBy(i)
  {
    match i
    case LinkUp(exitKiss, dieAt) => LinkUpQuiet(s, exitKiss, dieAt);
    case ReaderFrame(c, frame) => FrameEventsOne(s.arrived, TncFrame(s.links[c].generation, frame));
    case ReaderClosed(c) => FrameEventsOne(s.arrived, TncClosed(s.links[c].generation));
    case WriterGone(c, report) => LoseQuiet(s, c, report);
    case _ => TurnQuiet(s, i);
  }

  /** Everything on the queue of TNC frames was read from a link, in that order. */
  lemma {:induction false} RunReads(s: State, inputs: seq<Input>)
    requires ValidRun(s, inputs)
    ensures FrameEvents(After(s, inputs).arrived) == FrameEvents(s.arrived) + ReadIn(inputs)
    decreases |inputs|
  {
    if |inputs| > 0 {
      StepReads(s, inputs[0]);
      RunReads(Step(s, inputs[0]), inputs[1..]);
    }
  }
}

/** What holds in every run of the bridge, from its start and for any order of
    app events, commands, timers, link outcomes and task moves. */
module BridgeRuns {
  import opened Common
  import opened Policy
  import opened BridgeState
  import opened BridgeShape
  import opened BridgeLinks
  import opened BridgeUplink
  import opened BridgeDownlink
  import opened BridgeHistory

  ghost predicate Inv(s: State) {
    Shape(s) && Demand(s) && Links(s) && Up(s) && Down(s)
  }

  lemma StartInv(settings: Settings, connector: nat, now: nat)
    ensures Inv(Start(settings, connector, now))
  {
    var s := Fresh(settings, connector, now);
    FreshShape(s);
    FreshUp(s);
    FreshDown(s);
    if settings.connect == Always {
      ShapeConnect(s);
      UpSame(s, StartConnect(s));
      DownSame(s, StartConnect(s));
      LinksQuiet(s, StartConnect(s));
    }
  }

  /** Nothing has happened yet. */
  ghost predicate Blank(s: State) {
    && s.running && s.held.None? && |s.sessions| == 0 && s.link.Idle? && s.writer.None? && s.pending == [] && s.idleTimer.None?
    && s.waiting.None? && s.shown == ShowIdle && s.counters == Counters(0, 0, 0, 0, 0) && s.links == [] && s.arrived == []
    && s.linkStart == (0, 0) && s.consumed == 0 && s.nextSeq == 0 && s.hist == History(0, 0, [], 0, 0, 0, 0, [], 0)
  }

  lemma FreshShape(s: State)
    requires Blank(s)
    ensures Shape(s) && Links(s) && WriterOk(s)
  {
  }

  lemma FreshUp(s: State)
    requires Blank(s)
    ensures Up(s)
  {
    assert Handed(s.links) == [] && FramesOf(s.pending) == [];
  }

  lemma FreshDown(s: State)
    requires Blank(s)
    ensures Down(s)
  {
    assert s.arrived[..s.consumed] == [];
  }

  lemma StepInv(s: State, i: Input)
    requires Inv(s) && Enabled(s, i)
    ensures Inv(Step(s, i))
  {
    ShapeStep(s, i);
    DemandStep(s, i);
    LinksStep(s, i);
    UpStep(s, i);
    DownStep(s, i);
  }

  lemma {:induction false} RunInv(s: State, inputs: seq<Input>)
    requires Inv(s) && ValidRun(s, inputs)
    ensures Inv(After(s, inputs))
    decreases |inputs|
  {
    if |inputs| > 0 {
      StepInv(s, inputs[0]);
      RunInv(Step(s, inputs[0]), inputs[1..]);
    }
  }

  /** The states some run leads to. */
  ghost predicate Reachable(s: State) {
    exists settings: Settings, connector: nat, now: nat, inputs: seq<Input> ::
      ValidRun(Start(settings, connector, now), inputs) && s == After(Start(settings, connector, now), inputs)
  }

  lemma ReachableInv(s: State)
    requires Reachable(s)
    ensures Inv(s)
  {
    var settings: Settings, connector: nat, now: nat, inputs: seq<Input> :|
      ValidRun(Start(settings, connector, now), inputs) && s == After(Start(settings, connector, now), inputs);
    StartInv(settings, connector, now);
    RunInv(Start(settings, connector, now), inputs);
  }

  // ── Uplink ──────────────────────────────────────────────────────────

  lemma RunRecorded(settings: Settings, connector: nat, now: nat, inputs: seq<Input>)
    requires ValidRun(Start(settings, connector, now), inputs)
    ensures var s0 := Start(settings, connector, now); var s := After(s0, inputs);
            && Inv(s)
            && s.hist.accepted == PassedAll(s0, inputs) && s.hist.received == CountAppFrames(inputs)
            && s.hist.cleared == ClearedIn(s0, inputs) && s.hist.downDropped == SlowIn(s0, inputs)
  {
    var s0 := Start(settings, connector, now);
    StartInv(settings, connector, now);
    StartHistory(settings, connector, now);
    RunInv(s0, inputs);
    RecordedFromNothing(s0, inputs);
  }

  lemma StartHistory(settings: Settings, connector: nat, now: nat)
    ensures Start(settings, connector, now).hist == History(0, 0, [], 0, 0, 0, 0, [], 0)
  {
  }

  lemma RecordedFromNothing(s0: State, inputs: seq<Input>)
    requires Shape(s0) && ValidRun(s0, inputs) && s0.hist == History(0, 0, [], 0, 0, 0, 0, [], 0)
    ensures var hist := After(s0, inputs).hist;
            && hist.accepted == PassedAll(s0, inputs) && hist.received == CountAppFrames(inputs)
            && hist.cleared == ClearedIn(s0, inputs) && hist.downDropped == SlowIn(s0, inputs)
  {
    RunRecords(s0, inputs);
  }

  /** In every run, across any number of links: the frames handed to the TNC's
      writers are frames that apps with an open session sent and the policy in
      force then let through, in arrival order, unchanged, each at most once. */
  lemma UplinkInOrder(settings: Settings, connector: nat, now: nat, inputs: seq<Input>) returns (at: seq<nat>)
    requires ValidRun(Start(settings, connector, now), inputs)
    ensures var s0 := Start(settings, connector, now);
            Embeds(Handed(After(s0, inputs).links), PassedAll(s0, inputs), at)
  {
    var s := After(Start(settings, connector, now), inputs);
    RunRecorded(settings, connector, now, inputs);
    SubseqCut(Handed(s.links), FramesOf(s.pending), s.hist.accepted);
    at := SubseqEmbeds(Handed(s.links), s.hist.accepted);
  }

  /** In every run: each frame the apps sent is forwarded, counted as dropped,
      still pending, or was waiting for a link that was given up; and none was
      lost to a full writer queue. */
  lemma UplinkConserved(settings: Settings, connector: nat, now: nat, inputs: seq<Input>)
    requires ValidRun(Start(settings, connector, now), inputs)
    ensures var s0 := Start(settings, connector, now); var s := After(s0, inputs);
            && CountAppFrames(inputs) ==
               s.counters.framesUp + (s.counters.dropped - SlowIn(s0, inputs)) + |s.pending| + ClearedIn(s0, inputs)
            && s.counters.framesUp == |Handed(s.links)| && s.hist.lostToFull == 0
  {
    RunRecorded(settings, connector, now, inputs);
  }

  /** In every run, what a session was sent is an in-order selection of what
      the links' readers read: never an app's frame. */
  lemma SessionGetsReadFrames(settings: Settings, connector: nat, now: nat, inputs: seq<Input>, id: SessionId) returns (at: seq<nat>)
    requires ValidRun(Start(settings, connector, now), inputs)
    requires id in After(Start(settings, connector, now), inputs).sessions
    ensures Embeds(After(Start(settings, connector, now), inputs).sessions[id].got, ReadIn(inputs), at)
  {
    var s0 := Start(settings, connector, now);
    var s := After(s0, inputs);
    RunRecorded(settings, connector, now, inputs);
    RunReads(s0, inputs);
    assert FrameEvents(s0.arrived) + ReadIn(inputs) == ReadIn(inputs);
    var ses := s.sessions[id];
    assert SessionOk(ses, s.arrived, s.consumed, s.nextSeq);
    FrameEventsSlice(s.arrived, ses.openedAt, s.consumed, ses.got);
    at := SubseqEmbeds(ses.got, FrameEvents(s.arrived));
  }

  /** No app frame on its way to the TNC is a KISS return or an unknown
      command, wherever it is. */
  lemma OnlyHarmlessFrames(s: State)
    requires Reachable(s)
    ensures forall i :: 0 <= i < |s.pending| ==> Harmless(s.pending[i].frame)
    ensures forall f :: f in Handed(s.links) ==> Harmless(f)
  {
    ReachableInv(s);
    HarmlessParts(Handed(s.links), FramesOf(s.pending), s.hist.accepted);
    forall i | 0 <= i < |s.pending| ensures Harmless(s.pending[i].frame) {
      assert s.pending[i].frame == FramesOf(s.pending)[i];
    }
  }

  lemma HarmlessParts(handed: seq<Frame>, waiting: seq<Frame>, accepted: seq<Frame>)
    requires Subseq(handed + waiting, accepted) && forall i :: 0 <= i < |accepted| ==> Harmless(accepted[i])
    ensures forall f :: f in handed ==> Harmless(f)
    ensures forall i :: 0 <= i < |waiting| ==> Harmless(waiting[i])
  {
    var all := handed + waiting;
    var at := SubseqEmbeds(all, accepted);
    forall i | 0 <= i < |all| ensures Harmless(all[i]) { assert all[i] == accepted[at[i]]; }
    forall i | 0 <= i < |waiting| ensures Harmless(waiting[i]) { assert waiting[i] == all[|handed| + i]; }
    forall f | f in handed ensures Harmless(f) {
      var i :| 0 <= i < |handed| && handed[i] == f;
      assert f == all[i];
    }
  }

  /** A frame is never queued on an idle link: where somebody could send one,
      the link is up, coming up, or held down. So the arm of `uplink` that
      connects on a frame is never taken. */
  lemma IdleUplinkOnlyWhenHeldDown(s: State, id: SessionId)
    requires Reachable(s) && s.running && id in s.sessions && s.link.Idle?
    ensures s.held == Some(false)
  {
    ReachableInv(s);
    assert |s.sessions| > 0 by { assert |s.sessions.Keys - {id}| >= 0 && id in s.sessions.Keys; }
  }

  // ── Links ───────────────────────────────────────────────────────────

  /** Whatever is queued, an event with the current generation comes from the
      link that is connected now, and every other event from a dead link. */
  lemma CurrentGenerationIsLive(s: State, ev: TncEvent)
    requires Reachable(s) && ev in s.arrived
    ensures ev.generation == s.generation <==>
            s.link.Connected? && s.writer.Some? && s.writer.value < |s.links|
            && s.links[s.writer.value].generation == ev.generation && s.links[s.writer.value].fate.InUse?
  {
    ReachableInv(s);
    var k :| 0 <= k < |s.arrived| && s.arrived[k] == ev;
    assert FromALink(s.links, s.arrived[k]);
    var i :| 0 <= i < |s.links| && s.links[i].generation == ev.generation;
  }

  /** A frame read from the connected link goes to every session that can take
      it; a frame from any other link changes nothing. */
  lemma BroadcastExact(s: State, full: set<SessionId>, id: SessionId)
    requires Reachable(s) && s.consumed < |s.arrived| && s.arrived[s.consumed].TncFrame?
    requires id in s.sessions
    ensures var t := OnTnc(s, full);
            var ev := s.arrived[s.consumed];
            && t.sessions.Keys == s.sessions.Keys
            && t.sessions[id].got ==
               if s.link.Connected? && s.writer.Some? && s.writer.value < |s.links|
                  && s.links[s.writer.value].generation == ev.generation && id !in full
               then s.sessions[id].got + [ev.frame] else s.sessions[id].got
  {
    ReachableInv(s);
    CurrentGenerationIsLive(s, s.arrived[s.consumed]);
  }

  /** A frame from a link other than the connected one changes nothing, also
      when a newer link is connected. */
  lemma StaleFrameIgnored(s: State, full: set<SessionId>)
    requires Reachable(s) && s.consumed < |s.arrived| && s.arrived[s.consumed].TncFrame?
    requires s.writer.Some? && s.writer.value < |s.links| ==>
               s.links[s.writer.value].generation != s.arrived[s.consumed].generation
    ensures OnTnc(s, full) == TakeEvent(s)
  {
    CurrentGenerationIsLive(s, s.arrived[s.consumed]);
  }

  /** A close reported by a link that is not the connected one changes nothing. */
  lemma StaleCloseIgnored(s: State, full: set<SessionId>)
    requires Reachable(s) && s.consumed < |s.arrived| && s.arrived[s.consumed].TncClosed?
    requires s.writer.Some? && s.writer.value < |s.links| ==>
               s.links[s.writer.value].generation != s.arrived[s.consumed].generation
    ensures OnTnc(s, full) == TakeEvent(s)
  {
    CurrentGenerationIsLive(s, s.arrived[s.consumed]);
  }

  /** Losses handled are links lost, one each, and no link ends twice: an
      ended link keeps its fate and its writer is told nothing more. */
  lemma EachLinkEndsOnce(s: State, i: Input, c: nat)
    requires Reachable(s) && Enabled(s, i) && c < |s.links| && !s.links[c].fate.InUse?
    ensures s.hist.losses == LostLinks(s.links) && s.counters.tncConnects == |s.links|
    ensures var t := Step(s, i);
            && c < |t.links| && t.links[c].fate == s.links[c].fate && t.links[c].sent == s.links[c].sent
  {
    ReachableInv(s);
    LinksStep(s, i);
  }

  /** On every link, exit-KISS is the last thing the writer is told, at most
      once, and only if the bridge closed the link on purpose. */
  lemma ExitKissLast(s: State, c: nat, i: nat)
    requires Reachable(s) && c < |s.links| && i < |s.links[c].sent| && s.links[c].sent[i].ExitKissMsg?
    ensures i == |s.links[c].sent| - 1 && s.links[c].fate.ClosedOnPurpose?
  {
    ReachableInv(s);
    assert ChannelOk(s.links[c]);
  }

  /** What a session was sent is an in-order selection of frames from TNC
      links since it opened, and no other bytes. */
  lemma SessionGetsTncFrames(s: State, id: SessionId) returns (at: seq<nat>)
    requires Reachable(s) && id in s.sessions
    ensures s.sessions[id].openedAt <= s.consumed <= |s.arrived|
    ensures Embeds(s.sessions[id].got, FrameEvents(s.arrived[s.sessions[id].openedAt..s.consumed]), at)
  {
    ReachableInv(s);
    assert SessionOk(s.sessions[id], s.arrived, s.consumed, s.nextSeq);
    at := SubseqEmbeds(s.sessions[id].got, FrameEvents(s.arrived[s.sessions[id].openedAt..s.consumed]));
  }

  // ── Demand ──────────────────────────────────────────────────────────

  /** While nobody holds the link, it is never stranded and never leaked. */
  lemma DemandMet(s: State)
    requires Reachable(s) && s.running && s.held.None?
    ensures s.link.Idle? ==> s.settings.connect == OnDemand && |s.sessions| == 0
    ensures !s.link.Idle? && s.settings.connect == OnDemand && |s.sessions| == 0 ==> s.idleTimer.Some?
  {
    ReachableInv(s);
  }

  /** The link follows a hold: up means not idle, down means idle. */
  predicate HoldRespected(s: State) {
    s.running && s.held.Some? ==> (s.held.value <==> !s.link.Idle?)
  }

  /** The settings change that overrides a hold: `apply_settings` looks at the
      policy and the sessions, not at the hold. */
  predicate BreaksHold(s: State, i: Input) {
    && i.Command? && i.cmd.NewSettings?
    && s.held.Some?
    && if s.held.value
       then s.settings.connect == Always && i.cmd.settings.connect == OnDemand
            && |s.sessions| == 0 && i.cmd.settings.idleTimeout == 0
       else s.settings.connect == OnDemand && i.cmd.settings.connect == Always
  }

  lemma HoldCmd(s: State, cmd: Cmd)
    requires HoldRespected(s) && s.running
    ensures HoldRespected(OnCmd(s, cmd)) <==> !BreaksHold(s, Command(cmd))
  {
  }

  lemma HoldApp(s: State, ev: AppEvent)
    requires HoldRespected(s) && s.running
    ensures HoldRespected(OnApp(s, ev))
  {
  }

  /** A hold survives a step exactly when the step is not such a settings change. */
  lemma HoldStep(s: State, i: Input)
    requires HoldRespected(s) && Enabled(s, i)
    ensures HoldRespected(Step(s, i)) <==> !BreaksHold(s, i)
  {
    match i
    case App(ev) => HoldApp(s, ev);
    case Command(cmd) => HoldCmd(s, cmd);
    case LinkUp(exitKiss, dieAt) => HoldLinkUp(s, exitKiss, dieAt);
    case Tnc(full) => HoldTnc(s, full);
    case _ =>
  }

  lemma HoldLinkUp(s: State, exitKiss: seq<seq<byte>>, dieAt: nat)
    requires HoldRespected(s) && s.link.Connecting?
    ensures HoldRespected(OnLinkUp(s, exitKiss, dieAt))
  {
    FlushFrame(OpenLink(s, exitKiss), s.pending, s.now - UPLINK_QUEUE_AGE, dieAt);
  }

  lemma HoldTnc(s: State, full: set<SessionId>)
    requires HoldRespected(s) && s.consumed < |s.arrived|
    ensures HoldRespected(OnTnc(s, full))
  {
  }

  ghost predicate KeepsHolds(s: State, inputs: seq<Input>)
    requires ValidRun(s, inputs)
    decreases |inputs|
  {
    |inputs| == 0 || (!BreaksHold(s, inputs[0]) && KeepsHolds(Step(s, inputs[0]), inputs[1..]))
  }

  /** In a run without such settings changes, the link always follows the hold. */
  lemma {:induction false} HoldRun(s: State, inputs: seq<Input>)
    requires HoldRespected(s) && ValidRun(s, inputs) && KeepsHolds(s, inputs)
    ensures HoldRespected(After(s, inputs))
    decreases |inputs|
  {
    if |inputs| > 0 {
      HoldStep(s, inputs[0]);
      HoldRun(Step(s, inputs[0]), inputs[1..]);
    }
  }

  /** The failing case: held down, then switched to `always`, the link comes
      up and nothing is left to take it down. */
  lemma HeldDownYetConnected() returns (s: State)
    ensures Reachable(s)
    ensures s.running && s.held == Some(false) && s.link.Connected? && s.idleTimer.None?
  {
    var onDemand := Settings("radio", OnDemand, 1_000, PassParams, false);
    var always := onDemand.(connect := Always);
    var s0 := Start(onDemand, 0, 0);
    var i0 := Command(Hold(Some(false)));
    var i1 := Command(NewSettings(always));
    var i2 := LinkUp([], 0);
    var s1 := Step(s0, i0);
    var s2 := Step(s1, i1);
    s := Step(s2, i2);
    RunFrom(s2, i2, []);
    RunFrom(s1, i1, [i2]);
    RunFrom(s0, i0, [i1, i2]);
    assert ValidRun(s0, [i0, i1, i2]) && After(s0, [i0, i1, i2]) == s;
  }

  lemma RunFrom(s: State, i: Input, rest: seq<Input>)
    requires Enabled(s, i) && ValidRun(Step(s, i), rest)
    ensures ValidRun(s, [i] + rest) && After(s, [i] + rest) == After(Step(s, i), rest)
  {
    assert ([i] + rest)[1..] == rest;
  }

  // ── Shape ───────────────────────────────────────────────────────────

  /** The writer exists exactly while connected, the pending queue is bounded
      and empty unless the link is being brought up, and what is published is
      what the link is doing, with the promised delay before a retry. */
  lemma StateIsWhatItShows(s: State)
    requires Reachable(s)
    ensures s.writer.Some? <==> s.link.Connected?
    ensures |s.pending| <= 32 && (|s.pending| > 0 ==> s.link.Connecting? || s.link.Backoff?)
    ensures s.waiting.Some? ==> s.link.Connecting? || s.link.Backoff?
    ensures s.shown.ShowIdle? <==> s.link.Idle?
    ensures s.shown.ShowConnected? <==> s.link.Connected?
    ensures s.shown.ShowConnecting? <==> s.link.Connecting? && s.waiting.None?
    ensures s.shown.ShowBackoff? <==> s.link.Backoff? && s.waiting.None?
    ensures s.shown.ShowUnpaired? <==> s.waiting == Some(Unpaired)
    ensures s.shown.ShowWaitingForDevice? <==> s.waiting == Some(Device)
    ensures s.shown.ShowBackoff? ==>
              s.shown.attempt >= 1 && s.shown.retryIn == PromisedDelay(s.shown.attempt)
    ensures s.link.Connecting? || s.link.Connected? ==> s.link.via == s.connector
  {
    ReachableInv(s);
    ShapeSays(s);
  }

  lemma ShapeSays(s: State)
    requires Shape(s)
    ensures s.shown.ShowIdle? <==> s.link.Idle?
    ensures s.shown.ShowConnected? <==> s.link.Connected?
    ensures s.shown.ShowConnecting? <==> s.link.Connecting? && s.waiting.None?
    ensures s.shown.ShowBackoff? <==> s.link.Backoff? && s.waiting.None?
    ensures s.shown.ShowUnpaired? <==> s.waiting == Some(Unpaired)
    ensures s.shown.ShowWaitingForDevice? <==> s.waiting == Some(Device)
    ensures s.shown.ShowBackoff? ==> s.shown.attempt >= 1 && s.shown.retryIn == PromisedDelay(s.shown.attempt)
  {
  }
}

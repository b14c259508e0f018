/** What a reload's commands do to a bridge's link, checked against the bridge's
    own event loop: the reload model knows of a link only whether it is up. */
module ReloadLink {
  import opened Common
  import opened BridgeState
  import opened Reconcile
  import opened Reload

  /** A bridge's loop as the daemon sees it. */
  ghost predicate Shows(s: State, rb: RunningBridge) {
    && s.running && (s.link.Connected? <==> rb.linkUp) && s.settings == rb.settings && s.held == rb.held
    && (|s.sessions| == 0 <==> |rb.sessions| == 0)
  }

  /** New settings: the loop ends up with the link up or not as the model says. */
  lemma SettingsAgree(s: State, rb: RunningBridge, new_: Settings)
    requires Shows(s, rb)
    ensures Shows(OnCmd(s, NewSettings(new_)), WithTncSettings(rb, new_))
  {
  }

  /** A session leaving closes the link exactly when it is the last, the link
      isn't wanted without it, and there is no timeout. */
  lemma LeavingAgrees(s: State, rb: RunningBridge, id: SessionId, left: seq<SessionView>)
    requires Shows(s, rb) && id in s.sessions && (|s.sessions - {id}| == 0 <==> |left| == 0)
    ensures OnApp(s, SessionClosed(id)).link.Connected? <==> rb.linkUp && !LastLeaves(rb, left)
  {
    assert |s.sessions| > 0 by { assert id in s.sessions.Keys; }
  }

  /** A new connector drops the link, whatever else it starts. */
  lemma ConnectorAgrees(s: State, rb: RunningBridge, connector: nat)
    requires Shows(s, rb)
    ensures !OnCmd(s, NewConnector(connector)).link.Connected?
  {
  }
}

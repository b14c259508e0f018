/** Which frames of an app's go on to the TNC it shares with others
    (src/bridge/policy.rs). */
module Policy {
  import opened Common

  const CMD_DATA: byte := 0x00
  const CMD_TXDELAY: byte := 0x01
  const CMD_PERSISTENCE: byte := 0x02
  const CMD_SLOTTIME: byte := 0x03
  const CMD_TXTAIL: byte := 0x04
  const CMD_FULLDUPLEX: byte := 0x05
  const CMD_SETHARDWARE: byte := 0x06
  const CMD_RETURN: byte := 0xFF

  datatype AppParams = PassParams | DropParams

  datatype Why = EmptyFrame | KissReturn | ParameterCommand | UnknownCommand

  datatype Verdict = Pass | Drop(why: Why)

  function FilterAppFrame(raw: Frame, appParams: AppParams): Verdict {
    if |raw| == 0 then Drop(EmptyFrame)
    else if raw[0] == CMD_RETURN then Drop(KissReturn)
    else
      var cmd := raw[0] % 16;
      if cmd == CMD_DATA then Pass
      else if
        || cmd == CMD_TXDELAY || cmd == CMD_PERSISTENCE || cmd == CMD_SLOTTIME
        || cmd == CMD_TXTAIL || cmd == CMD_FULLDUPLEX || cmd == CMD_SETHARDWARE
      then
        match appParams
        case PassParams => Pass
        case DropParams => Drop(ParameterCommand)
      else Drop(UnknownCommand)
  }

  /** A frame a shared TNC may see whatever the parameter setting was when it
      was taken: not empty, not KISS return, and a command KISS defines. */
  predicate Harmless(f: Frame) {
    |f| > 0 && f[0] != CMD_RETURN && f[0] % 16 <= CMD_SETHARDWARE
  }

  /** The filter passes exactly the harmless frames, less the parameter
      commands when those are dropped. */
  lemma FilterExact(raw: Frame, appParams: AppParams)
    ensures FilterAppFrame(raw, appParams).Pass? <==>
            Harmless(raw) && (appParams == DropParams ==> raw[0] % 16 == CMD_DATA)
  {
  }
}

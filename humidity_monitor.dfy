/**
 * The humidity monitor (HumidityMonitor.java) and the state it inherits from
 * Monitor.java.  Dafny has no class inheritance here, so the monitor class
 * carries Monitor's fields itself: the final limits and credentials become
 * `const` fields, `lastAlertDate` stays mutable, and the Telegram channel is
 * an outbox of messages.
 */
module Humidity {
  import opened Wrappers
  import opened MonitorBase

  /** Hours that must pass between two openings of the alert gate. */
  const COOLDOWN_HOURS: int := 2

  /** The mutable part of a monitor: the last alert instant and what has been sent. */
  datatype MonitorState = MonitorState(lastAlertDate: Option<Time>, outbox: seq<Msg>)

  /** What one call of update leaves behind; ok is false when sendMessage threw. */
  datatype StepResult = StepResult(state: MonitorState, ok: bool)

  /**
   * The cooldown gate: open when no alert was ever recorded, or when the
   * elapsed-hours helper reports at least two hours since the last one.
   */
  predicate GateOpen(last: Option<Time>, now: Time, elapsed: (Time, Time) -> int) {
    last.None? || elapsed(last.value, now) >= COOLDOWN_HOURS
  }

  /**
   * update(temp, humi, tens) on the monitor's state, with one clock reading
   * `now`.  Once the gate opens `lastAlertDate` becomes `now` whether or not
   * a message follows; then at most one message is sent, "below" taking
   * precedence over "above".
   */
  function HumidityStep(cfg: MonitorConfig, st: MonitorState, humi: real, now: Time,
                        elapsed: (Time, Time) -> int): (r: StepResult)
    // a closed gate changes nothing and cannot fail
    ensures !GateOpen(st.lastAlertDate, now, elapsed) ==> r == StepResult(st, true)
    // an open gate always restarts the cooldown
    ensures GateOpen(st.lastAlertDate, now, elapsed) ==> r.state.lastAlertDate == Some(now)
    // the outbox only grows, by at most one message
    ensures |st.outbox| <= |r.state.outbox| <= |st.outbox| + 1
    ensures r.state.outbox[..|st.outbox|] == st.outbox
    // a message is sent exactly when the gate is open, the reading is out of
    // bounds and the chat ID is a 32-bit integer
    ensures |r.state.outbox| == |st.outbox| + 1 <==>
              GateOpen(st.lastAlertDate, now, elapsed) && (humi < cfg.minLimit || humi > cfg.maxLimit)
              && ParseInt(cfg.chatID).Some?
    ensures |r.state.outbox| == |st.outbox| + 1 ==>
              r.state.outbox[|st.outbox|] ==
                Msg(ParseInt(cfg.chatID).value, cfg.botToken,
                    if humi < cfg.minLimit then Below(humi) else Above(humi))
    // the call fails exactly when it tries to send to a malformed chat ID
    ensures !r.ok <==>
              GateOpen(st.lastAlertDate, now, elapsed) && (humi < cfg.minLimit || humi > cfg.maxLimit)
              && ParseInt(cfg.chatID).None?
  {
    if !GateOpen(st.lastAlertDate, now, elapsed) then StepResult(st, true)
    else
      var reset := st.(lastAlertDate := Some(now));
      if humi < cfg.minLimit then Dispatch(cfg, reset, Below(humi))
      else if humi > cfg.maxLimit then Dispatch(cfg, reset, Above(humi))
      else StepResult(reset, true)
  }

  /** sendMessage from within update: the state keeps its outbox when sending fails. */
  function Dispatch(cfg: MonitorConfig, st: MonitorState, text: Text): StepResult {
    match Send(cfg, st.outbox, text)
    case None => StepResult(st, false)
    case Some(outbox) => StepResult(st.(outbox := outbox), true)
  }

  /**
   * The cooldown seen across three readings: humidity 20 against limits
   * 30..70 alerts; 15 an hour later is suppressed; 15 two hours after the
   * first alert alerts again.
   */
  lemma CooldownScenario(cfg: MonitorConfig, t0: Time, t1: Time, t2: Time,
                         elapsed: (Time, Time) -> int)
    requires cfg.minLimit == 30.0 && cfg.maxLimit == 70.0 && ParseInt(cfg.chatID).Some?
    requires elapsed(t0, t1) == 1 && elapsed(t0, t2) == 2
    ensures var s1 := HumidityStep(cfg, MonitorState(None, []), 20.0, t0, elapsed).state;
            var s2 := HumidityStep(cfg, s1, 15.0, t1, elapsed).state;
            var s3 := HumidityStep(cfg, s2, 15.0, t2, elapsed).state;
            s1.outbox == [Msg(ParseInt(cfg.chatID).value, cfg.botToken, Below(20.0))] && s1.lastAlertDate == Some(t0)
            && s2 == s1
            && s3.outbox == s1.outbox + [Msg(ParseInt(cfg.chatID).value, cfg.botToken, Below(15.0))]
            && s3.lastAlertDate == Some(t2)
  {
    var s1 := HumidityStep(cfg, MonitorState(None, []), 20.0, t0, elapsed).state;
    assert s1.outbox[..0] == [];
    var s3 := HumidityStep(cfg, s1, 15.0, t2, elapsed).state;
    assert s3.outbox[..1] == s1.outbox;
  }

  /**
   * Because the gate restarts the cooldown even when nothing is sent, a
   * reading within the limits suppresses an out-of-limits reading that
   * follows within two hours.
   */
  lemma QuietReadingRestartsCooldown(cfg: MonitorConfig, st: MonitorState, t0: Time, t1: Time,
                                     quiet: real, low: real, elapsed: (Time, Time) -> int)
    requires GateOpen(st.lastAlertDate, t0, elapsed)
    requires cfg.minLimit <= quiet <= cfg.maxLimit && low < cfg.minLimit
    requires elapsed(t0, t1) < COOLDOWN_HOURS
    ensures var s1 := HumidityStep(cfg, st, quiet, t0, elapsed).state;
            s1.outbox == st.outbox && s1.lastAlertDate == Some(t0)
            && HumidityStep(cfg, s1, low, t1, elapsed) == StepResult(s1, true)
  {
  }

  class HumidityMonitor {
    const minLimit: real
    const maxLimit: real
    const botToken: string
    const chatID: string
    var lastAlertDate: Option<Time>
    /** The messages this monitor has handed to Telegram, oldest first. */
    var outbox: seq<Msg>

    /** The final fields, which no method can change. */
    function Cfg(): MonitorConfig {
      MonitorConfig(minLimit, maxLimit, botToken, chatID)
    }

    function State(): MonitorState
      reads this
    {
      MonitorState(lastAlertDate, outbox)
    }

    /** Monitor's constructor: limits and credentials as given, no alert yet. */
    constructor (minLimit: real, maxLimit: real, botToken: string, chatID: string)
      ensures Cfg() == MonitorConfig(minLimit, maxLimit, botToken, chatID)
      ensures lastAlertDate == None && outbox == []
    {
      this.minLimit := minLimit;
      this.maxLimit := maxLimit;
      this.botToken := botToken;
      this.chatID := chatID;
      lastAlertDate := None;
      outbox := [];
    }

    /** Monitor.sendMessage: parse the chat ID, then append one message; never touches lastAlertDate. */
    method SendMessage(text: Text) returns (ok: bool)
      modifies this`outbox
      ensures ok == Send(Cfg(), old(outbox), text).Some?
      ensures outbox == if ok then Send(Cfg(), old(outbox), text).value else old(outbox)
    {
      var recipient := ParseInt(chatID);
      if recipient.None? {
        return false;
      }
      outbox := outbox + [Msg(recipient.value, botToken, text)];
      ok := true;
    }

    /** HumidityMonitor.update: the temperature and tension arguments play no part. */
    method Update(temp: real, humi: real, tens: real, now: Time, elapsed: (Time, Time) -> int)
      returns (ok: bool)
      modifies this
      ensures StepResult(State(), ok) == HumidityStep(Cfg(), old(State()), humi, now, elapsed)
    {
      var updateDate := now;
      ok := true;
      if lastAlertDate == None || elapsed(lastAlertDate.value, updateDate) >= COOLDOWN_HOURS {
        lastAlertDate := Some(now);
        if humi < minLimit {
          ok := SendMessage(Below(humi));
        } else if humi > maxLimit {
          ok := SendMessage(Above(humi));
        }
      }
    }
  }
}

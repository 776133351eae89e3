/**
 * The reading source and observer registry (THTMonitorBot.java): the last
 * temperature, humidity and tension, the ordered list of observers, the
 * parse of the stats page and the notification of every observer.
 */
module MonitorBot {
  import opened Wrappers
  import opened MonitorBase
  import opened StatsLine
  import opened Humidity

  /** One snapshot of the three quantities. */
  datatype Reading = Reading(temperature: real, humidity: real, tension: real)

  /** The exceptions setStats lets escape. */
  datatype Failure =
    | NullLine                   // the page has fewer than two lines: the matcher gets null
    | IndexOutOfBounds(index: nat) // split produced no token at this index
    | NumberFormat(index: nat)     // Float.parseFloat rejected the token at this index
    | ChatIdFormat                // an observer's sendMessage could not parse its chat ID

  datatype Outcome = Notified | NoMatch | Failed(failure: Failure)

  /** Field k of a reading, in the order the page lists them. */
  function Field(r: Reading, k: nat): real
    requires k < 3
  {
    if k == 0 then r.temperature else if k == 1 then r.humidity else r.tension
  }

  /** Float.parseFloat (the parameter parse) on token k; None when the token is missing or rejected. */
  function Token(tokens: seq<string>, parse: string -> Option<real>, k: nat): Option<real> {
    if k < |tokens| then parse(tokens[k]) else None
  }

  /** Token k exists and parses. */
  predicate TokenOk(tokens: seq<string>, parse: string -> Option<real>, k: nat) {
    Token(tokens, parse, k).Some?
  }

  /** The fields as setStats leaves them, and the exception that stopped it, if any. */
  datatype Assigned = Assigned(reading: Reading, error: Option<Failure>)

  function TokenError(tokens: seq<string>, k: nat): Failure {
    if k < |tokens| then NumberFormat(k) else IndexOutOfBounds(k)
  }

  /**
   * The three assignments of setStats, one after another: temperature,
   * humidity, tension take tokens 0, 1 and 2; the first missing or
   * unparsable token stops the sequence with the earlier fields already
   * overwritten.  Tokens past the third are never looked at.
   */
  function ApplyTokens(r: Reading, tokens: seq<string>, parse: string -> Option<real>): (a: Assigned)
    ensures a.error.None? <==> TokenOk(tokens, parse, 0) && TokenOk(tokens, parse, 1) && TokenOk(tokens, parse, 2)
    ensures a.error.None? ==>
              a.reading == Reading(parse(tokens[0]).value, parse(tokens[1]).value, parse(tokens[2]).value)
    ensures a.error.Some? ==>
              var e := a.error.value;
              (e.IndexOutOfBounds? || e.NumberFormat?) && e.index < 3
              && (e.IndexOutOfBounds? <==> e.index >= |tokens|)
              && !TokenOk(tokens, parse, e.index)
              && (forall j :: 0 <= j < e.index ==> TokenOk(tokens, parse, j))
              && (forall j :: 0 <= j < 3 ==>
                    Field(a.reading, j) == if j < e.index then parse(tokens[j]).value else Field(r, j))
  {
    match Token(tokens, parse, 0)
    case None => Assigned(r, Some(TokenError(tokens, 0)))
    case Some(t) =>
      var r1 := r.(temperature := t);
      match Token(tokens, parse, 1)
      case None => Assigned(r1, Some(TokenError(tokens, 1)))
      case Some(h) =>
        var r2 := r1.(humidity := h);
        match Token(tokens, parse, 2)
        case None => Assigned(r2, Some(TokenError(tokens, 2)))
        case Some(v) => Assigned(r2.(tension := v), None)
  }

  /** Tokens after the third change nothing. */
  lemma ApplyTokensIgnoresExtra(r: Reading, tokens: seq<string>, extra: seq<string>, parse: string -> Option<real>)
    requires |tokens| >= 3
    ensures ApplyTokens(r, tokens + extra, parse) == ApplyTokens(r, tokens, parse)
  {
    assert forall k :: 0 <= k < 3 ==> (tokens + extra)[k] == tokens[k];
  }

  /**
   * A line in the TEMPERATURE:HUMIDITY:TENSION format of the class comment
   * (THTMonitorBot.java:37-38) gives the reading 22.5, 85.0, 220.0 when each
   * token parses to its value.
   */
  lemma PageExample(g: string, r: Reading, parse: string -> Option<real>)
    requires g == "22.5:85.0:220.0"
    requires parse("22.5") == Some(22.5) && parse("85.0") == Some(85.0) && parse("220.0") == Some(220.0)
    ensures ParseLine(OPEN + g + CLOSE).Some?
    ensures ApplyTokens(r, ParseLine(OPEN + g + CLOSE).value, parse) == Assigned(Reading(22.5, 85.0, 220.0), None)
  {
    PageLineExample(g);
  }

  /** How far setStats gets on a page before notifying: the fields, and the outcome if it stops early. */
  datatype Stage = Stage(reading: Reading, stop: Option<Outcome>)

  /**
   * The page part of setStats: fewer than two lines is a null line;
   * no match leaves everything alone and stops quietly; a match overwrites
   * the fields from its tokens, stopping at the first bad one.
   */
  function ReadPage(r: Reading, lines: seq<string>, parse: string -> Option<real>): (p: Stage)
    ensures |lines| < 2 ==> p == Stage(r, Some(Failed(NullLine)))
    ensures |lines| >= 2 && ParseLine(lines[1]).None? ==> p == Stage(r, Some(NoMatch))
    ensures |lines| >= 2 && ParseLine(lines[1]).Some? ==>
              var a := ApplyTokens(r, ParseLine(lines[1]).value, parse);
              p.reading == a.reading && (p.stop.None? <==> a.error.None?)
              && (a.error.Some? ==> p.stop == Some(Failed(a.error.value)))
  {
    if |lines| < 2 then Stage(r, Some(Failed(NullLine)))
    else match ParseLine(lines[1])
      case None => Stage(r, Some(NoMatch))
      case Some(tokens) =>
        var a := ApplyTokens(r, tokens, parse);
        Stage(a.reading, if a.error.Some? then Some(Failed(a.error.value)) else None)
  }

  /** setStats never looks at the first line of the page. */
  lemma ReadPageSkipsFirstLine(r: Reading, lines: seq<string>, first: string, parse: string -> Option<real>)
    requires |lines| >= 1
    ensures ReadPage(r, [first] + lines[1..], parse) == ReadPage(r, lines, parse)
  {
    assert |lines| >= 2 ==> ([first] + lines[1..])[1] == lines[1];
  }

  // ---- the observer list (an ArrayList compared by identity) ----

  /** The position of the first occurrence of x. */
  function FirstIndex<T(==)>(s: seq<T>, x: T): (k: nat)
    requires x in s
    ensures k < |s| && s[k] == x
    ensures forall j :: 0 <= j < k ==> s[j] != x
  {
    if s[0] == x then 0 else 1 + FirstIndex(s[1..], x)
  }

  /** ArrayList.remove(Object) on the observer list, searching from the front. */
  function RemoveFirst<T(==)>(s: seq<T>, x: T): seq<T> {
    if s == [] then []
    else if s[0] == x then s[1..]
    else [s[0]] + RemoveFirst(s[1..], x)
  }

  /**
   * ArrayList.remove(Object): drops the first occurrence of x and keeps the
   * order of the rest; a list without x comes back unchanged.
   */
  lemma {:induction false} RemoveFirstSpec<T>(s: seq<T>, x: T)
    ensures x !in s ==> RemoveFirst(s, x) == s
    ensures x in s ==> RemoveFirst(s, x) == s[..FirstIndex(s, x)] + s[FirstIndex(s, x) + 1..]
  {
    if x in s {
      RemoveFirstAt(s, x, FirstIndex(s, x));
    } else {
      RemoveFirstAbsent(s, x);
    }
  }

  /** A list without x is left as it is. */
  lemma {:induction false} RemoveFirstAbsent<T>(s: seq<T>, x: T)
    requires x !in s
    ensures RemoveFirst(s, x) == s
  {
    if s != [] {
      assert x !in s[1..];
      RemoveFirstAbsent(s[1..], x);
      assert s == [s[0]] + s[1..];
    }
  }

  /** Removing x at its first position k keeps everything before and after k. */
  lemma {:induction false} RemoveFirstAt<T>(s: seq<T>, x: T, k: nat)
    requires k < |s| && s[k] == x
    requires forall j :: 0 <= j < k ==> s[j] != x
    ensures RemoveFirst(s, x) == s[..k] + s[k + 1..]
  {
    if k == 0 {
      assert s[..0] + s[1..] == s[1..];
    } else {
      var t := s[1..];
      assert forall j :: 0 <= j < k - 1 ==> t[j] != x by {
        forall j | 0 <= j < k - 1 ensures t[j] != x {
          assert t[j] == s[j + 1];
        }
      }
      RemoveFirstAt(t, x, k - 1);
      assert s[0] != x;
      assert [s[0]] + (t[..k - 1] + t[k..]) == s[..k] + s[k + 1..] by {
        assert [s[0]] + t[..k - 1] == s[..k];
        assert t[k..] == s[k + 1..];
      }
    }
  }

  /** Exactly one copy of x leaves the list, when there is one. */
  lemma {:induction false} RemoveFirstMultiset<T>(s: seq<T>, x: T)
    ensures multiset(RemoveFirst(s, x)) == multiset(s) - multiset{x}
  {
    if s != [] {
      assert s == [s[0]] + s[1..];
      if s[0] != x {
        RemoveFirstMultiset(s[1..], x);
      }
    }
  }

  /** Adding then removing an observer gives back the list when it was not registered before. */
  lemma RemoveAfterAdd<T>(s: seq<T>, x: T)
    requires x !in s
    ensures RemoveFirst(s + [x], x) == s
  {
    RemoveFirstSpec(s + [x], x);
    assert x in s + [x];
    assert FirstIndex(s + [x], x) == |s|;
    assert (s + [x])[..|s|] == s;
  }

  // ---- notification ----

  /** What notifying a list of observers leaves behind. */
  datatype Notification = Notification(states: map<HumidityMonitor, MonitorState>, delivered: nat, failed: bool)

  /**
   * notifyObservers over the monitors' states: each observer in list order
   * gets update(reading) once, on the state earlier calls left it in (the same
   * monitor may be listed twice); an exception from one call stops the loop.
   */
  function Notify(m: map<HumidityMonitor, MonitorState>, obs: seq<HumidityMonitor>, r: Reading,
                  now: Time, elapsed: (Time, Time) -> int): (n: Notification)
    requires forall o :: o in obs ==> o in m
    ensures n.states.Keys == m.Keys
    ensures n.delivered <= |obs|
    ensures !n.failed ==> n.delivered == |obs|
    ensures n.failed ==> 1 <= n.delivered
    decreases |obs|
  {
    if obs == [] then Notification(m, 0, false)
    else
      var o := obs[0];
      var step := HumidityStep(o.Cfg(), m[o], r.humidity, now, elapsed);
      var m' := m[o := step.state];
      if !step.ok then Notification(m', 1, true)
      else
        var rest := Notify(m', obs[1..], r, now, elapsed);
        Notification(rest.states, 1 + rest.delivered, rest.failed)
  }

  /**
   * Notification is sequential: notifying a + b is notifying a, then, unless
   * that failed, notifying b from the states a left.
   */
  lemma {:induction false} NotifyAppend(m: map<HumidityMonitor, MonitorState>, a: seq<HumidityMonitor>,
                                        b: seq<HumidityMonitor>, r: Reading, now: Time, elapsed: (Time, Time) -> int)
    requires forall o :: o in a + b ==> o in m
    ensures forall o :: o in a ==> o in m
    ensures var na := Notify(m, a, r, now, elapsed);
            (forall o :: o in b ==> o in na.states)
            && Notify(m, a + b, r, now, elapsed) ==
                 if na.failed then na
                 else var nb := Notify(na.states, b, r, now, elapsed);
                      Notification(nb.states, na.delivered + nb.delivered, nb.failed)
    decreases |a|
  {
    assert forall o :: o in a ==> o in a + b;
    if a == [] {
      assert a + b == b;
    } else {
      var o := a[0];
      var step := HumidityStep(o.Cfg(), m[o], r.humidity, now, elapsed);
      var m' := m[o := step.state];
      assert (a + b)[0] == o && (a + b)[1..] == a[1..] + b;
      if step.ok {
        NotifyAppend(m', a[1..], b, r, now, elapsed);
      }
    }
  }

  /** Notifying one more observer after a run without exceptions. */
  lemma NotifySnoc(m: map<HumidityMonitor, MonitorState>, a: seq<HumidityMonitor>, o: HumidityMonitor,
                   r: Reading, now: Time, elapsed: (Time, Time) -> int)
    requires forall x :: x in a ==> x in m
    requires o in m && !Notify(m, a, r, now, elapsed).failed
    ensures forall x :: x in a + [o] ==> x in m
    ensures var na := Notify(m, a, r, now, elapsed);
            var step := HumidityStep(o.Cfg(), na.states[o], r.humidity, now, elapsed);
            Notify(m, a + [o], r, now, elapsed).states == na.states[o := step.state]
            && Notify(m, a + [o], r, now, elapsed).failed == !step.ok
  {
    NotifyAppend(m, a, [o], r, now, elapsed);
  }

  /** Once a prefix of the list has failed, the rest of the list is never notified. */
  lemma NotifyStops(m: map<HumidityMonitor, MonitorState>, obs: seq<HumidityMonitor>, k: nat,
                    r: Reading, now: Time, elapsed: (Time, Time) -> int)
    requires k <= |obs| && forall x :: x in obs ==> x in m
    ensures forall x :: x in obs[..k] ==> x in m
    ensures Notify(m, obs[..k], r, now, elapsed).failed ==>
              Notify(m, obs, r, now, elapsed) == Notify(m, obs[..k], r, now, elapsed)
  {
    assert obs == obs[..k] + obs[k..];
    NotifyAppend(m, obs[..k], obs[k..], r, now, elapsed);
  }

  /** An observer not in the list keeps its state. */
  lemma {:induction false} NotifyLeavesOthers(m: map<HumidityMonitor, MonitorState>, obs: seq<HumidityMonitor>,
                                              r: Reading, now: Time, elapsed: (Time, Time) -> int, x: HumidityMonitor)
    requires forall o :: o in obs ==> o in m
    requires x in m && x !in obs
    ensures Notify(m, obs, r, now, elapsed).states[x] == m[x]
    decreases |obs|
  {
    if obs != [] {
      var o := obs[0];
      var step := HumidityStep(o.Cfg(), m[o], r.humidity, now, elapsed);
      if step.ok {
        NotifyLeavesOthers(m[o := step.state], obs[1..], r, now, elapsed, x);
      }
    }
  }

  /**
   * With every observer listed once and no exception, each one ends in the
   * state a single update from its own prior state gives it.
   */
  lemma {:induction false} NotifyDistinct(m: map<HumidityMonitor, MonitorState>, obs: seq<HumidityMonitor>,
                                          r: Reading, now: Time, elapsed: (Time, Time) -> int)
    requires forall o :: o in obs ==> o in m
    requires forall i, j :: 0 <= i < j < |obs| ==> obs[i] != obs[j]
    requires !Notify(m, obs, r, now, elapsed).failed
    ensures forall k :: 0 <= k < |obs| ==>
              Notify(m, obs, r, now, elapsed).states[obs[k]]
                == HumidityStep(obs[k].Cfg(), m[obs[k]], r.humidity, now, elapsed).state
    decreases |obs|
  {
    if obs != [] {
      var o := obs[0];
      var step := HumidityStep(o.Cfg(), m[o], r.humidity, now, elapsed);
      var m' := m[o := step.state];
      var tail := obs[1..];
      assert forall i, j :: 0 <= i < j < |tail| ==> tail[i] != tail[j] by {
        forall i, j | 0 <= i < j < |tail| ensures tail[i] != tail[j] {
          assert tail[i] == obs[i + 1] && tail[j] == obs[j + 1];
        }
      }
      NotifyDistinct(m', tail, r, now, elapsed);
      assert o !in tail by {
        forall j | 0 <= j < |tail| ensures tail[j] != o {
          assert tail[j] == obs[j + 1];
        }
      }
      NotifyLeavesOthers(m', tail, r, now, elapsed, o);
      forall k | 0 <= k < |obs|
        ensures Notify(m, obs, r, now, elapsed).states[obs[k]]
                  == HumidityStep(obs[k].Cfg(), m[obs[k]], r.humidity, now, elapsed).state
      {
        if k > 0 {
          assert obs[k] == tail[k - 1];
          assert obs[k] != o;
        }
      }
    }
  }

  /** The observable state of every listed monitor. */
  ghost function Snapshot(obs: seq<HumidityMonitor>): (m: map<HumidityMonitor, MonitorState>)
    reads set o | o in obs
    ensures m.Keys == set o | o in obs
  {
    map o | o in obs :: o.State()
  }

  /** A map over exactly the listed monitors that agrees with each one's state is their snapshot. */
  lemma SnapshotOf(obs: seq<HumidityMonitor>, m: map<HumidityMonitor, MonitorState>)
    requires m.Keys == set o | o in obs
    requires forall o :: o in obs ==> o.State() == m[o]
    ensures Snapshot(obs) == m
  {
  }

  lemma TakeSnoc<T>(s: seq<T>, i: nat)
    requires i < |s|
    ensures s[..i + 1] == s[..i] + [s[i]]
  {
  }

  /** Monitors whose fields did not change give the same snapshot. */
  twostate lemma SnapshotUnchanged(obs: seq<HumidityMonitor>)
    requires unchanged(set o | o in obs)
    ensures Snapshot(obs) == old(Snapshot(obs))
  {
  }

  /**
   * One update call seen through the monitors' states: `ob` moves on by one
   * step and every other listed monitor keeps its state.
   */
  method UpdateListed(ob: HumidityMonitor, obs: seq<HumidityMonitor>, ghost states: map<HumidityMonitor, MonitorState>,
                      temp: real, humi: real, tens: real, now: Time, elapsed: (Time, Time) -> int)
    returns (sent: bool)
    requires ob in obs
    requires forall o :: o in obs ==> o in states && o.State() == states[o]
    modifies ob
    ensures var step := HumidityStep(ob.Cfg(), states[ob], humi, now, elapsed);
            sent == step.ok
            && forall o :: o in obs ==> o.State() == states[ob := step.state][o]
  {
    sent := ob.Update(temp, humi, tens, now, elapsed);
  }

  class THTMonitorBot {
    var temperature: real
    var humidity: real
    var tension: real
    /** The stats page address as given; fetching it is outside the model. */
    const url: string
    var observers: seq<HumidityMonitor>

    function Stats(): Reading
      reads this
    {
      Reading(temperature, humidity, tension)
    }

    /** All readings start at zero and no observer is registered. */
    constructor (monitorUrl: string)
      ensures Stats() == Reading(0.0, 0.0, 0.0)
      ensures observers == [] && url == monitorUrl
    {
      temperature := 0.0;
      tension := 0.0;
      humidity := 0.0;
      url := monitorUrl;
      observers := [];
    }

    /** addObserver: append at the end; duplicates are kept. */
    method AddObserver(o: HumidityMonitor)
      modifies this`observers
      ensures observers == old(observers) + [o]
    {
      observers := observers + [o];
    }

    /** deleteObserver: remove the first occurrence, silently nothing if absent. */
    method DeleteObserver(o: HumidityMonitor)
      modifies this`observers
      ensures observers == RemoveFirst(old(observers), o)
    {
      observers := RemoveFirst(observers, o);
    }

    /**
     * notifyObservers: update on each observer in list order with the current
     * reading; the first exception from an observer ends the loop.
     */
    method NotifyObservers(now: Time, elapsed: (Time, Time) -> int) returns (ok: bool)
      modifies set o | o in observers
      ensures var n := Notify(old(Snapshot(observers)), observers, Stats(), now, elapsed);
              Snapshot(observers) == n.states && ok == !n.failed
    {
      var obs := observers;
      ghost var r := Stats();
      ghost var m0 := Snapshot(obs);
      ghost var states := m0;
      var i := 0;
      while i < |obs|
        invariant 0 <= i <= |obs|
        invariant forall o :: o in obs[..i] ==> o in m0
        invariant states == Notify(m0, obs[..i], r, now, elapsed).states
        invariant !Notify(m0, obs[..i], r, now, elapsed).failed
        invariant forall o :: o in obs ==> o in states && o.State() == states[o]
      {
        var ob := obs[i];
        TakeSnoc(obs, i);
        NotifySnoc(m0, obs[..i], ob, r, now, elapsed);
        var sent := UpdateListed(ob, obs, states, temperature, humidity, tension, now, elapsed);
        states := states[ob := HumidityStep(ob.Cfg(), states[ob], humidity, now, elapsed).state];
        if !sent {
          NotifyStops(m0, obs, i + 1, r, now, elapsed);
          SnapshotOf(obs, states);
          return false;
        }
        i := i + 1;
      }
      SnapshotOf(obs, states);
      assert obs[..i] == obs;
      ok := true;
    }

    /**
     * setStats on a fetched page: line 1 is skipped, line 2 searched for the
     * pattern; on a match the fields are overwritten one by one from the
     * tokens and then every observer is notified.
     */
    method SetStats(lines: seq<string>, parse: string -> Option<real>, now: Time,
                    elapsed: (Time, Time) -> int) returns (outcome: Outcome)
      modifies this`temperature, this`humidity, this`tension, set o | o in observers
      ensures Stats() == ReadPage(old(Stats()), lines, parse).reading
      ensures ReadPage(old(Stats()), lines, parse).stop.Some? ==>
                outcome == ReadPage(old(Stats()), lines, parse).stop.value
                && unchanged(set o | o in observers)
      ensures ReadPage(old(Stats()), lines, parse).stop.None? ==>
                var n := Notify(old(Snapshot(observers)), observers, Stats(), now, elapsed);
                Snapshot(observers) == n.states
                && outcome == if n.failed then Failed(ChatIdFormat) else Notified
    {
      if |lines| < 2 {
        return Failed(NullLine);
      }
      var found := ParseLine(lines[1]);
      if found.None? {
        return NoMatch;
      }
      var stats := found.value;
      ghost var expected := ReadPage(Stats(), lines, parse);
      if |stats| < 1 {
        return Failed(IndexOutOfBounds(0));
      }
      var t := parse(stats[0]);
      if t.None? {
        return Failed(NumberFormat(0));
      }
      temperature := t.value;
      if |stats| < 2 {
        return Failed(IndexOutOfBounds(1));
      }
      var h := parse(stats[1]);
      if h.None? {
        return Failed(NumberFormat(1));
      }
      humidity := h.value;
      if |stats| < 3 {
        return Failed(IndexOutOfBounds(2));
      }
      var v := parse(stats[2]);
      if v.None? {
        return Failed(NumberFormat(2));
      }
      tension := v.value;
      assert Stats() == expected.reading;
      SnapshotUnchanged(observers);
      var ok := NotifyObservers(now, elapsed);
      outcome := if ok then Notified else Failed(ChatIdFormat);
    }
  }
}

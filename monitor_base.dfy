/**
 * The base state every monitor shares (Monitor.java): immutable limits and
 * Telegram credentials, and the one side effect a monitor has, sending a
 * message.  Telegram itself is replaced by an outbox: sending appends one
 * message to it.
 */
module MonitorBase {
  import opened Wrappers

  /** An instant, as the milliseconds a java.util.Date holds. */
  type Time = int

  /** The two alert texts a humidity monitor composes, carrying the reading. */
  datatype Text = Below(humidity: real) | Above(humidity: real)

  /** One message handed to Telegram: the chat it goes to, the bot token in force, the text. */
  datatype Msg = Msg(recipient: int, botToken: string, text: Text)

  /** The final fields of a monitor, fixed at construction. */
  datatype MonitorConfig = MonitorConfig(minLimit: real, maxLimit: real, botToken: string, chatID: string)

  const MIN_INT: int := -0x8000_0000
  const MAX_INT: int := 0x7FFF_FFFF

  predicate IsDigit(c: char) {
    '0' <= c <= '9'
  }

  predicate AllDigits(s: string) {
    forall k :: 0 <= k < |s| ==> IsDigit(s[k])
  }

  /** The value of a string of decimal digits, most significant first. */
  function DigitsValue(s: string): nat
    requires AllDigits(s)
  {
    if |s| == 0 then 0 else DigitsValue(s[..|s| - 1]) * 10 + (s[|s| - 1] as int - '0' as int)
  }

  /**
   * Integer.parseInt(s) in radix 10: an optional '+' or '-', then at least one
   * digit, and a value that fits in 32 bits; None where Java throws
   * NumberFormatException.
   */
  function ParseInt(s: string): (r: Option<int>)
    ensures r.Some? ==> MIN_INT <= r.value <= MAX_INT
  {
    if |s| == 0 then None
    else
      var signed := s[0] == '-' || s[0] == '+';
      var digits := if signed then s[1..] else s;
      if |digits| == 0 || !AllDigits(digits) then None
      else
        var magnitude: int := DigitsValue(digits);
        var v := if s[0] == '-' then -magnitude else magnitude;
        if MIN_INT <= v <= MAX_INT then Some(v) else None
  }

  /** Decimal rendering of a natural number, the inverse ParseInt is checked against. */
  function ShowNat(n: nat): (s: string)
    decreases n
  {
    if n < 10 then [('0' as int + n) as char]
    else ShowNat(n / 10) + [('0' as int + n % 10) as char]
  }

  function ShowInt(n: int): string {
    if n < 0 then "-" + ShowNat(-n) else ShowNat(n)
  }

  lemma {:induction false} ShowNatDigits(n: nat)
    ensures |ShowNat(n)| > 0 && AllDigits(ShowNat(n)) && DigitsValue(ShowNat(n)) == n
    decreases n
  {
    if n >= 10 {
      ShowNatDigits(n / 10);
      var s := ShowNat(n);
      assert s[..|s| - 1] == ShowNat(n / 10);
    }
  }

  /** Every 32-bit chat ID written in decimal parses back to itself. */
  lemma ParseIntShowInt(n: int)
    requires MIN_INT <= n <= MAX_INT
    ensures ParseInt(ShowInt(n)) == Some(n)
  {
    var s := ShowInt(n);
    if n < 0 {
      ShowNatDigits(-n);
      assert s[0] == '-' && s[1..] == ShowNat(-n);
      assert DigitsValue(s[1..]) == -n;
    } else {
      ShowNatDigits(n);
      assert IsDigit(s[0]);
    }
  }

  /**
   * A run of digits after an optional '+' or '-' is accepted with its value,
   * leading zeros included, exactly when that value fits in 32 bits.
   */
  lemma ParseIntDecimal(sign: string, d: string)
    requires sign == "" || sign == "+" || sign == "-"
    requires |d| > 0 && AllDigits(d)
    ensures var v: int := if sign == "-" then -(DigitsValue(d) as int) else DigitsValue(d) as int;
            ParseInt(sign + d) == if MIN_INT <= v <= MAX_INT then Some(v) else None
  {
    if sign != "" {
      assert (sign + d)[1..] == d;
    } else {
      assert sign + d == d;
    }
  }

  /** A decimal chat ID outside the 32-bit range is refused, as Java's overflow check does. */
  lemma ParseIntRejectsOutOfRange(n: int)
    requires n < MIN_INT || MAX_INT < n
    ensures ParseInt(ShowInt(n)) == None
  {
    var s := ShowInt(n);
    if n < 0 {
      ShowNatDigits(-n);
      assert s[1..] == ShowNat(-n);
    } else {
      ShowNatDigits(n);
    }
  }

  /** A character that is neither a digit nor a leading sign makes the whole chat ID invalid. */
  lemma ParseIntRejectsNonDigit(s: string, k: nat)
    requires k < |s| && !IsDigit(s[k])
    requires k > 0 || (s[0] != '-' && s[0] != '+')
    ensures ParseInt(s) == None
  {
    if k > 0 && (s[0] == '-' || s[0] == '+') {
      assert s[1..][k - 1] == s[k];
    }
  }

  /** A sign alone, or nothing at all, is not a number. */
  lemma ParseIntNeedsDigits(s: string)
    requires s == [] || s == "-" || s == "+"
    ensures ParseInt(s) == None
  {
  }

  /**
   * sendMessage(text): the chat ID is parsed first; if it is not a 32-bit
   * integer nothing is sent (None, Java throws); otherwise exactly one
   * message with the text unchanged is appended to the outbox.
   */
  function Send(cfg: MonitorConfig, outbox: seq<Msg>, text: Text): (r: Option<seq<Msg>>)
    ensures r.Some? <==> ParseInt(cfg.chatID).Some?
    ensures r.Some? ==> |r.value| == |outbox| + 1 && r.value[..|outbox|] == outbox
    ensures r.Some? ==> r.value[|outbox|].text == text && r.value[|outbox|].botToken == cfg.botToken
    ensures r.Some? ==> r.value[|outbox|].recipient == ParseInt(cfg.chatID).value
  {
    match ParseInt(cfg.chatID)
    case None => None
    case Some(recipient) => Some(outbox + [Msg(recipient, cfg.botToken, text)])
  }

  /** A chat ID written as a 32-bit decimal is always accepted, and the message goes to that chat. */
  lemma SendToShownChat(cfg: MonitorConfig, outbox: seq<Msg>, text: Text, id: int)
    requires MIN_INT <= id <= MAX_INT && cfg.chatID == ShowInt(id)
    ensures Send(cfg, outbox, text) == Some(outbox + [Msg(id, cfg.botToken, text)])
  {
    ParseIntShowInt(id);
  }
}

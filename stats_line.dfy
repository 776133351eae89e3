/**
 * The text processing inside THTMonitorBot.setStats: the search for
 * `<html>(\S+)<br />` in the second line of the page (Matcher.find, leftmost
 * match, greedy group) and `String.split(":")`, which drops trailing empty
 * tokens.
 */
module StatsLine {
  import opened Wrappers

  const OPEN: string := "<html>"
  const CLOSE: string := "<br />"

  /** Java's \s: space, tab, newline, vertical tab, form feed, carriage return. */
  predicate IsWhitespace(c: char) {
    c == ' ' || c == '\t' || c == '\n' || c == '\U{B}' || c == '\U{C}' || c == '\r'
  }

  predicate NonSpace(s: string) {
    forall k :: 0 <= k < |s| ==> !IsWhitespace(s[k])
  }

  /** The word w occurs in s at index i. */
  predicate At(s: string, i: int, w: string) {
    0 <= i && i + |w| <= |s| && s[i..i + |w|] == w
  }

  /** The pattern matches s[i..j + |CLOSE|], with group s[i + |OPEN|..j]. */
  predicate Matches(s: string, i: int, j: int) {
    At(s, i, OPEN) && i + |OPEN| < j <= |s| && NonSpace(s[i + |OPEN|..j]) && At(s, j, CLOSE)
  }

  /** The end of the run of non-whitespace characters starting at p. */
  function RunEnd(s: string, p: nat): (q: nat)
    requires p <= |s|
    ensures p <= q <= |s|
    ensures forall k :: p <= k < q ==> !IsWhitespace(s[k])
    ensures q < |s| ==> IsWhitespace(s[q])
    decreases |s| - p
  {
    if p == |s| || IsWhitespace(s[p]) then p else RunEnd(s, p + 1)
  }

  /** The greatest k with p < k <= j at which CLOSE occurs: the greedy group's end. */
  function LastClose(s: string, p: nat, j: nat): (r: Option<nat>)
    ensures r.Some? ==> p < r.value <= j && At(s, r.value, CLOSE)
    ensures forall k :: p < k <= j && At(s, k, CLOSE) ==> r.Some? && k <= r.value
    decreases j
  {
    if j <= p then None
    else if At(s, j, CLOSE) then Some(j)
    else LastClose(s, p, j - 1)
  }

  /** The end of the greedy match starting at i, if one starts there. */
  function MatchAt(s: string, i: nat): Option<nat>
    requires i <= |s|
  {
    if At(s, i, OPEN) then LastClose(s, i + |OPEN|, RunEnd(s, i + |OPEN|)) else None
  }

  /** A match at i ends where MatchAt says, and no match at i ends later (\S+ is greedy). */
  lemma MatchAtSpec(s: string, i: nat)
    requires i <= |s|
    ensures MatchAt(s, i).Some? ==> Matches(s, i, MatchAt(s, i).value)
    ensures forall j :: Matches(s, i, j) ==> MatchAt(s, i).Some? && j <= MatchAt(s, i).value
  {
    if At(s, i, OPEN) {
      var p := i + |OPEN|;
      var q := RunEnd(s, p);
      var r := LastClose(s, p, q);
      if r.Some? {
        assert forall k :: 0 <= k < r.value - p ==> s[p..r.value][k] == s[p + k];
      }
      forall j | Matches(s, i, j)
        ensures j <= q
      {
      }
    }
  }

  /** The match find reports: the leftmost start, and at that start the longest group. */
  ghost predicate FirstMatch(s: string, a: int, b: int) {
    Matches(s, a, b)
    && (forall a', b' :: a' < a ==> !Matches(s, a', b'))
    && (forall b' :: Matches(s, a, b') ==> b' <= b)
  }

  /** Matcher.find from index i: the leftmost start at or after i, with its greedy end. */
  function FindFrom(s: string, i: nat): Option<(nat, nat)>
    requires i <= |s|
    decreases |s| - i
  {
    match MatchAt(s, i)
    case Some(j) => Some((i, j))
    case None => if i == |s| then None else FindFrom(s, i + 1)
  }

  lemma {:induction false} FindFromSpec(s: string, i: nat)
    requires i <= |s|
    ensures FindFrom(s, i).None? <==> forall a, b :: i <= a ==> !Matches(s, a, b)
    ensures FindFrom(s, i).Some? ==>
              var (a, b) := FindFrom(s, i).value;
              i <= a && Matches(s, a, b)
              && (forall a', b' :: i <= a' < a ==> !Matches(s, a', b'))
              && (forall b' :: Matches(s, a, b') ==> b' <= b)
    decreases |s| - i
  {
    MatchAtSpec(s, i);
    if MatchAt(s, i).None? && i < |s| {
      FindFromSpec(s, i + 1);
      forall b | true ensures !Matches(s, i, b) { }
    } else if MatchAt(s, i).None? {
      forall a, b | i <= a ensures !Matches(s, a, b) {
        if a > i { assert |OPEN| > 0; }
      }
    }
  }

  /**
   * The group of the first match of `<html>(\S+)<br />` in the line: present
   * exactly when some match exists, taken from the leftmost one, as long as
   * the greedy \S+ allows.
   */
  function Find(s: string): (r: Option<string>)
    ensures r.None? <==> forall a, b :: !Matches(s, a, b)
    ensures r.Some? ==> exists a, b :: FirstMatch(s, a, b) && r.value == s[a + |OPEN|..b]
  {
    FindFromSpec(s, 0);
    match FindFrom(s, 0)
    case None => None
    case Some((a, b)) =>
      assert FirstMatch(s, a, b);
      Some(s[a + |OPEN|..b])
  }

  /** A line that is exactly `<html>G<br />` with G non-empty and free of whitespace yields G. */
  lemma FindWrapped(g: string)
    requires |g| > 0 && NonSpace(g)
    ensures Find(OPEN + g + CLOSE) == Some(g)
  {
    var s := OPEN + g + CLOSE;
    assert s[|OPEN|..|OPEN| + |g|] == g;
    assert s[|OPEN| + |g|..|OPEN| + |g| + |CLOSE|] == CLOSE;
    assert Matches(s, 0, |OPEN| + |g|);
    var r := Find(s);
    var a, b :| FirstMatch(s, a, b) && r.value == s[a + |OPEN|..b];
    assert a == 0;
    assert b == |OPEN| + |g|;
  }

  /** Every piece between colons, trailing empty pieces included. */
  function Pieces(s: string): (r: seq<string>)
    ensures |r| >= 1
    ensures forall t :: t in r ==> ':' !in t
  {
    if |s| == 0 then [""]
    else if s[0] == ':' then [""] + Pieces(s[1..])
    else
      var rest := Pieces(s[1..]);
      [[s[0]] + rest[0]] + rest[1..]
  }

  /** The tokens written back with ':' between them. */
  function Join(ts: seq<string>): string
    requires |ts| >= 1
  {
    if |ts| == 1 then ts[0] else ts[0] + ":" + Join(ts[1..])
  }

  /** Drops the empty strings at the end, as split with limit 0 does. */
  function DropTrailingEmpty(ts: seq<string>): (r: seq<string>)
    ensures |r| <= |ts| && r == ts[..|r|]
    ensures forall k :: |r| <= k < |ts| ==> ts[k] == ""
    ensures r == [] || r[|r| - 1] != ""
  {
    if ts == [] then []
    else if ts[|ts| - 1] == "" then DropTrailingEmpty(ts[..|ts| - 1])
    else ts
  }

  /** String.split(":"): a string without ':' is its own single token. */
  function Split(s: string): (r: seq<string>)
    ensures forall t :: t in r ==> ':' !in t
    ensures ':' !in s ==> r == [s]
    // with a ':' present: the raw pieces, minus the empty ones at the end
    ensures ':' in s ==> |r| <= |Pieces(s)| && r == Pieces(s)[..|r|]
                         && (forall k :: |r| <= k < |Pieces(s)| ==> Pieces(s)[k] == "")
                         && (r == [] || r[|r| - 1] != "")
  {
    if ':' !in s then [s] else DropTrailingEmpty(Pieces(s))
  }

  lemma {:induction false} JoinPieces(s: string)
    ensures Join(Pieces(s)) == s
    decreases |s|
  {
    if |s| > 0 {
      JoinPieces(s[1..]);
      var rest := Pieces(s[1..]);
      if s[0] == ':' {
        assert ([""] + rest)[1..] == rest;
      } else if |rest| > 1 {
        var r := [[s[0]] + rest[0]] + rest[1..];
        assert r[1..] == rest[1..];
        assert Join(rest) == rest[0] + ":" + Join(rest[1..]);
        assert s == [s[0]] + s[1..];
      } else {
        assert s == [s[0]] + s[1..];
      }
    }
  }

  lemma {:induction false} PiecesNoColon(a: string)
    requires ':' !in a
    ensures Pieces(a) == [a]
    decreases |a|
  {
    if |a| > 0 {
      assert a[0] in a;
      assert forall k :: 0 <= k < |a| - 1 ==> a[1..][k] == a[k + 1];
      PiecesNoColon(a[1..]);
      assert [a[0]] + a[1..] == a;
    }
  }

  lemma {:induction false} PiecesCons(a: string, b: string)
    requires ':' !in a
    ensures Pieces(a + ":" + b) == [a] + Pieces(b)
    decreases |a|
  {
    var s := a + ":" + b;
    if |a| == 0 {
      assert s[1..] == b;
    } else {
      assert a[0] in a;
      assert forall k :: 0 <= k < |a| - 1 ==> a[1..][k] == a[k + 1];
      assert s[1..] == a[1..] + ":" + b;
      PiecesCons(a[1..], b);
      assert [a[0]] + a[1..] == a;
    }
  }

  /** Splitting undoes joining: the piece list of joined colon-free tokens is those tokens. */
  lemma {:induction false} PiecesJoin(ts: seq<string>)
    requires |ts| >= 1 && forall t :: t in ts ==> ':' !in t
    ensures Pieces(Join(ts)) == ts
    decreases |ts|
  {
    if |ts| == 1 {
      PiecesNoColon(ts[0]);
    } else {
      assert ts[0] in ts;
      assert forall t :: t in ts[1..] ==> t in ts;
      PiecesJoin(ts[1..]);
      PiecesCons(ts[0], Join(ts[1..]));
      assert [ts[0]] + ts[1..] == ts;
    }
  }

  /**
   * String.split(":") recovers the colon-free tokens that were joined, as
   * long as the last token is not empty when there are several.
   */
  lemma SplitJoin(ts: seq<string>)
    requires |ts| >= 1 && forall t :: t in ts ==> ':' !in t
    requires |ts| == 1 || ts[|ts| - 1] != ""
    ensures Split(Join(ts)) == ts
  {
    if |ts| > 1 {
      var s := Join(ts);
      assert s[|ts[0]|] == ':';
      PiecesJoin(ts);
    } else {
      assert ts[0] in ts;
    }
  }

  /**
   * What setStats extracts from the second line of the page: the group of the
   * first match, split on ':'.  None exactly when the pattern does not occur.
   */
  function ParseLine(line: string): (r: Option<seq<string>>)
    ensures r.None? <==> forall a, b :: !Matches(line, a, b)
    ensures r.Some? ==> exists a, b :: FirstMatch(line, a, b) && r.value == Split(line[a + |OPEN|..b])
    ensures r.Some? ==> forall t :: t in r.value ==> ':' !in t && NonSpace(t)
  {
    match Find(line)
    case None => None
    case Some(g) =>
      SplitNonSpace(g);
      Some(Split(g))
  }

  lemma SplitNonSpace(g: string)
    requires NonSpace(g)
    ensures forall t :: t in Split(g) ==> NonSpace(t)
  {
    if ':' in g {
      PiecesNonSpace(g);
    }
  }

  lemma {:induction false} PiecesNonSpace(g: string)
    requires NonSpace(g)
    ensures forall t :: t in Pieces(g) ==> NonSpace(t)
    decreases |g|
  {
    if |g| > 0 {
      assert forall k :: 0 <= k < |g| - 1 ==> g[1..][k] == g[k + 1];
      PiecesNonSpace(g[1..]);
      var rest := Pieces(g[1..]);
      if g[0] != ':' {
        assert rest[0] in rest;
        var head := [g[0]] + rest[0];
        assert forall k :: 1 <= k < |head| ==> head[k] == rest[0][k - 1];
        assert NonSpace(head);
        assert forall t :: t in rest[1..] ==> t in rest;
        assert Pieces(g) == [head] + rest[1..];
      }
    }
  }

  /** A line that is exactly `<html>G<br />` is parsed into the tokens of G. */
  lemma ParseLineWrapped(g: string)
    requires |g| > 0 && NonSpace(g)
    ensures ParseLine(OPEN + g + CLOSE) == Some(Split(g))
  {
    FindWrapped(g);
  }

  lemma NonSpaceExample()
    ensures NonSpace("22.5:85.0:220.0")
  {
  }

  lemma SplitExample()
    ensures Split("22.5:85.0:220.0") == ["22.5", "85.0", "220.0"]
  {
    var ts := ["22.5", "85.0", "220.0"];
    assert ts[1..] == ["85.0", "220.0"] && ts[1..][1..] == ["220.0"];
    assert Join(ts) == "22.5:85.0:220.0";
    assert forall t :: t in ts ==> ':' !in t;
    SplitJoin(ts);
  }

  /**
   * A page line in the TEMPERATURE:HUMIDITY:TENSION format the class comment
   * describes (THTMonitorBot.java:37-38), `<html>22.5:85.0:220.0<br />`,
   * yields its three readings as tokens.
   */
  lemma PageLineExample(g: string)
    requires g == "22.5:85.0:220.0"
    ensures ParseLine(OPEN + g + CLOSE) == Some(["22.5", "85.0", "220.0"])
  {
    SplitExample();
    NonSpaceExample();
    ParseLineWrapped(g);
  }
}

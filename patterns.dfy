/** The regular expressions `parse_matches` applies to a stripped line of
    the fixtures text (live_gen1.py:178-185, live_gen.py:170-178). Each one
    is a fixed tag, recognised as a prefix, followed by a tail pattern; the
    tail patterns are written out here with Python's matching rules (greedy
    and lazy repetition, backtracking). `\s` is `Text.IsSpace`, `\d` is an
    ASCII digit, and `.` matches every character because a line never
    contains a newline. */
module Patterns {
  import opened Wrappers
  import opened Text

  const MatchTag: string := "\U{1F3DF}\U{FE0F} Match:"
  const MatchIdTag: string := "\U{1F194} Match ID:"
  const StartTag: string := "\U{1F552} Start:"
  const TournamentTag: string := "\U{1F4CD} Tournament:"
  const ChannelsTag: string := "\U{1F4FA} Channels:"
  const HomeLogoTag: string := "\U{1F5BC}\U{FE0F} Home Logo:"
  const AwayLogoTag: string := "\U{1F5BC}\U{FE0F} Away Logo:"
  const ScoreTag: string := "\U{26BD} Score:"

  // ---------------------------------------------------------------------
  // Runs
  // ---------------------------------------------------------------------

  /** `\s*`: the length of the white-space run at the start of `s`. */
  function SpaceRun(s: string): (k: nat)
    ensures k <= |s|
    ensures forall i :: 0 <= i < k ==> IsSpace(s[i])
    ensures k < |s| ==> !IsSpace(s[k])
  {
    if s != [] && IsSpace(s[0]) then 1 + SpaceRun(s[1..]) else 0
  }

  /** `\d+` before it backtracks: the length of the digit run at the start. */
  function DigitRun(s: string): (k: nat)
    ensures k <= |s|
    ensures forall i :: 0 <= i < k ==> IsDigit(s[i])
    ensures k < |s| ==> !IsDigit(s[k])
  {
    if s != [] && IsDigit(s[0]) then 1 + DigitRun(s[1..]) else 0
  }

  /** `\S+` before it backtracks: the length of the non-space run. */
  function NonSpaceRun(s: string): (k: nat)
    ensures k <= |s|
    ensures forall i :: 0 <= i < k ==> !IsSpace(s[i])
    ensures k < |s| ==> IsSpace(s[k])
  {
    if s != [] && !IsSpace(s[0]) then 1 + NonSpaceRun(s[1..]) else 0
  }

  // ---------------------------------------------------------------------
  // Tails
  // ---------------------------------------------------------------------

  /** `\s*(.+?)\s*$`: the group is `s` without the white space around it;
      when `s` is nothing but white space, the backtracking leaves its last
      character to the group. There is no match on the empty string. */
  function LazyRest(s: string): (o: Option<string>)
    ensures o.None? <==> s == []
    ensures o.Some? ==> LazyOf(s, o.value)
  {
    if s == [] then None
    else
      var t := Strip(s);
      if t != [] then
        StripSurrounds(s);
        Some(t)
      else
        BlankSurrounds(s);
        Some([s[|s| - 1]])
  }

  /** `v` is what the lazy group takes of `s`: non-empty, surrounded by
      white space, and stripped unless `s` is blank. */
  predicate LazyOf(s: string, v: string)
  {
    v != [] && (exists k :: 0 <= k <= |s| && Surrounds(s, k, v)) && (!AllSpace(s) ==> Stripped(v))
  }

  lemma StripSurrounds(s: string)
    ensures Surrounds(s, LeadingSpaces(s), Strip(s))
    ensures Strip(s) != [] ==> LazyOf(s, Strip(s))
  {
    StripParts(s);
    var k := LeadingSpaces(s);
    assert 0 <= k <= |s| && Surrounds(s, k, Strip(s));
  }

  /** Of a blank `s`, the lazy group takes the last character. */
  lemma BlankSurrounds(s: string)
    requires s != [] && Strip(s) == []
    ensures AllSpace(s) && Surrounds(s, |s| - 1, [s[|s| - 1]]) && LazyOf(s, [s[|s| - 1]])
  {
    StripParts(s);
    SliceParts(s, LeadingSpaces(s), LeadingSpaces(s));
    assert AllSpace(s);
    assert Surrounds(s, |s| - 1, [s[|s| - 1]]);
  }

  /** `s` is white space, `v` from position `k`, then white space. */
  predicate Surrounds(s: string, k: nat, v: string)
  {
    k + |v| <= |s| && s[k..k + |v|] == v && AllSpace(s[..k]) && AllSpace(s[k + |v|..])
  }

  /** The two groups of the fixture header. */
  datatype Teams = Teams(home: string, away: string)

  predicate VsAt(r: string, q: nat)
  {
    q + 2 < |r| && r[q] == 'V' && r[q + 1] == 's'
  }

  /** The first position at or after `from` holding `Vs` with at least one
      character after it, or `|r|` when there is none. */
  function FindVs(r: string, from: nat): (q: nat)
    ensures q <= |r|
    ensures q < |r| ==> from <= q && VsAt(r, q)
    ensures forall j :: from <= j < q ==> !VsAt(r, j)
    decreases |r| - from
  {
    if from + 2 >= |r| then |r|
    else if VsAt(r, from) then from
    else FindVs(r, from + 1)
  }

  /** `\s*(?P<home>.+?)\s*Vs\s*(?P<away>.+?)\s*$` after the tag. The
      leading `\s*` takes all the white space, then the lazy `home` ends at
      the first `Vs` that still leaves something for `away`. Only when no
      such `Vs` exists does the regex give back one space of the leading
      run, letting a `Vs` right after it split the line with a one-space
      `home`. */
  function HeaderTail(r: string): (o: Option<Teams>)
    ensures o.Some? ==> o.value.home != [] && o.value.away != []
  {
    var k := SpaceRun(r);
    var q := FindVs(r, k + 1);
    if q < |r| then
      var home := TrimRight(r[k..q]);
      assert home != [] by {
        assert r[k..q][0] == r[k];
      }
      Some(Teams(home, LazyRest(r[q + 2..]).value))
    else if k >= 1 && VsAt(r, k) then
      Some(Teams([r[k - 1]], LazyRest(r[k + 2..]).value))
    else None
  }

  /** `\s*(?P<id>\d+)` after the tag: the value of the digit run. */
  function MatchIdTail(r: string): (o: Option<nat>)
    ensures o.Some? <==> SpaceRun(r) < |r| && IsDigit(r[SpaceRun(r)])
  {
    var k := SpaceRun(r);
    var n := DigitRun(r[k..]);
    if n >= 1 then Some(ParseNat(r[k..k + n])) else None
  }

  datatype Start = Start(date: string, time: string)

  predicate DigitsAt(s: string, i: nat, n: nat)
  {
    i + n <= |s| && forall j :: i <= j < i + n ==> IsDigit(s[j])
  }

  /** `YYYY-MM-DD` with ASCII digits. */
  predicate IsDate(d: string)
  {
    |d| == 10 && DigitsAt(d, 0, 4) && d[4] == '-' && DigitsAt(d, 5, 2) && d[7] == '-' && DigitsAt(d, 8, 2)
  }

  /** `HH:MM` with ASCII digits. */
  predicate IsClock(t: string)
  {
    |t| == 5 && DigitsAt(t, 0, 2) && t[2] == ':' && DigitsAt(t, 3, 2)
  }

  /** `\s*(?P<date>\d{4}-\d{2}-\d{2})\s+(?P<time>\d{2}:\d{2})` after the tag. */
  function StartTail(r: string): (o: Option<Start>)
    ensures o.Some? ==> IsDate(o.value.date) && IsClock(o.value.time)
  {
    var k := SpaceRun(r);
    if k + 10 <= |r| && IsDate(r[k..k + 10]) then
      var rest := r[k + 10..];
      var w := SpaceRun(rest);
      if w >= 1 && w + 5 <= |rest| && IsClock(rest[w..w + 5]) then
        Some(Start(r[k..k + 10], rest[w..w + 5]))
      else None
    else None
  }

  /** `\s*(?P<url>\S+)` after the tag: the first run of non-space
      characters. */
  function LogoTail(r: string): (o: Option<string>)
    ensures o.Some? ==> o.value != [] && forall i :: 0 <= i < |o.value| ==> !IsSpace(o.value[i])
    ensures o.None? <==> AllSpace(r)
  {
    var k := SpaceRun(r);
    var n := NonSpaceRun(r[k..]);
    if n >= 1 then Some(r[k..k + n])
    else
      assert AllSpace(r) by {
        assert k == |r|;
      }
      None
  }

  /** `\s*\|\s*\d+` at the start of `s`: the length of the match, or 0
      when there is none. */
  function BarRun(s: string): (n: nat)
    ensures n <= |s|
    ensures n >= 1 ==> SpaceRun(s) + 2 <= n && s[SpaceRun(s)] == '|' && IsDigit(s[n - 1])
  {
    var w1 := SpaceRun(s);
    if w1 < |s| && s[w1] == '|' then
      var q := w1 + 1 + SpaceRun(s[w1 + 1..]);
      var b := DigitRun(s[q..]);
      if b >= 1 then
        assert s[q + b - 1] == s[q..][b - 1];
        q + b
      else 0
    else 0
  }

  /** `\d+\s*\|\s*\d+` at the start of `s`: two digit runs around a `|`,
      with the white space between them kept. Backtracking never helps:
      a shorter digit run would be followed by a digit, which is neither
      white space nor `|`. */
  function ScoreGroup(s: string): (o: Option<string>)
    ensures o.Some? ==> |o.value| >= 3 && IsDigit(o.value[0]) && IsDigit(o.value[|o.value| - 1])
    ensures o.Some? ==> '|' in o.value
  {
    var a := DigitRun(s);
    var n := BarRun(s[a..]);
    if a >= 1 && n >= 1 then
      var g := s[..a + n];
      var w1 := SpaceRun(s[a..]);
      assert g[a + w1] == s[a..][w1] == '|';
      assert g[a + n - 1] == s[a..][n - 1];
      Some(g)
    else None
  }

  /** `\s*(?P<s>\d+\s*\|\s*\d+)` after the tag: the group after the
      leading white space. */
  function ScoreTail(r: string): (o: Option<string>)
    ensures o.Some? ==> |o.value| >= 3 && IsDigit(o.value[0]) && IsDigit(o.value[|o.value| - 1])
    ensures o.Some? ==> '|' in o.value
  {
    ScoreGroup(r[SpaceRun(r)..])
  }

  // ---------------------------------------------------------------------
  // Matching a tagged pattern
  // ---------------------------------------------------------------------

  /** `re.match`: the tag at the start of the line, then the tail. */
  function Anchored<T>(line: string, tag: string, tail: string -> Option<T>): Option<T>
  {
    if StartsWith(line, tag) then tail(line[|tag|..]) else None
  }

  /** The start of the leftmost match, or `|line| + 1` when there is none. */
  function SearchStart<T>(line: string, tag: string, tail: string -> Option<T>, from: nat): (p: nat)
    requires from <= |line|
    ensures from <= p <= |line| + 1
    ensures p <= |line| ==> Anchored(line[p..], tag, tail).Some?
    ensures forall j :: from <= j < p && j <= |line| ==> Anchored(line[j..], tag, tail).None?
    decreases |line| - from
  {
    if Anchored(line[from..], tag, tail).Some? then from
    else if from == |line| then |line| + 1
    else SearchStart(line, tag, tail, from + 1)
  }

  /** `re.search`: the match that starts leftmost in the line. */
  function Searched<T>(line: string, tag: string, tail: string -> Option<T>): (o: Option<T>)
    ensures o.Some? <==> exists p :: 0 <= p <= |line| && Anchored(line[p..], tag, tail).Some?
  {
    var p := SearchStart(line, tag, tail, 0);
    if p <= |line| then Anchored(line[p..], tag, tail) else None
  }

  /** A line that starts with the tag is searched from its start: `search`
      and `match` agree whenever `match` finds something. */
  lemma SearchedAnchored<T>(line: string, tag: string, tail: string -> Option<T>)
    requires Anchored(line, tag, tail).Some?
    ensures Searched(line, tag, tail) == Anchored(line, tag, tail)
  {
    assert line[0..] == line;
  }

  // ---------------------------------------------------------------------
  // The lines the scraper writes parse back to their fields
  // ---------------------------------------------------------------------

  predicate NoVs(s: string)
  {
    forall i :: 0 <= i < |s| - 1 ==> !(s[i] == 'V' && s[i + 1] == 's')
  }

  /** A header `🏟️ Match: <home> Vs <away>` gives back its two teams when
      the home team's name does not itself contain `Vs`. */
  lemma HeaderTailOfTeams(home: string, away: string)
    requires Stripped(home) && Stripped(away) && NoVs(home)
    ensures HeaderTail(" " + home + " Vs " + away) == Some(Teams(home, away))
  {
    var r := " " + home + " Vs " + away;
    var q := |home| + 2;
    HeaderVsAt(home, away);
    assert r[1..q] == home + " ";
    assert TrimRight(home + " ") == home by {
      assert (home + " ")[..|home + " "| - 1] == home;
    }
    assert r[q + 2..] == " " + away;
    StripOf(" " + away, away);
  }

  /** In ` <home> Vs <away>` the home team starts after one space and the
      first `Vs` is the separator. */
  lemma HeaderVsAt(home: string, away: string)
    requires Stripped(home) && Stripped(away) && NoVs(home)
    ensures var r := " " + home + " Vs " + away;
      SpaceRun(r) == 1 && FindVs(r, 2) == |home| + 2
  {
    var r := " " + home + " Vs " + away;
    var h := |home|;
    assert forall i :: 1 <= i <= h ==> r[i] == home[i - 1];
    assert r[0] == ' ' && r[h + 1] == ' ' && r[h + 2] == 'V' && r[h + 3] == 's' && r[h + 4] == ' ';
    assert SpaceRun(r) == 1 by {
      assert r[1..] == home + " Vs " + away;
      assert SpaceRun(r[1..]) == 0 by {
        assert r[1..][0] == home[0];
      }
    }
    var q := h + 2;
    assert VsAt(r, q);
    forall j | 2 <= j < q
      ensures !VsAt(r, j)
    {
      if j + 1 <= h {
        assert r[j] == home[j - 1] && r[j + 1] == home[j];
      } else if j == h {
        assert r[j + 1] == ' ';
      } else {
        assert r[j] == ' ';
      }
    }
    FindVsFirst(r, 2, q);
  }

  lemma {:induction false} FindVsFirst(r: string, from: nat, q: nat)
    requires from <= q && VsAt(r, q)
    requires forall j :: from <= j < q ==> !VsAt(r, j)
    ensures FindVs(r, from) == q
    decreases q - from
  {
    if from < q {
      FindVsFirst(r, from + 1, q);
    }
  }

  /** A match-id line written with the decimal form of `n` reads back
      `n`. */
  lemma MatchIdOfNat(n: nat)
    ensures Anchored(MatchIdTag + " " + NatToString(n), MatchIdTag, MatchIdTail) == Some(n)
  {
    var d := NatToString(n);
    var r := " " + d;
    assert MatchIdTag + " " + d == MatchIdTag + r;
    AppendParts(MatchIdTag, r);
    SpacedDigits(d);
  }

  /** A score `<a> | <b>` written after one space is read back whole by
      the score tail, spaces included. */
  lemma ScoreTailOfDigits(a: string, b: string)
    requires a != [] && AllDigits(a) && b != [] && AllDigits(b)
    ensures ScoreTail(" " + a + " | " + b) == Some(a + " | " + b)
  {
    var g := a + " | " + b;
    assert " " + a + " | " + b == " " + g;
    assert g[0] == a[0];
    SpaceThen(g);
    assert (" " + g)[1..] == g;
    ScoreGroupOfDigits(a, b);
  }

  lemma ScoreGroupOfDigits(a: string, b: string)
    requires a != [] && AllDigits(a) && b != [] && AllDigits(b)
    ensures ScoreGroup(a + " | " + b) == Some(a + " | " + b)
  {
    var t := " | " + b;
    assert a + " | " + b == a + t;
    DigitRunPrefix(a, t);
    BarRunOfDigits(b);
    assert (a + t)[|a|..] == t;
    ScoreGroupRuns(a + t, |a|);
    assert (a + t)[..|a + t|] == a + t;
  }

  /** A digit run followed by a bar run is one score group, the whole
      string. */
  lemma ScoreGroupRuns(s: string, a: nat)
    requires 1 <= a < |s| && DigitRun(s) == a && BarRun(s[a..]) == |s| - a
    ensures ScoreGroup(s) == Some(s[..|s|])
  {
  }

  lemma BarRunOfDigits(b: string)
    requires b != [] && AllDigits(b)
    ensures BarRun(" | " + b) == |b| + 3
  {
    var s := " | " + b;
    assert s == " " + ("| " + b);
    SpaceThen("| " + b);
    assert s[2..] == " " + b;
    SpaceThen(b);
    assert s[3..] == b;
    DigitRunAll(b);
  }

  /** One space before a character that is not white space. */
  lemma SpaceThen(x: string)
    requires x != [] && !IsSpace(x[0])
    ensures SpaceRun(" " + x) == 1
  {
    assert (" " + x)[1..] == x;
  }

  /** A start line `🕒 Start: <date> <time>` reads back its date and time,
      whether it is matched at the start of the line or searched for. */
  lemma StartLineOf(d: string, t: string)
    requires IsDate(d) && IsClock(t)
    ensures var line := StartTag + " " + d + " " + t;
      Anchored(line, StartTag, StartTail) == Some(Start(d, t))
      && Searched(line, StartTag, StartTail) == Some(Start(d, t))
  {
    var r := " " + d + " " + t;
    var line := StartTag + " " + d + " " + t;
    assert line == StartTag + r;
    AppendParts(StartTag, r);
    StartTailOf(d, t);
    SearchedAnchored(line, StartTag, StartTail);
  }

  /** A date and a time written after one space each read back. */
  lemma StartTailOf(d: string, t: string)
    requires IsDate(d) && IsClock(t)
    ensures StartTail(" " + d + " " + t) == Some(Start(d, t))
  {
    var g := d + " " + t;
    var r := " " + g;
    assert " " + d + " " + t == r;
    assert g[0] == d[0];
    SpaceThen(g);
    StartParts(d, t);
    assert t[0] == (" " + t)[1];
    SpaceThen(t);
  }

  /** The positions of ` <date> <time>` the start tail reads. */
  lemma StartParts(d: string, t: string)
    requires |d| == 10 && |t| == 5
    ensures var r := " " + (d + " " + t);
      r[1..11] == d && r[11..] == " " + t && (" " + t)[1..6] == t
  {
  }

  /** A logo line `<tag> <url>` reads back the URL, whatever follows it
      after white space, by `match` and by `search`. */
  lemma LogoLineOf(tag: string, u: string, w: string)
    requires u != [] && forall i :: 0 <= i < |u| ==> !IsSpace(u[i])
    requires w == [] || IsSpace(w[0])
    ensures var line := tag + " " + u + w;
      Anchored(line, tag, LogoTail) == Some(u) && Searched(line, tag, LogoTail) == Some(u)
  {
    var r := " " + u + w;
    var line := tag + " " + u + w;
    assert line == tag + r;
    AppendParts(tag, r);
    LogoTailOf(u, w);
    SearchedAnchored(line, tag, LogoTail);
  }

  /** The first non-space run after one space is the URL. */
  lemma LogoTailOf(u: string, w: string)
    requires u != [] && forall i :: 0 <= i < |u| ==> !IsSpace(u[i])
    requires w == [] || IsSpace(w[0])
    ensures LogoTail(" " + u + w) == Some(u)
  {
    var g := u + w;
    assert " " + u + w == " " + g;
    assert g[0] == u[0];
    SpaceThen(g);
    assert (" " + g)[1..] == g;
    NonSpaceRunPrefix(u, w);
    assert g[..|u|] == u;
  }

  /** A run of non-space characters ends where white space or the string
      does. */
  lemma {:induction false} NonSpaceRunPrefix(u: string, w: string)
    requires forall i :: 0 <= i < |u| ==> !IsSpace(u[i])
    requires w == [] || IsSpace(w[0])
    ensures NonSpaceRun(u + w) == |u|
  {
    if u != [] {
      assert (u + w)[1..] == u[1..] + w;
      NonSpaceRunPrefix(u[1..], w);
    } else {
      assert u + w == w;
    }
  }

  /** A digit run followed by a character that is not a digit. */
  lemma {:induction false} DigitRunPrefix(d: string, t: string)
    requires AllDigits(d) && t != [] && !IsDigit(t[0])
    ensures DigitRun(d + t) == |d|
  {
    if d != [] {
      assert (d + t)[1..] == d[1..] + t;
      DigitRunPrefix(d[1..], t);
    }
  }

  /** A digit run after one space is read back by the id tail. */
  lemma SpacedDigits(d: string)
    requires d != [] && AllDigits(d)
    ensures MatchIdTail(" " + d) == Some(ParseNat(d))
  {
    var r := " " + d;
    assert r[1..] == d;
    assert SpaceRun(r) == 1 by {
      assert !IsSpace(d[0]);
    }
    assert DigitRun(d) == |d| by {
      DigitRunAll(d);
    }
    assert r[1..1 + |d|] == d;
  }

  lemma {:induction false} DigitRunAll(d: string)
    requires AllDigits(d)
    ensures DigitRun(d) == |d|
  {
    if d != [] {
      DigitRunAll(d[1..]);
    }
  }

  /** The lazy tail gives back a value written after white space. */
  lemma StripOf(s: string, v: string)
    requires Stripped(v) && s == " " + v
    ensures LazyRest(s) == Some(v)
  {
    StripPadded(" ", v);
  }
}

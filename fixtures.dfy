/** The fixture records both scripts build from the matches text, the
    pieces of `parse_matches` they share, and the shape of the final JSON
    entries. A Python dictionary with optional keys becomes a datatype with
    an `Option` per key; a key that was never set is `None`. */
module Fixtures {
  import opened Wrappers
  import opened Text
  import opened Patterns

  datatype Stream = Stream(name: string, url: string)

  /** The dictionary `cur` of `parse_matches` and the match dictionaries
      the later passes update. */
  datatype Fixture = Fixture(
    home: Option<string>, away: Option<string>, matchId: Option<nat>,
    date: Option<string>, time: Option<string>, tournament: Option<string>,
    channels: Option<seq<string>>, homeLogo: Option<string>, awayLogo: Option<string>,
    score: Option<string>, streams: Option<seq<Stream>>)

  /** The empty dictionary, the only one Python treats as false. */
  const Blank: Fixture := Fixture(None, None, None, None, None, None, None, None, None, None, None)

  /** A record that was started by a header line. */
  predicate Headed(f: Fixture)
  {
    f.home.Some? && f.away.Some? && f.home.value != [] && f.away.value != []
  }

  /** The streams of a record, `m.get("streams", [])`. */
  function StreamsOf(f: Fixture): seq<Stream>
  {
    f.streams.GetOr([])
  }

  /** The record with `add` appended to its streams; `setdefault` creates
      the list only when something is appended. */
  function Extend(f: Fixture, add: seq<Stream>): Fixture
  {
    if add == [] then f else f.(streams := Some(StreamsOf(f) + add))
  }

  lemma StreamsOfExtend(f: Fixture, add: seq<Stream>)
    ensures StreamsOf(Extend(f, add)) == StreamsOf(f) + add
    ensures Extend(f, add).(streams := f.streams) == f
  {
    if add == [] {
      assert StreamsOf(f) + add == StreamsOf(f);
    }
  }

  lemma ExtendSnoc(f: Fixture, add: seq<Stream>, s: Stream)
    ensures Extend(f, add + [s]) == Extend(f, add).(streams := Some(StreamsOf(Extend(f, add)) + [s]))
  {
    if add == [] {
      assert add + [s] == [s];
    } else {
      AppendAssoc(StreamsOf(f), add, [s]);
    }
  }

  // ---------------------------------------------------------------------
  // Values a tag line sets
  // ---------------------------------------------------------------------

  /** The stripped, non-empty pieces in a list, in order. */
  function KeepStripped(pieces: seq<string>): (names: seq<string>)
    ensures |names| <= |pieces|
  {
    if pieces == [] then []
    else
      var p := Strip(pieces[0]);
      (if p != [] then [p] else []) + KeepStripped(pieces[1..])
  }

  /** Every kept piece is stripped and non-empty. */
  lemma {:induction false} KeepStrippedStripped(pieces: seq<string>)
    ensures forall n :: n in KeepStripped(pieces) ==> Stripped(n)
  {
    if pieces != [] {
      KeepStrippedStripped(pieces[1..]);
    }
  }

  /** `[c.strip() for c in group.split(",") if c.strip()]`. */
  function ChannelList(group: string): seq<string>
  {
    KeepStripped(Split(group, ','))
  }

  /** `", ".join(names)`. */
  function JoinComma(names: seq<string>): string
  {
    if names == [] then []
    else if |names| == 1 then names[0]
    else names[0] + ", " + JoinComma(names[1..])
  }

  /** `group.replace(" ", "")`: the score without its spaces. */
  function ScoreValue(group: string): (r: string)
    ensures ' ' !in r && |r| <= |group|
  {
    RemoveChar(group, ' ');
    Replace(group, " ", "")
  }

  /** A score line `⚽ Score: <a> | <b>` is stored as `<a>|<b>`: the two
      digit runs and the bar survive, only the spaces go. */
  lemma ScoreOfDigits(a: string, b: string)
    requires a != [] && AllDigits(a) && b != [] && AllDigits(b)
    ensures var line := ScoreTag + " " + a + " | " + b;
      Anchored(line, ScoreTag, ScoreTail) == Some(a + " | " + b)
      && Searched(line, ScoreTag, ScoreTail) == Some(a + " | " + b)
      && ScoreValue(a + " | " + b) == a + "|" + b
  {
    var r := " " + a + " | " + b;
    var line := ScoreTag + " " + a + " | " + b;
    assert line == ScoreTag + r;
    AppendParts(ScoreTag, r);
    ScoreTailOfDigits(a, b);
    SearchedAnchored(line, ScoreTag, ScoreTail);
    ScoreValueSpaced(a, b);
  }

  /** Removing the spaces around the bar of `<a> | <b>`. */
  lemma ScoreValueSpaced(a: string, b: string)
    requires ' ' !in a && ' ' !in b
    ensures ScoreValue(a + " | " + b) == a + "|" + b
  {
    var t := " " + ("|" + (" " + b));
    RemoveChar(a, ' ');
    BarWithoutSpaces(b);
    RemoveCharAppend(a, t, ' ');
    ScoreSpelling(a, b);
  }

  /** ` | <b>` loses its two spaces. */
  lemma BarWithoutSpaces(b: string)
    requires ' ' !in b
    ensures Replace(" " + ("|" + (" " + b)), " ", "") == "|" + b
  {
    SpaceWithoutSpaces(b);
    BarThenWithoutSpaces(b);
    RemoveCharCons(' ', "|" + (" " + b), ' ');
  }

  lemma BarThenWithoutSpaces(b: string)
    requires ' ' !in b
    ensures Replace("|" + (" " + b), " ", "") == "|" + b
  {
    SpaceWithoutSpaces(b);
    RemoveCharCons('|', " " + b, ' ');
  }

  lemma SpaceWithoutSpaces(b: string)
    requires ' ' !in b
    ensures Replace(" " + b, " ", "") == b
  {
    RemoveChar(b, ' ');
    RemoveCharCons(' ', b, ' ');
  }

  lemma ScoreSpelling(a: string, b: string)
    ensures a + " | " + b == a + (" " + ("|" + (" " + b)))
    ensures a + "|" + b == a + ("|" + b)
  {
  }

  /** `name.lower().replace(" ", "_")`: the team id of the final JSON. */
  function TeamId(name: string): (r: string)
    ensures |r| == |name| && ' ' !in r
    ensures forall i :: 0 <= i < |name| ==> r[i] == if name[i] == ' ' then '_' else LowerChar(name[i])
  {
    ReplaceChar(Lower(name), ' ', '_');
    Replace(Lower(name), " ", "_")
  }

  // ---------------------------------------------------------------------
  // Tag lines
  // ---------------------------------------------------------------------

  /** `MATCH_REGEX.match(line)`. */
  function HeaderOf(line: string): (o: Option<Teams>)
    ensures o.Some? ==> o.value.home != [] && o.value.away != []
  {
    Anchored(line, MatchTag, HeaderTail)
  }

  /** The record a header line starts. */
  function Started(t: Teams): Fixture
  {
    Blank.(home := Some(t.home), away := Some(t.away))
  }

  /** The state of the line loop: the finished records and `cur`. */
  datatype Parse = Parse(matches: seq<Fixture>, cur: Fixture)

  const Start0: Parse := Parse([], Blank)

  /** `if cur: matches.append(cur)`. */
  function Flushed(st: Parse): seq<Fixture>
  {
    st.matches + (if st.cur != Blank then [st.cur] else [])
  }

  /** A header line: `if cur: matches.append(cur)`, then the new record. */
  method StartRecord(matches0: seq<Fixture>, cur0: Fixture, t: Teams) returns (matches: seq<Fixture>, cur: Fixture)
    ensures matches == Flushed(Parse(matches0, cur0)) && cur == Started(t)
  {
    matches := matches0;
    if cur0 != Blank {
      matches := matches + [cur0];
    } else {
      assert matches0 + [] == matches0;
    }
    cur := Started(t);
  }

  /** The teams of the header lines, in order. */
  function HeaderTeams(lines: seq<string>): seq<Teams>
  {
    if lines == [] then []
    else
      var h := HeaderOf(Strip(lines[|lines| - 1]));
      HeaderTeams(lines[..|lines| - 1]) + (if h.Some? then [h.value] else [])
  }

  /** The teams of the records that were started by a header. */
  function HeadedTeams(records: seq<Fixture>): seq<Teams>
  {
    if records == [] then []
    else
      var f := records[|records| - 1];
      HeadedTeams(records[..|records| - 1])
        + (if Headed(f) then [Teams(f.home.value, f.away.value)] else [])
  }

  lemma {:induction false} HeadedTeamsAppend(a: seq<Fixture>, b: seq<Fixture>)
    ensures HeadedTeams(a + b) == HeadedTeams(a) + HeadedTeams(b)
    decreases |b|
  {
    if b == [] {
      assert a + b == a;
    } else {
      var b' := b[..|b| - 1];
      assert (a + b)[..|a + b| - 1] == a + b';
      assert (a + b)[|a + b| - 1] == b[|b| - 1];
      HeadedTeamsAppend(a, b');
    }
  }

  /** When every record is headed, their teams are one per record. */
  lemma {:induction false} HeadedTeamsAll(records: seq<Fixture>)
    requires forall i :: 0 <= i < |records| ==> Headed(records[i])
    ensures |HeadedTeams(records)| == |records|
    ensures forall i :: 0 <= i < |records| && Headed(records[i]) ==>
      HeadedTeams(records)[i] == Teams(records[i].home.value, records[i].away.value)
  {
    if records != [] {
      HeadedTeamsAll(records[..|records| - 1]);
    }
  }

  /** A team of the final JSON. */
  datatype Team = Team(id: string, name: string, logoUrl: string)

  /** One match of the final JSON; the type of `matchId` differs between
      the scripts. */
  datatype Entry<Id> = Entry(
    matchId: Id, startDate: string, startTime: string, left: Team, right: Team,
    tournament: string, venue: string, streams: seq<Stream>)

  /** `{s["url"] for s in streams}`. */
  function UrlSet(streams: seq<Stream>): set<string>
  {
    set i | 0 <= i < |streams| :: streams[i].url
  }

  // ---------------------------------------------------------------------
  // The values the matches text writes are read back
  // ---------------------------------------------------------------------

  lemma {:induction false} SplitAt(x: string, y: string)
    requires Lacks(x, ',')
    ensures Split(x + [','] + y, ',') == [x] + Split(y, ',')
  {
    var s := x + [','] + y;
    assert IndexOf(s, ',') == |x| by {
      assert s[|x|] == ',';
      assert forall j :: 0 <= j < |x| ==> s[j] == x[j];
    }
    assert s[..|x|] == x && s[|x| + 1..] == y;
  }

  lemma SplitNone(x: string)
    requires Lacks(x, ',')
    ensures Split(x, ',') == [x]
  {
    assert IndexOf(x, ',') == |x|;
  }

  lemma SpaceLacksComma(w: string)
    requires AllSpace(w)
    ensures Lacks(w, ',')
  {
    forall i | 0 <= i < |w|
      ensures w[i] != ','
    {
      assert IsSpace(w[i]);
    }
  }

  lemma LacksAppend(a: string, b: string, c: char)
    requires Lacks(a, c) && Lacks(b, c)
    ensures Lacks(a + b, c)
  {
    assert forall i :: 0 <= i < |a + b| ==> (a + b)[i] == if i < |a| then a[i] else b[i - |a|];
  }

  lemma {:induction false} ChannelListJoinFrom(lead: string, names: seq<string>)
    requires AllSpace(lead)
    requires forall i :: 0 <= i < |names| ==> Stripped(names[i])
    requires CommaFree(names)
    ensures KeepStripped(Split(lead + JoinComma(names), ',')) == names
    decreases |names|
  {
    if names == [] {
      JoinNone(lead);
      assert lead + JoinComma(names) == lead;
    } else if |names| == 1 {
      assert Lacks(names[0], ',') && Stripped(names[0]);
      JoinOne(lead, names[0]);
      assert lead + JoinComma(names) == lead + names[0];
    } else {
      var rest := names[1..];
      assert CommaFree(rest);
      ChannelListJoinFrom(" ", rest);
      assert Lacks(names[0], ',') && Stripped(names[0]);
      JoinMore(lead, names[0], rest);
      JoinCommaCons(lead, names);
    }
  }

  lemma JoinNone(lead: string)
    requires AllSpace(lead)
    ensures KeepStripped(Split(lead, ',')) == []
  {
    SpaceLacksComma(lead);
    SplitNone(lead);
    StripOfSpace(lead);
    KeepStrippedOne(lead);
  }

  lemma KeepStrippedOne(p: string)
    ensures KeepStripped([p]) == if Strip(p) == [] then [] else [Strip(p)]
  {
    assert [p][1..] == [];
  }

  lemma JoinOne(lead: string, a: string)
    requires AllSpace(lead) && Stripped(a) && Lacks(a, ',')
    ensures KeepStripped(Split(lead + a, ',')) == [a]
  {
    SpaceLacksComma(lead);
    StripPadded(lead, a);
    LacksAppend(lead, a, ',');
    SplitNone(lead + a);
    KeepStrippedOne(lead + a);
  }

  lemma JoinMore(lead: string, a: string, rest: seq<string>)
    requires AllSpace(lead) && Stripped(a) && Lacks(a, ',')
    requires KeepStripped(Split(" " + JoinComma(rest), ',')) == rest
    ensures KeepStripped(Split((lead + a) + [','] + (" " + JoinComma(rest)), ',')) == [a] + rest
  {
    var tail := " " + JoinComma(rest);
    SpaceLacksComma(lead);
    StripPadded(lead, a);
    LacksAppend(lead, a, ',');
    SplitAt(lead + a, tail);
    var pieces := [lead + a] + Split(tail, ',');
    assert pieces[0] == lead + a && pieces[1..] == Split(tail, ',');
    assert KeepStripped(pieces) == [a] + KeepStripped(pieces[1..]);
  }

  lemma JoinCommaCons(lead: string, names: seq<string>)
    requires |names| >= 2
    ensures lead + JoinComma(names) == (lead + names[0]) + [','] + (" " + JoinComma(names[1..]))
  {
    var a, j := names[0], JoinComma(names[1..]);
    var tail := " " + j;
    assert ", " == [','] + " ";
    calc {
      lead + JoinComma(names);
      lead + ((a + ", ") + j);
      { AppendAssoc(lead, a + ", ", j); }
      (lead + (a + ", ")) + j;
      { AppendAssoc(lead, a, ", "); }
      ((lead + a) + ", ") + j;
      { AppendAssoc(lead + a, ", ", j); }
      (lead + a) + (", " + j);
      { AppendAssoc([','], " ", j); }
      (lead + a) + ([','] + tail);
      { AppendAssoc(lead + a, [','], tail); }
      (lead + a) + [','] + tail;
    }
  }

  /** A channels line written as `names` joined by `", "` gives back
      `names`, when no name is padded or contains a comma. */
  lemma ChannelListJoin(names: seq<string>)
    requires forall i :: 0 <= i < |names| ==> Stripped(names[i])
    requires CommaFree(names)
    ensures ChannelList(JoinComma(names)) == names
  {
    var lead: string := [];
    var joined := JoinComma(names);
    assert lead + joined == joined;
    ChannelListJoinFrom(lead, names);
  }

  /** No name in `names` contains a comma. */
  predicate CommaFree(names: seq<string>)
  {
    forall n :: n in names ==> Lacks(n, ',')
  }

  /** Every channel name is stripped, non-empty and free of commas. */
  lemma ChannelListShape(group: string)
    ensures CommaFree(ChannelList(group))
    ensures forall i :: 0 <= i < |ChannelList(group)| ==> Stripped(ChannelList(group)[i])
  {
    KeepStrippedLacks(Split(group, ','));
    KeepStrippedStripped(Split(group, ','));
  }

  lemma {:induction false} KeepStrippedLacks(pieces: seq<string>)
    requires forall k, j :: 0 <= k < |pieces| && 0 <= j < |pieces[k]| ==> pieces[k][j] != ','
    ensures CommaFree(KeepStripped(pieces))
  {
    if pieces != [] {
      KeepStrippedLacks(pieces[1..]);
      assert Lacks(pieces[0], ',');
      StripLacks(pieces[0], ',');
    }
  }
}

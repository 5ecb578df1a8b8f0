/** The passes of live_gen.py that differ from live_gen1.py: the reachability
    probe, the streaming bucket parser with verbatim keys, the unguarded
    fixture parser, the catalog that keeps the first reachable URL per
    name, the merge that tries several spellings of the match name and
    appends only reachable URLs, and the final JSON with a composed match
    id. Where the script raises an exception that nothing catches, the
    model returns a `Failure`. */
module LiveGen {
  import opened Wrappers
  import opened Text
  import opened Lists
  import opened Decoder
  import opened Keys
  import opened Patterns
  import opened Fixtures
  import opened Channels
  import opened Streaming

  /** Why a run stops with an uncaught exception: `json.loads` rejects the
      decoded text of a source, or a record lacks a key read with `m[...]`. */
  datatype Failure = NotJson(source: nat) | MissingKey(record: nat, key: string)

  // ---------------------------------------------------------------------
  // url_is_alive and filter_alive_urls (lines 114-128)
  // ---------------------------------------------------------------------

  /** What the HEAD request of `url_is_alive` comes back with: a status
      code, or an exception (time-out, refused connection, bad URL). */
  datatype ProbeOutcome = Status(code: int) | Failed

  /** `url_is_alive`: a status from 200 to 399; an exception is dead. */
  predicate Alive(o: ProbeOutcome)
  {
    o.Status? && 200 <= o.code < 400
  }

  /** `filter_alive_urls`: the URLs whose probe succeeds, in their order;
      `probe` stands for the HEAD request made for each URL. */
  function FilterAlive(urls: seq<string>, probe: string -> ProbeOutcome): (alive: seq<string>)
    ensures |alive| <= |urls|
    ensures forall i :: 0 <= i < |alive| ==> alive[i] in urls && Alive(probe(alive[i]))
    ensures forall i :: 0 <= i < |urls| && Alive(probe(urls[i])) ==> urls[i] in alive
  {
    Filter(urls, (u: string) => Alive(probe(u)))
  }

  /** A reachable URL is kept as often as it occurs, an unreachable one
      never; filtering two lists one after the other keeps their order. */
  lemma FilterAliveCounts(a: seq<string>, b: seq<string>, probe: string -> ProbeOutcome, u: string)
    ensures multiset(FilterAlive(a, probe))[u] == if Alive(probe(u)) then multiset(a)[u] else 0
    ensures FilterAlive(a + b, probe) == FilterAlive(a, probe) + FilterAlive(b, probe)
  {
    FilterCount(a, (x: string) => Alive(probe(x)), u);
    FilterAppend(a, b, (x: string) => Alive(probe(x)));
  }

  // ---------------------------------------------------------------------
  // parse_plain_streaming (lines 90-108)
  // ---------------------------------------------------------------------

  /** The tests are on the stripped line and are case-sensitive; there is
      no comment syntax. */
  predicate IsNameLine(line: string)
  {
    StartsWith(line, "name:")
  }

  predicate IsUrlLine(line: string)
  {
    StartsWith(line, "url:")
  }

  /** `line.replace("name:", "").strip()`: every `name:` in the line is
      removed, not only the leading one; case and digits are kept. */
  function NameKey(line: string): string
  {
    Strip(Replace(line, "name:", ""))
  }

  /** The inner loop: `buckets.setdefault(key, []).append(u)` for each URL
      in turn; the bucket is only created when there is a URL. */
  function AddUrls(m: map<string, seq<string>>, key: string, urls: seq<string>): map<string, seq<string>>
  {
    if urls == [] then m else m[key := UrlsAt(m, key) + urls]
  }

  /** One pass of the line loop; `extract` stands for the `re.findall` of
      the `.m3u8` URLs in a line. */
  function ScanLine(st: Scan, raw: string, extract: string -> seq<string>): Scan
  {
    var line := Strip(raw);
    if IsNameLine(line) then st.(key := NameKey(line))
    else if IsUrlLine(line) && st.key != [] then st.(buckets := AddUrls(st.buckets, st.key, extract(line)))
    else st
  }

  function Scanned(lines: seq<string>, extract: string -> seq<string>): Scan
  {
    if lines == [] then Scan0
    else ScanLine(Scanned(lines[..|lines| - 1], extract), lines[|lines| - 1], extract)
  }

  /** The result of `parse_plain_streaming(text)`. */
  function Buckets(text: string, extract: string -> seq<string>): map<string, seq<string>>
  {
    Scanned(SplitLines(text), extract).buckets
  }

  lemma ScannedSnoc(lines: seq<string>, i: nat, extract: string -> seq<string>)
    requires i < |lines|
    ensures Scanned(lines[..i + 1], extract) == ScanLine(Scanned(lines[..i], extract), lines[i], extract)
  {
    assert lines[..i + 1][..i] == lines[..i];
  }

  /** The URL loop of one `url:` line (lines 104-107). */
  method AppendUrls(buckets0: map<string, seq<string>>, key: string, urls: seq<string>)
    returns (buckets: map<string, seq<string>>)
    ensures buckets == AddUrls(buckets0, key, urls)
  {
    buckets := buckets0;
    for j := 0 to |urls|
      invariant buckets == AddUrls(buckets0, key, urls[..j])
    {
      assert urls[..j + 1] == urls[..j] + [urls[j]];
      AppendAssoc(UrlsAt(buckets0, key), urls[..j], [urls[j]]);
      ghost var before := buckets;
      assert UrlsAt(before, key) == UrlsAt(buckets0, key) + urls[..j] by {
        if j == 0 {
          assert UrlsAt(buckets0, key) + urls[..j] == UrlsAt(buckets0, key);
        }
      }
      if key !in buckets {
        buckets := buckets[key := []];
      }
      buckets := buckets[key := buckets[key] + [urls[j]]];
      assert buckets == before[key := UrlsAt(before, key) + [urls[j]]];
    }
    assert urls[..|urls|] == urls;
  }

  method ParsePlainStreaming(text: string, extract: string -> seq<string>) returns (buckets: map<string, seq<string>>)
    ensures buckets == Buckets(text, extract)
  {
    var lines := SplitLines(text);
    buckets := map[];
    var currentKey := "";
    for i := 0 to |lines|
      invariant Scan(buckets, currentKey) == Scanned(lines[..i], extract)
    {
      ScannedSnoc(lines, i, extract);
      var line := Strip(lines[i]);
      if StartsWith(line, "name:") {
        currentKey := Strip(Replace(line, "name:", ""));
      } else if StartsWith(line, "url:") && currentKey != [] {
        buckets := AppendUrls(buckets, currentKey, extract(line));
      }
    }
    assert lines[..|lines|] == lines;
  }

  /** `current_key` after the lines: the key of the last `name:` line. */
  function KeyAfter(lines: seq<string>): string
  {
    if lines == [] then []
    else
      var line := Strip(lines[|lines| - 1]);
      if IsNameLine(line) then NameKey(line) else KeyAfter(lines[..|lines| - 1])
  }

  /** The URLs extracted from the `url:` lines under a `name:` line with
      key `k`, in order: the reference the buckets are checked against. */
  function UrlsUnder(lines: seq<string>, k: string, extract: string -> seq<string>): seq<string>
  {
    if lines == [] then []
    else
      var init := lines[..|lines| - 1];
      var line := Strip(lines[|lines| - 1]);
      var here := !IsNameLine(line) && IsUrlLine(line) && k != [] && KeyAfter(init) == k;
      UrlsUnder(init, k, extract) + (if here then extract(line) else [])
  }

  /** One line adds to the bucket `k` exactly the URLs it contributes under
      `k`. */
  lemma ScanLineByKey(st: Scan, raw: string, extract: string -> seq<string>, k: string)
    ensures var line := Strip(raw);
      var here := !IsNameLine(line) && IsUrlLine(line) && st.key != [] && st.key == k;
      var r := ScanLine(st, raw, extract);
      r.key == (if IsNameLine(line) then NameKey(line) else st.key)
      && (k in r.buckets <==> k in st.buckets || (here && extract(line) != []))
      && UrlsAt(r.buckets, k) == UrlsAt(st.buckets, k) + (if here then extract(line) else [])
  {
  }

  /** The loop collects, for every key, exactly the URLs under it. */
  lemma {:induction false} ScannedByKey(lines: seq<string>, extract: string -> seq<string>, k: string)
    ensures Scanned(lines, extract).key == KeyAfter(lines)
    ensures k in Scanned(lines, extract).buckets <==> UrlsUnder(lines, k, extract) != []
    ensures UrlsAt(Scanned(lines, extract).buckets, k) == UrlsUnder(lines, k, extract)
  {
    if lines != [] {
      var init := lines[..|lines| - 1];
      var raw := lines[|lines| - 1];
      ScannedByKey(init, extract, k);
      ScanLineByKey(Scanned(init, extract), raw, extract, k);
    }
  }

  /** A key has a bucket exactly when some URL was extracted under it, and
      the bucket holds every such URL in order, repetitions included. */
  lemma BucketContents(text: string, extract: string -> seq<string>, k: string)
    ensures var b := Buckets(text, extract);
      var u := UrlsUnder(SplitLines(text), k, extract);
      (k in b <==> u != []) && (k in b ==> b[k] == u)
  {
    ScannedByKey(SplitLines(text), extract, k);
  }

  /** Every bucket has a non-empty key and at least one URL. */
  predicate Filled(m: map<string, seq<string>>)
  {
    forall k :: k in m ==> k != [] && m[k] != []
  }

  lemma AddUrlsFilled(m: map<string, seq<string>>, key: string, urls: seq<string>)
    requires Filled(m) && key != []
    ensures Filled(AddUrls(m, key, urls))
  {
    if urls != [] {
      var m' := AddUrls(m, key, urls);
      forall k | k in m'
        ensures k != [] && m'[k] != []
      {
        if k == key {
          assert m'[k] == UrlsAt(m, key) + urls;
        } else {
          assert m'[k] == m[k];
        }
      }
    }
  }

  lemma {:induction false} BucketKeys(lines: seq<string>, extract: string -> seq<string>)
    ensures Filled(Scanned(lines, extract).buckets)
  {
    if lines != [] {
      var init := lines[..|lines| - 1];
      BucketKeys(init, extract);
      var st := Scanned(init, extract);
      var line := Strip(lines[|lines| - 1]);
      if !IsNameLine(line) && IsUrlLine(line) && st.key != [] {
        AddUrlsFilled(st.buckets, st.key, extract(line));
      }
    }
  }

  /** A line `name: <v>` selects the bucket `v` itself, when `v` is
      stripped and does not contain `name:`. */
  lemma NameLineKey(v: string, st: Scan, extract: string -> seq<string>)
    requires Stripped(v) && Absent(v, "name:")
    ensures ScanLine(st, "name: " + v, extract).key == v
  {
    var line := "name: " + v;
    assert Strip(line) == line by {
      assert line[0] == 'n' && line[|line| - 1] == v[|v| - 1];
      StripPadded([], line);
      assert [] + line == line;
    }
    NamePrefixLine(v);
    NameKeyOfLine(v);
  }

  lemma NamePrefixLine(v: string)
    ensures IsNameLine("name: " + v)
  {
    assert ("name: " + v)[..5] == "name:";
  }

  lemma NameKeyOfLine(v: string)
    requires Stripped(v) && Absent(v, "name:")
    ensures NameKey("name: " + v) == v
  {
    RemoveNamePrefix(v);
    StripPadded(" ", v);
  }

  /** Removing every `name:` from `name: <v>` leaves ` <v>`. */
  lemma RemoveNamePrefix(v: string)
    requires Absent(v, "name:")
    ensures Replace("name: " + v, "name:", "") == " " + v
  {
    var line := "name: " + v;
    var rest := " " + v;
    assert line[..5] == "name:" && line[5..] == rest;
    assert Absent(rest, "name:") by {
      assert rest[1..] == v;
      assert rest[0] == ' ';
    }
    ReplaceAbsentPattern(rest, "name:", "");
    assert "" + rest == rest;
  }


  // ---------------------------------------------------------------------
  // parse_matches (lines 181-232)
  // ---------------------------------------------------------------------

  /** The tests after the header pattern, in the order of the chain; the
      first pattern that recognises the stripped line sets its field. The
      logo and score patterns are searched anywhere in the line. */
  function Annotate(cur: Fixture, line: string): Fixture
  {
    var start := Searched(line, StartTag, StartTail);
    if start.Some? then cur.(date := Some(start.value.date), time := Some(start.value.time))
    else
      var t := Anchored(line, TournamentTag, LazyRest);
      if t.Some? then cur.(tournament := Some(t.value))
      else
        var c := Searched(line, ChannelsTag, LazyRest);
        if c.Some? then cur.(channels := Some(ChannelList(c.value)))
        else
          var hl := Searched(line, HomeLogoTag, LogoTail);
          if hl.Some? then cur.(homeLogo := Some(hl.value))
          else
            var al := Searched(line, AwayLogoTag, LogoTail);
            if al.Some? then cur.(awayLogo := Some(al.value))
            else
              var sc := Searched(line, ScoreTag, ScoreTail);
              if sc.Some? then cur.(score := Some(ScoreValue(sc.value))) else cur
  }

  /** One pass of the line loop. A header flushes `cur` and starts a new
      record; any other tag line sets its field of `cur` even when `cur` is
      empty, which starts a record without teams. */
  function Step(st: Parse, raw: string): Parse
  {
    var line := Strip(raw);
    if line == [] then st
    else if HeaderOf(line).Some? then Parse(Flushed(st), Started(HeaderOf(line).value))
    else st.(cur := Annotate(st.cur, line))
  }

  function ParsedFrom(st: Parse, lines: seq<string>): Parse
  {
    if lines == [] then st else Step(ParsedFrom(st, lines[..|lines| - 1]), lines[|lines| - 1])
  }

  /** The records `parse_matches` returns for the lines, after the final
      flush. */
  function ParseLines(lines: seq<string>): seq<Fixture>
  {
    Flushed(ParsedFrom(Start0, lines))
  }

  lemma ParsedSnoc(lines: seq<string>, i: nat)
    requires i < |lines|
    ensures ParsedFrom(Start0, lines[..i + 1]) == Step(ParsedFrom(Start0, lines[..i]), lines[i])
  {
    assert lines[..i + 1][..i] == lines[..i];
  }

  lemma StepHeader(st: Parse, raw: string, t: Teams)
    requires Strip(raw) != [] && HeaderOf(Strip(raw)) == Some(t)
    ensures Step(st, raw) == Parse(Flushed(st), Started(t))
  {
  }

  lemma StepTag(st: Parse, raw: string)
    requires Strip(raw) != [] && HeaderOf(Strip(raw)).None?
    ensures Step(st, raw) == st.(cur := Annotate(st.cur, Strip(raw)))
  {
  }

  /** One pass of the line loop of `parse_matches`. */
  method ReadLine(matches0: seq<Fixture>, cur0: Fixture, raw: string) returns (matches: seq<Fixture>, cur: Fixture)
    ensures Parse(matches, cur) == Step(Parse(matches0, cur0), raw)
  {
    matches, cur := matches0, cur0;
    var line := Strip(raw);
    if line == [] {
      return;
    }
    var h := HeaderOf(line);
    if h.Some? {
      matches, cur := StartRecord(matches, cur, h.value);
      StepHeader(Parse(matches0, cur0), raw, h.value);
      return;
    }
    cur := ReadTag(cur, line);
    StepTag(Parse(matches0, cur0), raw);
  }

  /** The tests of the chain after the header pattern. */
  method ReadTag(cur0: Fixture, line: string) returns (cur: Fixture)
    ensures cur == Annotate(cur0, line)
  {
    cur := cur0;
    var start := Searched(line, StartTag, StartTail);
    if start.Some? {
      cur := cur.(date := Some(start.value.date), time := Some(start.value.time));
      return;
    }
    var t := Anchored(line, TournamentTag, LazyRest);
    if t.Some? {
      cur := cur.(tournament := Some(t.value));
      return;
    }
    var c := Searched(line, ChannelsTag, LazyRest);
    if c.Some? {
      cur := cur.(channels := Some(ChannelList(c.value)));
      return;
    }
    var hl := Searched(line, HomeLogoTag, LogoTail);
    if hl.Some? {
      cur := cur.(homeLogo := Some(hl.value));
      return;
    }
    var al := Searched(line, AwayLogoTag, LogoTail);
    if al.Some? {
      cur := cur.(awayLogo := Some(al.value));
      return;
    }
    var sc := Searched(line, ScoreTag, ScoreTail);
    if sc.Some? {
      cur := cur.(score := Some(ScoreValue(sc.value)));
    }
  }

  /** The line loop of `parse_matches`. */
  method ReadLines(lines: seq<string>) returns (matches: seq<Fixture>, cur: Fixture)
    ensures Parse(matches, cur) == ParsedFrom(Start0, lines)
  {
    matches := [];
    cur := Blank;
    for i := 0 to |lines|
      invariant Parse(matches, cur) == ParsedFrom(Start0, lines[..i])
    {
      ParsedSnoc(lines, i);
      matches, cur := ReadLine(matches, cur, lines[i]);
    }
    assert lines[..|lines|] == lines;
  }

  method ParseMatches(text: string) returns (matches: seq<Fixture>)
    ensures matches == ParseLines(SplitLines(text))
  {
    var cur;
    matches, cur := ReadLines(SplitLines(text));
    if cur != Blank {
      matches := matches + [cur];
    }
  }

  /** The tag tests never change the teams of a record and never empty it. */
  lemma AnnotateKeeps(cur: Fixture, line: string)
    ensures Annotate(cur, line).home == cur.home && Annotate(cur, line).away == cur.away
    ensures cur != Blank ==> Annotate(cur, line) != Blank
  {
  }

  /** `r` has the finished records of `st` and a `cur` with the same teams
      that is non-empty when the old one was. */
  predicate KeepsTeams(st: Parse, r: Parse)
  {
    r.matches == st.matches && r.cur.home == st.cur.home && r.cur.away == st.cur.away
    && (st.cur != Blank ==> r.cur != Blank)
  }

  /** A header line flushes `cur` and starts a record; any other line
      keeps the finished records and the teams of `cur`. */
  lemma StepShape(st: Parse, raw: string)
    ensures var line := Strip(raw);
      var h := HeaderOf(line);
      var r := Step(st, raw);
      (line != [] && h.Some? ==> r == Parse(Flushed(st), Started(h.value)))
      && (line == [] || h.None? ==> KeepsTeams(st, r))
  {
    AnnotateKeeps(st.cur, Strip(raw));
  }

  /** Only the first record may lack teams: every later finished record is
      headed, and so is `cur` once a record has been finished. */
  predicate HeadedAfterFirst(st: Parse)
  {
    (forall i :: 1 <= i < |st.matches| ==> Headed(st.matches[i]))
    && (st.matches != [] ==> Headed(st.cur))
  }

  lemma HeadedTeamsSnoc(a: seq<Fixture>, f: Fixture)
    ensures HeadedTeams(a + [f]) == HeadedTeams(a) + (if Headed(f) then [Teams(f.home.value, f.away.value)] else [])
  {
    assert (a + [f])[..|a|] == a;
  }

  lemma HeadedAfter(st: Parse, r: Parse, h: Option<Teams>)
    requires HeadedAfterFirst(st)
    requires h.Some? ==> h.value.home != [] && h.value.away != [] && r == Parse(Flushed(st), Started(h.value))
    requires h.None? ==> KeepsTeams(st, r)
    ensures HeadedAfterFirst(r)
    ensures HeadedTeams(Flushed(r)) == HeadedTeams(Flushed(st)) + (if h.Some? then [h.value] else [])
  {
    if h.Some? {
      HeadedAfterHeader(st, h.value);
    } else {
      HeadedAfterTag(st, r);
      assert HeadedTeams(Flushed(st)) + [] == HeadedTeams(Flushed(st));
    }
  }

  lemma HeadedAfterHeader(st: Parse, t: Teams)
    requires HeadedAfterFirst(st)
    requires t.home != [] && t.away != []
    ensures HeadedAfterFirst(Parse(Flushed(st), Started(t)))
    ensures HeadedTeams(Flushed(Parse(Flushed(st), Started(t)))) == HeadedTeams(Flushed(st)) + [t]
  {
    var f := Started(t);
    assert Headed(f) && f != Blank;
    HeadedTeamsSnoc(Flushed(st), f);
  }

  lemma HeadedAfterTag(st: Parse, r: Parse)
    requires HeadedAfterFirst(st)
    requires KeepsTeams(st, r)
    ensures HeadedAfterFirst(r)
    ensures HeadedTeams(Flushed(r)) == HeadedTeams(Flushed(st))
  {
    assert Headed(r.cur) <==> Headed(st.cur);
    if st.cur != Blank {
      HeadedTeamsSnoc(st.matches, r.cur);
      HeadedTeamsSnoc(st.matches, st.cur);
    } else {
      assert Flushed(st) == st.matches;
      assert !Headed(r.cur);
      if r.cur != Blank {
        HeadedTeamsSnoc(st.matches, r.cur);
      } else {
        assert Flushed(r) == st.matches;
      }
    }
  }

  lemma HeadedStep(st: Parse, raw: string)
    requires HeadedAfterFirst(st)
    ensures var h := HeaderOf(Strip(raw));
      HeadedAfterFirst(Step(st, raw))
      && HeadedTeams(Flushed(Step(st, raw))) == HeadedTeams(Flushed(st)) + (if h.Some? then [h.value] else [])
  {
    StepShape(st, raw);
    assert HeaderOf([]).None?;
    HeadedAfter(st, Step(st, raw), HeaderOf(Strip(raw)));
  }

  /** The headed records carry the teams of the header lines read so far,
      in order. */
  lemma {:induction false} ParsedHeaded(lines: seq<string>)
    ensures HeadedAfterFirst(ParsedFrom(Start0, lines))
    ensures HeadedTeams(Flushed(ParsedFrom(Start0, lines))) == HeaderTeams(lines)
  {
    if lines != [] {
      var init := lines[..|lines| - 1];
      ParsedHeaded(init);
      HeadedStep(ParsedFrom(Start0, init), lines[|lines| - 1]);
    }
  }

  /** Flushing keeps every record after the first headed. */
  lemma FlushedHeaded(st: Parse)
    requires HeadedAfterFirst(st)
    ensures var r := Flushed(st);
      forall i :: 1 <= i < |r| ==> Headed(r[i])
  {
  }

  /** 1 when the first record lacks teams, 0 otherwise. */
  function Orphans(records: seq<Fixture>): nat
  {
    if records != [] && !Headed(records[0]) then 1 else 0
  }

  /** `r` holds one record per entry of `ts`, in order, with its teams,
      preceded by at most one record without teams. */
  predicate RecordsFollow(r: seq<Fixture>, ts: seq<Teams>)
  {
    var off := Orphans(r);
    |r| == |ts| + off
    && forall i :: off <= i < |r| ==>
      Headed(r[i]) && r[i].home == Some(ts[i - off].home) && r[i].away == Some(ts[i - off].away)
  }

  /** When only the first record may lack teams, the teams of the headed
      records are those of all records after the orphan, in order. */
  lemma HeadedTeamsAfterFirst(r: seq<Fixture>)
    requires forall i :: 1 <= i < |r| ==> Headed(r[i])
    ensures RecordsFollow(r, HeadedTeams(r))
  {
    if Orphans(r) == 0 {
      assert forall i :: 0 <= i < |r| ==> Headed(r[i]) by {
        assert r == [] || Headed(r[0]);
      }
      RecordsFollowAll(r);
    } else {
      RecordsFollowOrphan(r);
    }
  }

  lemma RecordsFollowAll(r: seq<Fixture>)
    requires forall i :: 0 <= i < |r| ==> Headed(r[i])
    ensures RecordsFollow(r, HeadedTeams(r))
  {
    HeadedTeamsAll(r);
    assert Orphans(r) == 0;
  }

  lemma RecordsFollowOrphan(r: seq<Fixture>)
    requires r != [] && !Headed(r[0])
    requires forall i :: 1 <= i < |r| ==> Headed(r[i])
    ensures RecordsFollow(r, HeadedTeams(r))
  {
    HeadedTeamsOrphan(r);
    assert Orphans(r) == 1;
  }

  lemma HeadedTeamsOrphan(r: seq<Fixture>)
    requires r != [] && !Headed(r[0])
    requires forall i :: 1 <= i < |r| ==> Headed(r[i])
    ensures |HeadedTeams(r)| == |r| - 1
    ensures forall i :: 1 <= i < |r| ==> Headed(r[i]) && HeadedTeams(r)[i - 1] == Teams(r[i].home.value, r[i].away.value)
  {
    var tail := r[1..];
    assert forall i :: 0 <= i < |tail| ==> Headed(tail[i]) by {
      forall i | 0 <= i < |tail|
        ensures Headed(tail[i])
      {
        assert tail[i] == r[i + 1];
      }
    }
    HeadedTeamsAll(tail);
    HeadedTeamsDropOrphan(r);
    forall i | 1 <= i < |r|
      ensures HeadedTeams(r)[i - 1] == Teams(r[i].home.value, r[i].away.value)
    {
      assert tail[i - 1] == r[i];
    }
  }

  /** A first record without teams contributes no teams. */
  lemma HeadedTeamsDropOrphan(r: seq<Fixture>)
    requires r != [] && !Headed(r[0])
    ensures HeadedTeams(r) == HeadedTeams(r[1..])
  {
    assert r == [r[0]] + r[1..];
    HeadedTeamsAppend([r[0]], r[1..]);
    HeadedTeamsSnoc([], r[0]);
    assert [] + [r[0]] == [r[0]];
  }

  /** `parse_matches` returns one record per header line, in input order,
      each with the teams its header names, preceded by one record without
      teams when a tag line comes before the first header. */
  lemma ParseMatchesRecords(lines: seq<string>)
    ensures RecordsFollow(ParseLines(lines), HeaderTeams(lines))
  {
    ParsedHeaded(lines);
    FlushedHeaded(ParsedFrom(Start0, lines));
    HeadedTeamsAfterFirst(ParseLines(lines));
  }

  lemma {:induction false} ParsedFromAppend(st: Parse, a: seq<string>, b: seq<string>)
    ensures ParsedFrom(st, a + b) == ParsedFrom(ParsedFrom(st, a), b)
    decreases |b|
  {
    if b == [] {
      assert a + b == a;
    } else {
      var b' := b[..|b| - 1];
      assert (a + b)[..|a + b| - 1] == a + b';
      assert (a + b)[|a + b| - 1] == b[|b| - 1];
      ParsedFromAppend(st, a, b');
    }
  }

  /** The first record, finished or not, has no home team. */
  predicate OrphanFirst(st: Parse)
  {
    if st.matches != [] then st.matches[0].home.None? else st.cur != Blank && st.cur.home.None?
  }

  lemma OrphanStep(st: Parse, raw: string)
    requires OrphanFirst(st)
    ensures OrphanFirst(Step(st, raw))
  {
    StepShape(st, raw);
    var line := Strip(raw);
    if line != [] && HeaderOf(line).Some? {
      assert Flushed(st)[0] == if st.matches != [] then st.matches[0] else st.cur;
    }
  }

  lemma {:induction false} OrphanStays(st: Parse, lines: seq<string>)
    requires OrphanFirst(st)
    ensures OrphanFirst(ParsedFrom(st, lines))
  {
    if lines != [] {
      OrphanStays(st, lines[..|lines| - 1]);
      OrphanStep(ParsedFrom(st, lines[..|lines| - 1]), lines[|lines| - 1]);
    }
  }

  /** A tag line before the first header (a start time, say) starts a
      record without teams, and it stays the first record returned. */
  lemma OrphanTag(raw: string, rest: seq<string>)
    requires Strip(raw) != [] && HeaderOf(Strip(raw)).None?
    requires Annotate(Blank, Strip(raw)) != Blank
    ensures ParseLines([raw] + rest) != [] && ParseLines([raw] + rest)[0].home.None?
  {
    assert ParsedFrom(Start0, [raw]) == Parse([], Annotate(Blank, Strip(raw))) by {
      assert [raw][..0] == [];
    }
    AnnotateKeeps(Blank, Strip(raw));
    ParsedFromAppend(Start0, [raw], rest);
    OrphanStays(ParsedFrom(Start0, [raw]), rest);
    var st := ParsedFrom(Start0, [raw] + rest);
    assert Flushed(st)[0] == if st.matches != [] then st.matches[0] else st.cur;
  }

  /** For instance a start line, which sets the date and time. */
  lemma StartLineAnnotates(line: string)
    requires Searched(line, StartTag, StartTail).Some?
    ensures Annotate(Blank, line) != Blank
  {
  }

  // ---------------------------------------------------------------------
  // build_channel_map (lines 134-164): merge, keep the first reachable URL
  // ---------------------------------------------------------------------

  /** The records of the sources, in order; `parse` stands for
      `json.loads` of the decoded bytes. The first source it rejects ends
      the run, since the exception is not caught. */
  function Sources(raws: seq<string>, parse: seq<nat> -> Option<seq<ChannelRecord>>): Result<seq<ChannelRecord>, Failure>
  {
    if raws == [] then Success([])
    else
      var init := Sources(raws[..|raws| - 1], parse);
      var recs := parse(Decode(raws[|raws| - 1]));
      if init.Failure? then init
      else if recs.None? then Failure(NotJson(|raws| - 1))
      else Success(init.value + recs.value)
  }

  /** `{name: alive[0] ...}`: every name with a reachable URL maps to the
      first reachable one; the other names are dropped. */
  function FirstAliveUrls(merged: map<string, seq<string>>, probe: string -> ProbeOutcome): map<string, string>
  {
    map n | n in merged && FilterAlive(merged[n], probe) != [] :: FilterAlive(merged[n], probe)[0]
  }

  /** The collapse loop (lines 157-162). */
  method CollapseAlive(merged: map<string, seq<string>>, probe: string -> ProbeOutcome) returns (cleaned: map<string, string>)
    ensures cleaned == FirstAliveUrls(merged, probe)
  {
    cleaned := map[];
    var todo := merged.Keys;
    while todo != {}
      invariant todo <= merged.Keys
      invariant cleaned == map n | n in merged && n !in todo && FilterAlive(merged[n], probe) != [] :: FilterAlive(merged[n], probe)[0]
      decreases |todo|
    {
      var name :| name in todo;
      var alive := FilterAlive(merged[name], probe);
      if alive != [] {
        cleaned := cleaned[name := alive[0]];
      }
      todo := todo - {name};
    }
  }

  /** Once a source is rejected, later sources do not matter. */
  lemma {:induction false} SourcesStop(raws: seq<string>, parse: seq<nat> -> Option<seq<ChannelRecord>>, n: nat)
    requires n <= |raws| && Sources(raws[..n], parse).Failure?
    ensures Sources(raws, parse) == Sources(raws[..n], parse)
    decreases |raws| - n
  {
    if n < |raws| {
      assert raws[..n + 1][..n] == raws[..n];
      SourcesStop(raws, parse, n + 1);
    } else {
      assert raws[..n] == raws;
    }
  }

  method BuildChannelMap(raws: seq<string>, parse: seq<nat> -> Option<seq<ChannelRecord>>, probe: string -> ProbeOutcome)
    returns (r: Result<map<string, string>, Failure>)
    ensures Sources(raws, parse).Failure? ==> r == Failure(Sources(raws, parse).error)
    ensures Sources(raws, parse).Success? ==> r == Success(FirstAliveUrls(Merged(map[], Sources(raws, parse).value), probe))
  {
    var merged: map<string, seq<string>> := map[];
    for i := 0 to |raws|
      invariant Sources(raws[..i], parse).Success?
      invariant merged == Merged(map[], Sources(raws[..i], parse).value)
    {
      assert raws[..i + 1][..i] == raws[..i];
      var decoded := DecodePayload(raws[i]);
      var channels := parse(decoded);
      if channels.None? {
        SourcesStop(raws, parse, i + 1);
        return Failure(NotJson(i));
      }
      MergedAppend(map[], Sources(raws[..i], parse).value, channels.value);
      merged := MergeRecords(merged, channels.value);
    }
    assert raws[..|raws|] == raws;
    var cleaned := CollapseAlive(merged, probe);
    r := Success(cleaned);
  }

  /** The build gets past the sources exactly when `json.loads` accepts
      every one of them; otherwise it fails at the first one rejected. */
  lemma {:induction false} SourceIndex(raws: seq<string>, parse: seq<nat> -> Option<seq<ChannelRecord>>)
    ensures Sources(raws, parse).Success? <==> forall k :: 0 <= k < |raws| ==> parse(Decode(raws[k])).Some?
    ensures Sources(raws, parse).Failure? ==> FirstRejected(raws, parse, Sources(raws, parse).error)
  {
    if raws != [] {
      var init := raws[..|raws| - 1];
      SourceIndex(init, parse);
      assert forall k :: 0 <= k < |init| ==> raws[k] == init[k];
    }
  }

  /** `e` names the first source `parse` rejects. */
  predicate FirstRejected(raws: seq<string>, parse: seq<nat> -> Option<seq<ChannelRecord>>, e: Failure)
  {
    e.NotJson? && e.source < |raws| && parse(Decode(raws[e.source])).None?
    && forall k :: 0 <= k < e.source ==> parse(Decode(raws[k])).Some?
  }

  /** A name is in the catalog exactly when one of its URLs is
      reachable, and it maps to the first reachable one: every URL the
      records give it before that one is unreachable. */
  lemma ChannelMapAt(recs: seq<ChannelRecord>, probe: string -> ProbeOutcome, n: string) returns (j: nat)
    ensures var c := FirstAliveUrls(Merged(map[], recs), probe);
      var alive := FilterAlive(UrlsFor(recs, n), probe);
      (n in c <==> alive != [])
      && (n in c ==> c[n] == alive[0] && j < |UrlsFor(recs, n)| && UrlsFor(recs, n)[j] == c[n] && Alive(probe(c[n])))
    ensures forall i :: 0 <= i < j && i < |UrlsFor(recs, n)| ==> !Alive(probe(UrlsFor(recs, n)[i]))
  {
    CatalogGroups(recs, n);
    var us := UrlsFor(recs, n);
    j := 0;
    if FilterAlive(us, probe) != [] {
      j := FilterFirst(us, (u: string) => Alive(probe(u)));
    }
  }

  // ---------------------------------------------------------------------
  // merge_plain_m3u8 (lines 292-328)
  // ---------------------------------------------------------------------

  /** `list(set(possible_keys))`: the match name with "Vs", "vs" and "v",
      its base name without a final number, and the normalized form of
      each. */
  function CandidateKeys(home: string, away: string): set<string>
  {
    var name := home + " Vs " + away;
    var spellings := {name, home + " vs " + away, home + " v " + away, BaseName(name)};
    spellings + set k | k in spellings :: NormalizeKeyGen(k)
  }

  /** The match name, its normalized form and its base name are among the
      keys tried; when the away team ends in ` <number>`, the name without
      that number is one of them. */
  lemma CandidateKeysInclude(home: string, away: string)
    ensures var name := home + " Vs " + away;
      var keys := CandidateKeys(home, away);
      name in keys && NormalizeKey(name) in keys && BaseName(name) in keys
  {
    NormalizeKeyGenAgrees(home + " Vs " + away);
  }

  lemma CandidateKeysNumbered(home: string, team: string, w: string, digits: string)
    requires team != [] && !IsSpace(team[|team| - 1])
    requires w != [] && AllSpace(w)
    requires digits != [] && AllDigits(digits)
    ensures home + " Vs " + team in CandidateKeys(home, team + w + digits)
  {
    var name := home + " Vs " + team;
    assert name[|name| - 1] == team[|team| - 1];
    BaseNameNumbered(name, w, digits);
    assert home + " Vs " + (team + w + digits) == name + w + digits;
  }

  /** A playlist line `name: <home> Vs <away>` fills a bucket that the
      merge tries for a record of those teams. */
  lemma NamedBucketIsCandidate(home: string, away: string, st: Scan, extract: string -> seq<string>)
    requires Stripped(home + " Vs " + away) && Absent(home + " Vs " + away, "name:")
    ensures ScanLine(st, "name: " + (home + " Vs " + away), extract).key in CandidateKeys(home, away)
  {
    NameLineKey(home + " Vs " + away, st, extract);
    CandidateKeysInclude(home, away);
  }

  predicate HasTeams(f: Fixture)
  {
    f.home.Some? && f.away.Some?
  }

  predicate IsDirect(s: Stream)
  {
    StartsWith(s.name, "Direct Stream")
  }

  /** `len([s for s in streams if s['name'].startswith('Direct Stream')])`. */
  function DirectCount(streams: seq<Stream>): nat
  {
    if streams == [] then 0
    else DirectCount(streams[..|streams| - 1]) + (if IsDirect(streams[|streams| - 1]) then 1 else 0)
  }

  /** The name of the next direct stream, after `count` of them. */
  function DirectLabel(count: nat): string
  {
    "Direct Stream " + NatToString(count + 1)
  }

  /** The streams appended for the reachable URLs `alive` of the chosen
      bucket: URLs among the record's streams before the loop are skipped,
      and each appended stream is numbered after the direct streams the
      record has at that moment. */
  function Added(base: seq<Stream>, alive: seq<string>, existing: set<string>): seq<Stream>
  {
    if alive == [] then []
    else
      var add := Added(base, alive[..|alive| - 1], existing);
      var u := alive[|alive| - 1];
      add + (if u in existing then [] else [Stream(DirectLabel(DirectCount(base + add)), u)])
  }

  /** The record after the bucket `urls` has been merged into it. */
  function MergeBucket(f: Fixture, urls: seq<string>, probe: string -> ProbeOutcome): Fixture
  {
    Extend(f, Added(StreamsOf(f), FilterAlive(urls, probe), UrlSet(StreamsOf(f))))
  }

  /** What `merge_plain_m3u8` may make of one record: the first candidate
      key with a non-empty bucket is merged, and since the candidates are
      tried in the arbitrary order of a set, that is any candidate with a
      non-empty bucket; without one, the record is unchanged. */
  predicate MergedRecord(f: Fixture, g: Fixture, buckets: map<string, seq<string>>, probe: string -> ProbeOutcome)
    requires HasTeams(f)
  {
    var keys := CandidateKeys(f.home.value, f.away.value);
    ((forall k :: k in keys ==> UrlsAt(buckets, k) == []) && g == f)
    || (exists k :: k in keys && UrlsAt(buckets, k) != [] && g == MergeBucket(f, UrlsAt(buckets, k), probe))
  }

  lemma DirectLabelIsDirect(count: nat, url: string)
    ensures IsDirect(Stream(DirectLabel(count), url))
  {
    var l := DirectLabel(count);
    assert l[..13] == "Direct Stream";
  }

  lemma AddedSnoc(base: seq<Stream>, alive: seq<string>, existing: set<string>, j: nat)
    requires j < |alive|
    ensures var add := Added(base, alive[..j], existing);
      Added(base, alive[..j + 1], existing)
        == add + (if alive[j] in existing then [] else [Stream(DirectLabel(DirectCount(base + add)), alive[j])])
  {
    assert alive[..j + 1][..j] == alive[..j];
  }

  lemma DirectCountSnoc(s: seq<Stream>, x: Stream)
    ensures DirectCount(s + [x]) == DirectCount(s) + (if IsDirect(x) then 1 else 0)
  {
    assert (s + [x])[..|s|] == s;
  }

  /** `add` names the URLs `kept` "Direct Stream <n>" from `start + 1` on. */
  predicate Numbered(add: seq<Stream>, kept: seq<string>, start: nat)
  {
    |add| == |kept| && forall j :: 0 <= j < |add| ==> add[j] == Stream(DirectLabel(start + j), kept[j])
  }

  lemma NumberedSnoc(add: seq<Stream>, kept: seq<string>, start: nat, name: string, u: string)
    requires Numbered(add, kept, start) && name == DirectLabel(start + |add|)
    ensures Numbered(add + [Stream(name, u)], kept + [u], start)
  {
  }

  /** The URLs of `alive` outside `existing`, in order and as often as
      they occur. */
  function Unseen(alive: seq<string>, existing: set<string>): seq<string>
  {
    if alive == [] then []
    else
      var u := alive[|alive| - 1];
      Unseen(alive[..|alive| - 1], existing) + (if u in existing then [] else [u])
  }

  lemma {:induction false} UnseenMembers(alive: seq<string>, existing: set<string>)
    ensures forall x :: x in Unseen(alive, existing) <==> x in alive && x !in existing
  {
    if alive != [] {
      var init := alive[..|alive| - 1];
      UnseenMembers(init, existing);
      assert alive == init + [alive[|alive| - 1]];
    }
  }

  /** The appended streams are the reachable URLs that were not present,
      named "Direct Stream <n>" with consecutive numbers after the direct
      streams already there. */
  lemma {:induction false} AddedShape(base: seq<Stream>, alive: seq<string>, existing: set<string>)
    ensures var add := Added(base, alive, existing);
      Numbered(add, Unseen(alive, existing), DirectCount(base))
      && DirectCount(base + add) == DirectCount(base) + |add|
  {
    if alive == [] {
      assert base + [] == base;
    } else {
      var init := alive[..|alive| - 1];
      var u := alive[|alive| - 1];
      AddedShape(base, init, existing);
      var add := Added(base, init, existing);
      if u in existing {
        assert Added(base, alive, existing) == add;
        assert Unseen(alive, existing) == Unseen(init, existing);
      } else {
        var name := DirectLabel(DirectCount(base + add));
        var st := Stream(name, u);
        NumberedSnoc(add, Unseen(init, existing), DirectCount(base), name, u);
        DirectLabelIsDirect(DirectCount(base + add), u);
        AppendAssoc(base, add, [st]);
        DirectCountSnoc(base + add, st);
      }
    }
  }

  /** The URLs that a bucket adds are its reachable URLs that the record
      did not already carry. */
  lemma UnseenAlive(urls: seq<string>, probe: string -> ProbeOutcome, existing: set<string>)
    ensures forall x :: x in Unseen(FilterAlive(urls, probe), existing) <==> x in urls && Alive(probe(x)) && x !in existing
  {
    UnseenMembers(FilterAlive(urls, probe), existing);
  }

  /** The merge keeps every field but `streams` and the streams already
      there as a prefix, and appends the bucket's reachable URLs that were
      not there, numbered on from the record's direct streams. */
  lemma MergeBucketShape(f: Fixture, urls: seq<string>, probe: string -> ProbeOutcome)
    ensures var g := MergeBucket(f, urls, probe);
      var prior := StreamsOf(f);
      g.(streams := f.streams) == f
      && |prior| <= |StreamsOf(g)| && StreamsOf(g)[..|prior|] == prior
      && Numbered(StreamsOf(g)[|prior|..], Unseen(FilterAlive(urls, probe), UrlSet(prior)), DirectCount(prior))
  {
    var prior := StreamsOf(f);
    var add := Added(prior, FilterAlive(urls, probe), UrlSet(prior));
    StreamsOfExtend(f, add);
    AddedShape(prior, FilterAlive(urls, probe), UrlSet(prior));
    assert (prior + add)[|prior|..] == add;
    assert (prior + add)[..|prior|] == prior;
  }

  /** The URL loop for the chosen bucket (lines 319-327). */
  method AppendDirect(m0: Fixture, alive: seq<string>) returns (m: Fixture)
    ensures m == Extend(m0, Added(StreamsOf(m0), alive, UrlSet(StreamsOf(m0))))
  {
    m := m0;
    var existing := UrlSet(StreamsOf(m0));
    for j := 0 to |alive|
      invariant m == Extend(m0, Added(StreamsOf(m0), alive[..j], existing))
    {
      var add := Added(StreamsOf(m0), alive[..j], existing);
      AddedSnoc(StreamsOf(m0), alive, existing, j);
      StreamsOfExtend(m0, add);
      var u := alive[j];
      if u !in existing {
        var name := DirectLabel(DirectCount(StreamsOf(m)));
        ExtendSnoc(m0, add, Stream(name, u));
        m := m.(streams := Some(StreamsOf(m) + [Stream(name, u)]));
      } else {
        assert add + [] == add;
      }
    }
    assert alive[..|alive|] == alive;
  }

  /** The loop over the candidate keys of one record (lines 316-328). */
  method MergeOne(m0: Fixture, buckets: map<string, seq<string>>, probe: string -> ProbeOutcome) returns (m: Fixture)
    requires HasTeams(m0)
    ensures MergedRecord(m0, m, buckets, probe)
  {
    var keys := CandidateKeys(m0.home.value, m0.away.value);
    var todo := keys;
    while todo != {}
      invariant todo <= keys
      invariant forall k :: k in keys && k !in todo ==> UrlsAt(buckets, k) == []
      decreases |todo|
    {
      var key :| key in todo;
      var urls := if key in buckets then buckets[key] else [];
      if urls != [] {
        var alive := FilterAlive(urls, probe);
        m := AppendDirect(m0, alive);
        assert key in keys && UrlsAt(buckets, key) != [] && m == MergeBucket(m0, UrlsAt(buckets, key), probe);
        return;
      }
      todo := todo - {key};
    }
    m := m0;
  }

  /** The records before `k` are merged, the others are as they were. */
  predicate MergedUpTo(before: seq<Fixture>, after: seq<Fixture>, k: nat, buckets: map<string, seq<string>>, probe: string -> ProbeOutcome)
  {
    |after| == |before| && k <= |before|
    && (forall i :: 0 <= i < k ==> HasTeams(before[i]) && MergedRecord(before[i], after[i], buckets, probe))
    && (forall i :: k <= i < |before| ==> after[i] == before[i])
  }

  /** Merging record `k` extends the merged prefix by one. */
  lemma MergedUpToStep(before: seq<Fixture>, after: seq<Fixture>, k: nat, m: Fixture,
                       buckets: map<string, seq<string>>, probe: string -> ProbeOutcome)
    requires MergedUpTo(before, after, k, buckets, probe) && k < |before|
    requires HasTeams(before[k]) && MergedRecord(before[k], m, buckets, probe)
    ensures MergedUpTo(before, after[k := m], k + 1, buckets, probe)
  {
  }

  /** `merge_plain_m3u8`: updates the records in place; the first record
      without `home` or `away` raises a `KeyError` (line 301), leaving the
      records before it merged and the rest untouched. */
  method MergePlain(a: array<Fixture>, buckets: map<string, seq<string>>, probe: string -> ProbeOutcome)
    returns (failure: Option<nat>)
    modifies a
    ensures failure.None? ==> MergedUpTo(old(a[..]), a[..], a.Length, buckets, probe)
    ensures failure.Some? ==> failure.value < a.Length && !HasTeams(old(a[failure.value]))
    ensures failure.Some? ==> MergedUpTo(old(a[..]), a[..], failure.value, buckets, probe)
  {
    ghost var orig := a[..];
    for i := 0 to a.Length
      invariant MergedUpTo(orig, a[..], i, buckets, probe)
    {
      if !HasTeams(a[i]) {
        return Some(i);
      }
      var m := MergeOne(a[i], buckets, probe);
      ghost var prev := a[..];
      MergedUpToStep(orig, prev, i, m, buckets, probe);
      a[i] := m;
      assert a[..] == prev[i := m];
    }
    failure := None;
  }

  // ---------------------------------------------------------------------
  // build_final_json (lines 260-286)
  // ---------------------------------------------------------------------

  /** The first of the keys `m['home']`, `m['away']`, `m['date']` and
      `m['time']` that the record lacks, in the order they are read. */
  function FirstMissing(m: Fixture): Option<string>
  {
    if m.home.None? then Some("home")
    else if m.away.None? then Some("away")
    else if m.date.None? then Some("date")
    else if m.time.None? then Some("time")
    else None
  }

  /** The output entry of one record, or the key whose lookup raises a
      `KeyError`. */
  function EntryOf(m: Fixture): (r: Result<Entry<string>, string>)
    ensures r.Failure? <==> !(m.home.Some? && m.away.Some? && m.date.Some? && m.time.Some?)
    ensures r.Failure? ==> r.error in ["home", "away", "date", "time"]
    ensures r.Failure? ==>
      (r.error == "home" <==> m.home.None?)
      && (r.error == "away" <==> m.home.Some? && m.away.None?)
      && (r.error == "date" <==> m.home.Some? && m.away.Some? && m.date.None?)
      && (r.error == "time" <==> m.home.Some? && m.away.Some? && m.date.Some? && m.time.None?)
    ensures r.Success? ==>
      r.value.left == Team(TeamId(m.home.value), m.home.value, m.homeLogo.GetOr([]))
      && r.value.right == Team(TeamId(m.away.value), m.away.value, m.awayLogo.GetOr([]))
      && r.value.tournament == m.tournament.GetOr([])
      && r.value.startDate == m.date.value && r.value.startTime == m.time.value
      && r.value.venue == [] && r.value.streams == StreamsOf(m)
  {
    var missing := FirstMissing(m);
    if missing.Some? then Failure(missing.value)
    else
      var home, away := m.home.value, m.away.value;
      Success(Entry(TeamId(home) + "_vs_" + TeamId(away) + "_" + m.date.value, m.date.value, m.time.value,
        Team(TeamId(home), home, m.homeLogo.GetOr([])),
        Team(TeamId(away), away, m.awayLogo.GetOr([])),
        m.tournament.GetOr([]), [], StreamsOf(m)))
  }

  /** The match id is the two team ids and the date joined by `_vs_` and
      `_`; it has no space when the date has none. */
  lemma MatchIdShape(m: Fixture)
    requires EntryOf(m).Success?
    ensures var e := EntryOf(m).value;
      e.matchId == e.left.id + "_vs_" + e.right.id + "_" + e.startDate
      && (' ' !in e.startDate ==> ' ' !in e.matchId)
      && |e.left.id| == |e.left.name| && ' ' !in e.left.id
  {
  }

  /** A record from a header with no `Start` line after it has no date, so
      the builder raises on it. */
  lemma HeaderOnlyFails(t: Teams)
    ensures EntryOf(Started(t)) == Failure("date")
  {
  }

  /** `build_final_json`: the entries of all records, or the position and
      key of the first lookup that raises. */
  method BuildFinalJson(matches: seq<Fixture>) returns (r: Result<seq<Entry<string>>, Failure>)
    ensures r.Success? <==> forall i :: 0 <= i < |matches| ==> EntryOf(matches[i]).Success?
    ensures r.Success? ==> |r.value| == |matches|
    ensures r.Success? ==> forall i :: 0 <= i < |matches| ==> EntryOf(matches[i]) == Success(r.value[i])
    ensures r.Failure? ==> r.error.MissingKey? && r.error.record < |matches|
    ensures r.Failure? ==> EntryOf(matches[r.error.record]) == Failure(r.error.key)
    ensures r.Failure? ==> forall i :: 0 <= i < r.error.record ==> EntryOf(matches[i]).Success?
  {
    var out: seq<Entry<string>> := [];
    for i := 0 to |matches|
      invariant |out| == i
      invariant forall j :: 0 <= j < i ==> EntryOf(matches[j]) == Success(out[j])
    {
      var e := EntryOf(matches[i]);
      if e.Failure? {
        return Failure(MissingKey(i, e.error));
      }
      out := out + [e.value];
    }
    r := Success(out);
  }
}

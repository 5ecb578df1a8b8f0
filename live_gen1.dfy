/** The passes of live_gen1.py that differ from live_gen.py: the streaming
    bucket parser with normalized keys and de-duplication, the guarded
    fixture parser with match ids, the catalog that keeps the first URL
    per name, the labelled bucket merge, and the final JSON. */
module LiveGen1 {
  import opened Wrappers
  import opened Text
  import opened Lists
  import opened Decoder
  import opened Keys
  import opened Patterns
  import opened Fixtures
  import opened Channels
  import opened Streaming

  // ---------------------------------------------------------------------
  // parse_plain_streaming (lines 91-131)
  // ---------------------------------------------------------------------

  /** A stripped line the loop skips: blank, or a `#` comment. */
  predicate Ignored(line: string)
  {
    line == [] || line[0] == '#'
  }

  predicate IsNameLine(line: string)
  {
    StartsWith(Lower(line), "name:")
  }

  predicate IsUrlLine(line: string)
  {
    StartsWith(Lower(line), "url:")
  }

  /** The bucket key a `name:` line selects. */
  function NameKey(line: string): string
    requires IsNameLine(line)
  {
    TrimmedKey(Strip(line[5..]))
  }

  /** One pass of the line loop; `extract` stands for the `re.findall` of
      the `.m3u8` URLs in a line. */
  function ScanLine(st: Scan, raw: string, extract: string -> seq<string>): Scan
  {
    var line := Strip(raw);
    if Ignored(line) then st
    else if IsNameLine(line) then st.(key := NameKey(line))
    else if IsUrlLine(line) && st.key != [] && extract(line) != [] then
      st.(buckets := st.buckets[st.key := UrlsAt(st.buckets, st.key) + extract(line)])
    else st
  }

  function Scanned(lines: seq<string>, extract: string -> seq<string>): Scan
  {
    if lines == [] then Scan0
    else ScanLine(Scanned(lines[..|lines| - 1], extract), lines[|lines| - 1], extract)
  }

  function DedupAll(m: map<string, seq<string>>): map<string, seq<string>>
  {
    map k | k in m :: Dedup(m[k])
  }

  /** The result of `parse_plain_streaming(text)`. */
  function Buckets1(text: string, extract: string -> seq<string>): map<string, seq<string>>
  {
    DedupAll(Scanned(SplitLines(text), extract).buckets)
  }

  /** The de-duplication loop for one bucket (lines 123-128). */
  method DedupUrls(lst: seq<string>) returns (unique: seq<string>)
    ensures unique == Dedup(lst)
  {
    var seen: set<string> := {};
    unique := [];
    for i := 0 to |lst|
      invariant unique == Dedup(lst[..i])
      invariant forall u :: u in seen <==> u in unique
    {
      assert lst[..i + 1][..i] == lst[..i];
      var u := lst[i];
      if u !in seen {
        seen := seen + {u};
        unique := unique + [u];
      }
    }
    assert lst[..|lst|] == lst;
  }

  /** The line loop (lines 103-119). */
  method ScanLines1(lines: seq<string>, extract: string -> seq<string>) returns (buckets: map<string, seq<string>>)
    ensures buckets == Scanned(lines, extract).buckets
  {
    buckets := map[];
    var currentKey := "";
    for i := 0 to |lines|
      invariant Scan(buckets, currentKey) == Scanned(lines[..i], extract)
    {
      ScannedSnoc(lines, i, extract);
      var line := Strip(lines[i]);
      if line == [] || line[0] == '#' {
      } else if StartsWith(Lower(line), "name:") {
        currentKey := TrimmedKey(Strip(line[5..]));
      } else if StartsWith(Lower(line), "url:") && currentKey != [] {
        var urls := extract(line);
        if urls != [] {
          var prior := if currentKey in buckets then buckets[currentKey] else [];
          buckets := buckets[currentKey := prior + urls];
        }
      }
    }
    assert lines[..|lines|] == lines;
  }

  /** The de-duplication pass over every bucket (lines 121-129). */
  method DedupBuckets(collected: map<string, seq<string>>) returns (buckets: map<string, seq<string>>)
    ensures buckets == DedupAll(collected)
  {
    buckets := collected;
    var todo := buckets.Keys;
    while todo != {}
      invariant todo <= collected.Keys && buckets.Keys == collected.Keys
      invariant forall k :: k in collected ==> buckets[k] == if k in todo then collected[k] else Dedup(collected[k])
      decreases |todo|
    {
      var k :| k in todo;
      var unique := DedupUrls(buckets[k]);
      buckets := buckets[k := unique];
      todo := todo - {k};
    }
    DedupAllOf(collected, buckets);
  }

  lemma DedupAllOf(collected: map<string, seq<string>>, buckets: map<string, seq<string>>)
    requires buckets.Keys == collected.Keys
    requires forall k :: k in collected ==> buckets[k] == Dedup(collected[k])
    ensures buckets == DedupAll(collected)
  {
  }

  method ParsePlainStreaming1(text: string, extract: string -> seq<string>) returns (buckets: map<string, seq<string>>)
    ensures buckets == Buckets1(text, extract)
  {
    var collected := ScanLines1(SplitLines(text), extract);
    buckets := DedupBuckets(collected);
  }

  lemma ScannedSnoc(lines: seq<string>, i: nat, extract: string -> seq<string>)
    requires i < |lines|
    ensures Scanned(lines[..i + 1], extract) == ScanLine(Scanned(lines[..i], extract), lines[i], extract)
  {
    assert lines[..i + 1][..i] == lines[..i];
  }

  /** `current_key` after the lines: the key of the last `name:` line. */
  function KeyAfter(lines: seq<string>): string
  {
    if lines == [] then []
    else
      var line := Strip(lines[|lines| - 1]);
      if !Ignored(line) && IsNameLine(line) then NameKey(line) else KeyAfter(lines[..|lines| - 1])
  }

  /** The URLs extracted from the `url:` lines that follow a `name:` line
      with key `k`, in order: the reference the buckets are checked
      against. */
  function UrlsUnder(lines: seq<string>, k: string, extract: string -> seq<string>): seq<string>
  {
    if lines == [] then []
    else
      var init := lines[..|lines| - 1];
      var line := Strip(lines[|lines| - 1]);
      var here := !Ignored(line) && !IsNameLine(line) && IsUrlLine(line) && k != [] && KeyAfter(init) == k;
      UrlsUnder(init, k, extract) + (if here then extract(line) else [])
  }

  /** One line adds to the bucket `k` exactly the URLs it contributes under
      `k`. */
  lemma ScanLineByKey(st: Scan, raw: string, extract: string -> seq<string>, k: string)
    ensures var line := Strip(raw);
      var here := !Ignored(line) && !IsNameLine(line) && IsUrlLine(line) && st.key != [] && st.key == k;
      var r := ScanLine(st, raw, extract);
      r.key == (if !Ignored(line) && IsNameLine(line) then NameKey(line) else st.key)
      && (k in r.buckets <==> k in st.buckets || (here && extract(line) != []))
      && UrlsAt(r.buckets, k) == UrlsAt(st.buckets, k) + (if here then extract(line) else [])
  {
    var line := Strip(raw);
    if !Ignored(line) && !IsNameLine(line) && IsUrlLine(line) && st.key != [] && extract(line) != [] {
      var b := st.buckets[st.key := UrlsAt(st.buckets, st.key) + extract(line)];
      assert ScanLine(st, raw, extract) == st.(buckets := b);
      if st.key == k {
        assert k in b && b[k] == UrlsAt(st.buckets, k) + extract(line);
      } else {
        assert (k in b <==> k in st.buckets) && UrlsAt(b, k) == UrlsAt(st.buckets, k);
      }
    } else if !Ignored(line) && IsNameLine(line) {
      assert ScanLine(st, raw, extract) == st.(key := NameKey(line));
    } else {
      assert ScanLine(st, raw, extract) == st;
    }
  }

  /** The loop collects, for every key, exactly the URLs under it. */
  lemma {:induction false} ScannedByKey(lines: seq<string>, extract: string -> seq<string>, k: string)
    ensures Scanned(lines, extract).key == KeyAfter(lines)
    ensures k in Scanned(lines, extract).buckets <==> UrlsUnder(lines, k, extract) != []
    ensures UrlsAt(Scanned(lines, extract).buckets, k) == UrlsUnder(lines, k, extract)
  {
    if lines != [] {
      var init := lines[..|lines| - 1];
      var raw := lines[|lines| - 1];
      var st := Scanned(init, extract);
      var line := Strip(raw);
      ScannedByKey(init, extract, k);
      ScanLineByKey(st, raw, extract, k);
      assert Scanned(lines, extract) == ScanLine(st, raw, extract);
      assert KeyAfter(lines) == if !Ignored(line) && IsNameLine(line) then NameKey(line) else KeyAfter(init);
      var here := !Ignored(line) && !IsNameLine(line) && IsUrlLine(line) && k != [] && KeyAfter(init) == k;
      assert UrlsUnder(lines, k, extract) == UrlsUnder(init, k, extract) + (if here then extract(line) else []);
    }
  }

  /** Each bucket holds exactly the distinct URLs extracted under its key,
      without repetition, in the order they were first seen; a key has a
      bucket exactly when some URL was extracted under it. */
  lemma BucketContents1(text: string, extract: string -> seq<string>, k: string)
    ensures var b := Buckets1(text, extract);
      var u := UrlsUnder(SplitLines(text), k, extract);
      (k in b <==> u != [])
      && (k in b ==> b[k] == Dedup(u) && NoDup(b[k]) && FirstSeenOrder(u, b[k])
                     && forall x :: x in b[k] <==> x in u)
  {
    var lines := SplitLines(text);
    ScannedByKey(lines, extract, k);
    var u := UrlsUnder(lines, k, extract);
    DedupNoDup(u);
    DedupFirstSeenOrder(u);
  }

  /** A key without trailing digits, as `TrimmedKey` produces. */
  predicate KeyShape(k: string)
  {
    IsKey(k) && (k == [] || !IsDigit(k[|k| - 1]))
  }

  /** Every bucket has a non-empty key of the normalized shape and at
      least one URL. */
  predicate ShapedBuckets(m: map<string, seq<string>>)
  {
    forall k :: k in m ==> k != [] && KeyShape(k) && m[k] != []
  }

  lemma AddShaped(m: map<string, seq<string>>, key: string, urls: seq<string>)
    requires ShapedBuckets(m) && key != [] && KeyShape(key) && urls != []
    ensures ShapedBuckets(m[key := UrlsAt(m, key) + urls])
  {
    var m' := m[key := UrlsAt(m, key) + urls];
    forall k | k in m'
      ensures k != [] && KeyShape(k) && m'[k] != []
    {
      if k != key {
        assert m'[k] == m[k];
      }
    }
  }

  lemma {:induction false} ScannedKeys(lines: seq<string>, extract: string -> seq<string>)
    ensures KeyShape(Scanned(lines, extract).key)
    ensures ShapedBuckets(Scanned(lines, extract).buckets)
  {
    if lines != [] {
      var init := lines[..|lines| - 1];
      ScannedKeys(init, extract);
      var st := Scanned(init, extract);
      var line := Strip(lines[|lines| - 1]);
      if Ignored(line) {
      } else if IsNameLine(line) {
        TrimmedKeyShape(Strip(line[5..]));
      } else if IsUrlLine(line) && st.key != [] && extract(line) != [] {
        AddShaped(st.buckets, st.key, extract(line));
      }
    }
  }

  /** Every bucket key is non-empty, made of `a-z0-9` and does not end in a
      digit; every bucket is non-empty and has no repeated URL. */
  lemma BucketKeys1(text: string, extract: string -> seq<string>)
    ensures forall k :: k in Buckets1(text, extract) ==>
      k != [] && KeyShape(k) && Buckets1(text, extract)[k] != [] && NoDup(Buckets1(text, extract)[k])
  {
    var c := Scanned(SplitLines(text), extract).buckets;
    ScannedKeys(SplitLines(text), extract);
    forall k | k in c
      ensures Dedup(c[k]) != [] && NoDup(Dedup(c[k]))
    {
      DedupNoDup(c[k]);
      assert c[k][0] in Dedup(c[k]);
    }
  }

  /** Lines before the first `name:` line (`url:` lines included) leave no
      trace. */
  lemma {:induction false} NoNameNoBuckets(lines: seq<string>, extract: string -> seq<string>)
    requires forall i :: 0 <= i < |lines| ==> !IsNameLine(Strip(lines[i]))
    ensures Scanned(lines, extract) == Scan0
  {
    if lines != [] {
      NoNameNoBuckets(lines[..|lines| - 1], extract);
    }
  }

  /** Stripping `name:<t>` removes only white space at the end of `t`. */
  lemma StripNamePrefix(t: string)
    ensures var line := Strip("name:" + t);
      5 <= |line| && line[..5] == "name:" && t == line[5..] + t[|line| - 5..]
      && AllSpace(t[|line| - 5..])
  {
    var raw := "name:" + t;
    assert TrimLeft(raw) == raw by {
      assert raw[0] == 'n';
      LeadEndAt(raw, 0, 0);
      assert raw[0..] == raw;
    }
    var line := TrimRight(raw);
    assert Strip(raw) == line;
    TrimRightKeeps(raw, 4);
    PrefixedSlices("name:", t, |line|);
  }

  /** Cutting `p + t` at `n`, past `p`, cuts `t` at `n - |p|`. */
  lemma PrefixedSlices(p: string, t: string, n: nat)
    requires |p| <= n <= |p| + |t|
    ensures (p + t)[..n][..|p|] == p && (p + t)[..n][|p|..] == t[..n - |p|]
    ensures (p + t)[n..] == t[n - |p|..] && t == t[..n - |p|] + t[n - |p|..]
  {
  }

  lemma NameLineLower(line: string)
    requires 5 <= |line| && line[..5] == "name:"
    ensures IsNameLine(line)
  {
    var l := Lower(line);
    assert l[..5] == "name:" by {
      assert forall i :: 0 <= i < 5 ==> l[..5][i] == LowerChar(line[i]) == "name:"[i];
    }
  }

  /** The key of a line `name:<t>` is the trimmed key of `t`. */
  lemma NameKeyOf(t: string)
    ensures var line := Strip("name:" + t);
      !Ignored(line) && IsNameLine(line) && NameKey(line) == TrimmedKey(t)
  {
    var line := Strip("name:" + t);
    StripNamePrefix(t);
    NameLineLower(line);
    assert line[0] == 'n';
    var body, w := line[5..], t[|line| - 5..];
    NormalizeKeyOfStrip(body);
    NormalizeKeyAppend(body, w);
    SpaceIsPunctuation(w);
    assert NormalizeKey(body) + [] == NormalizeKey(body);
  }

  /** A streaming line `name: <home> Vs <away> <n>` selects the bucket the
      merge looks up for the fixture with those teams: the two key
      transforms agree. */
  lemma NameLineFeedsFixture(home: string, away: string, digits: string, st: Scan, extract: string -> seq<string>)
    requires AllDigits(digits)
    ensures ScanLine(st, "name: " + home + " Vs " + away + " " + digits, extract).key == FixtureKey(home, away)
  {
    var base := home + " Vs " + away;
    var t := " " + base + " " + digits;
    assert "name: " + home + " Vs " + away + " " + digits == "name:" + t;
    NameKeyOf(t);
    LeadingSpaceKey(base, digits);
  }

  lemma LeadingSpaceKey(base: string, digits: string)
    requires AllDigits(digits)
    ensures TrimmedKey(" " + base + " " + digits) == TrimmedKey(base)
  {
    TrimmedKeyNumbered(" " + base, " ", digits);
    NormalizeKeyAppend(" ", base);
    SpaceIsPunctuation(" ");
    assert [] + NormalizeKey(base) == NormalizeKey(base);
  }

  // ---------------------------------------------------------------------
  // parse_matches (lines 187-246)
  // ---------------------------------------------------------------------

  /** The tests after the header pattern, in the order of the chain; the
      first pattern that recognises the stripped line sets its field of
      `cur`. */
  function Annotate1(cur: Fixture, line: string): Fixture
  {
    var id := Anchored(line, MatchIdTag, MatchIdTail);
    if id.Some? then cur.(matchId := Some(id.value))
    else
      var start := Searched(line, StartTag, StartTail);
      if start.Some? then cur.(date := Some(start.value.date), time := Some(start.value.time))
      else
        var t := Anchored(line, TournamentTag, LazyRest);
        if t.Some? then cur.(tournament := Some(t.value))
        else
          var c := Searched(line, ChannelsTag, LazyRest);
          if c.Some? then cur.(channels := Some(ChannelList(c.value)))
          else
            var hl := Anchored(line, HomeLogoTag, LogoTail);
            if hl.Some? then cur.(homeLogo := Some(hl.value))
            else
              var al := Anchored(line, AwayLogoTag, LogoTail);
              if al.Some? then cur.(awayLogo := Some(al.value))
              else
                var sc := Anchored(line, ScoreTag, ScoreTail);
                if sc.Some? then cur.(score := Some(ScoreValue(sc.value))) else cur
  }

  /** One pass of the line loop. A header flushes `cur` and starts a new
      record; any other tag only acts while `cur` is non-empty. When `cur`
      is empty every later test of the chain fails as well, so the line is
      skipped. */
  function Step1(st: Parse, raw: string): Parse
  {
    var line := Strip(raw);
    if line == [] then st
    else if HeaderOf(line).Some? then Parse(Flushed(st), Started(HeaderOf(line).value))
    else if st.cur == Blank then st
    else st.(cur := Annotate1(st.cur, line))
  }

  function ParsedFrom1(st: Parse, lines: seq<string>): Parse
  {
    if lines == [] then st else Step1(ParsedFrom1(st, lines[..|lines| - 1]), lines[|lines| - 1])
  }

  /** The records `parse_matches` returns for the lines, after the final
      flush. */
  function ParseLines1(lines: seq<string>): seq<Fixture>
  {
    Flushed(ParsedFrom1(Start0, lines))
  }

  lemma ParsedSnoc1(lines: seq<string>, i: nat)
    requires i < |lines|
    ensures ParsedFrom1(Start0, lines[..i + 1]) == Step1(ParsedFrom1(Start0, lines[..i]), lines[i])
  {
    assert lines[..i + 1][..i] == lines[..i];
  }

  /** One pass of the line loop of `parse_matches`. */
  lemma Step1Header(st: Parse, raw: string, t: Teams)
    requires Strip(raw) != [] && HeaderOf(Strip(raw)) == Some(t)
    ensures Step1(st, raw) == Parse(Flushed(st), Started(t))
  {
  }

  lemma Step1Tag(st: Parse, raw: string)
    requires Strip(raw) != [] && HeaderOf(Strip(raw)).None?
    ensures Step1(st, raw) == st.(cur := if st.cur == Blank then st.cur else Annotate1(st.cur, Strip(raw)))
  {
  }

  method ReadLine1(matches0: seq<Fixture>, cur0: Fixture, raw: string) returns (matches: seq<Fixture>, cur: Fixture)
    ensures Parse(matches, cur) == Step1(Parse(matches0, cur0), raw)
  {
    matches, cur := matches0, cur0;
    var line := Strip(raw);
    if line == [] {
      return;
    }
    var h := HeaderOf(line);
    if h.Some? {
      matches, cur := StartRecord(matches, cur, h.value);
      Step1Header(Parse(matches0, cur0), raw, h.value);
      return;
    }
    cur := ReadTag1(cur, line);
    Step1Tag(Parse(matches0, cur0), raw);
  }

  /** The tests of the chain after the header pattern, each guarded by
      `cur` being non-empty. */
  method ReadTag1(cur0: Fixture, line: string) returns (cur: Fixture)
    ensures cur == if cur0 == Blank then cur0 else Annotate1(cur0, line)
  {
    cur := cur0;
    var id := Anchored(line, MatchIdTag, MatchIdTail);
    if id.Some? && cur != Blank {
      cur := cur.(matchId := Some(id.value));
      return;
    }
    var start := Searched(line, StartTag, StartTail);
    if start.Some? && cur != Blank {
      cur := cur.(date := Some(start.value.date), time := Some(start.value.time));
      return;
    }
    var t := Anchored(line, TournamentTag, LazyRest);
    if t.Some? && cur != Blank {
      cur := cur.(tournament := Some(t.value));
      return;
    }
    var c := Searched(line, ChannelsTag, LazyRest);
    if c.Some? && cur != Blank {
      cur := cur.(channels := Some(ChannelList(c.value)));
      return;
    }
    var hl := Anchored(line, HomeLogoTag, LogoTail);
    if hl.Some? && cur != Blank {
      cur := cur.(homeLogo := Some(hl.value));
      return;
    }
    var al := Anchored(line, AwayLogoTag, LogoTail);
    if al.Some? && cur != Blank {
      cur := cur.(awayLogo := Some(al.value));
      return;
    }
    var sc := Anchored(line, ScoreTag, ScoreTail);
    if sc.Some? && cur != Blank {
      cur := cur.(score := Some(ScoreValue(sc.value)));
    }
  }

  method ParseMatches1(text: string) returns (matches: seq<Fixture>)
    ensures matches == ParseLines1(SplitLines(text))
  {
    var lines := SplitLines(text);
    matches := [];
    var cur := Blank;
    for i := 0 to |lines|
      invariant Parse(matches, cur) == ParsedFrom1(Start0, lines[..i])
    {
      ParsedSnoc1(lines, i);
      matches, cur := ReadLine1(matches, cur, lines[i]);
    }
    assert lines[..|lines|] == lines;
    if cur != Blank {
      matches := matches + [cur];
    }
  }

  /** Every finished record and a non-empty `cur` were started by a
      header. */
  predicate AllHeaded(st: Parse)
  {
    (forall i :: 0 <= i < |st.matches| ==> Headed(st.matches[i]))
    && (st.cur == Blank || Headed(st.cur))
  }

  /** The tag tests never change the teams of a record and never empty it. */
  lemma AnnotateKeeps1(cur: Fixture, line: string)
    ensures Annotate1(cur, line).home == cur.home && Annotate1(cur, line).away == cur.away
    ensures cur != Blank ==> Annotate1(cur, line) != Blank
  {
  }

  /** `r` has the finished records of `st` and a `cur` with the same teams,
      empty exactly when the old one was. */
  predicate KeepsTeams(st: Parse, r: Parse)
  {
    r.matches == st.matches && r.cur.home == st.cur.home && r.cur.away == st.cur.away
    && (r.cur == Blank <==> st.cur == Blank)
  }

  /** A header line flushes `cur` and starts a record; any other line
      keeps the finished records and the teams of `cur`. */
  lemma Step1Shape(st: Parse, raw: string)
    ensures var line := Strip(raw);
      var h := HeaderOf(line);
      var r := Step1(st, raw);
      (line != [] && h.Some? ==> r == Parse(Flushed(st), Started(h.value)))
      && (line == [] || h.None? ==> KeepsTeams(st, r))
  {
    AnnotateKeeps1(st.cur, Strip(raw));
  }

  /** One line keeps the records headed and adds the teams of a header. */
  lemma HeadedStep1(st: Parse, raw: string)
    requires AllHeaded(st)
    ensures var h := HeaderOf(Strip(raw));
      AllHeaded(Step1(st, raw))
      && HeadedTeams(Flushed(Step1(st, raw))) == HeadedTeams(Flushed(st)) + (if h.Some? then [h.value] else [])
  {
    Step1Shape(st, raw);
    assert HeaderOf([]).None?;
    HeadedAfter(st, Step1(st, raw), HeaderOf(Strip(raw)));
  }

  lemma HeadedAfter(st: Parse, r: Parse, h: Option<Teams>)
    requires AllHeaded(st)
    requires h.Some? ==> h.value.home != [] && h.value.away != [] && r == Parse(Flushed(st), Started(h.value))
    requires h.None? ==> KeepsTeams(st, r)
    ensures AllHeaded(r)
    ensures HeadedTeams(Flushed(r)) == HeadedTeams(Flushed(st)) + (if h.Some? then [h.value] else [])
  {
    if h.Some? {
      var f := Started(h.value);
      assert Headed(f);
      assert (Flushed(st) + [f])[..|Flushed(st)|] == Flushed(st);
    } else if st.cur != Blank {
      assert (st.matches + [r.cur])[..|st.matches|] == st.matches;
      assert (st.matches + [st.cur])[..|st.matches|] == st.matches;
    }
  }

  /** The loop keeps every record headed, and the headed records carry the
      teams of the header lines read so far, in order. */
  lemma {:induction false} ParsedHeaded1(lines: seq<string>)
    ensures AllHeaded(ParsedFrom1(Start0, lines))
    ensures HeadedTeams(Flushed(ParsedFrom1(Start0, lines))) == HeaderTeams(lines)
  {
    if lines != [] {
      var init := lines[..|lines| - 1];
      ParsedHeaded1(init);
      HeadedStep1(ParsedFrom1(Start0, init), lines[|lines| - 1]);
    }
  }

  /** `parse_matches` returns exactly one record per header line, in input
      order, the last one included, each with the teams its header
      names. */
  lemma ParseMatches1Records(lines: seq<string>)
    ensures var r := ParseLines1(lines);
      var ts := HeaderTeams(lines);
      |r| == |ts|
      && forall i :: 0 <= i < |r| ==>
        Headed(r[i]) && r[i].home == Some(ts[i].home) && r[i].away == Some(ts[i].away)
  {
    ParsedHeaded1(lines);
    HeadedTeamsAll(ParseLines1(lines));
  }

  lemma {:induction false} ParsedFrom1Append(st: Parse, a: seq<string>, b: seq<string>)
    ensures ParsedFrom1(st, a + b) == ParsedFrom1(ParsedFrom1(st, a), b)
    decreases |b|
  {
    if b == [] {
      assert a + b == a;
    } else {
      var b' := b[..|b| - 1];
      assert (a + b)[..|a + b| - 1] == a + b';
      assert (a + b)[|a + b| - 1] == b[|b| - 1];
      ParsedFrom1Append(st, a, b');
    }
  }

  lemma {:induction false} NoHeaderStays1(lines: seq<string>)
    requires forall i :: 0 <= i < |lines| ==> HeaderOf(Strip(lines[i])).None?
    ensures ParsedFrom1(Start0, lines) == Start0
  {
    if lines != [] {
      NoHeaderStays1(lines[..|lines| - 1]);
      StepBlank1(lines[|lines| - 1]);
    }
  }

  lemma StepBlank1(raw: string)
    requires HeaderOf(Strip(raw)).None?
    ensures Step1(Start0, raw) == Start0
  {
  }

  /** Tag lines before the first header are ignored. */
  lemma TagsBeforeHeader1(pre: seq<string>, rest: seq<string>)
    requires forall i :: 0 <= i < |pre| ==> HeaderOf(Strip(pre[i])).None?
    ensures ParseLines1(pre + rest) == ParseLines1(rest)
  {
    NoHeaderStays1(pre);
    ParsedFrom1Append(Start0, pre, rest);
  }

  // ---------------------------------------------------------------------
  // build_channel_map (lines 137-171): merge, keep the first URL
  // ---------------------------------------------------------------------

  /** The records of the sources, in order; `parse` stands for
      `json.loads` of the decoded bytes, and a source it rejects is
      skipped. */
  function Sources1(raws: seq<string>, parse: seq<nat> -> Option<seq<ChannelRecord>>): seq<ChannelRecord>
  {
    if raws == [] then []
    else
      var recs := parse(Decode(raws[|raws| - 1]));
      Sources1(raws[..|raws| - 1], parse) + (if recs.Some? then recs.value else [])
  }

  /** `{name: urls[0] for name, urls in merged.items() if urls}`. */
  function FirstUrls(merged: map<string, seq<string>>): map<string, string>
  {
    map n | n in merged && merged[n] != [] :: merged[n][0]
  }

  /** The collapse loop (lines 164-168). */
  method CollapseFirst(merged: map<string, seq<string>>) returns (cleaned: map<string, string>)
    ensures cleaned == FirstUrls(merged)
  {
    cleaned := map[];
    var todo := merged.Keys;
    while todo != {}
      invariant todo <= merged.Keys
      invariant cleaned == map n | n in merged && n !in todo && merged[n] != [] :: merged[n][0]
      decreases |todo|
    {
      var n :| n in todo;
      if merged[n] != [] {
        cleaned := cleaned[n := merged[n][0]];
      }
      todo := todo - {n};
    }
  }

  method BuildChannelMap1(raws: seq<string>, parse: seq<nat> -> Option<seq<ChannelRecord>>)
    returns (cleaned: map<string, string>)
    ensures cleaned == FirstUrls(Merged(map[], Sources1(raws, parse)))
  {
    var merged: map<string, seq<string>> := map[];
    for i := 0 to |raws|
      invariant merged == Merged(map[], Sources1(raws[..i], parse))
    {
      assert raws[..i + 1][..i] == raws[..i];
      var decoded := DecodePayload(raws[i]);
      var channels := parse(decoded);
      MergedAppend(map[], Sources1(raws[..i], parse), if channels.Some? then channels.value else []);
      if channels.None? {
        assert Sources1(raws[..i + 1], parse) == Sources1(raws[..i], parse) + [];
        continue;
      }
      merged := MergeRecords(merged, channels.value);
    }
    assert raws[..|raws|] == raws;
    cleaned := CollapseFirst(merged);
  }

  /** A name is in the catalog exactly when some record of an accepted
      source gives it a URL, and it maps to the first such URL. */
  lemma ChannelMap1At(raws: seq<string>, parse: seq<nat> -> Option<seq<ChannelRecord>>, n: string)
    ensures var recs := Sources1(raws, parse);
      var c := FirstUrls(Merged(map[], recs));
      (n in c <==> UrlsFor(recs, n) != [])
      && (n in c ==> c[n] == UrlsFor(recs, n)[0])
  {
    CatalogGroups(Sources1(raws, parse), n);
  }

  // ---------------------------------------------------------------------
  // merge_plain_m3u8 (lines 322-338)
  // ---------------------------------------------------------------------

  /** The streams appended for the bucket `urls`: the URL at 1-based
      position `idx` is named `"<key>-<idx>"`, and URLs already among the
      record's streams are skipped. */
  function Appended1(key: string, urls: seq<string>, existing: set<string>): seq<Stream>
  {
    if urls == [] then []
    else
      var u := urls[|urls| - 1];
      Appended1(key, urls[..|urls| - 1], existing)
        + (if u in existing then [] else [Stream(key + "-" + NatToString(|urls|), u)])
  }

  /** Every URL of the bucket, named after its position. */
  function Labelled(key: string, urls: seq<string>): (ls: seq<Stream>)
    ensures |ls| == |urls|
    ensures forall j :: 0 <= j < |urls| ==> ls[j] == Stream(key + "-" + NatToString(j + 1), urls[j])
  {
    if urls == [] then []
    else Labelled(key, urls[..|urls| - 1]) + [Stream(key + "-" + NatToString(|urls|), urls[|urls| - 1])]
  }

  /** What `merge_plain_m3u8` makes of one record. */
  function MergeOne1(f: Fixture, buckets: map<string, seq<string>>): Fixture
    requires f.home.Some? && f.away.Some?
  {
    var key := FixtureKey(f.home.value, f.away.value);
    Extend(f, Appended1(key, UrlsAt(buckets, key), UrlSet(StreamsOf(f))))
  }

  /** The appended streams are the labelled bucket with the URLs already
      present removed: labels follow bucket positions, not the number of
      streams appended. */
  lemma {:induction false} AppendedIsFiltered(key: string, urls: seq<string>, existing: set<string>)
    ensures Appended1(key, urls, existing) == Filter(Labelled(key, urls), (s: Stream) => s.url !in existing)
  {
    if urls != [] {
      var init := urls[..|urls| - 1];
      var s := Stream(key + "-" + NatToString(|urls|), urls[|urls| - 1]);
      var isNew := (s: Stream) => s.url !in existing;
      AppendedIsFiltered(key, init, existing);
      assert Labelled(key, urls) == Labelled(key, init) + [s];
      FilterAppend(Labelled(key, init), [s], isNew);
      FilterOne(s, isNew);
    }
  }

  /** The merge keeps every field but `streams`, keeps the streams already
      there as a prefix, appends only URLs that were not present, and
      leaves a record without a bucket untouched. */
  lemma MergeOne1Keeps(f: Fixture, buckets: map<string, seq<string>>)
    requires f.home.Some? && f.away.Some?
    ensures var g := MergeOne1(f, buckets);
      var add := StreamsOf(g)[|StreamsOf(f)|..];
      g.(streams := f.streams) == f
      && |StreamsOf(f)| <= |StreamsOf(g)| && StreamsOf(g)[..|StreamsOf(f)|] == StreamsOf(f)
      && (forall i :: 0 <= i < |add| ==> add[i].url !in UrlSet(StreamsOf(f)))
      && (FixtureKey(f.home.value, f.away.value) !in buckets ==> g == f)
  {
    var key := FixtureKey(f.home.value, f.away.value);
    var ex := UrlSet(StreamsOf(f));
    var add := Appended1(key, UrlsAt(buckets, key), ex);
    AppendedIsFiltered(key, UrlsAt(buckets, key), ex);
    if add != [] {
      assert StreamsOf(MergeOne1(f, buckets))[|StreamsOf(f)|..] == add;
    }
  }

  lemma AppendedSnoc(key: string, urls: seq<string>, existing: set<string>, i: nat)
    requires i < |urls|
    ensures Appended1(key, urls[..i + 1], existing)
      == Appended1(key, urls[..i], existing)
         + (if urls[i] in existing then [] else [Stream(key + "-" + NatToString(i + 1), urls[i])])
  {
    assert urls[..i + 1][..i] == urls[..i];
  }

  /** The inner loop over one bucket (lines 333-338). */
  method AppendBucket1(m0: Fixture, key: string, urls: seq<string>) returns (m: Fixture)
    ensures m == Extend(m0, Appended1(key, urls, UrlSet(StreamsOf(m0))))
  {
    m := m0;
    var existing := UrlSet(StreamsOf(m0));
    for idx := 0 to |urls|
      invariant m == Extend(m0, Appended1(key, urls[..idx], existing))
    {
      AppendedSnoc(key, urls, existing, idx);
      var u := urls[idx];
      if u !in existing {
        var name := key + "-" + NatToString(idx + 1);
        ExtendSnoc(m0, Appended1(key, urls[..idx], existing), Stream(name, u));
        m := m.(streams := Some(StreamsOf(m) + [Stream(name, u)]));
      } else {
        assert Appended1(key, urls[..idx], existing) + [] == Appended1(key, urls[..idx], existing);
      }
    }
    assert urls[..|urls|] == urls;
  }

  /** The records before `k` are merged, the others are as they were. */
  predicate Merged1UpTo(before: seq<Fixture>, after: seq<Fixture>, k: nat, buckets: map<string, seq<string>>)
  {
    |after| == |before| && k <= |before|
    && (forall i :: 0 <= i < |before| ==> before[i].home.Some? && before[i].away.Some?)
    && (forall i :: 0 <= i < k ==> after[i] == MergeOne1(before[i], buckets))
    && (forall i :: k <= i < |before| ==> after[i] == before[i])
  }

  /** Merging record `k` extends the merged prefix by one. */
  lemma Merged1UpToStep(before: seq<Fixture>, after: seq<Fixture>, k: nat, m: Fixture, buckets: map<string, seq<string>>)
    requires Merged1UpTo(before, after, k, buckets) && k < |before|
    requires m == MergeOne1(before[k], buckets)
    ensures Merged1UpTo(before, after[k := m], k + 1, buckets)
  {
  }

  /** The body of the record loop (lines 328-338). */
  method MergeRecord1(m0: Fixture, buckets: map<string, seq<string>>) returns (m: Fixture)
    requires m0.home.Some? && m0.away.Some?
    ensures m == MergeOne1(m0, buckets)
  {
    m := m0;
    var key := TrimmedKey(m.home.value + " Vs " + m.away.value);
    var urls := if key in buckets then buckets[key] else [];
    if urls == [] {
      return;
    }
    m := AppendBucket1(m, key, urls);
  }

  /** `merge_plain_m3u8`: every record is replaced by its merge, in place. */
  method MergePlain1(a: array<Fixture>, buckets: map<string, seq<string>>)
    requires forall i :: 0 <= i < a.Length ==> a[i].home.Some? && a[i].away.Some?
    modifies a
    ensures forall i :: 0 <= i < a.Length ==> a[i] == MergeOne1(old(a[i]), buckets)
  {
    ghost var orig := a[..];
    for i := 0 to a.Length
      invariant Merged1UpTo(orig, a[..], i, buckets)
    {
      var m := MergeRecord1(a[i], buckets);
      ghost var prev := a[..];
      Merged1UpToStep(orig, prev, i, m, buckets);
      a[i] := m;
      assert a[..] == prev[i := m];
    }
  }

  // ---------------------------------------------------------------------
  // build_final_json (lines 274-316)
  // ---------------------------------------------------------------------

  /** The output entry of one record: the numeric match id or null, the
      normalized team ids, and `""` for every missing text field. */
  function Entry1(m: Fixture): Entry<Option<nat>>
    requires m.home.Some? && m.away.Some?
  {
    var home, away := m.home.value, m.away.value;
    Entry(m.matchId, m.date.GetOr([]), m.time.GetOr([]),
      Team(TeamId(home), home, m.homeLogo.GetOr([])),
      Team(TeamId(away), away, m.awayLogo.GetOr([])),
      m.tournament.GetOr([]), [], StreamsOf(m))
  }

  method BuildFinalJson1(matches: seq<Fixture>) returns (out: seq<Entry<Option<nat>>>)
    requires forall i :: 0 <= i < |matches| ==> matches[i].home.Some? && matches[i].away.Some?
    ensures |out| == |matches|
    ensures forall i :: 0 <= i < |matches| ==> out[i] == Entry1(matches[i])
  {
    out := [];
    for i := 0 to |matches|
      invariant |out| == i
      invariant forall j :: 0 <= j < i ==> out[j] == Entry1(matches[j])
    {
      var m := matches[i];
      var mid := m.matchId;
      var left := Team(TeamId(m.home.value), m.home.value, m.homeLogo.GetOr([]));
      var right := Team(TeamId(m.away.value), m.away.value, m.awayLogo.GetOr([]));
      out := out + [Entry(mid, m.date.GetOr([]), m.time.GetOr([]), left, right, m.tournament.GetOr([]), [], StreamsOf(m))];
    }
  }
}

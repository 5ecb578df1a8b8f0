/** The channel catalog both scripts build from the decoded JSON sources,
    and `attach_stream_urls`, which is the same text in both files
    (live_gen1.py:259-268, live_gen.py:245-254). */
module Channels {
  import opened Wrappers
  import opened Text
  import opened Lists
  import opened Fixtures

  /** One object of a decoded catalog: its `name` and `hlsUrl` keys, each
      `None` when the object lacks it. */
  datatype ChannelRecord = ChannelRecord(name: Option<string>, hlsUrl: Option<string>)

  /** `ch.get("name", "").strip().lower()`. */
  function CleanName(r: ChannelRecord): string
  {
    Lower(Strip(r.name.GetOr([])))
  }

  /** `ch.get("hlsUrl", "").strip()`. */
  function CleanUrl(r: ChannelRecord): string
  {
    Strip(r.hlsUrl.GetOr([]))
  }

  /** `if name and url`: the record adds a URL to the catalog. */
  predicate Contributes(r: ChannelRecord)
  {
    CleanName(r) != [] && CleanUrl(r) != []
  }

  /** `m.get(n, [])` on a map of lists. */
  function UrlsAt(m: map<string, seq<string>>, n: string): seq<string>
  {
    if n in m then m[n] else []
  }

  /** One pass of the inner loop: `merged.setdefault(name, []).append(url)`. */
  function AddRecord(m: map<string, seq<string>>, r: ChannelRecord): map<string, seq<string>>
  {
    if Contributes(r) then m[CleanName(r) := UrlsAt(m, CleanName(r)) + [CleanUrl(r)]] else m
  }

  /** The map `merged` after the records `recs`, in order, starting from `m`. */
  function Merged(m: map<string, seq<string>>, recs: seq<ChannelRecord>): map<string, seq<string>>
  {
    if recs == [] then m else AddRecord(Merged(m, recs[..|recs| - 1]), recs[|recs| - 1])
  }

  /** The URLs the records give the name `n`, in record order: the
      reference the merge is checked against. */
  function UrlsFor(recs: seq<ChannelRecord>, n: string): seq<string>
  {
    if recs == [] then []
    else
      var r := recs[|recs| - 1];
      UrlsFor(recs[..|recs| - 1], n) + (if Contributes(r) && CleanName(r) == n then [CleanUrl(r)] else [])
  }

  /** `merged` holds, for every name, the URLs already there followed by
      the URLs the new records give it; no other name appears. */
  lemma {:induction false} MergedAt(m: map<string, seq<string>>, recs: seq<ChannelRecord>, n: string)
    ensures n in Merged(m, recs) <==> n in m || UrlsFor(recs, n) != []
    ensures UrlsAt(Merged(m, recs), n) == UrlsAt(m, n) + UrlsFor(recs, n)
  {
    if recs != [] {
      var init, r := recs[..|recs| - 1], recs[|recs| - 1];
      var mi := Merged(m, init);
      MergedAt(m, init, n);
      assert Merged(m, recs) == AddRecord(mi, r);
      var extra := if Contributes(r) && CleanName(r) == n then [CleanUrl(r)] else [];
      assert UrlsFor(recs, n) == UrlsFor(init, n) + extra;
      AddRecordAt(mi, r, n);
      AppendAssoc(UrlsAt(m, n), UrlsFor(init, n), extra);
    }
  }

  /** One record adds its URL to its own name and to no other. */
  lemma AddRecordAt(m: map<string, seq<string>>, r: ChannelRecord, n: string)
    ensures var here := Contributes(r) && CleanName(r) == n;
      (n in AddRecord(m, r) <==> n in m || here)
      && UrlsAt(AddRecord(m, r), n) == UrlsAt(m, n) + (if here then [CleanUrl(r)] else [])
  {
    if Contributes(r) {
      var k := CleanName(r);
      var m' := m[k := UrlsAt(m, k) + [CleanUrl(r)]];
      assert AddRecord(m, r) == m';
      if k == n {
        assert n in m' && m'[n] == UrlsAt(m, n) + [CleanUrl(r)];
      } else {
        assert (n in m' <==> n in m) && UrlsAt(m', n) == UrlsAt(m, n);
      }
    } else {
      assert UrlsAt(m, n) + [] == UrlsAt(m, n);
    }
  }

  lemma MergedSnoc(m0: map<string, seq<string>>, recs: seq<ChannelRecord>, i: nat)
    requires i < |recs|
    ensures Merged(m0, recs[..i + 1]) == AddRecord(Merged(m0, recs[..i]), recs[i])
  {
    assert recs[..i + 1][..i] == recs[..i];
  }

  /** Merging two lists of records one after the other is merging their
      concatenation. */
  lemma {:induction false} MergedAppend(m: map<string, seq<string>>, a: seq<ChannelRecord>, b: seq<ChannelRecord>)
    ensures Merged(m, a + b) == Merged(Merged(m, a), b)
    decreases |b|
  {
    if b == [] {
      assert a + b == a;
    } else {
      var b' := b[..|b| - 1];
      assert (a + b)[..|a + b| - 1] == a + b';
      assert (a + b)[|a + b| - 1] == b[|b| - 1];
      MergedAppend(m, a, b');
    }
  }

  /** The catalog of a list of records groups their URLs by name. */
  lemma CatalogGroups(recs: seq<ChannelRecord>, n: string)
    ensures n in Merged(map[], recs) <==> UrlsFor(recs, n) != []
    ensures n in Merged(map[], recs) ==> Merged(map[], recs)[n] == UrlsFor(recs, n)
  {
    MergedAt(map[], recs, n);
  }

  /** A record with an empty name or URL changes nothing. */
  lemma SkippedRecord(m: map<string, seq<string>>, recs: seq<ChannelRecord>, r: ChannelRecord)
    requires !Contributes(r)
    ensures Merged(m, recs + [r]) == Merged(m, recs)
  {
    assert (recs + [r])[..|recs|] == recs;
  }

  /** Catalog names are non-empty and have no upper-case ASCII letter, and
      every URL in the catalog is non-empty. */
  lemma {:induction false} CatalogShape(recs: seq<ChannelRecord>)
    ensures forall n :: n in Merged(map[], recs) ==> n != [] && NoUpper(n)
    ensures forall n :: n in Merged(map[], recs) ==> NonEmptyUrls(Merged(map[], recs)[n])
  {
    if recs != [] {
      CatalogShape(recs[..|recs| - 1]);
      var r := recs[|recs| - 1];
      var m := Merged(map[], recs[..|recs| - 1]);
      if Contributes(r) {
        var l := UrlsAt(m, CleanName(r)) + [CleanUrl(r)];
        assert NonEmptyUrls(UrlsAt(m, CleanName(r)));
        assert l[|l| - 1] == CleanUrl(r);
        assert NonEmptyUrls(l);
      }
    }
  }

  predicate NoUpper(s: string)
  {
    forall i :: 0 <= i < |s| ==> !IsAsciiUpper(s[i])
  }

  predicate NonEmptyUrls(urls: seq<string>)
  {
    forall i :: 0 <= i < |urls| ==> urls[i] != []
  }

  /** The inner loop of `build_channel_map` over the records of one source. */
  method MergeRecords(m0: map<string, seq<string>>, recs: seq<ChannelRecord>) returns (m: map<string, seq<string>>)
    ensures m == Merged(m0, recs)
  {
    m := m0;
    for i := 0 to |recs|
      invariant m == Merged(m0, recs[..i])
    {
      var r := recs[i];
      var name := Lower(Strip(r.name.GetOr([])));
      var url := Strip(r.hlsUrl.GetOr([]));
      MergedSnoc(m0, recs, i);
      if name != [] && url != [] {
        var prior := if name in m then m[name] else [];
        m := m[name := prior + [url]];
      }
    }
    assert recs[..|recs|] == recs;
  }

  // ---------------------------------------------------------------------
  // attach_stream_urls and _fuzzy
  // ---------------------------------------------------------------------

  /** `_fuzzy(url, name)`: the URL when the similarity score of the two
      strings exceeds 85. The score is a parameter. */
  function Fuzzy(url: string, name: string, similarity: (string, string) -> real): Option<string>
  {
    if similarity(name, url) > 85.0 then Some(url) else None
  }

  /** `channel_map.get(ch_low) or _fuzzy(channel_map.get(ch_low, ""),
      ch_low)`, kept only when it is a non-empty string (`if url:`). */
  function Resolve(cmap: map<string, string>, ch: string, similarity: (string, string) -> real): Option<string>
  {
    var low := Lower(ch);
    if low in cmap && cmap[low] != [] then Some(cmap[low])
    else
      var f := Fuzzy(if low in cmap then cmap[low] else [], low, similarity);
      if f.Some? && f.value != [] then f else None
  }

  /** The streams `attach_stream_urls` builds for one list of channels. */
  function ChannelStreams(chs: seq<string>, cmap: map<string, string>, similarity: (string, string) -> real): seq<Stream>
  {
    if chs == [] then []
    else
      var ch := chs[|chs| - 1];
      var u := Resolve(cmap, ch, similarity);
      ChannelStreams(chs[..|chs| - 1], cmap, similarity) + (if u.Some? then [Stream(ch, u.value)] else [])
  }

  /** A channel whose lower-cased name is a catalog key with a URL. */
  predicate Listed(cmap: map<string, string>, ch: string)
  {
    Lower(ch) in cmap && cmap[Lower(ch)] != []
  }

  /** The streams of the listed channels, in channel order, each with the
      catalog's URL: the reference definition, without any fuzzy match. */
  function DirectStreams(chs: seq<string>, cmap: map<string, string>): seq<Stream>
  {
    if chs == [] then []
    else (if Listed(cmap, chs[0]) then [Stream(chs[0], cmap[Lower(chs[0])])] else []) + DirectStreams(chs[1..], cmap)
  }

  /** The fuzzy fallback is only reached with the empty string as its URL,
      so whatever the similarity score, it never contributes a stream. */
  lemma ResolveIgnoresFuzzy(cmap: map<string, string>, ch: string, similarity: (string, string) -> real)
    ensures Resolve(cmap, ch, similarity) == if Listed(cmap, ch) then Some(cmap[Lower(ch)]) else None
  {
  }

  lemma {:induction false} DirectStreamsAppend(a: seq<string>, b: seq<string>, cmap: map<string, string>)
    ensures DirectStreams(a + b, cmap) == DirectStreams(a, cmap) + DirectStreams(b, cmap)
  {
    if a == [] {
      assert a + b == b;
    } else {
      assert (a + b)[1..] == a[1..] + b;
      DirectStreamsAppend(a[1..], b, cmap);
    }
  }

  /** `attach_stream_urls` gives exactly the listed channels, in order,
      each with its catalog URL. */
  lemma {:induction false} ChannelStreamsDirect(chs: seq<string>, cmap: map<string, string>, similarity: (string, string) -> real)
    ensures ChannelStreams(chs, cmap, similarity) == DirectStreams(chs, cmap)
  {
    if chs != [] {
      var init, ch := chs[..|chs| - 1], chs[|chs| - 1];
      ChannelStreamsDirect(init, cmap, similarity);
      ResolveIgnoresFuzzy(cmap, ch, similarity);
      DirectStreamsAppend(init, [ch], cmap);
      assert init + [ch] == chs;
      assert DirectStreams([ch], cmap) == (if Listed(cmap, ch) then [Stream(ch, cmap[Lower(ch)])] else []) + DirectStreams([], cmap);
    }
  }

  /** The names of the attached streams are the listed channels, and each
      stream's URL is the catalog's URL for its name. */
  lemma {:induction false} DirectStreamsNames(chs: seq<string>, cmap: map<string, string>)
    ensures StreamNames(DirectStreams(chs, cmap)) == Filter(chs, ch => Listed(cmap, ch))
    ensures forall i :: 0 <= i < |DirectStreams(chs, cmap)| ==>
      Listed(cmap, DirectStreams(chs, cmap)[i].name)
      && DirectStreams(chs, cmap)[i].url == cmap[Lower(DirectStreams(chs, cmap)[i].name)]
  {
    if chs != [] {
      DirectStreamsNames(chs[1..], cmap);
      var head := if Listed(cmap, chs[0]) then [Stream(chs[0], cmap[Lower(chs[0])])] else [];
      StreamNamesAppend(head, DirectStreams(chs[1..], cmap));
    }
  }

  function StreamNames(ss: seq<Stream>): (names: seq<string>)
    ensures |names| == |ss|
    ensures forall i :: 0 <= i < |ss| ==> names[i] == ss[i].name
  {
    if ss == [] then [] else [ss[0].name] + StreamNames(ss[1..])
  }

  lemma StreamNamesAppend(a: seq<Stream>, b: seq<Stream>)
    ensures StreamNames(a + b) == StreamNames(a) + StreamNames(b)
  {
    assert forall i :: 0 <= i < |a + b| ==> StreamNames(a + b)[i] == (StreamNames(a) + StreamNames(b))[i];
  }

  /** The streams of one record, the inner loop of `attach_stream_urls`. */
  method StreamsFor(chs: seq<string>, cmap: map<string, string>, similarity: (string, string) -> real) returns (streams: seq<Stream>)
    ensures streams == ChannelStreams(chs, cmap, similarity)
  {
    streams := [];
    for i := 0 to |chs|
      invariant streams == ChannelStreams(chs[..i], cmap, similarity)
    {
      var ch := chs[i];
      var low := Lower(ch);
      var url: Option<string>;
      if low in cmap && cmap[low] != [] {
        url := Some(cmap[low]);
      } else {
        url := Fuzzy(if low in cmap then cmap[low] else [], low, similarity);
      }
      if url.Some? && url.value != [] {
        streams := streams + [Stream(ch, url.value)];
      }
      assert chs[..i + 1][..i] == chs[..i];
    }
    assert chs[..|chs|] == chs;
  }

  /** `attach_stream_urls`: every record's `streams` is replaced by the
      streams of its channels; nothing else changes. */
  method AttachStreamUrls(a: array<Fixture>, cmap: map<string, string>, similarity: (string, string) -> real)
    modifies a
    ensures forall i :: 0 <= i < a.Length ==>
      a[i] == old(a[i]).(streams := Some(ChannelStreams(old(a[i]).channels.GetOr([]), cmap, similarity)))
  {
    for k := 0 to a.Length
      invariant forall i :: 0 <= i < k ==>
        a[i] == old(a[i]).(streams := Some(ChannelStreams(old(a[i]).channels.GetOr([]), cmap, similarity)))
      invariant forall i :: k <= i < a.Length ==> a[i] == old(a[i])
    {
      var streams := StreamsFor(a[k].channels.GetOr([]), cmap, similarity);
      a[k] := a[k].(streams := Some(streams));
    }
  }
}

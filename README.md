# Sport-stream scraper: a verified model of its reconciliation core

The repository holds two variants of one scraper script, `live_gen1.py` and
`live_gen.py`. Each one turns its inputs into a JSON list of matches, each
match with the streams it can be watched on. The inputs are:

- two encoded channel catalogs;
- a plain-text list of matches (the "fixtures text");
- a plain-text playlist of `name:` / `url:` lines (the "streaming list").

This project models the core of both scripts in Dafny and proves what
that core does.

- **Decoder** (`decode_payload`, identical in both files). It maps the
  46-symbol alphabet to 5-bit values and pushes them into an unbounded
  bit buffer, emitting a byte whenever eight bits are buffered.
  - Python's `(buffer << 5) | val` is written out exactly. A symbol `g`-`t`
    (value 32-45) also sets the lowest bit of the shifted buffer.
  - The result is the byte sequence.
- **Keys** (`normalize_key` in both variants): ASCII lower-casing, the
  `[a-z0-9]` filter, and the removal of trailing digits from keys.
  - `live_gen1.py` strips digits with `\d+$`.
  - `live_gen.py` builds a base name with `\s+\d+$`.
- **Streaming list** (`parse_plain_streaming`): both line machines.
  - `live_gen1.py` normalizes keys, skips `#` comments and de-duplicates
    each bucket.
  - `live_gen.py` keeps the verbatim name and keeps every repetition.
- **Fixtures text** (`parse_matches`): both record-accumulating line
  machines. The header, match-id, start, tournament, channels, logo and
  score patterns are modelled as the regular expressions they are:
  - `match` is anchored at the start, `search` finds the leftmost match;
  - lazy and greedy groups backtrack as Python's engine does.
- **Channel catalog** (the merge and collapse loops of `build_channel_map`)
  runs over decoded `(name, hlsUrl)` records. `json.loads` is a parameter.
  - `live_gen1.py` skips a source it cannot parse. It keeps the first URL
    per name.
  - `live_gen.py` stops at the first such source. It keeps the first
    reachable URL, using `filter_alive_urls` and `url_is_alive`, with
    the HEAD request as a parameter.
- **Reconciliation passes**:
  - `attach_stream_urls` and `_fuzzy`;
  - `merge_plain_m3u8`, which updates the match list in place (an `array`
    of records);
  - `build_final_json`.

A Python dictionary with optional keys is the datatype `Fixtures.Fixture`,
with one `Option` per key. An exception that nothing catches is a
`Failure` result. The parts the model takes as parameters are:

- `probe`: the HEAD request;
- `parse`: `json.loads`;
- `extract`: the `.m3u8` `re.findall`;
- `similarity`: `fuzz.ratio`, a `real` score from 0 to 100.

Where the scripts iterate over a `set`, the model allows any order.

## Model

| member | source | states |
|---|---|---|
| Decoder.CharValue | live_gen.py:37-38 | a character has a value exactly when it is one of the 46 alphabet symbols, and that value is its position in the alphabet |
| Decoder.CharsetTable | live_gen.py:37-38 | the `i`-th alphabet character has value `i`, and the characters with a value are exactly those of `_CHARSET` |
| Decoder.Clean | live_gen.py:43 | the substitution leaves no `=` and no white space |
| Decoder.Symbols | live_gen.py:50-53 | skipping unknown characters leaves at most one value per character, each below 46 |
| Decoder.SymbolsOfCleaned | live_gen.py:43-53 | stripping and deleting `=` and white space never removes an alphabet symbol |
| Decoder.EmitShape | live_gen.py:58-61 | the inner loop leaves fewer than 8 bits, emits one byte per 8 bits it removes, keeps the earlier output and emits only values below 256 |
| Decoder.EmitBytes | live_gen.py:58-61 | the inner `while bits >= 8` loop computes the reference decoder step |
| Decoder.DecodeValues | live_gen.py:47-61 | after every symbol fewer than 8 bits stay buffered, `k` symbols give exactly `5k / 8` bytes, and every byte is in 0..255 |
| Decoder.DecodePayload | live_gen.py:41-63 | the method equals the reference decoding; it gives `5k / 8` bytes for `k` alphabet symbols, each in 0..255 |
| Decoder.SymbolsAppend | live_gen.py:50-53 | the symbols of a concatenation are the symbols of the parts |
| Decoder.DecodeSkipsUnknown | live_gen.py:50-53 | deleting any character outside the alphabet from the input never changes the decoded bytes |
| Decoder.DecodeWithoutSymbols | live_gen.py:43-45 | an input without alphabet symbols decodes to nothing |
| Decoder.FeedEmitsAtMostOne | live_gen.py:55-61 | one more symbol keeps the bytes emitted so far and adds at most one |
| Decoder.EmitKeepsBits | live_gen.py:58-61 | the inner loop moves whole bytes from the buffer to the output: output bits followed by buffered bits are unchanged |
| Decoder.DecodeKeepsBits | live_gen.py:50-61 | with symbol values below 32, output bits followed by buffered bits are the 5-bit groups of the symbols read |
| Decoder.DecodeIsPack | live_gen.py:50-61 | with symbol values below 32, the bytes are the 5-bit groups concatenated most significant bit first and cut into whole bytes |
| Decoder.DecodeEncode | live_gen1.py:43-65 | round trip: decoding the matching encoder's text gives back any byte string |
| Text.TrimLeft | live_gen.py:98 | `lstrip()` yields a suffix of its input that does not begin with white space |
| Text.TrimRight | live_gen.py:98 | `rstrip()` yields a prefix of its input that does not end with white space, and what it removes is white space |
| Text.Strip | live_gen.py:98 | `strip()` yields a slice that neither begins nor ends with white space |
| Text.StripParts | live_gen.py:98 | the input is white space, then the stripped value, then white space |
| Text.StripPadded | live_gen1.py:109 | stripping a stripped value written after white space gives the value back |
| Text.Lower | live_gen.py:81 | `lower()` keeps the length and lower-cases each ASCII letter in place |
| Text.SplitLinesNoBreaks | live_gen.py:97 | no line that `splitlines()` returns contains a line break |
| Text.Split | live_gen.py:210 | `split(",")` returns at least one piece, and no piece contains the separator |
| Text.ReplaceAbsentPattern | live_gen.py:100 | `replace` with a pattern that does not occur leaves the string as it is |
| Text.ReplaceChar | live_gen.py:263 | replacing `' '` by `'_'` keeps the length, changes exactly the spaces and leaves none |
| Text.RemoveChar | live_gen.py:225 | removing every space leaves none, never lengthens, leaves a string without spaces unchanged, deletes a lone space and keeps any other lone character |
| Text.RemoveCharCons | live_gen.py:225 | removal drops a leading copy of the character and keeps any other leading character |
| Text.RemoveCharAppend | live_gen.py:225 | removal distributes over concatenation, so with the one-character cases every other character is kept in its order |
| Text.NatToString | live_gen.py:326 | `str(n)` is a non-empty run of decimal digits that reads back as `n` |
| Lists.Dedup | live_gen1.py:122-129 | de-duplication keeps exactly the entries of the list and never lengthens it |
| Lists.DedupNoDup | live_gen1.py:122-129 | the de-duplicated list has no repeated entry |
| Lists.DedupOfNoDup | live_gen1.py:122-129 | a list without repetitions is left as it is |
| Lists.DedupFirstSeenOrder | live_gen1.py:122-129 | the kept entries appear in the order of their first occurrence |
| Lists.Filter | live_gen.py:128 | the filtered list holds exactly the accepted entries of the input |
| Lists.FilterAppend | live_gen.py:128 | filtering keeps the input order: filtering a concatenation filters each part |
| Lists.FilterFirst | live_gen.py:162 | the first entry the filter keeps is the first entry the predicate accepts |
| Lists.FilterCount | live_gen.py:128 | an accepted entry is kept as often as it occurs, and a rejected one never |
| Keys.KeepKeyChars | live_gen1.py:87 | the `[^a-z0-9]` substitution leaves only `a-z0-9` |
| Keys.NormalizeKeyAlphabet | live_gen1.py:80-88 | a normalized key is made of `a-z0-9` only and is no longer than the name |
| Keys.NormalizeKeyIdempotent | live_gen1.py:80-88 | normalizing a key again changes nothing |
| Keys.NormalizeKeyAppend | live_gen1.py:80-88 | the key of a concatenation is the concatenation of the keys |
| Keys.NormalizeKeyIgnoresPunctuation | live_gen1.py:80-88 | inserting a character that is neither an ASCII letter nor a digit never changes the key |
| Keys.NormalizeKeyIgnoresCase | live_gen1.py:80-88 | names that differ only in the case of ASCII letters have the same key |
| Keys.NormalizeKeyOfStrip | live_gen1.py:108-110 | stripping the name first never changes its key |
| Keys.NormalizeKeyGenAgrees | live_gen.py:78-84 | the six replacements never fire, so the two scripts' normalizers agree on every input |
| Keys.StripTrailingDigits | live_gen1.py:112 | `\d+$` removes the maximal run of digits at the end: what is left is a prefix not ending in a digit |
| Keys.StripTrailingDigitsAppend | live_gen1.py:112 | appending digits to a name does not change what is left |
| Keys.TrimmedKeyShape | live_gen1.py:108-113 | a bucket key is made of `a-z0-9`, does not end in a digit, and removing digits again changes nothing |
| Keys.TrimmedKeyNumbered | live_gen1.py:97-98 | a name followed by punctuation or spaces and then a number has the bucket key of the name |
| Keys.BaseName | live_gen.py:302 | the base name is a prefix of the match name |
| Keys.BaseNameNumbered | live_gen.py:302 | a name, white space and a number give the name back |
| Keys.BaseNameUnnumbered | live_gen.py:302 | a name that does not end in a digit is its own base name |
| Keys.BaseNameGlued | live_gen.py:302 | digits that follow a non-space character are kept |
| Patterns.LazyRest | live_gen.py:174 | `\s*(.+?)\s*$` matches every non-empty tail, and the group is the stripped tail or, for a blank tail, its last character |
| Patterns.StripOf | live_gen.py:174 | a value written after one space is read back |
| Patterns.FindVs | live_gen.py:171 | the lazy `home` group ends at the first `Vs` that still leaves a character for `away` |
| Patterns.HeaderTail | live_gen.py:170-172 | a recognised header has a non-empty home and away team |
| Patterns.HeaderTailOfTeams | live_gen.py:170-172 | a header `Match: <home> Vs <away>` gives back both teams when the home name contains no `Vs` |
| Patterns.MatchIdTail | live_gen1.py:179 | the id pattern matches exactly when a digit follows the leading white space |
| Patterns.MatchIdOfNat | live_gen1.py:179 | a match-id line written with the decimal form of `n` reads back `n` |
| Patterns.StartTail | live_gen.py:173 | a recognised start line yields a `YYYY-MM-DD` date and an `HH:MM` time |
| Patterns.LogoTail | live_gen.py:176-177 | the logo URL is a non-empty run of non-space characters; there is none exactly when the tail is blank |
| Patterns.StartTailOf | live_gen.py:173 | a date and a time written one space apart after one space read back as exactly that date and time |
| Patterns.StartLineOf | live_gen.py:198-201 | a start line `🕒 Start: <date> <time>` gives back its date and time under both `match` and `search` |
| Patterns.LogoTailOf | live_gen.py:176-177 | after one space, the URL is exactly the first non-space run, whatever follows it after white space |
| Patterns.LogoLineOf | live_gen1.py:227-235 | a logo line `<tag> <url>` gives back the URL under `match` (live_gen1.py) and `search` (live_gen.py:213-221) |
| Patterns.ScoreTail | live_gen.py:178 | a recognised score begins and ends with a digit and contains the `\|` |
| Patterns.BarRun | live_gen.py:178 | `\s*\|\s*\d+` matches a prefix containing the bar right after the white space and ending in a digit |
| Patterns.ScoreGroup | live_gen.py:178 | the group `\d+\s*\|\s*\d+` starts and ends with a digit and contains the bar |
| Patterns.ScoreTailOfDigits | live_gen.py:178 | a score `<a> \| <b>` of two digit runs written after one space is read back whole |
| Patterns.SearchStart | live_gen.py:198 | `search` starts at the leftmost position where the anchored pattern matches |
| Patterns.Searched | live_gen.py:198 | `search` finds something exactly when the pattern matches at some position |
| Patterns.SearchedAnchored | live_gen.py:198 | when `match` succeeds, `search` gives the same result |
| Fixtures.KeepStrippedStripped | live_gen.py:210 | the kept channel names are stripped and non-empty |
| Fixtures.ChannelListShape | live_gen.py:210 | every channel name is stripped, non-empty and free of commas |
| Fixtures.ChannelListJoin | live_gen.py:210 | a channels group written as names joined by `", "` gives back the names, when no name is padded or contains a comma |
| Fixtures.ScoreValue | live_gen.py:225 | the stored score has no space and is no longer than the group |
| Fixtures.ScoreValueSpaced | live_gen.py:225 | `<a> \| <b>` with space-free sides is stored as `<a>\|<b>` |
| Fixtures.ScoreOfDigits | live_gen.py:223-225 | a score line `⚽ Score: <a> \| <b>` of two digit runs is found by `match` and `search` and stored as `<a>\|<b>` |
| Fixtures.TeamId | live_gen.py:271 | a team id has the name's length, maps each space to `_` and each other character to its lower case, and has no space |
| Fixtures.HeaderOf | live_gen.py:191 | a header line names a non-empty home and away team |
| Fixtures.StartRecord | live_gen.py:192-196 | a header flushes a non-empty `cur` and starts a record holding just the two teams |
| Fixtures.StreamsOfExtend | live_gen.py:327 | appending streams changes only `streams`, and the old streams stay as a prefix |
| Channels.MergedAt | live_gen.py:151-155 | for every name, `merged` holds the URLs already there followed by the URLs the new records give it; no other name appears |
| Channels.AddRecordAt | live_gen.py:152-155 | one record with a non-empty name and URL appends its URL to its own name's list and touches no other name; any other record changes nothing |
| Channels.MergedAppend | live_gen.py:146-155 | merging two sources one after the other is merging their concatenation |
| Channels.CatalogGroups | live_gen.py:151-155 | the merged map groups the records' URLs by name, in record order |
| Channels.SkippedRecord | live_gen.py:154 | a record with an empty name or URL changes nothing |
| Channels.CatalogShape | live_gen.py:152-155 | catalog names are non-empty with no upper-case ASCII letter, and every catalog URL is non-empty |
| Channels.MergeRecords | live_gen.py:151-155 | the loop over one source's records computes the reference merge |
| Channels.ResolveIgnoresFuzzy | live_gen.py:251 | the fuzzy fallback only ever sees the empty URL, so a channel resolves exactly when its lower-cased name is a catalog key, and to that key's URL |
| Channels.ChannelStreamsDirect | live_gen.py:247-254 | whatever the similarity score, the attached streams are the listed channels, in order, each with its catalog URL |
| Channels.DirectStreamsNames | live_gen.py:249-253 | the stream names are the listed channels in order, and each URL is the catalog's URL for its name |
| Channels.StreamsFor | live_gen.py:248-253 | the inner loop of `attach_stream_urls` computes one record's streams |
| Channels.AttachStreamUrls | live_gen.py:245-254 | every record's `streams` is replaced by the streams of its channels; nothing else changes |
| LiveGen.FilterAlive | live_gen.py:122-128 | the kept URLs are exactly the input URLs whose probe succeeds |
| LiveGen.FilterAliveCounts | live_gen.py:126-128 | a reachable URL is kept as often as it occurs and an unreachable one never; the input order is kept |
| LiveGen.AppendUrls | live_gen.py:104-107 | the URL loop computes the reference update of the buckets |
| LiveGen.ParsePlainStreaming | live_gen.py:90-108 | the method computes the reference buckets of the text |
| LiveGen.ScannedByKey | live_gen.py:97-107 | `current_key` is the key of the last `name:` line, and each bucket holds exactly the URLs extracted under its key, in order |
| LiveGen.BucketContents | live_gen.py:90-108 | a key has a bucket exactly when a URL was extracted under it, and the bucket holds all such URLs, repetitions included |
| LiveGen.BucketKeys | live_gen.py:102-107 | every bucket has a non-empty key and at least one URL |
| LiveGen.NameLineKey | live_gen.py:99-101 | a line `name: <v>` selects the bucket `v` itself, case and digits kept |
| LiveGen.ReadTag | live_gen.py:198-226 | the chain of tag tests computes the reference update of `cur` |
| LiveGen.ReadLine | live_gen.py:186-226 | one pass of the line loop computes the reference step |
| LiveGen.ReadLines | live_gen.py:186-226 | the line loop computes the reference state |
| LiveGen.ParseMatches | live_gen.py:181-232 | the method returns the reference records of the text, after the final flush |
| LiveGen.AnnotateKeeps | live_gen.py:198-226 | tag lines never change the teams of a record and never empty it |
| LiveGen.StepShape | live_gen.py:191-226 | a header line flushes `cur` and starts a record; any other line keeps the finished records and the teams of `cur` |
| LiveGen.ParsedHeaded | live_gen.py:186-229 | only the first record may lack teams, and the records' teams are the teams of the header lines, in order |
| LiveGen.ParseMatchesRecords | live_gen.py:181-232 | there is one record per header line, in input order, with that header's teams, preceded by at most one record without teams |
| LiveGen.OrphanTag | live_gen.py:198-201 | a tag line before the first header starts a record without teams, and that record is returned first |
| LiveGen.StartLineAnnotates | live_gen.py:198-201 | a start line sets the date and time even of an empty record |
| LiveGen.CollapseAlive | live_gen.py:157-162 | the collapse loop maps each name to its first reachable URL |
| LiveGen.SourcesStop | live_gen.py:146-150 | once `json.loads` rejects a source, later sources do not matter |
| LiveGen.SourceIndex | live_gen.py:146-150 | the build gets past the sources exactly when every decoded source parses, and otherwise fails at the first one rejected |
| LiveGen.BuildChannelMap | live_gen.py:134-164 | the catalog of the merged records, or the failure of the first source rejected |
| LiveGen.ChannelMapAt | live_gen.py:157-162 | a name is in the catalog exactly when one of its URLs is reachable, and it maps to the first reachable one; every earlier URL is unreachable |
| LiveGen.CandidateKeysInclude | live_gen.py:304-316 | the match name, its normalized form and its base name are among the keys tried |
| LiveGen.CandidateKeysNumbered | live_gen.py:302-310 | when the away team ends in white space and a number, the name without that number is one of the keys tried |
| LiveGen.NamedBucketIsCandidate | live_gen.py:304-316 | the bucket that a playlist line `name: <home> Vs <away>` fills is tried for a record of those teams |
| LiveGen.DirectLabelIsDirect | live_gen.py:326 | every label the merge writes is counted as a direct stream |
| LiveGen.UnseenMembers | live_gen.py:322-324 | a URL is appended exactly when it is reachable and absent from the streams before the loop |
| LiveGen.AddedShape | live_gen.py:322-327 | the appended streams are the new URLs, repetitions included, named `Direct Stream <n>` with consecutive numbers after the direct streams already there |
| LiveGen.UnseenAlive | live_gen.py:321-324 | the URLs a bucket adds are its reachable URLs that the record did not already carry |
| LiveGen.MergeBucketShape | live_gen.py:319-327 | merging a bucket keeps every other field and the earlier streams as a prefix, and appends the numbered new URLs |
| LiveGen.AppendDirect | live_gen.py:322-327 | the URL loop computes the reference appended streams |
| LiveGen.MergeOne | live_gen.py:316-328 | the record is merged with some candidate bucket that is non-empty, or left unchanged when no candidate bucket is non-empty |
| LiveGen.MergePlain | live_gen.py:292-328 | every record is merged in place, or the first record without teams fails with the records before it merged and the rest untouched |
| LiveGen.EntryOf | live_gen.py:262-285 | an entry exists exactly when home, away, date and time are all present; otherwise the error names the first missing key in the order home, away, date, time; the entry carries the two teams with their ids, names and logos (`""` when absent), the tournament (`""` when absent), date, time, an empty venue and the record's streams |
| LiveGen.MatchIdShape | live_gen.py:263 | the match id is the two team ids and the date joined by `_vs_` and `_`; it has no space when the date has none |
| LiveGen.HeaderOnlyFails | live_gen.py:263-268 | a record with no start line raises on its date |
| LiveGen.BuildFinalJson | live_gen.py:260-286 | one entry per record, each the record's entry, or the position and key of the first lookup that raises, with every earlier record well-formed |
| LiveGen1.DedupUrls | live_gen1.py:123-128 | the loop computes the order-preserving de-duplication |
| LiveGen1.ScanLines1 | live_gen1.py:103-119 | the line loop computes the reference buckets |
| LiveGen1.DedupBuckets | live_gen1.py:121-129 | every bucket is replaced by its de-duplication |
| LiveGen1.ParsePlainStreaming1 | live_gen1.py:91-131 | the method computes the reference buckets of the text |
| LiveGen1.ScannedByKey | live_gen1.py:103-119 | `current_key` is the key of the last `name:` line, and each bucket holds exactly the URLs extracted under its key, in order |
| LiveGen1.BucketContents1 | live_gen1.py:91-131 | a key has a bucket exactly when a URL was extracted under it, and the bucket holds the distinct such URLs, without repetition, in first-seen order |
| LiveGen1.BucketKeys1 | live_gen1.py:108-129 | every bucket key is non-empty, made of `a-z0-9`, not ending in a digit, and every bucket is non-empty without repetition |
| LiveGen1.NoNameNoBuckets | live_gen1.py:115 | lines before the first `name:` line, `url:` lines included, leave no trace |
| LiveGen1.NameKeyOf | live_gen1.py:108-113 | the key a line `name:<t>` selects is the trimmed key of `t` |
| LiveGen1.NameLineFeedsFixture | live_gen1.py:328-331 | a playlist line `name: <home> Vs <away> <n>` selects the bucket the merge looks up for those teams |
| LiveGen1.ReadTag1 | live_gen1.py:204-240 | the tag tests act only on a non-empty `cur`, and compute the reference update |
| LiveGen1.ReadLine1 | live_gen1.py:192-240 | one pass of the line loop computes the reference step |
| LiveGen1.ParseMatches1 | live_gen1.py:187-246 | the method returns the reference records of the text, after the final flush |
| LiveGen1.AnnotateKeeps1 | live_gen1.py:204-240 | tag lines never change the teams of a record and never empty it |
| LiveGen1.Step1Shape | live_gen1.py:197-240 | a header line flushes `cur` and starts a record; any other line keeps the finished records and the teams of `cur` |
| LiveGen1.ParsedHeaded1 | live_gen1.py:192-243 | every record is headed, and the records' teams are the teams of the header lines, in order |
| LiveGen1.ParseMatches1Records | live_gen1.py:187-246 | exactly one record per header line, in input order, the last one included, each with the teams its header names |
| LiveGen1.TagsBeforeHeader1 | live_gen1.py:204-240 | tag lines before the first header are ignored |
| LiveGen1.CollapseFirst | live_gen1.py:164-168 | the collapse loop maps each name to its first URL |
| LiveGen1.BuildChannelMap1 | live_gen1.py:137-171 | the catalog is the first URL per name over the records of the sources that parse |
| LiveGen1.ChannelMap1At | live_gen1.py:142-168 | a name is in the catalog exactly when an accepted source gives it a URL, and it maps to the first such URL |
| LiveGen1.Labelled | live_gen1.py:335-337 | the URL at 1-based position `idx` is named `<key>-<idx>` |
| LiveGen1.AppendedIsFiltered | live_gen1.py:334-338 | the appended streams are the labelled bucket without the URLs already present; labels follow bucket positions |
| LiveGen1.MergeOne1Keeps | live_gen1.py:327-338 | the merge keeps every other field and the earlier streams as a prefix, appends only URLs not present, and leaves a record without a bucket unchanged |
| LiveGen1.AppendBucket1 | live_gen1.py:334-338 | the inner loop computes the reference appended streams |
| LiveGen1.MergeRecord1 | live_gen1.py:328-338 | the body of the record loop computes the reference merge of one record |
| LiveGen1.MergePlain1 | live_gen1.py:322-338 | every record of the array is replaced by its merge, in place |
| LiveGen1.BuildFinalJson1 | live_gen1.py:274-316 | one entry per record, in order, each the record's entry |

## Left out

- Fetching (`fetch_text`, `get_plain_buckets`, the HTTP session), `main`,
  logging and the output file: these are I/O.
- The HEAD request of `url_is_alive` is the parameter `probe`. The
  parallel fan-out of `filter_alive_urls` (`asyncio.gather`) is not
  modelled, since its result does not depend on the order of completion.
- `json.loads` of the decoded catalogs is the parameter `parse`, from bytes
  to records. `parse` also stands for the shape the record loops at
  live_gen1.py:158-162 and live_gen.py:151-155 assume: a list of objects
  whose `name` and `hlsUrl` are strings when present. Those loops run
  outside the `try`. A catalog that is valid JSON of another shape aborts
  the whole script: a top-level number fails at the `for`, an element that
  is not an object fails at `ch.get`, and `"hlsUrl": null` fails at
  `.strip()`. These aborts are not modelled. In the model an absent key
  reads as `""`, and the record is then skipped (Channels.SkippedRecord).
- `bytes.decode("utf-8", errors="replace")` is not modelled: the decoder's
  result is the byte sequence.
- `fuzz.ratio` is the parameter `similarity`, typed `real` as the float
  score it returns, and `lru_cache` is not
  modelled. The fallback is proved never to contribute a stream whatever
  the score.
- The `.m3u8` `re.findall` of the streaming list is the parameter `extract`.
- Case mapping (`lower()`) and the `\d` class are restricted to ASCII.
  Python also maps non-ASCII letters and digits.
- The sort by start date and time and the generated date that the `main`
  of live_gen1.py adds around `build_final_json` are not modelled.
- `list(set(...))` at live_gen.py:316 iterates in an order Python does not
  fix. `LiveGen.MergeOne` therefore promises some non-empty candidate
  bucket, not a particular one.
- Helper methods split some source loops, one method per loop body
  (`ReadLine`, `ReadTag`, `AppendDirect`, `MergeRecord1` and others).
- LiveGen1.MergePlain1: requires every record to have `home` and `away`,
  where the script would raise `KeyError` at live_gen1.py:328. Every
  record `parse_matches` returns has both (LiveGen1.ParseMatches1Records).
- LiveGen1.BuildFinalJson1: requires `home` and `away` for the same
  reason, where the script would raise at live_gen1.py:290.
- `int(m["id"])` at live_gen1.py:207: the model always stores the digit
  run's value. Recent CPython (3.11, and security releases since 3.7)
  refuses to convert a decimal string longer than
  `sys.get_int_max_str_digits()` digits (4300 by default). For such an id
  line the script takes the `except` branch at live_gen1.py:208-209 and
  stores `None`, which the model does not. `int(mid_val)` at
  live_gen1.py:285 converts a value that is already an `int` or `None`,
  so its `except` branch cannot be taken and is not modelled.
- Fixtures.HeaderTeams: the teams of the header lines, in order. It is a
  plain function; the properties are stated about the parsers that use it.

In `live_gen.py` a tag line before the first header starts a record
without teams (LiveGen.OrphanTag). `merge_plain_m3u8` then raises a
`KeyError` at line 301, which `LiveGen.MergePlain` returns as its failure.
`build_final_json` also raises on any record without a date or time, which
`LiveGen.BuildFinalJson` returns.

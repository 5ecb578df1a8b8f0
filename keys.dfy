/** Match-name keys: `normalize_key` in both scripts, the trailing-digit
    removal applied to keys in live_gen1.py, and the key the first script
    builds for a fixture. */
module Keys {
  import opened Text

  /** The characters `[a-z0-9]` that `normalize_key` keeps. */
  predicate IsKeyChar(c: char)
  {
    'a' <= c <= 'z' || '0' <= c <= '9'
  }

  predicate IsKey(s: string)
  {
    forall i :: 0 <= i < |s| ==> IsKeyChar(s[i])
  }

  /** `re.sub(r"[^a-z0-9]", "", s)`. */
  function KeepKeyChars(s: string): (r: string)
    ensures IsKey(r) && |r| <= |s|
  {
    if s == [] then []
    else (if IsKeyChar(s[0]) then [s[0]] else []) + KeepKeyChars(s[1..])
  }

  /** `normalize_key` of live_gen1.py (lines 80-88): lower-case, then keep
      only `[a-z0-9]`. */
  function NormalizeKey(name: string): string
  {
    KeepKeyChars(Lower(name))
  }

  /** `normalize_key` of live_gen.py (lines 78-84): the same filter followed
      by six one-character replacements. */
  function NormalizeKeyGen(name: string): string
  {
    var s := KeepKeyChars(Lower(name));
    Replace(Replace(Replace(Replace(Replace(Replace(s, "ğ", "g"), "ı", "i"), "ş", "s"), "ç", "c"), "ö", "o"), "ü", "u")
  }

  /** `re.sub(r"\d+$", "", s)`: the maximal run of digits at the end of `s`
      is removed. Python's `$` would also match just before a final
      newline; that case never arises, because the strings given to it are
      keys, made only of `[a-z0-9]`. */
  function StripTrailingDigits(s: string): (r: string)
    ensures |r| <= |s| && r == s[..|r|]
    ensures AllDigits(s[|r|..])
    ensures r == [] || !IsDigit(r[|r| - 1])
  {
    if s != [] && IsDigit(s[|s| - 1]) then
      var r := StripTrailingDigits(s[..|s| - 1]);
      assert s[|r|..] == s[..|s| - 1][|r|..] + [s[|s| - 1]];
      r
    else s
  }

  /** The bucket key of a `name:` line's text in live_gen1.py (lines
      110-113), and the key of a fixture (lines 328-330). */
  function TrimmedKey(name: string): string
  {
    StripTrailingDigits(NormalizeKey(name))
  }

  /** The key live_gen1.py looks up for a fixture: `f"{home} Vs {away}"`,
      normalized, trailing digits removed. */
  function FixtureKey(home: string, away: string): string
  {
    TrimmedKey(home + " Vs " + away)
  }

  // ---------------------------------------------------------------------
  // Properties of the normalizer
  // ---------------------------------------------------------------------

  lemma {:induction false} KeepKeyCharsAppend(a: string, b: string)
    ensures KeepKeyChars(a + b) == KeepKeyChars(a) + KeepKeyChars(b)
  {
    if a != [] {
      assert (a + b)[1..] == a[1..] + b;
      KeepKeyCharsAppend(a[1..], b);
    } else {
      assert a + b == b;
    }
  }

  lemma {:induction false} KeepKeyCharsOfKey(s: string)
    requires IsKey(s)
    ensures KeepKeyChars(s) == s
  {
    if s != [] {
      KeepKeyCharsOfKey(s[1..]);
    }
  }

  lemma {:induction false} LowerOfKey(s: string)
    requires IsKey(s)
    ensures Lower(s) == s
  {
    assert forall i :: 0 <= i < |s| ==> Lower(s)[i] == s[i];
  }

  /** Every key is made of `a-z` and `0-9` only. */
  lemma NormalizeKeyAlphabet(name: string)
    ensures IsKey(NormalizeKey(name))
    ensures |NormalizeKey(name)| <= |name|
  {
  }

  /** Normalizing a key again changes nothing. */
  lemma NormalizeKeyIdempotent(name: string)
    ensures NormalizeKey(NormalizeKey(name)) == NormalizeKey(name)
  {
    var k := NormalizeKey(name);
    LowerOfKey(k);
    KeepKeyCharsOfKey(k);
  }

  /** The key of a concatenation is the concatenation of the keys. */
  lemma NormalizeKeyAppend(a: string, b: string)
    ensures NormalizeKey(a + b) == NormalizeKey(a) + NormalizeKey(b)
  {
    LowerAppend(a, b);
    KeepKeyCharsAppend(Lower(a), Lower(b));
  }

  /** A character that is neither an ASCII letter nor a digit (space,
      punctuation, `-`, any other symbol) never affects the key. */
  lemma NormalizeKeyIgnoresPunctuation(a: string, c: char, b: string)
    requires !IsKeyChar(LowerChar(c))
    ensures NormalizeKey(a + [c] + b) == NormalizeKey(a + b)
  {
    NormalizeKeyAppend(a + [c], b);
    NormalizeKeyAppend(a, [c]);
    NormalizeKeyAppend(a, b);
    assert Lower([c]) == [LowerChar(c)];
    assert KeepKeyChars([LowerChar(c)]) == [] by {
      assert [LowerChar(c)][1..] == [];
    }
  }

  /** Names that differ only in the case of ASCII letters have one key. */
  lemma NormalizeKeyIgnoresCase(a: string, b: string)
    requires |a| == |b|
    requires forall i :: 0 <= i < |a| ==> LowerChar(a[i]) == LowerChar(b[i])
    ensures NormalizeKey(a) == NormalizeKey(b)
  {
    assert Lower(a) == Lower(b);
  }

  /** Stripping `s` first never changes its key: white space is not kept. */
  lemma NormalizeKeyOfStrip(s: string)
    ensures NormalizeKey(Strip(s)) == NormalizeKey(s)
  {
    var r := Strip(s);
    StripParts(s);
    var a := LeadingSpaces(s);
    var b := a + |r|;
    SliceParts(s, a, b);
    assert s == s[..a] + r + s[b..];
    NormalizeKeyPadded(s[..a], r, s[b..]);
  }

  /** White space around a name does not change its key. */
  lemma NormalizeKeyPadded(pre: string, r: string, post: string)
    requires AllSpace(pre) && AllSpace(post)
    ensures NormalizeKey(pre + r + post) == NormalizeKey(r)
  {
    SpaceIsPunctuation(pre);
    SpaceIsPunctuation(post);
    NormalizeKeyAppend(pre + r, post);
    NormalizeKeyAppend(pre, r);
    assert NormalizeKey(pre) + NormalizeKey(r) + NormalizeKey(post) == NormalizeKey(r);
  }

  lemma SpaceIsPunctuation(s: string)
    requires AllSpace(s)
    ensures NormalizeKey(s) == []
  {
    forall i | 0 <= i < |s|
      ensures !IsKeyChar(LowerChar(s[i]))
    {
      assert IsSpace(s[i]);
    }
    KeepPunctuation(s);
  }

  lemma {:induction false} ReplaceAbsent(s: string, c: char, d: string)
    requires c !in s
    ensures Replace(s, [c], d) == s
  {
    if |s| >= 1 {
      ReplaceAbsent(s[1..], c, d);
      assert s == [s[0]] + s[1..];
    }
  }

  /** The six replacements of live_gen.py line 83 never fire, because the
      filter before them has already removed every character other than
      `a-z0-9`: both scripts' normalizers agree on every input. */
  lemma NormalizeKeyGenAgrees(name: string)
    ensures NormalizeKeyGen(name) == NormalizeKey(name)
  {
    var s := KeepKeyChars(Lower(name));
    assert 'ğ' !in s && 'ı' !in s && 'ş' !in s && 'ç' !in s && 'ö' !in s && 'ü' !in s;
    ReplaceAbsent(s, 'ğ', "g");
    ReplaceAbsent(s, 'ı', "i");
    ReplaceAbsent(s, 'ş', "s");
    ReplaceAbsent(s, 'ç', "c");
    ReplaceAbsent(s, 'ö', "o");
    ReplaceAbsent(s, 'ü', "u");
  }

  // ---------------------------------------------------------------------
  // Trailing digits
  // ---------------------------------------------------------------------

  /** Appending digits to a name does not change its trimmed key. */
  lemma {:induction false} StripTrailingDigitsAppend(s: string, digits: string)
    requires AllDigits(digits)
    ensures StripTrailingDigits(s + digits) == StripTrailingDigits(s)
    decreases |digits|
  {
    if digits == [] {
      assert s + digits == s;
    } else {
      var shorter := digits[..|digits| - 1];
      assert (s + digits)[..|s + digits| - 1] == s + shorter;
      StripTrailingDigitsAppend(s, shorter);
    }
  }

  /** A trimmed key never ends in a digit and removing digits again does
      nothing. */
  lemma TrimmedKeyShape(name: string)
    ensures var k := TrimmedKey(name);
      IsKey(k) && (k == [] || !IsDigit(k[|k| - 1])) && StripTrailingDigits(k) == k
  {
  }

  /** Names with the same key up to a trailing run of digits (a numbered
      stream such as "Real Betis Vs Celta 2") share one bucket. */
  lemma TrimmedKeyNumbered(base: string, sep: string, digits: string)
    requires AllDigits(digits)
    requires forall i :: 0 <= i < |sep| ==> !IsKeyChar(LowerChar(sep[i]))
    ensures TrimmedKey(base + sep + digits) == TrimmedKey(base)
  {
    NormalizeKeyAppend(base + sep, digits);
    NormalizeKeyAppend(base, sep);
    KeepPunctuation(sep);
    var d := NormalizeKey(digits);
    assert IsKey(digits) by {
      assert forall i :: 0 <= i < |digits| ==> IsKeyChar(digits[i]);
    }
    LowerOfKey(digits);
    KeepKeyCharsOfKey(digits);
    assert NormalizeKey(base) + [] == NormalizeKey(base);
    StripTrailingDigitsAppend(NormalizeKey(base), digits);
  }

  /** `re.sub(r"\s+\d+$", "", s)` of live_gen.py line 301: a final run of
      digits is removed together with all the white space before it; when
      no white space precedes the digits nothing is removed. Python's `$`
      would also match just before a final newline; that case never arises,
      because the names given to it are team groups of stripped lines of
      `splitlines()`, which hold no newline. */
  function BaseName(s: string): (r: string)
    ensures |r| <= |s| && r == s[..|r|]
  {
    var d := StripTrailingDigits(s);
    if |d| < |s| && d != [] && IsSpace(d[|d| - 1]) then TrimRight(d) else s
  }

  /** A name, white space and a number: the base name is the name. */
  lemma BaseNameNumbered(name: string, w: string, digits: string)
    requires name == [] || !IsSpace(name[|name| - 1])
    requires w != [] && AllSpace(w)
    requires digits != [] && AllDigits(digits)
    ensures BaseName(name + w + digits) == name
  {
    StripTrailingDigitsAppend(name + w, digits);
    assert !IsDigit((name + w)[|name + w| - 1]) by {
      assert (name + w)[|name + w| - 1] == w[|w| - 1];
      assert IsSpace(w[|w| - 1]);
    }
    assert StripTrailingDigits(name + w) == name + w;
    TrimRightPadded(name, w);
  }

  /** A name that does not end in a digit is its own base name. */
  lemma BaseNameUnnumbered(s: string)
    requires s == [] || !IsDigit(s[|s| - 1])
    ensures BaseName(s) == s
  {
  }

  /** Digits that follow a non-space character are kept. */
  lemma BaseNameGlued(name: string, digits: string)
    requires name != [] && !IsSpace(name[|name| - 1]) && !IsDigit(name[|name| - 1])
    requires AllDigits(digits)
    ensures BaseName(name + digits) == name + digits
  {
    StripTrailingDigitsAppend(name, digits);
  }

  lemma {:induction false} KeepPunctuation(s: string)
    requires forall i :: 0 <= i < |s| ==> !IsKeyChar(LowerChar(s[i]))
    ensures NormalizeKey(s) == []
  {
    if s != [] {
      NormalizeKeyAppend([s[0]], s[1..]);
      assert [s[0]] + s[1..] == s;
      assert Lower([s[0]]) == [LowerChar(s[0])];
      assert KeepKeyChars([LowerChar(s[0])]) == [] by {
        assert [LowerChar(s[0])][1..] == [];
      }
      KeepPunctuation(s[1..]);
    }
  }
}

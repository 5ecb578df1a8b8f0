/** The parts of Python's `str` API the scripts rely on, written out over
    `seq<char>` (a Dafny `char` is one Unicode scalar value, as a Python
    code point is). Case mapping is restricted to ASCII. */
module Text {

  /** `c.isspace()`: the characters Python's `str.strip()`, `str.split()`
      and the regular-expression class `\s` treat as white space. */
  predicate IsSpace(c: char)
  {
    c == ' ' || ('\t' <= c <= '\r') || ('\U{1C}' <= c <= '\U{1F}')
    || c == '\U{85}' || c == '\U{A0}' || c == '\U{1680}'
    || ('\U{2000}' <= c <= '\U{200A}') || c == '\U{2028}' || c == '\U{2029}'
    || c == '\U{202F}' || c == '\U{205F}' || c == '\U{3000}'
  }

  /** The characters at which `str.splitlines()` ends a line. */
  predicate IsLineBreak(c: char)
  {
    c == '\n' || c == '\r' || c == '\U{0B}' || c == '\U{0C}'
    || ('\U{1C}' <= c <= '\U{1E}') || c == '\U{85}' || c == '\U{2028}' || c == '\U{2029}'
  }

  /** The regular-expression class `\d`, restricted to ASCII digits. */
  predicate IsDigit(c: char)
  {
    '0' <= c <= '9'
  }

  predicate AllSpace(s: string)
  {
    forall i :: 0 <= i < |s| ==> IsSpace(s[i])
  }

  predicate AllDigits(s: string)
  {
    forall i :: 0 <= i < |s| ==> IsDigit(s[i])
  }

  predicate StartsWith(s: string, prefix: string)
  {
    |prefix| <= |s| && s[..|prefix|] == prefix
  }

  /** The scan `lstrip` makes: the first position from `i` on that does
      not hold white space, or `|s|`. */
  function LeadEnd(s: string, i: nat): (n: nat)
    requires i <= |s|
    ensures i <= n <= |s| && (n == |s| || !IsSpace(s[n]))
    ensures forall k :: i <= k < n ==> IsSpace(s[k])
    decreases |s| - i
  {
    if i < |s| && IsSpace(s[i]) then LeadEnd(s, i + 1) else i
  }

  /** The scan `rstrip` makes: going left from `j`, the position after the
      last character that is not white space, or 0. */
  function TrailStart(s: string, j: nat): (n: nat)
    requires j <= |s|
    ensures n <= j && (n == 0 || !IsSpace(s[n - 1]))
    ensures forall k :: n <= k < j ==> IsSpace(s[k])
  {
    if j > 0 && IsSpace(s[j - 1]) then TrailStart(s, j - 1) else j
  }

  /** A run of white space from `i` that ends before `n` stops the scan
      at `n`. */
  lemma {:induction false} LeadEndAt(s: string, i: nat, n: nat)
    requires i <= n <= |s| && (n == |s| || !IsSpace(s[n]))
    requires forall k :: i <= k < n ==> IsSpace(s[k])
    ensures LeadEnd(s, i) == n
    decreases n - i
  {
    if i < n {
      LeadEndAt(s, i + 1, n);
    }
  }

  lemma {:induction false} TrailStartAt(s: string, j: nat, n: nat)
    requires n <= j <= |s| && (n == 0 || !IsSpace(s[n - 1]))
    requires forall k :: n <= k < j ==> IsSpace(s[k])
    ensures TrailStart(s, j) == n
    decreases j - n
  {
    if n < j {
      TrailStartAt(s, j - 1, n);
    }
  }

  /** `s.lstrip()`. */
  function TrimLeft(s: string): (r: string)
    ensures |r| <= |s| && r == s[|s| - |r|..]
    ensures r == [] || !IsSpace(r[0])
  {
    s[LeadEnd(s, 0)..]
  }

  /** What `lstrip` removes is white space. */
  lemma TrimLeftSpaces(s: string)
    ensures AllSpace(s[..|s| - |TrimLeft(s)|])
  {
    var n := LeadEnd(s, 0);
    assert |s| - |TrimLeft(s)| == n;
    forall k | 0 <= k < n
      ensures IsSpace(s[..n][k])
    {
      assert s[..n][k] == s[k];
    }
  }

  /** `s.rstrip()`. */
  function TrimRight(s: string): (r: string)
    ensures |r| <= |s| && r == s[..|r|]
    ensures AllSpace(s[|r|..])
    ensures r == [] || !IsSpace(r[|r| - 1])
  {
    var n := TrailStart(s, |s|);
    assert forall k :: 0 <= k < |s| - n ==> s[n..][k] == s[n + k];
    s[..n]
  }

  /** `s.strip()`. */
  function Strip(s: string): (r: string)
    ensures |r| <= |s|
    ensures r == [] || (!IsSpace(r[0]) && !IsSpace(r[|r| - 1]))
  {
    TrimRight(TrimLeft(s))
  }

  /** The number of white-space characters `s.strip()` removes in front. */
  function LeadingSpaces(s: string): nat
  {
    |s| - |TrimLeft(s)|
  }

  /** `s` is white space, then `Strip(s)`, then white space. */
  lemma StripParts(s: string)
    ensures LeadingSpaces(s) + |Strip(s)| <= |s|
    ensures Strip(s) == s[LeadingSpaces(s)..LeadingSpaces(s) + |Strip(s)|]
    ensures AllSpace(s[..LeadingSpaces(s)])
    ensures AllSpace(s[LeadingSpaces(s) + |Strip(s)|..])
  {
    StripMiddle(s);
    TrimLeftSpaces(s);
  }

  lemma StripMiddle(s: string)
    ensures LeadingSpaces(s) + |Strip(s)| <= |s|
    ensures Strip(s) == s[LeadingSpaces(s)..LeadingSpaces(s) + |Strip(s)|]
    ensures AllSpace(s[LeadingSpaces(s) + |Strip(s)|..])
  {
    var t := TrimLeft(s);
    var r := TrimRight(t);
    assert Strip(s) == r && LeadingSpaces(s) == |s| - |t|;
    MiddleSlice(s, |s| - |t|, t, r);
  }

  /** A part `r` of the suffix `t == s[a..]` that `t` begins with is the
      slice of `s` at `a`, and what follows it in `t` follows it in `s`. */
  lemma MiddleSlice(s: string, a: nat, t: string, r: string)
    requires a <= |s| && t == s[a..] && |r| <= |t| && r == t[..|r|] && AllSpace(t[|r|..])
    ensures a + |r| <= |s| && r == s[a..a + |r|] && AllSpace(s[a + |r|..])
  {
    SuffixSlice(s, a, |r|);
  }

  /** Slicing the suffix `s[a..]` is slicing `s` shifted by `a`. */
  lemma SuffixSlice<T>(s: seq<T>, a: nat, n: nat)
    requires a + n <= |s|
    ensures s[a..][..n] == s[a..a + n] && s[a..][n..] == s[a + n..]
  {
  }

  /** `s` is non-empty and begins and ends with a character `strip` keeps. */
  predicate Stripped(s: string)
  {
    s != [] && !IsSpace(s[0]) && !IsSpace(s[|s| - 1])
  }

  /** Stripping a stripped value written after white space gives it back. */
  lemma StripPadded(w: string, v: string)
    requires AllSpace(w) && Stripped(v)
    ensures TrimLeft(w + v) == v && Strip(w + v) == v
  {
    var s := w + v;
    forall k | 0 <= k < |w|
      ensures IsSpace(s[k])
    {
      assert s[k] == w[k];
    }
    assert s[|w|] == v[0];
    LeadEndAt(s, 0, |w|);
    assert s[|w|..] == v;
    TrailStartAt(v, |v|, |v|);
  }

  /** `c` does not occur in `s`. */
  predicate Lacks(s: string, c: char)
  {
    forall i :: 0 <= i < |s| ==> s[i] != c
  }

  /** Stripping never introduces a character. */
  lemma StripLacks(s: string, c: char)
    requires Lacks(s, c)
    ensures Lacks(Strip(s), c)
  {
    StripParts(s);
    var a := LeadingSpaces(s);
    var r := Strip(s);
    forall j | 0 <= j < |r|
      ensures r[j] != c
    {
      assert r[j] == s[a + j];
    }
  }

  /** A string of white space strips to nothing. */
  lemma StripOfSpace(w: string)
    requires AllSpace(w)
    ensures Strip(w) == []
  {
    StripParts(w);
  }

  predicate IsAsciiUpper(c: char)
  {
    'A' <= c <= 'Z'
  }

  function LowerChar(c: char): (r: char)
    ensures !IsAsciiUpper(r)
    ensures IsAsciiUpper(c) || r == c
  {
    if IsAsciiUpper(c) then (c as int - 'A' as int + 'a' as int) as char else c
  }

  /** `s.lower()` for ASCII letters; every other character is kept. */
  function Lower(s: string): (r: string)
    ensures |r| == |s|
    ensures forall i :: 0 <= i < |s| ==> r[i] == LowerChar(s[i])
  {
    if s == [] then [] else [LowerChar(s[0])] + Lower(s[1..])
  }

  lemma {:induction false} LowerAppend(a: string, b: string)
    ensures Lower(a + b) == Lower(a) + Lower(b)
  {
    var l := Lower(a + b);
    assert forall i :: 0 <= i < |l| ==> l[i] == (Lower(a) + Lower(b))[i];
  }

  /** Index of the first line break in `s`, or `|s|` when there is none. */
  function LineEnd(s: string): (i: nat)
    ensures i <= |s|
    ensures forall j :: 0 <= j < i ==> !IsLineBreak(s[j])
    ensures i < |s| ==> IsLineBreak(s[i])
  {
    if s == [] || IsLineBreak(s[0]) then 0 else 1 + LineEnd(s[1..])
  }

  /** `s.splitlines()`: lines end at any line-break character, `"\r\n"`
      counts as one break, and a final break does not start an empty line. */
  function SplitLines(s: string): seq<string>
    decreases |s|
  {
    if s == [] then []
    else
      var i := LineEnd(s);
      if i == |s| then [s]
      else [s[..i]] + SplitLines(s[NextLine(s, i)..])
  }

  /** Where the line after the break at `i` starts; `\r\n` is one break. */
  function NextLine(s: string, i: nat): (next: nat)
    requires i < |s|
    ensures i < next <= |s|
  {
    if s[i] == '\r' && i + 1 < |s| && s[i + 1] == '\n' then i + 2 else i + 1
  }

  /** `line` contains no line break. */
  predicate OneLine(line: string)
  {
    forall j :: 0 <= j < |line| ==> !IsLineBreak(line[j])
  }

  /** No line `splitlines()` returns contains a line break. */
  lemma {:induction false} SplitLinesNoBreaks(s: string)
    ensures forall line :: line in SplitLines(s) ==> OneLine(line)
    decreases |s|
  {
    if s != [] {
      var i := LineEnd(s);
      if i < |s| {
        SplitLinesNoBreaks(s[NextLine(s, i)..]);
        assert OneLine(s[..i]);
      }
    }
  }

  /** Index of the first `sep` in `s`, or `|s|`. */
  function IndexOf(s: string, sep: char): (i: nat)
    ensures i <= |s|
    ensures forall j :: 0 <= j < i ==> s[j] != sep
    ensures i < |s| ==> s[i] == sep
  {
    if s == [] || s[0] == sep then 0 else 1 + IndexOf(s[1..], sep)
  }

  /** `s.split(sep)` for a one-character separator: never empty, and no piece
      contains the separator. */
  function Split(s: string, sep: char): (pieces: seq<string>)
    ensures |pieces| >= 1
    ensures forall k, j :: 0 <= k < |pieces| && 0 <= j < |pieces[k]| ==> pieces[k][j] != sep
    decreases |s|
  {
    var i := IndexOf(s, sep);
    if i == |s| then [s] else [s[..i]] + Split(s[i + 1..], sep)
  }

  /** `s.replace(pattern, replacement)`: occurrences are replaced left to
      right and never overlap. */
  function Replace(s: string, pattern: string, replacement: string): string
    requires pattern != []
    decreases |s|
  {
    if |s| < |pattern| then s
    else if s[..|pattern|] == pattern then replacement + Replace(s[|pattern|..], pattern, replacement)
    else [s[0]] + Replace(s[1..], pattern, replacement)
  }

  /** `pattern` does not occur anywhere in `s`. */
  predicate Absent(s: string, pattern: string)
    decreases |s|
  {
    |s| < |pattern| || (!StartsWith(s, pattern) && Absent(s[1..], pattern))
  }

  lemma {:induction false} ReplaceAbsentPattern(s: string, pattern: string, replacement: string)
    requires pattern != [] && Absent(s, pattern)
    ensures Replace(s, pattern, replacement) == s
    decreases |s|
  {
    if |s| >= |pattern| {
      ReplaceAbsentPattern(s[1..], pattern, replacement);
      assert s == [s[0]] + s[1..];
    }
  }

  /** Stripping the right of a value followed by white space gives the
      value back, when the value does not end in white space. */
  lemma TrimRightPadded(v: string, w: string)
    requires AllSpace(w) && (v == [] || !IsSpace(v[|v| - 1]))
    ensures TrimRight(v + w) == v
  {
    var s := v + w;
    forall k | |v| <= k < |s|
      ensures IsSpace(s[k])
    {
      assert s[k] == w[k - |v|];
    }
    if v != [] {
      assert s[|v| - 1] == v[|v| - 1];
    }
    TrailStartAt(s, |s|, |v|);
    assert s[..|v|] == v;
  }

  /** Replacing a character by another keeps the length, changes only that
      character, and leaves none of it behind. */
  lemma {:induction false} ReplaceChar(s: string, c: char, d: char)
    requires c != d
    ensures var r := Replace(s, [c], [d]);
      |r| == |s| && c !in r
      && forall i :: 0 <= i < |s| ==> r[i] == (if s[i] == c then d else s[i])
  {
    if |s| >= 1 {
      ReplaceChar(s[1..], c, d);
      var r := Replace(s, [c], [d]);
      var rest := Replace(s[1..], [c], [d]);
      assert r == [if s[0] == c then d else s[0]] + rest;
    }
  }

  /** Removing every occurrence of a character leaves none and keeps all the
      other characters in order. */
  lemma {:induction false} RemoveChar(s: string, c: char)
    ensures var r := Replace(s, [c], []);
      c !in r && |r| <= |s| && (c !in s ==> r == s)
      && (|s| == 1 ==> r == if s[0] == c then [] else s)
  {
    if |s| >= 1 {
      RemoveChar(s[1..], c);
    }
  }

  /** Removing a character from a string that starts with `x`. */
  lemma RemoveCharCons(x: char, t: string, c: char)
    ensures Replace([x] + t, [c], []) == (if x == c then [] else [x]) + Replace(t, [c], [])
  {
    var s := [x] + t;
    assert s[..1] == [x] && s[1..] == t;
  }

  /** Removing a character works piece by piece: the result for `a + b` is
      the result for `a` followed by the result for `b`, so together with
      the one-character case of RemoveChar every other character survives
      in its place in the order. */
  lemma {:induction false} RemoveCharAppend(a: string, b: string, c: char)
    ensures Replace(a + b, [c], []) == Replace(a, [c], []) + Replace(b, [c], [])
    decreases |a|
  {
    if a != [] {
      RemoveCharAppend(a[1..], b, c);
      var s := a + b;
      assert s[0] == a[0] && s[1..] == a[1..] + b;
      assert s[..1] == [s[0]] && a[..1] == [a[0]];
      var head := if a[0] == c then [] else [a[0]];
      assert Replace(s, [c], []) == head + Replace(a[1..] + b, [c], []);
      assert Replace(a, [c], []) == head + Replace(a[1..], [c], []);
    } else {
      assert a + b == b;
    }
  }

  function DigitValue(c: char): nat
    requires IsDigit(c)
  {
    c as int - '0' as int
  }

  /** `int(s)` for a non-empty run of ASCII digits. */
  function ParseNat(s: string): nat
    requires AllDigits(s)
  {
    if s == [] then 0 else 10 * ParseNat(s[..|s| - 1]) + DigitValue(s[|s| - 1])
  }

  /** `str(n)` for a natural number: decimal digits without leading zeros. */
  function NatToString(n: nat): (s: string)
    ensures s != [] && AllDigits(s)
    ensures ParseNat(s) == n
    decreases n
  {
    var d := [('0' as int + n % 10) as char];
    if n < 10 then d
    else
      var s := NatToString(n / 10) + d;
      assert s[..|s| - 1] == NatToString(n / 10);
      s
  }

  // ---------------------------------------------------------------------
  // Sequence facts used by the proofs
  // ---------------------------------------------------------------------

  /** `rstrip` keeps every position up to a character that is not white
      space. */
  lemma TrimRightKeeps(s: string, k: nat)
    requires k < |s| && !IsSpace(s[k])
    ensures k < |TrimRight(s)|
  {
  }

  lemma AppendAssoc<T>(a: seq<T>, b: seq<T>, c: seq<T>)
    ensures a + (b + c) == (a + b) + c
  {
  }

  lemma AppendParts<T>(a: seq<T>, b: seq<T>)
    ensures (a + b)[..|a|] == a && (a + b)[|a|..] == b
  {
  }

  lemma SliceParts<T>(s: seq<T>, i: nat, j: nat)
    requires i <= j <= |s|
    ensures s == s[..i] + s[i..j] + s[j..]
  {
  }
}

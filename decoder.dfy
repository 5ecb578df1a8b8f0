/** `decode_payload`, identical in both scripts (live_gen1.py:39-65 and
    live_gen.py:37-63): a 46-symbol alphabet, five bits per symbol pushed
    into an unbounded integer buffer, one byte emitted whenever eight or
    more bits are buffered. The final UTF-8 decoding of the bytes is not
    modelled; the decoder's result here is the byte sequence. */
module Decoder {
  import opened Wrappers
  import opened Text

  /** `_CHARSET`: A-Z are worth 0-25, a-t are worth 26-45. */
  const Charset: string := "ABCDEFGHIJKLMNOPQRSTUVWXYZabcdefghijklmnopqrst"

  /** The number of symbols in the alphabet, `len(_CHARSET)`. */
  const SymbolCount: nat := 46

  /** The symbol of value `v`: A-Z for 0-25, a-t for 26-45. */
  function SymbolChar(v: nat): char
    requires v < SymbolCount
  {
    if v < 26 then ('A' as int + v) as char else ('a' as int + v - 26) as char
  }

  /** `_CHAR2VAL.get(c)`: the value of the alphabet symbol `c`, if it is one. */
  function CharValue(c: char): (v: Option<nat>)
    ensures v.Some? ==> v.value < SymbolCount && SymbolChar(v.value) == c
    ensures v.None? ==> forall k :: 0 <= k < SymbolCount ==> SymbolChar(k) != c
  {
    if 'A' <= c <= 'Z' then Some(c as int - 'A' as int)
    else if 'a' <= c <= 't' then Some(c as int - 'a' as int + 26)
    else None
  }

  predicate IsSymbol(c: char)
  {
    CharValue(c).Some?
  }

  lemma CharsetAt(i: nat)
    requires i < SymbolCount
    ensures |Charset| == SymbolCount && Charset[i] == SymbolChar(i)
  {
    CharsetHalves();
    if i < 26 {
      UpperAt(i);
    } else {
      LowerAt(i - 26);
    }
  }

  /** The two runs of letters `_CHARSET` is written as. */
  const UpperSymbols: string := "ABCDEFGHIJKLMNOPQRSTUVWXYZ"
  const LowerSymbols: string := "abcdefghijklmnopqrst"

  lemma CharsetHalves()
    ensures Charset == UpperSymbols + LowerSymbols
  {
  }

  lemma UpperAt(i: nat)
    requires i < 26
    ensures |UpperSymbols| == 26 && UpperSymbols[i] == ('A' as int + i) as char
  {
  }

  lemma LowerAt(i: nat)
    requires i < 20
    ensures |LowerSymbols| == 20 && LowerSymbols[i] == ('a' as int + i) as char
  {
  }

  /** `SymbolChar` and `CharValue` are the table `_CHARSET` and its inverse
      `_CHAR2VAL`: the `i`-th character of the table has value `i`, and the
      characters with a value are exactly those of the table. */
  lemma CharsetTable(c: char)
    ensures |Charset| == SymbolCount
    ensures forall i :: 0 <= i < SymbolCount ==> Charset[i] == SymbolChar(i) && CharValue(Charset[i]) == Some(i)
    ensures IsSymbol(c) <==> c in Charset
  {
    CharsetAt(0);
    forall i | 0 <= i < SymbolCount
      ensures Charset[i] == SymbolChar(i) && CharValue(Charset[i]) == Some(i)
    {
      CharsetAt(i);
    }
    if c in Charset {
      var i :| 0 <= i < SymbolCount && Charset[i] == c;
      CharsetAt(i);
    }
    if IsSymbol(c) {
      CharsetAt(CharValue(c).value);
    }
  }

  /** Characters the substitution `[=\n\r\s]` deletes before decoding. */
  predicate Deleted(c: char)
  {
    c == '=' || IsSpace(c)
  }

  /** `re.sub(r"[=\n\r\s]", "", s)`. */
  function Clean(s: string): (r: string)
    ensures forall i :: 0 <= i < |r| ==> !Deleted(r[i])
  {
    if s == [] then []
    else Clean(s[..|s| - 1]) + (if Deleted(s[|s| - 1]) then [] else [s[|s| - 1]])
  }

  /** The values of the alphabet symbols of `s`, in order; every other
      character is skipped. */
  function Symbols(s: string): (vals: seq<nat>)
    ensures |vals| <= |s|
    ensures forall i :: 0 <= i < |vals| ==> vals[i] < SymbolCount
  {
    if s == [] then []
    else
      var init := Symbols(s[..|s| - 1]);
      match CharValue(s[|s| - 1])
      case Some(v) => init + [v]
      case None => init
  }

  function Pow2(n: nat): (p: nat)
    ensures p >= 1
  {
    if n == 0 then 1 else 2 * Pow2(n - 1)
  }

  /** Python's `(buffer << 5) | val` for `val < 64`, on unbounded integers:
      the low five bits are `val % 32`, and a value of 32 or more also sets
      bit 5, the lowest bit of the shifted buffer. */
  function ShiftIn(buffer: nat, val: nat): nat
    requires val < 64
  {
    (if val >= 32 && buffer % 2 == 0 then buffer + 1 else buffer) * 32 + val % 32
  }

  /** The decoder's three variables: `buffer`, `bits` and `out`. */
  datatype Decoding = Decoding(buffer: nat, bits: nat, out: seq<nat>)

  /** The inner `while bits >= 8` loop: emit `(buffer >> bits) & 0xFF`, keep
      the low `bits` bits. */
  function Emit(st: Decoding): Decoding
    decreases st.bits
  {
    if st.bits < 8 then st
    else
      var bits := st.bits - 8;
      Emit(Decoding(st.buffer % Pow2(bits), bits, st.out + [(st.buffer / Pow2(bits)) % 256]))
  }

  /** The inner loop leaves fewer than eight bits, appends one byte per
      eight bits it removes, and keeps what was already emitted. */
  lemma {:induction false} EmitShape(st: Decoding)
    ensures var r := Emit(st);
      r.bits == st.bits % 8 && |r.out| == |st.out| + st.bits / 8
      && r.out[..|st.out|] == st.out
      && forall i :: |st.out| <= i < |r.out| ==> r.out[i] < 256
    decreases st.bits
  {
    if st.bits >= 8 {
      var next := EmitStep(st);
      EmitShape(next);
      var r := Emit(next);
      assert r.out[..|next.out|][..|st.out|] == r.out[..|st.out|];
      Div8Step(st.bits);
      forall i | |st.out| <= i < |r.out|
        ensures r.out[i] < 256
      {
        if i < |next.out| {
          assert r.out[i] == r.out[..|next.out|][i];
        }
      }
    }
  }

  lemma Div8Step(n: nat)
    requires n >= 8
    ensures n % 8 == (n - 8) % 8 && n / 8 == (n - 8) / 8 + 1
  {
    DivMod(n - 8, 8);
    DivModUnique(n, 8, (n - 8) / 8 + 1, (n - 8) % 8);
  }

  /** One turn of the inner loop, with the arithmetic kept out of view. */
  lemma EmitStep(st: Decoding) returns (next: Decoding)
    requires st.bits >= 8
    ensures next.bits == st.bits - 8 && |next.out| == |st.out| + 1
    ensures next.out[..|st.out|] == st.out && next.out[|st.out|] < 256
    ensures Emit(st) == Emit(next)
  {
    var bits := st.bits - 8;
    next := Decoding(st.buffer % Pow2(bits), bits, st.out + [(st.buffer / Pow2(bits)) % 256]);
  }

  /** One pass of the outer loop for an alphabet symbol of value `val`. */
  function Feed(st: Decoding, val: nat): Decoding
    requires val < 64
  {
    Emit(Decoding(ShiftIn(st.buffer, val), st.bits + 5, st.out))
  }

  /** The decoder's state after the symbol values `vals`. After every
      symbol fewer than eight bits stay buffered and every emitted value is
      a byte, so `k` symbols give exactly `5k / 8` bytes. */
  function DecodeValues(vals: seq<nat>): (st: Decoding)
    requires forall i :: 0 <= i < |vals| ==> vals[i] < SymbolCount
    ensures st.bits < 8 && st.bits + 8 * |st.out| == 5 * |vals|
    ensures |st.out| == 5 * |vals| / 8
    ensures forall i :: 0 <= i < |st.out| ==> st.out[i] < 256
  {
    if vals == [] then Decoding(0, 0, [])
    else
      var st := DecodeValues(vals[..|vals| - 1]);
      var v := vals[|vals| - 1];
      EmitShape(Decoding(ShiftIn(st.buffer, v), st.bits + 5, st.out));
      Feed(st, v)
  }

  /** What `decode_payload(text)` decodes, as bytes. */
  function Decode(text: string): seq<nat>
  {
    DecodeValues(Symbols(text)).out
  }

  /** The inner `while bits >= 8` loop of `decode_payload`, on the
      decoder's three variables. */
  method EmitBytes(buffer0: nat, bits0: nat, out0: seq<nat>) returns (buffer: nat, bits: nat, out: seq<nat>)
    ensures Decoding(buffer, bits, out) == Emit(Decoding(buffer0, bits0, out0))
  {
    buffer, bits, out := buffer0, bits0, out0;
    while bits >= 8
      invariant Emit(Decoding(buffer, bits, out)) == Emit(Decoding(buffer0, bits0, out0))
      decreases bits
    {
      EmitUnfold(Decoding(buffer, bits, out));
      bits := bits - 8;
      out := out + [(buffer / Pow2(bits)) % 256];
      buffer := buffer % Pow2(bits);
    }
  }

  /** `decode_payload`: strip, delete `=` and white space, then run the
      bit-buffer loop. The result is the decoding of the input's alphabet
      symbols, `5k / 8` bytes for `k` symbols, each in 0..255. */
  method DecodePayload(text: string) returns (out: seq<nat>)
    ensures out == Decode(text)
    ensures |out| == 5 * |Symbols(text)| / 8
    ensures forall i :: 0 <= i < |out| ==> out[i] < 256
  {
    var cleaned := Clean(Strip(text));
    SymbolsOfCleaned(text);
    if cleaned == [] {
      return [];
    }
    var buffer: nat, bits: nat := 0, 0;
    out := [];
    ghost var vals: seq<nat> := [];
    for i := 0 to |cleaned|
      invariant vals == Symbols(cleaned[..i])
      invariant Decoding(buffer, bits, out) == DecodeValues(vals)
    {
      SymbolsStep(cleaned, i);
      var val := CharValue(cleaned[i]);
      if val.None? {
        continue;
      }
      DecodeValuesStep(vals, val.value);
      vals := vals + [val.value];
      buffer, bits, out := EmitBytes(ShiftIn(buffer, val.value), bits + 5, out);
    }
    assert cleaned[..|cleaned|] == cleaned;
  }

  /** Reading one more character adds its value, if it has one. */
  lemma SymbolsStep(s: string, i: nat)
    requires i < |s|
    ensures CharValue(s[i]).None? ==> Symbols(s[..i + 1]) == Symbols(s[..i])
    ensures CharValue(s[i]).Some? ==> Symbols(s[..i + 1]) == Symbols(s[..i]) + [CharValue(s[i]).value]
  {
    assert s[..i + 1][..i] == s[..i];
  }

  /** Reading one more symbol is one pass of the outer loop. */
  lemma DecodeValuesStep(vals: seq<nat>, v: nat)
    requires forall i :: 0 <= i < |vals| ==> vals[i] < SymbolCount
    requires v < SymbolCount
    ensures DecodeValues(vals + [v]) == Feed(DecodeValues(vals), v)
  {
    assert (vals + [v])[..|vals|] == vals;
  }

  // ---------------------------------------------------------------------
  // Skipping: only the alphabet symbols of the input matter.
  // ---------------------------------------------------------------------

  lemma {:induction false} SymbolsAppend(a: string, b: string)
    ensures Symbols(a + b) == Symbols(a) + Symbols(b)
    decreases |b|
  {
    if b == [] {
      assert a + b == a;
    } else {
      var b' := b[..|b| - 1];
      assert (a + b)[..|a + b| - 1] == a + b';
      assert b[..|b| - 1] == b';
      SymbolsAppend(a, b');
    }
  }

  lemma {:induction false} SymbolsOfNonAlphabet(s: string)
    requires forall i :: 0 <= i < |s| ==> !IsSymbol(s[i])
    ensures Symbols(s) == []
  {
    if s != [] {
      SymbolsOfNonAlphabet(s[..|s| - 1]);
    }
  }

  lemma {:induction false} SymbolsOfClean(s: string)
    ensures Symbols(Clean(s)) == Symbols(s)
  {
    if s != [] {
      var init := s[..|s| - 1];
      var c := s[|s| - 1];
      SymbolsOfClean(init);
      var tail := if Deleted(c) then [] else [c];
      assert Clean(s) == Clean(init) + tail;
      SymbolsAppend(Clean(init), tail);
      SymbolsOfKept(c);
    }
  }

  /** What `Clean` keeps of one character has that character's symbols. */
  lemma SymbolsOfKept(c: char)
    ensures Symbols(if Deleted(c) then [] else [c]) == if CharValue(c).Some? then [CharValue(c).value] else []
  {
    SymbolsOne(c);
    if Deleted(c) {
      assert CharValue(c).None?;
    }
  }

  lemma SymbolsOne(c: char)
    ensures Symbols([c]) == if CharValue(c).Some? then [CharValue(c).value] else []
  {
    assert [c][..0] == [];
  }

  /** White space is not part of the alphabet. */
  lemma SpaceIsNotSymbol(s: string)
    requires AllSpace(s)
    ensures forall i :: 0 <= i < |s| ==> !IsSymbol(s[i])
  {
    forall i | 0 <= i < |s|
      ensures !IsSymbol(s[i])
    {
      var v := CharValue(s[i]);
      assert v.None?;
    }
  }

  /** Stripping and deleting `=` and white space never removes a symbol. */
  lemma SymbolsOfCleaned(text: string)
    ensures Symbols(Clean(Strip(text))) == Symbols(text)
  {
    var r := Strip(text);
    StripParts(text);
    var a := LeadingSpaces(text);
    var b := a + |r|;
    SymbolsOfClean(r);
    SliceParts(text, a, b);
    var pre, post := text[..a], text[b..];
    SymbolsAppend(pre + r, post);
    SymbolsAppend(pre, r);
    SpaceIsNotSymbol(pre);
    SpaceIsNotSymbol(post);
    SymbolsOfNonAlphabet(pre);
    SymbolsOfNonAlphabet(post);
  }

  /** Deleting a character outside the alphabet (`=`, white space or any
      stray character) from the input never changes what it decodes to. */
  lemma DecodeSkipsUnknown(a: string, c: char, b: string)
    requires !IsSymbol(c)
    ensures Decode(a + [c] + b) == Decode(a + b)
  {
    SymbolsAppend(a + [c], b);
    SymbolsAppend(a, [c]);
    SymbolsAppend(a, b);
    SymbolsOfNonAlphabet([c]);
  }

  /** An input without alphabet symbols (empty, all white space, padding or
      stray characters) decodes to nothing. */
  lemma DecodeWithoutSymbols(text: string)
    requires forall i :: 0 <= i < |text| ==> !IsSymbol(text[i])
    ensures Decode(text) == []
  {
    SymbolsOfNonAlphabet(text);
  }

  /** At most one byte is emitted per symbol, because fewer than eight bits
      remain buffered after each one. */
  lemma FeedEmitsAtMostOne(vals: seq<nat>, val: nat)
    requires forall i :: 0 <= i < |vals| ==> vals[i] < SymbolCount
    requires val < SymbolCount
    ensures var before := DecodeValues(vals).out;
            var after := DecodeValues(vals + [val]).out;
            after[..|before|] == before && |after| - |before| <= 1
  {
    var st := DecodeValues(vals);
    DecodeValuesStep(vals, val);
    EmitShape(Decoding(ShiftIn(st.buffer, val), st.bits + 5, st.out));
  }

  // ---------------------------------------------------------------------
  // Bits: for symbols below 32 the decoder packs their 5-bit values
  // most-significant bit first and cuts the stream into whole bytes.
  // ---------------------------------------------------------------------

  /** The low `w` bits of `x`, most significant first. */
  function Bits(x: nat, w: nat): (bs: seq<bool>)
    ensures |bs| == w
  {
    if w == 0 then [] else Bits(x / 2, w - 1) + [x % 2 == 1]
  }

  /** The number a bit string denotes, most significant bit first. */
  function BitsValue(bs: seq<bool>): nat
  {
    if bs == [] then 0 else 2 * BitsValue(bs[..|bs| - 1]) + (if bs[|bs| - 1] then 1 else 0)
  }

  /** The 5-bit groups of the symbol values, concatenated. */
  function SymbolBits(vals: seq<nat>): (bs: seq<bool>)
    ensures |bs| == 5 * |vals|
  {
    if vals == [] then [] else SymbolBits(vals[..|vals| - 1]) + Bits(vals[|vals| - 1], 5)
  }

  /** The 8-bit groups of the bytes, concatenated. */
  function ByteBits(bytes: seq<nat>): (bs: seq<bool>)
    ensures |bs| == 8 * |bytes|
  {
    if bytes == [] then [] else Bits(bytes[0], 8) + ByteBits(bytes[1..])
  }

  /** The whole bytes of a bit stream; a trailing part shorter than eight
      bits is dropped. */
  function Pack(bs: seq<bool>): (bytes: seq<nat>)
    ensures |bytes| == |bs| / 8
  {
    if |bs| < 8 then [] else [BitsValue(bs[..8])] + Pack(bs[8..])
  }

  lemma Pow2Add(a: nat, b: nat)
    ensures Pow2(a + b) == Pow2(a) * Pow2(b)
  {
    if b > 0 {
      Pow2Add(a, b - 1);
      assert Pow2(a + b) == 2 * Pow2(a + b - 1);
    }
  }

  lemma DivMod(x: int, d: int)
    requires d > 0
    ensures x == d * (x / d) + x % d && 0 <= x % d < d
  {
  }

  lemma MulAssoc(a: int, b: int, c: int)
    ensures a * (b * c) == (a * b) * c
  {
  }

  lemma MulComm(a: int, b: int)
    ensures a * b == b * a
  {
  }

  lemma MulAtLeastBy(d: int, k: int, m: int)
    requires d > 0 && k >= m
    ensures d * k >= d * m
  {
    assert d * k == d * m + d * (k - m);
  }

  lemma MulAtLeast(d: int, k: int)
    requires d > 0 && k >= 1
    ensures d * k >= d
  {
    var j := k - 1;
    assert d * k == d * j + d;
    assert d * j >= 0;
  }

  lemma DivModUnique(x: int, d: int, q: int, r: int)
    requires d > 0 && 0 <= r < d && x == d * q + r
    ensures x / d == q && x % d == r
  {
    var q', r' := x / d, x % d;
    assert x == d * q' + r';
    assert d * (q - q') == r' - r;
    if q > q' {
      MulAtLeast(d, q - q');
    } else if q < q' {
      MulAtLeast(d, q' - q);
    }
  }
  /** The bits of `x * 2^w2 + y` are those of `x` followed by those of `y`. */
  lemma {:induction false} BitsConcat(x: nat, w1: nat, y: nat, w2: nat)
    requires y < Pow2(w2)
    ensures Bits(x * Pow2(w2) + y, w1 + w2) == Bits(x, w1) + Bits(y, w2)
    decreases w2
  {
    if w2 > 0 {
      var p := Pow2(w2 - 1);
      var m := x * p;
      assert x * Pow2(w2) == 2 * m;
      var z := x * Pow2(w2) + y;
      assert z / 2 == m + y / 2 && z % 2 == y % 2;
      assert y / 2 < p;
      BitsConcat(x, w1, y / 2, w2 - 1);
    }
  }

  lemma {:induction false} BitsValueOfBits(x: nat, w: nat)
    ensures BitsValue(Bits(x, w)) == x % Pow2(w)
  {
    if w > 0 {
      BitsValueOfBits(x / 2, w - 1);
      var bs := Bits(x, w);
      assert bs[..|bs| - 1] == Bits(x / 2, w - 1);
      var p := Pow2(w - 1);
      var h := x / 2;
      var a, c := h / p, h % p;
      DivMod(h, p);
      DivMod(x, 2);
      MulAssoc(2, p, a);
      assert x == (2 * p) * a + (2 * c + x % 2);
      DivModUnique(x, 2 * p, a, 2 * c + x % 2);
    }
  }

  lemma {:induction false} BitsOfBitsValue(bs: seq<bool>)
    ensures BitsValue(bs) < Pow2(|bs|)
    ensures Bits(BitsValue(bs), |bs|) == bs
  {
    if bs != [] {
      var init := bs[..|bs| - 1];
      BitsOfBitsValue(init);
      var v := BitsValue(bs);
      var b := if bs[|bs| - 1] then 1 else 0;
      assert v == 2 * BitsValue(init) + b;
      assert v / 2 == BitsValue(init) && v % 2 == b;
      assert bs == init + [bs[|bs| - 1]];
    }
  }

  lemma {:induction false} ByteBitsAppend(bytes: seq<nat>, b: nat)
    ensures ByteBits(bytes + [b]) == ByteBits(bytes) + Bits(b, 8)
  {
    if bytes != [] {
      assert (bytes + [b])[1..] == bytes[1..] + [b];
      ByteBitsAppend(bytes[1..], b);
    } else {
      assert [b][1..] == [];
    }
  }

  lemma EmitStepSeq(buffer: nat, e: nat, out: seq<nat>, x: nat, y: nat)
    requires Bits(buffer, e + 8) == Bits(x, 8) + Bits(y, e)
    ensures ByteBits(out + [x]) + Bits(y, e) == ByteBits(out) + Bits(buffer, e + 8)
  {
    ByteBitsAppend(out, x);
  }

  lemma Split8(buffer: nat, e: nat) returns (x: nat, y: nat)
    requires buffer < Pow2(e + 8)
    ensures x == buffer / Pow2(e) && y == buffer % Pow2(e)
    ensures x < 256 && Bits(buffer, e + 8) == Bits(x, 8) + Bits(y, e)
  {
    var p := Pow2(e);
    x, y := buffer / p, buffer % p;
    assert y < p && buffer == x * p + y by {
      DivMod(buffer, p);
      MulComm(p, x);
    }
    assert x < 256 by {
      Pow2Add(8, e);
      assert Pow2(8) == 256;
      if x >= 256 {
        MulAtLeastBy(p, x, 256);
        MulComm(p, x);
        MulComm(p, 256);
      }
    }
    BitsConcat(x, 8, y, e);
  }

  lemma EmitUnfold(st: Decoding)
    requires st.bits >= 8
    ensures var e := st.bits - 8;
      Emit(st) == Emit(Decoding(st.buffer % Pow2(e), e, st.out + [(st.buffer / Pow2(e)) % 256]))
  {
  }

  /** The inner loop moves whole bytes from the buffer to the output, so
      output bits followed by buffered bits stay the same. */
  lemma {:induction false} EmitKeepsBits(st: Decoding)
    requires st.buffer < Pow2(st.bits)
    ensures var r := Emit(st);
      r.buffer < Pow2(r.bits)
      && ByteBits(r.out) + Bits(r.buffer, r.bits) == ByteBits(st.out) + Bits(st.buffer, st.bits)
    decreases st.bits
  {
    if st.bits >= 8 {
      var e := st.bits - 8;
      var x, y := Split8(st.buffer, e);
      EmitStepSeq(st.buffer, e, st.out, x, y);
      assert x % 256 == x;
      EmitUnfold(st);
      var next := Decoding(y, e, st.out + [x]);
      EmitKeepsBits(next);
    }
  }

  lemma DecodeValuesUnfold(vals: seq<nat>)
    requires vals != [] && forall i :: 0 <= i < |vals| ==> vals[i] < SymbolCount
    ensures var st := DecodeValues(vals[..|vals| - 1]);
      DecodeValues(vals) == Emit(Decoding(ShiftIn(st.buffer, vals[|vals| - 1]), st.bits + 5, st.out))
  {
  }

  /** Shifting a symbol below 32 into the buffer appends its five bits. */
  lemma ShiftInBits(buffer: nat, bits: nat, v: nat)
    requires buffer < Pow2(bits) && v < 32
    ensures ShiftIn(buffer, v) < Pow2(bits + 5)
    ensures Bits(ShiftIn(buffer, v), bits + 5) == Bits(buffer, bits) + Bits(v, 5)
  {
    assert Pow2(5) == 32;
    assert ShiftIn(buffer, v) == buffer * Pow2(5) + v;
    BitsConcat(buffer, bits, v, 5);
    assert ShiftIn(buffer, v) < Pow2(bits + 5) by {
      Pow2Add(bits, 5);
      MulAtLeastBy(32, Pow2(bits), buffer + 1);
      MulComm(32, Pow2(bits));
      MulComm(32, buffer + 1);
    }
  }

  /** With symbols below 32, output bits followed by buffered bits are
      exactly the 5-bit groups of the symbols read so far. */
  lemma {:induction false} DecodeKeepsBits(vals: seq<nat>)
    requires forall i :: 0 <= i < |vals| ==> vals[i] < 32
    ensures var st := DecodeValues(vals);
      st.buffer < Pow2(st.bits) && ByteBits(st.out) + Bits(st.buffer, st.bits) == SymbolBits(vals)
  {
    if vals != [] {
      var init, v := vals[..|vals| - 1], vals[|vals| - 1];
      var st := DecodeValues(init);
      var a, b := ByteBits(st.out), Bits(st.buffer, st.bits);
      assert st.buffer < Pow2(st.bits) && a + b == SymbolBits(init) by {
        DecodeKeepsBits(init);
      }
      ShiftInBits(st.buffer, st.bits, v);
      var next := Decoding(ShiftIn(st.buffer, v), st.bits + 5, st.out);
      DecodeValuesUnfold(vals);
      EmitKeepsBits(next);
      AppendAssoc(a, b, Bits(v, 5));
      assert SymbolBits(vals) == SymbolBits(init) + Bits(v, 5);
    }
  }

  lemma {:induction false} PackByteBits(bytes: seq<nat>, tail: seq<bool>)
    requires forall i :: 0 <= i < |bytes| ==> bytes[i] < 256
    requires |tail| < 8
    ensures Pack(ByteBits(bytes) + tail) == bytes
  {
    if bytes == [] {
      assert ByteBits(bytes) + tail == tail;
    } else {
      var rest := ByteBits(bytes[1..]) + tail;
      ByteBitsCons(bytes, tail);
      PackCons(Bits(bytes[0], 8), rest);
      ByteValue(bytes[0]);
      PackByteBits(bytes[1..], tail);
      assert bytes == [bytes[0]] + bytes[1..];
    }
  }

  lemma ByteBitsCons(bytes: seq<nat>, tail: seq<bool>)
    requires bytes != []
    ensures ByteBits(bytes) + tail == Bits(bytes[0], 8) + (ByteBits(bytes[1..]) + tail)
  {
    AppendAssoc(Bits(bytes[0], 8), ByteBits(bytes[1..]), tail);
  }

  lemma ByteValue(b: nat)
    requires b < 256
    ensures BitsValue(Bits(b, 8)) == b
  {
    Pow2Of8();
    SmallBitsValue(b, 8);
  }

  lemma Pow2Of8()
    ensures Pow2(8) == 256
  {
  }

  lemma SmallBitsValue(x: nat, w: nat)
    requires x < Pow2(w)
    ensures BitsValue(Bits(x, w)) == x
  {
    BitsValueOfBits(x, w);
    DivModUnique(x, Pow2(w), 0, x);
  }

  lemma PackCons(head: seq<bool>, rest: seq<bool>)
    requires |head| == 8
    ensures Pack(head + rest) == [BitsValue(head)] + Pack(rest)
  {
    AppendParts(head, rest);
  }

  /** For symbols below 32 the decoder's bytes are the whole bytes of the
      symbols' 5-bit groups, most significant bit first. */
  lemma DecodeIsPack(vals: seq<nat>)
    requires forall i :: 0 <= i < |vals| ==> vals[i] < 32
    ensures DecodeValues(vals).out == Pack(SymbolBits(vals))
  {
    DecodeKeepsBits(vals);
    var st := DecodeValues(vals);
    PackByteBits(st.out, Bits(st.buffer, st.bits));
  }

  // ---------------------------------------------------------------------
  // The matching encoder, and the round trip.
  // ---------------------------------------------------------------------

  /** Cuts a bit stream into 5-bit group values, padding the last group
      with zero bits. */
  function Groups(bs: seq<bool>): (vals: seq<nat>)
    ensures forall i :: 0 <= i < |vals| ==> vals[i] < 32
    decreases |bs|
  {
    if bs == [] then []
    else if |bs| < 5 then
      var g := bs + seq(5 - |bs|, _ => false);
      BitsOfBitsValue(g);
      assert Pow2(5) == 32;
      [BitsValue(g)]
    else
      BitsOfBitsValue(bs[..5]);
      assert Pow2(5) == 32;
      [BitsValue(bs[..5])] + Groups(bs[5..])
  }

  /** The encoding `decode_payload` undoes: each byte's bits, most
      significant first, written five at a time as the symbols A-Z, a-f. */
  function Encode(bytes: seq<nat>): (text: string)
    requires forall i :: 0 <= i < |bytes| ==> bytes[i] < 256
  {
    var vals := Groups(ByteBits(bytes));
    seq(|vals|, i requires 0 <= i < |vals| => SymbolChar(vals[i]))
  }

  lemma {:induction false} SymbolBitsAppend(a: seq<nat>, b: seq<nat>)
    ensures SymbolBits(a + b) == SymbolBits(a) + SymbolBits(b)
    decreases |b|
  {
    if b == [] {
      assert a + b == a;
    } else {
      var b' := b[..|b| - 1];
      assert (a + b)[..|a + b| - 1] == a + b';
      SymbolBitsAppend(a, b');
    }
  }

  /** The groups' bits are the stream followed by fewer than five zeros. */
  lemma {:induction false} SymbolBitsOfGroups(bs: seq<bool>)
    ensures var r := SymbolBits(Groups(bs));
      |bs| <= |r| < |bs| + 5 && r[..|bs|] == bs
    decreases |bs|
  {
    if bs == [] {
    } else if |bs| < 5 {
      var g := bs + seq(5 - |bs|, _ => false);
      BitsOfBitsValue(g);
      assert [BitsValue(g)][..0] == [];
      assert SymbolBits([BitsValue(g)]) == Bits(BitsValue(g), 5);
      assert g[..|bs|] == bs;
    } else {
      BitsOfBitsValue(bs[..5]);
      SymbolBitsOfGroups(bs[5..]);
      var head := [BitsValue(bs[..5])];
      assert [BitsValue(bs[..5])][..0] == [];
      assert SymbolBits(head) == bs[..5];
      SymbolBitsAppend(head, Groups(bs[5..]));
      var rest := SymbolBits(Groups(bs[5..]));
      assert bs == bs[..5] + bs[5..];
      assert (bs[..5] + rest)[..|bs|] == bs[..5] + rest[..|bs| - 5];
    }
  }

  lemma {:induction false} SymbolsOfEncoded(vals: seq<nat>)
    requires forall i :: 0 <= i < |vals| ==> vals[i] < 32
    ensures Symbols(seq(|vals|, i requires 0 <= i < |vals| => SymbolChar(vals[i]))) == vals
  {
    if vals != [] {
      var init := vals[..|vals| - 1];
      var s := seq(|vals|, i requires 0 <= i < |vals| => SymbolChar(vals[i]));
      var s' := seq(|init|, i requires 0 <= i < |init| => SymbolChar(init[i]));
      assert s[..|s| - 1] == s';
      SymbolsOfEncoded(init);
      var c := s[|s| - 1];
      assert c == SymbolChar(vals[|vals| - 1]);
      var v := CharValue(c);
      assert v.Some? && v.value == vals[|vals| - 1];
      assert vals == init + [vals[|vals| - 1]];
    }
  }

  /** The round trip: decoding the encoding of any byte string gives the
      byte string back. */
  lemma DecodeEncode(bytes: seq<nat>)
    requires forall i :: 0 <= i < |bytes| ==> bytes[i] < 256
    ensures Decode(Encode(bytes)) == bytes
  {
    var bs := ByteBits(bytes);
    var vals := Groups(bs);
    assert Symbols(Encode(bytes)) == vals by {
      SymbolsOfEncoded(vals);
    }
    assert Decode(Encode(bytes)) == Pack(SymbolBits(vals)) by {
      DecodeIsPack(vals);
    }
    SymbolBitsOfGroups(bs);
    PackPrefix(bytes, SymbolBits(vals));
  }

  /** A stream that starts with the bytes' bits and has fewer than eight
      more packs to the bytes. */
  lemma PackPrefix(bytes: seq<nat>, r: seq<bool>)
    requires forall i :: 0 <= i < |bytes| ==> bytes[i] < 256
    requires var bs := ByteBits(bytes); |bs| <= |r| < |bs| + 5 && r[..|bs|] == bs
    ensures Pack(r) == bytes
  {
    var n := |ByteBits(bytes)|;
    SliceParts(r, n, n);
    PackByteBits(bytes, r[n..]);
  }
}

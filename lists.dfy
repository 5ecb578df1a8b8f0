/** List operations the scripts write as loops or comprehensions: removing
    repeated entries while keeping the first one, and keeping the entries
    a predicate accepts. */
module Lists {

  predicate NoDup<T(==)>(s: seq<T>)
  {
    forall i, j :: 0 <= i < j < |s| ==> s[i] != s[j]
  }

  /** The position of the first occurrence of `x` in `s`. */
  function FirstIndex<T(==)>(s: seq<T>, x: T): (i: nat)
    requires x in s
    ensures i < |s| && s[i] == x
    ensures forall j :: 0 <= j < i ==> s[j] != x
  {
    if s[0] == x then 0 else 1 + FirstIndex(s[1..], x)
  }

  /** The order-preserving de-duplication of live_gen1.py lines 122-129:
      an entry is kept when it has not been seen before. */
  function Dedup<T(==)>(s: seq<T>): (d: seq<T>)
    ensures |d| <= |s|
    ensures forall i :: 0 <= i < |d| ==> d[i] in s
    ensures forall i :: 0 <= i < |s| ==> s[i] in d
  {
    if s == [] then []
    else
      var p := Dedup(s[..|s| - 1]);
      var x := s[|s| - 1];
      assert s == s[..|s| - 1] + [x];
      if x in p then p else p + [x]
  }

  /** De-duplication leaves no repeated entry. */
  lemma {:induction false} DedupNoDup<T>(s: seq<T>)
    ensures NoDup(Dedup(s))
  {
    if s != [] {
      DedupNoDup(s[..|s| - 1]);
    }
  }

  /** A list without repeated entries is left as it is. */
  lemma {:induction false} DedupOfNoDup<T>(s: seq<T>)
    requires NoDup(s)
    ensures Dedup(s) == s
  {
    if s != [] {
      var q := s[..|s| - 1];
      assert NoDup(q);
      DedupOfNoDup(q);
      assert s[|s| - 1] !in q;
      assert q + [s[|s| - 1]] == s;
    }
  }

  lemma FirstIndexPrefix<T>(s: seq<T>, n: nat, x: T)
    requires n <= |s| && x in s[..n]
    ensures x in s && FirstIndex(s, x) == FirstIndex(s[..n], x)
  {
    var i := FirstIndex(s[..n], x);
    assert s[i] == s[..n][i];
    assert forall j :: 0 <= j < i ==> s[j] == s[..n][j];
    FirstIndexAt(s, x, i);
  }

  lemma FirstIndexAt<T>(s: seq<T>, x: T, i: nat)
    requires i < |s| && s[i] == x && forall j :: 0 <= j < i ==> s[j] != x
    ensures FirstIndex(s, x) == i
  {
    var k := FirstIndex(s, x);
    assert !(k < i) && !(i < k);
  }

  /** The entries of `d`, all taken from `s`, appear in the order of their
      first occurrence in `s`. */
  predicate FirstSeenOrder<T(==)>(s: seq<T>, d: seq<T>)
    requires forall i :: 0 <= i < |d| ==> d[i] in s
  {
    forall i, j :: 0 <= i < j < |d| ==> FirstIndex(s, d[i]) < FirstIndex(s, d[j])
  }

  /** The kept entries appear in the order of their first occurrence. */
  lemma {:induction false} DedupFirstSeenOrder<T>(s: seq<T>)
    ensures FirstSeenOrder(s, Dedup(s))
  {
    if s != [] {
      var q := s[..|s| - 1];
      var x := s[|s| - 1];
      var p := Dedup(q);
      DedupFirstSeenOrder(q);
      PrefixOrder(s, q, p);
      if x !in p {
        assert x !in q;
        FirstIndexAt(s, x, |q|);
        AppendLast(s, q, p, x);
      }
    }
  }

  lemma PrefixOrder<T>(s: seq<T>, q: seq<T>, p: seq<T>)
    requires |q| <= |s| && q == s[..|q|]
    requires forall i :: 0 <= i < |p| ==> p[i] in q
    requires FirstSeenOrder(q, p)
    ensures forall i :: 0 <= i < |p| ==> p[i] in s && FirstIndex(s, p[i]) == FirstIndex(q, p[i]) < |q|
    ensures FirstSeenOrder(s, p)
  {
    forall i | 0 <= i < |p|
      ensures p[i] in s && FirstIndex(s, p[i]) == FirstIndex(q, p[i])
    {
      FirstIndexPrefix(s, |q|, p[i]);
    }
  }

  lemma AppendLast<T>(s: seq<T>, q: seq<T>, p: seq<T>, x: T)
    requires forall i :: 0 <= i < |p| ==> p[i] in s && FirstIndex(s, p[i]) < |q|
    requires FirstSeenOrder(s, p)
    requires x in s && FirstIndex(s, x) == |q|
    ensures FirstSeenOrder(s, p + [x])
  {
    var d := p + [x];
    forall i, j | 0 <= i < j < |d|
      ensures FirstIndex(s, d[i]) < FirstIndex(s, d[j])
    {
      assert d[i] == p[i];
      if j < |p| {
        assert d[j] == p[j];
      }
    }
  }

  /** The entries of `s` that `p` accepts, in their order. */
  function Filter<T(==)>(s: seq<T>, p: T -> bool): (r: seq<T>)
    ensures |r| <= |s|
    ensures forall i :: 0 <= i < |r| ==> r[i] in s && p(r[i])
    ensures forall i :: 0 <= i < |s| && p(s[i]) ==> s[i] in r
  {
    if s == [] then [] else (if p(s[0]) then [s[0]] else []) + Filter(s[1..], p)
  }

  /** Filtering a concatenation filters each part: the order is kept. */
  lemma {:induction false} FilterAppend<T>(a: seq<T>, b: seq<T>, p: T -> bool)
    ensures Filter(a + b, p) == Filter(a, p) + Filter(b, p)
  {
    if a == [] {
      assert a + b == b;
    } else {
      assert (a + b)[1..] == a[1..] + b;
      FilterAppend(a[1..], b, p);
    }
  }

  lemma FilterOne<T>(x: T, p: T -> bool)
    ensures Filter([x], p) == if p(x) then [x] else []
  {
    assert [x][1..] == [];
  }

  /** The first entry `Filter` keeps is the first entry `p` accepts. */
  lemma {:induction false} FilterFirst<T>(s: seq<T>, p: T -> bool) returns (j: nat)
    requires Filter(s, p) != []
    ensures j < |s| && s[j] == Filter(s, p)[0] && p(s[j])
    ensures forall i :: 0 <= i < j ==> !p(s[i])
  {
    if p(s[0]) {
      j := 0;
    } else {
      assert Filter(s, p) == Filter(s[1..], p);
      var k := FilterFirst(s[1..], p);
      j := k + 1;
    }
  }

  /** An accepted entry is kept as often as it occurs; a rejected one is
      dropped every time. */
  lemma {:induction false} FilterCount<T>(s: seq<T>, p: T -> bool, x: T)
    ensures multiset(Filter(s, p))[x] == if p(x) then multiset(s)[x] else 0
  {
    if s != [] {
      FilterCount(s[1..], p, x);
      FilterConsMultiset(s, p);
      MultisetCons(s);
    }
  }

  lemma FilterConsMultiset<T>(s: seq<T>, p: T -> bool)
    requires s != []
    ensures multiset(Filter(s, p))
      == (if p(s[0]) then multiset{s[0]} else multiset{}) + multiset(Filter(s[1..], p))
  {
    var h: seq<T> := if p(s[0]) then [s[0]] else [];
    assert Filter(s, p) == h + Filter(s[1..], p);
  }

  lemma MultisetCons<T>(s: seq<T>)
    requires s != []
    ensures multiset(s) == multiset{s[0]} + multiset(s[1..])
  {
    assert s == [s[0]] + s[1..];
  }
}

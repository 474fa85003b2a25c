/** Order-preserving filtering of sequences, the shape of JavaScript's
    `Array.prototype.filter`, which the store uses for the catalog search,
    the cart line removal and the per-user order listing. */
module Seqs {

  /** The elements of `s` that satisfy `f`, in their original order. */
  function Filter<T>(f: T -> bool, s: seq<T>): (r: seq<T>)
    ensures |r| <= |s|
    ensures forall i :: 0 <= i < |r| ==> r[i] in s && f(r[i])
    ensures forall i :: 0 <= i < |s| && f(s[i]) ==> s[i] in r
  {
    if |s| == 0 then []
    else if f(s[0]) then [s[0]] + Filter(f, s[1..])
    else Filter(f, s[1..])
  }

  /** The position of the first element that satisfies `f`, or -1 when
      there is none (`Array.prototype.findIndex`). */
  function FindIndex<T>(f: T -> bool, s: seq<T>): (k: int)
    ensures -1 <= k < |s|
    ensures k >= 0 ==> f(s[k])
    ensures forall j :: 0 <= j < |s| && (k == -1 || j < k) ==> !f(s[j])
  {
    if |s| == 0 then -1
    else if f(s[0]) then 0
    else
      var k := FindIndex(f, s[1..]);
      if k == -1 then -1 else k + 1
  }

  /** `a` can be obtained from `b` by deleting elements: `a` keeps `b`'s order. */
  predicate IsSubsequence<T(==)>(a: seq<T>, b: seq<T>)
  {
    |a| == 0 ||
    (|b| > 0 && ((a[0] == b[0] && IsSubsequence(a[1..], b[1..])) || IsSubsequence(a, b[1..])))
  }

  /** Two adjacent slices of a prefix join into the longer prefix. */
  lemma SliceJoin<T>(s: seq<T>, i: int, j: int)
    requires 0 <= i <= j <= |s|
    ensures s[..i] + s[i..j] == s[..j]
  {
  }

  /** No element occurs twice. */
  predicate Distinct<T(==)>(s: seq<T>)
  {
    forall i, j :: 0 <= i < j < |s| ==> s[i] != s[j]
  }

  /** Filtering keeps the order of what it keeps. */
  lemma {:induction false} FilterIsSubsequence<T>(f: T -> bool, s: seq<T>)
    ensures IsSubsequence(Filter(f, s), s)
  {
    if |s| > 0 {
      FilterIsSubsequence(f, s[1..]);
      var r := Filter(f, s);
      if f(s[0]) {
        assert r[0] == s[0] && r[1..] == Filter(f, s[1..]);
      }
    }
  }

  /** Filtering distributes over concatenation. */
  lemma {:induction false} FilterAppend<T>(f: T -> bool, a: seq<T>, b: seq<T>)
    ensures Filter(f, a + b) == Filter(f, a) + Filter(f, b)
  {
    if |a| == 0 {
      assert a + b == b;
    } else {
      assert (a + b)[0] == a[0] && (a + b)[1..] == a[1..] + b;
      FilterAppend(f, a[1..], b);
    }
  }

  /** Filtering twice by the same test is filtering once. */
  lemma {:induction false} FilterIdempotent<T>(f: T -> bool, s: seq<T>)
    ensures Filter(f, Filter(f, s)) == Filter(f, s)
  {
    if |s| > 0 {
      FilterIdempotent(f, s[1..]);
      if f(s[0]) {
        var r := Filter(f, s);
        assert r[0] == s[0] && r[1..] == Filter(f, s[1..]);
      }
    }
  }

  /** When every element passes, nothing is removed. */
  lemma {:induction false} FilterKeepsAll<T>(f: T -> bool, s: seq<T>)
    requires forall i :: 0 <= i < |s| ==> f(s[i])
    ensures Filter(f, s) == s
  {
    if |s| > 0 {
      FilterKeepsAll(f, s[1..]);
      assert [s[0]] + s[1..] == s;
    }
  }

  /** Two tests that agree on every element of `s` filter it alike. */
  lemma {:induction false} FilterCongruent<T>(f: T -> bool, g: T -> bool, s: seq<T>)
    requires forall i :: 0 <= i < |s| ==> f(s[i]) == g(s[i])
    ensures Filter(f, s) == Filter(g, s)
  {
    if |s| > 0 {
      FilterCongruent(f, g, s[1..]);
    }
  }

  /** Filtering by `f` and then by `g` is filtering once by their conjunction `h`. */
  lemma {:induction false} FilterFilter<T>(f: T -> bool, g: T -> bool, h: T -> bool, s: seq<T>)
    requires forall i :: 0 <= i < |s| ==> h(s[i]) == (f(s[i]) && g(s[i]))
    ensures Filter(g, Filter(f, s)) == Filter(h, s)
  {
    if |s| > 0 {
      FilterFilter(f, g, h, s[1..]);
      if f(s[0]) {
        var r := Filter(f, s);
        assert r[0] == s[0] && r[1..] == Filter(f, s[1..]);
      }
    }
  }

  /** Without repeats, the tail has none either and lacks the head. */
  lemma DistinctTail<T>(s: seq<T>)
    requires Distinct(s) && |s| > 0
    ensures Distinct(s[1..]) && s[0] !in s[1..]
  {
    var tail := s[1..];
    forall i, j | 0 <= i < j < |tail| ensures tail[i] != tail[j] {
      assert tail[i] == s[i + 1] && tail[j] == s[j + 1];
    }
    forall m | 0 <= m < |tail| ensures tail[m] != s[0] {
      assert tail[m] == s[m + 1];
    }
  }

  /** An element of a non-empty sequence is its head or is in its tail. */
  lemma InHeadOrTail<T>(s: seq<T>)
    requires |s| > 0
    ensures forall x :: x in s <==> x == s[0] || x in s[1..]
  {
    assert s == [s[0]] + s[1..];
  }

  /** Without repeats, the length of a filtered sequence is the number of
      distinct elements that pass the test, `passing`. */
  lemma {:induction false} FilterCardinality<T>(f: T -> bool, s: seq<T>, passing: set<T>)
    requires Distinct(s)
    requires forall x :: x in passing <==> x in s && f(x)
    ensures |Filter(f, s)| == |passing|
  {
    if |s| == 0 {
      assert passing == {};
    } else {
      var tail := s[1..];
      DistinctTail(s);
      InHeadOrTail(s);
      var rest := passing - {s[0]};
      FilterCardinality(f, tail, rest);
      if f(s[0]) {
        assert Filter(f, s) == [s[0]] + Filter(f, tail);
        assert passing == rest + {s[0]} && s[0] !in rest;
      } else {
        assert Filter(f, s) == Filter(f, tail);
        assert passing == rest;
      }
    }
  }
}

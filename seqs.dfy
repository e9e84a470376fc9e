/** Array operations the pages use: `filter`, distinct values in first-seen order (`[...new Set(xs)]`). */
module Seqs {

  /** `r` is `s` with some elements left out, the rest kept in order. */
  ghost predicate IsSubsequence<T>(r: seq<T>, s: seq<T>)
    decreases |r| + |s|
  {
    if r == [] then true
    else if s == [] then false
    else (r[0] == s[0] && IsSubsequence(r[1..], s[1..])) || IsSubsequence(r, s[1..])
  }

  /** Every sequence is a subsequence of itself. */
  lemma {:induction false} SubsequenceReflexive<T>(s: seq<T>)
    ensures IsSubsequence(s, s)
  {
    if s != [] {
      SubsequenceReflexive(s[1..]);
    }
  }

  /** `s.filter(p)`. */
  function Filter<T>(s: seq<T>, p: T -> bool): (r: seq<T>)
    ensures |r| <= |s|
    ensures forall i :: 0 <= i < |r| ==> r[i] in s && p(r[i])
    ensures forall i :: 0 <= i < |s| && p(s[i]) ==> s[i] in r
    ensures IsSubsequence(r, s)
  {
    if s == [] then []
    else if p(s[0]) then
      var rest := Filter(s[1..], p);
      assert ([s[0]] + rest)[1..] == rest;
      [s[0]] + rest
    else
      var rest := Filter(s[1..], p);
      assert rest == [] || IsSubsequence(rest, s[1..]);
      rest
  }

  /** Filtering with a test every element passes keeps everything. */
  lemma {:induction false} FilterKeepsAll<T>(s: seq<T>, p: T -> bool)
    requires forall x :: x in s ==> p(x)
    ensures Filter(s, p) == s
  {
    if s != [] {
      FilterKeepsAll(s[1..], p);
    }
  }

  /** Filtering a sequence with one more element at its end. */
  lemma {:induction false} FilterSnoc<T>(s: seq<T>, x: T, p: T -> bool)
    ensures Filter(s + [x], p) == Filter(s, p) + (if p(x) then [x] else [])
  {
    if s != [] {
      assert (s + [x])[1..] == s[1..] + [x];
      FilterSnoc(s[1..], x, p);
    } else {
      assert s + [x] == [x];
    }
  }

  /** What a filter keeps and what its complement keeps add up to the whole. */
  lemma {:induction false} FilterSplitsLength<T>(s: seq<T>, p: T -> bool, q: T -> bool)
    requires forall x :: q(x) == !p(x)
    ensures |Filter(s, p)| + |Filter(s, q)| == |s|
  {
    if s != [] {
      FilterSplitsLength(s[1..], p, q);
    }
  }

  /** Filtering twice is filtering once with both tests. */
  lemma {:induction false} FilterFilter<T>(s: seq<T>, p: T -> bool, q: T -> bool, both: T -> bool)
    requires forall x :: both(x) == (p(x) && q(x))
    ensures Filter(Filter(s, p), q) == Filter(s, both)
  {
    if s != [] {
      FilterFilter(s[1..], p, q, both);
      if p(s[0]) {
        assert ([s[0]] + Filter(s[1..], p))[1..] == Filter(s[1..], p);
      }
    }
  }

  /** No value occurs twice. */
  predicate Distinct<T(==)>(s: seq<T>) {
    forall i, j :: 0 <= i < j < |s| ==> s[i] != s[j]
  }

  /** The values of `s` not in `seen`, each once, in the order they first appear. */
  function DistinctAfter<T(==)>(s: seq<T>, seen: set<T>): (r: seq<T>)
    ensures forall i :: 0 <= i < |r| ==> r[i] in s && r[i] !in seen
    ensures forall i :: 0 <= i < |s| && s[i] !in seen ==> s[i] in r
    ensures Distinct(r)
    ensures IsSubsequence(r, s)
  {
    if s == [] then []
    else if s[0] in seen then
      var rest := DistinctAfter(s[1..], seen);
      assert rest == [] || IsSubsequence(rest, s[1..]);
      rest
    else
      var rest := DistinctAfter(s[1..], seen + {s[0]});
      assert ([s[0]] + rest)[1..] == rest;
      [s[0]] + rest
  }

  /** `x` occurs in `s`, and its first occurrence comes before any occurrence of `y`. */
  ghost predicate FirstSeenBefore<T>(s: seq<T>, x: T, y: T) {
    exists k :: 0 <= k < |s| && s[k] == x && y !in s[..k + 1]
  }

  /** Of any two values of `r`, the earlier one is seen first in `s`. */
  ghost predicate InFirstSeenOrder<T>(r: seq<T>, s: seq<T>) {
    forall i, j :: 0 <= i < j < |r| ==> FirstSeenBefore(s, r[i], r[j])
  }

  /** The front value is seen before any other. */
  lemma FirstSeenAtFront<T>(s: seq<T>, y: T)
    requires s != [] && y != s[0]
    ensures FirstSeenBefore(s, s[0], y)
  {
    assert s[..1] == [s[0]];
  }

  /** An order seen behind the front survives putting the front back, when `y` is not the front. */
  lemma FirstSeenBehindFront<T>(s: seq<T>, x: T, y: T)
    requires s != [] && y != s[0]
    requires FirstSeenBefore(s[1..], x, y)
    ensures FirstSeenBefore(s, x, y)
  {
    var k :| 0 <= k < |s[1..]| && s[1..][k] == x && y !in s[1..][..k + 1];
    assert s[..k + 2] == [s[0]] + s[1..][..k + 1];
    assert s[k + 1] == x;
  }

  /** `DistinctAfter` keeps the values in the order they first appear after `seen`. */
  lemma {:induction false} DistinctAfterOrder<T>(s: seq<T>, seen: set<T>)
    ensures InFirstSeenOrder(DistinctAfter(s, seen), s)
  {
    if s != [] {
      var r := DistinctAfter(s, seen);
      if s[0] in seen {
        DistinctAfterOrder(s[1..], seen);
        forall i, j | 0 <= i < j < |r|
          ensures FirstSeenBefore(s, r[i], r[j])
        {
          FirstSeenBehindFront(s, r[i], r[j]);
        }
      } else {
        var rest := DistinctAfter(s[1..], seen + {s[0]});
        DistinctAfterOrder(s[1..], seen + {s[0]});
        assert r == [s[0]] + rest;
        forall i, j | 0 <= i < j < |r|
          ensures FirstSeenBefore(s, r[i], r[j])
        {
          assert r[j] == rest[j - 1];
          if i == 0 {
            FirstSeenAtFront(s, r[j]);
          } else {
            assert r[i] == rest[i - 1];
            FirstSeenBehindFront(s, r[i], r[j]);
          }
        }
      }
    }
  }

  /** `[...new Set(s)]`: the values of `s`, each once, in the order they first appear. */
  function Distinctly<T(==)>(s: seq<T>): (r: seq<T>)
    ensures forall i :: 0 <= i < |r| ==> r[i] in s
    ensures forall i :: 0 <= i < |s| ==> s[i] in r
    ensures Distinct(r)
    ensures IsSubsequence(r, s)
    ensures InFirstSeenOrder(r, s)
  {
    DistinctAfterOrder(s, {});
    DistinctAfter(s, {})
  }
}

/** Order-preserving filtering of sequences: the shape of a query-set
    `filter(...)` over a table whose rows are kept in primary-key order. */
module Seqs {

  /** The elements of `s` that satisfy `p`, in their original order. */
  function Filter<T>(s: seq<T>, p: T -> bool): (r: seq<T>)
    ensures |r| <= |s|
    ensures forall i :: 0 <= i < |r| ==> p(r[i])
    ensures forall i :: 0 <= i < |s| && p(s[i]) ==> s[i] in r
    ensures multiset(r) <= multiset(s)
  {
    if |s| == 0 then []
    else
      assert s == [s[0]] + s[1..];
      if p(s[0]) then [s[0]] + Filter(s[1..], p)
      else Filter(s[1..], p)
  }

  /** Filtering twice is filtering once by the conjunction: two chained
      `filter` calls select the same rows, in the same order, as one call
      carrying both conditions. */
  lemma {:induction false} FilterFilter<T>(s: seq<T>, p: T -> bool, q: T -> bool, pq: T -> bool)
    requires forall x :: pq(x) == (p(x) && q(x))
    ensures Filter(Filter(s, p), q) == Filter(s, pq)
  {
    if |s| == 0 {
    } else {
      FilterFilter(s[1..], p, q, pq);
      if p(s[0]) {
        var t := [s[0]] + Filter(s[1..], p);
        assert t[0] == s[0] && t[1..] == Filter(s[1..], p);
      }
    }
  }

  /** Replacing one element changes the number of selected elements by what
      the old and the new element contribute, and by nothing else. */
  lemma {:induction false} FilterUpdateCount<T>(s: seq<T>, i: int, x: T, p: T -> bool)
    requires 0 <= i < |s|
    ensures |Filter(s[i := x], p)| ==
            |Filter(s, p)| - (if p(s[i]) then 1 else 0) + (if p(x) then 1 else 0)
  {
    var s' := s[i := x];
    if i == 0 {
      assert s'[1..] == s[1..];
    } else {
      assert s'[0] == s[0];
      assert s'[1..] == s[1..][i - 1 := x];
      FilterUpdateCount(s[1..], i - 1, x, p);
    }
  }

  /** Two distinct positions that satisfy `p` are both selected. */
  lemma {:induction false} FilterTwo<T>(s: seq<T>, i: int, j: int, p: T -> bool)
    requires 0 <= i < j < |s| && p(s[i]) && p(s[j])
    ensures |Filter(s, p)| >= 2
  {
    if i == 0 {
      assert s[1..][j - 1] == s[j];
    } else {
      assert s[1..][i - 1] == s[i] && s[1..][j - 1] == s[j];
      FilterTwo(s[1..], i - 1, j - 1, p);
    }
  }

  /** Nothing is selected when no element satisfies `p`. */
  lemma FilterNone<T>(s: seq<T>, p: T -> bool)
    requires forall i :: 0 <= i < |s| ==> !p(s[i])
    ensures Filter(s, p) == []
  {
  }

  /** Filtering a sequence with one element appended. */
  lemma {:induction false} FilterAppend<T>(s: seq<T>, x: T, p: T -> bool)
    ensures Filter(s + [x], p) == Filter(s, p) + (if p(x) then [x] else [])
  {
    if |s| == 0 {
      assert s + [x] == [x];
      assert [x][1..] == [];
    } else {
      assert (s + [x])[0] == s[0];
      assert (s + [x])[1..] == s[1..] + [x];
      FilterAppend(s[1..], x, p);
    }
  }
}

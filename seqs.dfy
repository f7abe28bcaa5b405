/** `Array.prototype.filter` on sequences, and the facts about it that the
    directory's filter steps, the suggestion list and the speciality toggle
    rely on. */
module Seqs {

  /** The elements of `s` that satisfy `p`, in their original order. */
  function Filter<T>(p: T -> bool, s: seq<T>): (r: seq<T>)
    ensures |r| <= |s|
  {
    if s == [] then [] else (if p(s[0]) then [s[0]] else []) + Filter(p, s[1..])
  }

  /** Filtering keeps each satisfying element as often as it occurs and drops
      every other element. */
  lemma {:induction false} FilterCount<T>(p: T -> bool, s: seq<T>, x: T)
    ensures multiset(Filter(p, s))[x] == if p(x) then multiset(s)[x] else 0
  {
    if s != [] {
      FilterCount(p, s[1..], x);
      assert s == [s[0]] + s[1..];
    }
  }

  /** An element is kept exactly when it occurs and satisfies the test. */
  lemma {:induction false} FilterMember<T>(p: T -> bool, s: seq<T>, x: T)
    ensures x in Filter(p, s) <==> x in s && p(x)
  {
    FilterCount(p, s, x);
  }

  /** Every kept element occurs in the input and satisfies the test. */
  lemma {:induction false} FilterAllSatisfy<T>(p: T -> bool, s: seq<T>)
    ensures forall i :: 0 <= i < |Filter(p, s)| ==> Filter(p, s)[i] in s && p(Filter(p, s)[i])
  {
    forall i | 0 <= i < |Filter(p, s)| ensures Filter(p, s)[i] in s && p(Filter(p, s)[i]) {
      FilterMember(p, s, Filter(p, s)[i]);
    }
  }

  /** Filtering a sequence that starts with `x`. */
  lemma FilterCons<T>(p: T -> bool, x: T, t: seq<T>)
    ensures Filter(p, [x] + t) == (if p(x) then [x] else []) + Filter(p, t)
  {
    assert ([x] + t)[0] == x;
    assert ([x] + t)[1..] == t;
  }

  /** Filtering is order preserving: it works piecewise on a concatenation. */
  lemma {:induction false} FilterConcat<T>(p: T -> bool, a: seq<T>, b: seq<T>)
    ensures Filter(p, a + b) == Filter(p, a) + Filter(p, b)
  {
    if a == [] {
      assert a + b == b;
    } else {
      assert a + b == [a[0]] + (a[1..] + b);
      FilterCons(p, a[0], a[1..] + b);
      FilterConcat(p, a[1..], b);
    }
  }

  /** A filter that every element passes returns its input unchanged. */
  lemma {:induction false} FilterKeepsAll<T>(p: T -> bool, s: seq<T>)
    requires forall i :: 0 <= i < |s| ==> p(s[i])
    ensures Filter(p, s) == s
  {
    if s != [] {
      FilterKeepsAll(p, s[1..]);
    }
  }

  /** Two filters in a row are one filter by the conjunction. */
  lemma {:induction false} FilterFilter<T>(p: T -> bool, q: T -> bool, r: T -> bool, s: seq<T>)
    requires forall x :: r(x) == (p(x) && q(x))
    ensures Filter(q, Filter(p, s)) == Filter(r, s)
  {
    if s != [] {
      var t := s[1..];
      assert s == [s[0]] + t;
      FilterFilter(p, q, r, t);
      FilterCons(p, s[0], t);
      FilterCons(r, s[0], t);
      if p(s[0]) {
        FilterCons(q, s[0], Filter(p, t));
      } else {
        assert Filter(p, s) == Filter(p, t);
        assert Filter(r, s) == Filter(r, t);
      }
    }
  }

  /** Filters by predicates that agree give the same result. */
  lemma {:induction false} FilterCongruent<T>(p: T -> bool, q: T -> bool, s: seq<T>)
    requires forall i :: 0 <= i < |s| ==> p(s[i]) == q(s[i])
    ensures Filter(p, s) == Filter(q, s)
  {
    if s != [] {
      FilterCongruent(p, q, s[1..]);
    }
  }
}

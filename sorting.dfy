/** The sort step of the pipeline. JavaScript's `Array.prototype.sort` is
    stable, so the order it produces is fixed: the stable sort by the key,
    specified here as insertion sort (`SortedBy`) and implemented in place on
    an array (`SortInPlace`). */
module Sorting {
  import opened Seqs

  /** A sort key: a parsed number, or a string that does not parse. */
  datatype Rank = Parsed(value: int) | Unparsed

  /** Rank order: numbers ascending, every unparseable string after them. */
  predicate RankLe(x: Rank, y: Rank)
  {
    y.Unparsed? || (x.Parsed? && x.value <= y.value)
  }

  lemma RankLeTotalPreorder(x: Rank, y: Rank, z: Rank)
    ensures RankLe(x, x)
    ensures RankLe(x, y) || RankLe(y, x)
    ensures RankLe(x, y) && RankLe(y, z) ==> RankLe(x, z)
    ensures RankLe(x, y) && RankLe(y, x) <==> x == y
  {
  }

  /** Every earlier element's key is at most every later element's key. */
  predicate IsSortedBy<T>(key: T -> Rank, s: seq<T>)
  {
    forall i, j :: 0 <= i < j < |s| ==> RankLe(key(s[i]), key(s[j]))
  }

  /** Places `x` after the last element of `s` whose key is not greater than
      its own, so that elements with equal keys keep their order. */
  function Insert<T>(key: T -> Rank, x: T, s: seq<T>): (r: seq<T>)
    ensures |r| == |s| + 1
  {
    if s == [] || RankLe(key(s[|s| - 1]), key(x)) then
      s + [x]
    else
      var init := s[..|s| - 1];
      assert s == init + [s[|s| - 1]];
      Insert(key, x, init) + [s[|s| - 1]]
  }

  /** Inserting adds exactly `x` to the elements. */
  lemma {:induction false} InsertPermutes<T>(key: T -> Rank, x: T, s: seq<T>)
    ensures multiset(Insert(key, x, s)) == multiset(s) + multiset{x}
    decreases |s|
  {
    if s != [] && !RankLe(key(s[|s| - 1]), key(x)) {
      var init := s[..|s| - 1];
      assert s == init + [s[|s| - 1]];
      InsertPermutes(key, x, init);
    }
  }

  /** Inserting into a sorted sequence keeps it sorted. */
  lemma {:induction false} InsertSorted<T>(key: T -> Rank, x: T, s: seq<T>)
    requires IsSortedBy(key, s)
    ensures IsSortedBy(key, Insert(key, x, s))
    decreases |s|
  {
    if s != [] && !RankLe(key(s[|s| - 1]), key(x)) {
      var init, last := s[..|s| - 1], s[|s| - 1];
      InsertSorted(key, x, init);
      var r0 := Insert(key, x, init);
      var r := r0 + [last];
      InsertPermutes(key, x, init);
      forall i | 0 <= i < |r0| ensures RankLe(key(r0[i]), key(last)) {
        assert r0[i] in multiset(init) + multiset{x};
        if r0[i] != x {
          assert r0[i] in init;
          var k :| 0 <= k < |init| && init[k] == r0[i];
          assert s[k] == r0[i];
        }
      }
      assert forall i, j :: 0 <= i < j < |r| ==> RankLe(key(r[i]), key(r[j])) by {
        forall i, j | 0 <= i < j < |r| ensures RankLe(key(r[i]), key(r[j])) {
          if j < |r0| {
            assert r[i] == r0[i] && r[j] == r0[j];
          } else {
            assert r[i] == r0[i] && r[j] == last;
          }
        }
      }
    }
  }

  /** The stable sort of `s` by `key`. */
  function SortedBy<T>(key: T -> Rank, s: seq<T>): (r: seq<T>)
    ensures |r| == |s|
  {
    if s == [] then [] else Insert(key, s[|s| - 1], SortedBy(key, s[..|s| - 1]))
  }

  /** The sort's output is in key order and holds exactly its input. */
  lemma {:induction false} SortedBySortsAndPermutes<T>(key: T -> Rank, s: seq<T>)
    ensures IsSortedBy(key, SortedBy(key, s))
    ensures multiset(SortedBy(key, s)) == multiset(s)
    decreases |s|
  {
    if s != [] {
      var init := s[..|s| - 1];
      assert s == init + [s[|s| - 1]];
      SortedBySortsAndPermutes(key, init);
      InsertSorted(key, s[|s| - 1], SortedBy(key, init));
      InsertPermutes(key, s[|s| - 1], SortedBy(key, init));
    }
  }

  /** The records that share one key value. */
  function WithKey<T>(key: T -> Rank, k: Rank, s: seq<T>): seq<T>
  {
    Filter(d => key(d) == k, s)
  }

  lemma {:induction false} InsertWithKey<T>(key: T -> Rank, x: T, s: seq<T>, k: Rank)
    ensures WithKey(key, k, Insert(key, x, s)) ==
            WithKey(key, k, s) + WithKey(key, k, [x])
    decreases |s|
  {
    var p := d => key(d) == k;
    if s == [] || RankLe(key(s[|s| - 1]), key(x)) {
      FilterConcat(p, s, [x]);
    } else {
      var init, last := s[..|s| - 1], s[|s| - 1];
      assert s == init + [last];
      InsertWithKey(key, x, init, k);
      FilterConcat(p, Insert(key, x, init), [last]);
      FilterConcat(p, init, [last]);
      assert [x][1..] == [] && [last][1..] == [];
      if key(x) == k {
        assert key(last) != k;
      }
    }
  }

  /** Stability: for every key value, the records with that key appear in
      the sorted output in the same order as in the input. */
  lemma {:induction false} SortedByStable<T>(key: T -> Rank, s: seq<T>, k: Rank)
    ensures WithKey(key, k, SortedBy(key, s)) == WithKey(key, k, s)
    decreases |s|
  {
    if s != [] {
      var init, last := s[..|s| - 1], s[|s| - 1];
      assert s == init + [last];
      SortedByStable(key, init, k);
      InsertWithKey(key, last, SortedBy(key, init), k);
      FilterConcat(d => key(d) == k, init, [last]);
    }
  }

  /** Sorting a sequence that is already in order changes nothing. */
  lemma {:induction false} SortedBySorted<T>(key: T -> Rank, s: seq<T>)
    requires IsSortedBy(key, s)
    ensures SortedBy(key, s) == s
    decreases |s|
  {
    if s != [] {
      var init := s[..|s| - 1];
      assert IsSortedBy(key, init);
      SortedBySorted(key, init);
      assert s == init + [s[|s| - 1]];
    }
  }

  /** Inserting in front of a tail of strictly greater keys, after a record
      whose key is not greater, is a splice at that point. */
  lemma {:induction false} InsertAt<T>(key: T -> Rank, x: T, s: seq<T>, j: nat)
    requires j <= |s|
    requires j > 0 ==> RankLe(key(s[j - 1]), key(x))
    requires forall m :: j <= m < |s| ==> !RankLe(key(s[m]), key(x))
    ensures Insert(key, x, s) == s[..j] + [x] + s[j..]
    decreases |s|
  {
    if j < |s| {
      var init, last := s[..|s| - 1], s[|s| - 1];
      assert !RankLe(key(last), key(x));
      assert Insert(key, x, s) == Insert(key, x, init) + [last];
      assert init[..j] == s[..j];
      assert j > 0 ==> init[j - 1] == s[j - 1];
      assert forall m :: j <= m < |init| ==> init[m] == s[m];
      InsertAt(key, x, init, j);
      assert s[j..] == init[j..] + [last];
    } else {
      assert s[..j] == s && s[j..] == [];
    }
  }

  /** One pass of the in-place sort: moves `a[i]` left past the greater keys
      of the already sorted prefix `a[..i]`. */
  method InsertLast<T>(a: array<T>, i: nat, key: T -> Rank)
    requires i < a.Length
    modifies a
    ensures a[..i + 1] == Insert(key, old(a[i]), old(a[..i]))
    ensures a[i + 1..] == old(a[i + 1..])
  {
    var x := a[i];
    ghost var done := a[..i];
    var j := i;
    while j > 0 && !RankLe(key(a[j - 1]), key(x))
      invariant 0 <= j <= i
      invariant a[j] == x
      invariant a[..j] == done[..j]
      invariant a[j + 1..i + 1] == done[j..i]
      invariant forall m :: j <= m < i ==> !RankLe(key(done[m]), key(x))
      invariant a[i + 1..] == old(a[i + 1..])
    {
      a[j - 1], a[j] := a[j], a[j - 1];
      j := j - 1;
    }
    InsertAt(key, x, done, j);
    assert a[..i + 1] == a[..j] + [x] + a[j + 1..i + 1];
  }

  /** `filteredList.sort(compare)` with the comparator that `key` stands
      for: the array ends up holding the stable sort of what it held. */
  method SortInPlace<T>(a: array<T>, key: T -> Rank)
    modifies a
    ensures a[..] == SortedBy(key, old(a[..]))
  {
    ghost var orig := a[..];
    var i := 0;
    while i < a.Length
      invariant 0 <= i <= a.Length
      invariant a[..i] == SortedBy(key, orig[..i])
      invariant a[i..] == orig[i..]
    {
      InsertLast(a, i, key);
      assert orig[..i + 1][..i] == orig[..i];
      i := i + 1;
    }
    assert orig[..a.Length] == orig;
  }
}

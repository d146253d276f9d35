/** Sorting by a comparison, as the iterator adaptors `sorted`,
    `sorted_unstable`, `sorted_by_key` and `sort_unstable` do: the result is
    an ordered permutation of the input. Where the source sorts a HashMap's
    iteration, whose order is arbitrary, which of several equivalent
    orders comes out is immaterial; where the order is strict the sorted
    permutation is unique (SortedUnique). */
module Sorting {
  import opened Common

  /** `le` is a total preorder: every two values compare, transitively. */
  ghost predicate TotalPreorder<T(!new)>(le: (T, T) -> bool)
  {
    (forall a, b :: le(a, b) || le(b, a)) &&
    (forall a, b, c :: le(a, b) && le(b, c) ==> le(a, c))
  }

  /** `le` is moreover antisymmetric: a total order. */
  ghost predicate TotalOrder<T(!new)>(le: (T, T) -> bool)
  {
    TotalPreorder(le) && forall a, b :: le(a, b) && le(b, a) ==> a == b
  }

  predicate SortedBy<T>(s: seq<T>, le: (T, T) -> bool)
  {
    forall i, j :: 0 <= i < j < |s| ==> le(s[i], s[j])
  }

  /** A value below every element of a sorted sequence can go in front. */
  lemma SortedCons<T>(x: T, s: seq<T>, le: (T, T) -> bool)
    requires SortedBy(s, le)
    requires forall y :: y in s ==> le(x, y)
    ensures SortedBy([x] + s, le)
  {
    var r := [x] + s;
    forall i, j | 0 <= i < j < |r| ensures le(r[i], r[j]) {
      if i == 0 {
        assert s[j - 1] in s;
      }
    }
  }

  /** Insert `x` into the sorted `s` before the first element it does not
      exceed. */
  function InsertBy<T(!new)>(x: T, s: seq<T>, le: (T, T) -> bool): (r: seq<T>)
    requires TotalPreorder(le) && SortedBy(s, le)
    ensures SortedBy(r, le)
    ensures multiset(r) == multiset(s) + multiset{x}
  {
    if s == [] then [x]
    else if le(x, s[0]) then
      InsertFront(x, s, le);
      [x] + s
    else
      SortedTail(s, le);
      var t := InsertBy(x, s[1..], le);
      InsertBehind(x, s, t, le);
      [s[0]] + t
  }

  lemma SortedTail<T>(s: seq<T>, le: (T, T) -> bool)
    requires SortedBy(s, le) && s != []
    ensures SortedBy(s[1..], le)
  {
    var tail := s[1..];
    forall i, j | 0 <= i < j < |tail| ensures le(tail[i], tail[j]) {
      assert le(s[i + 1], s[j + 1]);
    }
  }

  lemma InsertFront<T(!new)>(x: T, s: seq<T>, le: (T, T) -> bool)
    requires TotalPreorder(le) && SortedBy(s, le)
    requires s != [] && le(x, s[0])
    ensures SortedBy([x] + s, le)
  {
    forall y | y in s ensures le(x, y) {
      var k :| 0 <= k < |s| && s[k] == y;
      assert k == 0 || le(s[0], s[k]);
    }
    SortedCons(x, s, le);
  }

  lemma InsertBehind<T(!new)>(x: T, s: seq<T>, t: seq<T>, le: (T, T) -> bool)
    requires TotalPreorder(le)
    requires SortedBy(s, le) && s != [] && !le(x, s[0])
    requires SortedBy(t, le) && multiset(t) == multiset(s[1..]) + multiset{x}
    ensures SortedBy([s[0]] + t, le)
    ensures multiset([s[0]] + t) == multiset(s) + multiset{x}
  {
    var tail := s[1..];
    assert s == [s[0]] + tail;
    forall y | y in t ensures le(s[0], y) {
      assert y in multiset(t);
      if y != x {
        assert y in multiset(tail);
        var k :| 0 <= k < |tail| && tail[k] == y;
        assert le(s[0], s[k + 1]);
      }
    }
    SortedCons(s[0], t, le);
  }

  /** An ordered permutation of `s` (insertion sort). */
  function SortBy<T(!new)>(s: seq<T>, le: (T, T) -> bool): (r: seq<T>)
    requires TotalPreorder(le)
    ensures SortedBy(r, le)
    ensures multiset(r) == multiset(s)
  {
    if s == [] then []
    else
      assert s == [s[0]] + s[1..];
      InsertBy(s[0], SortBy(s[1..], le), le)
  }

  function Reverse<T>(s: seq<T>): (r: seq<T>)
    ensures |r| == |s|
    ensures forall i :: 0 <= i < |s| ==> r[i] == s[|s| - 1 - i]
  {
    seq(|s|, i requires 0 <= i < |s| => s[|s| - 1 - i])
  }

  lemma ReversePermutation<T>(s: seq<T>)
    ensures multiset(Reverse(s)) == multiset(s)
    decreases |s|
  {
    if s != [] {
      var r := Reverse(s);
      assert s == s[..|s| - 1] + [s[|s| - 1]];
      assert r == [s[|s| - 1]] + Reverse(s[..|s| - 1]);
      ReversePermutation(s[..|s| - 1]);
    }
  }

  /** Filtering a sorted sequence keeps it sorted. */
  lemma {:induction false} FilterSorted<T(!new)>(s: seq<T>, p: T -> bool, le: (T, T) -> bool)
    requires SortedBy(s, le)
    ensures SortedBy(Filter(s, p), le)
    decreases |s|
  {
    if s != [] {
      var init, x := s[..|s| - 1], s[|s| - 1];
      assert s == init + [x];
      assert SortedBy(init, le) by {
        forall i, j | 0 <= i < j < |init| ensures le(init[i], init[j]) {
          assert le(s[i], s[j]);
        }
      }
      FilterSorted(init, p, le);
      var f := Filter(init, p);
      assert Filter(s, p) == if p(x) then f + [x] else f;
      if p(x) {
        var r := f + [x];
        forall i, j | 0 <= i < j < |r| ensures le(r[i], r[j]) {
          if j == |f| {
            assert f[i] in init;
            var k :| 0 <= k < |init| && init[k] == f[i];
            assert le(s[k], s[|s| - 1]);
          } else {
            assert le(f[i], f[j]);
          }
        }
      }
    }
  }

  /** In a sorted sequence of distinct elements under a total order, the
      element at position `r` has exactly `r` strictly smaller elements. */
  lemma SortedPositionIsRank<T(!new)>(s: seq<T>, le: (T, T) -> bool, r: nat, smaller: T -> bool)
    requires TotalOrder(le)
    requires SortedBy(s, le) && Distinct(s) && r < |s|
    requires forall x :: smaller(x) <==> le(x, s[r]) && x != s[r]
    ensures Count(s, smaller) == r
  {
    assert s == s[..r] + s[r..];
    CountAppend(s[..r], s[r..], smaller);
    BeforePositionSmaller(s, le, r, smaller);
    FromPositionNotSmaller(s, le, r, smaller);
  }

  lemma BeforePositionSmaller<T(!new)>(s: seq<T>, le: (T, T) -> bool, r: nat, smaller: T -> bool)
    requires SortedBy(s, le) && Distinct(s) && r < |s|
    requires forall x :: smaller(x) <==> le(x, s[r]) && x != s[r]
    ensures Count(s[..r], smaller) == r
  {
    forall x | x in s[..r] ensures smaller(x) {
      var i :| 0 <= i < r && s[i] == x;
      assert le(s[i], s[r]) && s[i] != s[r];
    }
    CountAll(s[..r], smaller);
  }

  lemma FromPositionNotSmaller<T(!new)>(s: seq<T>, le: (T, T) -> bool, r: nat, smaller: T -> bool)
    requires forall a, b :: le(a, b) && le(b, a) ==> a == b
    requires SortedBy(s, le) && Distinct(s) && r < |s|
    requires forall x :: smaller(x) <==> le(x, s[r]) && x != s[r]
    ensures Count(s[r..], smaller) == 0
  {
    forall x | x in s[r..] ensures !smaller(x) {
      var j :| r <= j < |s| && s[j] == x;
      if j > r {
        assert le(s[r], s[j]) && s[r] != s[j];
      }
    }
    CountNone(s[r..], smaller);
  }

  /** Under a total order, two sorted permutations of one sequence are equal. */
  lemma {:induction false} SortedUnique<T(!new)>(s: seq<T>, t: seq<T>, le: (T, T) -> bool)
    requires TotalOrder(le)
    requires SortedBy(s, le) && SortedBy(t, le) && multiset(s) == multiset(t)
    ensures s == t
    decreases |s|
  {
    if s != [] {
      assert |t| == |multiset(t)| == |multiset(s)| == |s|;
      assert s[0] in multiset(t) && t[0] in multiset(s);
      var i :| 0 <= i < |t| && t[i] == s[0];
      var j :| 0 <= j < |s| && s[j] == t[0];
      assert le(t[0], t[i]) && le(s[0], s[j]);
      assert s[0] == t[0];
      assert multiset(s[1..]) == multiset(t[1..]) by {
        assert s == [s[0]] + s[1..] && t == [t[0]] + t[1..];
        calc {
          multiset(s[1..]) + multiset{s[0]};
          multiset(s);
          multiset(t);
          multiset(t[1..]) + multiset{t[0]};
        }
        MultisetCancel(multiset(s[1..]), multiset(t[1..]), s[0]);
      }
      SortedTail(s, le);
      SortedTail(t, le);
      SortedUnique(s[1..], t[1..], le);
    } else {
      assert |t| == |multiset(t)|;
    }
  }
}

/** Shared vocabulary of the model: optional values, the bot's error type,
    and small utilities over sequences (sums, counts, filters,
    distinctness) with the permutation facts the scoring proofs rely on. */
module Common {

  datatype Option<T> = None | Some(value: T)

  /** The two error kinds the leaderboard engine raises (BotError::Parse and
      BotError::Compute). */
  datatype Error = Parse | Compute(message: string)

  datatype Result<T> = Ok(value: T) | Err(error: Error)

  /** Sum of `f` over `s`, folded from the left: appending one element is one
      step of the definition. */
  function SumBy<T>(s: seq<T>, f: T -> int): int
  {
    if s == [] then 0 else SumBy(s[..|s| - 1], f) + f(s[|s| - 1])
  }

  /** Sum of a sequence of integers (the `.iter().sum()` of a score array). */
  function Sum(s: seq<int>): int
  {
    if s == [] then 0 else Sum(s[..|s| - 1]) + s[|s| - 1]
  }

  /** Number of elements of `s` that satisfy `p`. */
  function Count<T>(s: seq<T>, p: T -> bool): nat
  {
    if s == [] then 0 else Count(s[..|s| - 1], p) + (if p(s[|s| - 1]) then 1 else 0)
  }

  /** The elements of `s` that satisfy `p`, in their original order. */
  function Filter<T(!new)>(s: seq<T>, p: T -> bool): (r: seq<T>)
    ensures |r| == Count(s, p)
    ensures forall x :: x in r <==> x in s && p(x)
  {
    if s == [] then []
    else
      assert s == s[..|s| - 1] + [s[|s| - 1]];
      Filter(s[..|s| - 1], p) + (if p(s[|s| - 1]) then [s[|s| - 1]] else [])
  }

  /** Pairwise distinct elements: the sequence is an enumeration of a set. */
  predicate Distinct<T(==)>(s: seq<T>)
  {
    forall i, j :: 0 <= i < j < |s| ==> s[i] != s[j]
  }

  /** The distinct elements of `s`, each at the position of its first
      occurrence (an enumeration of the set of elements of `s`). */
  function Dedup<T(==,!new)>(s: seq<T>): (r: seq<T>)
    ensures Distinct(r)
    ensures forall x :: x in r <==> x in s
  {
    if s == [] then []
    else
      assert s == s[..|s| - 1] + [s[|s| - 1]];
      var r := Dedup(s[..|s| - 1]);
      if s[|s| - 1] in r then r else r + [s[|s| - 1]]
  }

  function MapSeq<T, U>(s: seq<T>, f: T -> U): (r: seq<U>)
    ensures |r| == |s|
    ensures forall i :: 0 <= i < |s| ==> r[i] == f(s[i])
  {
    seq(|s|, i requires 0 <= i < |s| => f(s[i]))
  }

  /** The values held by the `Some`s of `s`, in order (`filter_map`). */
  function Somes<T(!new)>(s: seq<Option<T>>): (r: seq<T>)
    ensures forall x :: x in r <==> Some(x) in s
    ensures |r| <= |s|
  {
    if s == [] then []
    else
      assert s == s[..|s| - 1] + [s[|s| - 1]];
      Somes(s[..|s| - 1]) + (if s[|s| - 1].Some? then [s[|s| - 1].value] else [])
  }

  function Max(a: int, b: int): int { if a < b then b else a }

  function Min(a: int, b: int): int { if a < b then a else b }

  // ---------------------------------------------------------------------
  // Lemmas about sums and counts
  // ---------------------------------------------------------------------

  lemma {:induction false} SumByAppend<T>(a: seq<T>, b: seq<T>, f: T -> int)
    ensures SumBy(a + b, f) == SumBy(a, f) + SumBy(b, f)
    decreases |b|
  {
    if b == [] {
      assert a + b == a;
    } else {
      assert (a + b)[..|a + b| - 1] == a + b[..|b| - 1];
      SumByAppend(a, b[..|b| - 1], f);
    }
  }

  lemma {:induction false} SumAppend(a: seq<int>, b: seq<int>)
    ensures Sum(a + b) == Sum(a) + Sum(b)
    decreases |b|
  {
    if b == [] {
      assert a + b == a;
    } else {
      assert (a + b)[..|a + b| - 1] == a + b[..|b| - 1];
      SumAppend(a, b[..|b| - 1]);
    }
  }

  lemma SumByMiddle<T>(a: seq<T>, x: T, b: seq<T>, f: T -> int)
    ensures SumBy(a + [x] + b, f) == SumBy(a + b, f) + f(x)
  {
    SumByAppend(a + [x], b, f);
    assert (a + [x])[..|a|] == a;
    SumByAppend(a, b, f);
  }

  /** A sum does not depend on the order of the summands. */
  lemma {:induction false} SumByPermutation<T>(s: seq<T>, t: seq<T>, f: T -> int)
    requires multiset(s) == multiset(t)
    ensures SumBy(s, f) == SumBy(t, f)
    decreases |s|
  {
    if s != [] {
      var x := s[|s| - 1];
      var init := s[..|s| - 1];
      assert s == init + [x];
      assert x in multiset(t);
      var i :| 0 <= i < |t| && t[i] == x;
      var rest := t[..i] + t[i + 1..];
      assert multiset(init) == multiset(rest) by {
        assert t == t[..i] + [x] + t[i + 1..];
        calc {
          multiset(init) + multiset{x};
          multiset(s);
          multiset(t);
          multiset(t[..i]) + multiset{x} + multiset(t[i + 1..]);
          multiset(rest) + multiset{x};
        }
        MultisetCancel(multiset(init), multiset(rest), x);
      }
      SumByPermutation(init, rest, f);
      SumByMiddle(t[..i], x, t[i + 1..], f);
    } else {
      assert multiset(t) == multiset{};
      assert |t| == |multiset(t)|;
    }
  }

  lemma {:induction false} CountIsSumBy<T>(s: seq<T>, p: T -> bool)
    ensures Count(s, p) == SumBy(s, x => if p(x) then 1 else 0)
    decreases |s|
  {
    if s != [] {
      CountIsSumBy(s[..|s| - 1], p);
    }
  }

  lemma CountPermutation<T>(s: seq<T>, t: seq<T>, p: T -> bool)
    requires multiset(s) == multiset(t)
    ensures Count(s, p) == Count(t, p)
  {
    CountIsSumBy(s, p);
    CountIsSumBy(t, p);
    SumByPermutation(s, t, x => if p(x) then 1 else 0);
  }

  lemma {:induction false} CountAppend<T>(a: seq<T>, b: seq<T>, p: T -> bool)
    ensures Count(a + b, p) == Count(a, p) + Count(b, p)
    decreases |b|
  {
    if b == [] {
      assert a + b == a;
    } else {
      assert (a + b)[..|a + b| - 1] == a + b[..|b| - 1];
      CountAppend(a, b[..|b| - 1], p);
    }
  }

  /** Two predicates that agree on the elements of `s` count alike. */
  lemma {:induction false} CountCongruence<T>(s: seq<T>, p: T -> bool, q: T -> bool)
    requires forall x :: x in s ==> (p(x) <==> q(x))
    ensures Count(s, p) == Count(s, q)
    decreases |s|
  {
    if s != [] {
      assert s == s[..|s| - 1] + [s[|s| - 1]];
      CountCongruence(s[..|s| - 1], p, q);
    }
  }

  /** Counting within a filtered sequence is counting the conjunction. */
  lemma {:induction false} CountFilter<T(!new)>(s: seq<T>, p: T -> bool, q: T -> bool, pq: T -> bool)
    requires forall x :: x in s ==> (pq(x) <==> p(x) && q(x))
    ensures Count(Filter(s, p), q) == Count(s, pq)
    decreases |s|
  {
    if s != [] {
      var init, x := s[..|s| - 1], s[|s| - 1];
      assert s == init + [x];
      CountFilter(init, p, q, pq);
      CountAppend(Filter(init, p), if p(x) then [x] else [], q);
    }
  }

  /** A predicate that holds nowhere in `s` counts zero. */
  lemma {:induction false} CountNone<T>(s: seq<T>, p: T -> bool)
    requires forall x :: x in s ==> !p(x)
    ensures Count(s, p) == 0
    decreases |s|
  {
    if s != [] {
      assert s == s[..|s| - 1] + [s[|s| - 1]];
      CountNone(s[..|s| - 1], p);
    }
  }

  /** A predicate that holds everywhere in `s` counts every element. */
  lemma {:induction false} CountAll<T>(s: seq<T>, p: T -> bool)
    requires forall x :: x in s ==> p(x)
    ensures Count(s, p) == |s|
    decreases |s|
  {
    if s != [] {
      assert s == s[..|s| - 1] + [s[|s| - 1]];
      CountAll(s[..|s| - 1], p);
    }
  }

  /** Filters commute with permutations. */
  lemma {:induction false} FilterPermutation<T(!new)>(s: seq<T>, t: seq<T>, p: T -> bool)
    requires multiset(s) == multiset(t)
    ensures multiset(Filter(s, p)) == multiset(Filter(t, p))
  {
    forall x ensures multiset(Filter(s, p))[x] == multiset(Filter(t, p))[x] {
      FilterMultiplicity(s, p, x);
      FilterMultiplicity(t, p, x);
    }
  }

  lemma {:induction false} FilterMultiplicity<T(!new)>(s: seq<T>, p: T -> bool, x: T)
    ensures multiset(Filter(s, p))[x] == if p(x) then multiset(s)[x] else 0
    decreases |s|
  {
    if s != [] {
      var init, y := s[..|s| - 1], s[|s| - 1];
      assert s == init + [y];
      FilterMultiplicity(init, p, x);
    }
  }

  /** Splitting a filter along two disjoint predicates. */
  lemma FilterDisjointUnion<T(!new)>(s: seq<T>, p: T -> bool, q: T -> bool, pq: T -> bool)
    requires forall x :: x in s ==> (pq(x) <==> p(x) || q(x))
    requires forall x :: x in s ==> !(p(x) && q(x))
    ensures multiset(Filter(s, pq)) == multiset(Filter(s, p)) + multiset(Filter(s, q))
  {
    forall x ensures multiset(Filter(s, pq))[x] == multiset(Filter(s, p))[x] + multiset(Filter(s, q))[x] {
      FilterMultiplicity(s, pq, x);
      FilterMultiplicity(s, p, x);
      FilterMultiplicity(s, q, x);
      if x !in s {
        assert multiset(s)[x] == 0;
      }
    }
  }

  /** A filter whose predicate holds on every element keeps everything. */
  lemma FilterKeepsAll<T(!new)>(s: seq<T>, p: T -> bool)
    requires forall x :: x in s ==> p(x)
    ensures multiset(Filter(s, p)) == multiset(s)
  {
    forall x ensures multiset(Filter(s, p))[x] == multiset(s)[x] {
      FilterMultiplicity(s, p, x);
      if x !in s {
        assert multiset(s)[x] == 0;
      }
    }
  }

  /** Filtering distributes over concatenation. */
  lemma {:induction false} FilterAppend<T(!new)>(a: seq<T>, b: seq<T>, p: T -> bool)
    ensures Filter(a + b, p) == Filter(a, p) + Filter(b, p)
    decreases |b|
  {
    if b == [] {
      assert a + b == a;
    } else {
      assert (a + b)[..|a + b| - 1] == a + b[..|b| - 1];
      FilterAppend(a, b[..|b| - 1], p);
    }
  }

  /** ... and returns the sequence itself. */
  lemma {:induction false} FilterIdentity<T(!new)>(s: seq<T>, p: T -> bool)
    requires forall x :: x in s ==> p(x)
    ensures Filter(s, p) == s
    decreases |s|
  {
    if s != [] {
      var init := s[..|s| - 1];
      assert s == init + [s[|s| - 1]];
      FilterIdentity(init, p);
      assert s[|s| - 1] in s;
    }
  }

  // ---------------------------------------------------------------------
  // Distinctness
  // ---------------------------------------------------------------------

  lemma {:induction false} DistinctMultiplicity<T>(s: seq<T>)
    ensures Distinct(s) <==> forall x :: multiset(s)[x] <= 1
    decreases |s|
  {
    if s != [] {
      var init, y := s[..|s| - 1], s[|s| - 1];
      assert s == init + [y];
      DistinctMultiplicity(init);
      if Distinct(s) {
        assert Distinct(init);
        forall i | 0 <= i < |init| ensures init[i] != y {
          assert s[i] != s[|s| - 1];
        }
        assert multiset(init)[y] == 0;
        forall x ensures multiset(s)[x] <= 1 {
          assert multiset(s)[x] == multiset(init)[x] + multiset([y])[x];
        }
      } else {
        var i, j :| 0 <= i < j < |s| && s[i] == s[j];
        if j < |s| - 1 {
          assert init[i] == init[j];
          var x :| multiset(init)[x] > 1;
          assert multiset(s)[x] == multiset(init)[x] + multiset([y])[x];
        } else {
          assert init[i] == y;
          assert multiset(s)[y] == multiset(init)[y] + 1;
        }
      }
    }
  }

  /** Permuting a distinct sequence leaves it distinct. */
  lemma DistinctPermutation<T>(s: seq<T>, t: seq<T>)
    requires multiset(s) == multiset(t)
    requires Distinct(s)
    ensures Distinct(t)
  {
    DistinctMultiplicity(s);
    DistinctMultiplicity(t);
  }

  /** A distinct sequence has as many elements as its set of elements. */
  lemma {:induction false} DistinctCardinality<T>(s: seq<T>)
    requires Distinct(s)
    ensures |set x | x in s| == |s|
    decreases |s|
  {
    if s != [] {
      var init, y := s[..|s| - 1], s[|s| - 1];
      assert s == init + [y];
      DistinctCardinality(init);
      forall i | 0 <= i < |init| ensures init[i] != y {
        assert s[i] != s[|s| - 1];
      }
      assert (set x | x in s) == (set x | x in init) + {y};
    }
  }

  /** Two distinct sequences with the same elements have the same length. */
  lemma DistinctSameLength<T>(a: seq<T>, b: seq<T>)
    requires Distinct(a) && Distinct(b)
    requires forall x :: x in a <==> x in b
    ensures |a| == |b|
  {
    DistinctCardinality(a);
    DistinctCardinality(b);
    assert (set x | x in a) == (set x | x in b);
  }

  /** Filtering keeps a sequence distinct. */
  lemma FilterDistinct<T(!new)>(s: seq<T>, p: T -> bool)
    requires Distinct(s)
    ensures Distinct(Filter(s, p))
  {
    DistinctMultiplicity(s);
    forall x ensures multiset(Filter(s, p))[x] <= 1 {
      FilterMultiplicity(s, p, x);
    }
    DistinctMultiplicity(Filter(s, p));
  }

  /** The set of images of the elements of `s`. */
  ghost function Image<T, U>(s: seq<T>, f: T -> U): (r: set<U>)
    ensures forall x :: x in s ==> f(x) in r
    decreases |s|
  {
    if s == [] then {}
    else
      assert s == s[..|s| - 1] + [s[|s| - 1]];
      Image(s[..|s| - 1], f) + {f(s[|s| - 1])}
  }

  /** Every image is the image of some element. */
  lemma {:induction false} ImageWitness<T, U>(s: seq<T>, f: T -> U, y: U)
    requires y in Image(s, f)
    ensures exists x :: x in s && f(x) == y
    decreases |s|
  {
    if s != [] {
      var init, last := s[..|s| - 1], s[|s| - 1];
      if y != f(last) {
        ImageWitness(init, f, y);
        var x :| x in init && f(x) == y;
        assert x in s;
      }
    }
  }

  /** The image lies in any set that holds the image of every element. */
  lemma {:induction false} ImageSubset<T, U>(s: seq<T>, f: T -> U, t: set<U>)
    requires forall x :: x in s ==> f(x) in t
    ensures Image(s, f) <= t
    decreases |s|
  {
    if s != [] {
      var init := s[..|s| - 1];
      forall x | x in init ensures f(x) in t {
        assert x in s;
      }
      ImageSubset(init, f, t);
    }
  }

  /** The elements of a mapped sequence are the images of its elements. */
  lemma MapSeqImage<T, U>(s: seq<T>, f: T -> U)
    ensures forall y :: y in MapSeq(s, f) <==> y in Image(s, f)
  {
    forall y | y in Image(s, f) ensures y in MapSeq(s, f) {
      ImageWitness(s, f, y);
      var x :| x in s && f(x) == y;
      var i :| 0 <= i < |s| && s[i] == x;
      assert MapSeq(s, f)[i] == y;
    }
  }

  lemma MapSeqAppend<T, U>(a: seq<T>, b: seq<T>, f: T -> U)
    ensures MapSeq(a + b, f) == MapSeq(a, f) + MapSeq(b, f)
  {
    assert forall i :: 0 <= i < |a| + |b| ==> MapSeq(a + b, f)[i] == (MapSeq(a, f) + MapSeq(b, f))[i];
  }

  /** One more element of `s` after a fixed prefix `a`. */
  lemma AppendSlice<T>(a: seq<T>, s: seq<T>, r: nat)
    requires r < |s|
    ensures a + s[..r + 1] == (a + s[..r]) + [s[r]]
  {
    assert s[..r + 1] == s[..r] + [s[r]];
  }

  /** Taking the same element out of two permutations of each other leaves
      permutations of each other. */
  lemma RemoveFromPermutation<T>(s: seq<T>, t: seq<T>, k: nat)
    requires multiset(s) == multiset(t)
    requires s != [] && k < |t| && t[k] == s[0]
    ensures multiset(s[1..]) == multiset(t[..k] + t[k + 1..])
  {
    var x := s[0];
    var rest := t[..k] + t[k + 1..];
    assert t == t[..k] + [x] + t[k + 1..];
    assert s == [x] + s[1..];
    calc {
      multiset(s[1..]) + multiset{x};
      multiset(s);
      multiset(t);
      multiset(t[..k]) + multiset{x} + multiset(t[k + 1..]);
      multiset(rest) + multiset{x};
    }
    MultisetCancel(multiset(s[1..]), multiset(rest), x);
  }

  lemma MultisetCancel<T>(a: multiset<T>, b: multiset<T>, x: T)
    requires a + multiset{x} == b + multiset{x}
    ensures a == b
  {
    assert a == a + multiset{x} - multiset{x};
    assert b == b + multiset{x} - multiset{x};
  }

  /** Mapping a sequence with one element taken out. */
  lemma MapSeqRemove<T, U>(t: seq<T>, k: nat, f: T -> U)
    requires k < |t|
    ensures multiset(MapSeq(t, f)) == multiset(MapSeq(t[..k] + t[k + 1..], f)) + multiset{f(t[k])}
  {
    var x := t[k];
    var a, b := t[..k], t[k + 1..];
    assert t == a + ([x] + b);
    MapSeqAppend(a, [x] + b, f);
    MapSeqAppend([x], b, f);
    MapSeqAppend(a, b, f);
    assert MapSeq([x], f) == [f(x)];
    calc {
      multiset(MapSeq(t, f));
      multiset(MapSeq(a, f) + ([f(x)] + MapSeq(b, f)));
      multiset(MapSeq(a, f)) + multiset{f(x)} + multiset(MapSeq(b, f));
      multiset(MapSeq(a, f) + MapSeq(b, f)) + multiset{f(x)};
      multiset(MapSeq(a + b, f)) + multiset{f(x)};
    }
  }

  /** Mapping commutes with permutations. */
  lemma {:induction false} MapSeqPermutation<T, U>(s: seq<T>, t: seq<T>, f: T -> U)
    requires multiset(s) == multiset(t)
    ensures multiset(MapSeq(s, f)) == multiset(MapSeq(t, f))
    decreases |s|
  {
    if s == [] {
      assert |t| == |multiset(t)| == 0;
    } else {
      var x := s[0];
      assert x in multiset(t);
      var k :| 0 <= k < |t| && t[k] == x;
      RemoveFromPermutation(s, t, k);
      MapSeqPermutation(s[1..], t[..k] + t[k + 1..], f);
      MapSeqRemove(t, k, f);
      assert s == [x] + s[1..];
      MapSeqAppend([x], s[1..], f);
      assert MapSeq([x], f) == [f(x)];
      calc {
        multiset(MapSeq(s, f));
        multiset([f(x)] + MapSeq(s[1..], f));
        multiset{f(x)} + multiset(MapSeq(s[1..], f));
        multiset{f(x)} + multiset(MapSeq(t[..k] + t[k + 1..], f));
        multiset(MapSeq(t, f));
      }
    }
  }

  /** A map that is injective on the positions of `s` has an image as large
      as `s`. */
  lemma {:induction false} ImageCardinality<T, U>(s: seq<T>, f: T -> U)
    requires forall i, j :: 0 <= i < j < |s| ==> f(s[i]) != f(s[j])
    ensures |Image(s, f)| == |s|
    decreases |s|
  {
    if s != [] {
      var init, y := s[..|s| - 1], s[|s| - 1];
      assert s == init + [y];
      ImageCardinality(init, f);
      forall x | x in init ensures f(x) != f(y) {
        var i :| 0 <= i < |init| && init[i] == x;
        assert s[i] == x;
      }
      if f(y) in Image(init, f) {
        ImageWitness(init, f, f(y));
      }
    }
  }

  /** A subset is no larger than its superset. */
  lemma SubsetCardinality<T>(a: set<T>, b: set<T>)
    requires a <= b
    ensures |a| <= |b|
  {
    assert b == a + (b - a);
    assert a * (b - a) == {};
  }

  /** Counting a weaker predicate counts at least as many elements, and
      strictly more when it holds somewhere the stronger one does not. */
  lemma {:induction false} CountMonotone<T>(s: seq<T>, p: T -> bool, q: T -> bool)
    requires forall x :: x in s ==> p(x) ==> q(x)
    ensures Count(s, p) <= Count(s, q)
    ensures (exists x :: x in s && q(x) && !p(x)) ==> Count(s, p) < Count(s, q)
    decreases |s|
  {
    if s != [] {
      var init, y := s[..|s| - 1], s[|s| - 1];
      assert s == init + [y];
      CountMonotone(init, p, q);
      if exists x :: x in s && q(x) && !p(x) {
        var x :| x in s && q(x) && !p(x);
        if x != y {
          assert x in init;
        }
      }
    }
  }

  // ---------------------------------------------------------------------
  // Sums over finite sets
  // ---------------------------------------------------------------------

  /** Sum of `f` over a finite set (the order-free fold over a HashMap). */
  ghost function SetSum<T>(s: set<T>, f: T -> int): int
    decreases s
  {
    if s == {} then 0 else var x :| x in s; f(x) + SetSum(s - {x}, f)
  }

  lemma {:induction false} SetSumRemove<T>(s: set<T>, y: T, f: T -> int)
    requires y in s
    ensures SetSum(s, f) == f(y) + SetSum(s - {y}, f)
    decreases s
  {
    var x :| x in s && SetSum(s, f) == f(x) + SetSum(s - {x}, f);
    if x != y {
      SetSumRemove(s - {x}, y, f);
      SetSumRemove(s - {y}, x, f);
      assert s - {x} - {y} == s - {y} - {x};
    }
  }

  /** Adding one element to a set adds its value to the sum. */
  lemma SetSumInsert<T>(s: set<T>, y: T, f: T -> int)
    requires y !in s
    ensures SetSum(s + {y}, f) == SetSum(s, f) + f(y)
  {
    SetSumRemove(s + {y}, y, f);
    assert s + {y} - {y} == s;
  }

  // ---------------------------------------------------------------------
  // Grouping (itertools' `into_group_map_by`)
  // ---------------------------------------------------------------------

  /** The elements of `s` whose key is `k`, in the order of `s`. */
  function Having<T(!new), K(==)>(s: seq<T>, key: T -> K, k: K): (r: seq<T>)
    ensures forall x :: x in r <==> x in s && key(x) == k
  {
    Filter(s, x => key(x) == k)
  }

  /** Grouping by a key: one entry per key that occurs, holding the elements
      with that key in their original order. */
  function GroupBy<T(!new), K(==)>(s: seq<T>, key: T -> K): (m: map<K, seq<T>>)
    ensures m.Keys == Image(s, key)
    ensures forall k :: k in m ==> m[k] == Having(s, key, k) && m[k] != []
  {
    if s == [] then map[]
    else
      var init, x := s[..|s| - 1], s[|s| - 1];
      assert s == init + [x];
      var m := GroupBy(init, key);
      var k := key(x);
      assert k !in m ==> Having(init, key, k) == [] by {
        if k !in m {
          HavingNone(init, key, k);
        }
      }
      var m' := m[k := (if k in m then m[k] else []) + [x]];
      assert m'.Keys == Image(s, key) by {
        forall y | y in init ensures key(y) in m' {
        }
      }
      m'
  }

  /** The group of a key in a sequence without duplicates has none. */
  lemma HavingDistinct<T(!new), K>(s: seq<T>, key: T -> K, k: K)
    requires Distinct(s)
    ensures Distinct(Having(s, key, k))
  {
    FilterDistinct(s, x => key(x) == k);
  }

  /** No element has a key that is not in the image. */
  lemma HavingNone<T(!new), K>(s: seq<T>, key: T -> K, k: K)
    requires k !in Image(s, key)
    ensures Having(s, key, k) == []
  {
    CountNone(s, x => key(x) == k);
  }

  /** A group is the filter by any predicate that tests for its key. */
  lemma HavingIsFilter<T(!new), K>(s: seq<T>, key: T -> K, k: K, p: T -> bool)
    requires forall x :: p(x) == (key(x) == k)
    ensures Having(s, key, k) == Filter(s, p)
  {
    FilterCongruence(s, x => key(x) == k, p);
  }

  /** Two predicates that agree everywhere filter alike. */
  lemma {:induction false} FilterCongruence<T(!new)>(s: seq<T>, p: T -> bool, q: T -> bool)
    requires forall x :: x in s ==> p(x) == q(x)
    ensures Filter(s, p) == Filter(s, q)
    decreases |s|
  {
    if s != [] {
      var init := s[..|s| - 1];
      assert forall x :: x in init ==> x in s;
      FilterCongruence(init, p, q);
    }
  }
}

/** The leaderboards of the aoc snapshot (src/aoc/leaderboard.rs).

    A private leaderboard is the list of the stars of one event, one record
    per star. It is scored with the local-score rule over all its members
    (`Whole` scope), and ranked by local score, by stars, by global score,
    by one day's points and by one day's delta between the two parts. Two
    snapshots of a private leaderboard are compared by `compute_diffs`.

    A global leaderboard is the top 100 of both parts of one day. Its
    statistics are the fastest and slowest times of a rank and the fastest
    and slowest deltas between the parts, with inferred deltas for members
    who are in the top 100 of one part only.

    The iteration order of a hash map keyed by member is the order in which
    members first appear in the board (`MemberList`); where the source
    sorts that iteration, the contracts hold for any order. The client
    snapshot (src/client/aoc.rs) shares these definitions where its code
    is the same. */
module AocLeaderboard {
  import opened Common
  import opened Sorting
  import opened Entries
  import opened LocalScoring
  import CoreStandings

  /** A private leaderboard: one record per star of one event. */
  type Board = seq<Entry>

  /** A board of the aoc snapshot, whose parts are `ProblemPart`s. */
  predicate Valid(board: Board)
  {
    Scorable(board, Whole) && forall e :: e in board ==> e.part == 1 || e.part == 2
  }

  function Author(e: Entry): Identifier
  {
    e.id
  }

  // ---------------------------------------------------------------------
  // Members
  // ---------------------------------------------------------------------

  /** The keys of `solutions_per_member`: every member with a star, once. */
  function MemberList(board: Board): (ids: seq<Identifier>)
    ensures Distinct(ids)
    ensures forall id :: id in ids <==> id in Members(board, Whole, 0)
    ensures |ids| == MemberCount(board, Whole, 0)
  {
    var ids := Dedup(MapSeq(board, Author));
    assert forall id :: id in ids <==> id in Members(board, Whole, 0) by {
      forall id | id in Members(board, Whole, 0) ensures id in ids {
        var e :| e in board && Season(e, Whole) == 0 && e.id == id;
        var i :| 0 <= i < |board| && board[i] == e;
        assert MapSeq(board, Author)[i] == id;
      }
    }
    DistinctCardinality(ids);
    assert (set x | x in ids) == Members(board, Whole, 0);
    ids
  }

  /** `members_ids`: the numeric id of each member, one per member. */
  function MembersIds(board: Board): (ids: seq<nat>)
    ensures |ids| == MemberCount(board, Whole, 0)
    ensures forall e :: e in board ==> e.id.numeric in ids
    ensures forall n :: n in ids ==> exists e :: e in board && e.id.numeric == n
  {
    var ms := MemberList(board);
    var ids := MapSeq(ms, (m: Identifier) => m.numeric);
    assert forall n :: n in ids ==> exists e :: e in board && e.id.numeric == n by {
      forall n | n in ids ensures exists e :: e in board && e.id.numeric == n {
        var i :| 0 <= i < |ids| && ids[i] == n;
        assert ms[i] in Members(board, Whole, 0);
      }
    }
    assert forall e :: e in board ==> e.id.numeric in ids by {
      forall e | e in board ensures e.id.numeric in ids {
        assert e.id in Members(board, Whole, 0);
        var i :| 0 <= i < |ms| && ms[i] == e.id;
        assert ids[i] == e.id.numeric;
      }
    }
    ids
  }

  /** The first member of `ms` with numeric id `n` (`find_map`). */
  function FindByNumeric(ms: seq<Identifier>, n: nat): (r: Option<Identifier>)
    ensures r.Some? ==> r.value in ms && r.value.numeric == n
    ensures r.None? <==> forall m :: m in ms ==> m.numeric != n
  {
    if ms == [] then None
    else if ms[0].numeric == n then Some(ms[0])
    else
      assert ms == [ms[0]] + ms[1..];
      FindByNumeric(ms[1..], n)
  }

  /** `get_member_by_id`: a member with numeric id `n`, found exactly when
      `n` is among `members_ids`. */
  function GetMemberById(board: Board, n: nat): (r: Option<Identifier>)
    ensures r.Some? ==> r.value in Members(board, Whole, 0) && r.value.numeric == n
    ensures r.Some? <==> n in MembersIds(board)
  {
    FindByNumeric(MemberList(board), n)
  }

  // ---------------------------------------------------------------------
  // Local scores
  // ---------------------------------------------------------------------

  /** A member's points on each of the 25 days. */
  function MemberDailyScores(board: Board, id: Identifier): (scores: seq<int>)
    ensures |scores| == Days
  {
    SlotScores(DailySlots(board, Whole, MemberKey(0, id)))
  }

  /** A member's local score: the points of all the member's stars. */
  function LocalScore(board: Board, id: Identifier): int
  {
    MemberScore(board, board, Whole, MemberKey(0, id))
  }

  /** `daily_scores_per_member`: the fold over the ranked solvers of every
      (day, part), each star worth the number of members minus its
      position, added to the slot of its day. */
  method DailyScoresPerMember(board: Board) returns (scores: map<Identifier, seq<int>>)
    requires Scorable(board, Whole)
    ensures scores.Keys == Members(board, Whole, 0)
    ensures forall id :: id in scores ==> scores[id] == MemberDailyScores(board, id)
  {
    var acc := DailyScores(board, Whole);
    scores := map k | k in acc :: k.id := SlotScores(acc[k]);
    forall id ensures id in scores <==> id in Members(board, Whole, 0) {
      if id in Members(board, Whole, 0) {
        var e :| e in board && e.id == id;
        assert KeyOf(e, Whole) in acc;
      }
    }
    forall id | id in scores ensures scores[id] == MemberDailyScores(board, id) {
      var e :| e in board && KeyOf(e, Whole).id == id;
      assert KeyOf(e, Whole) == MemberKey(0, id);
    }
  }

  /** `local_scores_per_member`: the sum of a member's 25 daily scores,
      which is the sum of the points of the member's stars. */
  method LocalScoresPerMember(board: Board) returns (scores: map<Identifier, int>)
    requires Scorable(board, Whole)
    ensures scores.Keys == Members(board, Whole, 0)
    ensures forall id :: id in scores ==> scores[id] == LocalScore(board, id)
  {
    var daily := DailyScoresPerMember(board);
    scores := map id | id in daily :: Sum(daily[id]);
    forall id | id in scores ensures scores[id] == LocalScore(board, id) {
      LocalScoreIsSumOfStarScores(board, Whole, MemberKey(0, id));
    }
  }

  /** A member's stars. */
  function MemberStars(board: Board, id: Identifier): seq<Entry>
  {
    Filter(board, (e: Entry) => e.id == id)
  }

  lemma {:induction false} MemberScoreBounds(xs: seq<Entry>, es: seq<Entry>, k: MemberKey)
    requires Scorable(es, Whole)
    requires forall x :: x in xs ==> x in es
    ensures Count(xs, x => KeyOf(x, Whole) == k) <= MemberScore(xs, es, Whole, k)
    ensures MemberScore(xs, es, Whole, k) <= MemberCount(es, Whole, 0) * Count(xs, x => KeyOf(x, Whole) == k)
    decreases |xs|
  {
    if xs != [] {
      var init, x := xs[..|xs| - 1], xs[|xs| - 1];
      assert forall y :: y in init ==> y in xs;
      MemberScoreBounds(init, es, k);
      var n := MemberCount(es, Whole, 0);
      var c := Count(init, x => KeyOf(x, Whole) == k);
      var m := MemberScore(init, es, Whole, k);
      assert c <= m <= n * c;
      if KeyOf(x, Whole) == k {
        var p := StarScore(es, Whole, x);
        assert 1 <= p <= n by {
          StarScoreBounds(es, Whole, x);
        }
        assert MemberScore(xs, es, Whole, k) == m + p;
        assert Count(xs, x => KeyOf(x, Whole) == k) == c + 1;
        OneMoreStarBound(c, m, p, n);
      } else {
        assert MemberScore(xs, es, Whole, k) == m;
        assert Count(xs, x => KeyOf(x, Whole) == k) == c;
      }
    }
  }

  lemma OneMoreStarBound(c: int, m: int, p: int, n: int)
    requires c <= m <= n * c && 1 <= p <= n
    ensures c + 1 <= m + p <= n * (c + 1)
  {
    assert n * (c + 1) == n * c + n;
  }

  /** A member's local score is at least one point and at most `N` points
      per star. */
  lemma LocalScoreBounds(board: Board, id: Identifier)
    requires Scorable(board, Whole)
    ensures |MemberStars(board, id)| <= LocalScore(board, id) <= MemberCount(board, Whole, 0) * |MemberStars(board, id)|
  {
    MemberScoreBounds(board, board, MemberKey(0, id));
    CountCongruence(board, x => KeyOf(x, Whole) == MemberKey(0, id), (e: Entry) => e.id == id);
  }

  // ---------------------------------------------------------------------
  // The diff of two boards
  // ---------------------------------------------------------------------

  /** What identifies a star across two snapshots: (numeric id, day, part). */
  function SolutionKey(s: Entry): (nat, nat, nat)
  {
    (s.id.numeric, s.day, s.part)
  }

  function SolutionKeys(board: Board): set<(nat, nat, nat)>
  {
    set s | s in board :: SolutionKey(s)
  }

  /** A star whose key no star of `current` has. */
  function NotIn(current: Board): Entry -> bool
  {
    s => SolutionKey(s) !in SolutionKeys(current)
  }

  /** `compute_diffs`: the stars of `board`, in order, whose key no star of
      `current` has. */
  function ComputeDiffs(board: Board, current: Board): (r: seq<Entry>)
    ensures forall s :: s in r <==> s in board && forall c :: c in current ==> SolutionKey(c) != SolutionKey(s)
    ensures |r| <= |board|
  {
    var r := Filter(board, NotIn(current));
    assert forall s :: s in r <==> s in board && forall c :: c in current ==> SolutionKey(c) != SolutionKey(s) by {
      forall s | s in board && SolutionKey(s) in SolutionKeys(current)
        ensures exists c :: c in current && SolutionKey(c) == SolutionKey(s)
      {
        var c :| c in current && SolutionKey(c) == SolutionKey(s);
      }
    }
    CountMonotone(board, NotIn(current), x => true);
    CountAll(board, x => true);
    r
  }

  /** A board diffed with itself has no new star. */
  lemma ComputeDiffsSelf(board: Board)
    ensures ComputeDiffs(board, board) == []
  {
    forall s | s in board ensures !NotIn(board)(s) {
      assert SolutionKey(s) in SolutionKeys(board);
    }
    CountNone(board, NotIn(board));
  }

  /** Against an empty board every star is new, in its order. */
  lemma ComputeDiffsEmpty(board: Board)
    ensures ComputeDiffs(board, []) == board
  {
    FilterIdentity(board, NotIn([]));
  }

  /** The diff is idempotent: diffing the new stars again changes nothing. */
  lemma ComputeDiffsIdempotent(board: Board, current: Board)
    ensures ComputeDiffs(ComputeDiffs(board, current), current) == ComputeDiffs(board, current)
  {
    var r := ComputeDiffs(board, current);
    FilterIdentity(r, NotIn(current));
  }

  // ---------------------------------------------------------------------
  // Standings
  // ---------------------------------------------------------------------

  /** A standings row: a name and points, stars or a score. */
  type Row = (string, int)

  /** Rows by the number descending (`sorted_by_key(Reverse(..))`). */
  predicate Descending(rows: seq<Row>)
  {
    forall i, j :: 0 <= i < j < |rows| ==> rows[i].1 >= rows[j].1
  }

  function SortDescending(rows: seq<Row>): (r: seq<Row>)
    ensures Descending(r)
    ensures multiset(r) == multiset(rows)
  {
    SortBy(rows, (a: Row, b: Row) => a.1 >= b.1)
  }

  /** Every member with its local score. */
  function LocalRows(board: Board): seq<Row>
  {
    MapSeq(MemberList(board), (id: Identifier) => (id.name, LocalScore(board, id)))
  }

  /** `standings_by_local_score`: every member with its local score, by
      score descending. */
  method StandingsByLocalScore(board: Board) returns (r: seq<Row>)
    requires Scorable(board, Whole)
    ensures Descending(r)
    ensures multiset(r) == multiset(LocalRows(board))
  {
    var scores := LocalScoresPerMember(board);
    var ms := MemberList(board);
    var rows := seq(|ms|, i requires 0 <= i < |ms| && ms[i] in scores => (ms[i].name, scores[ms[i]]));
    assert rows == LocalRows(board);
    r := SortDescending(rows);
  }

  /** The most recent star, in the derived order (`sorted_unstable().last()`). */
  function LastStar(stars: seq<Entry>): (r: Option<Entry>)
    ensures r.None? <==> stars == []
    ensures r.Some? ==> r.value in stars && forall s :: s in stars ==> EntryLe(s, r.value)
  {
    if stars == [] then None
    else
      var sorted := SortEntries(stars);
      assert |sorted| == |multiset(sorted)| == |stars|;
      var last := sorted[|sorted| - 1];
      assert last in multiset(stars);
      assert forall s :: s in stars ==> EntryLe(s, last) by {
        forall s | s in stars ensures EntryLe(s, last) {
          assert s in multiset(sorted);
          var i :| 0 <= i < |sorted| && sorted[i] == s;
          assert i == |sorted| - 1 || EntryLe(sorted[i], sorted[|sorted| - 1]);
        }
      }
      Some(last)
  }

  /** `None` before any star, stars in the derived order. */
  predicate OptionEntryLe(a: Option<Entry>, b: Option<Entry>)
  {
    a.None? || (b.Some? && EntryLe(a.value, b.value))
  }

  /** A member's name, number of stars and most recent star. */
  type StarRow = (string, nat, Option<Entry>)

  function StarRowOf(board: Board, id: Identifier): StarRow
  {
    (id.name, |MemberStars(board, id)|, LastStar(MemberStars(board, id)))
  }

  /** The key `(Reverse(stars), last star)`: more stars first, then the
      earlier most recent star. */
  predicate StarRowLe(a: StarRow, b: StarRow)
  {
    a.1 > b.1 || (a.1 == b.1 && OptionEntryLe(a.2, b.2))
  }

  lemma StarRowLeTotal()
    ensures TotalPreorder(StarRowLe)
  {
    EntryLeTotalOrder();
    forall a: StarRow, b: StarRow, c: StarRow | StarRowLe(a, b) && StarRowLe(b, c) ensures StarRowLe(a, c) {
      if a.1 == b.1 == c.1 && a.2.Some? {
        assert EntryLe(a.2.value, b.2.value) && EntryLe(b.2.value, c.2.value);
      }
    }
  }

  /** Every member's star row, in member order. */
  function MemberStarRows(board: Board): (rows: seq<StarRow>)
    ensures |rows| == |MemberList(board)|
    ensures forall i :: 0 <= i < |rows| ==> rows[i] == StarRowOf(board, MemberList(board)[i])
  {
    var ms := MemberList(board);
    seq(|ms|, i requires 0 <= i < |ms| => StarRowOf(board, ms[i]))
  }

  /** The members' star rows in the order of `standings_by_number_of_stars`. */
  function StarRows(board: Board): (r: seq<StarRow>)
    ensures SortedBy(r, StarRowLe)
    ensures multiset(r) == multiset(MemberStarRows(board))
  {
    StarRowLeTotal();
    SortBy(MemberStarRows(board), StarRowLe)
  }

  /** A star row without its last star. */
  function StarCount(x: StarRow): Row
  {
    (x.0, x.1 as int)
  }

  /** Every member with its number of stars, in member order. */
  function StarCounts(board: Board): (rows: seq<Row>)
    ensures |rows| == MemberCount(board, Whole, 0)
    ensures forall i :: 0 <= i < |rows| ==>
      rows[i] == (MemberList(board)[i].name, |MemberStars(board, MemberList(board)[i])|)
  {
    MapSeq(MemberStarRows(board), StarCount)
  }

  /** `standings_by_number_of_stars`: every member once, with its number of
      stars, by that number descending; among equal counts, the member
      whose last star is earlier comes first (`StarRows`). */
  function StandingsByNumberOfStars(board: Board): (r: seq<Row>)
    ensures |r| == MemberCount(board, Whole, 0)
    ensures Descending(r)
    ensures multiset(r) == multiset(StarCounts(board))
    ensures r == MapSeq(StarRows(board), StarCount)
  {
    var rows := StarRows(board);
    assert |rows| == |multiset(rows)| == |MemberStarRows(board)|;
    MapSeqPermutation(rows, MemberStarRows(board), StarCount);
    MapSeq(rows, StarCount)
  }

  /** The members with a global score. */
  function GlobalScorers(board: Board): set<Identifier>
  {
    set id | id in Members(board, Whole, 0) && id.score > 0
  }

  function HasGlobalScore(id: Identifier): bool
  {
    id.score > 0
  }

  function GlobalRow(id: Identifier): Row
  {
    (id.name, id.score as int)
  }

  /** The members with a positive global score, with that score. */
  function GlobalRows(board: Board): (rows: seq<Row>)
    ensures |rows| == |GlobalScorers(board)|
    ensures forall i :: 0 <= i < |rows| ==> rows[i].1 > 0
  {
    var kept := Filter(MemberList(board), HasGlobalScore);
    KeptGlobalScorers(board, kept);
    MapSeq(kept, GlobalRow)
  }

  lemma KeptGlobalScorers(board: Board, kept: seq<Identifier>)
    requires kept == Filter(MemberList(board), HasGlobalScore)
    ensures |kept| == |GlobalScorers(board)|
    ensures forall i :: 0 <= i < |kept| ==> kept[i].score > 0
  {
    FilterDistinct(MemberList(board), HasGlobalScore);
    DistinctCardinality(kept);
    assert (set x | x in kept) == GlobalScorers(board);
    forall i | 0 <= i < |kept| ensures kept[i].score > 0 {
      assert kept[i] in kept;
    }
  }

  /** A permutation of positive rows holds positive rows only. */
  lemma PositiveRows(rows: seq<Row>, r: seq<Row>)
    requires multiset(r) == multiset(rows)
    requires forall i :: 0 <= i < |rows| ==> rows[i].1 > 0
    ensures |r| == |rows|
    ensures forall i :: 0 <= i < |r| ==> r[i].1 > 0
  {
    assert |r| == |multiset(r)| == |rows|;
    forall i | 0 <= i < |r| ensures r[i].1 > 0 {
      assert r[i] in multiset(rows);
      var j :| 0 <= j < |rows| && rows[j] == r[i];
    }
  }

  /** `standings_by_global_score`: the members with a positive global
      score, with that score, descending. */
  function StandingsByGlobalScore(board: Board): (r: seq<Row>)
    ensures |r| == |GlobalScorers(board)|
    ensures forall i :: 0 <= i < |r| ==> r[i].1 > 0
    ensures Descending(r)
    ensures multiset(r) == multiset(GlobalRows(board))
  {
    var rows := GlobalRows(board);
    var r := SortDescending(rows);
    PositiveRows(rows, r);
    r
  }

  /** A member's points of one day. */
  function DayScore(board: Board, id: Identifier, day: nat): int
    requires 1 <= day <= Days
  {
    MemberDailyScores(board, id)[day - 1]
  }

  function ScoredOn(board: Board, day: nat): Identifier -> bool
    requires 1 <= day <= Days
  {
    (id: Identifier) => DayScore(board, id, day) > 0
  }

  function DayRow(board: Board, day: nat): Identifier -> Row
    requires 1 <= day <= Days
  {
    (id: Identifier) => (id.name, DayScore(board, id, day))
  }

  /** Every member that scored on `day`, with its points of the day. */
  function DayRows(board: Board, day: nat): (rows: seq<Row>)
    requires 1 <= day <= Days
    ensures forall i :: 0 <= i < |rows| ==> rows[i].1 > 0
  {
    var scored := Filter(MemberList(board), ScoredOn(board, day));
    assert forall i :: 0 <= i < |scored| ==> scored[i] in scored;
    MapSeq(scored, DayRow(board, day))
  }

  function Scored(x: Row): bool
  {
    x.1 > 0
  }

  /** `standings_by_local_score_for_day`: the members that scored on `day`
      (the slot `day - 1` must exist), by points of the day descending. */
  method StandingsByLocalScoreForDay(board: Board, day: nat) returns (r: seq<Row>)
    requires Scorable(board, Whole)
    requires 1 <= day <= Days
    ensures Descending(r)
    ensures forall i :: 0 <= i < |r| ==> r[i].1 > 0
    ensures multiset(r) == multiset(DayRows(board, day))
  {
    var daily := DailyScoresPerMember(board);
    var ms := MemberList(board);
    assert forall i :: 0 <= i < |ms| ==> ms[i] in daily;
    var all := seq(|ms|, i requires 0 <= i < |ms| && ms[i] in daily => (ms[i].name, daily[ms[i]][day - 1]));
    var kept := Filter(all, Scored);
    DayRowsFilterMap(ms, all, board, day);
    assert kept == DayRows(board, day);
    r := SortDescending(kept);
    PositiveRows(DayRows(board, day), r);
  }

  lemma {:induction false} DayRowsFilterMap(ms: seq<Identifier>, all: seq<Row>, board: Board, day: nat)
    requires 1 <= day <= Days
    requires |all| == |ms| && forall i :: 0 <= i < |ms| ==> all[i] == DayRow(board, day)(ms[i])
    ensures Filter(all, Scored) == MapSeq(Filter(ms, ScoredOn(board, day)), DayRow(board, day))
    decreases |ms|
  {
    if ms != [] {
      var init := ms[..|ms| - 1];
      DayRowsFilterMap(init, all[..|all| - 1], board, day);
      var f := Filter(init, ScoredOn(board, day));
      var last := ms[|ms| - 1];
      if ScoredOn(board, day)(last) {
        MapSeqAppend(f, [last], DayRow(board, day));
      }
    }
  }

  lemma {:induction false} NoStarNoScore(xs: seq<Entry>, es: seq<Entry>, k: MemberKey, day: nat)
    requires forall x :: x in xs ==> !InSlot(x, Whole, k, day)
    ensures SlotScore(xs, es, Whole, k, day) == 0
    decreases |xs|
  {
    if xs != [] {
      var init := xs[..|xs| - 1];
      assert forall x :: x in init ==> x in xs;
      NoStarNoScore(init, es, k, day);
    }
  }

  /** A member scores on a day exactly when it has a star of that day: the
      day standings list exactly the members with a star that day. */
  lemma DayScorePositive(board: Board, id: Identifier, day: nat)
    requires Scorable(board, Whole)
    requires 1 <= day <= Days
    ensures DayScore(board, id, day) > 0 <==> exists e :: e in board && e.id == id && e.day == day
  {
    var k := MemberKey(0, id);
    var inSlot := x => InSlot(x, Whole, k, day);
    if e :| e in board && e.id == id && e.day == day {
      SlotScoreAtLeastStars(board, board, Whole, k, day);
      SlotStarsIsCount(board, Whole, k, day);
      CountMonotone(board, x => false, inSlot);
    } else {
      NoStarNoScore(board, board, k, day);
    }
  }

  /** A member's stars of one day. */
  function DaySolutions(board: Board, id: Identifier, day: nat): seq<Entry>
  {
    Filter(board, x => InSlot(x, Whole, MemberKey(0, id), day))
  }

  /** At most two stars a day (more is unreachable in the source). */
  lemma DaySolutionsAtMostTwo(board: Board, id: Identifier, day: nat)
    requires Valid(board)
    ensures |DaySolutions(board, id, day)| <= 2
  {
    SlotStarsAtMostTwo(board, Whole, MemberKey(0, id), day);
  }

  /** The time between a member's two stars of the day; none with fewer. */
  function DayDelta(board: Board, id: Identifier, day: nat): (r: Option<Row>)
    requires Valid(board)
  {
    var g := DaySolutions(board, id, day);
    DaySolutionsAtMostTwo(board, id, day);
    if g == [] then None
    else
      match CoreStandings.ComputeDelta(g)
      case Some(d) => Some((id.name, d))
      case None => None
  }

  /** Rows by the number ascending (`sorted_by_key`). */
  predicate Ascending(rows: seq<Row>)
  {
    forall i, j :: 0 <= i < j < |rows| ==> rows[i].1 <= rows[j].1
  }

  /** `standings_by_delta_for_day`: the members with both stars of `day`,
      with the time between them, ascending. */
  function StandingsByDeltaForDay(board: Board, day: nat): (r: seq<Row>)
    requires Valid(board)
    ensures Ascending(r)
    ensures multiset(r) == multiset(Somes(MapSeq(MemberList(board), (id: Identifier) => DayDelta(board, id, day))))
  {
    SortBy(Somes(MapSeq(MemberList(board), (id: Identifier) => DayDelta(board, id, day))), (a: Row, b: Row) => a.1 <= b.1)
  }

  /** The member holds a star of `part` of `day`. */
  predicate HasStar(board: Board, id: Identifier, day: nat, part: nat)
  {
    exists e :: e in board && e.id == id && e.day == day && e.part == part
  }

  /** A member's stars of a day are two exactly when it holds both parts,
      and then they are one of each part. */
  lemma DaySolutionsPair(board: Board, id: Identifier, day: nat)
    requires Valid(board)
    ensures var g := DaySolutions(board, id, day);
      (|g| == 2 <==> HasStar(board, id, day, 1) && HasStar(board, id, day, 2)) &&
      (|g| == 2 ==> g[0] in board && g[1] in board && {g[0].part, g[1].part} == {1, 2})
  {
    var g := DaySolutions(board, id, day);
    DaySolutionsAtMostTwo(board, id, day);
    FilterDistinct(board, x => InSlot(x, Whole, MemberKey(0, id), day));
    if |g| == 2 {
      assert g[0] in g && g[1] in g;
      assert !SameStar(g[0], g[1], Whole);
      if g[0].part == 1 {
        assert HasStar(board, id, day, 1) && HasStar(board, id, day, 2) by {
          assert g[0].id == id && g[1].id == id;
        }
      } else {
        assert HasStar(board, id, day, 1) && HasStar(board, id, day, 2) by {
          assert g[0].id == id && g[1].id == id;
        }
      }
    }
  }

  /** A member has a delta on a day exactly when it holds both parts of
      that day. */
  lemma DayDeltaBothParts(board: Board, id: Identifier, day: nat)
    requires Valid(board)
    ensures DayDelta(board, id, day).Some? <==> HasStar(board, id, day, 1) && HasStar(board, id, day, 2)
  {
    DaySolutionsPair(board, id, day);
  }

  /** The delta is the member's name and the non-negative time between
      its part-1 and its part-2 star of the day. */
  lemma DayDeltaValue(board: Board, id: Identifier, day: nat)
    requires Valid(board)
    requires DayDelta(board, id, day).Some?
    ensures DayDelta(board, id, day).value.0 == id.name
    ensures exists a, b :: a in board && b in board && a.id == id && b.id == id &&
                          a.day == day && b.day == day && a.part == 1 && b.part == 2 &&
                          DayDelta(board, id, day).value.1 ==
                            (if a.timestamp <= b.timestamp then b.timestamp - a.timestamp else a.timestamp - b.timestamp)
  {
    var g := DaySolutions(board, id, day);
    DaySolutionsPair(board, id, day);
    assert g[0] in g && g[1] in g;
    var a, b := if g[0].part == 1 then g[0] else g[1], if g[0].part == 1 then g[1] else g[0];
    assert a.id == id && b.id == id && a.day == day && b.day == day;
  }

  // ---------------------------------------------------------------------
  // The global leaderboard
  // ---------------------------------------------------------------------

  /** A place in the global top 100 of one part: member id, rank and time
      since the day's release. */
  datatype GlobalEntry = GlobalEntry(id: nat, rank: nat, part: ProblemPart, time: int)

  type Global = seq<GlobalEntry>

  /** The size of each part's top list. */
  const TopSize: nat := 100

  /** `is_complete`: both top lists are full. */
  function IsComplete(g: Global): (b: bool)
    ensures b <==> |g| == 2 * TopSize
  {
    |g| == 200
  }

  /** The number of places of one part. */
  function PartCount(g: Global, part: ProblemPart): nat
  {
    Count(g, (e: GlobalEntry) => e.part == part)
  }

  /** Every place belongs to one of the two parts. */
  lemma {:induction false} PartCountsSum(g: Global)
    ensures PartCount(g, FIRST) + PartCount(g, SECOND) == |g|
    decreases |g|
  {
    if g != [] {
      PartCountsSum(g[..|g| - 1]);
    }
  }

  /** With at most 100 places per part, the board is complete exactly when
      both top lists hold 100 places. */
  lemma CompleteBoardIsFull(g: Global)
    requires PartCount(g, FIRST) <= TopSize && PartCount(g, SECOND) <= TopSize
    ensures IsComplete(g) <==> PartCount(g, FIRST) == TopSize && PartCount(g, SECOND) == TopSize
  {
    PartCountsSum(g);
  }

  function RankOf(e: GlobalEntry): nat
  {
    e.rank
  }

  function RanksIn(g: Global): set<nat>
  {
    set e | e in g :: e.rank
  }

  /** The entries of one rank, by time ascending. */
  function ByTime(g: Global, rank: nat): (r: seq<GlobalEntry>)
    ensures forall i, j :: 0 <= i < j < |r| ==> r[i].time <= r[j].time
    ensures multiset(r) == multiset(Having(g, RankOf, rank))
  {
    SortBy(Having(g, RankOf, rank), (a: GlobalEntry, b: GlobalEntry) => a.time <= b.time)
  }

  /** A rank with its fastest and second-fastest entry. */
  type RankTimes = (nat, Option<GlobalEntry>, Option<GlobalEntry>)

  function RankTimesOf(g: Global, rank: nat): RankTimes
  {
    var t := ByTime(g, rank);
    (rank, if |t| > 0 then Some(t[0]) else None, if |t| > 1 then Some(t[1]) else None)
  }

  function RanksOf(r: seq<RankTimes>): set<nat>
  {
    set i | 0 <= i < |r| :: r[i].0
  }

  /** `sorted_ranks`: every rank once, ascending, with its two fastest
      entries. */
  function SortedRanks(g: Global): (r: seq<RankTimes>)
    ensures forall i, j :: 0 <= i < j < |r| ==> r[i].0 < r[j].0
    ensures RanksOf(r) == RanksIn(g)
    ensures forall i :: 0 <= i < |r| ==> r[i] == RankTimesOf(g, r[i].0)
  {
    var ranks := Dedup(MapSeq(g, RankOf));
    var rows := MapSeq(ranks, (k: nat) => RankTimesOf(g, k));
    var r := SortBy(rows, (a: RankTimes, b: RankTimes) => a.0 <= b.0);
    SortedRanksFacts(g, ranks, rows, r);
    r
  }

  lemma SortedRanksFacts(g: Global, ranks: seq<nat>, rows: seq<RankTimes>, r: seq<RankTimes>)
    requires ranks == Dedup(MapSeq(g, RankOf))
    requires rows == MapSeq(ranks, (k: nat) => RankTimesOf(g, k))
    requires multiset(r) == multiset(rows)
    requires forall i, j :: 0 <= i < j < |r| ==> r[i].0 <= r[j].0
    ensures forall i, j :: 0 <= i < j < |r| ==> r[i].0 < r[j].0
    ensures RanksOf(r) == RanksIn(g)
    ensures forall i :: 0 <= i < |r| ==> r[i] == RankTimesOf(g, r[i].0)
  {
    RowsOfRanks(g, ranks, rows, r);
    forall i, j | 0 <= i < j < |r| ensures r[i].0 < r[j].0 {
      assert r[i] != r[j];
    }
    RanksEnumerate(g);
    RanksOfRows(g, ranks, rows, r);
  }

  /** The sorted rows are the rows of their ranks, each once. */
  lemma RowsOfRanks(g: Global, ranks: seq<nat>, rows: seq<RankTimes>, r: seq<RankTimes>)
    requires Distinct(ranks)
    requires rows == MapSeq(ranks, (k: nat) => RankTimesOf(g, k))
    requires multiset(r) == multiset(rows)
    ensures forall i :: 0 <= i < |r| ==> r[i] in rows && r[i] == RankTimesOf(g, r[i].0)
    ensures forall x :: x in rows ==> x in r
    ensures Distinct(r)
  {
    forall i | 0 <= i < |r| ensures r[i] in rows && r[i] == RankTimesOf(g, r[i].0) {
      assert r[i] in multiset(rows);
    }
    forall x | x in rows ensures x in r {
      assert x in multiset(r);
    }
    assert Distinct(rows) by {
      forall i, j | 0 <= i < j < |rows| ensures rows[i] != rows[j] {
        assert rows[i].0 == ranks[i] && rows[j].0 == ranks[j];
      }
    }
    DistinctPermutation(rows, r);
  }

  /** The distinct ranks enumerate the ranks of the board. */
  lemma RanksEnumerate(g: Global)
    ensures forall k :: k in Dedup(MapSeq(g, RankOf)) <==> k in RanksIn(g)
  {
    var ms := MapSeq(g, RankOf);
    forall k | k in RanksIn(g) ensures k in ms {
      var e :| e in g && e.rank == k;
      var i :| 0 <= i < |g| && g[i] == e;
      assert ms[i] == k;
    }
    forall k | k in ms ensures k in RanksIn(g) {
      var i :| 0 <= i < |g| && ms[i] == k;
      assert g[i] in g;
    }
  }

  /** The sorted rows carry exactly the ranks of the board. */
  lemma RanksOfRows(g: Global, ranks: seq<nat>, rows: seq<RankTimes>, r: seq<RankTimes>)
    requires forall k :: k in ranks <==> k in RanksIn(g)
    requires |rows| == |ranks| && forall a :: 0 <= a < |rows| ==> rows[a].0 == ranks[a]
    requires forall x :: x in r <==> x in rows
    ensures RanksOf(r) == RanksIn(g)
  {
    forall k | k in RanksIn(g) ensures k in RanksOf(r) {
      var a :| 0 <= a < |ranks| && ranks[a] == k;
      assert rows[a] in rows;
      var j :| 0 <= j < |r| && r[j] == rows[a];
    }
    forall k | k in RanksOf(r) ensures k in RanksIn(g) {
      var j :| 0 <= j < |r| && r[j].0 == k;
      assert r[j] in r;
      var a :| 0 <= a < |rows| && rows[a] == r[j];
    }
  }

  /** Of every rank, the first entry is its fastest, and there is a second
      exactly when the rank is shared. */
  lemma RankTimesFacts(g: Global, rank: nat)
    requires rank in RanksIn(g)
    ensures var (k, fastest, second) := RankTimesOf(g, rank);
      k == rank && fastest.Some? && fastest.value in g && fastest.value.rank == rank &&
      (forall e :: e in g && e.rank == rank ==> fastest.value.time <= e.time) &&
      (second.Some? <==> |Having(g, RankOf, rank)| >= 2) &&
      (second.Some? ==> second.value in g && second.value.rank == rank && fastest.value.time <= second.value.time)
  {
    var t := ByTime(g, rank);
    var h := Having(g, RankOf, rank);
    assert |t| == |multiset(t)| == |h|;
    var e :| e in g && e.rank == rank;
    assert e in h;
    assert RankTimesOf(g, rank) == (rank, Some(t[0]), if |t| > 1 then Some(t[1]) else None);
    assert t[0] in multiset(h);
    if |t| > 1 {
      assert t[1] in multiset(h);
    }
    forall x | x in g && x.rank == rank ensures t[0].time <= x.time {
      assert x in h;
      assert x in multiset(t);
      var j :| 0 <= j < |t| && t[j] == x;
    }
  }

  /** `get_fastest_and_slowest_times`: the entry of the smallest rank, and
      the last of the remaining ones (none when there is a single rank). */
  function FastestAndSlowestTimes(g: Global): (r: (Option<RankTimes>, Option<RankTimes>))
    ensures r.0.None? <==> g == []
    ensures r.1.None? <==> |RanksIn(g)| < 2
    ensures r.0.Some? ==> r.0.value == RankTimesOf(g, r.0.value.0) && r.0.value.0 in RanksIn(g) &&
                          forall e :: e in g ==> r.0.value.0 <= e.rank
    ensures r.1.Some? ==> r.1.value == RankTimesOf(g, r.1.value.0) && r.1.value.0 in RanksIn(g) &&
                          forall e :: e in g ==> e.rank <= r.1.value.0
  {
    var ranked := SortedRanks(g);
    FastestAndSlowestFacts(g, ranked);
    (if |ranked| > 0 then Some(ranked[0]) else None,
     if |ranked| > 1 then Some(ranked[|ranked| - 1]) else None)
  }

  lemma FastestAndSlowestFacts(g: Global, ranked: seq<RankTimes>)
    requires forall i, j :: 0 <= i < j < |ranked| ==> ranked[i].0 < ranked[j].0
    requires RanksOf(ranked) == RanksIn(g)
    ensures |ranked| == |RanksIn(g)|
    ensures ranked == [] <==> g == []
    ensures forall e :: e in g ==> exists i :: 0 <= i < |ranked| && ranked[i].0 == e.rank
    ensures ranked != [] ==> ranked[0].0 in RanksIn(g) && ranked[|ranked| - 1].0 in RanksIn(g)
  {
    var ks := MapSeq(ranked, (x: RankTimes) => x.0);
    assert (set k: nat | k in ks) == RanksOf(ranked) by {
      forall k | k in RanksOf(ranked) ensures k in ks {
        var i :| 0 <= i < |ranked| && ranked[i].0 == k;
        assert ks[i] == k;
      }
      forall k | k in ks ensures k in RanksOf(ranked) {
        var i :| 0 <= i < |ks| && ks[i] == k;
        assert ranked[i].0 == k;
      }
    }
    assert Distinct(ks) by {
      forall i, j | 0 <= i < j < |ks| ensures ks[i] != ks[j] {
        assert ranked[i].0 < ranked[j].0;
      }
    }
    DistinctCardinality<nat>(ks);
    assert |ranked| == |ks| == |set k: nat | k in ks| == |RanksOf(ranked)|;
    forall e | e in g ensures exists i :: 0 <= i < |ranked| && ranked[i].0 == e.rank {
      assert e.rank in RanksOf(ranked);
    }
    if g != [] {
      assert g[0].rank in RanksIn(g);
    }
    if ranked != [] {
      assert ranked[0].0 in RanksOf(ranked);
      assert ranked[|ranked| - 1].0 in RanksOf(ranked);
    }
  }

  // ---------------------------------------------------------------------
  // Global deltas
  // ---------------------------------------------------------------------

  /** The running maximum of the fold: the latest time of `part`, or zero. */
  function LatestTime(g: Global, part: ProblemPart): (t: int)
    ensures t >= 0
    ensures forall e :: e in g && e.part == part ==> e.time <= t
    ensures t == 0 || exists e :: e in g && e.part == part && e.time == t
  {
    if g == [] then 0
    else
      var init, e := g[..|g| - 1], g[|g| - 1];
      assert g == init + [e];
      var t := LatestTime(init, part);
      if e.part == part && e.time > t then e.time else t
  }

  /** The fold of `sorted_deltas` over the entries: the latest time of each
      part, starting from zero. */
  method LatestTimes(g: Global) returns (maxFirst: int, maxSecond: int)
    ensures maxFirst == LatestTime(g, FIRST) && maxSecond == LatestTime(g, SECOND)
  {
    maxFirst, maxSecond := 0, 0;
    var i := 0;
    while i < |g|
      invariant 0 <= i <= |g|
      invariant maxFirst == LatestTime(g[..i], FIRST) && maxSecond == LatestTime(g[..i], SECOND)
    {
      var entry := g[i];
      match entry.part {
        case FIRST =>
          if entry.time > maxFirst {
            maxFirst := entry.time;
          }
        case SECOND =>
          if entry.time > maxSecond {
            maxSecond := entry.time;
          }
      }
      assert g[..i + 1][..i] == g[..i];
      i := i + 1;
    }
    assert g[..|g|] == g;
  }

  /** The rank given to a member missing from the top 100 of part 2. */
  const Sentinel: nat := 101

  function GlobalId(e: GlobalEntry): nat
  {
    e.id
  }

  /** A member holds at most two places (more is unreachable). */
  predicate AtMostTwoPerId(g: Global)
  {
    forall e :: e in g ==> |Having(g, GlobalId, e.id)| <= 2
  }

  /** A delta between the parts, and the rank it is reported with. */
  type DeltaRank = (int, nat)

  /** One member's delta: with both places, the time between them and the
      later place's rank; with part 1 only, at least the time from its part
      1 to the last part-2 place plus a second, ranked `Sentinel`; with part
      2 only, at most the time from the last part-1 place to its part 2
      minus a second, with its rank. */
  function MemberDelta(entries: seq<GlobalEntry>, maxFirst: int, maxSecond: int): (d: DeltaRank)
    requires 1 <= |entries| <= 2
  {
    if |entries| == 1 then
      var entry := entries[0];
      match entry.part
      case FIRST => (maxSecond - entry.time + 1, Sentinel)
      case SECOND => (entry.time - maxFirst - 1, entry.rank)
    else
      var p1 := if entries[1].time < entries[0].time then entries[1] else entries[0];
      var p2 := if entries[1].time < entries[0].time then entries[0] else entries[1];
      (p2.time - p1.time, p2.rank)
  }

  function GlobalIds(g: Global): (ids: seq<nat>)
    ensures Distinct(ids)
    ensures forall id :: id in ids ==> Having(g, GlobalId, id) != []
  {
    var ids := Dedup(MapSeq(g, GlobalId));
    assert forall id :: id in ids ==> Having(g, GlobalId, id) != [] by {
      forall id | id in ids ensures Having(g, GlobalId, id) != [] {
        var i :| 0 <= i < |g| && MapSeq(g, GlobalId)[i] == id;
        assert g[i] in Having(g, GlobalId, id);
      }
    }
    ids
  }

  /** Every member's delta, in the iteration order of the members. */
  function DeltaRows(g: Global, maxFirst: int, maxSecond: int): (rows: seq<DeltaRank>)
    requires AtMostTwoPerId(g)
  {
    var ids := GlobalIds(g);
    seq(|ids|, i requires 0 <= i < |ids| => MemberDelta(Having(g, GlobalId, ids[i]), maxFirst, maxSecond))
  }

  /** The order of `sorted()` on (delta, rank) pairs. */
  predicate DeltaLe(a: DeltaRank, b: DeltaRank)
  {
    a.0 < b.0 || (a.0 == b.0 && a.1 <= b.1)
  }

  /** `sorted_deltas`: every member's delta, ascending. */
  method SortedDeltas(g: Global) returns (r: seq<DeltaRank>)
    requires AtMostTwoPerId(g)
    ensures forall i, j :: 0 <= i < j < |r| ==> DeltaLe(r[i], r[j])
    ensures multiset(r) == multiset(DeltaRows(g, LatestTime(g, FIRST), LatestTime(g, SECOND)))
  {
    var maxFirst, maxSecond := LatestTimes(g);
    r := SortBy(DeltaRows(g, maxFirst, maxSecond), DeltaLe);
  }

  /** The sentinel rank marks exactly the members with a part-1 place
      only, given that real ranks are at most 100. */
  lemma SentinelIsPartOneOnly(entries: seq<GlobalEntry>, maxFirst: int, maxSecond: int)
    requires 1 <= |entries| <= 2
    requires forall e :: e in entries ==> e.rank <= TopSize
    ensures MemberDelta(entries, maxFirst, maxSecond).1 == Sentinel <==> |entries| == 1 && entries[0].part == FIRST
  {
    assert entries[0] in entries;
    if |entries| == 2 {
      assert entries[1] in entries;
    }
  }

  /** The inferred deltas bound the real ones: a part-1-only member solved
      part 2 after the last part-2 place, so its real delta is at least the
      inferred one; a part-2-only member solved part 1 after the last
      part-1 place, so its real delta is at most the inferred one. */
  lemma InferredDeltaBounds(entry: GlobalEntry, maxFirst: int, maxSecond: int, otherTime: int)
    ensures entry.part == FIRST && otherTime > maxSecond ==>
      MemberDelta([entry], maxFirst, maxSecond).0 <= otherTime - entry.time
    ensures entry.part == SECOND && otherTime > maxFirst ==>
      entry.time - otherTime <= MemberDelta([entry], maxFirst, maxSecond).0
  {
  }

  /** A member with both places has the non-negative time between them and
      the rank of the later place. */
  lemma BothPlacesDelta(entries: seq<GlobalEntry>, maxFirst: int, maxSecond: int)
    requires |entries| == 2
    ensures var d := MemberDelta(entries, maxFirst, maxSecond);
      d.0 >= 0 && exists a, b :: a in entries && b in entries && a.time <= b.time && d == (b.time - a.time, b.rank)
  {
    var d := MemberDelta(entries, maxFirst, maxSecond);
    assert entries[0] in entries && entries[1] in entries;
  }

  /** A delta that enters the report: rank within the top 100. */
  predicate InTop(d: DeltaRank)
  {
    d.1 <= TopSize
  }

  /** `get_fastest_and_slowest_deltas`: among the deltas ranked within the
      top 100 (never the sentinel), the smallest, and the largest when
      there are at least two. */
  method FastestAndSlowestDeltas(g: Global) returns (fastest: Option<DeltaRank>, slowest: Option<DeltaRank>)
    requires AtMostTwoPerId(g)
    ensures var rows := DeltaRows(g, LatestTime(g, FIRST), LatestTime(g, SECOND));
      (fastest.None? <==> Count(rows, InTop) == 0) &&
      (slowest.None? <==> Count(rows, InTop) < 2) &&
      (fastest.Some? ==> fastest.value in rows && InTop(fastest.value) &&
                         forall d :: d in rows && InTop(d) ==> DeltaLe(fastest.value, d)) &&
      (slowest.Some? ==> slowest.value in rows && InTop(slowest.value) &&
                         forall d :: d in rows && InTop(d) ==> DeltaLe(d, slowest.value))
  {
    var sorted := SortedDeltas(g);
    var deltas := Filter(sorted, InTop);
    fastest := if |deltas| > 0 then Some(deltas[0]) else None;
    slowest := if |deltas| > 1 then Some(deltas[|deltas| - 1]) else None;
    ghost var rows := DeltaRows(g, LatestTime(g, FIRST), LatestTime(g, SECOND));
    CountPermutation(sorted, rows, InTop);
    FilterSorted(sorted, InTop, DeltaLe);
    forall d | d in deltas ensures d in rows {
      assert d in multiset(sorted);
    }
    forall d | d in rows && InTop(d) ensures d in deltas {
      assert d in multiset(sorted);
    }
  }

  // ---------------------------------------------------------------------
  // Private members in the global leaderboard
  // ---------------------------------------------------------------------

  /** The global places of private members. */
  function Heroes(g: Global, board: Board): seq<GlobalEntry>
  {
    Filter(g, (e: GlobalEntry) => e.id in MembersIds(board))
  }

  /** `check_for_private_members`: for every global place, in order, held
      by a member of the private board, that member and the part. */
  function CheckForPrivateMembers(g: Global, board: Board): (r: seq<(Identifier, ProblemPart)>)
    ensures |r| == |Heroes(g, board)|
    ensures forall i :: 0 <= i < |r| ==>
      r[i].0 in Members(board, Whole, 0) && r[i].0.numeric == Heroes(g, board)[i].id && r[i].1 == Heroes(g, board)[i].part
  {
    var heroes := Heroes(g, board);
    assert forall i :: 0 <= i < |heroes| ==> heroes[i].id in MembersIds(board) by {
      forall i | 0 <= i < |heroes| ensures heroes[i].id in MembersIds(board) {
        assert heroes[i] in heroes;
      }
    }
    seq(|heroes|, i requires 0 <= i < |heroes| => (GetMemberById(board, heroes[i].id).value, heroes[i].part))
  }
}

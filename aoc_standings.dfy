/** The yearly standings of the aoc snapshot (src/aoc/standings.rs).

    A leaderboard here holds the stars of several events; both standings
    keep the stars of one year and rank the members of that year. The local
    score is the one of `AocLeaderboard`, computed on the year's stars: the
    member at position `r` (from 0) of a (day, part) earns the year's member
    count minus `r`. The jerseys, their per-day figures and the Tour de
    France standings of this file are the ones of `CoreStandings`. */
module AocStandings {
  import opened Common
  import opened Sorting
  import opened Entries
  import opened LocalScoring
  import AocLeaderboard

  /** The stars of one year, in their order. */
  function InYear(lb: seq<Entry>, year: int): (r: seq<Entry>)
    ensures forall e :: e in r <==> e in lb && e.year == year
  {
    Filter(lb, (e: Entry) => e.year == year)
  }

  /** A member and a number: its score or its stars. */
  type Standing = (Identifier, int)

  predicate ByValueDescending(rows: seq<Standing>)
  {
    forall i, j :: 0 <= i < j < |rows| ==> rows[i].1 >= rows[j].1
  }

  function LocalStanding(board: seq<Entry>): Identifier -> Standing
  {
    (id: Identifier) => (id, AocLeaderboard.LocalScore(board, id))
  }

  /** Every member of the year with its local score over the year's stars. */
  function YearLocalScores(lb: seq<Entry>, year: int): (rows: seq<Standing>)
    ensures |rows| == MemberCount(InYear(lb, year), Whole, 0)
  {
    var board := InYear(lb, year);
    MapSeq(AocLeaderboard.MemberList(board), LocalStanding(board))
  }

  /** `standings_by_local_score`: every member with a star in `year`, with
      its local score on that year, by score descending. */
  method StandingsByLocalScore(lb: seq<Entry>, year: int) returns (r: seq<Standing>)
    requires Scorable(InYear(lb, year), Whole)
    ensures ByValueDescending(r)
    ensures multiset(r) == multiset(YearLocalScores(lb, year))
  {
    var board := InYear(lb, year);
    var scores := AocLeaderboard.LocalScoresPerMember(board);
    var ms := AocLeaderboard.MemberList(board);
    var rows := seq(|ms|, i requires 0 <= i < |ms| && ms[i] in scores => (ms[i], scores[ms[i]]));
    assert rows == YearLocalScores(lb, year);
    r := SortBy(rows, (a: Standing, b: Standing) => a.1 >= b.1);
  }

  /** Stars of other years change neither standing. */
  lemma InYearIgnoresOtherYears(lb: seq<Entry>, extra: seq<Entry>, year: int)
    requires forall e :: e in extra ==> e.year != year
    ensures InYear(lb + extra, year) == InYear(lb, year)
  {
    FilterAppend(lb, extra, (e: Entry) => e.year == year);
    CountNone(extra, (e: Entry) => e.year == year);
  }

  function StarStanding(board: seq<Entry>): Identifier -> Standing
  {
    (id: Identifier) => (id, |AocLeaderboard.MemberStars(board, id)|)
  }

  /** Every member of the year with its number of stars that year. */
  function YearStarCounts(lb: seq<Entry>, year: int): (rows: seq<Standing>)
    ensures |rows| == MemberCount(InYear(lb, year), Whole, 0)
  {
    var board := InYear(lb, year);
    MapSeq(AocLeaderboard.MemberList(board), StarStanding(board))
  }

  /** `standings_by_number_of_stars`: every member with a star in `year`,
      with its number of stars that year, by that number descending. */
  function StandingsByNumberOfStars(lb: seq<Entry>, year: int): (r: seq<Standing>)
    ensures |r| == MemberCount(InYear(lb, year), Whole, 0)
    ensures ByValueDescending(r)
    ensures multiset(r) == multiset(YearStarCounts(lb, year))
  {
    var rows := YearStarCounts(lb, year);
    var r := SortBy(rows, (a: Standing, b: Standing) => a.1 >= b.1);
    assert |r| == |multiset(r)| == |rows|;
    r
  }

  /** A member's star count is the number of its stars of that year. */
  lemma StarCountIsYearStars(lb: seq<Entry>, year: int, id: Identifier)
    ensures StarStanding(InYear(lb, year))(id).1 == Count(lb, (e: Entry) => e.year == year && e.id == id)
  {
    CountFilter(lb, (e: Entry) => e.year == year, (e: Entry) => e.id == id, (e: Entry) => e.year == year && e.id == id);
  }
}

/** The core snapshot's leaderboard (src/core/leaderboard.rs): a set of
    stars, the groupings the bot reads it through, the local score folds,
    the minimum and maximum times of each part, the delta standings and
    statistics of one day, and the merge of a freshly scraped board into
    the cached one.

    The `HashSet<Entry>` is a sequence without duplicates; the iteration
    order of a hash map is the order of the sequence. */
module CoreLeaderboard {
  import opened Common
  import opened Sorting
  import opened Calendar
  import opened Entries
  import opened LocalScoring

  /** A leaderboard as the engine expects it: a set of stars, with days
      1 to 25 (the score arrays are indexed by `day - 1`), parts 1 and 2,
      and at most one star per member and puzzle part. */
  predicate WellFormed(lb: seq<Entry>)
  {
    Distinct(lb) &&
    (forall e {:trigger e in lb} :: e in lb ==> 1 <= e.day <= Days && (e.part == 1 || e.part == 2)) &&
    OneStarPerChallenge(lb, PerYear)
  }

  function YearEntries(lb: seq<Entry>, year: int): (es: seq<Entry>)
    ensures forall e {:trigger e in es} {:trigger e in lb} :: e in es <==> e in lb && e.year == year
    ensures Distinct(lb) ==> Distinct(es)
  {
    var inYear := (e: Entry) => e.year == year;
    assert Distinct(lb) ==> Distinct(Filter(lb, inYear)) by {
      if Distinct(lb) { FilterDistinct(lb, inYear); }
    }
    Filter(lb, inYear)
  }

  function DayEntries(lb: seq<Entry>, year: int, day: nat): (es: seq<Entry>)
    ensures forall e {:trigger e in es} {:trigger e in lb} :: e in es <==> e in lb && e.year == year && e.day == day
    ensures Distinct(lb) ==> Distinct(es)
  {
    var onDay := (e: Entry) => e.year == year && e.day == day;
    assert Distinct(lb) ==> Distinct(Filter(lb, onDay)) by {
      if Distinct(lb) { FilterDistinct(lb, onDay); }
    }
    Filter(lb, onDay)
  }

  /** A well-formed board can be scored per year, and each year's stars can
      be scored on their own. */
  lemma WellFormedScorable(lb: seq<Entry>, year: int)
    requires WellFormed(lb)
    ensures Scorable(lb, PerYear)
    ensures Scorable(YearEntries(lb, year), Whole)
  {
    var es := YearEntries(lb, year);
    FilterDistinct(lb, (e: Entry) => e.year == year);
    forall a, b | a in es && b in es && SameStar(a, b, Whole)
      ensures a == b
    {
      assert SameStar(a, b, PerYear);
    }
  }

  /** The member who earned a star. */
  function IdOf(e: Entry): Identifier
  {
    e.id
  }

  /** A member has at most two stars on a day. */
  lemma MemberDayAtMostTwo(lb: seq<Entry>, year: int, day: nat, id: Identifier)
    requires WellFormed(lb)
    ensures |Having(DayEntries(lb, year, day), IdOf, id)| <= 2
  {
    var day_ := DayEntries(lb, year, day);
    var q := (e: Entry) => e.id == id;
    HavingIsFilter(day_, IdOf, id, q);
    var k := MemberKey(year, id);
    CountFilter(lb, (e: Entry) => e.year == year && e.day == day, q, x => InSlot(x, PerYear, k, day));
    SlotStarsIsCount(lb, PerYear, k, day);
    WellFormedScorable(lb, year);
    SlotStarsAtMostTwo(lb, PerYear, k, day);
  }

  /** `is_global_complete`: the board holds exactly 200 stars, the 100 of
      each part of a day's global leaderboard. */
  function IsGlobalComplete(lb: seq<Entry>): (b: bool)
    requires Distinct(lb)
    ensures b <==> |set e | e in lb| == 200
  {
    DistinctCardinality(lb);
    |lb| == 200
  }

  // ---------------------------------------------------------------------
  // Groupings
  // ---------------------------------------------------------------------

  /** `entries_per_member_for_year_day`: the stars of one day, per member. */
  function EntriesPerMemberForYearDay(lb: seq<Entry>, year: int, day: nat): (m: map<Identifier, seq<Entry>>)
    ensures forall e {:trigger e in lb} :: e in lb && e.year == year && e.day == day ==> e.id in m
    ensures forall id, e {:trigger e in m[id]} :: id in m ==>
      (e in m[id] <==> e in lb && e.year == year && e.day == day && e.id == id)
    ensures forall id :: id in m ==> |m[id]| > 0 && m[id] == Having(DayEntries(lb, year, day), IdOf, id)
    ensures m.Keys == Image(DayEntries(lb, year, day), IdOf)
  {
    GroupBy(DayEntries(lb, year, day), IdOf)
  }

  /** `entries_per_year_day_part`: the stars of each puzzle part. */
  function EntriesPerYearDayPart(lb: seq<Entry>): (m: map<(int, nat, nat), seq<Entry>>)
    ensures forall e {:trigger e in lb} :: e in lb ==> (e.year, e.day, e.part) in m
    ensures forall k, e {:trigger e in m[k]} :: k in m ==> (e in m[k] <==> e in lb && (e.year, e.day, e.part) == k)
  {
    GroupBy(lb, (e: Entry) => (e.year, e.day, e.part))
  }

  /** `entries_per_day_part_for_year`: the stars of each part of one year. */
  function EntriesPerDayPartForYear(lb: seq<Entry>, year: int): (m: map<(nat, nat), seq<Entry>>)
    ensures forall e {:trigger e in lb} :: e in lb && e.year == year ==> (e.day, e.part) in m
    ensures forall k, e {:trigger e in m[k]} :: k in m ==>
      (e in m[k] <==> e in lb && e.year == year && (e.day, e.part) == k)
    ensures forall k :: k in m ==> m[k] != []
  {
    GroupBy(YearEntries(lb, year), (e: Entry) => (e.day, e.part))
  }

  /** `entries_per_day_member_for_year`: the stars of each member and day
      of one year. */
  function EntriesPerDayMemberForYear(lb: seq<Entry>, year: int): (m: map<(nat, Identifier), seq<Entry>>)
    ensures forall e {:trigger e in lb} :: e in lb && e.year == year ==> (e.day, e.id) in m
    ensures forall k, e {:trigger e in m[k]} :: k in m ==> (e in m[k] <==> e in lb && e.year == year && (e.day, e.id) == k)
    ensures forall k :: k in m ==> m[k] != []
    ensures Distinct(lb) ==> forall k :: k in m ==> Distinct(m[k])
  {
    var es, stage := YearEntries(lb, year), (e: Entry) => (e.day, e.id);
    assert Distinct(lb) ==> forall k :: k in GroupBy(es, stage) ==> Distinct(GroupBy(es, stage)[k]) by {
      if Distinct(lb) {
        forall k | k in GroupBy(es, stage) ensures Distinct(GroupBy(es, stage)[k]) {
          HavingDistinct(es, stage, k);
        }
      }
    }
    GroupBy(es, stage)
  }

  /** `members_ids`: the numeric ids of the members with a star. */
  function MembersIds(lb: seq<Entry>): (ids: set<nat>)
    ensures forall n :: n in ids <==> exists e :: e in lb && e.id.numeric == n
  {
    set e | e in lb :: e.id.numeric
  }

  /** `get_common_members_with`: the stars of this board whose member also
      has a star on the other board, in this board's order. */
  function GetCommonMembersWith(lb: seq<Entry>, other: seq<Entry>): (r: seq<Entry>)
    ensures forall e :: e in r <==> e in lb && exists o :: o in other && o.id.numeric == e.id.numeric
  {
    var ids := MembersIds(other);
    Filter(lb, (e: Entry) => e.id.numeric in ids)
  }

  /** The members two boards have in common are the intersection of
      their members. */
  lemma CommonMembersAreIntersection(a: seq<Entry>, b: seq<Entry>)
    ensures MembersIds(GetCommonMembersWith(a, b)) == MembersIds(a) * MembersIds(b)
  {
    var ab := GetCommonMembersWith(a, b);
    forall n | n in MembersIds(a) * MembersIds(b) ensures n in MembersIds(ab) {
      var e :| e in a && e.id.numeric == n;
      assert e in ab;
    }
  }

  /** Both boards agree on which members they have in common. */
  lemma CommonMembersSymmetric(a: seq<Entry>, b: seq<Entry>)
    ensures MembersIds(GetCommonMembersWith(a, b)) == MembersIds(GetCommonMembersWith(b, a))
  {
    CommonMembersAreIntersection(a, b);
    CommonMembersAreIntersection(b, a);
  }

  // ---------------------------------------------------------------------
  // Fastest and slowest times
  // ---------------------------------------------------------------------

  /** Earliest timestamp of a non-empty group (the `min` of `minmax_by_key`). */
  function MinTimestamp(s: seq<Entry>): (t: int)
    requires s != []
    ensures exists e :: e in s && e.timestamp == t
    ensures forall e {:trigger e in s} :: e in s ==> t <= e.timestamp
  {
    if |s| == 1 then s[0].timestamp
    else
      var init := s[..|s| - 1];
      assert s == init + [s[|s| - 1]];
      Min(MinTimestamp(init), s[|s| - 1].timestamp)
  }

  /** Latest timestamp of a non-empty group (the `max` of `minmax_by_key`). */
  function MaxTimestamp(s: seq<Entry>): (t: int)
    requires s != []
    ensures exists e :: e in s && e.timestamp == t
    ensures forall e {:trigger e in s} :: e in s ==> e.timestamp <= t
  {
    if |s| == 1 then s[0].timestamp
    else
      var init := s[..|s| - 1];
      assert s == init + [s[|s| - 1]];
      Max(MaxTimestamp(init), s[|s| - 1].timestamp)
  }

  /** `parts_min_max_times_for_year`: for every (day, part) of the year with
      a star, the first and the last time it was solved. */
  function PartsMinMaxTimesForYear(lb: seq<Entry>, year: int): (m: map<(nat, nat), (int, int)>)
    ensures forall e {:trigger e in lb} :: e in lb && e.year == year ==>
      (e.day, e.part) in m && m[(e.day, e.part)].0 <= e.timestamp <= m[(e.day, e.part)].1
    ensures forall k :: k in m ==>
      (exists e :: e in lb && e.year == year && (e.day, e.part) == k && e.timestamp == m[k].0) &&
      (exists e :: e in lb && e.year == year && (e.day, e.part) == k && e.timestamp == m[k].1)
  {
    var groups := EntriesPerDayPartForYear(lb, year);
    map k | k in groups :: (MinTimestamp(groups[k]), MaxTimestamp(groups[k]))
  }

  /** The stars of one day, per part. */
  function EntriesPerPartForYearDay(lb: seq<Entry>, year: int, day: nat): (m: map<nat, seq<Entry>>)
    ensures forall e {:trigger e in lb} :: e in lb && e.year == year && e.day == day ==> e.part in m
    ensures forall p, e {:trigger e in m[p]} :: p in m ==> (e in m[p] <==> e in lb && e.year == year && e.day == day && e.part == p)
    ensures forall p :: p in m ==> m[p] != []
  {
    GroupBy(DayEntries(lb, year, day), (e: Entry) => e.part)
  }

  /** `min_max_times_for_year_day`: for every part of one day with a star,
      the first and the last time it was solved. */
  function MinMaxTimesForYearDay(lb: seq<Entry>, year: int, day: nat): (m: map<nat, (int, int)>)
    ensures forall e {:trigger e in lb} :: e in lb && e.year == year && e.day == day ==>
      e.part in m && m[e.part].0 <= e.timestamp <= m[e.part].1
    ensures forall p :: p in m ==>
      (exists e :: e in lb && e.year == year && e.day == day && e.part == p && e.timestamp == m[p].0) &&
      (exists e :: e in lb && e.year == year && e.day == day && e.part == p && e.timestamp == m[p].1)
  {
    var groups := EntriesPerPartForYearDay(lb, year, day);
    map p | p in groups :: (MinTimestamp(groups[p]), MaxTimestamp(groups[p]))
  }

  // ---------------------------------------------------------------------
  // Local scores
  // ---------------------------------------------------------------------

  /** `daily_scores_per_year_member`: for every (year, member), the points
      earned on each of the 25 days, each star of a (year, day, part)
      scoring the number of members of that year minus its chronological
      position. */
  method DailyScoresPerYearMember(lb: seq<Entry>) returns (scores: map<MemberKey, seq<int>>)
    requires WellFormed(lb)
    ensures scores.Keys == KeysIn(lb, PerYear)
    ensures forall k :: k in scores ==> scores[k] == SlotScores(DailySlots(lb, PerYear, k))
  {
    WellFormedScorable(lb, 0);
    var acc := DailyScores(lb, PerYear);
    scores := map k | k in acc :: SlotScores(acc[k]);
  }

  /** `daily_stars_and_scores_per_member_for_year`: for every member with a
      star in the year, the stars and points of each of the 25 days; the
      number of members is that of the year. */
  method DailyStarsAndScoresPerMemberForYear(lb: seq<Entry>, year: int) returns (slots: map<Identifier, seq<Slot>>)
    requires WellFormed(lb)
    ensures slots.Keys == Members(YearEntries(lb, year), Whole, 0)
    ensures forall id :: id in slots ==> slots[id] == DailySlots(YearEntries(lb, year), Whole, MemberKey(0, id))
  {
    var es := YearEntries(lb, year);
    WellFormedScorable(lb, year);
    var acc := DailyScores(es, Whole);
    slots := map k | k in acc :: k.id := acc[k];
    forall id ensures id in slots <==> id in Members(es, Whole, 0) {
      if id in Members(es, Whole, 0) {
        var e :| e in es && e.id == id;
        assert KeyOf(e, Whole) in acc;
      }
    }
    forall id | id in slots ensures slots[id] == DailySlots(es, Whole, MemberKey(0, id)) {
      var e :| e in es && KeyOf(e, Whole).id == id;
      assert KeyOf(e, Whole) == MemberKey(0, id);
    }
  }

  // ---------------------------------------------------------------------
  // Delta standings and statistics of one day
  // ---------------------------------------------------------------------

  /** A row of the delta standings: the member's name, the time between the
      two parts, and the final rank. */
  type DeltaRow = (string, int, Option<nat>)

  predicate DurationLe(a: DeltaRow, b: DeltaRow)
  {
    a.1 <= b.1
  }

  lemma DurationLeTotal()
    ensures TotalPreorder(DurationLe)
  {
  }

  function DeltaAt(rows: seq<DeltaRow>, i: nat): int
    requires i < |rows|
  {
    rows[i].1
  }

  /** Rows in ascending order of delta. */
  predicate ByDuration(rows: seq<DeltaRow>)
  {
    forall i, j :: 0 <= i < j < |rows| ==> DeltaAt(rows, i) <= DeltaAt(rows, j)
  }

  function Abs(x: int): nat
  {
    if x < 0 then -x else x
  }

  /** One member's row, from the member's stars of the day: a member with
      only part 1 has no row; a member with only part 2 overran part 1 and
      is credited with the time since the last part-1 star minus one second,
      keeping the rank of the part-2 star; a member with both parts gets the
      time between them and the rank of the later star. */
  function DeltaRowOf(id: Identifier, stars: seq<Entry>, lastFirst: int): (r: Option<DeltaRow>)
    requires 1 <= |stars| <= 2
    ensures r.Some? ==> r.value.0 == id.name
    ensures |stars| == 1 ==> (r.None? <==> stars[0].part == 1)
    ensures |stars| == 1 && r.Some? ==>
      r.value.1 == stars[0].timestamp - lastFirst - 1 && r.value.2 == stars[0].rank
    ensures |stars| == 2 ==> r.Some? && r.value.1 == Abs(stars[1].timestamp - stars[0].timestamp)
    ensures |stars| == 2 ==>
      (exists e :: e in stars && r.value.2 == e.rank && forall x :: x in stars ==> x.timestamp <= e.timestamp)
  {
    if |stars| == 1 then
      if stars[0].part == 1 then None
      else Some((id.name, stars[0].timestamp - lastFirst - 1, stars[0].rank))
    else
      var first := if stars[1].timestamp < stars[0].timestamp then stars[1] else stars[0];
      var second := if stars[1].timestamp < stars[0].timestamp then stars[0] else stars[1];
      Some((id.name, second.timestamp - first.timestamp, second.rank))
  }

  /** The members with a star on the day, in the iteration order of their
      groups. */
  function DayMembers(lb: seq<Entry>, year: int, day: nat): (ids: seq<Identifier>)
    ensures Distinct(ids)
    ensures forall id :: id in ids <==> id in EntriesPerMemberForYearDay(lb, year, day)
  {
    MapSeqImage(DayEntries(lb, year, day), IdOf);
    Dedup(MapSeq(DayEntries(lb, year, day), IdOf))
  }

  /** What the delta standings demand of the board (anything else is
      unreachable there): no member has more than two stars on the day. */
  predicate AtMostTwoPerMember(lb: seq<Entry>, year: int, day: nat)
  {
    forall id :: id in EntriesPerMemberForYearDay(lb, year, day) ==>
      |EntriesPerMemberForYearDay(lb, year, day)[id]| <= 2
  }

  /** A well-formed board meets that demand on every day. */
  lemma DayGroups(lb: seq<Entry>, year: int, day: nat)
    requires WellFormed(lb)
    ensures AtMostTwoPerMember(lb, year, day)
  {
    forall id | id in EntriesPerMemberForYearDay(lb, year, day)
      ensures |EntriesPerMemberForYearDay(lb, year, day)[id]| <= 2
    {
      MemberDayAtMostTwo(lb, year, day, id);
    }
  }

  /** On a well-formed board, two stars of one member on one day are of
      different parts. */
  lemma TwoStarsTwoParts(lb: seq<Entry>, year: int, day: nat, id: Identifier)
    requires WellFormed(lb)
    requires id in EntriesPerMemberForYearDay(lb, year, day)
    ensures var g := EntriesPerMemberForYearDay(lb, year, day)[id];
      |g| == 2 ==> g[0].part != g[1].part
  {
    var g := EntriesPerMemberForYearDay(lb, year, day)[id];
    if |g| == 2 {
      HavingDistinct(DayEntries(lb, year, day), IdOf, id);
      assert g[0] in g && g[1] in g;
      assert g[0] != g[1];
      assert !SameStar(g[0], g[1], PerYear);
    }
  }

  /** The rows of the given members, in their order: the `filter_map`
      over the groups of the day. */
  function DeltaRows(groups: map<Identifier, seq<Entry>>, ids: seq<Identifier>, lastFirst: int): (rows: seq<DeltaRow>)
    requires forall id :: id in ids ==> id in groups && 1 <= |groups[id]| <= 2
    ensures forall row :: row in rows <==>
      exists id :: id in ids && DeltaRowOf(id, groups[id], lastFirst) == Some(row)
    decreases |ids|
  {
    if ids == [] then []
    else
      var row := DeltaRowOf(ids[0], groups[ids[0]], lastFirst);
      var rest := DeltaRows(groups, ids[1..], lastFirst);
      assert forall id :: id in ids <==> id == ids[0] || id in ids[1..] by {
        assert ids == [ids[0]] + ids[1..];
      }
      (if row.Some? then [row.value] else []) + rest
  }

  /** The rows of the members of one day, before sorting. */
  function DayDeltaRows(lb: seq<Entry>, year: int, day: nat, lastFirst: int): seq<DeltaRow>
    requires AtMostTwoPerMember(lb, year, day)
  {
    DeltaRows(EntriesPerMemberForYearDay(lb, year, day), DayMembers(lb, year, day), lastFirst)
  }

  /** A member has a row exactly when the member solved part 2 that day. */
  lemma MemberRow(lb: seq<Entry>, year: int, day: nat, lastFirst: int, id: Identifier)
    requires WellFormed(lb) && AtMostTwoPerMember(lb, year, day)
    requires id in EntriesPerMemberForYearDay(lb, year, day)
    ensures DeltaRowOf(id, EntriesPerMemberForYearDay(lb, year, day)[id], lastFirst).Some? <==>
      exists e :: e in lb && e.year == year && e.day == day && e.part == 2 && e.id == id
  {
    TwoStarsTwoParts(lb, year, day, id);
    var g := EntriesPerMemberForYearDay(lb, year, day)[id];
    forall e | e in g ensures e.part == 1 || e.part == 2 {
      assert e in lb;
    }
    GroupRow(id, g, lastFirst);
  }

  /** The row of a group of one or two stars of distinct parts exists
      exactly when the group holds a part-2 star. */
  lemma GroupRow(id: Identifier, g: seq<Entry>, lastFirst: int)
    requires 1 <= |g| <= 2
    requires forall e :: e in g ==> e.part == 1 || e.part == 2
    requires |g| == 2 ==> g[0].part != g[1].part
    ensures DeltaRowOf(id, g, lastFirst).Some? <==> exists e :: e in g && e.part == 2
  {
    assert g[0] in g;
    if |g| == 2 {
      assert g[1] in g;
      var e := if g[0].part == 2 then g[0] else g[1];
      assert e in g && e.part == 2;
    } else {
      assert g == [g[0]];
    }
  }

  /** Every row is for a member with a part-2 star that day. */
  lemma DayDeltaRowsSound(lb: seq<Entry>, year: int, day: nat, lastFirst: int)
    requires WellFormed(lb) && AtMostTwoPerMember(lb, year, day)
    ensures forall row: DeltaRow :: row in DayDeltaRows(lb, year, day, lastFirst) ==>
      exists e :: e in lb && e.year == year && e.day == day && e.part == 2 && e.id.name == row.0
  {
    var groups := EntriesPerMemberForYearDay(lb, year, day);
    var ids := DayMembers(lb, year, day);
    forall row: DeltaRow | row in DeltaRows(groups, ids, lastFirst)
      ensures exists e :: e in lb && e.year == year && e.day == day && e.part == 2 && e.id.name == row.0
    {
      var id :| id in ids && DeltaRowOf(id, groups[id], lastFirst) == Some(row);
      MemberRow(lb, year, day, lastFirst, id);
    }
  }

  /** Every member with a part-2 star that day has a row. */
  lemma DayDeltaRowsComplete(lb: seq<Entry>, year: int, day: nat, lastFirst: int)
    requires WellFormed(lb) && AtMostTwoPerMember(lb, year, day)
    ensures forall e :: e in lb && e.year == year && e.day == day && e.part == 2 ==>
      exists row: DeltaRow :: row in DayDeltaRows(lb, year, day, lastFirst) && row.0 == e.id.name
  {
    var groups := EntriesPerMemberForYearDay(lb, year, day);
    var ids := DayMembers(lb, year, day);
    forall e | e in lb && e.year == year && e.day == day && e.part == 2
      ensures exists row: DeltaRow :: row in DeltaRows(groups, ids, lastFirst) && row.0 == e.id.name
    {
      assert e.id in ids;
      MemberRow(lb, year, day, lastFirst, e.id);
      var row := DeltaRowOf(e.id, groups[e.id], lastFirst).value;
      assert row in DeltaRows(groups, ids, lastFirst);
    }
  }

  /** The rows of the day by delta, shortest first. */
  function SortedDeltaRows(lb: seq<Entry>, year: int, day: nat, lastFirst: int): (r: seq<DeltaRow>)
    requires AtMostTwoPerMember(lb, year, day)
    ensures ByDuration(r)
    ensures multiset(r) == multiset(DayDeltaRows(lb, year, day, lastFirst))
  {
    DurationLeTotal();
    var r := SortBy(DayDeltaRows(lb, year, day, lastFirst), DurationLe);
    assert ByDuration(r) by {
      forall i, j | 0 <= i < j < |r| ensures DeltaAt(r, i) <= DeltaAt(r, j) {
        assert DurationLe(r[i], r[j]);
      }
    }
    r
  }

  /** `standings_by_delta_for_year_day`: the rows of the day, by delta
      ascending; an error when nobody solved part 1 that day, since the
      last part-1 time is then unknown. */
  function StandingsByDeltaForYearDay(lb: seq<Entry>, year: int, day: nat): (r: Result<seq<DeltaRow>>)
    requires AtMostTwoPerMember(lb, year, day)
    ensures r.Ok? <==> 1 in MinMaxTimesForYearDay(lb, year, day)
    ensures !r.Ok? ==> r == Err(Compute("MinMax times could not be computed"))
    ensures r.Ok? ==> r.value == SortedDeltaRows(lb, year, day, MinMaxTimesForYearDay(lb, year, day)[1].1)
  {
    var mm := MinMaxTimesForYearDay(lb, year, day);
    if 1 !in mm then Err(Compute("MinMax times could not be computed"))
    else Ok(SortedDeltaRows(lb, year, day, mm[1].1))
  }

  /** The delta standings fail exactly when nobody solved part 1 that day. */
  lemma StandingsByDeltaFails(lb: seq<Entry>, year: int, day: nat)
    requires AtMostTwoPerMember(lb, year, day)
    ensures StandingsByDeltaForYearDay(lb, year, day).Ok? <==>
      exists e :: e in lb && e.year == year && e.day == day && e.part == 1
  {
    if e :| e in lb && e.year == year && e.day == day && e.part == 1 {
      assert e.part in MinMaxTimesForYearDay(lb, year, day);
    }
  }

  /** Fastest and slowest times of each part, and the smallest and largest
      deltas with their final ranks. */
  datatype Statistics = Statistics(
    p1Fast: Option<int>, p1Slow: Option<int>,
    p2Fast: Option<int>, p2Slow: Option<int>,
    deltaFast: Option<(int, Option<nat>)>, deltaSlow: Option<(int, Option<nat>)>)

  /** The first and last rows of the delta standings, as the statistics
      read them: the first row through the iterator's `next`, then the last
      of what remains, which is nothing when there was only one row. */
  function DeltaExtremes(sorted: seq<DeltaRow>): (r: (Option<(int, Option<nat>)>, Option<(int, Option<nat>)>))
    requires ByDuration(sorted)
    ensures r.0.Some? <==> |sorted| >= 1
    ensures r.1.Some? <==> |sorted| >= 2
    ensures r.0.Some? ==> r.0.value in (set row | row in sorted :: (row.1, row.2))
    ensures r.1.Some? ==> r.1.value in (set row | row in sorted :: (row.1, row.2))
    ensures forall row :: row in sorted ==> r.0.Some? && r.0.value.0 <= row.1
    ensures forall row :: row in sorted ==> r.1.Some? ==> row.1 <= r.1.value.0
  {
    if |sorted| == 0 then (None, None)
    else
      var last := sorted[|sorted| - 1];
      assert forall row :: row in sorted ==> sorted[0].1 <= row.1 <= last.1 by {
        forall row | row in sorted ensures sorted[0].1 <= row.1 <= last.1 {
          var i :| 0 <= i < |sorted| && sorted[i] == row;
          assert i == 0 || DeltaAt(sorted, 0) <= DeltaAt(sorted, i);
          assert i == |sorted| - 1 || DeltaAt(sorted, i) <= DeltaAt(sorted, |sorted| - 1);
        }
      }
      (Some((sorted[0].1, sorted[0].2)), if |sorted| >= 2 then Some((last.1, last.2)) else None)
  }

  /** The statistics from the first and last solve times of each part,
      the delta standings and the release time, failing with the first
      error met in that order. */
  function StatisticsOf(mm: map<nat, (int, int)>, standings: Result<seq<DeltaRow>>, unlock: Result<int>): (r: Result<Statistics>)
    requires standings.Ok? ==> ByDuration(standings.value)
    ensures r.Ok? <==> 1 in mm && 2 in mm && standings.Ok? && unlock.Ok?
    ensures 1 !in mm ==> r == Err(Compute("Could not retrieve minmax for part 1"))
    ensures 1 in mm && 2 !in mm ==> r == Err(Compute("Could not retrieve minmax for part 2"))
    ensures 1 in mm && 2 in mm && standings.Err? ==> r == Err(standings.error)
    ensures 1 in mm && 2 in mm && standings.Ok? && unlock.Err? ==> r == Err(unlock.error)
    ensures r.Ok? ==>
      r.value.p1Fast == Some(mm[1].0 - unlock.value) && r.value.p1Slow == Some(mm[1].1 - unlock.value) &&
      r.value.p2Fast == Some(mm[2].0 - unlock.value) && r.value.p2Slow == Some(mm[2].1 - unlock.value)
    ensures r.Ok? ==> (r.value.deltaFast, r.value.deltaSlow) == DeltaExtremes(standings.value)
  {
    if 1 !in mm then Err(Compute("Could not retrieve minmax for part 1"))
    else if 2 !in mm then Err(Compute("Could not retrieve minmax for part 2"))
    else
      match standings
      case Err(e) => Err(e)
      case Ok(sorted) =>
        match unlock
        case Err(e) => Err(e)
        case Ok(start) =>
          var (fast, slow) := DeltaExtremes(sorted);
          Ok(Statistics(Some(mm[1].0 - start), Some(mm[1].1 - start), Some(mm[2].0 - start), Some(mm[2].1 - start),
                        fast, slow))
  }

  /** `statistics_for_year_day`: the first and last solve of each part, as
      times since the puzzle's release, and the first and last of the delta
      standings (the last read from the same iterator after the first, so
      it is absent when there is only one row). */
  function StatisticsForYearDay(lb: seq<Entry>, year: int, day: nat): Result<Statistics>
    requires AtMostTwoPerMember(lb, year, day)
  {
    StatisticsOf(MinMaxTimesForYearDay(lb, year, day), StandingsByDeltaForYearDay(lb, year, day), PuzzleUnlock(year, day))
  }

  /** A part has first and last times exactly when somebody solved it. */
  lemma MinMaxHasPart(lb: seq<Entry>, year: int, day: nat, p: nat)
    ensures p in MinMaxTimesForYearDay(lb, year, day) <==>
      exists e :: e in lb && e.year == year && e.day == day && e.part == p
  {
    if e :| e in lb && e.year == year && e.day == day && e.part == p {
      assert e.part in MinMaxTimesForYearDay(lb, year, day);
    }
  }

  /** The statistics of a day fail exactly when a part was solved by
      nobody or the day has no puzzle. */
  lemma StatisticsFails(lb: seq<Entry>, year: int, day: nat)
    requires AtMostTwoPerMember(lb, year, day)
    ensures StatisticsForYearDay(lb, year, day).Ok? <==>
      (exists e :: e in lb && e.year == year && e.day == day && e.part == 1) &&
      (exists e :: e in lb && e.year == year && e.day == day && e.part == 2) &&
      ValidDate(year, PuzzleMonth, day)
  {
    var mm := MinMaxTimesForYearDay(lb, year, day);
    var standings := StandingsByDeltaForYearDay(lb, year, day);
    var unlock := PuzzleUnlock(year, day);
    assert StatisticsForYearDay(lb, year, day).Ok? <==> 1 in mm && 2 in mm && standings.Ok? && unlock.Ok?;
    assert standings.Ok? <==> 1 in mm;
    assert unlock.Ok? <==> ValidDate(year, PuzzleMonth, day);
    MinMaxHasPart(lb, year, day, 1);
    MinMaxHasPart(lb, year, day, 2);
  }

  /** Each part's fastest and slowest times since release bound every
      solve of that part; this holds whatever the delta standings, so in
      particular for `StatisticsForYearDay`. */
  lemma StatisticsTimesBound(lb: seq<Entry>, year: int, day: nat, standings: Result<seq<DeltaRow>>)
    requires standings.Ok? ==> ByDuration(standings.value)
    requires StatisticsOf(MinMaxTimesForYearDay(lb, year, day), standings, PuzzleUnlock(year, day)).Ok?
    ensures var s := StatisticsOf(MinMaxTimesForYearDay(lb, year, day), standings, PuzzleUnlock(year, day)).value;
      var start := PuzzleUnlock(year, day).value;
      s.p1Fast.Some? && s.p1Slow.Some? && s.p2Fast.Some? && s.p2Slow.Some? &&
      (forall e :: e in lb && e.year == year && e.day == day && e.part == 1 ==>
        s.p1Fast.value <= e.timestamp - start <= s.p1Slow.value) &&
      (forall e :: e in lb && e.year == year && e.day == day && e.part == 2 ==>
        s.p2Fast.value <= e.timestamp - start <= s.p2Slow.value)
  {
  }

  /** The fastest delta is at most every delta of the day's standings and
      the slowest at least every one; the fastest is absent only when the
      standings are empty, the slowest when they hold fewer than two rows. */
  lemma StatisticsDeltas(lb: seq<Entry>, year: int, day: nat)
    requires AtMostTwoPerMember(lb, year, day)
    requires StatisticsForYearDay(lb, year, day).Ok?
    ensures StandingsByDeltaForYearDay(lb, year, day).Ok?
    ensures var s, rows := StatisticsForYearDay(lb, year, day).value, StandingsByDeltaForYearDay(lb, year, day).value;
      (s.deltaFast.Some? <==> |rows| >= 1) && (s.deltaSlow.Some? <==> |rows| >= 2) &&
      forall row :: row in rows ==>
        s.deltaFast.Some? && s.deltaFast.value.0 <= row.1 && (s.deltaSlow.Some? ==> row.1 <= s.deltaSlow.value.0)
  {
  }

  // ---------------------------------------------------------------------
  // Merging scraped boards
  // ---------------------------------------------------------------------

  /** A scraped leaderboard: the time of the scrape and the stars read. */
  class ScrapedLeaderboard {
    var timestamp: int
    var leaderboard: seq<Entry>

    ghost predicate Valid()
      reads this
    {
      Distinct(leaderboard)
    }

    constructor (now: int)
      ensures Valid() && timestamp == now && leaderboard == []
    {
      timestamp := now;
      leaderboard := [];
    }

    /** `merge_with`: adopt the other scrape's time and add its stars to
        the set; stars already present are not duplicated. */
    method MergeWith(otherTimestamp: int, other: seq<Entry>)
      requires Valid()
      modifies this
      ensures Valid()
      ensures timestamp == otherTimestamp
      ensures forall e :: e in leaderboard <==> e in old(leaderboard) || e in other
      ensures |old(leaderboard)| <= |leaderboard| && leaderboard[..|old(leaderboard)|] == old(leaderboard)
    {
      timestamp := otherTimestamp;
      var i := 0;
      while i < |other|
        invariant 0 <= i <= |other|
        invariant timestamp == otherTimestamp
        invariant Distinct(leaderboard)
        invariant forall e :: e in leaderboard <==> e in old(leaderboard) || e in other[..i]
        invariant |old(leaderboard)| <= |leaderboard| && leaderboard[..|old(leaderboard)|] == old(leaderboard)
      {
        assert other[..i + 1] == other[..i] + [other[i]];
        if other[i] !in leaderboard {
          leaderboard := leaderboard + [other[i]];
        }
        i := i + 1;
      }
      assert other[..i] == other;
    }
  }

  /** Merging is a set union: merging a board into itself changes nothing
      but the time, and the result holds every star of both. */
  lemma MergeIsUnion(before: seq<Entry>, other: seq<Entry>, after: seq<Entry>)
    requires forall e :: e in after <==> e in before || e in other
    requires Distinct(before) && Distinct(after)
    ensures (set e | e in after) == (set e | e in before) + (set e | e in other)
    ensures (forall e :: e in other ==> e in before) ==> |after| == |before|
  {
    if forall e :: e in other ==> e in before {
      assert (set e | e in after) == (set e | e in before);
      DistinctCardinality(after);
      DistinctCardinality(before);
    }
  }
}

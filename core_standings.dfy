/** The standings of the core snapshot (src/core/standings.rs): the
    scoring, jersey and ranking choices a user can name, the times of one
    day, the yearly board by local score or stars, and the "Tour de France"
    jerseys, in which every day is a stage. Durations are seconds. */
module CoreStandings {
  import opened Common
  import opened Sorting
  import opened Entries
  import opened LocalScoring
  import opened CoreLeaderboard

  /** The time a member is charged for a stage not finished: seven days. */
  const PenaltyUnfinishedDay: int := 7 * 24 * 3600

  // ---------------------------------------------------------------------
  // Named choices
  // ---------------------------------------------------------------------

  datatype Scoring = LOCAL | STARS
  datatype Jersey = YELLOW | GREEN
  datatype Ranking = DELTA | PART1 | PART2

  const ScoringMethods: seq<string> := ["local", "stars"]
  const JerseyColors: seq<string> := ["yellow", "green"]
  const RankingMethods: seq<string> := ["delta", "p1", "p2"]

  /** `Scoring`'s `Display`. */
  function ScoringToString(x: Scoring): (s: string)
    ensures s in ScoringMethods
  {
    match x
    case LOCAL => ScoringMethods[0]
    case STARS => ScoringMethods[1]
  }

  /** `Scoring::from_string`: the method a name designates, if any. */
  function ScoringFromString(s: string): (r: Option<Scoring>)
    ensures r.Some? <==> s in ScoringMethods
    ensures r.Some? ==> ScoringToString(r.value) == s
  {
    if s == ScoringMethods[0] then Some(LOCAL)
    else if s == ScoringMethods[1] then Some(STARS)
    else None
  }

  /** `Scoring::get_default_str`. */
  function ScoringDefaultStr(): (s: string)
    ensures ScoringFromString(s) == Some(LOCAL)
  {
    ScoringMethods[0]
  }

  lemma ScoringRoundTrip(x: Scoring)
    ensures ScoringFromString(ScoringToString(x)) == Some(x)
  {
  }

  /** `Jersey`'s `Display`. */
  function JerseyToString(x: Jersey): (s: string)
    ensures s in JerseyColors
  {
    match x
    case YELLOW => JerseyColors[0]
    case GREEN => JerseyColors[1]
  }

  /** `Jersey::from_string`. */
  function JerseyFromString(s: string): (r: Option<Jersey>)
    ensures r.Some? <==> s in JerseyColors
    ensures r.Some? ==> JerseyToString(r.value) == s
  {
    if s == JerseyColors[0] then Some(YELLOW)
    else if s == JerseyColors[1] then Some(GREEN)
    else None
  }

  /** `Jersey::get_default_str`. */
  function JerseyDefaultStr(): (s: string)
    ensures JerseyFromString(s) == Some(YELLOW)
  {
    JerseyColors[0]
  }

  lemma JerseyRoundTrip(x: Jersey)
    ensures JerseyFromString(JerseyToString(x)) == Some(x)
  {
  }

  /** `Ranking`'s `Display`. */
  function RankingToString(x: Ranking): (s: string)
    ensures s in RankingMethods
  {
    match x
    case DELTA => RankingMethods[0]
    case PART1 => RankingMethods[1]
    case PART2 => RankingMethods[2]
  }

  /** `Ranking::from_string`. */
  function RankingFromString(s: string): (r: Option<Ranking>)
    ensures r.Some? <==> s in RankingMethods
    ensures r.Some? ==> RankingToString(r.value) == s
  {
    if s == RankingMethods[0] then Some(DELTA)
    else if s == RankingMethods[1] then Some(PART1)
    else if s == RankingMethods[2] then Some(PART2)
    else None
  }

  /** `Ranking::get_default_str`. */
  function RankingDefaultStr(): (s: string)
    ensures RankingFromString(s) == Some(DELTA)
  {
    RankingMethods[0]
  }

  lemma RankingRoundTrip(x: Ranking)
    ensures RankingFromString(RankingToString(x)) == Some(x)
  {
  }

  // ---------------------------------------------------------------------
  // One member's day
  // ---------------------------------------------------------------------

  /** The earlier of a member's two stars of a day (`sorted_by_key`
      timestamp, first). */
  function Earlier(g: seq<Entry>): (e: Entry)
    requires |g| == 2
    ensures e in g && e.timestamp == MinTimestamp(g)
  {
    assert g[0] in g && g[1] in g;
    if g[1].timestamp < g[0].timestamp then g[1] else g[0]
  }

  /** The later of them (last). */
  function Later(g: seq<Entry>): (e: Entry)
    requires |g| == 2
    ensures e in g && e.timestamp == MaxTimestamp(g)
  {
    assert g[0] in g && g[1] in g;
    if g[1].timestamp < g[0].timestamp then g[0] else g[1]
  }

  /** All stars of a group are of one puzzle day. */
  predicate SameDay(g: seq<Entry>)
  {
    forall e :: e in g ==> e.year == g[0].year && e.day == g[0].day
  }

  /** Every star of a group has a release time (the `unwrap` of
      `duration_since_release`). */
  predicate Released(g: seq<Entry>)
  {
    forall e :: e in g ==> DurationSinceRelease(e).Ok?
  }

  /** The release time of the puzzle of a group's first star. */
  function ReleaseOf(g: seq<Entry>): int
    requires g != [] && Released(g)
  {
    assert g[0] in g;
    PuzzleUnlock(g[0].year, g[0].day).value
  }

  /** `compute_delta`: the time between a member's two stars of a day; no
      delta with a single star. */
  function ComputeDelta(g: seq<Entry>): (r: Option<int>)
    requires 1 <= |g| <= 2
    ensures r.Some? <==> |g| == 2
    ensures r.Some? ==> r.value >= 0 && r.value == MaxTimestamp(g) - MinTimestamp(g)
  {
    if |g| == 2 then Some(Later(g).timestamp - Earlier(g).timestamp) else None
  }

  /** `get_time_for_part`: the time since release of the member's part-1
      star (the earlier one) or part-2 star (the later one); a member with
      a single star has no part-2 time. */
  function GetTimeForPart(g: seq<Entry>, part: Ranking): (r: Option<int>)
    requires 1 <= |g| <= 2 && part != DELTA && Released(g)
    ensures r.Some? <==> part == PART1 || |g| == 2
    ensures r.Some? && SameDay(g) ==>
      r.value == (if part == PART1 then MinTimestamp(g) else MaxTimestamp(g)) - ReleaseOf(g)
  {
    assert g[0] in g;
    if |g| == 2 then
      if part == PART1 then Some(DurationSinceRelease(Earlier(g)).value)
      else Some(DurationSinceRelease(Later(g)).value)
    else if part == PART1 then Some(DurationSinceRelease(g[0]).value)
    else None
  }

  /** `compute_yellow_jersey_duration`: the time since release of the later
      star, when the member finished the stage. */
  function YellowJerseyDuration(g: seq<Entry>): (r: Option<int>)
    requires 1 <= |g| <= 2 && (|g| == 2 ==> Released(g))
    ensures r.Some? <==> |g| == 2
    ensures r.Some? && SameDay(g) ==> r.value == MaxTimestamp(g) - ReleaseOf(g)
  {
    assert g[0] in g;
    if |g| == 2 then Some(DurationSinceRelease(Later(g)).value) else None
  }

  /** The yellow jersey's stage time is the part-2 time. */
  lemma YellowIsPartTwoTime(g: seq<Entry>)
    requires 1 <= |g| <= 2 && Released(g)
    ensures YellowJerseyDuration(g) == GetTimeForPart(g, PART2)
  {
  }

  /** `compute_green_jersey_duration`: the time between the two stars; a
      member with only part 1 has none; a member with only part 2 overran
      part 1 and is credited with the time since the day's last part-1
      star (`minMax[(day, 1)]`) minus one second. */
  function GreenJerseyDuration(g: seq<Entry>, minMax: map<(nat, nat), (int, int)>): (r: Option<int>)
    requires 1 <= |g| <= 2
    requires |g| == 1 && g[0].part != 1 ==> (g[0].day, 1) in minMax
    ensures |g| == 1 ==> (r.None? <==> g[0].part == 1)
    ensures |g| == 1 && r.Some? ==> r.value == g[0].timestamp - minMax[(g[0].day, 1)].1 - 1
    ensures |g| == 2 ==> r == ComputeDelta(g)
  {
    if |g| == 1 then
      if g[0].part == 1 then None
      else Some(g[0].timestamp - minMax[(g[0].day, 1)].1 - 1)
    else Some(Later(g).timestamp - Earlier(g).timestamp)
  }

  /** The part-2-only credit is below the time since the last part-1 star:
      such a member never beats the part-1 overrun. */
  lemma GreenCreditBelowOverrun(g: seq<Entry>, minMax: map<(nat, nat), (int, int)>)
    requires |g| == 1 && g[0].part != 1 && (g[0].day, 1) in minMax
    ensures GreenJerseyDuration(g, minMax).value < g[0].timestamp - minMax[(g[0].day, 1)].1
  {
  }

  // ---------------------------------------------------------------------
  // Times of one day
  // ---------------------------------------------------------------------

  /** The time `ranking` reads off a member's stars of a day. */
  function TimeOf(ranking: Ranking, g: seq<Entry>): Option<int>
    requires 1 <= |g| <= 2 && (ranking != DELTA ==> Released(g))
  {
    if ranking == DELTA then ComputeDelta(g) else GetTimeForPart(g, ranking)
  }

  /** Groups that `TimeOf` accepts. */
  predicate TimeGroups(ranking: Ranking, groups: map<Identifier, seq<Entry>>, ids: seq<Identifier>)
  {
    forall id :: id in ids ==> id in groups && 1 <= |groups[id]| <= 2 && (ranking != DELTA ==> Released(groups[id]))
  }

  type TimeRow = (Identifier, int)

  /** The `filter_map` over the members' groups: one row per member with a
      time. */
  function TimeRows(ranking: Ranking, groups: map<Identifier, seq<Entry>>, ids: seq<Identifier>): (rows: seq<TimeRow>)
    requires TimeGroups(ranking, groups, ids)
    ensures forall row :: row in rows <==> row.0 in ids && TimeOf(ranking, groups[row.0]) == Some(row.1)
    decreases |ids|
  {
    if ids == [] then []
    else
      var t := TimeOf(ranking, groups[ids[0]]);
      var rest := TimeRows(ranking, groups, ids[1..]);
      assert forall id :: id in ids <==> id == ids[0] || id in ids[1..] by {
        assert ids == [ids[0]] + ids[1..];
      }
      (if t.Some? then [(ids[0], t.value)] else []) + rest
  }

  predicate TimeLe(a: TimeRow, b: TimeRow)
  {
    a.1 <= b.1
  }

  /** The rows of the given members, shortest time first. */
  function SortedTimeRows(ranking: Ranking, groups: map<Identifier, seq<Entry>>, ids: seq<Identifier>): (r: seq<TimeRow>)
    requires TimeGroups(ranking, groups, ids)
    ensures forall i, j :: 0 <= i < j < |r| ==> r[i].1 <= r[j].1
    ensures multiset(r) == multiset(TimeRows(ranking, groups, ids))
  {
    assert TotalPreorder(TimeLe);
    var r := SortBy(TimeRows(ranking, groups, ids), TimeLe);
    assert forall i, j :: 0 <= i < j < |r| ==> TimeLe(r[i], r[j]);
    r
  }

  /** What the day's times demand of the board: at most two stars per
      member (anything else is unreachable) and, for part times, a release
      time for the day's stars. */
  predicate TimeDemands(ranking: Ranking, lb: seq<Entry>, year: int, day: nat)
  {
    AtMostTwoPerMember(lb, year, day) &&
    (ranking != DELTA ==> forall e :: e in lb && e.year == year && e.day == day ==> DurationSinceRelease(e).Ok?)
  }

  lemma TimeDemandsGroups(ranking: Ranking, lb: seq<Entry>, year: int, day: nat)
    requires TimeDemands(ranking, lb, year, day)
    ensures TimeGroups(ranking, EntriesPerMemberForYearDay(lb, year, day), DayMembers(lb, year, day))
  {
    var groups := EntriesPerMemberForYearDay(lb, year, day);
    forall id | id in DayMembers(lb, year, day) && ranking != DELTA ensures Released(groups[id]) {
      forall e | e in groups[id] ensures DurationSinceRelease(e).Ok? {
        assert e in lb;
      }
    }
  }

  /** The members' times of one day, shortest first (`standings_time`
      before the durations are formatted). */
  function StandingsTimeRows(ranking: Ranking, lb: seq<Entry>, year: int, day: nat): (r: seq<TimeRow>)
    requires TimeDemands(ranking, lb, year, day)
    ensures forall i, j :: 0 <= i < j < |r| ==> r[i].1 <= r[j].1
    ensures TimeGroups(ranking, EntriesPerMemberForYearDay(lb, year, day), DayMembers(lb, year, day))
    ensures multiset(r) == multiset(TimeRows(ranking, EntriesPerMemberForYearDay(lb, year, day), DayMembers(lb, year, day)))
  {
    TimeDemandsGroups(ranking, lb, year, day);
    SortedTimeRows(ranking, EntriesPerMemberForYearDay(lb, year, day), DayMembers(lb, year, day))
  }

  /** A member is in the day's times exactly when the member has stars
      that day and `ranking` gives them a time; the time is that of the
      member's stars of the day only. */
  lemma StandingsTimeMembers(ranking: Ranking, lb: seq<Entry>, year: int, day: nat, row: TimeRow)
    requires TimeDemands(ranking, lb, year, day)
    ensures row in StandingsTimeRows(ranking, lb, year, day) <==>
      row.0 in EntriesPerMemberForYearDay(lb, year, day) &&
      TimeOf(ranking, EntriesPerMemberForYearDay(lb, year, day)[row.0]) == Some(row.1)
  {
    var r := StandingsTimeRows(ranking, lb, year, day);
    var rows := TimeRows(ranking, EntriesPerMemberForYearDay(lb, year, day), DayMembers(lb, year, day));
    assert row in r <==> row in multiset(r);
    assert row in rows <==> row in multiset(rows);
  }

  /** `standings_time`: the rows with the durations formatted by `format`. */
  function StandingsTime(ranking: Ranking, lb: seq<Entry>, year: int, day: nat, format: int -> string): (r: seq<(string, string)>)
    requires TimeDemands(ranking, lb, year, day)
    ensures |r| == |StandingsTimeRows(ranking, lb, year, day)|
    ensures forall i :: 0 <= i < |r| ==>
      r[i] == (StandingsTimeRows(ranking, lb, year, day)[i].0.name, format(StandingsTimeRows(ranking, lb, year, day)[i].1))
  {
    var rows := StandingsTimeRows(ranking, lb, year, day);
    MapSeq(rows, (row: TimeRow) => (row.0.name, format(row.1)))
  }

  // ---------------------------------------------------------------------
  // Yearly board
  // ---------------------------------------------------------------------

  /** The members with a star in the year, in the iteration order of their
      groups. */
  function YearMembers(lb: seq<Entry>, year: int): (ids: seq<Identifier>)
    ensures Distinct(ids)
    ensures forall id :: id in ids <==> id in Image(YearEntries(lb, year), IdOf)
  {
    MapSeqImage(YearEntries(lb, year), IdOf);
    Dedup(MapSeq(YearEntries(lb, year), IdOf))
  }

  /** A member's 25 (stars, points) slots of the year, as
      `daily_stars_and_scores_per_member_for_year` computes them. */
  function YearSlots(lb: seq<Entry>, year: int, id: Identifier): (slots: seq<Slot>)
    ensures |slots| == Days
  {
    DailySlots(YearEntries(lb, year), Whole, MemberKey(0, id))
  }

  /** The year's stars of a member, over the 25 slots. */
  function TotalStars(slots: seq<Slot>): int
  {
    SumBy(slots, (x: Slot) => x.stars)
  }

  /** The year's points of a member, over the 25 slots. */
  function TotalScore(slots: seq<Slot>): int
  {
    Sum(SlotScores(slots))
  }

  /** The total the board sorts on first, and shows. */
  function Primary(scoring: Scoring, slots: seq<Slot>): int
  {
    if scoring == LOCAL then TotalScore(slots) else TotalStars(slots)
  }

  /** The total that breaks ties. */
  function Secondary(scoring: Scoring, slots: seq<Slot>): int
  {
    if scoring == LOCAL then TotalStars(slots) else TotalScore(slots)
  }

  type MemberSlots = (Identifier, seq<Slot>)

  /** The board's order: the primary total descending, then the secondary
      total descending. */
  predicate BoardBefore(scoring: Scoring, a: MemberSlots, b: MemberSlots)
  {
    Primary(scoring, a.1) > Primary(scoring, b.1) ||
    (Primary(scoring, a.1) == Primary(scoring, b.1) && Secondary(scoring, a.1) >= Secondary(scoring, b.1))
  }

  lemma BoardBeforeTotal(scoring: Scoring)
    ensures TotalPreorder((a, b) => BoardBefore(scoring, a, b))
  {
  }

  type BoardRow = (Identifier, seq<Slot>, int)

  /** `standings_board`: every member of the year with their slots and the
      primary total (points for LOCAL, stars for STARS), by the primary then
      the secondary total, both descending. */
  function StandingsBoard(scoring: Scoring, lb: seq<Entry>, year: int): (r: seq<BoardRow>)
    ensures |r| == |YearMembers(lb, year)|
    ensures forall i :: 0 <= i < |r| ==>
      r[i].0 in YearMembers(lb, year) && r[i].1 == YearSlots(lb, year, r[i].0) && r[i].2 == Primary(scoring, r[i].1)
    ensures forall i, j :: 0 <= i < j < |r| ==> r[i].0 != r[j].0
    ensures forall i, j :: 0 <= i < j < |r| ==> BoardBefore(scoring, (r[i].0, r[i].1), (r[j].0, r[j].1))
  {
    var ids := YearMembers(lb, year);
    var pairs := MapSeq(ids, id => (id, YearSlots(lb, year, id)));
    BoardBeforeTotal(scoring);
    var sorted := SortBy(pairs, (a, b) => BoardBefore(scoring, a, b));
    BoardPairs(lb, year, ids, pairs, sorted);
    MapSeq(sorted, (p: MemberSlots) => (p.0, p.1, Primary(scoring, p.1)))
  }

  /** The sorted pairs are the members' own, once each. */
  lemma BoardPairs(lb: seq<Entry>, year: int, ids: seq<Identifier>, pairs: seq<MemberSlots>, sorted: seq<MemberSlots>)
    requires Distinct(ids)
    requires pairs == MapSeq(ids, id => (id, YearSlots(lb, year, id)))
    requires multiset(sorted) == multiset(pairs)
    ensures |sorted| == |ids|
    ensures forall i :: 0 <= i < |sorted| ==> sorted[i].0 in ids && sorted[i].1 == YearSlots(lb, year, sorted[i].0)
    ensures forall i, j :: 0 <= i < j < |sorted| ==> sorted[i].0 != sorted[j].0
  {
    assert |sorted| == |multiset(sorted)| == |multiset(pairs)| == |pairs|;
    forall i | 0 <= i < |sorted| ensures sorted[i] in pairs {
      assert sorted[i] in multiset(sorted);
    }
    assert Distinct(pairs) by {
      forall i, j | 0 <= i < j < |pairs| ensures pairs[i] != pairs[j] {
        assert pairs[i].0 == ids[i] && pairs[j].0 == ids[j];
      }
    }
    DistinctPermutation(pairs, sorted);
    forall i, j | 0 <= i < j < |sorted| ensures sorted[i].0 != sorted[j].0 {
      assert sorted[i] != sorted[j];
    }
  }

  /** Each member's points total on the board is the sum of the scores of
      the member's stars of the year. */
  lemma BoardScoreIsSumOfStarScores(lb: seq<Entry>, year: int, id: Identifier)
    requires WellFormed(lb)
    ensures TotalScore(YearSlots(lb, year, id)) ==
            MemberScore(YearEntries(lb, year), YearEntries(lb, year), Whole, MemberKey(0, id))
  {
    WellFormedScorable(lb, year);
    LocalScoreIsSumOfStarScores(YearEntries(lb, year), Whole, MemberKey(0, id));
  }

  // ---------------------------------------------------------------------
  // Tour de France jerseys
  // ---------------------------------------------------------------------

  /** A stage: one member's stars of one day of the year. */
  type StageKey = (nat, Identifier)

  function StageOf(e: Entry): StageKey
  {
    (e.day, e.id)
  }

  /** What a jersey's stage time demands of a stage (anything else panics
      or is unreachable): one or two stars, a release time for the yellow
      jersey, the day's last part-1 time for a green part-2-only stage. */
  predicate StageOk(jersey: Jersey, g: seq<Entry>, minMax: map<(nat, nat), (int, int)>)
  {
    1 <= |g| <= 2 &&
    (jersey == YELLOW && |g| == 2 ==> Released(g)) &&
    (jersey == GREEN && |g| == 1 && g[0].part != 1 ==> (g[0].day, 1) in minMax)
  }

  /** The stage time of the jersey, when the member finished the stage. */
  function StageTime(jersey: Jersey, g: seq<Entry>, minMax: map<(nat, nat), (int, int)>): Option<int>
    requires StageOk(jersey, g, minMax)
  {
    if jersey == YELLOW then YellowJerseyDuration(g) else GreenJerseyDuration(g, minMax)
  }

  predicate StagesOk(jersey: Jersey, groups: map<StageKey, seq<Entry>>, keys: seq<StageKey>, minMax: map<(nat, nat), (int, int)>)
  {
    forall k :: k in keys ==> k in groups && StageOk(jersey, groups[k], minMax)
  }

  /** A stage's member and, when the member finished it, its time. */
  type Stage = (Identifier, Option<int>)

  /** The stages `keys` with their jersey times, in order. */
  function Stages(jersey: Jersey, groups: map<StageKey, seq<Entry>>, keys: seq<StageKey>, minMax: map<(nat, nat), (int, int)>): (st: seq<Stage>)
    requires StagesOk(jersey, groups, keys, minMax)
    ensures |st| == |keys|
    ensures forall i :: 0 <= i < |keys| ==> st[i] == (keys[i].1, StageTime(jersey, groups[keys[i]], minMax))
  {
    seq(|keys|, i requires 0 <= i < |keys| => (keys[i].1, StageTime(jersey, groups[keys[i]], minMax)))
  }

  /** `duration_to_add`: a stage never counts more than the penalty of a
      stage not finished. */
  function Capped(d: int): (c: int)
    ensures c == Min(d, PenaltyUnfinishedDay)
  {
    if PenaltyUnfinishedDay - d > 0 then d else PenaltyUnfinishedDay
  }

  /** Per member, the capped total time and the number of finished stages. */
  type Tally = map<Identifier, (int, nat)>

  /** One step of the fold: a finished stage adds its capped time and one
      to its member's tally. */
  function TallyStep(acc: Tally, s: Stage): Tally
  {
    match s.1
    case None => acc
    case Some(d) =>
      var prev := if s.0 in acc then acc[s.0] else (0, 0);
      acc[s.0 := (prev.0 + Capped(d), prev.1 + 1)]
  }

  /** The fold over the stages, in order. */
  function TallyOf(stages: seq<Stage>): Tally
  {
    if stages == [] then map[] else TallyStep(TallyOf(stages[..|stages| - 1]), stages[|stages| - 1])
  }

  /** The number of stages that member `id` finished. */
  function FinishedStages(stages: seq<Stage>, id: Identifier): nat
  {
    if stages == [] then 0
    else
      var s := stages[|stages| - 1];
      FinishedStages(stages[..|stages| - 1], id) + (if s.0 == id && s.1.Some? then 1 else 0)
  }

  /** The tally holds exactly the members with a finished stage, counts
      their finished stages, and their total is at most one penalty per
      finished stage. */
  lemma {:induction false} TallyCounts(stages: seq<Stage>, id: Identifier)
    ensures id in TallyOf(stages) <==> FinishedStages(stages, id) > 0
    ensures id in TallyOf(stages) ==>
      TallyOf(stages)[id].1 == FinishedStages(stages, id) &&
      TallyOf(stages)[id].0 <= TallyOf(stages)[id].1 * PenaltyUnfinishedDay
  {
    if stages != [] {
      var init := stages[..|stages| - 1];
      TallyCounts(init, id);
    }
  }

  /** The most stages any member finished; 0 without members. */
  ghost function Peak(t: Tally): (m: nat)
    ensures forall id :: id in t ==> t[id].1 <= m
    ensures t != map[] ==> exists id :: id in t && t[id].1 == m
    decreases |t.Keys|
  {
    if t == map[] then 0
    else
      var id :| id in t;
      var rest := t - {id};
      assert rest.Keys == t.Keys - {id};
      assert forall x :: x in t ==> x == id || (x in rest && rest[x] == t[x]);
      var p := Peak(rest);
      if t[id].1 < p then p else t[id].1
  }

  /** A bound on every member that some member reaches is the peak. */
  lemma PeakIs(t: Tally, m: nat)
    requires forall id :: id in t ==> t[id].1 <= m
    requires (t == map[] && m == 0) || (exists id :: id in t && t[id].1 == m)
    ensures Peak(t) == m
  {
    if t != map[] {
      var id :| id in t && t[id].1 == m;
      var top :| top in t && t[top].1 == Peak(t);
    }
  }

  /** A standing: member, total time, stages not finished. */
  type TdfRow = (Identifier, int, int)

  /** A member's standing: the stages the member did not finish, against
      the most finished by anyone, each add a penalty. */
  function TdfRowOf(id: Identifier, tally: (int, nat), maxDays: int): TdfRow
  {
    var daysOverCutoff := maxDays - tally.1;
    if daysOverCutoff == 0 then (id, tally.0, daysOverCutoff)
    else (id, tally.0 + daysOverCutoff * PenaltyUnfinishedDay, daysOverCutoff)
  }

  /** Total time ascending, then stages not finished ascending. */
  predicate TdfBefore(a: TdfRow, b: TdfRow)
  {
    if a.1 == b.1 then a.2 <= b.2 else a.1 < b.1
  }

  /** A standing's penalties make up the gap to the peak: its stages not
      finished are never negative, and no member stands above the time of
      a member who missed every stage the leader finished. */
  lemma TdfRowFacts(id: Identifier, tally: (int, nat), maxDays: int)
    requires tally.1 <= maxDays && tally.0 <= tally.1 * PenaltyUnfinishedDay
    ensures TdfRowOf(id, tally, maxDays).2 == maxDays - tally.1 >= 0
    ensures TdfRowOf(id, tally, maxDays).1 == tally.0 + (maxDays - tally.1) * PenaltyUnfinishedDay
    ensures TdfRowOf(id, tally, maxDays).1 <= maxDays * PenaltyUnfinishedDay
  {
  }

  /** The fold of `standings_tdf`: the tally of the stages and the most
      stages finished by one member. */
  method TallyStages(stages: seq<Stage>) returns (acc: Tally, maxDays: nat)
    ensures acc == TallyOf(stages)
    ensures maxDays == Peak(acc)
  {
    acc := map[];
    maxDays := 0;
    var i := 0;
    while i < |stages|
      invariant 0 <= i <= |stages|
      invariant acc == TallyOf(stages[..i])
      invariant forall id :: id in acc ==> acc[id].1 <= maxDays
      invariant (acc == map[] && maxDays == 0) || (exists id :: id in acc && acc[id].1 == maxDays)
    {
      var s := stages[i];
      assert stages[..i + 1][..i] == stages[..i];
      match s.1 {
        case None =>
        case Some(d) =>
          var prev := if s.0 in acc then acc[s.0] else (0, 0);
          var old_acc := acc;
          acc := acc[s.0 := (prev.0 + Capped(d), prev.1 + 1)];
          if maxDays < prev.1 + 1 {
            maxDays := prev.1 + 1;
            assert s.0 in acc && acc[s.0].1 == maxDays;
          } else {
            var top :| top in old_acc && old_acc[top].1 == maxDays;
            assert top != s.0 && acc[top] == old_acc[top];
          }
      }
      i := i + 1;
    }
    assert stages[..|stages|] == stages;
    PeakIs(acc, maxDays);
  }

  /** The standing of every tallied member, in no particular order. */
  method TdfRows(acc: Tally, maxDays: nat) returns (rows: seq<TdfRow>)
    ensures |rows| == |acc.Keys|
    ensures forall row :: row in rows <==> row.0 in acc && row == TdfRowOf(row.0, acc[row.0], maxDays)
  {
    rows := [];
    var left := acc.Keys;
    while left != {}
      invariant left <= acc.Keys
      invariant |rows| + |left| == |acc.Keys|
      invariant forall row :: row in rows <==> row.0 in acc.Keys - left && row == TdfRowOf(row.0, acc[row.0], maxDays)
      decreases left
    {
      var id :| id in left;
      rows := rows + [TdfRowOf(id, acc[id], maxDays)];
      left := left - {id};
    }
  }

  /** The standings of the tallied stages, sorted. */
  method TdfFold(stages: seq<Stage>) returns (standings: seq<TdfRow>)
    ensures forall i, j :: 0 <= i < j < |standings| ==> TdfBefore(standings[i], standings[j])
    ensures |standings| == |TallyOf(stages).Keys|
    ensures forall row :: row in standings <==>
      row.0 in TallyOf(stages) && row == TdfRowOf(row.0, TallyOf(stages)[row.0], Peak(TallyOf(stages)))
  {
    var acc, maxDays := TallyStages(stages);
    var rows := TdfRows(acc, maxDays);
    assert TotalPreorder((a, b) => TdfBefore(a, b));
    standings := SortBy(rows, (a, b) => TdfBefore(a, b));
    assert forall row :: row in standings <==> row in rows by {
      forall row ensures row in standings <==> row in rows {
        assert row in standings <==> row in multiset(standings);
        assert row in rows <==> row in multiset(rows);
      }
    }
    assert |standings| == |multiset(standings)| == |multiset(rows)| == |rows|;
  }

  /** What `standings_tdf` demands of the year's stars: at most two stars
      per member and day; for the yellow jersey, a release time for every
      finished stage; for the green jersey, a part-1 star that day for
      every stage with a part-2 star only. */
  predicate TdfDemands(jersey: Jersey, lb: seq<Entry>, year: int)
  {
    var groups := EntriesPerDayMemberForYear(lb, year);
    var minMax := PartsMinMaxTimesForYear(lb, year);
    forall k :: k in groups ==>
      |groups[k]| <= 2 &&
      (jersey == YELLOW && |groups[k]| == 2 ==> Released(groups[k])) &&
      (jersey == GREEN && |groups[k]| == 1 && groups[k][0].part != 1 ==> (k.0, 1) in minMax)
  }

  /** The day times the jersey needs: the parts' first and last times for
      the green jersey, none for the yellow one. */
  function JerseyMinMax(jersey: Jersey, lb: seq<Entry>, year: int): map<(nat, nat), (int, int)>
  {
    if jersey == GREEN then PartsMinMaxTimesForYear(lb, year) else map[]
  }

  /** An order in which the year's stages are visited (a hash map's order). */
  ghost predicate StageOrder(lb: seq<Entry>, year: int, order: seq<StageKey>)
  {
    Distinct(order) && forall k :: k in order <==> k in EntriesPerDayMemberForYear(lb, year)
  }

  /** The tally of the year's stages in the given order. */
  ghost function YearTally(jersey: Jersey, lb: seq<Entry>, year: int, order: seq<StageKey>): Tally
    requires TdfDemands(jersey, lb, year) && StageOrder(lb, year, order)
  {
    TdfDemandsStages(jersey, lb, year, order);
    TallyOf(Stages(jersey, EntriesPerDayMemberForYear(lb, year), order, JerseyMinMax(jersey, lb, year)))
  }

  lemma TdfDemandsStages(jersey: Jersey, lb: seq<Entry>, year: int, order: seq<StageKey>)
    requires TdfDemands(jersey, lb, year) && StageOrder(lb, year, order)
    ensures StagesOk(jersey, EntriesPerDayMemberForYear(lb, year), order, JerseyMinMax(jersey, lb, year))
  {
    var groups := EntriesPerDayMemberForYear(lb, year);
    forall k | k in order ensures StageOk(jersey, groups[k], JerseyMinMax(jersey, lb, year)) {
      if jersey == GREEN && |groups[k]| == 1 && groups[k][0].part != 1 {
        assert groups[k][0] in groups[k];
      }
    }
  }

  /** `standings_tdf`: for the yellow jersey the members' times to finish
      each day, for the green jersey their times between the two parts,
      summed over the year with each stage capped at the penalty, plus the
      penalty for each stage fewer than the most finished by anyone;
      sorted by total time, then by stages not finished. The year's
      stages are visited in `order`. */
  method StandingsTdf(jersey: Jersey, lb: seq<Entry>, year: int, order: seq<StageKey>) returns (standings: seq<TdfRow>)
    requires TdfDemands(jersey, lb, year) && StageOrder(lb, year, order)
    ensures forall i, j :: 0 <= i < j < |standings| ==> TdfBefore(standings[i], standings[j])
    ensures |standings| == |YearTally(jersey, lb, year, order).Keys|
    ensures forall row :: row in standings <==>
      row.0 in YearTally(jersey, lb, year, order) &&
      row == TdfRowOf(row.0, YearTally(jersey, lb, year, order)[row.0], Peak(YearTally(jersey, lb, year, order)))
  {
    var minMax := JerseyMinMax(jersey, lb, year);
    var groups := EntriesPerDayMemberForYear(lb, year);
    TdfDemandsStages(jersey, lb, year, order);
    var stages := Stages(jersey, groups, order, minMax);
    standings := TdfFold(stages);
  }

  /** On a well-formed board a member has at most two stars on a day, so
      no stage reaches the `unreachable!` of the jersey durations. */
  lemma WellFormedStageAtMostTwo(lb: seq<Entry>, year: int, k: StageKey)
    requires WellFormed(lb) && k in EntriesPerDayMemberForYear(lb, year)
    ensures 1 <= |EntriesPerDayMemberForYear(lb, year)[k]| <= 2
  {
    var g := EntriesPerDayMemberForYear(lb, year)[k];
    var dayEntries := DayEntries(lb, year, k.0);
    var h := Having(dayEntries, IdOf, k.1);
    MemberDayAtMostTwo(lb, year, k.0, k.1);
    HavingDistinct(dayEntries, IdOf, k.1);
    HavingIsFilter(dayEntries, IdOf, k.1, (e: Entry) => e.id == k.1);
    DistinctSameLength(g, h);
  }

  /** Every tallied member finished a stage; the member's stages not
      finished are the gap to the most finished by anyone, and the total
      time never exceeds a full penalty for each of those stages. The
      leader in finished stages carries no penalty. */
  lemma TdfStandingFacts(stages: seq<Stage>, id: Identifier)
    requires id in TallyOf(stages)
    ensures FinishedStages(stages, id) >= 1
    ensures var t := TallyOf(stages);
      TdfRowOf(id, t[id], Peak(t)).2 == Peak(t) - FinishedStages(stages, id) >= 0 &&
      TdfRowOf(id, t[id], Peak(t)).1 <= Peak(t) * PenaltyUnfinishedDay
    ensures var t := TallyOf(stages);
      exists top :: top in t && TdfRowOf(top, t[top], Peak(t)).2 == 0
  {
    var t := TallyOf(stages);
    TallyCounts(stages, id);
    TdfRowFacts(id, t[id], Peak(t));
    var top :| top in t && t[top].1 == Peak(t);
    assert TdfRowOf(top, t[top], Peak(t)).2 == 0;
  }
}

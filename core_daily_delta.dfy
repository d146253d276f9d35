/** `daily_delta_and_scores_per_member_for_year` of the core snapshot
    (src/core/leaderboard.rs): for every member who finished both parts of
    some day of the year, the time between the parts on each day, the
    member's rank among that day's finishers by that time, and the points
    of the rank. */
module CoreDailyDelta {
  import opened Common
  import opened Sorting
  import opened Entries
  import opened LocalScoring
  import opened CoreLeaderboard

  /** A finished day: the day, the member, the time between the parts. */
  type Finish = (nat, Identifier, int)

  /** A day of the result: the time between the parts, the 1-based rank and
      its points; all zero for a day the member did not finish. */
  datatype DeltaSlot = DeltaSlot(delta: int, rank: nat, score: int)

  const Unfinished: DeltaSlot := DeltaSlot(0, 0, 0)

  function UnfinishedSlots(): (slots: seq<DeltaSlot>)
    ensures |slots| == Days && forall j :: 0 <= j < Days ==> slots[j] == Unfinished
  {
    seq(Days, _ => Unfinished)
  }

  /** The time between a member's two stars of a day: the later star's
      time minus the earlier's. */
  function PartsGap(g: seq<Entry>): int
    requires |g| == 2
  {
    Max(g[0].timestamp, g[1].timestamp) - Min(g[0].timestamp, g[1].timestamp)
  }

  /** What the source computes, the two stars sorted in the entries' order
      and the first's time taken from the second's, is that gap. */
  lemma SortedGap(g: seq<Entry>)
    requires |g| == 2
    ensures SortEntries(g)[1].timestamp - SortEntries(g)[0].timestamp == PartsGap(g)
  {
    var s := SortEntries(g);
    assert EntryLe(s[0], s[1]);
    assert s[0] in multiset(g) && s[1] in multiset(g);
    assert g[0] in multiset(s) && g[1] in multiset(s);
    if s[0] == s[1] {
      assert multiset(s)[s[0]] == 2;
      assert g[0] == g[1];
    }
  }

  /** The gap of a finished day as the source takes it: the two stars
      sorted, the first's time taken from the second's. */
  method TwoPartsGap(g: seq<Entry>) returns (gap: int)
    requires |g| == 2
    ensures gap == PartsGap(g)
  {
    var sorted := SortEntries(g);
    SortedGap(g);
    gap := sorted[1].timestamp - sorted[0].timestamp;
  }

  /** A member-day of the groups is finished: it has two stars. */
  predicate FinishedIn(groups: map<(nat, Identifier), seq<Entry>>, day: nat, id: Identifier)
  {
    (day, id) in groups && |groups[(day, id)]| == 2
  }

  /** The gap of a finished member-day of the groups. */
  function GapIn(groups: map<(nat, Identifier), seq<Entry>>, day: nat, id: Identifier): int
    requires FinishedIn(groups, day, id)
  {
    PartsGap(groups[(day, id)])
  }

  /** The members who finished `day`, and all members, of the groups. */
  ghost function DayFinishersIn(groups: map<(nat, Identifier), seq<Entry>>, day: nat): set<Identifier>
  {
    set k | k in groups && |groups[k]| == 2 && k.0 == day :: k.1
  }

  ghost function MembersIn(groups: map<(nat, Identifier), seq<Entry>>): set<Identifier>
  {
    set k | k in groups :: k.1
  }

  /** The members who finished some day. */
  ghost function FinishersIn(groups: map<(nat, Identifier), seq<Entry>>): set<Identifier>
  {
    set k | k in groups && |groups[k]| == 2 :: k.1
  }

  /** The members of the year: every member with a star in it. */
  ghost function YearMembers(lb: seq<Entry>, year: int): set<Identifier>
  {
    set e | e in lb && e.year == year :: e.id
  }

  // ---------------------------------------------------------------------
  // The finished days
  // ---------------------------------------------------------------------

  function KeyOfFinish(f: Finish): (nat, Identifier)
  {
    (f.0, f.1)
  }

  /** No member-day is listed twice. */
  predicate OncePerMemberDay(fs: seq<Finish>)
  {
    forall i, j :: 0 <= i < j < |fs| ==> KeyOfFinish(fs[i]) != KeyOfFinish(fs[j])
  }

  /** The `filter_map` over the member-days of the year: the member-days
      with two stars, each with its gap; one star is skipped (three or more
      are unreachable and required absent). */
  method FinishedDays(groups: map<(nat, Identifier), seq<Entry>>) returns (fs: seq<Finish>)
    requires forall k :: k in groups ==> 1 <= |groups[k]| <= 2
    ensures OncePerMemberDay(fs)
    ensures forall f :: f in fs <==>
      KeyOfFinish(f) in groups && |groups[KeyOfFinish(f)]| == 2 && f.2 == PartsGap(groups[KeyOfFinish(f)])
  {
    fs := [];
    var left := groups.Keys;
    while left != {}
      invariant left <= groups.Keys
      invariant OncePerMemberDay(fs)
      invariant forall f :: f in fs ==> KeyOfFinish(f) !in left
      invariant forall f :: f in fs <==>
        KeyOfFinish(f) in groups - left && |groups[KeyOfFinish(f)]| == 2 && f.2 == PartsGap(groups[KeyOfFinish(f)])
      decreases |left|
    {
      var k :| k in left;
      if |groups[k]| == 2 {
        var gap := TwoPartsGap(groups[k]);
        fs := fs + [(k.0, k.1, gap)];
      }
      left := left - {k};
    }
  }

  // ---------------------------------------------------------------------
  // The ranking of a day
  // ---------------------------------------------------------------------

  predicate GapLe(a: Finish, b: Finish)
  {
    a.2 <= b.2
  }

  function DayOf(f: Finish): nat
  {
    f.0
  }

  /** The finishers of one day by gap, shortest first (`sorted_unstable_by_key`:
      the order among equal gaps is one of the possible ones). */
  function DayRanking(fs: seq<Finish>, day: nat): seq<Finish>
  {
    assert TotalPreorder(GapLe);
    SortBy(Having(fs, DayOf, day), GapLe)
  }

  /** The ranking of a day holds that day's finishes, shortest gap first. */
  lemma DayRankingSorted(fs: seq<Finish>, day: nat)
    ensures forall i, j :: 0 <= i < j < |DayRanking(fs, day)| ==> DayRanking(fs, day)[i].2 <= DayRanking(fs, day)[j].2
    ensures multiset(DayRanking(fs, day)) == multiset(Having(fs, DayOf, day))
  {
    var r := DayRanking(fs, day);
    assert forall i, j :: 0 <= i < j < |r| ==> GapLe(r[i], r[j]);
  }

  /** The slot position `r` of a day's ranking earns: its gap, rank `r + 1`
      and `members - r` points. */
  function RankSlot(f: Finish, r: nat, members: nat): DeltaSlot
  {
    DeltaSlot(f.2, r + 1, members - r)
  }

  /** `f` is listed in `fs` for `day` and member `id`. */
  predicate Lists(fs: seq<Finish>, day: nat, id: Identifier)
  {
    exists f :: f in fs && f.0 == day && f.1 == id
  }

  /** The position of `id` in a ranking, if it is there. */
  function RankOf(ranking: seq<Finish>, id: Identifier): (p: Option<nat>)
    ensures p.Some? ==> p.value < |ranking| && ranking[p.value].1 == id
    ensures p.None? ==> forall i :: 0 <= i < |ranking| ==> ranking[i].1 != id
  {
    if ranking == [] then None
    else if ranking[0].1 == id then Some(0)
    else match RankOf(ranking[1..], id)
      case Some(i) => Some(i + 1)
      case None => None
  }

  /** What `id` has in a day's slot once `ranking` is recorded: its rank
      slot when ranked, the unfinished slot otherwise. */
  function SlotIn(ranking: seq<Finish>, id: Identifier, members: nat): DeltaSlot
  {
    match RankOf(ranking, id)
    case Some(i) => RankSlot(ranking[i], i, members)
    case None => Unfinished
  }

  /** No member appears twice in a ranking. */
  predicate DistinctIds(ranking: seq<Finish>)
  {
    forall i, j :: 0 <= i < j < |ranking| ==> ranking[i].1 != ranking[j].1
  }

  /** In a ranking without repeated members, a member's position is the one
      it is found at. */
  lemma RankOfDistinct(ranking: seq<Finish>, i: nat)
    requires DistinctIds(ranking) && i < |ranking|
    ensures RankOf(ranking, ranking[i].1) == Some(i)
  {
  }

  /** Extending a ranking's prefix by position `r` ranks that member at `r`
      and leaves every other member as it was. */
  lemma PrefixStep(ranking: seq<Finish>, r: nat, members: nat)
    requires DistinctIds(ranking) && r < |ranking|
    ensures RankOf(ranking[..r], ranking[r].1).None?
    ensures SlotIn(ranking[..r + 1], ranking[r].1, members) == RankSlot(ranking[r], r, members)
    ensures forall id :: id != ranking[r].1 ==>
      RankOf(ranking[..r + 1], id) == RankOf(ranking[..r], id) &&
      SlotIn(ranking[..r + 1], id, members) == SlotIn(ranking[..r], id, members)
  {
    var longer, shorter := ranking[..r + 1], ranking[..r];
    assert DistinctIds(longer);
    assert DistinctIds(shorter);
    RankOfDistinct(longer, r);
    forall id | id != ranking[r].1 ensures RankOf(longer, id) == RankOf(shorter, id) {
      var p := RankOf(longer, id);
      if p.Some? {
        assert shorter[p.value].1 == id;
        RankOfDistinct(shorter, p.value);
      } else {
        assert forall i :: 0 <= i < |shorter| ==> shorter[i].1 == longer[i].1;
      }
    }
  }

  /** The ranking of a day holds finishes of that day. */
  lemma DayRankingOfDay(fs: seq<Finish>, day: nat)
    ensures forall i :: 0 <= i < |DayRanking(fs, day)| ==> DayRanking(fs, day)[i] in fs && DayRanking(fs, day)[i].0 == day
  {
    var ranking, having := DayRanking(fs, day), Having(fs, DayOf, day);
    DayRankingSorted(fs, day);
    forall i | 0 <= i < |ranking| ensures ranking[i] in fs && ranking[i].0 == day {
      assert ranking[i] in multiset(having);
      assert ranking[i] in having;
    }
  }

  /** The ranking of a day lists each member once. */
  lemma DayRankingDistinct(fs: seq<Finish>, day: nat)
    requires OncePerMemberDay(fs)
    ensures DistinctIds(DayRanking(fs, day))
  {
    var ranking, having := DayRanking(fs, day), Having(fs, DayOf, day);
    DayRankingOfDay(fs, day);
    forall i, j | 0 <= i < j < |fs| ensures fs[i] != fs[j] {
      assert KeyOfFinish(fs[i]) != KeyOfFinish(fs[j]);
    }
    DayRankingSorted(fs, day);
    HavingDistinct(fs, DayOf, day);
    DistinctPermutation(having, ranking);
    forall i, j | 0 <= i < j < |ranking| ensures ranking[i].1 != ranking[j].1 {
      var a :| 0 <= a < |fs| && fs[a] == ranking[i];
      var b :| 0 <= b < |fs| && fs[b] == ranking[j];
      assert a != b;
    }
  }

  /** The ranking of a day ranks exactly the members listed for that day. */
  lemma DayRankingMembers(fs: seq<Finish>, day: nat)
    ensures forall id :: Lists(fs, day, id) <==> RankOf(DayRanking(fs, day), id).Some?
  {
    var ranking, having := DayRanking(fs, day), Having(fs, DayOf, day);
    DayRankingOfDay(fs, day);
    DayRankingSorted(fs, day);
    forall id ensures Lists(fs, day, id) <==> RankOf(ranking, id).Some? {
      if Lists(fs, day, id) {
        var f :| f in fs && f.0 == day && f.1 == id;
        assert f in having;
        assert f in multiset(ranking);
        var i :| 0 <= i < |ranking| && ranking[i] == f;
        assert ranking[i].1 == id;
      }
    }
  }

  /** The rankings of days `0..Days`, each a ranking of that day: no
      member twice, exactly the members listed for that day. */
  ghost predicate Rankings(rk: seq<seq<Finish>>, fs: seq<Finish>)
  {
    |rk| == Days + 1 &&
    forall d :: 0 <= d < |rk| ==>
      DistinctIds(rk[d]) && forall id :: Lists(fs, d, id) <==> RankOf(rk[d], id).Some?
  }

  /** The rankings of days `0..Days`. */
  function AllRankings(fs: seq<Finish>): (rk: seq<seq<Finish>>)
    ensures |rk| == Days + 1 && forall d :: 0 <= d <= Days ==> rk[d] == DayRanking(fs, d)
  {
    seq(Days + 1, d requires 0 <= d <= Days => DayRanking(fs, d))
  }

  lemma DayRankings(fs: seq<Finish>)
    requires OncePerMemberDay(fs)
    ensures Rankings(AllRankings(fs), fs)
  {
    var rk := AllRankings(fs);
    forall d | 0 <= d < |rk|
      ensures DistinctIds(rk[d]) && forall id :: Lists(fs, d, id) <==> RankOf(rk[d], id).Some?
    {
      DayRankingDistinct(fs, d);
      DayRankingMembers(fs, d);
    }
  }

  /** What slot `j` (day `j + 1`) of `id` holds once the days in `done` and
      the first `r` finishers of `day` are recorded. */
  function Expected(rk: seq<seq<Finish>>, done: set<nat>, day: nat, r: nat, members: nat, id: Identifier, j: nat): DeltaSlot
    requires |rk| == Days + 1 && j < Days && day <= Days
  {
    if j + 1 in done then SlotIn(rk[j + 1], id, members)
    else if j + 1 == day && r <= |rk[day]| then SlotIn(rk[day][..r], id, members)
    else Unfinished
  }

  /** The members with slots so far: those listed on a recorded day or
      among the first `r` finishers of `day`. */
  ghost predicate RecordedKeys(acc: map<Identifier, seq<DeltaSlot>>, rk: seq<seq<Finish>>, fs: seq<Finish>, done: set<nat>, day: nat, r: nat)
    requires |rk| == Days + 1 && day <= Days && r <= |rk[day]|
  {
    forall id :: id in acc <==> (exists d :: d in done && Lists(fs, d, id)) || RankOf(rk[day][..r], id).Some?
  }

  /** The slots so far hold what `Expected` says. */
  ghost predicate RecordedSlots(acc: map<Identifier, seq<DeltaSlot>>, rk: seq<seq<Finish>>, done: set<nat>, day: nat, r: nat, members: nat)
    requires |rk| == Days + 1 && day <= Days
  {
    (forall id :: id in acc ==> |acc[id]| == Days) &&
    (forall id, j :: id in acc && 0 <= j < Days ==> acc[id][j] == Expected(rk, done, day, r, members, id, j))
  }

  ghost predicate Recorded(acc: map<Identifier, seq<DeltaSlot>>, rk: seq<seq<Finish>>, fs: seq<Finish>, done: set<nat>, day: nat, r: nat, members: nat)
  {
    Rankings(rk, fs) && day <= Days && r <= |rk[day]| &&
    RecordedKeys(acc, rk, fs, done, day, r) && RecordedSlots(acc, rk, done, day, r, members)
  }

  /** Starting a day not yet recorded changes nothing. */
  lemma StartDay(acc: map<Identifier, seq<DeltaSlot>>, rk: seq<seq<Finish>>, fs: seq<Finish>, done: set<nat>, day: nat, members: nat)
    requires day !in done && day <= Days
    requires Recorded(acc, rk, fs, done, 0, 0, members)
    ensures Recorded(acc, rk, fs, done, day, 0, members)
  {
    assert rk[day][..0] == [] && rk[0][..0] == [];
    forall id, j | id in acc && 0 <= j < Days
      ensures Expected(rk, done, day, 0, members, id, j) == Expected(rk, done, 0, 0, members, id, j)
    {
    }
  }

  /** A member not listed for a day has nothing in its slot. */
  lemma NotListedUnfinished(rk: seq<seq<Finish>>, fs: seq<Finish>, day: nat, id: Identifier, members: nat)
    requires Rankings(rk, fs) && day <= Days
    requires !Lists(fs, day, id)
    ensures SlotIn(rk[day], id, members) == Unfinished
  {
  }

  /** Recording finisher `r` of `day` keeps the members with slots right. */
  lemma RecordOneKeys(acc: map<Identifier, seq<DeltaSlot>>, rk: seq<seq<Finish>>, fs: seq<Finish>, done: set<nat>, day: nat, r: nat, members: nat)
    requires Recorded(acc, rk, fs, done, day, r, members)
    requires r < |rk[day]|
    ensures forall id :: id in acc || id == rk[day][r].1 <==>
      (exists d :: d in done && Lists(fs, d, id)) || RankOf(rk[day][..r + 1], id).Some?
  {
    PrefixStep(rk[day], r, members);
  }

  /** Recording finisher `r` of `day` keeps the slots right. */
  lemma RecordOneSlots(acc: map<Identifier, seq<DeltaSlot>>, rk: seq<seq<Finish>>, fs: seq<Finish>, done: set<nat>, day: nat, r: nat, members: nat)
    requires 1 <= day && day !in done
    requires Recorded(acc, rk, fs, done, day, r, members)
    requires r < |rk[day]|
    ensures var f := rk[day][r];
      var slots := if f.1 in acc then acc[f.1] else UnfinishedSlots();
      RecordedSlots(acc[f.1 := slots[day - 1 := RankSlot(f, r, members)]], rk, done, day, r + 1, members)
  {
    var ranking := rk[day];
    var f := ranking[r];
    var slots := if f.1 in acc then acc[f.1] else UnfinishedSlots();
    var acc' := acc[f.1 := slots[day - 1 := RankSlot(f, r, members)]];
    PrefixStep(ranking, r, members);
    forall id, j | id in acc' && 0 <= j < Days
      ensures acc'[id][j] == Expected(rk, done, day, r + 1, members, id, j)
    {
      if id != f.1 {
        assert Expected(rk, done, day, r + 1, members, id, j) == Expected(rk, done, day, r, members, id, j);
      } else if j != day - 1 && f.1 !in acc && j + 1 in done {
        assert !Lists(fs, j + 1, id);
        NotListedUnfinished(rk, fs, j + 1, id, members);
      }
    }
  }

  /** Once the whole ranking of `day` is recorded, `day` is done. */
  lemma FinishDay(acc: map<Identifier, seq<DeltaSlot>>, rk: seq<seq<Finish>>, fs: seq<Finish>, done: set<nat>, day: nat, members: nat)
    requires |rk| == Days + 1 && day <= Days
    requires Recorded(acc, rk, fs, done, day, |rk[day]|, members)
    ensures Recorded(acc, rk, fs, done + {day}, 0, 0, members)
  {
    var ranking := rk[day];
    assert ranking[..|ranking|] == ranking;
    assert rk[0][..0] == [];
    forall id ensures id in acc <==> exists d :: d in done + {day} && Lists(fs, d, id) {
      if RankOf(ranking, id).Some? {
        assert day in done + {day} && Lists(fs, day, id);
      }
    }
    forall id, j | id in acc && 0 <= j < Days
      ensures acc[id][j] == Expected(rk, done + {day}, 0, 0, members, id, j)
    {
    }
  }

  /** The `for_each` over one day's ranking: finisher `r` gets rank `r + 1`
      and `members - r` points in the slot of the day, starting from the
      unfinished slots when it has none yet. */
  method RecordDay(acc0: map<Identifier, seq<DeltaSlot>>, ranking: seq<Finish>, d: nat, members: nat,
                   ghost rk: seq<seq<Finish>>, ghost fs: seq<Finish>, ghost done: set<nat>)
    returns (acc: map<Identifier, seq<DeltaSlot>>)
    requires 1 <= d <= Days && d !in done
    requires Recorded(acc0, rk, fs, done, d, 0, members) && ranking == rk[d]
    ensures Recorded(acc, rk, fs, done, d, |ranking|, members)
  {
    acc := acc0;
    var r := 0;
    while r < |ranking|
      invariant 0 <= r <= |ranking|
      invariant Recorded(acc, rk, fs, done, d, r, members)
      decreases |ranking| - r
    {
      RecordOneKeys(acc, rk, fs, done, d, r, members);
      RecordOneSlots(acc, rk, fs, done, d, r, members);
      var f := ranking[r];
      var slots := if f.1 in acc then acc[f.1] else UnfinishedSlots();
      acc := acc[f.1 := slots[d - 1 := RankSlot(f, r, members)]];
      r := r + 1;
    }
  }

  /** The fold over the days: each day's finishers, by gap, get their
      rank and points in the slot of the day. */
  method RecordRanks(fs: seq<Finish>, members: nat) returns (acc: map<Identifier, seq<DeltaSlot>>)
    requires forall f :: f in fs ==> 1 <= f.0 <= Days
    requires OncePerMemberDay(fs)
    ensures Folded(acc, AllRankings(fs), fs, members)
  {
    ghost var rk := AllRankings(fs);
    DayRankings(fs);
    acc := map[];
    var days := set f | f in fs :: f.0;
    var left := days;
    ghost var done: set<nat> := {};
    assert rk[0][..0] == [];
    while left != {}
      invariant left <= days && done == days - left
      invariant Recorded(acc, rk, fs, done, 0, 0, members)
      decreases |left|
    {
      var d :| d in left;
      StartDay(acc, rk, fs, done, d, members);
      acc := RecordDay(acc, DayRanking(fs, d), d, members, rk, fs, done);
      FinishDay(acc, rk, fs, done, d, members);
      done := done + {d};
      left := left - {d};
    }
    assert done == days;
    RecordedFolded(acc, rk, fs, members);
  }

  // ---------------------------------------------------------------------
  // The board's daily deltas
  // ---------------------------------------------------------------------

  /** Stars of pairwise different parts, each part 1 or 2, are at most two. */
  lemma AtMostTwoParts(g: seq<Entry>)
    requires forall i, j :: 0 <= i < j < |g| ==> g[i].part != g[j].part
    requires forall i :: 0 <= i < |g| ==> g[i].part == 1 || g[i].part == 2
    ensures |g| <= 2
  {
    var partOf := (x: Entry) => x.part;
    ImageCardinality(g, partOf);
    forall x | x in g ensures partOf(x) in {1, 2} {
      var i :| 0 <= i < |g| && g[i] == x;
    }
    ImageSubset(g, partOf, {1, 2});
    SubsetCardinality(Image(g, partOf), {1, 2});
  }

  /** Distinct stars of one member and day, under one star per member and
      part, are of different parts. */
  lemma GroupPartsDiffer(lb: seq<Entry>, g: seq<Entry>, year: int, k: (nat, Identifier))
    requires OneStarPerChallenge(lb, PerYear) && Distinct(g)
    requires forall x :: x in g ==> x in lb && x.year == year && (x.day, x.id) == k
    ensures forall i, j :: 0 <= i < j < |g| ==> g[i].part != g[j].part
  {
    forall i, j | 0 <= i < j < |g| ensures g[i].part != g[j].part {
      assert g[i] in g && g[j] in g;
      assert !SameStar(g[i], g[j], PerYear);
    }
  }

  /** On a well-formed board a member has one or two stars on a day: the
      stars of a member-day are of different parts. */
  lemma GroupAtMostTwo(lb: seq<Entry>, year: int, k: (nat, Identifier))
    requires WellFormed(lb)
    requires k in EntriesPerDayMemberForYear(lb, year)
    ensures 1 <= |EntriesPerDayMemberForYear(lb, year)[k]| <= 2
  {
    var g := EntriesPerDayMemberForYear(lb, year)[k];
    GroupPartsDiffer(lb, g, year, k);
    forall i | 0 <= i < |g| ensures g[i].part == 1 || g[i].part == 2 {
      assert g[i] in g;
    }
    AtMostTwoParts(g);
  }

  /** On a well-formed board every member-day of the year has one or two
      stars and a day in `1..25`. */
  lemma GroupsShape(lb: seq<Entry>, year: int)
    requires WellFormed(lb)
    ensures forall k: (nat, Identifier) :: k in EntriesPerDayMemberForYear(lb, year) ==>
      1 <= |EntriesPerDayMemberForYear(lb, year)[k]| <= 2 && 1 <= k.0 <= Days
  {
    var groups := EntriesPerDayMemberForYear(lb, year);
    forall k | k in groups ensures 1 <= |groups[k]| <= 2 && 1 <= k.0 <= Days {
      GroupAtMostTwo(lb, year, k);
      assert groups[k][0] in groups[k];
    }
  }

  /** The members counted by `n_members` are the members of the year. */
  lemma KeyMembers(lb: seq<Entry>, year: int)
    ensures MembersIn(EntriesPerDayMemberForYear(lb, year)) == YearMembers(lb, year)
  {
    var groups := EntriesPerDayMemberForYear(lb, year);
    forall id | id in YearMembers(lb, year) ensures exists k :: k in groups && k.1 == id {
      var e :| e in lb && e.year == year && e.id == id;
      assert (e.day, e.id) in groups;
    }
    forall k | k in groups ensures k.1 in YearMembers(lb, year) {
      var e := groups[k][0];
      assert e in groups[k];
    }
  }

  /** The finishes listed are exactly the finished member-days, each with
      its gap. */
  ghost predicate FinishesOf(fs: seq<Finish>, groups: map<(nat, Identifier), seq<Entry>>)
  {
    forall f :: f in fs <==> FinishedIn(groups, f.0, f.1) && f.2 == GapIn(groups, f.0, f.1)
  }

  lemma ListsIsFinished(fs: seq<Finish>, groups: map<(nat, Identifier), seq<Entry>>, day: nat, id: Identifier)
    requires FinishesOf(fs, groups)
    ensures Lists(fs, day, id) <==> FinishedIn(groups, day, id)
  {
    if FinishedIn(groups, day, id) {
      assert (day, id, GapIn(groups, day, id)) in fs;
    }
  }

  /** The rankings list finishes of their day, shortest gap first. */
  ghost predicate RankingsOrdered(rk: seq<seq<Finish>>, fs: seq<Finish>)
  {
    (forall d, i :: 0 <= d < |rk| && 0 <= i < |rk[d]| ==> rk[d][i] in fs && rk[d][i].0 == d) &&
    (forall d, i, k :: 0 <= d < |rk| && 0 <= i < k < |rk[d]| ==> rk[d][i].2 <= rk[d][k].2)
  }

  lemma AllRankingsOrdered(fs: seq<Finish>)
    ensures RankingsOrdered(AllRankings(fs), fs)
  {
    var rk := AllRankings(fs);
    forall d | 0 <= d < |rk|
      ensures (forall i :: 0 <= i < |rk[d]| ==> rk[d][i] in fs && rk[d][i].0 == d)
      ensures (forall i, k :: 0 <= i < k < |rk[d]| ==> rk[d][i].2 <= rk[d][k].2)
    {
      DayRankingOfDay(fs, d);
      DayRankingSorted(fs, d);
    }
  }

  /** A ranking without repeated members is as long as its set of members. */
  lemma {:induction false} RankingSize(ranking: seq<Finish>, ids: set<Identifier>)
    requires DistinctIds(ranking)
    requires forall id :: id in ids <==> RankOf(ranking, id).Some?
    ensures |ranking| == |ids|
    decreases |ranking|
  {
    if ranking != [] {
      var rest := ranking[1..];
      assert DistinctIds(rest);
      forall id ensures id in ids - {ranking[0].1} <==> RankOf(rest, id).Some? {
        if RankOf(rest, id).Some? {
          var i := RankOf(rest, id).value;
          assert ranking[i + 1].1 == id;
          assert ranking[0].1 != ranking[i + 1].1;
        }
        if id in ids && id != ranking[0].1 {
          var i := RankOf(ranking, id).value;
          assert i > 0 && rest[i - 1].1 == id;
        }
      }
      RankingSize(rest, ids - {ranking[0].1});
      assert ranking[0].1 in ids by {
        assert RankOf(ranking, ranking[0].1).Some?;
      }
    } else {
      assert forall id :: id !in ids;
      assert ids == {};
    }
  }

  /** The result of the fold: exactly the members listed on some day have
      slots, 25 of them, and slot `j` holds the member's place in the
      ranking of day `j + 1`. */
  ghost predicate Folded(acc: map<Identifier, seq<DeltaSlot>>, rk: seq<seq<Finish>>, fs: seq<Finish>, members: nat)
  {
    |rk| == Days + 1 &&
    (forall id :: id in acc <==> exists d :: Lists(fs, d, id)) &&
    (forall id :: id in acc ==> |acc[id]| == Days) &&
    (forall id, j :: id in acc && 0 <= j < Days ==> acc[id][j] == SlotIn(rk[j + 1], id, members))
  }

  /** Once every day with a finisher is recorded, the fold is complete. */
  lemma RecordedFolded(acc: map<Identifier, seq<DeltaSlot>>, rk: seq<seq<Finish>>, fs: seq<Finish>, members: nat)
    requires Recorded(acc, rk, fs, set f | f in fs :: f.0, 0, 0, members)
    ensures Folded(acc, rk, fs, members)
  {
    var days := set f | f in fs :: f.0;
    assert rk[0][..0] == [];
    forall id ensures id in acc <==> exists d :: Lists(fs, d, id) {
      if exists d :: Lists(fs, d, id) {
        var d :| Lists(fs, d, id);
        var f :| f in fs && f.0 == d && f.1 == id;
        assert d in days;
      }
    }
    forall id, j | id in acc && 0 <= j < Days ensures acc[id][j] == SlotIn(rk[j + 1], id, members) {
      if j + 1 !in days {
        assert !Lists(fs, j + 1, id);
      }
    }
  }

  /** A day's ranking is as long as the day's finishers, never more than
      the members. */
  lemma RankedFinishers(groups: map<(nat, Identifier), seq<Entry>>, fs: seq<Finish>, rk: seq<seq<Finish>>, d: nat)
    requires FinishesOf(fs, groups) && Rankings(rk, fs) && d <= Days
    ensures |rk[d]| == |DayFinishersIn(groups, d)| <= |MembersIn(groups)|
  {
    forall x ensures x in DayFinishersIn(groups, d) <==> RankOf(rk[d], x).Some? {
      ListsIsFinished(fs, groups, d, x);
    }
    RankingSize(rk[d], DayFinishersIn(groups, d));
    SubsetCardinality(DayFinishersIn(groups, d), MembersIn(groups));
  }

  /** A member's slot on a day, in terms of the groups. */
  lemma SlotOnBoard(groups: map<(nat, Identifier), seq<Entry>>, fs: seq<Finish>, rk: seq<seq<Finish>>, acc: map<Identifier, seq<DeltaSlot>>,
                    members: nat, id: Identifier, j: nat)
    requires FinishesOf(fs, groups) && Rankings(rk, fs) && RankingsOrdered(rk, fs)
    requires Folded(acc, rk, fs, members)
    requires members == |MembersIn(groups)|
    requires id in acc && j < Days
    ensures !FinishedIn(groups, j + 1, id) ==> acc[id][j] == Unfinished
    ensures FinishedIn(groups, j + 1, id) ==>
      acc[id][j].delta == GapIn(groups, j + 1, id) &&
      1 <= acc[id][j].rank <= |DayFinishersIn(groups, j + 1)| &&
      acc[id][j].score == |MembersIn(groups)| + 1 - acc[id][j].rank >= 1
  {
    var d := j + 1;
    ListsIsFinished(fs, groups, d, id);
    if FinishedIn(groups, d, id) {
      RankedFinishers(groups, fs, rk, d);
      var i := RankOf(rk[d], id).value;
      assert rk[d][i] in fs;
    }
  }

  /** Two finishers of a day: their ranks differ, and the shorter gap
      ranks first. */
  lemma RanksInRanking(rk: seq<seq<Finish>>, fs: seq<Finish>, acc: map<Identifier, seq<DeltaSlot>>,
                       members: nat, a: Identifier, b: Identifier, j: nat)
    requires Rankings(rk, fs) && RankingsOrdered(rk, fs)
    requires Folded(acc, rk, fs, members)
    requires a in acc && b in acc && a != b && j < Days
    requires Lists(fs, j + 1, a) && Lists(fs, j + 1, b)
    ensures acc[a][j].rank != acc[b][j].rank
    ensures acc[a][j].delta < acc[b][j].delta ==> acc[a][j].rank < acc[b][j].rank
  {
    var d := j + 1;
    var ia, ib := RankOf(rk[d], a).value, RankOf(rk[d], b).value;
    if ib < ia {
      assert rk[d][ib].2 <= rk[d][ia].2;
    }
  }

  /** The members with slots are those who finished some day. */
  lemma KeysOnBoard(groups: map<(nat, Identifier), seq<Entry>>, fs: seq<Finish>, acc: map<Identifier, seq<DeltaSlot>>, members: nat)
    requires FinishesOf(fs, groups)
    requires Folded(acc, AllRankings(fs), fs, members)
    ensures acc.Keys == FinishersIn(groups)
  {
    forall id ensures id in acc <==> id in FinishersIn(groups) {
      if id in acc {
        var d :| Lists(fs, d, id);
        ListsIsFinished(fs, groups, d, id);
      }
      if id in FinishersIn(groups) {
        var k :| k in groups && |groups[k]| == 2 && k.1 == id;
        ListsIsFinished(fs, groups, k.0, id);
      }
    }
  }

  /** Every slot, in terms of the groups. */
  lemma SlotsOnBoard(groups: map<(nat, Identifier), seq<Entry>>, fs: seq<Finish>, acc: map<Identifier, seq<DeltaSlot>>, members: nat)
    requires FinishesOf(fs, groups) && OncePerMemberDay(fs)
    requires Folded(acc, AllRankings(fs), fs, members)
    requires members == |MembersIn(groups)|
    ensures forall id, j :: id in acc && 0 <= j < Days && !FinishedIn(groups, j + 1, id) ==> acc[id][j] == Unfinished
    ensures forall id, j :: id in acc && 0 <= j < Days && FinishedIn(groups, j + 1, id) ==>
      acc[id][j].delta == GapIn(groups, j + 1, id) &&
      1 <= acc[id][j].rank <= |DayFinishersIn(groups, j + 1)| &&
      acc[id][j].score == |MembersIn(groups)| + 1 - acc[id][j].rank >= 1
  {
    DayRankings(fs);
    AllRankingsOrdered(fs);
    forall id, j | id in acc && 0 <= j < Days
      ensures !FinishedIn(groups, j + 1, id) ==> acc[id][j] == Unfinished
      ensures FinishedIn(groups, j + 1, id) ==>
        acc[id][j].delta == GapIn(groups, j + 1, id) &&
        1 <= acc[id][j].rank <= |DayFinishersIn(groups, j + 1)| &&
        acc[id][j].score == |MembersIn(groups)| + 1 - acc[id][j].rank >= 1
    {
      SlotOnBoard(groups, fs, AllRankings(fs), acc, members, id, j);
    }
  }

  lemma PairOnBoard(groups: map<(nat, Identifier), seq<Entry>>, fs: seq<Finish>, rk: seq<seq<Finish>>, acc: map<Identifier, seq<DeltaSlot>>,
                    members: nat, a: Identifier, b: Identifier, j: nat)
    requires FinishesOf(fs, groups) && Rankings(rk, fs) && RankingsOrdered(rk, fs)
    requires Folded(acc, rk, fs, members)
    requires members == |MembersIn(groups)|
    requires a in acc && b in acc && a != b && j < Days
    requires FinishedIn(groups, j + 1, a) && FinishedIn(groups, j + 1, b)
    ensures acc[a][j].rank != acc[b][j].rank
    ensures GapIn(groups, j + 1, a) < GapIn(groups, j + 1, b) ==> acc[a][j].rank < acc[b][j].rank
  {
    ListsIsFinished(fs, groups, j + 1, a);
    ListsIsFinished(fs, groups, j + 1, b);
    SlotOnBoard(groups, fs, rk, acc, members, a, j);
    SlotOnBoard(groups, fs, rk, acc, members, b, j);
    RanksInRanking(rk, fs, acc, members, a, b, j);
  }

  /** The finishers of a day, in terms of the groups: their ranks differ,
      and the shorter gap ranks first. */
  lemma OrderOnBoard(groups: map<(nat, Identifier), seq<Entry>>, fs: seq<Finish>, acc: map<Identifier, seq<DeltaSlot>>, members: nat)
    requires FinishesOf(fs, groups) && OncePerMemberDay(fs)
    requires Folded(acc, AllRankings(fs), fs, members)
    requires members == |MembersIn(groups)|
    ensures forall a, b, j :: (a in acc && b in acc && a != b && 0 <= j < Days &&
      FinishedIn(groups, j + 1, a) && FinishedIn(groups, j + 1, b)) ==>
      acc[a][j].rank != acc[b][j].rank &&
      (GapIn(groups, j + 1, a) < GapIn(groups, j + 1, b) ==> acc[a][j].rank < acc[b][j].rank)
  {
    var rk := AllRankings(fs);
    forall a, b, j | a in acc && b in acc && a != b && 0 <= j < Days &&
      FinishedIn(groups, j + 1, a) && FinishedIn(groups, j + 1, b)
      ensures acc[a][j].rank != acc[b][j].rank
      ensures GapIn(groups, j + 1, a) < GapIn(groups, j + 1, b) ==> acc[a][j].rank < acc[b][j].rank
    {
      DayRankings(fs);
      AllRankingsOrdered(fs);
      PairOnBoard(groups, fs, rk, acc, members, a, b, j);
    }
  }

  /** What the result promises, on the groups of the year: exactly the
      members who finished some day have slots, 25 of them; a day the
      member did not finish is all zero; a finished day holds the time
      between the parts, the member's rank among that day's finishers and
      `n - rank + 1` points, `n` the number of members, never less than
      one; two finishers of a day have different ranks, the shorter gap
      ranking first. */
  ghost predicate DeltasIn(groups: map<(nat, Identifier), seq<Entry>>, slots: map<Identifier, seq<DeltaSlot>>)
  {
    slots.Keys == FinishersIn(groups) &&
    (forall id :: id in slots ==> |slots[id]| == Days) &&
    (forall id, j :: id in slots && 0 <= j < Days && !FinishedIn(groups, j + 1, id) ==> slots[id][j] == Unfinished) &&
    (forall id, j :: id in slots && 0 <= j < Days && FinishedIn(groups, j + 1, id) ==>
      slots[id][j].delta == GapIn(groups, j + 1, id) &&
      1 <= slots[id][j].rank <= |DayFinishersIn(groups, j + 1)| &&
      slots[id][j].score == |MembersIn(groups)| + 1 - slots[id][j].rank >= 1) &&
    (forall a, b, j :: (a in slots && b in slots && a != b && 0 <= j < Days &&
      FinishedIn(groups, j + 1, a) && FinishedIn(groups, j + 1, b)) ==>
      slots[a][j].rank != slots[b][j].rank &&
      (GapIn(groups, j + 1, a) < GapIn(groups, j + 1, b) ==> slots[a][j].rank < slots[b][j].rank))
  }

  /** `daily_delta_and_scores_per_member_for_year`, stated on the groups of
      the year's stars per day and member (their members are the members
      of the year, by `KeyMembers`). */
  method DailyDeltaAndScoresPerMemberForYear(lb: seq<Entry>, year: int) returns (slots: map<Identifier, seq<DeltaSlot>>)
    requires WellFormed(lb)
    ensures DeltasIn(EntriesPerDayMemberForYear(lb, year), slots)
  {
    var groups := EntriesPerDayMemberForYear(lb, year);
    var members := |set k | k in groups :: k.1|;
    assert members == |MembersIn(groups)|;
    GroupsShape(lb, year);
    var fs := FinishedDays(groups);
    slots := RecordRanks(fs, members);
    assert FinishesOf(fs, groups);
    KeysOnBoard(groups, fs, slots, members);
    SlotsOnBoard(groups, fs, slots, members);
    OrderOnBoard(groups, fs, slots, members);
  }
}

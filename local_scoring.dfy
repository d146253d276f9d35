/** The local-score rule of Advent of Code private leaderboards, shared by
    every snapshot of the bot: within one puzzle part, the star earned in
    0-based chronological position `r` is worth `N - r` points, where `N`
    is the number of members. Points are accumulated per member into 25
    daily slots, each holding the number of stars and the points of that
    day.

    The snapshots differ only in what they group by:
    - `PerYear`: the parts are (year, day, part) and members are counted
      per year, keyed by (year, member) (the core snapshot's
      `daily_scores_per_year_member`);
    - `Whole`: the parts are (day, part) and all members of the given
      entries are counted together, keyed by member (every other
      snapshot, which filters to one year first or holds one event). */
module LocalScoring {
  import opened Common
  import opened Sorting
  import opened Entries

  /** Number of daily slots. */
  const Days: nat := 25

  datatype Scope = PerYear | Whole

  /** One puzzle part; `season` is the year under `PerYear` and 0 otherwise. */
  datatype Challenge = Challenge(season: int, day: nat, part: nat)

  datatype MemberKey = MemberKey(season: int, id: Identifier)

  /** One day's slot: stars earned and points earned. */
  datatype Slot = Slot(stars: nat, score: int)

  function Season(e: Entry, scope: Scope): int
  {
    if scope.PerYear? then e.year else 0
  }

  function ChallengeOf(e: Entry, scope: Scope): Challenge
  {
    Challenge(Season(e, scope), e.day, e.part)
  }

  function KeyOf(e: Entry, scope: Scope): MemberKey
  {
    MemberKey(Season(e, scope), e.id)
  }

  /** Two stars of one member for one puzzle part. */
  predicate SameStar(a: Entry, b: Entry, scope: Scope)
  {
    a.id == b.id && ChallengeOf(a, scope) == ChallengeOf(b, scope)
  }

  /** A member holds at most one star of any puzzle part. */
  predicate OneStarPerChallenge(es: seq<Entry>, scope: Scope)
  {
    forall a, b {:trigger SameStar(a, b, scope)} :: a in es && b in es && SameStar(a, b, scope) ==> a == b
  }

  /** What scoring needs: distinct stars (a set, or the one record per star
      that parsing produces), one star per member and part, and days 1 to
      25, since the slot index `day - 1` must exist. */
  predicate Scorable(es: seq<Entry>, scope: Scope)
  {
    Distinct(es) && (forall e :: e in es ==> 1 <= e.day <= Days) && OneStarPerChallenge(es, scope)
  }

  function Members(es: seq<Entry>, scope: Scope, season: int): set<Identifier>
  {
    set e | e in es && Season(e, scope) == season :: e.id
  }

  /** `N`: the number of distinct members of the season. */
  function MemberCount(es: seq<Entry>, scope: Scope, season: int): nat
  {
    |Members(es, scope, season)|
  }

  function Challenges(es: seq<Entry>, scope: Scope): set<Challenge>
  {
    set e | e in es :: ChallengeOf(e, scope)
  }

  function KeysIn(es: seq<Entry>, scope: Scope): set<MemberKey>
  {
    set e | e in es :: KeyOf(e, scope)
  }

  /** The stars of one part, in the given order. */
  function Group(es: seq<Entry>, scope: Scope, c: Challenge): seq<Entry>
  {
    Filter(es, e => ChallengeOf(e, scope) == c)
  }

  /** The stars of one part, chronologically (the derived order on entries,
      timestamp first). */
  function Ranked(es: seq<Entry>, scope: Scope, c: Challenge): (r: seq<Entry>)
    ensures Chronological(r)
    ensures multiset(r) == multiset(Group(es, scope, c))
  {
    SortEntries(Group(es, scope, c))
  }

  /** 0-based chronological position of a star within its part: the number
      of stars of the same part that come strictly before it. */
  function Rank(es: seq<Entry>, scope: Scope, e: Entry): nat
  {
    Count(es, x => ChallengeOf(x, scope) == ChallengeOf(e, scope) && EntryLt(x, e))
  }

  /** Points of one star: `N - r`. */
  function StarScore(es: seq<Entry>, scope: Scope, e: Entry): int
  {
    MemberCount(es, scope, Season(e, scope)) - Rank(es, scope, e)
  }

  predicate InSlot(e: Entry, scope: Scope, k: MemberKey, day: nat)
  {
    KeyOf(e, scope) == k && e.day == day
  }

  /** Stars among `xs` of member `k` on `day`. */
  function SlotStars(xs: seq<Entry>, scope: Scope, k: MemberKey, day: nat): nat
  {
    if xs == [] then 0
    else SlotStars(xs[..|xs| - 1], scope, k, day) + (if InSlot(xs[|xs| - 1], scope, k, day) then 1 else 0)
  }

  /** Points of those stars, each scored within the whole board `es`. */
  function SlotScore(xs: seq<Entry>, es: seq<Entry>, scope: Scope, k: MemberKey, day: nat): int
  {
    if xs == [] then 0
    else
      SlotScore(xs[..|xs| - 1], es, scope, k, day) +
      (if InSlot(xs[|xs| - 1], scope, k, day) then StarScore(es, scope, xs[|xs| - 1]) else 0)
  }

  /** The 25 slots of member `k` over the stars `xs`. */
  function SlotsOf(xs: seq<Entry>, es: seq<Entry>, scope: Scope, k: MemberKey): (slots: seq<Slot>)
    ensures |slots| == Days
  {
    seq(Days, i requires 0 <= i < Days => Slot(SlotStars(xs, scope, k, i + 1), SlotScore(xs, es, scope, k, i + 1)))
  }

  /** The 25 slots of a member, as the scoring specifies them: slot `d - 1`
      holds the member's stars of day `d` and the sum of their scores. */
  function DailySlots(es: seq<Entry>, scope: Scope, k: MemberKey): (slots: seq<Slot>)
    ensures |slots| == Days
  {
    SlotsOf(es, es, scope, k)
  }

  function EmptySlots(): (slots: seq<Slot>)
    ensures |slots| == Days && forall i :: 0 <= i < Days ==> slots[i] == Slot(0, 0)
  {
    seq(Days, _ => Slot(0, 0))
  }

  // ---------------------------------------------------------------------
  // The accumulation
  // ---------------------------------------------------------------------

  /** Record one star worth `points` on `day` (slot `day - 1`). */
  function AddStar(slots: seq<Slot>, day: nat, points: int): (r: seq<Slot>)
    requires 1 <= day <= |slots|
    ensures |r| == |slots|
    ensures r[day - 1] == Slot(slots[day - 1].stars + 1, slots[day - 1].score + points)
    ensures forall i :: 0 <= i < |slots| && i != day - 1 ==> r[i] == slots[i]
  {
    slots[day - 1 := Slot(slots[day - 1].stars + 1, slots[day - 1].score + points)]
  }

  /** `acc` holds the slots of exactly the members with a star in `xs`. */
  predicate SlotsMatch(acc: map<MemberKey, seq<Slot>>, xs: seq<Entry>, es: seq<Entry>, scope: Scope)
  {
    acc.Keys == KeysIn(xs, scope) && forall k :: k in acc ==> acc[k] == SlotsOf(xs, es, scope, k)
  }

  /** Stars of the parts no longer in `remaining`. */
  function Done(es: seq<Entry>, scope: Scope, remaining: set<Challenge>): seq<Entry>
  {
    Filter(es, e => ChallengeOf(e, scope) !in remaining)
  }

  /** One part of the fold: walk the part's stars in chronological order,
      adding one star and `N - r` points to the slot of the member and day
      of the star at position `r`. */
  method ScorePart(es: seq<Entry>, scope: Scope, c: Challenge, acc0: map<MemberKey, seq<Slot>>, ghost before: seq<Entry>)
    returns (acc: map<MemberKey, seq<Slot>>)
    requires Scorable(es, scope)
    requires SlotsMatch(acc0, before, es, scope)
    ensures SlotsMatch(acc, before + Ranked(es, scope, c), es, scope)
  {
    acc := acc0;
    var ranked := Ranked(es, scope, c);
    var n := MemberCount(es, scope, c.season);
    var r := 0;
    assert before + ranked[..0] == before;
    while r < |ranked|
      invariant 0 <= r <= |ranked|
      invariant SlotsMatch(acc, before + ranked[..r], es, scope)
    {
      var e := ranked[r];
      var k := KeyOf(e, scope);
      var current := if k in acc then acc[k] else EmptySlots();
      RankedPosition(es, scope, c, r);
      ScoreStep(es, scope, ranked, n, acc, before, r, current);
      acc := acc[k := AddStar(current, e.day, n - r)];
      r := r + 1;
    }
    assert ranked[..|ranked|] == ranked;
  }

  /** The fold of the source, part after part: every member with a star
      gets 25 slots, and each slot holds exactly that member's stars of that
      day and the sum of their scores. */
  method DailyScores(es: seq<Entry>, scope: Scope) returns (acc: map<MemberKey, seq<Slot>>)
    requires Scorable(es, scope)
    ensures acc.Keys == KeysIn(es, scope)
    ensures forall k :: k in acc ==> acc[k] == DailySlots(es, scope, k)
  {
    acc := map[];
    var remaining := Challenges(es, scope);
    ghost var processed: seq<Entry> := [];
    DoneNone(es, scope);
    while remaining != {}
      invariant remaining <= Challenges(es, scope)
      invariant multiset(processed) == multiset(Done(es, scope, remaining))
      invariant SlotsMatch(acc, processed, es, scope)
      decreases remaining
    {
      var c :| c in remaining;
      acc := ScorePart(es, scope, c, acc, processed);
      DoneStep(es, scope, remaining, c);
      processed := processed + Ranked(es, scope, c);
      remaining := remaining - {c};
    }
    DoneAll(es, scope);
    KeysPermutation(processed, es, scope);
    forall k | k in acc
      ensures acc[k] == DailySlots(es, scope, k)
    {
      SlotsPermutation(processed, es, es, scope, k);
    }
  }

  // ---------------------------------------------------------------------
  // Lemmas used by the accumulation
  // ---------------------------------------------------------------------

  lemma DoneNone(es: seq<Entry>, scope: Scope)
    ensures multiset(Done(es, scope, Challenges(es, scope))) == multiset{}
  {
    var remaining := Challenges(es, scope);
    CountNone(es, e => ChallengeOf(e, scope) !in remaining);
  }

  lemma DoneAll(es: seq<Entry>, scope: Scope)
    ensures multiset(Done(es, scope, {})) == multiset(es)
  {
    var remaining: set<Challenge> := {};
    FilterKeepsAll(es, e => ChallengeOf(e, scope) !in remaining);
  }

  /** Finishing part `c` moves its stars into the done set. */
  lemma DoneStep(es: seq<Entry>, scope: Scope, remaining: set<Challenge>, c: Challenge)
    requires c in remaining
    ensures multiset(Done(es, scope, remaining - {c})) ==
            multiset(Done(es, scope, remaining)) + multiset(Ranked(es, scope, c))
  {
    var rest := remaining - {c};
    FilterDisjointUnion(es, e => ChallengeOf(e, scope) !in remaining, e => ChallengeOf(e, scope) == c,
                        e => ChallengeOf(e, scope) !in rest);
  }

  lemma KeysPermutation(xs: seq<Entry>, ys: seq<Entry>, scope: Scope)
    requires multiset(xs) == multiset(ys)
    ensures KeysIn(xs, scope) == KeysIn(ys, scope)
  {
    assert forall x :: x in xs <==> x in multiset(ys);
  }

  lemma {:induction false} SlotsAbsentRec(xs: seq<Entry>, es: seq<Entry>, scope: Scope, k: MemberKey, day: nat)
    requires k !in KeysIn(xs, scope)
    ensures SlotStars(xs, scope, k, day) == 0 && SlotScore(xs, es, scope, k, day) == 0
    decreases |xs|
  {
    if xs != [] {
      var init := xs[..|xs| - 1];
      assert KeysIn(init, scope) <= KeysIn(xs, scope) by {
        assert forall x :: x in init ==> x in xs;
      }
      SlotsAbsentRec(init, es, scope, k, day);
    }
  }

  /** A member without stars has empty slots. */
  lemma SlotsAbsent(xs: seq<Entry>, es: seq<Entry>, scope: Scope, k: MemberKey)
    requires k !in KeysIn(xs, scope)
    ensures SlotsOf(xs, es, scope, k) == EmptySlots()
  {
    forall i | 0 <= i < Days ensures SlotsOf(xs, es, scope, k)[i] == Slot(0, 0) {
      SlotsAbsentRec(xs, es, scope, k, i + 1);
    }
  }

  /** Adding one star changes only the slot of its member and day. */
  lemma SlotsAppend(xs: seq<Entry>, x: Entry, es: seq<Entry>, scope: Scope, k: MemberKey)
    requires 1 <= x.day <= Days
    ensures k != KeyOf(x, scope) ==> SlotsOf(xs + [x], es, scope, k) == SlotsOf(xs, es, scope, k)
    ensures k == KeyOf(x, scope) ==>
      SlotsOf(xs + [x], es, scope, k) == AddStar(SlotsOf(xs, es, scope, k), x.day, StarScore(es, scope, x))
  {
    assert (xs + [x])[..|xs|] == xs;
  }

  /** One step of the fold keeps the accumulator in step with the stars
      visited so far. */
  lemma MatchStep(acc: map<MemberKey, seq<Slot>>, xs: seq<Entry>, x: Entry, es: seq<Entry>, scope: Scope,
                  current: seq<Slot>, points: int, next: map<MemberKey, seq<Slot>>, ys: seq<Entry>)
    requires SlotsMatch(acc, xs, es, scope)
    requires 1 <= x.day <= Days
    requires current == if KeyOf(x, scope) in acc then acc[KeyOf(x, scope)] else EmptySlots()
    requires points == StarScore(es, scope, x)
    requires |current| == Days
    requires next == acc[KeyOf(x, scope) := AddStar(current, x.day, points)]
    requires ys == xs + [x]
    ensures SlotsMatch(next, ys, es, scope)
  {
    var k := KeyOf(x, scope);
    if k !in acc {
      SlotsAbsent(xs, es, scope, k);
    }
    assert KeysIn(xs + [x], scope) == KeysIn(xs, scope) + {k};
    SlotsAppend(xs, x, es, scope, k);
    forall k' | k' in acc && k' != k
      ensures SlotsOf(xs + [x], es, scope, k') == acc[k']
    {
      SlotsAppend(xs, x, es, scope, k');
    }
  }

  lemma {:induction false} SlotStarsIsCount(xs: seq<Entry>, scope: Scope, k: MemberKey, day: nat)
    ensures SlotStars(xs, scope, k, day) == Count(xs, x => InSlot(x, scope, k, day))
    decreases |xs|
  {
    if xs != [] {
      SlotStarsIsCount(xs[..|xs| - 1], scope, k, day);
    }
  }

  lemma {:induction false} SlotScoreIsSum(xs: seq<Entry>, es: seq<Entry>, scope: Scope, k: MemberKey, day: nat)
    ensures SlotScore(xs, es, scope, k, day) ==
            SumBy(xs, x => if InSlot(x, scope, k, day) then StarScore(es, scope, x) else 0)
    decreases |xs|
  {
    if xs != [] {
      SlotScoreIsSum(xs[..|xs| - 1], es, scope, k, day);
    }
  }

  /** Slots do not depend on the order in which the stars are visited. */
  lemma SlotsPermutation(xs: seq<Entry>, ys: seq<Entry>, es: seq<Entry>, scope: Scope, k: MemberKey)
    requires multiset(xs) == multiset(ys)
    ensures SlotsOf(xs, es, scope, k) == SlotsOf(ys, es, scope, k)
  {
    forall i | 0 <= i < Days ensures SlotsOf(xs, es, scope, k)[i] == SlotsOf(ys, es, scope, k)[i] {
      var day := i + 1;
      SlotStarsIsCount(xs, scope, k, day);
      SlotStarsIsCount(ys, scope, k, day);
      CountPermutation(xs, ys, x => InSlot(x, scope, k, day));
      SlotScoreIsSum(xs, es, scope, k, day);
      SlotScoreIsSum(ys, es, scope, k, day);
      SumByPermutation(xs, ys, x => if InSlot(x, scope, k, day) then StarScore(es, scope, x) else 0);
    }
  }

  /** The star at position `r` of a part adds `N - r` points to the slot
      of its member and day. */
  lemma ScoreStep(es: seq<Entry>, scope: Scope, ranked: seq<Entry>, n: int,
                  acc: map<MemberKey, seq<Slot>>, before: seq<Entry>, r: nat, current: seq<Slot>)
    requires r < |ranked| && 1 <= ranked[r].day <= Days
    requires StarScore(es, scope, ranked[r]) == n - r
    requires SlotsMatch(acc, before + ranked[..r], es, scope)
    requires current == if KeyOf(ranked[r], scope) in acc then acc[KeyOf(ranked[r], scope)] else EmptySlots()
    ensures |current| == Days
    ensures SlotsMatch(acc[KeyOf(ranked[r], scope) := AddStar(current, ranked[r].day, n - r)],
                       before + ranked[..r + 1], es, scope)
  {
    var e := ranked[r];
    var xs := before + ranked[..r];
    var k := KeyOf(e, scope);
    assert |current| == Days by {
      if k in acc {
        assert acc[k] == SlotsOf(xs, es, scope, k);
      }
    }
    AppendSlice(before, ranked, r);
    MatchStep(acc, xs, e, es, scope, current, n - r, acc[k := AddStar(current, e.day, n - r)], before + ranked[..r + 1]);
  }

  /** A part's stars have pairwise different members. */
  lemma GroupMembersDistinct(es: seq<Entry>, scope: Scope, c: Challenge)
    requires Scorable(es, scope)
    ensures Distinct(Group(es, scope, c))
    ensures |Group(es, scope, c)| <= MemberCount(es, scope, c.season)
  {
    var g := Group(es, scope, c);
    FilterDistinct(es, e => ChallengeOf(e, scope) == c);
    forall i, j | 0 <= i < j < |g| ensures g[i].id != g[j].id {
      assert g[i] in g && g[j] in g;
      assert ChallengeOf(g[i], scope) == c == ChallengeOf(g[j], scope);
      assert !SameStar(g[i], g[j], scope);
    }
    var idOf := (x: Entry) => x.id;
    ImageCardinality(g, idOf);
    forall x | x in g ensures idOf(x) in Members(es, scope, c.season) {
      assert x in es && Season(x, scope) == c.season;
    }
    ImageSubset(g, idOf, Members(es, scope, c.season));
    SubsetCardinality(Image(g, idOf), Members(es, scope, c.season));
  }

  /** The star at position `r` of a ranked part has rank `r` and scores
      `N - r`, which is at least 1. */
  lemma RankedPosition(es: seq<Entry>, scope: Scope, c: Challenge, r: nat)
    requires Scorable(es, scope)
    requires r < |Ranked(es, scope, c)|
    ensures Ranked(es, scope, c)[r] in es
    ensures ChallengeOf(Ranked(es, scope, c)[r], scope) == c
    ensures Rank(es, scope, Ranked(es, scope, c)[r]) == r
    ensures StarScore(es, scope, Ranked(es, scope, c)[r]) == MemberCount(es, scope, c.season) - r >= 1
  {
    var g := Group(es, scope, c);
    var ranked := Ranked(es, scope, c);
    var e := ranked[r];
    assert e in multiset(g);
    GroupMembersDistinct(es, scope, c);
    assert |ranked| == |multiset(ranked)| == |multiset(g)| == |g|;
    var before := x => EntryLt(x, e);
    assert e in g;
    assert ChallengeOf(e, scope) == c;
    CountFilter(es, x => ChallengeOf(x, scope) == c, before,
                x => ChallengeOf(x, scope) == ChallengeOf(e, scope) && EntryLt(x, e));
    CountPermutation(g, ranked, before);
    DistinctPermutation(g, ranked);
    EntryLeTotalOrder();
    forall x ensures before(x) <==> EntryLe(x, e) && x != e {
      EntryLtStrict(x, e, x);
    }
    ChronologicalSorted(ranked);
    SortedPositionIsRank(ranked, EntryLe, r, before);
  }

  /** The solvers of part `c`, in chronological order. */
  function RankedIds(es: seq<Entry>, scope: Scope, c: Challenge): seq<Identifier>
  {
    MapSeq(Ranked(es, scope, c), (e: Entry) => e.id)
  }

  /** `ids` lists the solvers of part `c` by rank: position `r` holds the
      member whose star has rank `r`, no member twice, at most `N` of them. */
  ghost predicate SolversByRank(es: seq<Entry>, scope: Scope, c: Challenge, ids: seq<Identifier>)
  {
    Distinct(ids) && |ids| <= MemberCount(es, scope, c.season) &&
    forall r :: 0 <= r < |ids| ==> HoldsRank(es, scope, c, ids[r], r)
  }

  /** Member `id` has a star of part `c` with rank `r`. */
  ghost predicate HoldsRank(es: seq<Entry>, scope: Scope, c: Challenge, id: Identifier, r: nat)
  {
    exists e :: e in es && ChallengeOf(e, scope) == c && e.id == id && Rank(es, scope, e) == r
  }

  lemma RankedIdsFacts(es: seq<Entry>, scope: Scope, c: Challenge)
    requires Scorable(es, scope)
    ensures |RankedIds(es, scope, c)| == |Group(es, scope, c)|
    ensures SolversByRank(es, scope, c, RankedIds(es, scope, c))
  {
    RankedIdsSize(es, scope, c);
    RankedIdsRanks(es, scope, c);
    RankedIdsDistinct(es, scope, c);
  }

  lemma RankedIdsSize(es: seq<Entry>, scope: Scope, c: Challenge)
    requires Scorable(es, scope)
    ensures |RankedIds(es, scope, c)| == |Group(es, scope, c)| <= MemberCount(es, scope, c.season)
  {
    var ranked := Ranked(es, scope, c);
    assert |ranked| == |multiset(ranked)| == |multiset(Group(es, scope, c))|;
    GroupMembersDistinct(es, scope, c);
  }

  lemma RankedIdsRanks(es: seq<Entry>, scope: Scope, c: Challenge)
    requires Scorable(es, scope)
    ensures forall r :: 0 <= r < |RankedIds(es, scope, c)| ==> HoldsRank(es, scope, c, RankedIds(es, scope, c)[r], r)
  {
    var ids := RankedIds(es, scope, c);
    forall r | 0 <= r < |ids| ensures HoldsRank(es, scope, c, ids[r], r) {
      RankedPosition(es, scope, c, r);
      var e := Ranked(es, scope, c)[r];
      assert e.id == ids[r];
      assert e in es && ChallengeOf(e, scope) == c && Rank(es, scope, e) == r;
    }
  }

  lemma RankedIdsDistinct(es: seq<Entry>, scope: Scope, c: Challenge)
    requires Scorable(es, scope)
    ensures Distinct(RankedIds(es, scope, c))
  {
    var ids := RankedIds(es, scope, c);
    var ranked := Ranked(es, scope, c);
    forall i, j | 0 <= i < j < |ids| ensures ids[i] != ids[j] {
      RankedPosition(es, scope, c, i);
      RankedPosition(es, scope, c, j);
      RankedDistinct(es, scope, c, i, j);
      assert !SameStar(ranked[i], ranked[j], scope);
    }
  }

  lemma RankedDistinct(es: seq<Entry>, scope: Scope, c: Challenge, i: nat, j: nat)
    requires Scorable(es, scope)
    requires i < j < |Ranked(es, scope, c)|
    ensures Ranked(es, scope, c)[i] != Ranked(es, scope, c)[j]
  {
    var ranked := Ranked(es, scope, c);
    GroupMembersDistinct(es, scope, c);
    DistinctPermutation(Group(es, scope, c), ranked);
  }

  /** `ranked_members_per_…`: for every part, its solvers in chronological
      order. Position `r` holds the member whose star has rank `r`, and no
      member is listed twice. */
  function RankedMembers(es: seq<Entry>, scope: Scope): (m: map<Challenge, seq<Identifier>>)
    requires Scorable(es, scope)
    ensures m.Keys == Challenges(es, scope)
    ensures forall c :: c in m ==> SolversByRank(es, scope, c, m[c])
  {
    var m := map c | c in Challenges(es, scope) :: RankedIds(es, scope, c);
    forall c | c in m ensures SolversByRank(es, scope, c, m[c]) {
      RankedIdsFacts(es, scope, c);
    }
    m
  }

  // ---------------------------------------------------------------------
  // Properties of the rule
  // ---------------------------------------------------------------------

  /** Every star is worth between 1 and `N` points. */
  lemma StarScoreBounds(es: seq<Entry>, scope: Scope, e: Entry)
    requires Scorable(es, scope) && e in es
    ensures 1 <= StarScore(es, scope, e) <= MemberCount(es, scope, Season(e, scope))
  {
    var c := ChallengeOf(e, scope);
    var ranked := Ranked(es, scope, c);
    assert e in multiset(Group(es, scope, c));
    var r :| 0 <= r < |ranked| && ranked[r] == e;
    RankedPosition(es, scope, c, r);
  }

  /** Of two stars of one part, the earlier one is worth strictly more. */
  lemma EarlierStarScoresMore(es: seq<Entry>, scope: Scope, a: Entry, b: Entry)
    requires a in es && b in es
    requires ChallengeOf(a, scope) == ChallengeOf(b, scope) && EntryLt(a, b)
    ensures StarScore(es, scope, a) > StarScore(es, scope, b)
  {
    forall x | x in es
      ensures (ChallengeOf(x, scope) == ChallengeOf(a, scope) && EntryLt(x, a)) ==>
              (ChallengeOf(x, scope) == ChallengeOf(b, scope) && EntryLt(x, b))
    {
      EntryLtStrict(x, a, b);
    }
    EntryLtStrict(a, a, a);
    CountMonotone(es, x => ChallengeOf(x, scope) == ChallengeOf(a, scope) && EntryLt(x, a),
                      x => ChallengeOf(x, scope) == ChallengeOf(b, scope) && EntryLt(x, b));
  }

  /** Points awarded to the first `k` positions of a part with `n` members:
      `n + (n - 1) + ... + (n - k + 1)`. */
  function PositionScores(n: int, k: nat): int
  {
    if k == 0 then 0 else PositionScores(n, k - 1) + (n - (k - 1))
  }

  lemma {:induction false} PositionScoresClosedForm(n: int, k: nat)
    ensures 2 * PositionScores(n, k) == k * (2 * n - k + 1)
  {
    if k > 0 {
      PositionScoresClosedForm(n, k - 1);
    }
  }

  /** Score conservation: the `k` stars of one part award
      `Σ_{r<k} (N - r)` points in total, whatever their order. */
  lemma GroupScoreConservation(es: seq<Entry>, scope: Scope, c: Challenge)
    requires Scorable(es, scope)
    ensures SumBy(Group(es, scope, c), x => StarScore(es, scope, x)) ==
            PositionScores(MemberCount(es, scope, c.season), |Group(es, scope, c)|)
  {
    var ranked := Ranked(es, scope, c);
    var f := x => StarScore(es, scope, x);
    SumByPermutation(Group(es, scope, c), ranked, f);
    assert |ranked| == |multiset(ranked)| == |Group(es, scope, c)|;
    RankedPrefixScore(es, scope, c, |ranked|);
    assert ranked[..|ranked|] == ranked;
  }

  lemma {:induction false} RankedPrefixScore(es: seq<Entry>, scope: Scope, c: Challenge, j: nat)
    requires Scorable(es, scope)
    requires j <= |Ranked(es, scope, c)|
    ensures SumBy(Ranked(es, scope, c)[..j], x => StarScore(es, scope, x)) ==
            PositionScores(MemberCount(es, scope, c.season), j)
  {
    if j > 0 {
      var ranked := Ranked(es, scope, c);
      assert ranked[..j][..j - 1] == ranked[..j - 1];
      RankedPrefixScore(es, scope, c, j - 1);
      RankedPosition(es, scope, c, j - 1);
    }
  }

  /** A slot's star count is the number of the member's stars that day;
      where parts are only 1 and 2 it is at most 2. */
  lemma SlotStarsAtMostTwo(es: seq<Entry>, scope: Scope, k: MemberKey, day: nat)
    requires Scorable(es, scope)
    requires forall e :: e in es ==> e.part == 1 || e.part == 2
    ensures SlotStars(es, scope, k, day) == |Filter(es, x => InSlot(x, scope, k, day))|
    ensures SlotStars(es, scope, k, day) <= 2
  {
    var inSlot := x => InSlot(x, scope, k, day);
    SlotStarsIsCount(es, scope, k, day);
    var g := Filter(es, inSlot);
    FilterDistinct(es, inSlot);
    forall i, j | 0 <= i < j < |g| ensures g[i].part != g[j].part {
      assert g[i] in g && g[j] in g;
      assert g[i] in es && g[j] in es && InSlot(g[i], scope, k, day) && InSlot(g[j], scope, k, day);
      assert g[i] != g[j] && g[i].id == g[j].id;
      assert !SameStar(g[i], g[j], scope);
    }
    var partOf := (x: Entry) => x.part;
    ImageCardinality(g, partOf);
    forall x | x in g ensures partOf(x) in {1, 2} {
      assert x in es;
    }
    ImageSubset(g, partOf, {1, 2});
    SubsetCardinality(Image(g, partOf), {1, 2});
  }

  /** Every slot scores at least one point per star. */
  lemma SlotScoreAtLeastStars(xs: seq<Entry>, es: seq<Entry>, scope: Scope, k: MemberKey, day: nat)
    requires Scorable(es, scope)
    requires forall x :: x in xs ==> x in es
    ensures SlotScore(xs, es, scope, k, day) >= SlotStars(xs, scope, k, day)
    decreases |xs|
  {
    if xs != [] {
      var init := xs[..|xs| - 1];
      assert forall x :: x in init ==> x in xs;
      SlotScoreAtLeastStars(init, es, scope, k, day);
      StarScoreBounds(es, scope, xs[|xs| - 1]);
    }
  }

  // ---------------------------------------------------------------------
  // Totals
  // ---------------------------------------------------------------------

  function SlotScores(slots: seq<Slot>): (scores: seq<int>)
    ensures |scores| == |slots|
    ensures forall i :: 0 <= i < |slots| ==> scores[i] == slots[i].score
  {
    seq(|slots|, i requires 0 <= i < |slots| => slots[i].score)
  }

  /** All of the member's star scores, whatever the day. */
  function MemberScore(xs: seq<Entry>, es: seq<Entry>, scope: Scope, k: MemberKey): int
  {
    if xs == [] then 0
    else
      MemberScore(xs[..|xs| - 1], es, scope, k) +
      (if KeyOf(xs[|xs| - 1], scope) == k then StarScore(es, scope, xs[|xs| - 1]) else 0)
  }

  /** Points of the member's stars on days 1 to `d`. */
  function MemberScoreUpTo(xs: seq<Entry>, es: seq<Entry>, scope: Scope, k: MemberKey, d: nat): int
  {
    if xs == [] then 0
    else
      var x := xs[|xs| - 1];
      MemberScoreUpTo(xs[..|xs| - 1], es, scope, k, d) +
      (if KeyOf(x, scope) == k && 1 <= x.day <= d then StarScore(es, scope, x) else 0)
  }

  lemma {:induction false} MemberScoreUpToStep(xs: seq<Entry>, es: seq<Entry>, scope: Scope, k: MemberKey, d: nat)
    requires d >= 1
    ensures MemberScoreUpTo(xs, es, scope, k, d) ==
            MemberScoreUpTo(xs, es, scope, k, d - 1) + SlotScore(xs, es, scope, k, d)
    decreases |xs|
  {
    if xs != [] {
      MemberScoreUpToStep(xs[..|xs| - 1], es, scope, k, d);
    }
  }

  lemma {:induction false} MemberScoreUpToAll(xs: seq<Entry>, es: seq<Entry>, scope: Scope, k: MemberKey)
    requires forall x :: x in xs ==> 1 <= x.day <= Days
    ensures MemberScoreUpTo(xs, es, scope, k, Days) == MemberScore(xs, es, scope, k)
    decreases |xs|
  {
    if xs != [] {
      var init := xs[..|xs| - 1];
      assert forall x :: x in init ==> x in xs;
      MemberScoreUpToAll(init, es, scope, k);
    }
  }

  lemma {:induction false} SlotsPrefixSum(es: seq<Entry>, scope: Scope, k: MemberKey, d: nat)
    requires d <= Days
    ensures Sum(SlotScores(DailySlots(es, scope, k))[..d]) == MemberScoreUpTo(es, es, scope, k, d)
  {
    if d == 0 {
      MemberScoreUpToZero(es, es, scope, k);
    } else {
      var scores := SlotScores(DailySlots(es, scope, k));
      assert scores[..d][..d - 1] == scores[..d - 1];
      SlotsPrefixSum(es, scope, k, d - 1);
      MemberScoreUpToStep(es, es, scope, k, d);
    }
  }

  lemma {:induction false} MemberScoreUpToZero(xs: seq<Entry>, es: seq<Entry>, scope: Scope, k: MemberKey)
    ensures MemberScoreUpTo(xs, es, scope, k, 0) == 0
    decreases |xs|
  {
    if xs != [] {
      MemberScoreUpToZero(xs[..|xs| - 1], es, scope, k);
    }
  }

  /** The sum of a member's 25 slots is the sum of the scores of all the
      member's stars: no star is lost or counted twice. */
  lemma LocalScoreIsSumOfStarScores(es: seq<Entry>, scope: Scope, k: MemberKey)
    requires Scorable(es, scope)
    ensures Sum(SlotScores(DailySlots(es, scope, k))) == MemberScore(es, es, scope, k)
  {
    var scores := SlotScores(DailySlots(es, scope, k));
    assert scores[..Days] == scores;
    SlotsPrefixSum(es, scope, k, Days);
    MemberScoreUpToAll(es, es, scope, k);
  }
}

# Leaderboard model of christmas-elf-officer

christmas-elf-officer is a Slack bot that follows Advent of Code leaderboards.
It reads the stars of a private leaderboard and the daily global top 100, and
posts standings, daily summaries and "Tour de France" jerseys. This project
models the bot's leaderboard data model and scoring engine in Dafny and
proves what it promises.

The repository holds several generations of the same engine:

- the core snapshot (`src/core/*`): a set of star entries across years;
- the aoc snapshot (`src/aoc/*`): a private board of one event plus the global
  top 100 of one day;
- the client snapshot (`src/client/aoc.rs`): the board built from the private
  leaderboard JSON.

All of them use one `Entry` type here (`Entries`). It has a timestamp in whole
seconds, a year, a day, a part, a member `Identifier` (name, numeric id, the
snapshot's extra score field) and an optional rank. Its derived order compares
the timestamp first, like the Rust `#[derive(Ord)]`.

The modules:

- **Common, Strings, Sorting, Calendar:** sequences, sums, counts, grouping,
  the decimal rendering and parsing of integers, padding, stable insertion
  sort, and proleptic Gregorian date arithmetic as chrono does it.
- **Entries:** parts, release times, durations since release, entry keys.
- **LocalScoring:** the local-score rule shared by every snapshot. The star at
  0-based chronological position `r` of a puzzle part earns `N - r` points,
  where `N` is the number of members. It is an imperative fold into 25 daily
  slots, proved against a specification, with score conservation per part.
- **CoreLeaderboard, CoreDailyDelta, CoreStandings:** the core snapshot. It
  covers groupings, the score folds, min/max times, delta standings and
  statistics of a day, the merge of two scraped boards, time/board standings,
  and the yellow and green jerseys.
- **AocLeaderboard, AocStandings:** the aoc snapshot. It covers the private
  board's standings and diffs, and the global board's ranks, deltas with
  inference for members that placed in one part only, and private-member
  detection.
- **ClientAoc:** endpoint paths, and the record-building loops of
  `parse_private_leaderboard` over an already decoded response.
- **Utils, Templates, Events, Display, Layout, Commands:**
  - the ordinal suffix;
  - the refusals of a (year, day) request;
  - the medal/position prefixes of the daily summary;
  - the ASCII board and tables;
  - the chat command prefixes.

The standings and jersey functions of `src/aoc/standings.rs:101-217` are the
same code as `src/core/standings.rs:234-349` with other local names. They are
modelled once, in `CoreStandings`.

## Model

| member | source | states |
|---|---|---|
| Entries.PartFrom | src/core/leaderboard.rs:76-84 | `ProblemPart::from` maps 1 and 2 to the part whose number they are; other inputs are unreachable, so they are excluded |
| Entries.PartFromNumber | src/core/leaderboard.rs:76-84 | `from` inverts the part's number for both parts |
| Entries.PartToString | src/core/leaderboard.rs:63-73 | Display prints the part number, "1" or "2" |
| Entries.PartToStringInjective | src/core/leaderboard.rs:63-73 | the two parts display differently |
| Entries.EntryLtStrict | src/core/leaderboard.rs:24-32 | the derived order on entries (timestamp, year, day, part, id, rank) is a strict total order |
| Entries.EntryLeTotalOrder | src/core/leaderboard.rs:24-32 | its reflexive closure is a total order, the one `sorted_unstable` uses |
| Entries.IdLtStrict | src/core/leaderboard.rs:34-39 | the derived order on identifiers is a strict total order |
| Entries.SortEntries | src/client/aoc.rs:152-153 | `sort_unstable` on entries: the result is ascending in the derived order and a permutation of the input |
| Entries.InsertEntry | src/client/aoc.rs:152-153 | one insertion step keeps the order and adds exactly the inserted entry |
| Entries.PuzzleUnlock | src/core/leaderboard.rs:176-188 | release is 05:00:00 UTC on December `day` of `year`; it is an `Err(Parse)` exactly when that date does not exist |
| Entries.PuzzleUnlockTimeOfDay | src/core/leaderboard.rs:176-188 | a release time is 05:00 of its day, and the next day's puzzle comes exactly 86400 s later |
| Entries.PuzzleUnlockDomain | src/core/leaderboard.rs:176-188 | release exists exactly for days 1 to 31 of a year chrono supports |
| Entries.FirstPuzzleUnlock | src/core/leaderboard.rs:176-188 | the first puzzle, 2015-12-01, is released at 1448946000 s |
| Entries.DurationSinceRelease | src/core/leaderboard.rs:200-203 | succeeds exactly when the release exists, and then release + result = timestamp |
| Entries.DurationUntilNextRelease | src/core/leaderboard.rs:205-209 | succeeds exactly when the next day's release exists, and then timestamp + result = next release |
| Entries.SinceAndUntilReleaseSpanOneDay | src/core/leaderboard.rs:205-209 | for days 1 to 30 the two durations add up to one day |
| Entries.ParseToKey | src/core/leaderboard.rs:191-198 | the key `"{numeric}_{part}_{rank or 0}"` reads back as (numeric id, part, rank or 0) |
| Entries.ToKeyInjective | src/core/leaderboard.rs:191-198 | two entries share a key exactly when numeric id, part and rank-or-0 agree |
| Entries.SplitOnce | src/core/leaderboard.rs:191-198 | splitting at the first separator gives the parts around it, the first free of separators |
| Calendar.DaysInMonth | src/core/leaderboard.rs:176-188 | every month of the civil calendar has 28 to 31 days |
| Calendar.EpochIsDayZero | src/core/leaderboard.rs:176-188 | the day count behind `with_ymd_and_hms` starts at 1970-01-01 |
| Calendar.NextDayInMonth | src/core/leaderboard.rs:176-188 | consecutive days of a month are one day apart |
| Calendar.NextMonth | src/core/leaderboard.rs:176-188 | from March to November, the last day of a month and the first of the next one are one day apart |
| Calendar.NewYear | src/core/leaderboard.rs:176-188 | December 31 is followed by January 1 |
| LocalScoring.Ranked | src/core/leaderboard.rs:446-464 | the stars of one puzzle part, sorted chronologically: ascending and a permutation of the part's stars |
| LocalScoring.RankedMembers | src/core/leaderboard.rs:446-486 | `ranked_members_per_*`: one key per puzzle part, and the solver at position `r` holds a star of that part ranked `r` |
| LocalScoring.RankedPosition | src/core/leaderboard.rs:244-256 | the star at chronological position `r` belongs to the part and earns `N - r >= 1` points |
| LocalScoring.RankedIdsFacts | src/core/leaderboard.rs:446-464 | the ranked members list every star of the part once, position by position |
| LocalScoring.RankedIdsSize | src/core/leaderboard.rs:446-464 | a part has at most `N` ranked members |
| LocalScoring.RankedIdsRanks | src/core/leaderboard.rs:446-464 | the member at position `r` holds the part's star of rank `r` |
| LocalScoring.RankedIdsDistinct | src/core/leaderboard.rs:446-464 | no member appears twice in a part's ranking |
| LocalScoring.RankedDistinct | src/core/leaderboard.rs:446-464 | distinct positions hold distinct stars |
| LocalScoring.GroupMembersDistinct | src/core/leaderboard.rs:446-464 | a part's stars are distinct and at most `N` |
| LocalScoring.AddStar | src/core/leaderboard.rs:283-285 | one star adds one star and its points to the slot of its day and changes no other slot |
| LocalScoring.ScorePart | src/core/leaderboard.rs:278-286 | the inner loop over a part's ranked solvers: the accumulator afterwards matches the specification over the stars seen so far plus that part |
| LocalScoring.DailyScores | src/core/leaderboard.rs:235-260 | the fold over all parts: one key per (season, member) and each member's 25 slots equal `DailySlots`, the specification |
| LocalScoring.StarScoreBounds | src/core/leaderboard.rs:244-256 | every star earns between 1 and `N` points |
| LocalScoring.EarlierStarScoresMore | src/core/leaderboard.rs:244-256 | of two stars of one part, the earlier one earns strictly more |
| LocalScoring.PositionScoresClosedForm | src/core/leaderboard.rs:244-256 | the first `k` positions earn `k(2N - k + 1)/2` points together |
| LocalScoring.GroupScoreConservation | src/core/leaderboard.rs:244-256 | a part with `k` stars awards exactly `N + (N-1) + ... + (N-k+1)` points in total |
| LocalScoring.RankedPrefixScore | src/core/leaderboard.rs:244-256 | the first `j` ranked stars of a part earn exactly the first `j` position scores |
| LocalScoring.SlotStarsAtMostTwo | src/core/leaderboard.rs:283-284 | a day slot counts the member's stars of that day, at most two |
| LocalScoring.SlotScoreAtLeastStars | src/core/leaderboard.rs:283-285 | a day slot's points are at least its number of stars |
| LocalScoring.LocalScoreIsSumOfStarScores | src/aoc/leaderboard.rs:148-153 | the sum of the 25 daily slots is the sum of the points of all the member's stars |
| LocalScoring.SlotsPermutation | src/core/leaderboard.rs:244-256 | the slots depend only on which stars were folded, not on their order, so the hash-map order of the parts does not matter |
| CoreLeaderboard.WellFormedScorable | src/core/leaderboard.rs:235-289 | a well-formed set of stars meets what both scoring folds need, for all years and for one year |
| CoreLeaderboard.MemberDayAtMostTwo | src/core/leaderboard.rs:552 | a member has at most two stars a day, so the `unreachable!` arm is never taken |
| CoreLeaderboard.IsGlobalComplete | src/core/leaderboard.rs:217-221 | complete exactly when the board holds 200 distinct stars |
| CoreLeaderboard.YearEntries | src/core/leaderboard.rs:268-270 | the stars of a year are exactly the stars with that year |
| CoreLeaderboard.DayEntries | src/core/leaderboard.rs:224-232 | the stars of a day are exactly the stars with that year and day |
| CoreLeaderboard.EntriesPerMemberForYearDay | src/core/leaderboard.rs:224-232 | one key per member with a star that day, holding exactly that member's stars of the day |
| CoreLeaderboard.EntriesPerYearDayPart | src/core/leaderboard.rs:421-423 | each (year, day, part) key holds exactly the stars of that part |
| CoreLeaderboard.EntriesPerDayPartForYear | src/core/leaderboard.rs:425-429 | each (day, part) key holds exactly the year's stars of that part, and no key is empty |
| CoreLeaderboard.EntriesPerDayMemberForYear | src/core/leaderboard.rs:431-438 | each (day, member) key holds exactly that member's stars of the day, no key is empty, and no star is listed twice |
| CoreLeaderboard.MembersIds | src/core/leaderboard.rs:441-443 | the numeric ids of the stars' members, and nothing else |
| CoreLeaderboard.GetCommonMembersWith | src/core/leaderboard.rs:354-359 | keeps exactly the stars whose member id also appears in the other board |
| CoreLeaderboard.CommonMembersAreIntersection | src/core/leaderboard.rs:354-359 | the members of the result are the intersection of the two boards' members |
| CoreLeaderboard.CommonMembersSymmetric | src/core/leaderboard.rs:354-359 | both directions name the same members |
| CoreLeaderboard.MinTimestamp | src/core/leaderboard.rs:500-502 | the smallest timestamp of a non-empty group, attained by one of its stars |
| CoreLeaderboard.MaxTimestamp | src/core/leaderboard.rs:500-502 | the largest timestamp of a non-empty group, attained by one of its stars |
| CoreLeaderboard.PartsMinMaxTimesForYear | src/core/leaderboard.rs:361-379 | per (day, part) of the year, the first and last times bound every star of it and are attained |
| CoreLeaderboard.EntriesPerPartForYearDay | src/core/leaderboard.rs:488-495 | the day's stars grouped by part, each key holding exactly its part's stars |
| CoreLeaderboard.MinMaxTimesForYearDay | src/core/leaderboard.rs:488-507 | per part of the day, the first and last times bound every star of it and are attained |
| CoreLeaderboard.MinMaxHasPart | src/core/leaderboard.rs:488-507 | a part has min/max times exactly when it has a star that day |
| CoreLeaderboard.DailyScoresPerYearMember | src/core/leaderboard.rs:235-260 | one key per (year, member), and each holds the member's 25 daily scores under per-year scoring |
| CoreLeaderboard.DailyStarsAndScoresPerMemberForYear | src/core/leaderboard.rs:263-289 | one key per member of the year, and each holds the 25 (stars, points) slots of the year's stars |
| CoreLeaderboard.DurationLeTotal | src/core/leaderboard.rs:554 | ordering delta rows by duration is a total preorder |
| CoreLeaderboard.DeltaRowOf | src/core/leaderboard.rs:528-552 | a part-1-only member gives no row; a part-2-only member gives `ts - max_p1 - 1 s` with its rank; two stars give the gap and the later star's rank |
| CoreLeaderboard.DayMembers | src/core/leaderboard.rs:525-527 | the members of the day's groups, each once |
| CoreLeaderboard.DayGroups | src/core/leaderboard.rs:552 | on a well-formed board every member has one or two stars a day |
| CoreLeaderboard.TwoStarsTwoParts | src/core/leaderboard.rs:545-550 | two stars of a member's day are of different parts |
| CoreLeaderboard.DeltaRows | src/core/leaderboard.rs:525-553 | the rows are exactly the members' rows that exist |
| CoreLeaderboard.MemberRow | src/core/leaderboard.rs:528-551 | a member has a delta row exactly when it holds a part-2 star that day |
| CoreLeaderboard.GroupRow | src/core/leaderboard.rs:528-551 | a group of one or two stars gives a row exactly when it has a part-2 star |
| CoreLeaderboard.DayDeltaRowsSound | src/core/leaderboard.rs:510-557 | every delta row belongs to a member with a part-2 star that day |
| CoreLeaderboard.DayDeltaRowsComplete | src/core/leaderboard.rs:510-557 | every member with a part-2 star that day has a delta row |
| CoreLeaderboard.SortedDeltaRows | src/core/leaderboard.rs:554-555 | the rows sorted by duration ascending, a permutation of the rows |
| CoreLeaderboard.StandingsByDeltaForYearDay | src/core/leaderboard.rs:510-557 | fails with "MinMax times could not be computed" exactly when part 1 has no star; otherwise the sorted rows against the last part-1 time |
| CoreLeaderboard.StandingsByDeltaFails | src/core/leaderboard.rs:517-523 | the delta standings succeed exactly when the day has a part-1 star |
| CoreLeaderboard.DeltaExtremes | src/core/leaderboard.rs:406-411 | the first and the last of the sorted deltas: the first exists with at least one row, the last with at least two, both are rows, and they bound every row |
| CoreLeaderboard.StatisticsOf | src/core/leaderboard.rs:381-414 | the error cases in the source's order (part 1 missing, part 2 missing, delta standings, release); otherwise part times relative to release and the extreme deltas |
| CoreLeaderboard.StatisticsFails | src/core/leaderboard.rs:381-414 | statistics succeed exactly when both parts have a star that day and the release date exists |
| CoreLeaderboard.StatisticsTimesBound | src/core/leaderboard.rs:401-405 | fast ≤ every part time since release ≤ slow, for each part |
| CoreLeaderboard.StatisticsDeltas | src/core/leaderboard.rs:406-411 | `delta_fast` is at most and `delta_slow` at least every delta of the day's standings |
| CoreLeaderboard.ScrapedLeaderboard.constructor | src/core/leaderboard.rs:575-580 | a new scraped board is empty and stamped with the given time |
| CoreLeaderboard.ScrapedLeaderboard.MergeWith | src/core/leaderboard.rs:582-591 | adopts the other timestamp; the stars afterwards are exactly the old ones and the other's, the old ones kept in place |
| CoreLeaderboard.MergeIsUnion | src/core/leaderboard.rs:582-591 | the merged set is the union of both; when every new star is already present, the length does not change |
| CoreDailyDelta.SortedGap | src/core/leaderboard.rs:314-317 | the sorted pair's later minus earlier timestamp is the gap between the parts |
| CoreDailyDelta.TwoPartsGap | src/core/leaderboard.rs:314-317 | computes that gap |
| CoreDailyDelta.FinishedDays | src/core/leaderboard.rs:310-322 | the finished (day, member, gap) triples: exactly the groups with two stars, with their gap, once each |
| CoreDailyDelta.DayRankingSorted | src/core/leaderboard.rs:324-336 | a day's finishers sorted by gap ascending, a permutation of that day's finishes |
| CoreDailyDelta.RankOf | src/core/leaderboard.rs:339-348 | a member's position in a day ranking, or none when not listed |
| CoreDailyDelta.DayRankingDistinct | src/core/leaderboard.rs:324-336 | no member appears twice in a day ranking |
| CoreDailyDelta.DayRankingMembers | src/core/leaderboard.rs:324-336 | a member is listed in a day ranking exactly when it finished that day |
| CoreDailyDelta.RecordDay | src/core/leaderboard.rs:339-349 | the inner loop over a day's ranking records each finisher's (gap, rank, points) |
| CoreDailyDelta.RecordRanks | src/core/leaderboard.rs:338-351 | the fold over all days records every ranking |
| CoreDailyDelta.GroupAtMostTwo | src/core/leaderboard.rs:320 | a member's group of a day has one or two stars on a well-formed board |
| CoreDailyDelta.SlotsOnBoard | src/core/leaderboard.rs:343-348 | an unfinished day holds (0, 0, 0); a finished day holds the gap, a rank between 1 and the day's finishers, and `N + 1 - rank ≥ 1` points |
| CoreDailyDelta.KeysOnBoard | src/core/leaderboard.rs:337-351 | the keys are exactly the members that finished some day |
| CoreDailyDelta.OrderOnBoard | src/core/leaderboard.rs:330-348 | two finishers of a day have different ranks, and the shorter gap has the better rank |
| CoreDailyDelta.DailyDeltaAndScoresPerMemberForYear | src/core/leaderboard.rs:292-352 | the result holds, for every finisher and day, the slot stated by `SlotsOnBoard`, with the keys of `KeysOnBoard` and the order of `OrderOnBoard` |
| CoreStandings.ScoringToString | src/core/standings.rs:48-58 | Display gives one of "local", "stars" |
| CoreStandings.ScoringFromString | src/core/standings.rs:35-42 | a name is accepted exactly when it is "local" or "stars", and then it displays back as itself |
| CoreStandings.ScoringDefaultStr | src/core/standings.rs:43-45 | the default "local" names LOCAL |
| CoreStandings.ScoringRoundTrip | src/core/standings.rs:35-58 | `from_string(to_string(x)) == Some(x)` |
| CoreStandings.JerseyToString | src/core/standings.rs:74-84 | Display gives one of "yellow", "green" |
| CoreStandings.JerseyFromString | src/core/standings.rs:61-68 | a colour is accepted exactly when it is "yellow" or "green", and then it displays back as itself; the same holds for the aoc `Jersey`, src/aoc/standings.rs:17-24 |
| CoreStandings.JerseyDefaultStr | src/core/standings.rs:69-71 | the default "yellow" names YELLOW |
| CoreStandings.JerseyRoundTrip | src/aoc/standings.rs:17-38 | `from_string(to_string(x)) == Some(x)` |
| CoreStandings.RankingToString | src/core/standings.rs:101-114 | Display gives one of "delta", "p1", "p2" |
| CoreStandings.RankingFromString | src/core/standings.rs:87-95 | a name is accepted exactly when it is "delta", "p1" or "p2", and then it displays back as itself |
| CoreStandings.RankingDefaultStr | src/core/standings.rs:96-98 | the default "delta" names DELTA |
| CoreStandings.RankingRoundTrip | src/core/standings.rs:87-114 | `from_string(to_string(x)) == Some(x)` |
| CoreStandings.Earlier | src/core/standings.rs:150-154 | the earlier of two stars has the group's smallest timestamp |
| CoreStandings.Later | src/core/standings.rs:150-154 | the later of two stars has the group's largest timestamp |
| CoreStandings.ComputeDelta | src/core/standings.rs:148-159 | a delta exactly for two stars, and then the non-negative later minus earlier time |
| CoreStandings.GetTimeForPart | src/core/standings.rs:161-187 | PART1 always has a time, the earliest star's time since release; PART2 has one exactly with two stars, the latest star's |
| CoreStandings.YellowJerseyDuration | src/core/standings.rs:336-349 | a time exactly with two stars, the later star's time since release; the same holds for compute_yellow_jersey_kpis, src/aoc/standings.rs:133-146 |
| CoreStandings.YellowIsPartTwoTime | src/core/standings.rs:336-349 | the yellow time is the PART2 time of `get_time_for_part` |
| CoreStandings.GreenJerseyDuration | src/core/standings.rs:304-334 | none for part 1 only; `ts - max_p1 - 1 s` for part 2 only; the delta for both parts; the same holds for compute_green_jersey_kpis, src/aoc/standings.rs:101-131 |
| CoreStandings.GreenCreditBelowOverrun | src/core/standings.rs:317-322 | the inferred green time is below the part-2 time after the day's last part-1 star |
| CoreStandings.TimeRows | src/core/standings.rs:131-142 | the rows are exactly the members with a time for the ranking, with that time |
| CoreStandings.SortedTimeRows | src/core/standings.rs:143-144 | the rows sorted by time ascending, a permutation of the rows |
| CoreStandings.StandingsTimeRows | src/core/standings.rs:122-146 | only stars of the requested year and day count; sorted by time ascending |
| CoreStandings.StandingsTimeMembers | src/core/standings.rs:122-146 | a row is listed exactly when its member has a time that day |
| CoreStandings.StandingsTime | src/core/standings.rs:145-146 | each row is the member's name and the formatted time, in the sorted order |
| CoreStandings.YearMembers | src/core/standings.rs:199 | the members of the year, each once |
| CoreStandings.BoardBeforeTotal | src/core/standings.rs:214-218 | both board orders are total preorders |
| CoreStandings.StandingsBoard | src/core/standings.rs:194-227 | every member of the year once, with its 25 slots and the primary total; LOCAL sorts by score then stars descending, STARS by stars then score |
| CoreStandings.BoardScoreIsSumOfStarScores | src/core/standings.rs:203-210 | the board's score total is the sum of the points of the member's stars |
| CoreStandings.Stages | src/core/standings.rs:252-262 | one stage per (member, day) group in visiting order, with the jersey's time |
| CoreStandings.Capped | src/core/standings.rs:266-270 | a stage adds `min(duration, 7 days)` |
| CoreStandings.TallyCounts | src/core/standings.rs:263-276 | a member is tallied exactly when it finished a stage; the count is its finished stages and the sum at most count × penalty |
| CoreStandings.PeakIs | src/core/standings.rs:277 | the running maximum is the largest count of finished stages |
| CoreStandings.TdfRowFacts | src/core/standings.rs:280-291 | `days_over_cutoff = max - finished ≥ 0`, the total gains `days_over_cutoff × 7 days`, and no total exceeds `max × 7 days` |
| CoreStandings.TallyStages | src/core/standings.rs:263-278 | the fold of the stages gives the tally and its peak |
| CoreStandings.TdfRows | src/core/standings.rs:280-292 | one row per tallied member, with its penalised total |
| CoreStandings.TdfFold | src/core/standings.rs:263-299 | the rows sorted by (total, penalties) ascending, one per tallied member |
| CoreStandings.StandingsTdf | src/core/standings.rs:234-302 | the year's stages folded, penalised and sorted by (total, penalties) ascending, one row per member that finished a stage; the same holds for standings_tdf of src/aoc/standings.rs:149-217 |
| CoreStandings.TdfStandingFacts | src/core/standings.rs:277-291 | every row has at least one stage, penalties `max - finished ≥ 0`, and some member has no penalty |
| CoreStandings.WellFormedStageAtMostTwo | src/core/standings.rs:157 | a stage has one or two stars on a well-formed board |
| AocLeaderboard.MemberList | src/aoc/leaderboard.rs:89-91 | the members with a star, each once |
| AocLeaderboard.MembersIds | src/aoc/leaderboard.rs:97-102 | one numeric id per member, covering every star's member |
| AocLeaderboard.FindByNumeric | src/aoc/leaderboard.rs:104-111 | `find_map`: a member with that id, none exactly when no member has it |
| AocLeaderboard.GetMemberById | src/aoc/leaderboard.rs:104-111 | found exactly when the id is among `members_ids`, and then a member with that id |
| AocLeaderboard.DailyScoresPerMember | src/aoc/leaderboard.rs:131-146 | one key per member, holding its 25 daily scores under the `N - r` rule |
| AocLeaderboard.LocalScoresPerMember | src/aoc/leaderboard.rs:148-153 | one key per member, holding the sum of its daily scores |
| AocLeaderboard.LocalScoreBounds | src/aoc/leaderboard.rs:131-153 | a member's local score is between its number of stars and `N` times it |
| AocLeaderboard.ComputeDiffs | src/aoc/leaderboard.rs:155-169 | exactly the stars whose (numeric id, day, part) is absent from the other board |
| AocLeaderboard.ComputeDiffsSelf | src/aoc/leaderboard.rs:155-169 | a board diffed with itself is empty |
| AocLeaderboard.ComputeDiffsEmpty | src/aoc/leaderboard.rs:155-169 | against an empty board every star is new, in order |
| AocLeaderboard.ComputeDiffsIdempotent | src/aoc/leaderboard.rs:155-169 | diffing the diff again changes nothing |
| AocLeaderboard.SortDescending | src/aoc/leaderboard.rs:176 | `sorted_by_key(Reverse(..))`: descending and a permutation |
| AocLeaderboard.StandingsByLocalScore | src/aoc/leaderboard.rs:171-179 | every member with its local score, descending |
| AocLeaderboard.LastStar | src/aoc/leaderboard.rs:191 | the latest star in the derived order, none exactly without stars |
| AocLeaderboard.StarRowLeTotal | src/aoc/leaderboard.rs:195 | the key (more stars, earlier last star) is a total preorder |
| AocLeaderboard.StarRows | src/aoc/leaderboard.rs:184-195 | every member's star row, sorted by that key |
| AocLeaderboard.StarCounts | src/aoc/leaderboard.rs:186-189 | every member with its number of stars |
| AocLeaderboard.StandingsByNumberOfStars | src/aoc/leaderboard.rs:181-198 | every member once, with its star count, descending; ties ordered by earlier last star (`StarRows`) |
| AocLeaderboard.GlobalRows | src/aoc/leaderboard.rs:203-204 | the members with a positive global score, with that score |
| AocLeaderboard.KeptGlobalScorers | src/aoc/leaderboard.rs:203 | the filter keeps exactly the members with a global score |
| AocLeaderboard.StandingsByGlobalScore | src/aoc/leaderboard.rs:200-207 | only positive global scores, one per such member, descending |
| AocLeaderboard.DayRows | src/aoc/leaderboard.rs:212-213 | the members that scored on the day, all with positive points |
| AocLeaderboard.StandingsByLocalScoreForDay | src/aoc/leaderboard.rs:209-216 | the positive day scores, descending |
| AocLeaderboard.DayScorePositive | src/aoc/leaderboard.rs:209-216 | a member scores on a day exactly when it holds a star that day |
| AocLeaderboard.DaySolutionsAtMostTwo | src/aoc/leaderboard.rs:232 | at most two stars per member and day |
| AocLeaderboard.DaySolutionsPair | src/aoc/leaderboard.rs:224-231 | two stars that day exactly when both parts are held, one of each part |
| AocLeaderboard.DayDeltaBothParts | src/aoc/leaderboard.rs:222-234 | a member has a delta exactly when it holds both parts that day |
| AocLeaderboard.DayDeltaValue | src/aoc/leaderboard.rs:226-231 | the delta is the member's name and the time between its part-1 and part-2 stars |
| AocLeaderboard.StandingsByDeltaForDay | src/aoc/leaderboard.rs:219-237 | the deltas ascending, a permutation of the members' deltas |
| AocLeaderboard.IsComplete | src/aoc/leaderboard.rs:255-257 | complete exactly when there are 200 places |
| AocLeaderboard.PartCountsSum | src/aoc/leaderboard.rs:255-257 | every place is of part 1 or part 2 |
| AocLeaderboard.CompleteBoardIsFull | src/aoc/leaderboard.rs:255-257 | with at most 100 places a part, complete exactly when both top lists hold 100 |
| AocLeaderboard.ByTime | src/aoc/leaderboard.rs:270 | the places of a rank by time ascending, a permutation of them |
| AocLeaderboard.SortedRanks | src/aoc/leaderboard.rs:259-280 | every rank once, strictly ascending, each with its two fastest places |
| AocLeaderboard.RankTimesFacts | src/aoc/leaderboard.rs:268-276 | a rank's first place is its fastest; a second exists exactly when the rank is shared |
| AocLeaderboard.FastestAndSlowestTimes | src/aoc/leaderboard.rs:343-359 | the smallest rank (none only on an empty board) and the largest (none with fewer than two ranks) |
| AocLeaderboard.FastestAndSlowestFacts | src/aoc/leaderboard.rs:343-359 | the sorted ranks cover every place's rank, first and last included |
| AocLeaderboard.LatestTime | src/aoc/leaderboard.rs:285-301 | the latest time of a part, or zero; it bounds every place of that part |
| AocLeaderboard.LatestTimes | src/aoc/leaderboard.rs:285-301 | the fold computes both parts' latest times |
| AocLeaderboard.GlobalIds | src/aoc/leaderboard.rs:303 | the ids of the places, without repeats; each id holds at least one place |
| AocLeaderboard.SortedDeltas | src/aoc/leaderboard.rs:282-341 | every member's (delta, rank), ascending |
| AocLeaderboard.SentinelIsPartOneOnly | src/aoc/leaderboard.rs:307-330 | rank 101 marks exactly the members with a part-1 place only |
| AocLeaderboard.InferredDeltaBounds | src/aoc/leaderboard.rs:307-330 | a part-1-only delta is at most the real one, and a part-2-only delta at least the real one, whenever the missing part came after every top-100 time of that part |
| AocLeaderboard.BothPlacesDelta | src/aoc/leaderboard.rs:331-336 | with both places, the non-negative gap and the later place's rank |
| AocLeaderboard.FastestAndSlowestDeltas | src/aoc/leaderboard.rs:361-369 | among deltas ranked ≤ 100 (never the sentinel), the smallest, and the largest with at least two |
| AocLeaderboard.CheckForPrivateMembers | src/aoc/leaderboard.rs:371-391 | one pair per global place held by a private member, in order: that member and the part |
| AocStandings.InYear | src/aoc/standings.rs:41-44 | the stars of the year, in order |
| AocStandings.YearLocalScores | src/aoc/standings.rs:40-74 | every member of the year with its local score over the year's stars |
| AocStandings.StandingsByLocalScore | src/aoc/standings.rs:40-83 | those scores, descending, a permutation of them |
| AocStandings.InYearIgnoresOtherYears | src/aoc/standings.rs:41-44 | stars of other years change neither standing |
| AocStandings.YearStarCounts | src/aoc/standings.rs:89-96 | every member of the year with its number of stars that year |
| AocStandings.StandingsByNumberOfStars | src/aoc/standings.rs:85-99 | those counts, descending |
| AocStandings.StarCountIsYearStars | src/aoc/standings.rs:85-99 | a member's count is its number of stars of that year |
| ClientAoc.EndpointPath | src/client/aoc.rs:16-27 | `/{year}/leaderboard/day/{day}` and `/{year}/leaderboard/private/view/{id}.json` |
| ClientAoc.PathShape | src/client/aoc.rs:16-27 | the year's digits come first and the path tells the two kinds apart |
| ClientAoc.EndpointInjective | src/client/aoc.rs:16-27 | distinct endpoints have distinct paths |
| ClientAoc.DisplayName | src/client/aoc.rs:127-130 | a null name becomes "anonymous user #" followed by more |
| ClientAoc.AnonymousNameRoundTrip | src/client/aoc.rs:127-130 | the id reads back from the anonymous name |
| ClientAoc.ParseStar | src/client/aoc.rs:134-147 | a record fails with Parse exactly when the timestamp, the event year, the day or the star does not parse; otherwise the entry carries them and the member |
| ClientAoc.ParseStarRoundTrip | src/client/aoc.rs:134-147 | rendering an entry's fields and parsing them back gives the entry |
| ClientAoc.ParseAll | src/client/aoc.rs:126-150 | the records in order, failing with Parse exactly when one of them fails |
| ClientAoc.ParseAllSnoc | src/client/aoc.rs:134-147 | pushing one more parsed record extends the result by it |
| ClientAoc.ParseDay | src/client/aoc.rs:133-148 | the loop over a day's stars leaves the result of the records seen so far |
| ClientAoc.ParseMember | src/client/aoc.rs:132-149 | the loop over a member's days does the same |
| ClientAoc.ParsePrivateLeaderboard | src/client/aoc.rs:92-156 | fails exactly when some record fails; otherwise the parsed records sorted ascending |
| ClientAoc.StandingsByLocalScore | src/client/aoc.rs:252-261 | every member with its local score, in non-increasing order |
| Utils.Suffix | src/utils.rs:1-12 | always one of "st", "nd", "rd", "th" |
| Utils.SuffixIsArithmetic | src/utils.rs:1-12 | the suffix is decided by the last digit, with 11, 12 and 13 of every hundred taking "th" |
| Utils.SuffixTeens | src/utils.rs:3-9 | numbers ending in 11, 12 or 13 take "th" |
| Strings.NatToStringEndsWithDigit | src/utils.rs:3 | the rendering ends in digit `a` exactly when the number does |
| Strings.NatToStringEndsWithTwoDigits | src/utils.rs:3 | the rendering ends in the digits `a` then `b` (with `a >= 1`) exactly when the number is `10a + b` modulo 100 |
| Strings.NatToStringRoundTrip | src/utils.rs:2 | the decimal rendering reads back as the number |
| Strings.ParseUnsignedNatToString | src/client/aoc.rs:143-145 | `parse::<u8>` of a rendering gives the number when it fits and fails otherwise |
| Templates.Plural | src/core/templates.rs:229-232 | "s" exactly for a difference above 1 |
| Templates.InvalidYearDayMessage | src/core/templates.rs:214-295 | before 2015, then a future year, then day zero, then after the 25th, in that order |
| Templates.InvalidYearDayMessageAccepts | src/core/templates.rs:214-295 | no refusal exactly for a year 2015..now and no day, or a day 1..25 in a past year, before today, or today after release |
| Templates.FutureDayRefused | src/core/templates.rs:263-277 | a later day of the current year is refused with the days to wait |
| Templates.TodayRefusedUntilRelease | src/core/templates.rs:279-292 | today's puzzle is refused exactly until its release time has passed |
| Templates.NoDayServed | src/core/templates.rs:293 | without a day every year 2015..now is served |
| Templates.InvalidYearDayMessageExamples | src/core/templates.rs:214-277 | worked cases: 2014 refused; two years ahead refused with "s", one year ahead without; day 26 refused; tomorrow refused as 1 day without "s" |
| Events.SymbolsPrefix | src/core/events.rs:20-31 | the symbol then a blank while there are symbols; past them, the position, indented up to 9 |
| Events.SymbolsPrefixShowsPosition | src/core/events.rs:28-29 | past the symbols, the prefix reads back as its position |
| Events.SymbolsPrefixInjective | src/core/events.rs:28-29 | distinct positions past the symbols have distinct prefixes |
| Events.PrefixedRows | src/core/events.rs:77-94 | at most five rows, each the trophy prefix, the name and the value right-aligned on 9 |
| Display.Glyph | src/core/display.rs:196-200 | a day's glyph is two characters starting with a blank |
| Display.GlyphsRoundTrip | src/core/display.rs:194-202 | the glyphs read back as each day's star count |
| Display.BoardCells | src/core/display.rs:187-203 | each cell is the total on the score column, then the bracketed glyphs |
| Display.BoardCellShape | src/core/display.rs:189-202 | a cell's columns: total right-aligned, "  [", glyphs reading back as the stars, "]" |
| Display.TotalFits | src/core/display.rs:177-182 | every total is narrower than the score column |
| Display.TimeYearlyGaps | src/core/display.rs:50-56 | the first line shows no gap; later lines show `(+ gap to the first)` |
| Display.PointsWidth | src/core/display.rs:80-84 | every rendered total is narrower than the points column |
| Layout.Largest | src/core/display.rs:18-22 | `max().unwrap_or_default()`: the largest value, 0 without values |
| Layout.NameWidth | src/core/display.rs:18-22 | every name is narrower than the name column |
| Layout.NameLengths | src/core/display.rs:20 | names are measured in UTF-8 bytes |
| Layout.Rows | src/core/display.rs:184-205 | one line per entry: position, ") ", padded name, a blank, the cell |
| Layout.TableLines | src/core/display.rs:184-205 | no entries give the empty string; otherwise exactly one line per entry |
| Layout.RowColumns | src/core/display.rs:189-192 | every line has its position right-aligned on the last position's width and the name on one more than the longest name |
| Layout.PositionFits | src/core/display.rs:165 | every position fits the width of the last one |
| Layout.PenaltyTextInjective | src/core/display.rs:57-61 | "(All stages)", "(1 stage out)" and "(n stages out)" tell any two penalty counts apart |
| Layout.PenaltyTextWidth | src/core/display.rs:31 | up to 25 stages out, the text fits its column |
| Layout.ScoredTextDigits | src/core/display.rs:99 | up to 99 days, "(scored dd days)" shows the count zero-padded to two digits |
| Layout.PointsCellColumns | src/core/display.rs:94-99 | a points cell shows the points right-aligned, then the scored-days text |
| Commands.TrimStart | src/messaging/models.rs:30 | removes exactly the leading white space |
| Commands.TrimEnd | src/messaging/models.rs:30 | removes exactly the trailing white space |
| Commands.TrimIdempotent | src/messaging/models.rs:30 | trimming twice is trimming once |
| Commands.FirstToken | src/messaging/models.rs:30 | the characters up to the first space |
| Commands.BuildFrom | src/messaging/models.rs:34-49 | "!help" gives Help; "!ranking" gives the standings with their scores as text, in order, and the timestamp |
| Commands.GetPrefix | src/messaging/models.rs:51-56 | the prefix is a known command |
| Commands.GetPrefixBuildFrom | src/messaging/models.rs:29-56 | the prefix of the built command is the message's first word |
| Commands.RankingPayloadRoundTrip | src/messaging/models.rs:39-45 | the payload keeps names and order, and each score reads back |
| Commands.LeadingSpaceCommand | src/messaging/models.rs:29-32 | leading white space does not hide a command |
| Commands.CommandWithArguments | src/messaging/models.rs:29-32 | a command followed by a space and anything is still that command |
| Commands.LongerWordNotCommand | src/messaging/models.rs:29-32 | "!rankings" is not a command |

## Left out

- `unreachable!` on more than two stars per member and day becomes a precondition:
  - `CoreLeaderboard.WellFormed`: at most one star per member and puzzle part.
  - `LocalScoring.Scorable` and `CoreLeaderboard.AtMostTwoPerMember`.
  - `CoreStandings.TdfDemands` (src/core/standings.rs:157, 331).
  - `AocLeaderboard.AtMostTwoPerId` (src/aoc/leaderboard.rs:337).
  - `AocLeaderboard.Valid` (src/aoc/leaderboard.rs:232).
- Other `unreachable!` arms also become preconditions:
  - `ProblemPart::from` outside 1 and 2: `Entries.PartFrom`.
  - `Command::build_from` on a non-command: `Commands.BuildFrom`.
  - a star count above 2 in `board`: `Display.GlyphSlots`.
- `CoreStandings.GreenJerseyDuration`: the `.unwrap()` on a missing part-1 maximum becomes a precondition. `TdfDemands` has a matching green clause.
- `CoreStandings.GetTimeForPart`, `CoreStandings.YellowJerseyDuration`: the `duration_since_release().unwrap()` becomes the `Released` precondition.
- `LocalScoring.Scorable`: the `day - 1` index requires days 1 to 25. The Rust would panic outside that range.
- `Entries.DurationUntilNextRelease`: requires `day < 255`, because the `u8` increment `day + 1` overflows there.
- Integer widths are unbounded `int`/`nat`: `u8` days, parts and ranks, `u16` endpoint fields, `i32` years, `u64` ids and scores, `usize` scores and `i64` seconds. Overflow is out of reach for real boards, and only the parsers' bounds (`ParseUnsigned`, `ParseSigned`) keep the widths.
- chrono timestamps and durations are whole seconds, so sub-second precision is lost. `Utc::now` and `current_aoc_year_day` are parameters.
- Hash map and hash set iteration order becomes the order of a sequence, or the explicit `order` parameter of `CoreStandings.StandingsTdf`. So the model fixes:
  - which member `AocLeaderboard.GetMemberById` returns first;
  - the order of ties after `sorted_unstable*`;
  - the order of the stages folded in `standings_tdf`.
- `AocLeaderboard.Valid` and `LocalScoring.Scorable` require `Distinct` of the Vec-backed `PrivateLeaderboard` and client `Leaderboard`. The source builds them one record per star and does not check it.
- `Entries.SortEntries` and `ClientAoc.ParsePrivateLeaderboard`: the in-place `sort_unstable` is modelled on sequences, as an insertion sort. The nested loops of `parse_private_leaderboard` are split into one method per level.
- `format_duration` and `format_duration_with_days` are not part of this model. They are function parameters of `CoreStandings.StandingsTime` and the `Display` tables.
- `Templates.InvalidYearDayMessage`: the message wording is reduced to a `Refusal` value carrying the numbers the message shows.
- The serde JSON decode of `parse_private_leaderboard` and its `unwrap` are not modelled; the decoded response is the input.
- The HTML scraping `from_html` functions, the HTTP client, Slack I/O, the scheduler, the storage mutex, configuration and minijinja templates are not part of this model.
- `src/core/events.rs` apart from `symbols_prefix` and the daily-summary zip is rendering, and is not part of this model.
- Snapshot mismatches:
  - `src/core/standings.rs:199` calls `daily_parts_scores_per_member_for_year`. This model uses `daily_stars_and_scores_per_member_for_year` (src/core/leaderboard.rs:263), which it evidently means.
  - `src/aoc/standings.rs:1` imports `Entry`/`Leaderboard`, where `src/aoc/leaderboard.rs` names them `Solution`/`PrivateLeaderboard`. The model reads them as those.
- `AocLeaderboard.InferredDeltaBounds` states the ±1 s inference only as bounds against a hypothetical real time. Which real time a member had is not observable.
- `CoreDailyDelta.DailyDeltaAndScoresPerMemberForYear` states its result on the (day, member) groups through the predicate `DeltasIn`. It is not restated on the raw entries.

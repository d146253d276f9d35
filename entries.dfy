/** The star-completion record shared by every leaderboard of the bot, its
    derived ordering, and the puzzle-release arithmetic.

    One `Entry` type stands for the three snapshot types of the source:
    `Entry` of src/core/leaderboard.rs (with a rank), `Solution` of
    src/aoc/leaderboard.rs and `Solution` of src/client/aoc.rs (rank always
    `None`). The part is a number: 1 or 2 where the source has a
    `ProblemPart`, any `u8` in the client, which keeps the star index as
    parsed. The identifier's third field is `global_score` in the aoc
    snapshot, `local_score` in the client and 0 in the core snapshot, whose
    identifier has only a name and a numeric id. */
module Entries {
  import opened Common
  import opened Strings
  import opened Calendar
  import opened Sorting

  /** Puzzles are released at 05:00:00 UTC in December. */
  const PuzzleStartingHour: int := 5
  const PuzzleMonth: int := 12

  datatype ProblemPart = FIRST | SECOND

  datatype Identifier = Identifier(name: string, numeric: nat, score: nat)

  datatype Entry = Entry(
    timestamp: int,
    year: int,
    day: nat,
    part: nat,
    id: Identifier,
    rank: Option<nat>)

  /** `ProblemPart::from`: only parts 1 and 2 exist. */
  function PartFrom(n: nat): (p: ProblemPart)
    requires n == 1 || n == 2
    ensures PartNumber(p) == n
  {
    if n == 1 then FIRST else SECOND
  }

  function PartNumber(p: ProblemPart): (n: nat)
    ensures n == 1 || n == 2
  {
    match p
    case FIRST => 1
    case SECOND => 2
  }

  /** `Display` of a part. */
  function PartToString(p: ProblemPart): (s: string)
    ensures s == NatToString(PartNumber(p))
  {
    match p
    case FIRST => "1"
    case SECOND => "2"
  }

  lemma PartFromNumber(p: ProblemPart)
    ensures PartFrom(PartNumber(p)) == p
  {
  }

  /** The two parts display differently. */
  lemma PartToStringInjective(p: ProblemPart, q: ProblemPart)
    requires PartToString(p) == PartToString(q)
    ensures p == q
  {
    NatToStringInjective(PartNumber(p), PartNumber(q));
  }

  function PartOf(e: Entry): ProblemPart
    requires e.part == 1 || e.part == 2
  {
    PartFrom(e.part)
  }

  // ---------------------------------------------------------------------
  // The derived ordering (`#[derive(Ord)]`: field by field, in declaration
  // order; `None` before any `Some`)
  // ---------------------------------------------------------------------

  predicate IdLt(a: Identifier, b: Identifier)
  {
    StrLt(a.name, b.name) ||
    (a.name == b.name && (a.numeric < b.numeric || (a.numeric == b.numeric && a.score < b.score)))
  }

  predicate RankLt(a: Option<nat>, b: Option<nat>)
  {
    match (a, b)
    case (None, Some(_)) => true
    case (Some(x), Some(y)) => x < y
    case _ => false
  }

  predicate EntryLt(a: Entry, b: Entry)
  {
    a.timestamp < b.timestamp ||
    (a.timestamp == b.timestamp && (a.year < b.year ||
    (a.year == b.year && (a.day < b.day ||
    (a.day == b.day && (a.part < b.part ||
    (a.part == b.part && (IdLt(a.id, b.id) ||
    (a.id == b.id && RankLt(a.rank, b.rank))))))))))
  }

  predicate EntryLe(a: Entry, b: Entry)
  {
    a == b || EntryLt(a, b)
  }

  lemma IdLtStrict(a: Identifier, b: Identifier, c: Identifier)
    ensures !IdLt(a, a)
    ensures IdLt(a, b) && IdLt(b, c) ==> IdLt(a, c)
    ensures IdLt(a, b) || a == b || IdLt(b, a)
    ensures IdLt(a, b) ==> !IdLt(b, a)
  {
    StrLtIrreflexive(a.name);
    if StrLt(a.name, b.name) && StrLt(b.name, c.name) {
      StrLtTransitive(a.name, b.name, c.name);
    }
    StrLtTrichotomy(a.name, b.name);
    if StrLt(a.name, b.name) {
      StrLtAsymmetric(a.name, b.name);
    }
  }

  /** The derived order on entries is a strict total order. */
  lemma EntryLtStrict(a: Entry, b: Entry, c: Entry)
    ensures !EntryLt(a, a)
    ensures EntryLt(a, b) && EntryLt(b, c) ==> EntryLt(a, c)
    ensures EntryLt(a, b) || a == b || EntryLt(b, a)
    ensures EntryLt(a, b) ==> !EntryLt(b, a)
  {
    IdLtStrict(a.id, b.id, c.id);
    IdLtStrict(b.id, a.id, c.id);
    IdLtStrict(a.id, a.id, a.id);
    IdLtStrict(b.id, b.id, b.id);
  }

  lemma EntryLeTotalOrder()
    ensures TotalOrder(EntryLe)
  {
    forall a, b ensures EntryLe(a, b) || EntryLe(b, a) {
      EntryLtStrict(a, b, a);
    }
    forall a, b, c | EntryLe(a, b) && EntryLe(b, c) ensures EntryLe(a, c) {
      EntryLtStrict(a, b, c);
    }
    forall a, b | EntryLe(a, b) && EntryLe(b, a) ensures a == b {
      EntryLtStrict(a, b, a);
    }
  }

  /** Ascending in the derived order. The comparison of two positions is
      drawn only where a proof names it. */
  predicate Chronological(r: seq<Entry>)
  {
    forall i, j {:trigger EntryLe(r[i], r[j])} :: 0 <= i < j < |r| ==> EntryLe(r[i], r[j])
  }

  lemma ChronologicalSorted(r: seq<Entry>)
    requires Chronological(r)
    ensures SortedBy(r, EntryLe)
  {
    forall i, j | 0 <= i < j < |r| ensures EntryLe(r[i], r[j]) {
    }
  }

  lemma ChronologicalTail(s: seq<Entry>)
    requires Chronological(s) && s != []
    ensures Chronological(s[1..])
  {
    var tail := s[1..];
    forall i, j | 0 <= i < j < |tail| ensures EntryLe(tail[i], tail[j]) {
      assert EntryLe(s[i + 1], s[j + 1]);
    }
  }

  /** An entry no later than every entry of a chronological sequence can
      go in front of it. */
  lemma ChronologicalCons(x: Entry, s: seq<Entry>)
    requires Chronological(s)
    requires forall y :: y in s ==> EntryLe(x, y)
    ensures Chronological([x] + s)
  {
    var r := [x] + s;
    forall i, j | 0 <= i < j < |r| ensures EntryLe(r[i], r[j]) {
      if i == 0 {
        assert s[j - 1] in s;
      } else {
        assert EntryLe(s[i - 1], s[j - 1]);
      }
    }
  }

  /** Insert `x` into the chronological `s` before the first entry it does
      not exceed. */
  function InsertEntry(x: Entry, s: seq<Entry>): (r: seq<Entry>)
    requires Chronological(s)
    ensures Chronological(r)
    ensures multiset(r) == multiset(s) + multiset{x}
  {
    if s == [] then [x]
    else if EntryLe(x, s[0]) then
      assert forall y :: y in s ==> EntryLe(x, y) by {
        forall y | y in s ensures EntryLe(x, y) {
          var k :| 0 <= k < |s| && s[k] == y;
          assert k == 0 || EntryLe(s[0], s[k]);
          EntryLtStrict(x, s[0], y);
        }
      }
      ChronologicalCons(x, s);
      [x] + s
    else
      ChronologicalTail(s);
      var t := InsertEntry(x, s[1..]);
      assert s == [s[0]] + s[1..];
      assert forall y :: y in t ==> EntryLe(s[0], y) by {
        forall y | y in t ensures EntryLe(s[0], y) {
          assert y in multiset(t);
          if y == x {
            EntryLtStrict(x, s[0], x);
          } else {
            assert y in multiset(s[1..]);
            var k :| 0 <= k < |s[1..]| && s[1..][k] == y;
            assert EntryLe(s[0], s[k + 1]);
          }
        }
      }
      ChronologicalCons(s[0], t);
      [s[0]] + t
  }

  /** `sorted_unstable` on entries: ascending in the derived order
      (insertion sort). */
  function SortEntries(s: seq<Entry>): (r: seq<Entry>)
    ensures Chronological(r)
    ensures multiset(r) == multiset(s)
  {
    if s == [] then []
    else
      assert s == [s[0]] + s[1..];
      InsertEntry(s[0], SortEntries(s[1..]))
  }

  // ---------------------------------------------------------------------
  // Release times
  // ---------------------------------------------------------------------

  /** `Entry::puzzle_unlock`: 05:00:00 UTC on December `day` of `year`, or a
      parse error when that date does not exist. */
  function PuzzleUnlock(year: int, day: nat): (r: Result<int>)
    ensures r.Ok? <==> ValidDate(year, PuzzleMonth, day)
    ensures r.Err? ==> r.error == Parse
    ensures r.Ok? ==> r.value == UtcSeconds(year, PuzzleMonth, day, PuzzleStartingHour, 0, 0)
  {
    if ValidDate(year, PuzzleMonth, day)
    then Ok(UtcSeconds(year, PuzzleMonth, day, PuzzleStartingHour, 0, 0))
    else Err(Parse)
  }

  /** Release is at 05:00:00 of a day, and each later day's puzzle is
      released exactly one day after the previous one. */
  lemma PuzzleUnlockTimeOfDay(year: int, day: nat)
    requires PuzzleUnlock(year, day).Ok?
    ensures PuzzleUnlock(year, day).value % SecondsPerDay == 5 * SecondsPerHour
    ensures day < 31 ==> PuzzleUnlock(year, day + 1).Ok? &&
                          PuzzleUnlock(year, day + 1).value == PuzzleUnlock(year, day).value + SecondsPerDay
  {
    var t := DaysFromCivil(year, PuzzleMonth, day);
    assert PuzzleUnlock(year, day).value == t * SecondsPerDay + 18000;
    WithinDay(t, 18000);
    NextDayInMonth(year, PuzzleMonth, day);
  }

  lemma WithinDay(t: int, r: int)
    requires 0 <= r < SecondsPerDay
    ensures (t * SecondsPerDay + r) % SecondsPerDay == r
  {
  }

  /** The first puzzle of the first event, 2015-12-01T05:00:00Z. */
  lemma FirstPuzzleUnlock()
    ensures PuzzleUnlock(2015, 1) == Ok(1448946000)
  {
  }

  /** Every December has 31 days: days 1 to 31 of any supported year are
      valid, and days 0 and 32 onwards never are. */
  lemma PuzzleUnlockDomain(year: int, day: nat)
    ensures PuzzleUnlock(year, day).Ok? <==> MinYear <= year <= MaxYear && 1 <= day <= 31
  {
  }

  /** `Entry::duration_since_release`: timestamp minus release time. */
  function DurationSinceRelease(e: Entry): (r: Result<int>)
    ensures r.Ok? <==> PuzzleUnlock(e.year, e.day).Ok?
    ensures r.Ok? ==> e.timestamp == PuzzleUnlock(e.year, e.day).value + r.value
  {
    match PuzzleUnlock(e.year, e.day)
    case Ok(release) => Ok(e.timestamp - release)
    case Err(err) => Err(err)
  }

  /** `Entry::duration_until_next_release`: release time of the next day's
      puzzle minus timestamp. The `u8` increment of the day would overflow
      for day 255. */
  function DurationUntilNextRelease(e: Entry): (r: Result<int>)
    requires e.day < 255
    ensures r.Ok? <==> PuzzleUnlock(e.year, e.day + 1).Ok?
    ensures r.Ok? ==> e.timestamp + r.value == PuzzleUnlock(e.year, e.day + 1).value
  {
    match PuzzleUnlock(e.year, e.day + 1)
    case Ok(release) => Ok(release - e.timestamp)
    case Err(err) => Err(err)
  }

  /** The time since this day's release and the time until the next one add
      up to one day, for days 1 to 30. */
  lemma SinceAndUntilReleaseSpanOneDay(e: Entry)
    requires 1 <= e.day <= 30 && MinYear <= e.year <= MaxYear
    ensures DurationSinceRelease(e).Ok? && DurationUntilNextRelease(e).Ok?
    ensures DurationSinceRelease(e).value + DurationUntilNextRelease(e).value == SecondsPerDay
  {
    PuzzleUnlockTimeOfDay(e.year, e.day);
  }

  // ---------------------------------------------------------------------
  // Storage key
  // ---------------------------------------------------------------------

  /** `Entry::to_key`: "{numeric}_{part}_{rank or 0}". */
  function ToKey(e: Entry): string
  {
    NatToString(e.id.numeric) + "_" + NatToString(e.part) + "_" +
      NatToString(match e.rank case Some(r) => r case None => 0)
  }

  function RankOrZero(rank: Option<nat>): nat
  {
    match rank
    case Some(r) => r
    case None => 0
  }

  /** Split at the first occurrence of `sep`. */
  function SplitOnce(s: string, sep: char): (r: Option<(string, string)>)
    ensures r.Some? ==> s == r.value.0 + [sep] + r.value.1 && sep !in r.value.0
    ensures r.None? ==> sep !in s
  {
    if s == [] then None
    else if s[0] == sep then
      assert s == [] + [sep] + s[1..];
      Some(([], s[1..]))
    else
      match SplitOnce(s[1..], sep)
      case None => None
      case Some((a, b)) =>
        assert s == [s[0]] + a + [sep] + b;
        Some(([s[0]] + a, b))
  }

  lemma {:induction false} SplitOnceUnique(a: string, b: string, sep: char)
    requires sep !in a
    ensures SplitOnce(a + [sep] + b, sep) == Some((a, b))
    decreases |a|
  {
    var s := a + [sep] + b;
    if a == [] {
      assert s == [sep] + b;
      assert s[1..] == b;
    } else {
      assert s[0] == a[0];
      assert s[1..] == a[1..] + [sep] + b;
      SplitOnceUnique(a[1..], b, sep);
      assert [a[0]] + a[1..] == a;
    }
  }

  /** Reading a key back into (numeric id, part, rank or 0). */
  function ParseKey(key: string): Option<(nat, nat, nat)>
  {
    match SplitOnce(key, '_')
    case None => None
    case Some((numeric, rest)) =>
      match SplitOnce(rest, '_')
      case None => None
      case Some((part, rank)) =>
        if numeric != [] && AllDigits(numeric) && part != [] && AllDigits(part) && rank != [] && AllDigits(rank)
        then Some((DigitsValue(numeric), DigitsValue(part), DigitsValue(rank)))
        else None
  }

  /** The key of an entry reads back as its numeric id, part and rank (0 for
      no rank). */
  lemma ParseToKey(e: Entry)
    ensures ParseKey(ToKey(e)) == Some((e.id.numeric, e.part, RankOrZero(e.rank)))
  {
    var n, p, r := NatToString(e.id.numeric), NatToString(e.part), NatToString(RankOrZero(e.rank));
    assert ToKey(e) == n + ['_'] + (p + ['_'] + r);
    assert '_' !in n by { assert AllDigits(n); }
    assert '_' !in p by { assert AllDigits(p); }
    SplitOnceUnique(n, p + ['_'] + r, '_');
    SplitOnceUnique(p, r, '_');
    NatToStringRoundTrip(e.id.numeric);
    NatToStringRoundTrip(e.part);
    NatToStringRoundTrip(RankOrZero(e.rank));
  }

  /** Two entries share a key exactly when they agree on numeric id, part
      and rank-or-0. */
  lemma ToKeyInjective(a: Entry, b: Entry)
    ensures ToKey(a) == ToKey(b) <==>
      a.id.numeric == b.id.numeric && a.part == b.part && RankOrZero(a.rank) == RankOrZero(b.rank)
  {
    ParseToKey(a);
    ParseToKey(b);
  }
}

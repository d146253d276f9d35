/** The client snapshot (src/client/aoc.rs): the paths of the two Advent
    of Code endpoints, the building of the private leaderboard from the
    decoded JSON response, and the local-score standings of that
    leaderboard.

    The decoded response is given as a value: the event name, and per
    member its optional name, local score, numeric id and, per day key,
    the star keys with their completion timestamps. Maps are iterated in
    the order of their sequences here. Members, daily and local scores
    are the ones of `AocLeaderboard`, whose code this snapshot shares. */
module ClientAoc {
  import opened Common
  import opened Strings
  import opened Sorting
  import opened Calendar
  import opened Entries
  import opened LocalScoring
  import AocLeaderboard

  // ---------------------------------------------------------------------
  // Endpoints
  // ---------------------------------------------------------------------

  /** The global leaderboard of a day, or a private leaderboard of a year. */
  datatype Endpoint = GlobalLeaderboard(year: nat, day: nat) | PrivateLeaderboard(year: nat, id: nat)

  const DayPath: string := "/leaderboard/day/"
  const PrivatePath: string := "/leaderboard/private/view/"
  const JsonSuffix: string := ".json"

  /** The path after the year. */
  function EndpointTail(e: Endpoint): string
  {
    match e
    case GlobalLeaderboard(_, day) => DayPath + NatToString(day)
    case PrivateLeaderboard(_, id) => PrivatePath + NatToString(id) + JsonSuffix
  }

  /** `Display` of an endpoint: `/{year}/leaderboard/day/{day}` and
      `/{year}/leaderboard/private/view/{id}.json`. */
  function EndpointPath(e: Endpoint): (s: string)
    ensures s == "/" + NatToString(e.year) + EndpointTail(e)
  {
    match e
    case GlobalLeaderboard(year, day) => "/" + NatToString(year) + DayPath + NatToString(day)
    case PrivateLeaderboard(year, id) => "/" + NatToString(year) + PrivatePath + NatToString(id) + JsonSuffix
  }

  /** The length of the leading run of digits. */
  function DigitPrefix(s: string): (n: nat)
    ensures n <= |s|
  {
    if s == [] || !IsDigit(s[0]) then 0 else 1 + DigitPrefix(s[1..])
  }

  lemma {:induction false} DigitPrefixOf(a: string, rest: string)
    requires AllDigits(a)
    requires rest != [] && !IsDigit(rest[0])
    ensures DigitPrefix(a + rest) == |a|
    decreases |a|
  {
    if a == [] {
      assert a + rest == rest;
    } else {
      assert (a + rest)[1..] == a[1..] + rest;
      DigitPrefixOf(a[1..], rest);
    }
  }

  /** The character that tells the two kinds of path apart: the first one
      after "/leaderboard/" ('d' or 'p'). */
  function PathKind(s: string): char
  {
    if s != [] && 1 + DigitPrefix(s[1..]) + 13 < |s| then s[1 + DigitPrefix(s[1..]) + 13] else ' '
  }

  lemma PathShape(e: Endpoint)
    ensures DigitPrefix(EndpointPath(e)[1..]) == |NatToString(e.year)|
    ensures EndpointPath(e)[1..] == NatToString(e.year) + EndpointTail(e)
    ensures PathKind(EndpointPath(e)) == if e.GlobalLeaderboard? then 'd' else 'p'
  {
    var s := EndpointPath(e);
    var y := NatToString(e.year);
    var tail := EndpointTail(e);
    assert s[1..] == y + tail;
    assert tail[0] == '/';
    DigitPrefixOf(y, tail);
    assert s[1 + |y| + 13] == tail[13];
  }

  /** Different endpoints have different paths: a path names its endpoint. */
  lemma EndpointInjective(e1: Endpoint, e2: Endpoint)
    ensures EndpointPath(e1) == EndpointPath(e2) ==> e1 == e2
  {
    var s1, s2 := EndpointPath(e1), EndpointPath(e2);
    if s1 == s2 {
      PathShape(e1);
      PathShape(e2);
      var y1, y2 := NatToString(e1.year), NatToString(e2.year);
      var t1, t2 := EndpointTail(e1), EndpointTail(e2);
      assert y1 == s1[1..][..|y1|] && y2 == s2[1..][..|y2|];
      NatToStringInjective(e1.year, e2.year);
      assert t1 == s1[1..][|y1|..] && t2 == s2[1..][|y2|..];
      if e1.GlobalLeaderboard? && e2.GlobalLeaderboard? {
        assert NatToString(e1.day) == t1[|DayPath|..];
        assert NatToString(e2.day) == t2[|DayPath|..];
        NatToStringInjective(e1.day, e2.day);
      } else if e1.PrivateLeaderboard? && e2.PrivateLeaderboard? {
        assert NatToString(e1.id) == t1[|PrivatePath|..|t1| - |JsonSuffix|];
        assert NatToString(e2.id) == t2[|PrivatePath|..|t2| - |JsonSuffix|];
        NatToStringInjective(e1.id, e2.id);
      }
    }
  }

  // ---------------------------------------------------------------------
  // The private leaderboard response
  // ---------------------------------------------------------------------

  /** A member of the decoded response; `days` maps a day key to the star
      keys of that day with their completion timestamps. */
  datatype MemberRecord = MemberRecord(
    name: Option<string>,
    localScore: nat,
    id: nat,
    days: seq<(string, seq<(string, int)>)>)

  /** The decoded response: the event (a year, as text) and the members. */
  datatype Response = Response(event: string, members: seq<(string, MemberRecord)>)

  const AnonymousPrefix: string := "anonymous user #"

  /** A member's display name: its name, or "anonymous user #" and its id
      for a member without one. */
  function DisplayName(name: Option<string>, id: nat): (s: string)
    ensures name.None? ==> |s| > |AnonymousPrefix| && s[..|AnonymousPrefix|] == AnonymousPrefix
  {
    match name
    case Some(n) => n
    case None => AnonymousPrefix + NatToString(id)
  }

  /** The anonymous name gives back the member's id. */
  lemma AnonymousNameRoundTrip(id: nat)
    ensures var s := DisplayName(None, id);
      AllDigits(s[|AnonymousPrefix|..]) && DigitsValue(s[|AnonymousPrefix|..]) == id
  {
    var s := DisplayName(None, id);
    assert s[|AnonymousPrefix|..] == NatToString(id);
    NatToStringRoundTrip(id);
  }

  /** One star as the loops of `parse_private_leaderboard` meet it. */
  datatype RawStar = RawStar(name: string, member: MemberRecord, day: string, star: string, ts: int)

  const I32Min: int := -0x8000_0000
  const I32Max: nat := 0x7fff_ffff
  const U8Max: nat := 0xff

  /** The solution of one star: a timestamp chrono can represent, the event
      as an `i32`, the day key and the star key as `u8`s; any other input
      is a parse error. */
  function ParseStar(event: string, raw: RawStar): (r: Result<Entry>)
    ensures r.Err? ==> r.error == Parse
    ensures r.Ok? <==> TimestampInRange(raw.ts) && ParseSigned(event, I32Min, I32Max).Some? &&
                       ParseUnsigned(raw.day, U8Max).Some? && ParseUnsigned(raw.star, U8Max).Some?
    ensures r.Ok? ==> r.value.timestamp == raw.ts && I32Min <= r.value.year <= I32Max &&
                      r.value.day <= U8Max && r.value.part <= U8Max && r.value.rank.None? &&
                      r.value.id == Identifier(raw.name, raw.member.id, raw.member.localScore)
  {
    if !TimestampInRange(raw.ts) then Err(Parse)
    else
      match ParseSigned(event, I32Min, I32Max)
      case None => Err(Parse)
      case Some(year) =>
        match ParseUnsigned(raw.day, U8Max)
        case None => Err(Parse)
        case Some(day) =>
          match ParseUnsigned(raw.star, U8Max)
          case None => Err(Parse)
          case Some(part) =>
            Ok(Entry(raw.ts, year, day, part, Identifier(raw.name, raw.member.id, raw.member.localScore), None))
  }

  /** A solution written out as its star keys parses back to itself. */
  lemma ParseStarRoundTrip(e: Entry, m: MemberRecord)
    requires TimestampInRange(e.timestamp)
    requires 0 <= e.year <= I32Max && e.day <= U8Max && e.part <= U8Max && e.rank.None?
    requires e.id.numeric == m.id && e.id.score == m.localScore
    ensures ParseStar(NatToString(e.year), RawStar(e.id.name, m, NatToString(e.day), NatToString(e.part), e.timestamp)) == Ok(e)
  {
    ParseSignedNatToString(e.year, I32Min, I32Max);
    ParseUnsignedNatToString(e.day, U8Max);
    ParseUnsignedNatToString(e.part, U8Max);
  }

  /** The stars of one day of a member, in order. */
  function StarsOfDay(name: string, m: MemberRecord, day: string, stars: seq<(string, int)>): (r: seq<RawStar>)
    ensures |r| == |stars|
  {
    if stars == [] then []
    else
      var last := stars[|stars| - 1];
      StarsOfDay(name, m, day, stars[..|stars| - 1]) + [RawStar(name, m, day, last.0, last.1)]
  }

  /** The stars of the given days of a member, day after day. */
  function StarsOfDays(name: string, m: MemberRecord, days: seq<(string, seq<(string, int)>)>): seq<RawStar>
  {
    if days == [] then []
    else
      var last := days[|days| - 1];
      StarsOfDays(name, m, days[..|days| - 1]) + StarsOfDay(name, m, last.0, last.1)
  }

  /** The stars of the given members, member after member, each under the
      member's display name. */
  function StarsOfMembers(members: seq<(string, MemberRecord)>): seq<RawStar>
  {
    if members == [] then []
    else
      var m := members[|members| - 1].1;
      StarsOfMembers(members[..|members| - 1]) + StarsOfDays(DisplayName(m.name, m.id), m, m.days)
  }

  /** The solutions of the given stars, or the parse error of the first
      star that fails. */
  function ParseAll(event: string, raws: seq<RawStar>): (r: Result<seq<Entry>>)
    ensures r.Err? <==> exists x :: x in raws && ParseStar(event, x).Err?
    ensures r.Err? ==> r.error == Parse
    ensures r.Ok? ==> |r.value| == |raws|
    ensures r.Ok? ==> forall i :: 0 <= i < |raws| ==> ParseStar(event, raws[i]).Ok? && r.value[i] == ParseStar(event, raws[i]).value
  {
    if raws == [] then Ok([])
    else
      var init, last := raws[..|raws| - 1], raws[|raws| - 1];
      assert raws == init + [last];
      match ParseAll(event, init)
      case Err(e) => Err(e)
      case Ok(es) =>
        match ParseStar(event, last)
        case Err(e) => Err(e)
        case Ok(s) => Ok(es + [s])
  }

  lemma {:induction false} InStarsOfDay(name: string, m: MemberRecord, day: string, stars: seq<(string, int)>, k: nat)
    requires k < |stars|
    ensures RawStar(name, m, day, stars[k].0, stars[k].1) in StarsOfDay(name, m, day, stars)
    decreases |stars|
  {
    if k < |stars| - 1 {
      InStarsOfDay(name, m, day, stars[..|stars| - 1], k);
    }
  }

  lemma {:induction false} InStarsOfDays(name: string, m: MemberRecord, days: seq<(string, seq<(string, int)>)>, j: nat, x: RawStar)
    requires j < |days|
    requires x in StarsOfDay(name, m, days[j].0, days[j].1)
    ensures x in StarsOfDays(name, m, days)
    decreases |days|
  {
    if j < |days| - 1 {
      InStarsOfDays(name, m, days[..|days| - 1], j, x);
    }
  }

  lemma {:induction false} InStarsOfMembers(members: seq<(string, MemberRecord)>, i: nat, x: RawStar)
    requires i < |members|
    requires x in StarsOfDays(DisplayName(members[i].1.name, members[i].1.id), members[i].1, members[i].1.days)
    ensures x in StarsOfMembers(members)
    decreases |members|
  {
    if i < |members| - 1 {
      InStarsOfMembers(members[..|members| - 1], i, x);
    }
  }

  lemma StarsOfDayStep(name: string, m: MemberRecord, day: string, stars: seq<(string, int)>, k: nat)
    requires k < |stars|
    ensures StarsOfDay(name, m, day, stars[..k + 1]) ==
            StarsOfDay(name, m, day, stars[..k]) + [RawStar(name, m, day, stars[k].0, stars[k].1)]
  {
    assert stars[..k + 1][..k] == stars[..k];
  }

  lemma StarsOfDaysStep(name: string, m: MemberRecord, days: seq<(string, seq<(string, int)>)>, j: nat)
    requires j < |days|
    ensures StarsOfDays(name, m, days[..j + 1]) ==
            StarsOfDays(name, m, days[..j]) + StarsOfDay(name, m, days[j].0, days[j].1)
  {
    assert days[..j + 1][..j] == days[..j];
  }

  lemma StarsOfMembersStep(members: seq<(string, MemberRecord)>, i: nat)
    requires i < |members|
    ensures var m := members[i].1;
      StarsOfMembers(members[..i + 1]) ==
      StarsOfMembers(members[..i]) + StarsOfDays(DisplayName(m.name, m.id), m, m.days)
  {
    assert members[..i + 1][..i] == members[..i];
  }

  lemma ConcatAssociative<T>(a: seq<T>, b: seq<T>, c: seq<T>)
    ensures a + (b + c) == (a + b) + c
  {
  }

  /** One more star: the solutions so far and the new one. */
  lemma ParseAllSnoc(event: string, raws: seq<RawStar>, x: RawStar, earned: seq<Entry>)
    requires ParseAll(event, raws) == Ok(earned)
    requires ParseStar(event, x).Ok?
    ensures ParseAll(event, raws + [x]) == Ok(earned + [ParseStar(event, x).value])
  {
    assert (raws + [x])[..|raws|] == raws;
  }

  /** A star that fails within `b`, after stars `a` that all parse, fails
      any sequence holding every star of `b`. */
  lemma ParseAllFailsIn(event: string, a: seq<RawStar>, b: seq<RawStar>, w: seq<RawStar>)
    requires ParseAll(event, a).Ok? && ParseAll(event, a + b).Err?
    requires forall x :: x in b ==> x in w
    ensures ParseAll(event, w).Err?
  {
    var x :| x in a + b && ParseStar(event, x).Err?;
    assert x in b;
  }

  /** The stars of one day, the solutions so far (for the stars `before`)
      extended with theirs, or the first parse error. */
  method ParseDay(event: string, name: string, member: MemberRecord, day: string, stars: seq<(string, int)>,
                  ghost before: seq<RawStar>, earned: seq<Entry>) returns (r: Result<seq<Entry>>)
    requires ParseAll(event, before) == Ok(earned)
    ensures r == ParseAll(event, before + StarsOfDay(name, member, day, stars))
  {
    var solutions := earned;
    assert before + StarsOfDay(name, member, day, stars[..0]) == before;
    var k := 0;
    while k < |stars|
      invariant 0 <= k <= |stars|
      invariant ParseAll(event, before + StarsOfDay(name, member, day, stars[..k])) == Ok(solutions)
    {
      var star := stars[k].0;
      var ts := stars[k].1;
      var raw := RawStar(name, member, day, star, ts);
      var parsed := ParseStar(event, raw);
      if parsed.Err? {
        assert ParseAll(event, before + StarsOfDay(name, member, day, stars)).Err? by {
          InStarsOfDay(name, member, day, stars, k);
          assert raw in before + StarsOfDay(name, member, day, stars);
        }
        return Err(Parse);
      }
      assert ParseAll(event, before + StarsOfDay(name, member, day, stars[..k + 1])) == Ok(solutions + [parsed.value]) by {
        ParseAllSnoc(event, before + StarsOfDay(name, member, day, stars[..k]), raw, solutions);
        StarsOfDayStep(name, member, day, stars, k);
        ConcatAssociative(before, StarsOfDay(name, member, day, stars[..k]), [raw]);
      }
      solutions := solutions + [parsed.value];
      k := k + 1;
    }
    assert stars[..k] == stars;
    r := Ok(solutions);
  }

  /** The stars of one member, day after day, under its display name. */
  method ParseMember(event: string, member: MemberRecord, ghost before: seq<RawStar>, earned: seq<Entry>)
    returns (r: Result<seq<Entry>>)
    requires ParseAll(event, before) == Ok(earned)
    ensures r == ParseAll(event, before + StarsOfDays(DisplayName(member.name, member.id), member, member.days))
  {
    var name := match member.name case Some(n) => n case None => AnonymousPrefix + NatToString(member.id);
    assert name == DisplayName(member.name, member.id);
    var days := member.days;
    var solutions := earned;
    assert before + StarsOfDays(name, member, days[..0]) == before;
    var j := 0;
    while j < |days|
      invariant 0 <= j <= |days|
      invariant ParseAll(event, before + StarsOfDays(name, member, days[..j])) == Ok(solutions)
    {
      ghost var seen := before + StarsOfDays(name, member, days[..j]);
      var day := ParseDay(event, name, member, days[j].0, days[j].1, seen, solutions);
      StarsOfDaysStep(name, member, days, j);
      ConcatAssociative(before, StarsOfDays(name, member, days[..j]), StarsOfDay(name, member, days[j].0, days[j].1));
      if day.Err? {
        forall x | x in StarsOfDay(name, member, days[j].0, days[j].1)
          ensures x in before + StarsOfDays(name, member, days)
        {
          InStarsOfDays(name, member, days, j, x);
        }
        ParseAllFailsIn(event, seen, StarsOfDay(name, member, days[j].0, days[j].1),
                        before + StarsOfDays(name, member, days));
        return Err(Parse);
      }
      solutions := day.value;
      j := j + 1;
    }
    assert days[..j] == days;
    r := Ok(solutions);
  }

  /** `parse_private_leaderboard` past the decoding: for every member, day
      and star, the solution of the star, stopping at the first parse
      error; the solutions sorted in the derived order. */
  method ParsePrivateLeaderboard(resp: Response) returns (r: Result<seq<Entry>>)
    ensures r.Err? <==> ParseAll(resp.event, StarsOfMembers(resp.members)).Err?
    ensures r.Err? ==> r.error == Parse
    ensures r.Ok? ==> SortedBy(r.value, EntryLe) &&
                      multiset(r.value) == multiset(ParseAll(resp.event, StarsOfMembers(resp.members)).value)
  {
    var members := resp.members;
    var earned: seq<Entry> := [];
    var i := 0;
    while i < |members|
      invariant 0 <= i <= |members|
      invariant ParseAll(resp.event, StarsOfMembers(members[..i])) == Ok(earned)
    {
      var member := members[i].1;
      ghost var seen := StarsOfMembers(members[..i]);
      var parsed := ParseMember(resp.event, member, seen, earned);
      StarsOfMembersStep(members, i);
      if parsed.Err? {
        ghost var name := DisplayName(member.name, member.id);
        forall x | x in StarsOfDays(name, member, member.days) ensures x in StarsOfMembers(members) {
          InStarsOfMembers(members, i, x);
        }
        ParseAllFailsIn(resp.event, seen, StarsOfDays(name, member, member.days), StarsOfMembers(members));
        return Err(Parse);
      }
      earned := parsed.value;
      i := i + 1;
    }
    assert members[..i] == members;
    r := Ok(SortEntries(earned));
    ChronologicalSorted(r.value);
  }

  // ---------------------------------------------------------------------
  // Standings
  // ---------------------------------------------------------------------

  /** `standings_by_local_score`: every member with its local score,
      sorted by score ascending and then reversed, so by score
      descending. */
  method StandingsByLocalScore(board: AocLeaderboard.Board) returns (r: seq<AocLeaderboard.Row>)
    requires Scorable(board, Whole)
    ensures AocLeaderboard.Descending(r)
    ensures multiset(r) == multiset(AocLeaderboard.LocalRows(board))
  {
    var scores := AocLeaderboard.LocalScoresPerMember(board);
    var ms := AocLeaderboard.MemberList(board);
    var rows := seq(|ms|, i requires 0 <= i < |ms| && ms[i] in scores => (ms[i].name, scores[ms[i]]));
    assert rows == AocLeaderboard.LocalRows(board);
    var ascending := SortBy(rows, (a: AocLeaderboard.Row, b: AocLeaderboard.Row) => a.1 <= b.1);
    r := Reverse(ascending);
    ReversePermutation(ascending);
  }
}

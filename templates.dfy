/** Validation of the (year, day) a user asks the bot about: the reason
    the bot gives for refusing a request, or none when it can be served.
    The current event year and day and the current time are parameters. */
module Templates {
  import opened Common
  import opened Entries

  /** The first year of the event. */
  const FirstEventYear: int := 2015

  /** The last day of an event. */
  const LastPuzzleDay: nat := 25

  /** The refusals `invalid_year_day_message` can give, with the values its
      message shows; the wording itself is not modelled. */
  datatype Refusal =
    | NoEventYet(year: int)
    | FutureYear(years: int, plural: string, year: int)
    | ZeroDay
    | AfterChristmas
    | FutureDay(days: int, plural: string, day: nat)
    | NotReleasedYet

  /** The "s" of a plural count. */
  function Plural(delta: int): (s: string)
    ensures s == "s" <==> delta > 1
    ensures s == "" <==> delta <= 1
  {
    if delta > 1 then "s" else ""
  }

  /** `Option<u8>`'s order: `None` is below every `Some`. */
  predicate DayAbove(day: Option<nat>, bound: nat)
  {
    day.Some? && day.value > bound
  }

  /** `invalid_year_day_message(year, day)` for an event currently at
      (`currentYear`, `currentDay`) at time `now` (seconds): the checks in
      order are too early a year, a future year, day zero, a day after the
      25th, then a future day or today's puzzle not yet released. */
  function InvalidYearDayMessage(year: int, day: Option<nat>, currentYear: int, currentDay: nat, now: int): (r: Option<Refusal>)
    ensures year < FirstEventYear ==> r == Some(NoEventYet(year))
    ensures FirstEventYear <= year && year > currentYear ==>
              r == Some(FutureYear(year - currentYear, Plural(year - currentYear), year))
    ensures FirstEventYear <= year <= currentYear && day == Some(0) ==> r == Some(ZeroDay)
    ensures FirstEventYear <= year <= currentYear && DayAbove(day, LastPuzzleDay) ==> r == Some(AfterChristmas)
  {
    if year < FirstEventYear then Some(NoEventYet(year))
    else if year > currentYear then
      var delta := year - currentYear;
      Some(FutureYear(delta, Plural(delta), year))
    else if day == Some(0) then Some(ZeroDay)
    else if DayAbove(day, LastPuzzleDay) then Some(AfterChristmas)
    else if year == currentYear && DayAbove(day, currentDay) then
      var delta := day.value - currentDay;
      Some(FutureDay(delta, Plural(delta), day.value))
    else if year == currentYear && day == Some(currentDay) then
      match PuzzleUnlock(year, day.value)
      case Ok(release) => if now - release > 0 then None else Some(NotReleasedYet)
      case Err(_) => None
    else None
  }

  /** A request is served exactly when its year is between the first event
      and now, and its day, when given, is a day of the event that is
      either in a past year, before today, or today once the puzzle is out
      (or today with no release time at all). */
  lemma InvalidYearDayMessageAccepts(year: int, day: Option<nat>, currentYear: int, currentDay: nat, now: int)
    ensures InvalidYearDayMessage(year, day, currentYear, currentDay, now).None? <==>
      FirstEventYear <= year <= currentYear &&
      (day.None? ||
       (1 <= day.value <= LastPuzzleDay &&
        (year < currentYear || day.value < currentDay ||
         (day.value == currentDay &&
          (PuzzleUnlock(year, day.value).Err? || now > PuzzleUnlock(year, day.value).value)))))
  {
  }

  /** In the current year, a day after today but within the event is
      refused with the number of days to wait. */
  lemma FutureDayRefused(year: int, d: nat, currentDay: nat, now: int)
    requires FirstEventYear <= year && 1 <= d <= LastPuzzleDay && d > currentDay
    ensures InvalidYearDayMessage(year, Some(d), year, currentDay, now) ==
              Some(FutureDay(d - currentDay, Plural(d - currentDay), d))
  {
  }

  /** Today's puzzle in the current year is refused exactly until its
      release time has passed. */
  lemma TodayRefusedUntilRelease(year: int, d: nat, now: int)
    requires FirstEventYear <= year && 1 <= d <= LastPuzzleDay
    ensures PuzzleUnlock(year, d).Ok? ==>
              (InvalidYearDayMessage(year, Some(d), year, d, now) == Some(NotReleasedYet) <==>
               now <= PuzzleUnlock(year, d).value)
  {
  }

  /** Without a day, any year from the first event to the current one is
      served, whatever the current day and time. */
  lemma NoDayServed(year: int, currentYear: int, currentDay: nat, now: int)
    requires FirstEventYear <= year <= currentYear
    ensures InvalidYearDayMessage(year, None, currentYear, currentDay, now).None?
  {
  }

  /** Examples: 2014 is before the event; two years ahead says "years";
      one year ahead says "year". */
  lemma InvalidYearDayMessageExamples()
    ensures InvalidYearDayMessage(2014, Some(3), 2023, 10, 0) == Some(NoEventYet(2014))
    ensures InvalidYearDayMessage(2025, None, 2023, 10, 0) == Some(FutureYear(2, "s", 2025))
    ensures InvalidYearDayMessage(2024, None, 2023, 10, 0) == Some(FutureYear(1, "", 2024))
    ensures InvalidYearDayMessage(2020, Some(26), 2023, 10, 0) == Some(AfterChristmas)
    ensures InvalidYearDayMessage(2023, Some(11), 2023, 10, 0) == Some(FutureDay(1, "", 11))
  {
  }
}

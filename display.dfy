/** The text tables the bot posts: the yearly board with one star glyph
    per day, and the Tour de France and daily rankings. Every table has
    one line per row: the 1-based position right-aligned, ") ", the name
    left-aligned, then the row's own columns. Durations are rendered by
    the formatters passed in as functions. */
module Display {
  import opened Common
  import opened Strings
  import opened Entries
  import opened LocalScoring
  import opened CoreStandings
  import opened Layout

  // ---------------------------------------------------------------------
  // The board
  // ---------------------------------------------------------------------

  /** A board row: member, the day slots, the total shown. */
  type BoardEntry = (Identifier, seq<Slot>, nat)

  /** At most two stars a day (more is unreachable in `board`). */
  predicate GlyphSlots(slots: seq<Slot>)
  {
    forall k :: 0 <= k < |slots| ==> slots[k].stars <= 2
  }

  /** A day's glyph: " -" for no star, " □" for one, " ■" for two. */
  function Glyph(stars: nat): (g: string)
    requires stars <= 2
    ensures |g| == 2 && g[0] == ' '
  {
    if stars == 0 then " -" else if stars == 1 then " \U{25A1}" else " \U{25A0}"
  }

  /** The day glyphs of a row, two characters per day. */
  function Glyphs(slots: seq<Slot>): (s: string)
    requires GlyphSlots(slots)
    ensures |s| == 2 * |slots|
  {
    if slots == [] then "" else Glyph(slots[0].stars) + Glyphs(slots[1..])
  }

  /** Reads star counts back off a glyph string, two characters a day. */
  function GlyphStars(s: string): seq<nat>
    decreases |s|
  {
    if |s| < 2 then []
    else [if s[1] == '\U{25A0}' then 2 else if s[1] == '\U{25A1}' then 1 else 0] + GlyphStars(s[2..])
  }

  /** The glyphs show each day's star count: reading them back gives the
      slots' stars, day by day. */
  lemma {:induction false} GlyphsRoundTrip(slots: seq<Slot>)
    requires GlyphSlots(slots)
    ensures |GlyphStars(Glyphs(slots))| == |slots|
    ensures forall k :: 0 <= k < |slots| ==> GlyphStars(Glyphs(slots))[k] == slots[k].stars
    decreases |slots|
  {
    if slots != [] {
      var s := Glyphs(slots);
      assert s[2..] == Glyphs(slots[1..]);
      GlyphsRoundTrip(slots[1..]);
    }
  }

  function Totals(entries: seq<BoardEntry>): (totals: seq<nat>)
    ensures |totals| == |entries| && forall i :: 0 <= i < |entries| ==> totals[i] == entries[i].2
  {
    seq(|entries|, i requires 0 <= i < |entries| => entries[i].2)
  }

  /** The score column: one more than the digits of the largest total;
      0 without rows. */
  function ScoreWidth(entries: seq<BoardEntry>): nat
  {
    if entries == [] then 0 else 1 + |NatToString(Largest(Totals(entries)))|
  }

  function BoardNames(entries: seq<BoardEntry>): (names: seq<string>)
    ensures |names| == |entries| && forall i :: 0 <= i < |entries| ==> names[i] == entries[i].0.name
  {
    seq(|entries|, i requires 0 <= i < |entries| => entries[i].0.name)
  }

  /** A board cell: the total right-aligned on the score column, two
      blanks, the glyphs in brackets. */
  function BoardCell(total: nat, width: nat, slots: seq<Slot>): string
    requires GlyphSlots(slots)
  {
    PadLeft(NatToString(total), width, ' ') + "  [" + Glyphs(slots) + "]"
  }

  function BoardCells(entries: seq<BoardEntry>): (cells: seq<string>)
    requires forall i :: 0 <= i < |entries| ==> GlyphSlots(entries[i].1)
    ensures |cells| == |entries|
    ensures forall i :: 0 <= i < |entries| ==> cells[i] == BoardCell(entries[i].2, ScoreWidth(entries), entries[i].1)
  {
    seq(|entries|, i requires 0 <= i < |entries| => BoardCell(entries[i].2, ScoreWidth(entries), entries[i].1))
  }

  /** `board`: one line per row, in the rows' order. */
  function Board(entries: seq<BoardEntry>): string
    requires forall i :: 0 <= i < |entries| ==> GlyphSlots(entries[i].1)
  {
    Table(BoardNames(entries), BoardCells(entries))
  }

  /** A board cell whose total fits its column starts with the total on
      the full column, and its bracketed part reads back as the slots'
      stars, day by day. */
  lemma BoardCellShape(total: nat, width: nat, slots: seq<Slot>)
    requires GlyphSlots(slots)
    requires |NatToString(total)| < width
    ensures var cell := BoardCell(total, width, slots);
      |cell| == width + 4 + 2 * |slots| &&
      cell[..width] == PadLeft(NatToString(total), width, ' ') &&
      cell[width..width + 3] == "  [" && cell[|cell| - 1] == ']' &&
      |GlyphStars(cell[width + 3..|cell| - 1])| == |slots| &&
      forall k :: 0 <= k < |slots| ==> GlyphStars(cell[width + 3..|cell| - 1])[k] == slots[k].stars
  {
    BracketShape(NatToString(total), width, Glyphs(slots));
    GlyphsRoundTrip(slots);
  }

  /** Every total is narrower than the score column. */
  lemma TotalFits(entries: seq<BoardEntry>, i: nat)
    requires i < |entries|
    ensures |NatToString(entries[i].2)| < ScoreWidth(entries)
  {
    var m := Largest(Totals(entries));
    NatToStringLength(entries[i].2);
    NatToStringLength(m);
    DigitCountMonotone(entries[i].2, m);
  }

  // ---------------------------------------------------------------------
  // Tour de France rankings
  // ---------------------------------------------------------------------

  /** The gap to the fastest member: none on the first line. */
  function Gap(idx: nat, total: int, fastest: int, formatDuration: int -> string): string
  {
    if idx == 0 then "" else "(+ " + formatDuration(total - fastest) + ")"
  }

  /** The time of the first row, 0 without rows. */
  function Fastest(entries: seq<TdfRow>): int
  {
    if entries == [] then 0 else entries[0].1
  }

  /** The widths of the time columns, from the renderings of 25 penalties,
      and of the penalty column. */
  function DurationWidth(formatDurationWithDays: int -> string): nat
  {
    Utf8Len(formatDurationWithDays(PenaltyUnfinishedDay * 25))
  }

  function GapWidth(formatDuration: int -> string): nat
  {
    Utf8Len(formatDuration(PenaltyUnfinishedDay * 25)) + 3
  }

  /** The gap column of line `idx`. */
  function GapColumn(entries: seq<TdfRow>, idx: nat, formatDuration: int -> string): string
    requires idx < |entries|
  {
    PadLeft(Gap(idx, entries[idx].1, Fastest(entries), formatDuration), GapWidth(formatDuration), ' ')
  }

  /** A cell of `tdf_time_yearly`: total time, gap to the fastest,
      penalties, each right-aligned on its column. */
  function TimeYearlyCell(entries: seq<TdfRow>, idx: nat, formatDuration: int -> string, formatDurationWithDays: int -> string): string
    requires idx < |entries|
  {
    var (_, total, penalties) := entries[idx];
    PadLeft(formatDurationWithDays(total), DurationWidth(formatDurationWithDays), ' ') + " " +
    GapColumn(entries, idx, formatDuration) + " " + PadLeft(PenaltyText(penalties), PenaltiesWidth, ' ')
  }

  function TdfNames(entries: seq<TdfRow>): (names: seq<string>)
    ensures |names| == |entries| && forall i :: 0 <= i < |entries| ==> names[i] == entries[i].0.name
  {
    seq(|entries|, i requires 0 <= i < |entries| => entries[i].0.name)
  }

  /** `tdf_time_yearly`. */
  function TdfTimeYearly(entries: seq<TdfRow>, formatDuration: int -> string, formatDurationWithDays: int -> string): string
  {
    var cells := seq(|entries|, i requires 0 <= i < |entries| => TimeYearlyCell(entries, i, formatDuration, formatDurationWithDays));
    Table(TdfNames(entries), cells)
  }

  /** The first line's gap column is blank; every later line shows the
      gap to the first row's time, right-aligned. */
  lemma TimeYearlyGaps(entries: seq<TdfRow>, idx: nat, formatDuration: int -> string)
    requires idx < |entries|
    ensures idx == 0 ==> GapColumn(entries, idx, formatDuration) == Repeat(' ', GapWidth(formatDuration))
    ensures idx > 0 ==> EndsWith(GapColumn(entries, idx, formatDuration), "(+ " + formatDuration(entries[idx].1 - entries[0].1) + ")")
  {
    if idx == 0 {
      var g := GapColumn(entries, idx, formatDuration);
      assert |g| == GapWidth(formatDuration);
    }
  }

  // ---------------------------------------------------------------------
  // Points rankings
  // ---------------------------------------------------------------------

  /** The lengths of the rendered totals. */
  function PointsLengths(entries: seq<TdfRow>): (lens: seq<nat>)
    ensures |lens| == |entries| && forall i :: 0 <= i < |entries| ==> lens[i] == |IntToString(entries[i].1)|
  {
    seq(|entries|, i requires 0 <= i < |entries| => |IntToString(entries[i].1)|)
  }

  /** The points column: one more than the longest rendered total. */
  function PointsWidth(entries: seq<TdfRow>): (w: nat)
    ensures forall i :: 0 <= i < |entries| ==> |IntToString(entries[i].1)| < w
  {
    1 + Largest(PointsLengths(entries))
  }

  function PointsYearlyCell(entries: seq<TdfRow>, idx: nat): string
    requires idx < |entries|
  {
    PointsCell(entries[idx].1, entries[idx].2, PointsWidth(entries))
  }

  /** `tdf_points_yearly`: rows of (member, points, scored days). */
  function TdfPointsYearly(entries: seq<TdfRow>): string
  {
    var cells := seq(|entries|, i requires 0 <= i < |entries| => PointsYearlyCell(entries, i));
    Table(TdfNames(entries), cells)
  }

  // ---------------------------------------------------------------------
  // Daily rankings
  // ---------------------------------------------------------------------

  /** `tdf_points_daily`: rows of (member, points). */
  function TdfPointsDaily(entries: seq<(Identifier, nat)>): string
  {
    var names := seq(|entries|, i requires 0 <= i < |entries| => entries[i].0.name);
    var cells := seq(|entries|, i requires 0 <= i < |entries| => NatToString(entries[i].1));
    Table(names, cells)
  }

  function DailyNames(entries: seq<(string, string)>): (names: seq<string>)
    ensures |names| == |entries| && forall i :: 0 <= i < |entries| ==> names[i] == entries[i].0
  {
    seq(|entries|, i requires 0 <= i < |entries| => entries[i].0)
  }

  function DailyTimes(entries: seq<(string, string)>): (times: seq<string>)
    ensures |times| == |entries| && forall i :: 0 <= i < |entries| ==> times[i] == entries[i].1
  {
    seq(|entries|, i requires 0 <= i < |entries| => entries[i].1)
  }

  /** `tdf_time_daily`: rows of (name, rendered time). */
  function TdfTimeDaily(entries: seq<(string, string)>): string
  {
    Table(DailyNames(entries), DailyTimes(entries))
  }
}

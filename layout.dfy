/** The layout of the bot's text tables: one line per row with the
    1-based position right-aligned, ") ", the name left-aligned on a
    column one wider than the longest name, a blank, then the row's own
    cell; and the fixed-width texts some cells are made of. */
module Layout {
  import opened Common
  import opened Strings

  // ---------------------------------------------------------------------
  // Tables
  // ---------------------------------------------------------------------

  /** The width of the last position, `entries.len().to_string().len()`. */
  function PositionWidth(n: nat): nat
  {
    |NatToString(n)|
  }

  /** The largest of some widths or totals (`max().unwrap_or_default()`):
      0 when there are none. */
  function Largest(ns: seq<nat>): (m: nat)
    ensures forall i :: 0 <= i < |ns| ==> ns[i] <= m
    ensures ns == [] ==> m == 0
    ensures ns != [] ==> exists i :: 0 <= i < |ns| && ns[i] == m
  {
    if ns == [] then 0
    else
      var m := Largest(ns[..|ns| - 1]);
      if m < ns[|ns| - 1] then ns[|ns| - 1] else m
  }

  /** The names' lengths in UTF-8 bytes (`str::len`). */
  function NameLengths(names: seq<string>): (lens: seq<nat>)
    ensures |lens| == |names| && forall i :: 0 <= i < |names| ==> lens[i] == Utf8Len(names[i])
  {
    seq(|names|, i requires 0 <= i < |names| => Utf8Len(names[i]))
  }

  /** The name column: one more than the longest name. */
  function NameWidth(names: seq<string>): (w: nat)
    ensures forall i :: 0 <= i < |names| ==> |names[i]| < w
  {
    var lens := NameLengths(names);
    assert forall i :: 0 <= i < |names| ==> |names[i]| <= Utf8Len(names[i]) <= Largest(lens);
    1 + Largest(lens)
  }

  /** The opening columns of a line: position `idx + 1` right-aligned on
      the width of the last position `n`, ") ", the name left-aligned. */
  function Lead(idx: nat, n: nat, name: string, widthName: nat): string
  {
    PadLeft(NatToString(idx + 1), PositionWidth(n), ' ') + ") " + PadRight(name, widthName)
  }

  /** The lines of a table: the lead of each name, a space, its cell. */
  function Rows(names: seq<string>, cells: seq<string>): (lines: seq<string>)
    requires |names| == |cells|
    ensures |lines| == |names|
    ensures forall i :: 0 <= i < |names| ==>
      lines[i] == Lead(i, |names|, names[i], NameWidth(names)) + " " + cells[i]
  {
    seq(|names|, i requires 0 <= i < |names| => Lead(i, |names|, names[i], NameWidth(names)) + " " + cells[i])
  }

  /** A table: its lines joined by "\n". */
  function Table(names: seq<string>, cells: seq<string>): string
    requires |names| == |cells|
  {
    Join(Rows(names, cells), "\n")
  }

  /** An empty table is the empty string; otherwise, when no name or cell
      holds a line break, the table has exactly one line per row. */
  lemma TableLines(names: seq<string>, cells: seq<string>)
    requires |names| == |cells|
    requires forall i :: 0 <= i < |names| ==> '\n' !in names[i] && '\n' !in cells[i]
    ensures names == [] ==> Table(names, cells) == ""
    ensures names != [] ==> Count(Table(names, cells), c => c == '\n') == |names| - 1
  {
    var lines := Rows(names, cells);
    forall i | 0 <= i < |lines| ensures '\n' !in lines[i] {
      LineNoBreak(NatToString(i + 1), PositionWidth(|names|), names[i], NameWidth(names), cells[i]);
    }
    JoinNewlines(lines);
  }

  /** A line break only comes from the name or the cell. */
  lemma LineNoBreak(d: string, w: nat, name: string, nw: nat, cell: string)
    requires AllDigits(d) && '\n' !in name && '\n' !in cell
    ensures '\n' !in PadLeft(d, w, ' ') + ") " + PadRight(name, nw) + " " + cell
  {
    var pos := PadLeft(d, w, ' ');
    var nm := PadRight(name, nw);
    assert '\n' !in pos by {
      forall j | 0 <= j < |pos| ensures pos[j] != '\n' {
        if j >= |pos| - |d| {
          assert pos[j] == d[j - (|pos| - |d|)];
        }
      }
    }
    assert '\n' !in nm by {
      forall j | 0 <= j < |nm| ensures nm[j] != '\n' {
        if j < |name| {
          assert nm[j] == name[j];
        }
      }
    }
  }

  /** Every position fits the width of the last one. */
  lemma PositionFits(idx: nat, n: nat)
    requires idx < n
    ensures |NatToString(idx + 1)| <= PositionWidth(n)
  {
    NatToStringLength(idx + 1);
    NatToStringLength(n);
    DigitCountMonotone(idx + 1, n);
  }

  /** The columns of `line`: the digits `d` right-aligned on `w`
      characters with blanks before them, ") ", `name` left-aligned on
      `nw` characters with blanks after it, a blank, then `cell`. */
  predicate Columns(line: string, d: string, w: nat, name: string, nw: nat, cell: string)
  {
    var k := w - |d|;
    0 <= k && |name| < nw && |line| == w + 3 + nw + |cell| &&
    (forall j :: 0 <= j < k ==> line[j] == ' ') &&
    line[k..w] == d && line[w..w + 2] == ") " &&
    line[w + 2..w + 2 + |name|] == name &&
    (forall j :: w + 2 + |name| <= j < w + 3 + nw ==> line[j] == ' ') &&
    line[w + 3 + nw..] == cell
  }

  /** Padded position and name columns joined by ") " and " " give a line
      with those columns. */
  lemma Assemble(pos: string, d: string, nm: string, name: string, cell: string)
    requires |d| <= |pos| && |name| < |nm|
    requires forall j :: 0 <= j < |pos| - |d| ==> pos[j] == ' '
    requires pos[|pos| - |d|..] == d
    requires nm[..|name|] == name
    requires forall j :: |name| <= j < |nm| ==> nm[j] == ' '
    ensures Columns(pos + ") " + nm + " " + cell, d, |pos|, name, |nm|, cell)
  {
    var w, nw := |pos|, |nm|;
    var line := pos + ") " + nm + " " + cell;
    assert line[..w] == pos;
    assert line[w + 2..w + 2 + nw] == nm;
  }

  /** A line built from a position and a name that fit their columns has
      those columns. */
  lemma LineShape(d: string, w: nat, name: string, nw: nat, cell: string)
    requires |d| <= w && |name| < nw
    ensures Columns(PadLeft(d, w, ' ') + ") " + PadRight(name, nw) + " " + cell, d, w, name, nw, cell)
  {
    Assemble(PadLeft(d, w, ' '), d, PadRight(name, nw), name, cell);
  }

  /** Every line lays its columns out at the same places: the position's
      digits end at the position width with blanks before them, the name
      starts two characters later on a column one wider than the longest
      name, and the cell starts one blank after that column. */
  lemma RowColumns(names: seq<string>, cells: seq<string>, i: nat)
    requires |names| == |cells| && i < |names|
    ensures Columns(Rows(names, cells)[i], NatToString(i + 1), PositionWidth(|names|), names[i], NameWidth(names), cells[i])
  {
    PositionFits(i, |names|);
    LineShape(NatToString(i + 1), PositionWidth(|names|), names[i], NameWidth(names), cells[i]);
  }

  // ---------------------------------------------------------------------
  // Cells
  // ---------------------------------------------------------------------

  /** The columns of a board cell with the total's digits `d` on `w`
      characters and the glyphs `g`. */
  lemma BracketShape(d: string, w: nat, g: string)
    requires |d| <= w
    ensures var c := PadLeft(d, w, ' ') + "  [" + g + "]";
      |c| == w + 4 + |g| && c[..w] == PadLeft(d, w, ' ') &&
      c[w..w + 3] == "  [" && c[|c| - 1] == ']' && c[w + 3..|c| - 1] == g
  {
  }

  /** The penalty column: "(All stages)" when every stage was finished,
      otherwise the number of stages out, singular for one. */
  function PenaltyText(penalties: int): (t: string)
  {
    if penalties > 0 && penalties != 1 then "(" + IntToString(penalties) + " stages out)"
    else if penalties > 0 then "(" + IntToString(penalties) + " stage out)"
    else "(All stages)"
  }

  /** The penalty text tells apart any two non-negative penalty counts. */
  lemma PenaltyTextInjective(p: nat, q: nat)
    requires PenaltyText(p) == PenaltyText(q)
    ensures p == q
  {
    if p > 0 && q > 0 {
      var s, t := NatToString(p), NatToString(q);
      var a := if p != 1 then " stages out)" else " stage out)";
      var b := if q != 1 then " stages out)" else " stage out)";
      assert ("(" + s + a)[1..|s| + 1] == s;
      assert ("(" + t + b)[1..|t| + 1] == t;
      NatToStringInjective(p, q);
    }
  }

  const PenaltiesWidth: nat := 16


  /** Up to 25 stages out, the penalty text fits its column. */
  lemma PenaltyTextWidth(p: nat)
    requires p <= 25
    ensures |PenaltyText(p)| < PenaltiesWidth
  {
    if p >= 2 {
      NatToStringLength(p);
      DigitCountMonotone(p, 99);
    }
  }

  /** The scored-days column: the count zero-padded to two digits. */
  function ScoredText(scoredDays: int): string
  {
    "(scored " + PadLeft(IntToString(scoredDays), 2, '0') + " days)"
  }

  /** A count up to 99 padded to two digits is its tens digit then its
      units digit. */
  lemma TwoDigits(d: nat)
    requires d <= 99
    ensures PadLeft(NatToString(d), 2, '0') == [DigitChar(d / 10), DigitChar(d % 10)]
  {
    if d >= 10 {
      assert NatToString(d) == NatToString(d / 10) + [DigitChar(d % 10)];
      assert NatToString(d / 10) == [DigitChar(d / 10)];
    } else {
      assert PadLeft(NatToString(d), 2, '0') == Repeat('0', 1) + [DigitChar(d)];
    }
  }

  /** Those two digits read back as the count. */
  lemma TwoDigitsValue(d: nat)
    requires d <= 99
    ensures var t := [DigitChar(d / 10), DigitChar(d % 10)];
      AllDigits(t) && DigitsValue(t) == d
  {
    var t := [DigitChar(d / 10), DigitChar(d % 10)];
    var a := [DigitChar(d / 10)];
    assert t[..1] == a && a[..0] == [];
    assert DigitValue(t[1]) == d % 10 && DigitValue(a[0]) == d / 10;
    assert DigitsValue(a) == d / 10;
    assert d / 10 * 10 + d % 10 == d;
  }

  /** Where two characters sit in the scored-days text. */
  lemma ScoredShape(t: string)
    requires |t| == 2
    ensures |"(scored " + t + " days)"| == 16 && ("(scored " + t + " days)")[8..10] == t
  {
  }

  lemma ScoredTextWidth(d: int)
    requires 0 <= d <= 99
    ensures |ScoredText(d)| == 16
  {
    TwoDigits(d);
    ScoredShape(PadLeft(IntToString(d), 2, '0'));
  }

  /** Up to 99 days the scored-days text has a fixed width and its two
      digits read back as the count, with a leading zero below ten. */
  lemma ScoredTextDigits(d: nat)
    requires d <= 99
    ensures |ScoredText(d)| == 16
    ensures AllDigits(ScoredText(d)[8..10]) && DigitsValue(ScoredText(d)[8..10]) == d
    ensures d < 10 ==> ScoredText(d)[8] == '0'
  {
    TwoDigits(d);
    TwoDigitsValue(d);
    ScoredShape(PadLeft(IntToString(d), 2, '0'));
  }

  const ScoredWidth: nat := 17

  /** A points cell: the points right-aligned on `width`, a blank, the
      scored-days text right-aligned on its column. */
  function PointsCell(points: int, scoredDays: int, width: nat): string
  {
    PadLeft(IntToString(points), width, ' ') + " " + PadLeft(ScoredText(scoredDays), ScoredWidth, ' ')
  }

  /** A points cell shows the points right-aligned on the points column
      and, for up to 99 days, a blank then the scored-days text. */
  lemma PointsCellColumns(points: int, scoredDays: int, width: nat)
    requires |IntToString(points)| < width
    ensures var cell := PointsCell(points, scoredDays, width);
      |cell| >= width && cell[..width] == PadLeft(IntToString(points), width, ' ') &&
      (0 <= scoredDays <= 99 ==> |cell| == width + 1 + ScoredWidth && cell[width + 2..] == ScoredText(scoredDays))
  {
    var pts := PadLeft(IntToString(points), width, ' ');
    var sc := ScoredText(scoredDays);
    PointsShape(pts, sc);
    if 0 <= scoredDays <= 99 {
      ScoredTextWidth(scoredDays);
      ScoredShapeInCell(pts, sc);
    }
  }

  /** The points column comes first. */
  lemma PointsShape(pts: string, sc: string)
    ensures var c := pts + " " + PadLeft(sc, ScoredWidth, ' ');
      |c| >= |pts| && c[..|pts|] == pts
  {
    var c := pts + " " + PadLeft(sc, ScoredWidth, ' ');
    assert c[..|pts|] == pts;
  }

  /** A scored-days text of 16 characters takes its column less one blank. */
  lemma ScoredShapeInCell(pts: string, sc: string)
    requires |sc| == 16
    ensures var c := pts + " " + PadLeft(sc, ScoredWidth, ' ');
      |c| == |pts| + 1 + ScoredWidth && c[|pts| + 2..] == sc
  {
    var c := pts + " " + PadLeft(sc, ScoredWidth, ' ');
    assert PadLeft(sc, ScoredWidth, ' ') == Repeat(' ', 1) + sc;
    assert c[|pts| + 2..] == sc;
  }
}

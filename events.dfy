/** The prefixes of the rows of the bot's daily summary: a medal or
    trophy for the first places, then the position number, and the rows
    of each summary list. */
module Events {
  import opened Common
  import opened Strings

  /** The trophies that open the daily summary lists. */
  const Trophies: seq<string> := ["\U{1F3C6}", "\U{1F948}", "\U{1F949}", "\U{1F36B}", "\U{1F36C}"]

  /** The number of rows each list of the daily summary shows. */
  const SummaryRows: nat := 5

  /** `symbols_prefix`, its element at 0-based index `i`: the symbols are
      followed by an endless run of blanks, and position `n = i + 1` shows
      its symbol while there is one, then "  n) " up to position 9, then
      "n) ". */
  function SymbolsPrefix(symbols: seq<string>, i: nat): (p: string)
    ensures i < |symbols| ==> p == symbols[i] + " "
    ensures i >= |symbols| ==> EndsWith(p, NatToString(i + 1) + ") ")
    ensures i >= |symbols| ==> |p| == (if i + 1 <= 9 then 5 else DigitCount(i + 1) + 2)
  {
    var n := i + 1;
    var s := if i < |symbols| then symbols[i] else " ";
    NatToStringLength(n);
    if 1 <= n <= |symbols| then s + " "
    else if |symbols| + 1 <= n <= 9 then "  " + NatToString(n) + ") "
    else NatToString(n) + ") "
  }

  /** The position a numbered prefix shows: the digits between the
      optional two-space indent and the closing ") ". */
  function PrefixNumber(p: string): Option<nat>
  {
    var t := if |p| >= 2 && p[..2] == "  " then p[2..] else p;
    if |t| >= 3 && t[|t| - 2..] == ") " && AllDigits(t[..|t| - 2]) then Some(DigitsValue(t[..|t| - 2]))
    else None
  }

  /** Past the symbols, every prefix shows its own position. */
  lemma SymbolsPrefixShowsPosition(symbols: seq<string>, i: nat)
    requires i >= |symbols|
    ensures PrefixNumber(SymbolsPrefix(symbols, i)) == Some(i + 1)
  {
    var n := i + 1;
    var digits := NatToString(n);
    var p := SymbolsPrefix(symbols, i);
    NatToStringRoundTrip(n);
    NatToStringLength(n);
    var t := if |p| >= 2 && p[..2] == "  " then p[2..] else p;
    assert t == digits + ") " by {
      if n <= 9 {
        assert p == "  " + digits + ") ";
        assert p[..2] == "  ";
      } else {
        assert p == digits + ") ";
        assert p[0] == digits[0] && IsDigit(digits[0]);
      }
    }
    assert t[..|t| - 2] == digits;
  }

  /** The distinct positions past the symbols have distinct prefixes. */
  lemma SymbolsPrefixInjective(symbols: seq<string>, i: nat, j: nat)
    requires i >= |symbols| && j >= |symbols| && i != j
    ensures SymbolsPrefix(symbols, i) != SymbolsPrefix(symbols, j)
  {
    SymbolsPrefixShowsPosition(symbols, i);
    SymbolsPrefixShowsPosition(symbols, j);
  }

  /** One row of a daily summary list: prefix, name and the value right
      aligned on nine characters. */
  type SummaryRow = (string, string, string)

  /** A list of the daily summary: the (name, value) pairs zipped with the
      trophy prefixes, at most five of them. */
  function PrefixedRows(data: seq<(string, string)>): (rows: seq<SummaryRow>)
    ensures |rows| == Min(|data|, SummaryRows)
    ensures forall i :: 0 <= i < |rows| ==>
      rows[i] == (SymbolsPrefix(Trophies, i), data[i].0, PadLeft(data[i].1, 9, ' '))
  {
    var k := Min(|data|, SummaryRows);
    seq(k, i requires 0 <= i < k => (SymbolsPrefix(Trophies, i), data[i].0, PadLeft(data[i].1, 9, ' ')))
  }
}

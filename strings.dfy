/** Text helpers: decimal rendering and parsing of integers (as Rust's
    `to_string` and `str::parse` do them), the lexicographic order of
    `String`, padding to a width, UTF-8 byte length and joining lines. */
module Strings {
  import opened Common

  predicate IsDigit(c: char)
  {
    '0' <= c <= '9'
  }

  predicate AllDigits(s: string)
  {
    forall i :: 0 <= i < |s| ==> IsDigit(s[i])
  }

  function DigitChar(d: nat): (c: char)
    requires d < 10
    ensures IsDigit(c)
  {
    (48 + d) as char
  }

  function DigitValue(c: char): (d: nat)
    requires IsDigit(c)
    ensures d < 10
  {
    (c as int) - 48
  }

  /** Decimal rendering of a natural number, most significant digit first. */
  function NatToString(n: nat): (s: string)
    ensures |s| >= 1 && AllDigits(s)
    ensures s[0] == '0' ==> n == 0
    decreases n
  {
    if n < 10 then [DigitChar(n)] else NatToString(n / 10) + [DigitChar(n % 10)]
  }

  /** Value of a string of decimal digits (leading zeros allowed). */
  function DigitsValue(s: string): nat
    requires AllDigits(s)
  {
    if s == [] then 0 else DigitsValue(s[..|s| - 1]) * 10 + DigitValue(s[|s| - 1])
  }

  /** Number of decimal digits of `n`. */
  function DigitCount(n: nat): (k: nat)
    ensures k >= 1
  {
    if n < 10 then 1 else 1 + DigitCount(n / 10)
  }

  lemma {:induction false} NatToStringLength(n: nat)
    ensures |NatToString(n)| == DigitCount(n)
    decreases n
  {
    if n >= 10 {
      NatToStringLength(n / 10);
    }
  }

  /** A larger number never has fewer digits. */
  lemma {:induction false} DigitCountMonotone(m: nat, n: nat)
    requires m <= n
    ensures DigitCount(m) <= DigitCount(n)
    decreases n
  {
    if m >= 10 {
      DigitCountMonotone(m / 10, n / 10);
    }
  }

  /** Decimal rendering of an integer, with a leading '-' when negative. */
  function IntToString(i: int): (s: string)
    ensures |s| >= 1
  {
    if i < 0 then "-" + NatToString(-i) else NatToString(i)
  }

  /** Reading back a rendered number gives the number. */
  lemma {:induction false} NatToStringRoundTrip(n: nat)
    ensures DigitsValue(NatToString(n)) == n
    decreases n
  {
    if n >= 10 {
      var s := NatToString(n);
      assert s[..|s| - 1] == NatToString(n / 10);
      NatToStringRoundTrip(n / 10);
    }
  }

  lemma NatToStringInjective(m: nat, n: nat)
    requires NatToString(m) == NatToString(n)
    ensures m == n
  {
    NatToStringRoundTrip(m);
    NatToStringRoundTrip(n);
  }

  /** `s` ends with `t` (Rust's `str::ends_with`). */
  predicate EndsWith(s: string, t: string)
  {
    |t| <= |s| && s[|s| - |t|..] == t
  }

  /** The rendering ends with digit `a` exactly when the last digit is `a`. */
  lemma NatToStringEndsWithDigit(n: nat, a: nat)
    requires a < 10
    ensures EndsWith(NatToString(n), [DigitChar(a)]) <==> n % 10 == a
  {
    var s := NatToString(n);
    var last := DigitChar(n % 10);
    assert s[|s| - 1..] == [last] by {
      if n >= 10 {
        assert s == NatToString(n / 10) + [last];
      }
    }
    DigitCharInjective(n % 10, a);
  }

  lemma DigitCharInjective(d: nat, e: nat)
    requires d < 10 && e < 10
    ensures DigitChar(d) == DigitChar(e) <==> d == e
  {
  }

  /** The rendering ends with digits `a` `b` (with `a` non-zero) exactly when
      the number is `10a + b` modulo 100. */
  lemma NatToStringEndsWithTwoDigits(n: nat, a: nat, b: nat)
    requires 1 <= a < 10 && b < 10
    ensures EndsWith(NatToString(n), [DigitChar(a), DigitChar(b)]) <==> n % 100 == 10 * a + b
  {
    var s := NatToString(n);
    LastTwoDigits(n, a, b);
    if n >= 10 {
      var q, d := n / 10, n % 10;
      var p := NatToString(q);
      assert s == p + [DigitChar(d)];
      assert s[|s| - 2..] == [p[|p| - 1], DigitChar(d)];
      NatToStringEndsWithDigit(q, a);
      assert p[|p| - 1..] == [p[|p| - 1]];
      assert DigitChar(d) == DigitChar(b) <==> d == b;
    }
  }

  /** The remainder modulo 100 is made of the last two decimal digits. */
  lemma LastTwoDigits(n: nat, a: nat, b: nat)
    requires 1 <= a < 10 && b < 10
    ensures n % 100 == 10 * a + b <==> n >= 10 && (n / 10) % 10 == a && n % 10 == b
  {
    HundredsRemainder(n);
  }

  lemma HundredsRemainder(n: nat)
    ensures n % 100 == 10 * ((n / 10) % 10) + n % 10
  {
    var q, d := n / 10, n % 10;
    var h, t := q / 10, q % 10;
    assert n == 100 * h + (10 * t + d) by {
      assert n == 10 * q + d;
      assert q == 10 * h + t;
    }
    assert 0 <= 10 * t + d < 100;
  }

  // ---------------------------------------------------------------------
  // Parsing integers (Rust's `FromStr` for integer types)
  // ---------------------------------------------------------------------

  /** A non-empty run of ASCII digits whose value does not exceed `max`. */
  function ParseDigits(s: string, max: nat): (r: Option<nat>)
    ensures r.Some? ==> r.value <= max
  {
    if s != [] && AllDigits(s) && DigitsValue(s) <= max then Some(DigitsValue(s)) else None
  }

  /** Parsing into an unsigned integer type whose largest value is `max`:
      an optional `+`, then at least one ASCII digit; anything else, or a
      value out of range, fails. */
  function ParseUnsigned(s: string, max: nat): (r: Option<nat>)
    ensures r.Some? ==> r.value <= max
  {
    if s == [] then None
    else if s[0] == '+' then ParseDigits(s[1..], max)
    else ParseDigits(s, max)
  }

  /** Parsing into a signed integer type with range `min..=max`: an optional
      `+` or `-`, then at least one ASCII digit, value in range. */
  function ParseSigned(s: string, min: int, max: nat): (r: Option<int>)
    requires min <= 0
    ensures r.Some? ==> min <= r.value <= max
  {
    if s == [] then None
    else if s[0] == '+' then
      match ParseDigits(s[1..], max)
      case Some(v) => Some(v as int)
      case None => None
    else if s[0] == '-' then
      match ParseDigits(s[1..], -min)
      case Some(v) => var negated: int := 0 - (v as int); Some(negated)
      case None => None
    else
      match ParseDigits(s, max)
      case Some(v) => Some(v as int)
      case None => None
  }

  /** Rendering then parsing a value in range gives the value back; out of
      range, parsing fails. */
  lemma ParseUnsignedNatToString(n: nat, max: nat)
    ensures ParseUnsigned(NatToString(n), max) == if n <= max then Some(n) else None
  {
    NatToStringRoundTrip(n);
    assert IsDigit(NatToString(n)[0]);
  }

  lemma ParseSignedNatToString(n: nat, min: int, max: nat)
    requires min <= 0
    ensures ParseSigned(NatToString(n), min, max) == if n <= max then Some(n as int) else None
  {
    NatToStringRoundTrip(n);
    assert IsDigit(NatToString(n)[0]);
  }

  // ---------------------------------------------------------------------
  // Ordering of strings
  // ---------------------------------------------------------------------

  /** Rust's `Ord` on `String`: lexicographic on the characters (the UTF-8
      byte order coincides with code point order). */
  predicate StrLt(a: string, b: string)
  {
    if a == [] then b != []
    else b != [] && (a[0] < b[0] || (a[0] == b[0] && StrLt(a[1..], b[1..])))
  }

  lemma {:induction false} StrLtIrreflexive(a: string)
    ensures !StrLt(a, a)
  {
    if a != [] {
      StrLtIrreflexive(a[1..]);
    }
  }

  lemma {:induction false} StrLtTransitive(a: string, b: string, c: string)
    requires StrLt(a, b) && StrLt(b, c)
    ensures StrLt(a, c)
  {
    if a != [] && a[0] == b[0] && b[0] == c[0] {
      StrLtTransitive(a[1..], b[1..], c[1..]);
    }
  }

  lemma {:induction false} StrLtTrichotomy(a: string, b: string)
    ensures StrLt(a, b) || a == b || StrLt(b, a)
  {
    if a != [] && b != [] && a[0] == b[0] {
      StrLtTrichotomy(a[1..], b[1..]);
      if a[1..] == b[1..] {
        assert a == [a[0]] + a[1..] && b == [b[0]] + b[1..];
      }
    }
  }

  lemma {:induction false} StrLtAsymmetric(a: string, b: string)
    requires StrLt(a, b)
    ensures !StrLt(b, a)
  {
    if a != [] && a[0] == b[0] {
      StrLtAsymmetric(a[1..], b[1..]);
    }
  }

  // ---------------------------------------------------------------------
  // Layout
  // ---------------------------------------------------------------------

  function Repeat(c: char, n: nat): (s: string)
    ensures |s| == n && forall i :: 0 <= i < n ==> s[i] == c
  {
    seq(n, _ => c)
  }

  /** `format!("{:>w}")`: pad on the left with spaces up to `w` characters. */
  function PadLeft(s: string, w: nat, fill: char): (r: string)
    ensures |r| == Max(|s|, w)
    ensures EndsWith(r, s)
    ensures forall i :: 0 <= i < |r| - |s| ==> r[i] == fill
  {
    if |s| >= w then s else Repeat(fill, w - |s|) + s
  }

  /** `format!("{:<w}")`: pad on the right with spaces up to `w` characters. */
  function PadRight(s: string, w: nat): (r: string)
    ensures |r| == Max(|s|, w)
    ensures r[..|s|] == s
    ensures forall i :: |s| <= i < |r| ==> r[i] == ' '
  {
    if |s| >= w then s else s + Repeat(' ', w - |s|)
  }

  /** Number of bytes of the UTF-8 encoding of one character. */
  function Utf8Width(c: char): (k: nat)
    ensures 1 <= k <= 4
  {
    if c as int < 0x80 then 1
    else if c as int < 0x800 then 2
    else if c as int < 0x10000 then 3
    else 4
  }

  /** `str::len`: the UTF-8 byte length, not the character count. */
  function Utf8Len(s: string): (k: nat)
    ensures |s| <= k <= 4 * |s|
  {
    if s == [] then 0 else Utf8Len(s[..|s| - 1]) + Utf8Width(s[|s| - 1])
  }

  /** `slice.join(sep)`. */
  function Join(parts: seq<string>, sep: string): string
  {
    if parts == [] then ""
    else if |parts| == 1 then parts[0]
    else Join(parts[..|parts| - 1], sep) + sep + parts[|parts| - 1]
  }

  /** Joining newline-free lines with "\n" puts exactly one newline between
      consecutive lines. */
  lemma {:induction false} JoinNewlines(lines: seq<string>)
    requires forall i :: 0 <= i < |lines| ==> '\n' !in lines[i]
    ensures |lines| >= 1 ==> Count(Join(lines, "\n"), c => c == '\n') == |lines| - 1
    ensures lines == [] ==> Join(lines, "\n") == ""
    decreases |lines|
  {
    if |lines| > 1 {
      var init := lines[..|lines| - 1];
      var last := lines[|lines| - 1];
      JoinNewlines(init);
      CountAppend(Join(init, "\n") + "\n", last, c => c == '\n');
      CountAppend(Join(init, "\n"), "\n", c => c == '\n');
      CountNone(last, c => c == '\n');
      assert "\n"[..0] == [];
    } else if |lines| == 1 {
      CountNone(lines[0], c => c == '\n');
    }
  }
}

/** The English ordinal suffix of a day number ("1st", "22nd", "13th"),
    decided, as the bot does it, on the decimal rendering of the number. */
module Utils {
  import opened Strings

  /** `suffix`: "st", "nd" or "rd" after a rendering that ends in 1, 2 or 3
      but not in 11, 12 or 13; "th" otherwise. */
  function Suffix(num: nat): (s: string)
    ensures s == "st" || s == "nd" || s == "rd" || s == "th"
    ensures |s| == 2
  {
    var digits := NatToString(num);
    if EndsWith(digits, "1") && !EndsWith(digits, "11") then "st"
    else if EndsWith(digits, "2") && !EndsWith(digits, "12") then "nd"
    else if EndsWith(digits, "3") && !EndsWith(digits, "13") then "rd"
    else "th"
  }

  /** The suffix read off the number itself: the last digit, with the
      teens 11, 12 and 13 of every hundred taking "th". */
  function ArithmeticSuffix(num: nat): string
  {
    if num % 10 == 1 && num % 100 != 11 then "st"
    else if num % 10 == 2 && num % 100 != 12 then "nd"
    else if num % 10 == 3 && num % 100 != 13 then "rd"
    else "th"
  }

  /** Testing the rendering's last characters is testing the number's last
      digits. */
  lemma SuffixIsArithmetic(num: nat)
    ensures Suffix(num) == ArithmeticSuffix(num)
  {
    assert "1" == [DigitChar(1)] && "2" == [DigitChar(2)] && "3" == [DigitChar(3)];
    assert "11" == [DigitChar(1), DigitChar(1)];
    assert "12" == [DigitChar(1), DigitChar(2)];
    assert "13" == [DigitChar(1), DigitChar(3)];
    NatToStringEndsWithDigit(num, 1);
    NatToStringEndsWithDigit(num, 2);
    NatToStringEndsWithDigit(num, 3);
    NatToStringEndsWithTwoDigits(num, 1, 1);
    NatToStringEndsWithTwoDigits(num, 1, 2);
    NatToStringEndsWithTwoDigits(num, 1, 3);
  }

  /** The teens of every hundred take "th", whatever their last digit. */
  lemma SuffixTeens(num: nat)
    requires 11 <= num % 100 <= 13
    ensures Suffix(num) == "th"
  {
    var tens, units := (num / 10) % 10, num % 10;
    HundredsRemainder(num);
    assert tens == 1 && 1 <= units <= 3;
    assert ArithmeticSuffix(num) == "th";
    SuffixIsArithmetic(num);
  }
}

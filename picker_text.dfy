/** The text of the date picker (components/WheelPicker.tsx): the decimal
    text JavaScript gives an integer, the unit-suffixed item labels of the
    three wheels, and the composed date label with its month and day
    zero-padded to two digits. */
module PickerText {
  import opened Wrappers

  /** The three wheels of the picker. */
  datatype Unit = Year | Month | Day

  /** The unit each wheel appends to its items. */
  function Suffix(u: Unit): string
  {
    match u
    case Year => "年"
    case Month => "月"
    case Day => "日"
  }

  predicate IsDigit(c: char)
  {
    '0' <= c <= '9'
  }

  predicate AllDigits(s: string)
  {
    forall i :: 0 <= i < |s| ==> IsDigit(s[i])
  }

  function DigitChar(d: int): (c: char)
    requires 0 <= d < 10
    ensures IsDigit(c)
  {
    ('0' as int + d) as char
  }

  function DigitValue(c: char): int
    requires IsDigit(c)
  {
    c as int - '0' as int
  }

  /** The decimal digits of `n`, without leading zeros. */
  function NatText(n: nat): (s: string)
    ensures |s| >= 1 && AllDigits(s)
    ensures |s| > 1 ==> s[0] != '0'
    ensures s[0] == '0' <==> n == 0
    ensures |s| == 1 <==> n < 10
  {
    if n < 10 then [DigitChar(n)] else NatText(n / 10) + [DigitChar(n % 10)]
  }

  /** `String(v)` for an integer `v`: a minus sign exactly for negative
      values, then the digits, with no leading zero. */
  function DecimalText(v: int): (s: string)
    ensures |s| >= 1
    ensures s[0] == '-' <==> v < 0
    ensures v >= 0 ==> AllDigits(s)
    ensures v < 0 ==> AllDigits(s[1..]) && |s| >= 2
    ensures v >= 0 && |s| > 1 ==> s[0] != '0'
    ensures v < 0 ==> s[1] != '0'
  {
    if v < 0 then "-" + NatText(-v) else NatText(v)
  }

  /** The value of a string of decimal digits (leading zeros allowed). */
  function DigitsValue(s: string): nat
    requires AllDigits(s)
  {
    if s == [] then 0 else 10 * DigitsValue(s[..|s| - 1]) + DigitValue(s[|s| - 1])
  }

  /** Reads an optionally negative decimal integer back. */
  function ParseDecimal(s: string): Option<int>
  {
    if |s| > 1 && s[0] == '-' && AllDigits(s[1..]) then Some(0 - DigitsValue(s[1..]))
    else if |s| > 0 && AllDigits(s) then Some(DigitsValue(s))
    else None
  }

  lemma {:induction false} NatTextValue(n: nat)
    ensures DigitsValue(NatText(n)) == n
  {
    if n >= 10 {
      NatTextValue(n / 10);
      var s := NatText(n);
      assert s[..|s| - 1] == NatText(n / 10);
    }
  }

  /** The decimal text of every integer reads back as that integer. */
  lemma DecimalTextRoundTrip(v: int)
    ensures ParseDecimal(DecimalText(v)) == Some(v)
  {
    var s := DecimalText(v);
    if v < 0 {
      var t := NatText(-v);
      NatTextValue(-v);
      assert s == "-" + t;
      assert s[1..] == t;
      assert |s| > 1 && s[0] == '-';
      assert AllDigits(s[1..]);
      assert ParseDecimal(s) == Some(0 - DigitsValue(t));
    } else {
      NatTextValue(v);
      assert IsDigit(s[0]);
    }
  }

  /** `formatYear`, `formatMonth` and `formatDay`: the decimal text of the
      value followed by the wheel's unit. The label ends with its unit, and
      what precedes the unit reads back as the value. */
  function FormatItem(u: Unit, v: int): (s: string)
    ensures |s| >= 2 && s[|s| - 1..] == Suffix(u) && ParseDecimal(s[..|s| - 1]) == Some(v)
    ensures s[..|s| - 1] == DecimalText(v)
  {
    var text := DecimalText(v);
    DecimalTextRoundTrip(v);
    assert (text + Suffix(u))[..|text|] == text;
    text + Suffix(u)
  }

  /** Distinct values of a wheel get distinct labels. */
  lemma FormatItemInjective(u: Unit, v: int, w: int)
    requires FormatItem(u, v) == FormatItem(u, w)
    ensures v == w
  {
  }

  /** `s.padStart(2, '0')`: zeros in front up to length 2. */
  function PadStart2(s: string): (r: string)
    ensures |r| == if |s| < 2 then 2 else |s|
    ensures r[|r| - |s|..] == s
    ensures forall i :: 0 <= i < |r| - |s| ==> r[i] == '0'
  {
    if |s| >= 2 then s else seq(2 - |s|, _ => '0') + s
  }

  /** The text of a one-digit value is that digit. */
  lemma OneDigitText(v: int)
    requires 0 <= v < 10
    ensures DecimalText(v) == [DigitChar(v)]
  {
  }

  /** The text of a two-digit value is its tens digit, then its units digit. */
  lemma TwoDigitText(v: int)
    requires 10 <= v < 100
    ensures DecimalText(v) == [DigitChar(v / 10), DigitChar(v % 10)]
  {
    assert NatText(v / 10) == [DigitChar(v / 10)];
  }

  /** The tens digit and the units digit of a value below 100 read back
      as the value. */
  lemma TwoDigitsValue(v: int)
    requires 0 <= v < 100
    ensures AllDigits([DigitChar(v / 10), DigitChar(v % 10)])
    ensures DigitsValue([DigitChar(v / 10), DigitChar(v % 10)]) == v
  {
    var p := [DigitChar(v / 10), DigitChar(v % 10)];
    assert DigitsValue(p[..1]) == v / 10 by {
      assert p[..1] == [DigitChar(v / 10)] && p[..1][..0] == [];
    }
    assert DigitsValue(p) == 10 * (v / 10) + v % 10;
  }

  /** A single character gets one zero in front. */
  lemma PadOneChar(c: char)
    ensures PadStart2([c]) == ['0', c]
  {
    assert seq(1, _ => '0') == ['0'];
  }

  /** A month or day below 100 becomes exactly two digits: a one-digit
      value gets one leading zero, a two-digit value is left as it is;
      the two digits read back as the value. */
  lemma TwoDigitField(v: int)
    requires 0 <= v < 100
    ensures PadStart2(DecimalText(v)) == [DigitChar(v / 10), DigitChar(v % 10)]
    ensures v < 10 ==> PadStart2(DecimalText(v)) == ['0'] + DecimalText(v)
    ensures v >= 10 ==> PadStart2(DecimalText(v)) == DecimalText(v)
    ensures AllDigits(PadStart2(DecimalText(v))) && DigitsValue(PadStart2(DecimalText(v))) == v
  {
    if v < 10 {
      OneDigitText(v);
      PadOneChar(DigitChar(v));
    } else {
      TwoDigitText(v);
    }
    TwoDigitsValue(v);
  }

  /** `formatDate`: year, month and day each followed by its unit, the
      units separated by a space, with month and day padded to two
      digits (its exact shape is `FormatDateDigits`). The label is at
      least nine characters longer than the year's text and ends with the
      day's unit. */
  function FormatDate(y: int, m: int, d: int): (s: string)
    ensures |s| >= |DecimalText(y)| + 9
    ensures s[|s| - 1] == '日'
  {
    DecimalText(y) + "年 " + PadStart2(DecimalText(m)) + "月 " + PadStart2(DecimalText(d)) + "日"
  }

  /** For a month and a day below 100, the date label is the year's
      text, then the month and the day as exactly two digits each (read
      back by `TwoDigitField`), each followed by its unit. */
  lemma FormatDateDigits(y: int, m: int, d: int)
    requires 0 <= m < 100 && 0 <= d < 100
    ensures FormatDate(y, m, d) ==
              DecimalText(y) + "年 " + [DigitChar(m / 10), DigitChar(m % 10)] +
              "月 " + [DigitChar(d / 10), DigitChar(d % 10)] + "日"
    ensures |FormatDate(y, m, d)| == |DecimalText(y)| + 9
  {
    TwoDigitField(m);
    TwoDigitField(d);
  }

  /** The label for 7 March 2024. */
  lemma FormatDateExample()
    ensures FormatDate(2024, 3, 7) == "2024年 03月 07日"
  {
  }
}

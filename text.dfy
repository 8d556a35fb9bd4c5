/** Rendering of integers and clock times as text, as `write!("{}", n)` and
    chrono's `%H:%M` produce them. */
module Text {

  predicate IsDigit(c: char) {
    '0' <= c <= '9'
  }

  predicate AllDigits(s: string) {
    forall i :: 0 <= i < |s| ==> IsDigit(s[i])
  }

  function DigitChar(d: nat): (c: char)
    requires d < 10
    ensures IsDigit(c) && c as int - '0' as int == d
  {
    ('0' as int + d) as char
  }

  function DigitValue(c: char): nat
    requires IsDigit(c)
  {
    c as int - '0' as int
  }

  /** Decimal digits of `n`, most significant first, without leading zeros. */
  function NatToString(n: nat): (s: string)
    ensures 1 <= |s| && AllDigits(s)
    ensures s[0] == '0' <==> n == 0
    ensures |s| > 1 ==> s[0] != '0'
  {
    if n < 10 then [DigitChar(n)] else NatToString(n / 10) + [DigitChar(n % 10)]
  }

  /** The value of a string of decimal digits. */
  function ParseNat(s: string): nat
    requires AllDigits(s)
  {
    if s == [] then 0 else ParseNat(s[..|s| - 1]) * 10 + DigitValue(s[|s| - 1])
  }

  lemma {:induction false} ParseNatToString(n: nat)
    ensures ParseNat(NatToString(n)) == n
  {
    if n >= 10 {
      var s := NatToString(n);
      assert s[..|s| - 1] == NatToString(n / 10);
      ParseNatToString(n / 10);
    }
  }

  /** A numeral as `Display` prints a magnitude: digits only, with no leading
      zero unless the numeral is "0" itself. */
  predicate Canonical(s: string) {
    1 <= |s| && AllDigits(s) && (|s| > 1 ==> s[0] != '0')
  }

  /** A canonical numeral of a positive magnitude: it does not start with '0'. */
  predicate PositiveNumeral(s: string) {
    1 <= |s| && AllDigits(s) && s[0] != '0'
  }

  lemma {:induction false} ParseNatPositive(s: string)
    requires PositiveNumeral(s)
    ensures ParseNat(s) >= 1
  {
    if |s| > 1 {
      var init := s[..|s| - 1];
      assert init[0] == s[0];
      ParseNatPositive(init);
    } else {
      assert s[..0] == [];
    }
  }

  /** A canonical numeral is the rendering of its own value: there is exactly
      one way to print a magnitude. */
  lemma {:induction false} NatToStringOfParse(s: string)
    requires Canonical(s)
    ensures NatToString(ParseNat(s)) == s
  {
    var last := s[|s| - 1];
    var init := s[..|s| - 1];
    if |s| == 1 {
      assert init == [];
      assert DigitChar(DigitValue(last)) == last;
      assert s == [last];
    } else {
      assert init[0] == s[0];
      ParseNatPositive(init);
      NatToStringOfParse(init);
      var n := ParseNat(s);
      assert n == ParseNat(init) * 10 + DigitValue(last);
      assert n / 10 == ParseNat(init) && n % 10 == DigitValue(last);
      assert DigitChar(DigitValue(last)) == last;
      assert s == init + [last];
    }
  }

  /** `Display` of a signed integer: a leading '-' for negative values. */
  function IntToString(x: int): (s: string)
    ensures 1 <= |s| && (x < 0 <==> s[0] == '-')
    ensures x >= 0 ==> s == NatToString(x)
    ensures x < 0 ==> s == "-" + NatToString(-x)
  {
    if x < 0 then "-" + NatToString(-x) else NatToString(x)
  }

  /** `s` is how `Display` prints `x`: a canonical numeral standing for `x`,
      or '-' followed by a numeral without a leading zero standing for `-x`
      (so never "-", "-0" or "007"). */
  predicate RendersInt(s: string, x: int) {
    if 1 <= |s| && s[0] == '-' then PositiveNumeral(s[1..]) && x == 0 - ParseNat(s[1..]) as int
    else Canonical(s) && x == ParseNat(s)
  }

  lemma IntToStringRoundTrip(x: int)
    ensures RendersInt(IntToString(x), x)
  {
    if x < 0 {
      assert IntToString(x)[1..] == NatToString(-x);
      ParseNatToString(-x);
    } else {
      ParseNatToString(x);
    }
  }

  /** Only `IntToString(x)` renders `x`. */
  lemma RendersIntUnique(s: string, x: int)
    requires RendersInt(s, x)
    ensures s == IntToString(x)
  {
    if 1 <= |s| && s[0] == '-' {
      var digits := s[1..];
      ParseNatPositive(digits);
      NatToStringOfParse(digits);
      assert s == "-" + digits;
    } else {
      NatToStringOfParse(s);
    }
  }

  /** Two digits, zero-padded: chrono's `%H` and `%M`. */
  function Pad2(n: nat): (s: string)
    requires n < 100
    ensures |s| == 2 && AllDigits(s)
  {
    [DigitChar(n / 10), DigitChar(n % 10)]
  }

  /** Minutes of a day rendered as `HH:MM` on a 24-hour clock. */
  function HourMinute(minuteOfDay: nat): (s: string)
    requires minuteOfDay < 24 * 60
    ensures |s| == 5 && s[2] == ':'
  {
    Pad2(minuteOfDay / 60) + ":" + Pad2(minuteOfDay % 60)
  }

  /** `s` is chrono's `%H:%M` of `minuteOfDay`: a two-digit hour below 24, a
      colon, a two-digit minute below 60, together making `minuteOfDay`. */
  predicate RendersClock(s: string, minuteOfDay: int) {
    && |s| == 5 && s[2] == ':'
    && IsDigit(s[0]) && IsDigit(s[1]) && IsDigit(s[3]) && IsDigit(s[4])
    && DigitValue(s[0]) * 10 + DigitValue(s[1]) < 24
    && DigitValue(s[3]) * 10 + DigitValue(s[4]) < 60
    && (DigitValue(s[0]) * 10 + DigitValue(s[1])) * 60 + DigitValue(s[3]) * 10 + DigitValue(s[4]) == minuteOfDay
  }

  lemma HourMinuteRoundTrip(minuteOfDay: nat)
    requires minuteOfDay < 24 * 60
    ensures RendersClock(HourMinute(minuteOfDay), minuteOfDay)
  {
    var h, m := minuteOfDay / 60, minuteOfDay % 60;
    var s := HourMinute(minuteOfDay);
    assert s[0] == DigitChar(h / 10) && s[1] == DigitChar(h % 10);
    assert s[3] == DigitChar(m / 10) && s[4] == DigitChar(m % 10);
  }

  /** Only `HourMinute(minuteOfDay)` renders `minuteOfDay`, and only a minute
      of the day has a rendering. */
  lemma RendersClockUnique(s: string, minuteOfDay: int)
    requires RendersClock(s, minuteOfDay)
    ensures 0 <= minuteOfDay < 24 * 60
    ensures s == HourMinute(minuteOfDay)
  {
    var h := DigitValue(s[0]) * 10 + DigitValue(s[1]);
    var m := DigitValue(s[3]) * 10 + DigitValue(s[4]);
    assert minuteOfDay / 60 == h && minuteOfDay % 60 == m;
    assert h / 10 == DigitValue(s[0]) && h % 10 == DigitValue(s[1]);
    assert m / 10 == DigitValue(s[3]) && m % 10 == DigitValue(s[4]);
    assert DigitChar(DigitValue(s[0])) == s[0] && DigitChar(DigitValue(s[1])) == s[1];
    assert DigitChar(DigitValue(s[3])) == s[3] && DigitChar(DigitValue(s[4])) == s[4];
    var t := HourMinute(minuteOfDay);
    assert t == [s[0], s[1], ':', s[3], s[4]];
    assert s == [s[0], s[1], ':', s[3], s[4]];
  }
}

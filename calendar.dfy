/** The proleptic Gregorian calendar as Python's `datetime` counts it: day 1 is
    0001-01-01 and the last representable day, 9999-12-31, is `MaxOrdinal`.
    Dates are written `YYYY-MM-DD` (`strftime("%Y-%m-%d")`). */
module Calendar {
  import opened Wrappers
  import opened Text

  /** The ordinal of 9999-12-31, `date.max.toordinal()`. */
  const MaxOrdinal: int := 3652059

  predicate IsLeap(y: int) {
    y % 4 == 0 && (y % 100 != 0 || y % 400 == 0)
  }

  function DaysInYear(y: int): nat {
    if IsLeap(y) then 366 else 365
  }

  function DaysInMonth(y: int, m: int): nat
    requires 1 <= m <= 12
  {
    if m == 2 then (if IsLeap(y) then 29 else 28)
    else if m == 4 || m == 6 || m == 9 || m == 11 then 30
    else 31
  }

  /** Days of the year before the first of month `m`. */
  function DaysBeforeMonth(y: int, m: int): nat
    requires 1 <= m <= 12
  {
    [0, 31, 59, 90, 120, 151, 181, 212, 243, 273, 304, 334][m - 1]
    + (if m > 2 && IsLeap(y) then 1 else 0)
  }

  /** Days before January 1 of year `y`. */
  function DaysBeforeYear(y: int): int
    requires y >= 1
  {
    var p := y - 1;
    p * 365 + p / 4 - p / 100 + p / 400
  }

  datatype Date = Date(year: int, month: int, day: int)

  predicate ValidDate(d: Date) {
    1 <= d.year <= 9999 && 1 <= d.month <= 12 && 1 <= d.day <= DaysInMonth(d.year, d.month)
  }

  /** `date.toordinal()`. */
  function ToOrdinal(d: Date): int
    requires ValidDate(d)
  {
    DaysBeforeYear(d.year) + DaysBeforeMonth(d.year, d.month) + d.day
  }

  lemma DaysBeforeMonthStep(y: int, m: int)
    requires 1 <= m < 12
    ensures DaysBeforeMonth(y, m + 1) == DaysBeforeMonth(y, m) + DaysInMonth(y, m)
  {
  }

  lemma DaysBeforeDecember(y: int)
    ensures DaysBeforeMonth(y, 12) + DaysInMonth(y, 12) == DaysInYear(y)
  {
  }

  lemma DivStep(p: nat)
    ensures (p + 1) / 4 == p / 4 + (if (p + 1) % 4 == 0 then 1 else 0)
    ensures (p + 1) / 100 == p / 100 + (if (p + 1) % 100 == 0 then 1 else 0)
    ensures (p + 1) / 400 == p / 400 + (if (p + 1) % 400 == 0 then 1 else 0)
  {
  }

  /** A multiple of 400 is one of 100, and a multiple of 100 one of 4. */
  lemma LeapDivisors(y: int)
    ensures y % 400 == 0 ==> y % 100 == 0
    ensures y % 100 == 0 ==> y % 4 == 0
  {
    if y % 400 == 0 {
      var q := y / 400;
      assert y == 400 * q;
      assert y / 100 == 4 * q;
    }
    if y % 100 == 0 {
      var q := y / 100;
      assert y == 100 * q;
      assert y / 4 == 25 * q;
    }
  }

  /** Consecutive years are `DaysInYear` apart. */
  lemma DaysBeforeYearStep(y: int)
    requires y >= 1
    ensures DaysBeforeYear(y + 1) == DaysBeforeYear(y) + DaysInYear(y)
  {
    DivStep(y - 1);
    LeapDivisors(y);
  }

  lemma {:induction false} DaysBeforeYearMonotone(a: int, b: int)
    requires 1 <= a <= b
    ensures DaysBeforeYear(a) <= DaysBeforeYear(b)
    decreases b - a
  {
    if a < b {
      DaysBeforeYearMonotone(a, b - 1);
      DaysBeforeYearStep(b - 1);
    }
  }

  /** The year that day `n` (counted from 0 at January 1 of year `y`) falls
      in, and its 0-based day of that year. */
  function YearOf(n: nat, y: int): (r: (int, nat))
    requires y >= 1
    ensures r.0 >= y && r.1 < DaysInYear(r.0)
    ensures DaysBeforeYear(r.0) + r.1 == DaysBeforeYear(y) + n
    decreases n
  {
    DaysBeforeYearStep(y);
    if n < DaysInYear(y) then (y, n) else YearOf(n - DaysInYear(y), y + 1)
  }

  /** The month and 1-based day of 0-based day `n` of year `y`, searching from
      month `m`. */
  function MonthOf(n: nat, y: int, m: int): (r: (int, int))
    requires 1 <= m <= 12
    requires DaysBeforeMonth(y, m) + n < DaysInYear(y)
    ensures 1 <= r.0 <= 12 && 1 <= r.1 <= DaysInMonth(y, r.0)
    ensures DaysBeforeMonth(y, r.0) + r.1 == DaysBeforeMonth(y, m) + n + 1
    decreases 12 - m
  {
    DaysBeforeDecember(y);
    if m == 12 || n < DaysInMonth(y, m) then (m, n + 1)
    else
      DaysBeforeMonthStep(y, m);
      MonthOf(n - DaysInMonth(y, m), y, m + 1)
  }

  /** `date.fromordinal(o)`. */
  function FromOrdinal(o: int): (d: Date)
    requires 1 <= o <= MaxOrdinal
    ensures ValidDate(d) && ToOrdinal(d) == o
  {
    var (y, n) := YearOf(o - 1, 1);
    assert y <= 9999 by {
      if y > 9999 {
        DaysBeforeYearMonotone(10000, y);
      }
    }
    var (m, day) := MonthOf(n, y, 1);
    Date(y, m, day)
  }

  /** `strftime("%Y-%m-%d")`. */
  function FormatDate(d: Date): string
    requires ValidDate(d)
  {
    Pad(d.year, 4) + "-" + Pad(d.month, 2) + "-" + Pad(d.day, 2)
  }

  lemma PadWidth(n: nat, width: nat)
    requires width >= 1 && n < Power10(width)
    ensures |Pad(n, width)| == width
    ensures DigitsValue(Pad(n, width)) == n
  {
    DecimalLength(n, width);
    PadValue(n, width);
  }

  /** A formatted date is ten characters: four digits, a dash, two digits, a
      dash, two digits; it has no letters and no whitespace. */
  lemma FormatDateShape(d: Date)
    requires ValidDate(d)
    ensures var s := FormatDate(d);
      && |s| == 10 && s[4] == '-' && s[7] == '-'
      && AllDigits(s[..4]) && AllDigits(s[5..7]) && AllDigits(s[8..])
      && s[..4] == Pad(d.year, 4) && s[5..7] == Pad(d.month, 2) && s[8..] == Pad(d.day, 2)
      && forall i :: 0 <= i < |s| ==> IsDigit(s[i]) || s[i] == '-'
  {
    assert Power10(4) == 10000 && Power10(2) == 100;
    PadWidth(d.year, 4);
    PadWidth(d.month, 2);
    PadWidth(d.day, 2);
    var s := FormatDate(d);
    assert s[..4] == Pad(d.year, 4);
    assert s[5..7] == Pad(d.month, 2);
    assert s[8..] == Pad(d.day, 2);
    forall i | 0 <= i < |s|
      ensures IsDigit(s[i]) || s[i] == '-'
    {
      if i < 4 {
        assert s[i] == s[..4][i];
      } else if 5 <= i < 7 {
        assert s[i] == s[5..7][i - 5];
      } else if 8 <= i {
        assert s[i] == s[8..][i - 8];
      }
    }
  }

  /** Reads `YYYY-MM-DD` back to an ordinal; `None` for any other text or an
      impossible date. */
  function ParseIsoDate(s: string): Option<int> {
    if |s| == 10 && s[4] == '-' && s[7] == '-'
       && AllDigits(s[..4]) && AllDigits(s[5..7]) && AllDigits(s[8..]) then
      var d := Date(DigitsValue(s[..4]), DigitsValue(s[5..7]), DigitsValue(s[8..]));
      if ValidDate(d) then Some(ToOrdinal(d)) else None
    else None
  }

  /** Formatting a day and reading it back gives the same day. */
  lemma ParseFormatRoundTrip(o: int)
    requires 1 <= o <= MaxOrdinal
    ensures ParseIsoDate(FormatDate(FromOrdinal(o))) == Some(o)
  {
    var d := FromOrdinal(o);
    FormatDateShape(d);
    assert Power10(4) == 10000 && Power10(2) == 100;
    PadWidth(d.year, 4);
    PadWidth(d.month, 2);
    PadWidth(d.day, 2);
  }

  /** `strftime("%Y%m%d_%H%M%S")` for a day and a second of that day. */
  function Timestamp(o: int, second: nat): string
    requires 1 <= o <= MaxOrdinal && second < 86400
  {
    var d := FromOrdinal(o);
    Pad(d.year, 4) + Pad(d.month, 2) + Pad(d.day, 2) + "_"
    + Pad(second / 3600, 2) + Pad(second % 3600 / 60, 2) + Pad(second % 60, 2)
  }

  /** A timestamp is fifteen characters, digits around one underscore. */
  lemma TimestampShape(o: int, second: nat)
    requires 1 <= o <= MaxOrdinal && second < 86400
    ensures var t := Timestamp(o, second);
      |t| == 15 && t[8] == '_' && forall i :: 0 <= i < 15 && i != 8 ==> IsDigit(t[i])
  {
    var d := FromOrdinal(o);
    assert Power10(4) == 10000 && Power10(2) == 100;
    PadWidth(d.year, 4);
    PadWidth(d.month, 2);
    PadWidth(d.day, 2);
    PadWidth(second / 3600, 2);
    PadWidth(second % 3600 / 60, 2);
    PadWidth(second % 60, 2);
    var a, b, c := Pad(d.year, 4), Pad(d.month, 2), Pad(d.day, 2);
    var e, f, g := Pad(second / 3600, 2), Pad(second % 3600 / 60, 2), Pad(second % 60, 2);
    AllDigitsConcat(a, b);
    AllDigitsConcat(a + b, c);
    AllDigitsConcat(e, f);
    AllDigitsConcat(e + f, g);
    DigitsAroundUnderscore(a + b + c, e + f + g);
  }

  lemma DigitsAroundUnderscore(x: string, y: string)
    requires |x| == 8 && |y| == 6 && AllDigits(x) && AllDigits(y)
    ensures var t := x + "_" + y;
      |t| == 15 && t[8] == '_' && forall i :: 0 <= i < 15 && i != 8 ==> IsDigit(t[i])
  {
    var t := x + "_" + y;
    assert forall i :: 0 <= i < 15 && i != 8 ==> t[i] == if i < 8 then x[i] else y[i - 9];
  }
}

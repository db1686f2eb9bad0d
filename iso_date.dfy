/** Calendar dates as Python's `date` holds them, the strict ISO 8601 extended
    calendar form `YYYY-MM-DD` that `date.fromisoformat` reads, and the proleptic
    Gregorian day count (`date.toordinal`) used to compare a date with an instant. */
module IsoDate {
  import opened Optional

  datatype Date = Date(year: int, month: int, day: int)

  const MinYear: int := 1
  const MaxYear: int := 9999

  predicate IsLeap(y: int) {
    y % 4 == 0 && (y % 100 != 0 || y % 400 == 0)
  }

  function DaysInYear(y: int): (n: int)
    ensures n == 365 || n == 366
    ensures n == 366 <==> IsLeap(y)
  {
    if IsLeap(y) then 366 else 365
  }

  function DaysInMonth(y: int, m: int): (n: int)
    requires 1 <= m <= 12
    ensures 28 <= n <= 31
    ensures n == 29 <==> m == 2 && IsLeap(y)
  {
    if m == 2 then (if IsLeap(y) then 29 else 28)
    else if m == 4 || m == 6 || m == 9 || m == 11 then 30
    else 31
  }

  /** The dates `date(year, month, day)` accepts without raising `ValueError`. */
  predicate ValidDate(d: Date) {
    MinYear <= d.year <= MaxYear && 1 <= d.month <= 12 && 1 <= d.day <= DaysInMonth(d.year, d.month)
  }

  /** `d1` comes strictly before `d2` in the calendar (Python compares dates field by field). */
  predicate Before(d1: Date, d2: Date) {
    d1.year < d2.year
    || (d1.year == d2.year && d1.month < d2.month)
    || (d1.year == d2.year && d1.month == d2.month && d1.day < d2.day)
  }

  // ---------------------------------------------------------------------------
  // Day numbers

  /** Days in the years before `y` (Python's `_days_before_year`). */
  function DaysBeforeYear(y: int): (n: int)
    requires y >= 1
    ensures 365 * (y - 1) <= n <= 366 * (y - 1)
  {
    var p := y - 1;
    p * 365 + p / 4 - p / 100 + p / 400
  }

  /** Days in the months of year `y` before month `m` (Python's `_days_before_month`). */
  function DaysBeforeMonth(y: int, m: int): (n: int)
    requires 1 <= m <= 12
    ensures 0 <= n <= 335
    ensures m == 1 ==> n == 0
  {
    [0, 31, 59, 90, 120, 151, 181, 212, 243, 273, 304, 334][m - 1]
    + (if m > 2 && IsLeap(y) then 1 else 0)
  }

  /** The proleptic Gregorian ordinal; 0001-01-01 is day 1 (Python's `date.toordinal`). */
  function Ordinal(d: Date): (n: int)
    requires ValidDate(d)
    ensures n >= 1
  {
    DaysBeforeYear(d.year) + DaysBeforeMonth(d.year, d.month) + d.day
  }

  const UnixEpoch: Date := Date(1970, 1, 1)

  /** The day number of `d` counted from 1970-01-01, the scale of `Models.DayOf`. */
  function EpochDay(d: Date): (n: int)
    requires ValidDate(d)
    ensures d == UnixEpoch ==> n == 0
  {
    Ordinal(d) - Ordinal(UnixEpoch)
  }

  /** The date after `d` in the calendar. */
  function NextDay(d: Date): (n: Date)
    requires ValidDate(d)
    ensures Before(d, n)
    ensures d.year < MaxYear ==> ValidDate(n)
  {
    if d.day < DaysInMonth(d.year, d.month) then Date(d.year, d.month, d.day + 1)
    else if d.month < 12 then Date(d.year, d.month + 1, 1)
    else Date(d.year + 1, 1, 1)
  }

  /** No date lies strictly between a date and the next one. */
  lemma NextDayIsNext(d: Date, e: Date)
    requires ValidDate(d) && ValidDate(e) && Before(d, e)
    ensures !Before(e, NextDay(d))
  {
  }

  /** Consecutive calendar dates get consecutive day numbers, so a day number compares
      with `Models.DayOf` of an instant day for day. */
  lemma EpochDayNext(d: Date)
    requires ValidDate(d) && ValidDate(NextDay(d))
    ensures EpochDay(NextDay(d)) == EpochDay(d) + 1
  {
    if d.day == DaysInMonth(d.year, d.month) && d.month == 12 {
      DaysBeforeNextYear(d.year);
    }
  }

  /** The day numbers sit on the Unix scale: 1970-01-01 is day 0, 2000-01-01 starts at
      instant 946684800 (day 10957), 2024-03-01 at instant 1709251200 (day 19783). */
  lemma EpochDayAnchors()
    ensures EpochDay(UnixEpoch) == 0
    ensures EpochDay(Date(2000, 1, 1)) == 10957 && 10957 * 86400 == 946684800
    ensures EpochDay(Date(2024, 3, 1)) == 19783 && 19783 * 86400 == 1709251200
  {
  }

  lemma DaysBeforeNextYear(y: int)
    requires y >= 1
    ensures DaysBeforeYear(y + 1) == DaysBeforeYear(y) + DaysInYear(y)
  {
    var p := y - 1;
    DivStep4(p);
    DivStep100(p);
    DivStep400(p);
    LeapDivisibility(y);
  }

  /** A multiple of 400 is a multiple of 100, and a multiple of 100 a multiple of 4. */
  lemma LeapDivisibility(y: int)
    ensures y % 400 == 0 ==> y % 100 == 0
    ensures y % 100 == 0 ==> y % 4 == 0
  {
    if y % 400 == 0 {
      var k := y / 400;
      assert y == 100 * (4 * k);
      MultipleMod(4 * k, 100);
    }
    if y % 100 == 0 {
      var k := y / 100;
      assert y == 4 * (25 * k);
      MultipleMod(25 * k, 4);
    }
  }

  lemma MultipleMod(m: int, k: int)
    requires k == 4 || k == 100
    ensures (k * m) % k == 0
  {
    if k == 4 {
      assert (4 * m) % 4 == 0;
    } else {
      assert (100 * m) % 100 == 0;
    }
  }

  lemma DivStep4(p: int)
    ensures (p + 1) / 4 == p / 4 + (if (p + 1) % 4 == 0 then 1 else 0)
  {
  }

  lemma DivStep100(p: int)
    ensures (p + 1) / 100 == p / 100 + (if (p + 1) % 100 == 0 then 1 else 0)
  {
  }

  lemma DivStep400(p: int)
    ensures (p + 1) / 400 == p / 400 + (if (p + 1) % 400 == 0 then 1 else 0)
  {
  }

  lemma {:induction false} DaysBeforeLaterYear(y1: int, y2: int)
    requires 1 <= y1 < y2
    ensures DaysBeforeYear(y1) + DaysInYear(y1) <= DaysBeforeYear(y2)
    decreases y2 - y1
  {
    DaysBeforeNextYear(y1);
    if y1 + 1 < y2 {
      DaysBeforeLaterYear(y1 + 1, y2);
    }
  }

  lemma DaysBeforeLaterMonth(y: int, m1: int, m2: int)
    requires 1 <= m1 < m2 <= 12
    ensures DaysBeforeMonth(y, m1) + DaysInMonth(y, m1) <= DaysBeforeMonth(y, m2)
  {
  }

  lemma DayOfYearBounds(d: Date)
    requires ValidDate(d)
    ensures 1 <= DaysBeforeMonth(d.year, d.month) + d.day <= DaysInYear(d.year)
  {
  }

  lemma OrdinalIncreasing(d1: Date, d2: Date)
    requires ValidDate(d1) && ValidDate(d2) && Before(d1, d2)
    ensures Ordinal(d1) < Ordinal(d2)
  {
    if d1.year < d2.year {
      DayOfYearBounds(d1);
      DayOfYearBounds(d2);
      DaysBeforeLaterYear(d1.year, d2.year);
    } else if d1.month < d2.month {
      DaysBeforeLaterMonth(d1.year, d1.month, d2.month);
    }
  }

  /** Comparing day numbers is comparing dates: the ordinal is strictly increasing
      along the calendar, hence also one-to-one. */
  lemma OrdinalOrder(d1: Date, d2: Date)
    requires ValidDate(d1) && ValidDate(d2)
    ensures Before(d1, d2) <==> Ordinal(d1) < Ordinal(d2)
    ensures d1 == d2 <==> Ordinal(d1) == Ordinal(d2)
    ensures Before(d1, d2) <==> EpochDay(d1) < EpochDay(d2)
  {
    if Before(d1, d2) {
      OrdinalIncreasing(d1, d2);
    } else if Before(d2, d1) {
      OrdinalIncreasing(d2, d1);
    }
  }

  // ---------------------------------------------------------------------------
  // Text form

  predicate IsDigit(c: char) {
    '0' <= c <= '9'
  }

  predicate AllDigits(s: string) {
    forall i :: 0 <= i < |s| ==> IsDigit(s[i])
  }

  function DigitChar(n: int): (c: char)
    requires 0 <= n <= 9
    ensures IsDigit(c)
  {
    ('0' as int + n) as char
  }

  /** The number a run of decimal digits spells, most significant first. */
  function DigitsValue(s: string): (n: nat)
    requires AllDigits(s)
    ensures n < Pow10(|s|)
  {
    if s == [] then 0
    else DigitsValue(s[..|s| - 1]) * 10 + (s[|s| - 1] as int - '0' as int)
  }

  function Pow10(k: nat): (p: nat)
    ensures p >= 1
  {
    if k == 0 then 1 else 10 * Pow10(k - 1)
  }

  /** `n` written with exactly `width` digits, zero-padded on the left. */
  function Padded(n: nat, width: nat): (s: string)
    ensures |s| == width && AllDigits(s)
  {
    if width == 0 then [] else Padded(n / 10, width - 1) + [DigitChar(n % 10)]
  }

  /** Appending digit `d` to the number `a` and splitting it again gives back `a` and `d`. */
  lemma DivModTen(a: int, d: int)
    requires 0 <= d <= 9
    ensures (a * 10 + d) / 10 == a && (a * 10 + d) % 10 == d
  {
  }

  lemma DivTenBelow(n: nat, p: nat)
    requires n < 10 * p
    ensures n / 10 < p
  {
  }

  lemma {:induction false} DigitsValueOfPadded(n: nat, width: nat)
    requires n < Pow10(width)
    ensures DigitsValue(Padded(n, width)) == n
  {
    if width > 0 {
      var s := Padded(n, width);
      var init := Padded(n / 10, width - 1);
      assert s == init + [DigitChar(n % 10)];
      assert s[..width - 1] == init;
      DivTenBelow(n, Pow10(width - 1));
      DigitsValueOfPadded(n / 10, width - 1);
      assert DigitsValue(s) == DigitsValue(init) * 10 + n % 10;
    }
  }

  lemma {:induction false} PaddedOfDigitsValue(s: string)
    requires AllDigits(s)
    ensures Padded(DigitsValue(s), |s|) == s
  {
    if s != [] {
      var w := |s| - 1;
      var init, c := s[..w], s[w];
      var a, d := DigitsValue(init), c as int - '0' as int;
      var n := DigitsValue(s);
      assert n == a * 10 + d;
      DivModTen(a, d);
      assert Padded(n, w + 1) == Padded(a, w) + [DigitChar(d)];
      PaddedOfDigitsValue(init);
      assert DigitChar(d) == c;
      assert s == init + [c];
    }
  }

  /** `date.fromisoformat` restricted to the extended calendar form `YYYY-MM-DD`:
      ten characters, dashes at positions 4 and 7, decimal digits elsewhere, and a date
      that exists. `None` stands for the `ValueError` it raises on anything else. */
  function ParseIsoDate(s: string): (r: Option<Date>)
    ensures r.Some? ==> ValidDate(r.value) && |s| == 10
  {
    if |s| == 10 && s[4] == '-' && s[7] == '-'
       && AllDigits(s[0..4]) && AllDigits(s[5..7]) && AllDigits(s[8..10])
    then
      var d := Date(DigitsValue(s[0..4]), DigitsValue(s[5..7]), DigitsValue(s[8..10]));
      if ValidDate(d) then Some(d) else None
    else None
  }

  /** `date.isoformat`: the `YYYY-MM-DD` form of a date. */
  function FormatIsoDate(d: Date): (s: string)
    requires ValidDate(d)
    ensures |s| == 10
  {
    Padded(d.year, 4) + "-" + Padded(d.month, 2) + "-" + Padded(d.day, 2)
  }

  /** Every date survives being written out and read back. */
  lemma ParseFormat(d: Date)
    requires ValidDate(d)
    ensures ParseIsoDate(FormatIsoDate(d)) == Some(d)
  {
    var s := FormatIsoDate(d);
    assert s[0..4] == Padded(d.year, 4);
    assert s[5..7] == Padded(d.month, 2);
    assert s[8..10] == Padded(d.day, 2);
    DigitsValueOfPadded(d.year, 4);
    DigitsValueOfPadded(d.month, 2);
    DigitsValueOfPadded(d.day, 2);
  }

  /** The parser is strict: a string it accepts is exactly the canonical form of the date it yields. */
  lemma FormatParse(s: string)
    requires ParseIsoDate(s).Some?
    ensures FormatIsoDate(ParseIsoDate(s).value) == s
  {
    var d := ParseIsoDate(s).value;
    PaddedOfDigitsValue(s[0..4]);
    PaddedOfDigitsValue(s[5..7]);
    PaddedOfDigitsValue(s[8..10]);
    assert s == s[0..4] + "-" + s[5..7] + "-" + s[8..10];
  }
}

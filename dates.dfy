/** Python's `datetime.date` on the proleptic Gregorian calendar (years 1..9999):
    comparison, `toordinal`, `date + timedelta(days=n)`, `date.replace(year=y)` and
    `date.isoformat()`, with the facts the request logic relies on. */
module Dates {
  import opened Wrappers
  import opened Text

  datatype CalDate = CalDate(year: int, month: int, day: int)

  predicate IsLeap(y: int) {
    y % 4 == 0 && (y % 100 != 0 || y % 400 == 0)
  }

  function DaysInMonth(y: int, m: int): int
    requires 1 <= m <= 12
  {
    if m == 2 then (if IsLeap(y) then 29 else 28)
    else if m == 4 || m == 6 || m == 9 || m == 11 then 30
    else 31
  }

  function DaysInYear(y: int): int {
    if IsLeap(y) then 366 else 365
  }

  predicate ValidDate(d: CalDate) {
    1 <= d.year <= 9999 && 1 <= d.month <= 12 && 1 <= d.day <= DaysInMonth(d.year, d.month)
  }

  /** The values a Python `date` can hold. */
  type Date = d: CalDate | ValidDate(d) witness CalDate(1, 1, 1)

  const MaxDate: Date := CalDate(9999, 12, 31)
  /** `date.max.toordinal()`. */
  const MaxOrdinal: int := Ordinal(MaxDate)

  /** Python's `a <= b` on dates: (year, month, day) compared lexicographically. */
  predicate OnOrBefore(a: Date, b: Date) {
    a.year < b.year || (a.year == b.year && (a.month < b.month || (a.month == b.month && a.day <= b.day)))
  }

  /** Python's `a < b` on dates. */
  predicate Before(a: Date, b: Date) {
    OnOrBefore(a, b) && a != b
  }

  function DaysBeforeYear(y: int): int
    requires y >= 1
  {
    var p := y - 1;
    p * 365 + p / 4 - p / 100 + p / 400
  }

  const CumulativeDays: seq<int> := [0, 31, 59, 90, 120, 151, 181, 212, 243, 273, 304, 334]

  function DaysBeforeMonth(y: int, m: int): int
    requires 1 <= m <= 12
  {
    CumulativeDays[m - 1] + (if m > 2 && IsLeap(y) then 1 else 0)
  }

  /** `d.toordinal()`: 0001-01-01 is day 1. */
  function Ordinal(d: Date): int {
    DaysBeforeYear(d.year) + DaysBeforeMonth(d.year, d.month) + d.day
  }

  lemma YearStep(y: int)
    requires y >= 1
    ensures DaysBeforeYear(y + 1) == DaysBeforeYear(y) + DaysInYear(y)
  {
    var p := y - 1;
    assert y / 4 == p / 4 + (if y % 4 == 0 then 1 else 0);
    assert y / 100 == p / 100 + (if y % 100 == 0 then 1 else 0);
    assert y / 400 == p / 400 + (if y % 400 == 0 then 1 else 0);
  }

  lemma {:induction false} YearsApart(y1: int, y2: int)
    requires 1 <= y1 < y2
    ensures DaysBeforeYear(y1) + DaysInYear(y1) <= DaysBeforeYear(y2)
    decreases y2 - y1
  {
    YearStep(y1);
    if y1 + 1 < y2 {
      YearsApart(y1 + 1, y2);
    }
  }

  lemma MonthsApart(y: int, m1: int, m2: int)
    requires 1 <= m1 < m2 <= 12
    ensures DaysBeforeMonth(y, m1) + DaysInMonth(y, m1) <= DaysBeforeMonth(y, m2)
  {
  }

  /** Ordinals of valid dates lie within the year they name. */
  lemma OrdinalInYear(d: Date)
    ensures DaysBeforeYear(d.year) < Ordinal(d) <= DaysBeforeYear(d.year) + DaysInYear(d.year)
  {
  }

  /** Python's date comparison agrees with comparing ordinals. */
  lemma {:induction false} OrdinalOrder(a: Date, b: Date)
    ensures OnOrBefore(a, b) <==> Ordinal(a) <= Ordinal(b)
    ensures a == b <==> Ordinal(a) == Ordinal(b)
  {
    OrdinalInYear(a);
    OrdinalInYear(b);
    if a.year < b.year {
      YearsApart(a.year, b.year);
    } else if b.year < a.year {
      YearsApart(b.year, a.year);
    } else if a.month < b.month {
      MonthsApart(a.year, a.month, b.month);
    } else if b.month < a.month {
      MonthsApart(a.year, b.month, a.month);
    }
  }

  /** The last date is day 3652059. */
  lemma MaxOrdinalValue()
    ensures MaxOrdinal == 3652059
  {
    LastYearStart();
    LastMonthStart();
  }

  lemma LastYearStart()
    ensures DaysBeforeYear(9999) == 3651694
  {
    var p := 9998;
    assert p / 4 == 2499 && p / 100 == 99 && p / 400 == 24;
  }

  lemma LastMonthStart()
    ensures DaysBeforeMonth(9999, 12) == 334
  {
    assert 9999 % 4 == 3;
  }

  lemma OrdinalRange(d: Date)
    ensures 1 <= Ordinal(d) <= MaxOrdinal
  {
    OrdinalOrder(CalDate(1, 1, 1), d);
    OrdinalOrder(d, MaxDate);
  }

  /** The day after `d`. */
  function NextDay(d: Date): (r: Date)
    requires d != MaxDate
    ensures Ordinal(r) == Ordinal(d) + 1
  {
    if d.day < DaysInMonth(d.year, d.month) then CalDate(d.year, d.month, d.day + 1)
    else if d.month < 12 then CalDate(d.year, d.month + 1, 1)
    else
      YearStep(d.year);
      CalDate(d.year + 1, 1, 1)
  }

  /** `date.fromordinal(n)`. */
  function FromOrdinal(n: int): (r: Date)
    requires 1 <= n <= MaxOrdinal
    ensures Ordinal(r) == n
  {
    if n == 1 then CalDate(1, 1, 1)
    else
      var prev := FromOrdinal(n - 1);
      NextDay(prev)
  }

  /** `d + timedelta(days=n)`, which raises OverflowError outside years 1..9999. */
  function AddDays(d: Date, n: int): (r: Result<Date>)
    ensures r.Ok? <==> 1 <= Ordinal(d) + n <= MaxOrdinal
    ensures r.Ok? ==> Ordinal(r.value) == Ordinal(d) + n
    ensures r.Err? ==> r.error == OverflowError
  {
    var k := Ordinal(d) + n;
    if 1 <= k <= MaxOrdinal then Ok(FromOrdinal(k)) else Err(OverflowError)
  }

  /** Adding a day count as long as the calendar, or longer, either way, overflows
      whatever the starting date. */
  lemma AddDaysOffCalendar(d: Date, n: int)
    requires n >= 3652059 || n <= -3652059
    ensures AddDays(d, n) == Err(OverflowError)
  {
    MaxOrdinalValue();
    OrdinalRange(d);
  }

  /** A date is on or before `today + timedelta(days=n)` exactly when it is at most
      `n` days after `today`. */
  lemma WithinDays(today: Date, n: int, x: Date)
    requires AddDays(today, n).Ok?
    ensures OnOrBefore(x, AddDays(today, n).value) <==> Ordinal(x) - Ordinal(today) <= n
  {
    OrdinalOrder(x, AddDays(today, n).value);
  }

  /** The range of a C `int`, which `replace` converts its arguments to first. */
  const MinCInt: int := -0x8000_0000
  const MaxCInt: int := 0x7FFF_FFFF

  /** `d.replace(year=y)`: OverflowError when `y` does not fit a C `int`, ValueError
      when it does but lies outside 1..9999 or the same month and day do not exist
      in year `y`. */
  function ReplaceYear(d: Date, y: int): (r: Result<Date>)
    ensures r.Ok? ==> r.value.year == y && r.value.month == d.month && r.value.day == d.day
    ensures r == Err(OverflowError) <==> !(MinCInt <= y <= MaxCInt)
    ensures r.Err? ==> r.error == OverflowError || r.error == ValueError
    ensures !(1 <= y <= 9999) ==> r.Err?
  {
    if !(MinCInt <= y <= MaxCInt) then Err(OverflowError)
    else if 1 <= y <= 9999 && d.day <= DaysInMonth(y, d.month) then Ok(CalDate(y, d.month, d.day))
    else Err(ValueError)
  }

  /** Within the supported years, the only date `replace(year=...)` rejects is a
      29 February moved into a common year. */
  lemma ReplaceYearFailsOnlyOnLeapDay(d: Date, y: int)
    requires 1 <= y <= 9999
    ensures ReplaceYear(d, y).Err? <==> d.month == 2 && d.day == 29 && !IsLeap(y)
  {
  }

  /** Moving a date back by a non-negative number of years never moves it later. */
  lemma ReplaceYearBackwards(d: Date, years: int)
    requires years >= 0 && ReplaceYear(d, d.year - years).Ok?
    ensures OnOrBefore(ReplaceYear(d, d.year - years).value, d)
  {
  }

  function Pow10(w: nat): nat {
    if w == 0 then 1 else 10 * Pow10(w - 1)
  }

  /** `"%0*d" % (w, x)`: `x` in exactly `w` decimal digits, zero-padded. */
  function Pad(x: nat, w: nat): (r: string)
    requires x < Pow10(w)
    ensures |r| == w && AllDigits(r)
  {
    if w == 0 then [] else Pad(x / 10, w - 1) + [DigitChar(x % 10)]
  }

  /** The padded digits read back as `x`. */
  lemma {:induction false} PadValue(x: nat, w: nat)
    requires x < Pow10(w)
    ensures Number(Pad(x, w)) == x
  {
    if w > 0 {
      PadValue(x / 10, w - 1);
      assert Pad(x, w)[..w - 1] == Pad(x / 10, w - 1);
    }
  }

  /** `d.isoformat()`: `YYYY-MM-DD`. */
  function Iso(d: Date): (r: string)
    ensures |r| == 10
  {
    Pad(d.year, 4) + ("-" + (Pad(d.month, 2) + ("-" + Pad(d.day, 2))))
  }

  /** The ISO form spells the date: four digits of the year, a dash, two digits of
      the month, a dash, two digits of the day. */
  lemma IsoSpells(d: Date)
    ensures var r := Iso(d);
            r[4] == '-' && r[7] == '-'
            && AllDigits(r[..4]) && AllDigits(r[5..7]) && AllDigits(r[8..])
            && Number(r[..4]) == d.year && Number(r[5..7]) == d.month && Number(r[8..]) == d.day
  {
    var y, m, dd := Pad(d.year, 4), Pad(d.month, 2), Pad(d.day, 2);
    var r := Iso(d);
    assert r[..4] == y && r[5..7] == m && r[8..] == dd;
    PadValue(d.year, 4);
    PadValue(d.month, 2);
    PadValue(d.day, 2);
  }

  /** Zero-padded numbers of one width compare as strings the way they compare as numbers. */
  lemma {:induction false} PadOrder(x: nat, y: nat, w: nat)
    requires x < Pow10(w) && y < Pow10(w)
    ensures LexLess(Pad(x, w), Pad(y, w)) <==> x < y
    ensures Pad(x, w) == Pad(y, w) <==> x == y
  {
    if w == 0 {
      assert x == 0 && y == 0;
    } else {
      var px, py := Pad(x / 10, w - 1), Pad(y / 10, w - 1);
      PadOrder(x / 10, y / 10, w - 1);
      LexLessConcat(px, [DigitChar(x % 10)], py, [DigitChar(y % 10)]);
      assert x == 10 * (x / 10) + x % 10 && y == 10 * (y / 10) + y % 10;
      if Pad(x, w) == Pad(y, w) {
        assert px == Pad(x, w)[..w - 1] && py == Pad(y, w)[..w - 1];
        assert Pad(x, w)[w - 1] == DigitChar(x % 10) && Pad(y, w)[w - 1] == DigitChar(y % 10);
      }
    }
  }

  /** Sorting by the ISO string sorts chronologically: `Iso(a) < Iso(b)` as strings
      exactly when `a < b` as dates. */
  lemma IsoOrder(a: Date, b: Date)
    ensures LexLess(Iso(a), Iso(b)) <==> Before(a, b)
    ensures Iso(a) == Iso(b) <==> a == b
  {
    PadOrder(a.year, b.year, 4);
    PadOrder(a.month, b.month, 2);
    PadOrder(a.day, b.day, 2);
    DashedOrder(Pad(a.year, 4), Pad(a.month, 2), Pad(a.day, 2), Pad(b.year, 4), Pad(b.month, 2), Pad(b.day, 2));
    DashedEqual(Pad(a.year, 4), Pad(a.month, 2), Pad(a.day, 2), Pad(b.year, 4), Pad(b.month, 2), Pad(b.day, 2));
  }

  /** `y-m-d` strings with fields of matching widths compare field by field. */
  lemma DashedOrder(y1: string, m1: string, d1: string, y2: string, m2: string, d2: string)
    requires |y1| == |y2| && |m1| == |m2|
    ensures LexLess(y1 + ("-" + (m1 + ("-" + d1))), y2 + ("-" + (m2 + ("-" + d2))))
            <==> LexLess(y1, y2) || (y1 == y2 && (LexLess(m1, m2) || (m1 == m2 && LexLess(d1, d2))))
  {
    DashedLess(m1, d1, m2, d2);
    DashedLess(y1, m1 + ("-" + d1), y2, m2 + ("-" + d2));
  }

  /** ... and are equal exactly when every field is. */
  lemma DashedEqual(y1: string, m1: string, d1: string, y2: string, m2: string, d2: string)
    requires |y1| == |y2| && |m1| == |m2|
    ensures y1 + ("-" + (m1 + ("-" + d1))) == y2 + ("-" + (m2 + ("-" + d2)))
            <==> y1 == y2 && m1 == m2 && d1 == d2
  {
    DashedLess(m1, d1, m2, d2);
    DashedLess(y1, m1 + ("-" + d1), y2, m2 + ("-" + d2));
  }

  /** `x-s` against `y-t` for equally long `x` and `y`. */
  lemma DashedLess(x: string, s: string, y: string, t: string)
    requires |x| == |y|
    ensures LexLess(x + ("-" + s), y + ("-" + t)) <==> LexLess(x, y) || (x == y && LexLess(s, t))
    ensures x + ("-" + s) == y + ("-" + t) <==> x == y && s == t
  {
    LexLessConcat(x, "-" + s, y, "-" + t);
    LexLessConcat("-", s, "-", t);
    LexLessIrreflexive("-");
    ConcatEqual(x, "-" + s, y, "-" + t);
    ConcatEqual("-", s, "-", t);
  }
}

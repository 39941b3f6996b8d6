/** Civil dates: time.Date's normalisation and the eight-digit wire form. */
module Dates {
  import opened Bytes

  predicate IsLeap(year: int) {
    year % 4 == 0 && (year % 100 != 0 || year % 400 == 0)
  }

  function DaysIn(year: int, month: int): (n: int)
    ensures 28 <= n <= 31
  {
    if month == 2 then (if IsLeap(year) then 29 else 28)
    else if month == 4 || month == 6 || month == 9 || month == 11 then 30
    else 31
  }

  datatype Civil = Civil(year: int, month: int, day: int) {
    predicate Valid() {
      1 <= month <= 12 && 1 <= day <= DaysIn(year, month)
    }
  }

  /** What time.Time.Date reports: always an existing day. */
  type Date = d: Civil | d.Valid() witness Civil(1, 1, 1)

  function NextMonth(year: int, month: int): (int, int) {
    if month == 12 then (year + 1, 1) else (year, month + 1)
  }

  /** Moves a day count that overflows or underflows its month into the right month. */
  function CarryDays(year: int, month: int, day: int): Date
    requires 1 <= month <= 12
    decreases if day < 1 then 1 - day else day, if day < 1 then 1 else 0
  {
    if day < 1 then
      var (y, m) := if month == 1 then (year - 1, 12) else (year, month - 1);
      if day + DaysIn(y, m) >= 1 then Civil(y, m, day + DaysIn(y, m)) else CarryDays(y, m, day + DaysIn(y, m))
    else if day <= DaysIn(year, month) then Civil(year, month, day)
    else
      var (y, m) := NextMonth(year, month);
      CarryDays(y, m, day - DaysIn(year, month))
  }

  /** time.Date: months carry into years, then days into months. */
  function Normalize(year: int, month: int, day: int): Date {
    CarryDays(year + (month - 1) / 12, (month - 1) % 12 + 1, day)
  }

  /** The proleptic Gregorian day count, as time.Date computes it: the reference for Normalize. */
  function DayNumber(year: int, month: int, day: int): int
    requires 1 <= month <= 12
  {
    DaysBeforeYear(year) + DaysBefore(year, month) + day
  }

  function DaysBeforeYear(year: int): int {
    365 * year + (year - 1) / 4 - (year - 1) / 100 + (year - 1) / 400
  }

  function DaysBefore(year: int, month: int): int
    requires 1 <= month <= 12
  {
    if month == 1 then 0 else DaysBefore(year, month - 1) + DaysIn(year, month - 1)
  }

  lemma LeapStep(year: int, n: int)
    requires n == 4 || n == 100 || n == 400
    ensures year / n - (year - 1) / n == if year % n == 0 then 1 else 0
  {
  }

  lemma YearStep(year: int)
    ensures DaysBeforeYear(year + 1) == DaysBeforeYear(year) + if IsLeap(year) then 366 else 365
  {
    LeapStep(year, 4);
    LeapStep(year, 100);
    LeapStep(year, 400);
    CenturyIsFourth(year);
  }

  lemma CenturyIsFourth(year: int)
    ensures year % 100 == 0 ==> year % 4 == 0
    ensures year % 400 == 0 ==> year % 100 == 0
  {
    if year % 100 == 0 {
      assert year == 4 * (25 * (year / 100));
    }
    if year % 400 == 0 {
      assert year == 100 * (4 * (year / 400));
    }
  }

  lemma YearLength(year: int)
    ensures DaysBefore(year, 12) + 31 == if IsLeap(year) then 366 else 365
  {
    assert DaysBefore(year, 2) == 31;
    assert DaysBefore(year, 3) == DaysBefore(year, 2) + DaysIn(year, 2);
    assert DaysBefore(year, 4) == DaysBefore(year, 3) + 31;
    assert DaysBefore(year, 6) == DaysBefore(year, 4) + 61;
    assert DaysBefore(year, 8) == DaysBefore(year, 6) + 61;
    assert DaysBefore(year, 10) == DaysBefore(year, 8) + 61;
    assert DaysBefore(year, 12) == DaysBefore(year, 10) + 61;
  }

  lemma NextMonthDay(year: int, month: int, day: int)
    requires 1 <= month <= 12
    ensures var (y, m) := NextMonth(year, month);
            DayNumber(y, m, day) == DayNumber(year, month, day + DaysIn(year, month))
  {
    if month == 12 {
      YearLength(year);
      YearStep(year);
      assert DaysBefore(year + 1, 1) == 0;
    }
  }

  /** Carrying days names the same day. */
  lemma {:induction false} CarryKeepsDay(year: int, month: int, day: int)
    requires 1 <= month <= 12
    ensures var d := CarryDays(year, month, day);
            DayNumber(d.year, d.month, d.day) == DayNumber(year, month, day)
    decreases if day < 1 then 1 - day else day, if day < 1 then 1 else 0
  {
    if day < 1 {
      var (y, m) := if month == 1 then (year - 1, 12) else (year, month - 1);
      NextMonthDay(y, m, day);
      if day + DaysIn(y, m) < 1 {
        CarryKeepsDay(y, m, day + DaysIn(y, m));
      }
    } else if day > DaysIn(year, month) {
      var (y, m) := NextMonth(year, month);
      NextMonthDay(year, month, day - DaysIn(year, month));
      CarryKeepsDay(y, m, day - DaysIn(year, month));
    }
  }

  /** time.Date with a months beyond the year: the day that many years later. */
  lemma NormalizeKeepsDay(year: int, a: int, month: int, day: int)
    requires 1 <= month <= 12
    ensures var d := Normalize(year, 12 * a + month, day);
            DayNumber(d.year, d.month, d.day) == DayNumber(year + a, month, day)
  {
    assert (12 * a + month - 1) / 12 == a && (12 * a + month - 1) % 12 == month - 1;
    CarryKeepsDay(year + a, month, day);
  }

  function YearDays(year: int): int {
    if IsLeap(year) then 366 else 365
  }

  lemma {:induction false} YearsInOrder(a: int, b: int)
    requires a < b
    ensures DaysBeforeYear(a) + YearDays(a) <= DaysBeforeYear(b)
    decreases b - a
  {
    hide DaysBeforeYear;
    YearStep(a);
    if a + 1 < b {
      YearsInOrder(a + 1, b);
    }
  }

  lemma {:induction false} MonthsInOrder(year: int, m: int, n: int)
    requires 1 <= m < n <= 12
    ensures DaysBefore(year, m) + DaysIn(year, m) <= DaysBefore(year, n)
    decreases n
  {
    hide DaysIn;
    if m < n - 1 {
      MonthsInOrder(year, m, n - 1);
    }
  }

  lemma DayInYear(d: Date)
    ensures 1 <= DaysBefore(d.year, d.month) + d.day <= YearDays(d.year)
  {
    hide DaysBefore, DaysIn;
    YearLength(d.year);
    assert DaysBefore(d.year, 1) == 0 && DaysIn(d.year, 12) == 31 by { Ends(d.year); }
    if d.month < 12 {
      MonthsInOrder(d.year, d.month, 12);
    }
    if 1 < d.month {
      MonthsInOrder(d.year, 1, d.month);
      assert 28 <= DaysIn(d.year, 1);
    }
  }

  lemma Ends(year: int)
    ensures DaysBefore(year, 1) == 0 && DaysIn(year, 12) == 31
  {
  }

  /** Each day has one existing date, so a normalised date is determined by its day number. */
  lemma OneDatePerDay(d: Date, e: Date)
    requires DayNumber(d.year, d.month, d.day) == DayNumber(e.year, e.month, e.day)
    ensures d == e
  {
    hide DaysBefore, DaysBeforeYear, DaysIn;
    DayInYear(d);
    DayInYear(e);
    if d.year < e.year {
      YearsInOrder(d.year, e.year);
    } else if e.year < d.year {
      YearsInOrder(e.year, d.year);
    } else if d.month < e.month {
      MonthsInOrder(d.year, d.month, e.month);
    } else if e.month < d.month {
      MonthsInOrder(d.year, e.month, d.month);
    }
  }

  function Digit(n: nat): byte
    requires n < 10
  {
    48 + n
  }

  /** strconv.AppendUint for a number of exactly two digits. */
  function TwoDigits(n: nat): (s: seq<byte>)
    requires n < 100
    ensures |s| == 2
  {
    [Digit(n / 10), Digit(n % 10)]
  }

  function FourDigits(n: nat): (s: seq<byte>)
    requires n < 10000
    ensures |s| == 4
  {
    TwoDigits(n / 100) + TwoDigits(n % 100)
  }

  /** Years outside the four-digit range are written as 0000. */
  function WireYear(year: int): (y: int)
    ensures 0 <= y < 10000
  {
    if 1000 <= year <= 9999 then year else 0
  }

  function PutDate(d: Date): (s: seq<byte>)
    ensures |s| == 8
  {
    FourDigits(WireYear(d.year)) + TwoDigits(d.month) + TwoDigits(d.day)
  }

  predicate IsDigit(c: byte) {
    48 <= c < 58
  }

  /** strconv.ParseUint in base 10 of two characters. */
  function ParseTwo(s: seq<byte>): (n: Option<nat>)
    requires |s| == 2
    ensures n.Some? ==> n.value < 100
  {
    if IsDigit(s[0]) && IsDigit(s[1]) then Some((s[0] - 48) * 10 + (s[1] - 48)) else None
  }

  function ParseFour(s: seq<byte>): (n: Option<nat>)
    requires |s| == 4
    ensures n.Some? ==> n.value < 10000
  {
    var hi, lo := ParseTwo(s[..2]), ParseTwo(s[2..]);
    if hi.Some? && lo.Some? then Some(hi.value * 100 + lo.value) else None
  }

  function GetDate(s: seq<byte>): Option<Date>
    requires |s| == 8
  {
    var y, m, d := ParseFour(s[..4]), ParseTwo(s[4..6]), ParseTwo(s[6..]);
    if y.Some? && m.Some? && d.Some? then Some(Normalize(y.value, m.value, d.value)) else None
  }

  lemma TwoRoundTrip(n: nat)
    requires n < 100
    ensures ParseTwo(TwoDigits(n)) == Some(n)
  {
  }

  lemma FourRoundTrip(n: nat)
    requires n < 10000
    ensures ParseFour(FourDigits(n)) == Some(n)
  {
    var s := FourDigits(n);
    assert s[..2] == TwoDigits(n / 100) && s[2..] == TwoDigits(n % 100);
    TwoRoundTrip(n / 100);
    TwoRoundTrip(n % 100);
  }

  /** One trip over the wire keeps month and day and maps the year to WireYear: 29 February
      survives because year 0 is a leap year. */
  lemma DateTrip(d: Date)
    ensures GetDate(PutDate(d)) == Some(Civil(WireYear(d.year), d.month, d.day))
  {
    var s := PutDate(d);
    assert s[..4] == FourDigits(WireYear(d.year)) && s[4..6] == TwoDigits(d.month) && s[6..] == TwoDigits(d.day);
    FourRoundTrip(WireYear(d.year));
    TwoRoundTrip(d.month);
    TwoRoundTrip(d.day);
    assert IsLeap(0);
  }

  /** A date survives the wire exactly when its year has four digits or is 0. */
  lemma DateRoundTrip(d: Date)
    ensures GetDate(PutDate(d)) == Some(d) <==> 1000 <= d.year <= 9999 || d.year == 0
  {
    DateTrip(d);
  }

  /** Encodings stabilise: the encoding of any date decodes, and the date it decodes to, though it
      may be another, has the same encoding. */
  lemma DateStable(d: Date)
    ensures GetDate(PutDate(d)).Some?
    ensures PutDate(GetDate(PutDate(d)).value) == PutDate(d)
  {
    DateTrip(d);
  }

  /** Two dates have equal encodings exactly when they agree up to the year collapse. */
  lemma DateEncodingEqual(d: Date, e: Date)
    ensures PutDate(d) == PutDate(e) <==>
            WireYear(d.year) == WireYear(e.year) && d.month == e.month && d.day == e.day
  {
    DateTrip(d);
    DateTrip(e);
  }
}

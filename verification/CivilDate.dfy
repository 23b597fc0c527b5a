/** The build date: days since 1970-01-01 turned into a Gregorian date by counting off years and months. */
module CivilDate {
  predicate IsLeapYear(year: nat) {
    (year % 4 == 0 && year % 100 != 0) || year % 400 == 0
  }

  function YearLength(year: nat): nat { if IsLeapYear(year) then 366 else 365 }

  function MonthLengths(year: nat): (r: seq<nat>)
    ensures |r| == 12 && forall i :: 0 <= i < 12 ==> 28 <= r[i] <= 31
  {
    if IsLeapYear(year) then [31, 29, 31, 30, 31, 30, 31, 31, 30, 31, 30, 31]
    else [31, 28, 31, 30, 31, 30, 31, 31, 30, 31, 30, 31]
  }

  /** April, June, September and November have 30 days, February 28 or 29, and every other month 31. */
  lemma MonthLengthRule(year: nat, month: nat)
    requires 1 <= month <= 12
    ensures MonthLengths(year)[month - 1]
            == if month == 4 || month == 6 || month == 9 || month == 11 then 30
               else if month != 2 then 31
               else if year % 400 == 0 || (year % 4 == 0 && year % 100 != 0) then 29
               else 28
  {
  }

  datatype Date = Date(year: nat, month: nat, day: nat)

  predicate Valid(d: Date) {
    d.year >= 1970 && 1 <= d.month <= 12 && 1 <= d.day <= MonthLengths(d.year)[d.month - 1]
  }

  // ---------------------------------------------------------- the distance from 1970-01-01

  /** Leap years from year 1 to n, in closed form. */
  function Leaps(n: nat): int { n / 4 - n / 100 + n / 400 }

  function DaysBeforeYear(year: nat): int
    requires year >= 1970
  {
    365 * (year - 1970) + Leaps(year - 1) - Leaps(1969)
  }

  function DaysBeforeMonth(year: nat, month: nat): nat
    requires 1 <= month <= 13
  {
    if month == 1 then 0 else DaysBeforeMonth(year, month - 1) + MonthLengths(year)[month - 2]
  }

  function DayNumber(d: Date): int
    requires Valid(d)
  {
    DaysBeforeYear(d.year) + DaysBeforeMonth(d.year, d.month) + d.day - 1
  }

  /** Days are counted from 1 January 1970. */
  lemma DayZero()
    ensures DayNumber(Date(1970, 1, 1)) == 0 && DayNumber(Date(1970, 2, 1)) == 31
  {
  }

  /** The closed form grows by exactly the length of the year. */
  lemma NextYear(year: nat)
    requires year >= 1970
    ensures DaysBeforeYear(year + 1) == DaysBeforeYear(year) + YearLength(year)
  {
    LeapStep(year);
  }

  lemma LeapStep(year: nat)
    requires year >= 1
    ensures Leaps(year) - Leaps(year - 1) == if IsLeapYear(year) then 1 else 0
  {
    MultipleStep(year, 4);
    MultipleStep(year, 100);
    MultipleStep(year, 400);
    CenturiesNest(year);
  }

  lemma CenturiesNest(year: nat)
    ensures year % 400 == 0 ==> year % 100 == 0
    ensures year % 100 == 0 ==> year % 4 == 0
  {
    if year % 400 == 0 {
      Hundreds(4 * (year / 400));
    }
    if year % 100 == 0 {
      Fours(25 * (year / 100));
    }
  }

  lemma Hundreds(q: nat)
    ensures 100 * q % 100 == 0
  {
  }

  lemma Fours(q: nat)
    ensures 4 * q % 4 == 0
  {
  }

  lemma MultipleStep(n: nat, k: nat)
    requires n >= 1 && (k == 4 || k == 100 || k == 400)
    ensures n / k - (n - 1) / k == if n % k == 0 then 1 else 0
  {
  }

  lemma WholeYear(year: nat)
    ensures DaysBeforeMonth(year, 13) == YearLength(year)
  {
    var m := MonthLengths(year);
    assert DaysBeforeMonth(year, 2) == 31;
    assert DaysBeforeMonth(year, 4) == 31 + m[1] + 31;
    assert DaysBeforeMonth(year, 6) == DaysBeforeMonth(year, 4) + 30 + 31;
    assert DaysBeforeMonth(year, 8) == DaysBeforeMonth(year, 6) + 30 + 31;
    assert DaysBeforeMonth(year, 10) == DaysBeforeMonth(year, 8) + 31 + 30;
    assert DaysBeforeMonth(year, 12) == DaysBeforeMonth(year, 10) + 31 + 30;
  }

  // ---------------------------------------------------------------------------- the loops

  /** The date at exactly the given distance from 1970-01-01. */
  method DateOf(days: nat) returns (d: Date)
    ensures Valid(d) && DayNumber(d) == days
  {
    var year: nat, remaining: nat := 1970, days;
    while true
      invariant year >= 1970 && DaysBeforeYear(year) + remaining == days
      decreases remaining
    {
      var daysInYear := if IsLeapYear(year) then 366 else 365;
      if remaining < daysInYear {
        break;
      }
      NextYear(year);
      remaining := remaining - daysInYear;
      year := year + 1;
    }
    assert remaining < YearLength(year);
    var daysInMonths := MonthLengths(year);
    var month: nat, day: nat := 1, remaining + 1;
    WholeYear(year);
    for i := 0 to 12
      invariant month == i + 1 && day >= 1
      invariant DaysBeforeMonth(year, month) + day - 1 == remaining
    {
      if day <= daysInMonths[i] {
        return Date(year, month, day);
      }
      day := day - daysInMonths[i];
      month := month + 1;
    }
    assert false;
  }

  // --------------------------------------------------------------------------- order and uniqueness

  predicate Before(a: Date, b: Date) {
    a.year < b.year || (a.year == b.year && (a.month < b.month || (a.month == b.month && a.day < b.day)))
  }

  lemma {:induction false} YearsAscend(a: nat, b: nat)
    requires 1970 <= a < b
    ensures DaysBeforeYear(a) + YearLength(a) <= DaysBeforeYear(b)
  {
    NextYear(b - 1);
    if a < b - 1 {
      YearsAscend(a, b - 1);
    }
  }

  lemma {:induction false} MonthsAscend(year: nat, a: nat, b: nat)
    requires 1 <= a < b <= 13
    ensures DaysBeforeMonth(year, a) + MonthLengths(year)[a - 1] <= DaysBeforeMonth(year, b)
  {
    if a < b - 1 {
      MonthsAscend(year, a, b - 1);
    }
  }

  lemma EarlierIsSmaller(a: Date, b: Date)
    requires Valid(a) && Valid(b) && Before(a, b)
    ensures DayNumber(a) < DayNumber(b)
  {
    if a.year < b.year {
      YearsAscend(a.year, b.year);
      MonthsAscend(a.year, a.month, 13);
      WholeYear(a.year);
    } else if a.month < b.month {
      MonthsAscend(a.year, a.month, b.month);
    }
  }

  /** Dates and day numbers are in the same order, so a day number has one date. */
  lemma DayNumberOrdersDates(a: Date, b: Date)
    requires Valid(a) && Valid(b)
    ensures DayNumber(a) < DayNumber(b) <==> Before(a, b)
    ensures DayNumber(a) == DayNumber(b) <==> a == b
  {
    if Before(a, b) {
      EarlierIsSmaller(a, b);
    } else if Before(b, a) {
      EarlierIsSmaller(b, a);
    }
  }

  /** Counting off recovers every date from its day number. */
  method DateRoundTrip(d: Date) returns (back: Date)
    requires Valid(d)
    ensures back == d
  {
    DayNumberNotNegative(d);
    back := DateOf(DayNumber(d));
    DayNumberOrdersDates(back, d);
  }

  lemma DayNumberNotNegative(d: Date)
    requires Valid(d)
    ensures DayNumber(d) >= 0
  {
    if d.year > 1970 {
      YearsAscend(1970, d.year);
    }
  }
}

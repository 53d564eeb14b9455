/** The Gregorian calendar as UTC dates use it. A date is its day number; day 0 is 1 January of year 0. */
module Calendar {
  predicate IsLeap(year: int) { year % 4 == 0 && (year % 100 != 0 || year % 400 == 0) }

  /** Months are counted from January of year 0, so a month is 12 * year + month index. */
  function MonthLength(month: int): int {
    var m := month % 12;
    if m == 1 then if IsLeap(month / 12) then 29 else 28
    else if m == 3 || m == 5 || m == 8 || m == 10 then 30 else 31
  }

  /** Day number of the first of the month. */
  function MonthStart(month: int): int
    decreases if month < 0 then -month else month
  {
    if month == 0 then 0
    else if month > 0 then MonthStart(month - 1) + MonthLength(month - 1)
    else MonthStart(month + 1) - MonthLength(month)
  }

  lemma LengthBounds(month: int)
    ensures 28 <= MonthLength(month) <= 31
  {
  }

  /** Each month starts where the one before ends. */
  lemma NextMonth(month: int)
    ensures MonthStart(month + 1) == MonthStart(month) + MonthLength(month)
  {
  }

  /** How many of the years 0 to year - 1 are multiples of 4, 100 and 400. */
  function Fourths(year: int): int { (year + 3) / 4 }
  function Centuries(year: int): int { (year + 99) / 100 }
  function FourCenturies(year: int): int { (year + 399) / 400 }

  lemma OneMoreFourth(year: int)
    ensures Fourths(year + 1) == Fourths(year) + (if year % 4 == 0 then 1 else 0)
  {
  }

  lemma OneMoreCentury(year: int)
    ensures Centuries(year + 1) == Centuries(year) + (if year % 100 == 0 then 1 else 0)
  {
  }

  lemma OneMoreFourCenturies(year: int)
    ensures FourCenturies(year + 1) == FourCenturies(year) + (if year % 400 == 0 then 1 else 0)
  {
  }

  lemma MultiplesNest(year: int)
    ensures year % 400 == 0 ==> year % 100 == 0
    ensures year % 100 == 0 ==> year % 4 == 0
  {
    var q := year / 100;
    assert year % 100 == 0 ==> year == 4 * (25 * q);
    var p := year / 400;
    assert year % 400 == 0 ==> year == 100 * (4 * p);
  }

  /** Leap years before a year: every fourth, but for three centuries in four. */
  function LeapYears(year: int): int { Fourths(year) - Centuries(year) + FourCenturies(year) }

  lemma OneMoreLeapYear(year: int)
    ensures LeapYears(year + 1) == LeapYears(year) + (if IsLeap(year) then 1 else 0)
  {
    OneMoreFourth(year);
    OneMoreCentury(year);
    OneMoreFourCenturies(year);
    MultiplesNest(year);
  }

  lemma Quarter(month: int)
    ensures MonthStart(month + 3) ==
            MonthStart(month) + MonthLength(month) + MonthLength(month + 1) + MonthLength(month + 2)
  {
    NextMonth(month);
    NextMonth(month + 1);
    NextMonth(month + 2);
  }

  lemma WholeYear(year: int)
    ensures MonthStart(12 * year + 12) == MonthStart(12 * year) + (if IsLeap(year) then 366 else 365)
  {
    var m := 12 * year;
    YearOfMonths(year);
    Quarter(m);
    Quarter(m + 3);
    Quarter(m + 6);
    Quarter(m + 9);
  }

  /** The first of January is where counting 365 days a year and the leap days puts it. */
  lemma {:induction false} YearStart(year: nat)
    ensures MonthStart(12 * year) == 365 * year + LeapYears(year)
  {
    if year > 0 {
      YearStart(year - 1);
      WholeYear(year - 1);
      OneMoreLeapYear(year - 1);
    }
  }

  lemma YearOfMonths(year: int)
    ensures forall m :: 12 * year <= m < 12 * year + 12 ==>
                          var i := m - 12 * year;
                          MonthLength(m)
                          == if i == 1 then if IsLeap(year) then 29 else 28
                             else if i == 3 || i == 5 || i == 8 || i == 10 then 30 else 31
  {
    forall m | 12 * year <= m < 12 * year + 12 ensures m / 12 == year && m % 12 == m - 12 * year {
    }
  }

  lemma {:induction false} MonthsAscend(a: int, b: int)
    requires a <= b
    ensures MonthStart(a) + 28 * (b - a) <= MonthStart(b) <= MonthStart(a) + 31 * (b - a)
    decreases b - a
  {
    if a < b {
      MonthsAscend(a, b - 1);
      NextMonth(b - 1);
      LengthBounds(b - 1);
    }
  }

  /** The month a day lies in, searched for from a guess. */
  function MonthFrom(day: int, guess: int): int
    decreases if day < MonthStart(guess) then 1 else 0,
              if day < MonthStart(guess) then MonthStart(guess) - day else day - MonthStart(guess)
  {
    NextMonth(guess - 1);
    NextMonth(guess);
    if day < MonthStart(guess) then MonthFrom(day, guess - 1)
    else if day >= MonthStart(guess + 1) then MonthFrom(day, guess + 1)
    else guess
  }

  lemma {:induction false} MonthFromIs(day: int, guess: int)
    ensures var month := MonthFrom(day, guess); MonthStart(month) <= day < MonthStart(month + 1)
    decreases if day < MonthStart(guess) then 1 else 0,
              if day < MonthStart(guess) then MonthStart(guess) - day else day - MonthStart(guess)
  {
    NextMonth(guess - 1);
    NextMonth(guess);
    if day < MonthStart(guess) { MonthFromIs(day, guess - 1); }
    else if day >= MonthStart(guess + 1) { MonthFromIs(day, guess + 1); }
  }

  function MonthOf(day: int): int { MonthFrom(day, 0) }

  lemma MonthHasDay(day: int)
    ensures MonthStart(MonthOf(day)) <= day < MonthStart(MonthOf(day) + 1)
  {
    MonthFromIs(day, 0);
  }

  lemma MonthIs(day: int, month: int)
    requires MonthStart(month) <= day < MonthStart(month + 1)
    ensures MonthOf(day) == month
  {
    var m := MonthOf(day);
    MonthHasDay(day);
    if m < month { MonthsAscend(m + 1, month); } else if month < m { MonthsAscend(month + 1, m); }
  }

  /** getUTCFullYear, getUTCMonth and getUTCDate. */
  function Year(day: int): int { MonthOf(day) / 12 }
  function Month(day: int): int { MonthOf(day) % 12 }
  function DayOfMonth(day: int): int { day - MonthStart(MonthOf(day)) + 1 }

  /** Date.UTC, which carries months and days over. */
  function Utc(year: int, month: int, day: int): int { MonthStart(12 * year + month) + day - 1 }

  /** A date is rebuilt from its parts. */
  lemma UtcOfParts(day: int)
    ensures Utc(Year(day), Month(day), DayOfMonth(day)) == day
    ensures 0 <= Month(day) < 12 && 1 <= DayOfMonth(day) <= MonthLength(MonthOf(day))
  {
    MonthHasDay(day);
    NextMonth(MonthOf(day));
  }
}

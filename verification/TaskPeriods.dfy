/** The reporting periods that tasks are generated for. */
module TaskPeriods {
  import opened Common
  import opened Text
  import opened Calendar
  import opened AccountCodes

  datatype Cadence = Monthly | DualMonth

  /** All four are calendar days. */
  datatype Period = Period(start: int, end: int, due: int, visible: int)

  const LOOKBACK_MONTHS := 12
  const LOOKBACK_YEARS := 5
  const MAX_STEPS := 60

  /** How many months a period has. */
  function StepOf(c: Cadence): nat { if c.Monthly? then 1 else 2 }

  /** Period k of a cadence: month k, or months 2k and 2k + 1, counted from January of year 0. */
  function FirstMonth(c: Cadence, k: int): int { if c.Monthly? then k else 2 * k }
  function Start(c: Cadence, k: int): int { MonthStart(FirstMonth(c, k)) }
  function End(c: Cadence, k: int): int { MonthStart(FirstMonth(c, k + 1)) - 1 }

  /** getVATReportingDate for a month, counted from 0, of a year. */
  function ReportingLabel(c: Cadence, year: nat, month: nat): string {
    if c.Monthly? then Decimal(month + 1) + "/" + Decimal(year)
    else Decimal(month / 2 * 2 + 1) + "-" + Decimal(month / 2 * 2 + 2) + "/" + Decimal(year)
  }

  function PeriodAt(c: Cadence, k: nat): Period {
    Period(Start(c, k), End(c, k), End(c, k) + 15, End(c, k) + 1)
  }

  function PeriodList(c: Cadence, first: nat, n: nat): seq<Period> {
    if n == 0 then [] else PeriodList(c, first, n - 1) + [PeriodAt(c, first + n - 1)]
  }

  lemma {:induction false} PeriodListIs(c: Cadence, first: nat, n: nat)
    ensures var ps := PeriodList(c, first, n); |ps| == n && forall i :: 0 <= i < n ==> ps[i] == PeriodAt(c, first + i)
  {
    if n > 0 { PeriodListIs(c, first, n - 1); }
  }

  /** Periods from one day's to the one before another day's, as far as the steps go. */
  function Steps(first: int, last: int): nat {
    if last <= first then 0 else if last - first <= MAX_STEPS then last - first else MAX_STEPS
  }

  function PeriodsBetween(c: Cadence, lower: int, today: int): seq<Period>
    requires PeriodOf(c, lower) >= 0
  {
    PeriodList(c, PeriodOf(c, lower), Steps(PeriodOf(c, lower), PeriodOf(c, today)))
  }

  /** The period that a day falls in. */
  function PeriodOf(c: Cadence, day: int): int { if c.Monthly? then MonthOf(day) else MonthOf(day) / 2 }

  lemma PeriodHasDay(c: Cadence, day: int, k: int)
    ensures k <= PeriodOf(c, day) <==> Start(c, k) <= day
  {
    MonthHasDay(day);
    MonthsOrdered(MonthOf(day), FirstMonth(c, k));
    MonthsOrdered(MonthOf(day) + 1, FirstMonth(c, k));
  }

  lemma MonthsOrdered(a: int, b: int)
    ensures a <= b <==> MonthStart(a) <= MonthStart(b)
  {
    if a <= b { MonthsAscend(a, b); } else { MonthsAscend(b, a); }
  }

  /** computeLowerBound, with the day of creation if it is known. */
  function LowerBound(createdAt: Option<int>, today: int): int {
    var cap := Utc(Year(today), Month(today) - LOOKBACK_MONTHS, 1);
    var created := if createdAt.Some? then createdAt.value else today;
    if created > cap then created else cap
  }

  // ---- Labels ----

  /** What a label says: year and first month as text. */
  function Key(c: Cadence, k: nat): (string, string) {
    (Decimal(FirstMonth(c, k) / 12), Decimal(FirstMonth(c, k) % 12 + 1))
  }

  /** The month text of a label: before the slash, and before the dash of a pair. */
  function MonthText(c: Cadence, text: string): string {
    var first := Split(text, '/')[0];
    if c.Monthly? then first else Split(first, '-')[0]
  }

  lemma NoSeparator(n: nat)
    ensures '/' !in Decimal(n) && '-' !in Decimal(n)
  {
    NumberOfDecimal(n);
  }

  /** Taking a label apart gives back the year and the first month of its period. */
  lemma LabelParses(c: Cadence, year: nat, month: nat, k: nat)
    requires month < 12 && FirstMonth(c, k) <= 12 * year + month < FirstMonth(c, k + 1)
    ensures var text := ReportingLabel(c, year, month);
            && |Split(text, '/')| == 2
            && (Split(text, '/')[1], MonthText(c, text)) == Key(c, k)
  {
    var text := ReportingLabel(c, year, month);
    var y := Decimal(year);
    NoSeparator(year);
    if c.Monthly? {
      assert k / 12 == year && k % 12 == month;
      NoSeparator(month + 1);
      SplitTwo(Decimal(month + 1), y, '/');
      assert text == Decimal(month + 1) + ['/'] + y;
    } else {
      var first := month / 2 * 2;
      assert 2 * k == 12 * year + first && first < 12;
      assert 2 * k / 12 == year && 2 * k % 12 == first && first / 2 * 2 == first;
      NoSeparator(first + 1);
      NoSeparator(first + 2);
      var pair := Decimal(first + 1) + ['-'] + Decimal(first + 2);
      SplitTwo(pair, y, '/');
      SplitTwo(Decimal(first + 1), Decimal(first + 2), '-');
      assert text == pair + ['/'] + y;
    }
  }

  lemma KeysDiffer(c: Cadence, j: nat, k: nat)
    requires Key(c, j) == Key(c, k)
    ensures j == k
  {
    NumberOfDecimal(FirstMonth(c, j) / 12);
    NumberOfDecimal(FirstMonth(c, k) / 12);
    NumberOfDecimal(FirstMonth(c, j) % 12 + 1);
    NumberOfDecimal(FirstMonth(c, k) % 12 + 1);
  }

  /** getStartAndEndDate on parsed numbers; month counts from 1. */
  function StartAndEnd(year: int, month: int, single: bool): (int, int) {
    (Utc(year, month - 1, 1), Utc(year, month - 1 + (if single then 1 else 2), 0))
  }

  lemma KeyDates(c: Cadence, k: nat)
    ensures var key := Key(c, k);
            && Number(key.0).Some? && Number(key.1).Some?
            && StartAndEnd(Number(key.0).value, Number(key.1).value, c.Monthly?) == (Start(c, k), End(c, k))
  {
    NumberOfDecimal(FirstMonth(c, k) / 12);
    NumberOfDecimal(FirstMonth(c, k) % 12 + 1);
    DatesOf(c, k, FirstMonth(c, k) / 12, FirstMonth(c, k) % 12);
  }

  lemma DatesOf(c: Cadence, k: nat, year: nat, month: nat)
    requires 12 * year + month == FirstMonth(c, k)
    ensures StartAndEnd(year, month + 1, c.Monthly?) == (Start(c, k), End(c, k))
  {
    UtcIn(year, month, 1, FirstMonth(c, k));
    UtcIn(year, month + StepOf(c), 0, FirstMonth(c, k + 1));
  }

  lemma UtcIn(year: int, month: int, day: int, m: int)
    requires 12 * year + month == m
    ensures Utc(year, month, day) == MonthStart(m) + day - 1
  {
  }

  /** A period from its first and last day, as the code builds it with Date.UTC. */
  function BuildPeriod(start: int, end: int): Period {
    var dueMonth := Month(end) + 1;
    Period(Utc(Year(start), Month(start), DayOfMonth(start)), Utc(Year(end), Month(end), DayOfMonth(end)),
           Utc(Year(end) + dueMonth / 12, dueMonth % 12, 15), Utc(Year(end), Month(end), DayOfMonth(end) + 1))
  }

  /** Due on the fifteenth of the month after the end, visible from the day after the end. */
  lemma BuildsPeriod(c: Cadence, k: nat)
    ensures BuildPeriod(Start(c, k), End(c, k)) == PeriodAt(c, k)
  {
    EndMonth(c, k);
    BuildPeriodIs(Start(c, k), End(c, k), FirstMonth(c, k + 1));
  }

  lemma BuildPeriodIs(start: int, end: int, next: int)
    requires MonthOf(end) == next - 1
    ensures BuildPeriod(start, end) == Period(start, end, MonthStart(next) + 14, end + 1)
  {
    UtcOfParts(start);
    UtcOfParts(end);
    DueDay(end);
    DayAfter(end);
  }

  lemma DayAfter(day: int)
    ensures Utc(Year(day), Month(day), DayOfMonth(day) + 1) == day + 1
  {
    UtcOfParts(day);
  }

  lemma DueDay(day: int)
    ensures var dueMonth := Month(day) + 1;
            Utc(Year(day) + dueMonth / 12, dueMonth % 12, 15) == MonthStart(MonthOf(day) + 1) + 14
  {
    CarryMonth(MonthOf(day));
  }

  lemma CarryMonth(month: int)
    ensures 12 * (month / 12 + (month % 12 + 1) / 12) + (month % 12 + 1) % 12 == month + 1
  {
  }

  lemma EndMonth(c: Cadence, k: int)
    ensures MonthOf(End(c, k)) == FirstMonth(c, k + 1) - 1
  {
    LastDayOfMonth(FirstMonth(c, k + 1) - 1);
  }

  /** A period ends on or after a day exactly from the day's own period on. */
  lemma BetweenBounds(c: Cadence, lower: int, today: int, k: int)
    ensures lower <= End(c, k) <==> PeriodOf(c, lower) <= k
    ensures End(c, k) < today <==> k < PeriodOf(c, today)
  {
    PeriodHasDay(c, lower, k + 1);
    PeriodHasDay(c, today, k + 1);
  }

  /** Every key seen belongs to a period before k. */
  ghost predicate SeenBefore(c: Cadence, seen: set<(string, string)>, k: nat) {
    forall key :: key in seen ==> exists j: nat :: j < k && key == Key(c, j)
  }

  lemma NotSeen(c: Cadence, seen: set<(string, string)>, k: nat)
    requires SeenBefore(c, seen, k)
    ensures Key(c, k) !in seen && SeenBefore(c, seen + {Key(c, k)}, k + 1)
  {
    if Key(c, k) in seen {
      var j: nat :| j < k && Key(c, k) == Key(c, j);
      KeysDiffer(c, j, k);
    }
  }

  /** The cursor is at the first or only month of period k, or at the second one of a pair. */
  ghost predicate CursorIn(c: Cadence, year: int, month: int, k: int) {
    FirstMonth(c, k) <= 12 * year + month < FirstMonth(c, k + 1)
  }

  /** One probe: the key, the end and the row of the period the cursor is in. A period from the lower bound's on
      ends no earlier than the bound, and its key is new. */
  method Probe(c: Cadence, lower: int, today: int, seen: set<(string, string)>, year: nat, month: nat, ghost k: nat)
    returns (key: (string, string), end: int, period: Period)
    requires month < 12 && CursorIn(c, year, month, k) && SeenBefore(c, seen, k) && PeriodOf(c, lower) <= k
    ensures key !in seen && SeenBefore(c, seen + {key}, k + 1)
    ensures lower <= end && (end < today <==> k < PeriodOf(c, today))
    ensures period == PeriodAt(c, k)
  {
    var text := ReportingLabel(c, year, month);
    LabelParses(c, year, month, k);
    key := (Split(text, '/')[1], MonthText(c, text));
    KeyDates(c, k);
    var dates := StartAndEnd(Number(key.0).value, Number(key.1).value, c.Monthly?);
    end := dates.1;
    period := BuildPeriod(dates.0, end);
    BuildsPeriod(c, k);
    BetweenBounds(c, lower, today, k);
    NotSeen(c, seen, k);
  }

  method AdvanceCursor(c: Cadence, year: nat, month: nat, ghost k: nat) returns (nextYear: nat, nextMonth: nat)
    requires month < 12 && CursorIn(c, year, month, k)
    ensures nextMonth < 12 && CursorIn(c, nextYear, nextMonth, k + 1)
  {
    nextYear, nextMonth := year, month + StepOf(c);
    while nextMonth >= 12
      invariant CursorIn(c, nextYear, nextMonth, k + 1)
    {
      nextMonth := nextMonth - 12;
      nextYear := nextYear + 1;
    }
  }

  method StartCursor(c: Cadence, day: int) returns (year: nat, month: nat)
    requires Year(day) >= 0
    ensures PeriodOf(c, day) >= 0 && month < 12 && CursorIn(c, year, month, PeriodOf(c, day))
  {
    year, month := Year(day), Month(day);
  }

  ghost predicate Listed(c: Cadence, first: nat, periods: seq<Period>, n: nat) {
    periods == PeriodList(c, first, n)
  }

  lemma OneMorePeriod(c: Cadence, first: nat, periods: seq<Period>, n: nat)
    requires Listed(c, first, periods, n)
    ensures Listed(c, first, periods + [PeriodAt(c, first + n)], n + 1)
  {
  }

  /** The walk stops after as many steps as there are periods to list. */
  lemma WalkIsDone(c: Cadence, lower: int, today: int, periods: seq<Period>, n: nat)
    requires PeriodOf(c, lower) >= 0 && Listed(c, PeriodOf(c, lower), periods, n)
    requires n == Steps(PeriodOf(c, lower), PeriodOf(c, today))
    ensures periods == PeriodsBetween(c, lower, today)
  {
  }

  /** enumeratePeriodicPeriods: exactly the periods from the one of the lower bound on that end before today,
      as far as 60 steps go. */
  method EnumeratePeriods(c: Cadence, lower: int, today: int) returns (periods: seq<Period>)
    requires Year(lower) >= 0
    ensures PeriodOf(c, lower) >= 0 && periods == PeriodsBetween(c, lower, today)
  {
    var cursorYear, cursorMonth := StartCursor(c, lower);
    ghost var first, last := PeriodOf(c, lower), PeriodOf(c, today);
    var safety := 0;
    var seen: set<(string, string)> := {};
    periods := [];
    while safety < MAX_STEPS
      invariant 0 <= safety <= Steps(first, last)
      invariant cursorMonth < 12 && CursorIn(c, cursorYear, cursorMonth, first + safety)
      invariant SeenBefore(c, seen, first + safety) && Listed(c, first, periods, safety)
    {
      ghost var k := first + safety;
      var key, end, period := Probe(c, lower, today, seen, cursorYear, cursorMonth, k);
      if end >= today { break; }
      if end >= lower && key !in seen {
        seen := seen + {key};
        OneMorePeriod(c, first, periods, safety);
        periods := periods + [period];
      }
      cursorYear, cursorMonth := AdvanceCursor(c, cursorYear, cursorMonth, k);
      safety := safety + 1;
    }
    WalkIsDone(c, lower, today, periods, safety);
  }

  // ---- What the list is ----

  /** Periods follow each other without gap or overlap, from the first day of a month to the last of one;
      each is due on the fifteenth of the next month and visible from its first day. */
  lemma PeriodShape(c: Cadence, k: nat)
    ensures var p := PeriodAt(c, k);
            && p.start < p.end && PeriodAt(c, k + 1).start == p.end + 1
            && MonthOf(p.start) == FirstMonth(c, k) && DayOfMonth(p.start) == 1
            && MonthOf(p.end) == FirstMonth(c, k + 1) - 1 && DayOfMonth(p.end) == MonthLength(MonthOf(p.end))
            && MonthOf(p.visible) == MonthOf(p.end) + 1 && DayOfMonth(p.visible) == 1
            && MonthOf(p.due) == MonthOf(p.end) + 1 && DayOfMonth(p.due) == 15
  {
    var first, next := FirstMonth(c, k), FirstMonth(c, k + 1);
    MonthsAscend(first, next);
    DayInMonth(first, 1);
    LastDayOfMonth(next - 1);
    DayInMonth(next, 1);
    DayInMonth(next, 15);
  }

  lemma DayInMonth(month: int, d: int)
    requires 1 <= d <= 28
    ensures MonthOf(MonthStart(month) + d - 1) == month && DayOfMonth(MonthStart(month) + d - 1) == d
  {
    NextMonth(month);
    LengthBounds(month);
    MonthIs(MonthStart(month) + d - 1, month);
  }

  lemma LastDayOfMonth(month: int)
    ensures MonthOf(MonthStart(month + 1) - 1) == month && DayOfMonth(MonthStart(month + 1) - 1) == MonthLength(month)
  {
    NextMonth(month);
    LengthBounds(month);
    MonthIs(MonthStart(month + 1) - 1, month);
  }

  /** The lower bound is the day of creation, or today if unknown, unless that is more than twelve months back:
      then it is in the month twelve months back. */
  lemma LowerBoundMonth(createdAt: Option<int>, today: int)
    ensures MonthOf(LowerBound(createdAt, today)) >= MonthOf(today) - LOOKBACK_MONTHS
    ensures createdAt.None? ==> LowerBound(createdAt, today) == today
    ensures createdAt.Some? && MonthOf(createdAt.value) >= MonthOf(today) - LOOKBACK_MONTHS ==>
            LowerBound(createdAt, today) == createdAt.value
    ensures createdAt.Some? && MonthOf(createdAt.value) < MonthOf(today) - LOOKBACK_MONTHS ==>
              MonthOf(LowerBound(createdAt, today)) == MonthOf(today) - LOOKBACK_MONTHS
  {
    var capMonth := MonthOf(today) - LOOKBACK_MONTHS;
    assert 12 * Year(today) + Month(today) == MonthOf(today);
    NextMonth(capMonth);
    LengthBounds(capMonth);
    MonthIs(MonthStart(capMonth), capMonth);
    MonthsAscend(capMonth, MonthOf(today));
    var lower := LowerBound(createdAt, today);
    MonthHasDay(lower);
    if MonthOf(lower) < capMonth { MonthsAscend(MonthOf(lower) + 1, capMonth); }
    MonthHasDay(today);
    if createdAt.Some? {
      var m := MonthOf(createdAt.value);
      MonthHasDay(createdAt.value);
      if m < capMonth { MonthsAscend(m + 1, capMonth); } else { MonthsAscend(capMonth, m); }
    }
  }

  lemma PeriodsDiffer(c: Cadence, j: nat, k: nat)
    requires Start(c, j) == Start(c, k)
    ensures j == k
  {
    if j < k { MonthsAscend(FirstMonth(c, j), FirstMonth(c, k)); }
    else { MonthsAscend(FirstMonth(c, k), FirstMonth(c, j)); }
  }

  lemma ListedIff(c: Cadence, first: nat, n: nat, k: nat)
    ensures PeriodAt(c, k) in PeriodList(c, first, n) <==> first <= k < first + n
  {
    var ps := PeriodList(c, first, n);
    PeriodListIs(c, first, n);
    if PeriodAt(c, k) in ps {
      var i :| 0 <= i < n && ps[i] == PeriodAt(c, k);
      PeriodsDiffer(c, first + i, k);
    }
    if first <= k < first + n {
      assert ps[k - first] == PeriodAt(c, k);
    }
  }

  /** The periods from a lower bound a year back at most: all those, and only those, that end on or after it and
      before today, in order. There are at most 12, so the 60 steps never cut the list. */
  lemma ExactlyTheEndedPeriods(c: Cadence, lower: int, today: int, k: nat)
    requires PeriodOf(c, lower) >= 0 && MonthOf(lower) >= MonthOf(today) - LOOKBACK_MONTHS
    ensures var ps := PeriodsBetween(c, lower, today);
            && |ps| <= LOOKBACK_MONTHS
            && (PeriodAt(c, k) in ps <==> lower <= End(c, k) < today)
            && (k < |ps| ==> ps[k] == PeriodAt(c, PeriodOf(c, lower) + k))
  {
    var first, last := PeriodOf(c, lower), PeriodOf(c, today);
    AtMostTwelve(c, lower, today);
    ListIs(c, first, last, k);
    BetweenBounds(c, lower, today, k);
  }

  lemma ListIs(c: Cadence, first: nat, last: int, k: nat)
    requires last - first <= LOOKBACK_MONTHS
    ensures var ps := PeriodList(c, first, Steps(first, last));
            && |ps| <= LOOKBACK_MONTHS
            && (PeriodAt(c, k) in ps <==> first <= k < last)
            && (k < |ps| ==> ps[k] == PeriodAt(c, first + k))
  {
    ListedIff(c, first, Steps(first, last), k);
    ListedAt(c, first, Steps(first, last), k);
  }

  lemma ListedAt(c: Cadence, first: nat, n: nat, i: nat)
    ensures |PeriodList(c, first, n)| == n && (i < n ==> PeriodList(c, first, n)[i] == PeriodAt(c, first + i))
  {
    PeriodListIs(c, first, n);
  }

  lemma AtMostTwelve(c: Cadence, lower: int, today: int)
    requires MonthOf(lower) >= MonthOf(today) - LOOKBACK_MONTHS
    ensures PeriodOf(c, today) - PeriodOf(c, lower) <= LOOKBACK_MONTHS
  {
  }

  // ---- Annual reports ----

  datatype AnnualPeriod = AnnualPeriod(year: int, start: int, end: int, due: int, visible: int)

  function AnnualAt(y: int): AnnualPeriod {
    AnnualPeriod(y, Utc(y, 0, 1), Utc(y, 11, 31), Utc(y + 1, 4, 31), Utc(y + 1, 0, 1))
  }

  function FirstAnnualYear(lower: int, today: int): int {
    var cap := Year(today) - LOOKBACK_YEARS;
    if Year(lower) > cap then Year(lower) else cap
  }

  function AnnualFrom(y: int, until: int): seq<AnnualPeriod>
    decreases until - y
  {
    if y >= until then [] else [AnnualAt(y)] + AnnualFrom(y + 1, until)
  }

  lemma AnnualVisible(y: int, today: int)
    ensures y < Year(today) <==> AnnualAt(y).visible <= today
  {
    MonthHasDay(today);
    if y < Year(today) {
      MonthsAscend(12 * (y + 1), MonthOf(today));
    } else {
      MonthsAscend(MonthOf(today) + 1, 12 * (y + 1));
    }
  }

  lemma AnnualStep(before: seq<AnnualPeriod>, y: int, until: int)
    requires y < until
    ensures before + AnnualFrom(y, until) == (before + [AnnualAt(y)]) + AnnualFrom(y + 1, until)
  {
  }

  /** enumerateAnnualPeriods: the years from the first one up to last year; none is skipped for its visibility. */
  method EnumerateAnnual(lower: int, today: int) returns (periods: seq<AnnualPeriod>)
    ensures periods == AnnualFrom(FirstAnnualYear(lower, today), Year(today))
  {
    periods := [];
    var lastFullYear := Year(today) - 1;
    var y := FirstAnnualYear(lower, today);
    while y <= lastFullYear
      invariant periods + AnnualFrom(y, Year(today)) == AnnualFrom(FirstAnnualYear(lower, today), Year(today))
      decreases lastFullYear - y
    {
      AnnualVisible(y, today);
      AnnualStep(periods, y, Year(today));
      var annual := AnnualAt(y);
      if annual.visible <= today {
        periods := periods + [annual];
      }
      y := y + 1;
    }
  }

  /** The lower bound reaches back a year at most, so of the five years allowed only last year ever appears,
      exactly when the business is known to have been created before this year. */
  lemma OnlyLastYear(createdAt: Option<int>, today: int)
    ensures AnnualFrom(FirstAnnualYear(LowerBound(createdAt, today), today), Year(today))
            == if createdAt.Some? && Year(createdAt.value) < Year(today) then [AnnualAt(Year(today) - 1)] else []
  {
    LowerBoundMonth(createdAt, today);
    assert AnnualFrom(Year(today), Year(today)) == [];
    assert (MonthOf(today) - LOOKBACK_MONTHS) / 12 == Year(today) - 1;
  }
}

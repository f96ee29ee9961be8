/** Calendar dates, periodic definitions and the periods of a definition that are due. */
module Recurrence {
  import opened Money
  import opened Options

  datatype Date = Date(year: int, month: int, day: int)

  predicate IsLeap(year: int) {
    year % 4 == 0 && (year % 100 != 0 || year % 400 == 0)
  }

  function MonthLength(year: int, month: int): int {
    if month == 2 then if IsLeap(year) then 29 else 28
    else if month in {4, 6, 9, 11} then 30 else 31
  }

  predicate ValidDate(d: Date) {
    1 <= d.month <= 12 && 1 <= d.day <= MonthLength(d.year, d.month)
  }

  predicate NotAfter(a: Date, b: Date) {
    a.year < b.year || (a.year == b.year && (a.month < b.month || (a.month == b.month && a.day <= b.day)))
  }

  /** Months counted through the years; the calendar month of an index. */
  function Index(year: int, month: int): int {
    year * 12 + (month - 1)
  }

  function YearOf(n: int): int {
    n / 12
  }

  function MonthOf(n: int): int {
    n % 12 + 1
  }

  lemma IndexRoundTrip(year: int, month: int)
    requires 1 <= month <= 12
    ensures YearOf(Index(year, month)) == year && MonthOf(Index(year, month)) == month
  {
  }

  datatype Rule = OneTime | Monthly | Quarterly | Biannual | Yearly | Custom | Unknown

  datatype Defn = Defn(rule: Rule, months: Option<seq<int>>, dayOfMonth: int, start: Date, end: Option<Date>)

  predicate ValidDefn(d: Defn) {
    ValidDate(d.start) && (d.end.Some? ==> ValidDate(d.end.value)) && d.dayOfMonth >= 1
  }

  /** The month overlaps the days from the start date to the end date. */
  predicate InSpan(d: Defn, year: int, month: int) {
    && NotAfter(d.start, Date(year, month, MonthLength(year, month)))
    && (d.end.Some? ==> NotAfter(Date(year, month, 1), d.end.value))
  }

  predicate AppliesInMonth(d: Defn, year: int, month: int) {
    var monthsSince := Index(year, month) - Index(d.start.year, d.start.month);
    if !InSpan(d, year, month) then false
    else
      match d.rule
      case OneTime => d.start.year == year && d.start.month == month
      case Monthly => monthsSince >= 0
      case Quarterly => monthsSince >= 0 && monthsSince % 3 == 0
      case Biannual => monthsSince >= 0 && monthsSince % 6 == 0
      case Yearly => d.start.month == month && d.start.year <= year
      case Custom => d.months.Some? && month in d.months.value && d.start.year <= year
      case Unknown => false
  }

  /** The day a period falls due; a day the month does not have is its last one. */
  function DateForPeriod(d: Defn, year: int, month: int): Date {
    var last := MonthLength(year, month);
    Date(year, month, if d.dayOfMonth < last then d.dayOfMonth else last)
  }

  datatype Period = Period(year: int, month: int, date: Date)

  /** The definition of a due period, without reference to any enumeration. */
  predicate IsDue(d: Defn, today: Date, p: Period) {
    && 1 <= p.month <= 12
    && AppliesInMonth(d, p.year, p.month)
    && p.date == DateForPeriod(d, p.year, p.month)
    && NotAfter(p.date, today)
  }

  function PeriodAt(d: Defn, n: int): Period {
    Period(YearOf(n), MonthOf(n), DateForPeriod(d, YearOf(n), MonthOf(n)))
  }

  /** The due periods among the months `lo..hi`, in order. */
  function DueIn(d: Defn, today: Date, lo: int, hi: int): seq<Period>
    decreases hi - lo
  {
    if hi < lo then []
    else DueIn(d, today, lo, hi - 1) + (if IsDue(d, today, PeriodAt(d, hi)) then [PeriodAt(d, hi)] else [])
  }

  function DuePeriods(d: Defn, today: Date): seq<Period> {
    DueIn(d, today, Index(d.start.year, d.start.month), Index(today.year, today.month))
  }

  // ------------------------------------------------------------ what is due, in plain calendar terms

  /** The months from the start month to a period. */
  function MonthsLater(d: Defn, p: Period): int {
    12 * (p.year - d.start.year) + p.month - d.start.month
  }

  /** The rule alone, in months after the start month. */
  ghost predicate RuleAllows(d: Defn, p: Period) {
    match d.rule
    case OneTime => MonthsLater(d, p) == 0
    case Monthly => true
    case Quarterly => exists n :: MonthsLater(d, p) == 3 * n
    case Biannual => exists n :: MonthsLater(d, p) == 6 * n
    case Yearly => exists n :: MonthsLater(d, p) == 12 * n
    case Custom => d.months.Some? && p.month in d.months.value
    case Unknown => false
  }

  /** The day before the first of the next month. */
  ghost predicate IsLastDay(a: Date) {
    ValidDate(a) && !ValidDate(Date(a.year, a.month, a.day + 1))
  }

  /** The asked-for day of the period's month, or the month's last day where that comes before it. */
  ghost predicate FallsDueOn(d: Defn, p: Period) {
    && p.date.year == p.year && p.date.month == p.month && ValidDate(p.date)
    && (p.date.day == d.dayOfMonth || (p.date.day < d.dayOfMonth && IsLastDay(p.date)))
  }

  /** A period from the start month on, not after the end date's month, that the rule allows and whose day has come. */
  ghost predicate ShouldBeYielded(d: Defn, today: Date, p: Period) {
    && 1 <= p.month <= 12 && MonthsLater(d, p) >= 0
    && (d.end.Some? ==> 12 * p.year + p.month <= 12 * d.end.value.year + d.end.value.month)
    && RuleAllows(d, p) && FallsDueOn(d, p)
    && (p.date == today || Earlier(p.date, today))
  }

  predicate Earlier(a: Date, b: Date) {
    if a.year != b.year then a.year < b.year else if a.month != b.month then a.month < b.month else a.day < b.day
  }

  lemma StepsExactly(k: int, step: int)
    requires step in {3, 6, 12}
    ensures k % step == 0 <==> exists n :: k == step * n
  {
    if k % step == 0 {
      assert k == step * (k / step);
    }
    if n :| k == step * n {
      MultipleHasNoRest(n, step);
    }
  }

  lemma MultipleHasNoRest(n: int, step: int)
    requires step in {3, 6, 12}
    ensures (step * n) % step == 0
  {
  }

  lemma RuleExactly(d: Defn, p: Period)
    requires ValidDefn(d) && 1 <= p.month <= 12
    ensures AppliesInMonth(d, p.year, p.month) <==>
      && MonthsLater(d, p) >= 0 && RuleAllows(d, p)
      && (d.end.Some? ==> 12 * p.year + p.month <= 12 * d.end.value.year + d.end.value.month)
  {
    assert MonthsLater(d, p) == Index(p.year, p.month) - Index(d.start.year, d.start.month);
    assert InSpan(d, p.year, p.month) <==>
      MonthsLater(d, p) >= 0 && (d.end.Some? ==> 12 * p.year + p.month <= 12 * d.end.value.year + d.end.value.month);
    match d.rule {
      case Quarterly => StepsExactly(MonthsLater(d, p), 3);
      case Biannual => StepsExactly(MonthsLater(d, p), 6);
      case Yearly => YearsApart(d, p);
      case _ =>
    }
  }

  lemma YearsApart(d: Defn, p: Period)
    requires 1 <= d.start.month <= 12 && 1 <= p.month <= 12
    ensures d.start.month == p.month <==> exists n :: MonthsLater(d, p) == 12 * n
  {
    if d.start.month == p.month {
      assert MonthsLater(d, p) == 12 * (p.year - d.start.year);
    }
    if n :| MonthsLater(d, p) == 12 * n {
      assert p.month - d.start.month == 12 * (n - (p.year - d.start.year));
    }
  }

  lemma DayExactly(d: Defn, p: Period)
    requires d.dayOfMonth >= 1 && 1 <= p.month <= 12
    ensures p.date == DateForPeriod(d, p.year, p.month) <==> FallsDueOn(d, p)
  {
  }

  /** The definition that enumerates is the calendar's. */
  lemma DueExactly(d: Defn, today: Date, p: Period)
    requires ValidDefn(d) && ValidDate(today)
    ensures IsDue(d, today, p) <==> ShouldBeYielded(d, today, p)
  {
    if 1 <= p.month <= 12 {
      RuleExactly(d, p);
      DayExactly(d, p);
      assert NotAfter(p.date, today) <==> p.date == today || Earlier(p.date, today);
    }
  }

  /** The twelve months' lengths: thirty days hath September, and February 28 or, in leap years, 29. */
  lemma MonthLengths(year: int, month: int)
    requires 1 <= month <= 12
    ensures month != 2 ==> MonthLength(year, month) == [31, 0, 31, 30, 31, 30, 31, 31, 30, 31, 30, 31][month - 1]
    ensures month == 2 ==> MonthLength(year, month) == if year % 400 == 0 || (year % 4 == 0 && year % 100 != 0) then 29 else 28
  {
  }

  /**
   The generator goes month by month, with carry into the next year, from the month of the start date while
   the month has begun.
   */
  method IterDuePeriods(d: Defn, today: Date) returns (periods: seq<Period>)
    requires ValidDefn(d) && ValidDate(today)
    ensures periods == DuePeriods(d, today)
    // exactly the periods that should be yielded, each once and in order
    ensures forall p :: p in periods <==> ShouldBeYielded(d, today, p)
    ensures forall i, j :: 0 <= i < j < |periods| ==> IndexOf(periods[i]) < IndexOf(periods[j])
  {
    YieldsExactly(d, today);
    periods := MonthLoop(d, today);
  }

  lemma YieldsExactly(d: Defn, today: Date)
    requires ValidDefn(d) && ValidDate(today)
    ensures forall p :: p in DuePeriods(d, today) <==> ShouldBeYielded(d, today, p)
    ensures
      var ps := DuePeriods(d, today);
      forall i, j :: 0 <= i < j < |ps| ==> IndexOf(ps[i]) < IndexOf(ps[j])
  {
    forall p
      ensures p in DuePeriods(d, today) <==> ShouldBeYielded(d, today, p)
    {
      EnumerationIsExact(d, today, p);
      DueExactly(d, today, p);
    }
    DueInAscends(d, today, Index(d.start.year, d.start.month), Index(today.year, today.month));
  }

  lemma OneMoreMonth(d: Defn, today: Date, lo: int, year: int, month: int)
    requires 1 <= month <= 12 && lo <= Index(year, month)
    ensures
      var n, date := Index(year, month), DateForPeriod(d, year, month);
      DueIn(d, today, lo, n) == DueIn(d, today, lo, n - 1)
        + (if AppliesInMonth(d, year, month) && NotAfter(date, today) then [Period(year, month, date)] else [])
  {
    IndexRoundTrip(year, month);
  }

  lemma BegunExactly(year: int, month: int, today: Date)
    requires 1 <= month <= 12 && ValidDate(today)
    ensures NotAfter(Date(year, month, 1), today) <==> Index(year, month) <= Index(today.year, today.month)
  {
  }

  /** The generator's loop. */
  method MonthLoop(d: Defn, today: Date) returns (periods: seq<Period>)
    requires ValidDefn(d) && ValidDate(today)
    ensures periods == DuePeriods(d, today)
  {
    periods := [];
    var y, m := d.start.year, d.start.month;
    ghost var first, last := Index(d.start.year, d.start.month), Index(today.year, today.month);
    BegunExactly(y, m, today);
    while NotAfter(Date(y, m, 1), today)
      invariant 1 <= m <= 12 && first <= Index(y, m)
      invariant NotAfter(Date(y, m, 1), today) <==> Index(y, m) <= last
      invariant Index(y, m) <= last + 1 || Index(y, m) == first
      invariant periods == DueIn(d, today, first, Index(y, m) - 1)
      decreases last + 1 - Index(y, m)
    {
      OneMoreMonth(d, today, first, y, m);
      if AppliesInMonth(d, y, m) {
        var target := DateForPeriod(d, y, m);
        if NotAfter(target, today) {
          periods := periods + [Period(y, m, target)];
        }
      }
      m := m + 1;
      if m > 12 {
        m := 1;
        y := y + 1;
      }
      BegunExactly(y, m, today);
    }
    NothingBefore(d, today, first, last, Index(y, m));
  }

  lemma NothingBefore(d: Defn, today: Date, first: int, last: int, n: int)
    requires n > last && (n <= last + 1 || n == first)
    ensures DueIn(d, today, first, n - 1) == DueIn(d, today, first, last)
  {
  }

  // ------------------------------------------------------------ the enumeration is exact

  lemma {:induction false} DueInExactly(d: Defn, today: Date, lo: int, hi: int, p: Period)
    ensures p in DueIn(d, today, lo, hi) <==> lo <= Index(p.year, p.month) <= hi && IsDue(d, today, p)
    decreases hi - lo
  {
    if hi < lo {
    } else {
      DueInExactly(d, today, lo, hi - 1, p);
      assert Index(YearOf(hi), MonthOf(hi)) == hi;
      if Index(p.year, p.month) == hi && 1 <= p.month <= 12 {
        assert YearOf(hi) == p.year && MonthOf(hi) == p.month;
      }
    }
  }

  lemma DueOnlyInRange(d: Defn, today: Date, p: Period)
    requires ValidDefn(d) && ValidDate(today) && IsDue(d, today, p)
    ensures Index(d.start.year, d.start.month) <= Index(p.year, p.month) <= Index(today.year, today.month)
  {
  }

  /**
   Over all time, the enumeration yields precisely the months where the definition applies and the clamped day
   has come.
   */
  lemma EnumerationIsExact(d: Defn, today: Date, p: Period)
    requires ValidDefn(d) && ValidDate(today)
    ensures p in DuePeriods(d, today) <==> IsDue(d, today, p)
  {
    DueInExactly(d, today, Index(d.start.year, d.start.month), Index(today.year, today.month), p);
    if IsDue(d, today, p) {
      DueOnlyInRange(d, today, p);
    }
  }

  function IndexOf(p: Period): int {
    Index(p.year, p.month)
  }

  ghost predicate Ascends(ps: seq<Period>, lo: int, hi: int) {
    && (forall i :: 0 <= i < |ps| ==> lo <= IndexOf(ps[i]) <= hi)
    && (forall i, j :: 0 <= i < j < |ps| ==> IndexOf(ps[i]) < IndexOf(ps[j]))
  }

  lemma {:induction false} DueInAscends(d: Defn, today: Date, lo: int, hi: int)
    ensures Ascends(DueIn(d, today, lo, hi), lo, hi)
    decreases hi - lo
  {
    if hi < lo {
    } else {
      DueInAscends(d, today, lo, hi - 1);
      assert IndexOf(PeriodAt(d, hi)) == hi;
    }
  }

  /** Periods come in strictly increasing order, hence without duplicates, and so do their dates. */
  lemma EnumerationAscends(d: Defn, today: Date, i: int, j: int)
    requires ValidDefn(d) && ValidDate(today) && 0 <= i < j < |DuePeriods(d, today)|
    ensures
      var ps := DuePeriods(d, today);
      IndexOf(ps[i]) < IndexOf(ps[j]) && NotAfter(ps[i].date, ps[j].date) && ps[i].date != ps[j].date
  {
    var ps := DuePeriods(d, today);
    assert ps == DueIn(d, today, Index(d.start.year, d.start.month), Index(today.year, today.month));
    DueInAscends(d, today, Index(d.start.year, d.start.month), Index(today.year, today.month));
    EnumerationIsExact(d, today, ps[i]);
    EnumerationIsExact(d, today, ps[j]);
    assert ps[i] in ps && ps[j] in ps;
  }

  lemma {:induction false} DueInPrefix(d: Defn, today: Date, later: Date, lo: int, hi: int)
    requires NotAfter(today, later) && hi <= Index(today.year, today.month) && ValidDate(today) && ValidDefn(d)
    ensures DueIn(d, today, lo, hi) <= DueIn(d, later, lo, hi)
    ensures hi < Index(today.year, today.month) ==> DueIn(d, today, lo, hi) == DueIn(d, later, lo, hi)
    decreases hi - lo
  {
    if hi < lo {
    } else {
      DueInPrefix(d, today, later, lo, hi - 1);
      assert Index(YearOf(hi), MonthOf(hi)) == hi;
    }
  }

  lemma {:induction false} DueInGrows(d: Defn, today: Date, lo: int, hi: int, more: int)
    requires hi <= more
    ensures DueIn(d, today, lo, hi) <= DueIn(d, today, lo, more)
    decreases more - hi
  {
    if hi < more {
      DueInGrows(d, today, lo, hi, more - 1);
    }
  }

  /** What is due today is a prefix of what is due on any later day. */
  lemma EarlierIsPrefix(d: Defn, today: Date, later: Date)
    requires ValidDefn(d) && ValidDate(today) && ValidDate(later) && NotAfter(today, later)
    ensures DuePeriods(d, today) <= DuePeriods(d, later)
  {
    var lo, hi := Index(d.start.year, d.start.month), Index(today.year, today.month);
    DueInPrefix(d, today, later, lo, hi);
    DueInGrows(d, later, lo, hi, Index(later.year, later.month));
  }

  // ------------------------------------------------------------ rules

  lemma SixthsAreThirds(x: int)
    ensures x % 6 == 0 ==> x % 3 == 0
  {
  }

  lemma TwelvesAreSixths(k: int)
    ensures (12 * k) % 6 == 0
  {
    assert 12 * k == 6 * (2 * k);
  }

  lemma YearlyIsBiannual(d: Defn, year: int, month: int)
    requires 1 <= month <= 12 && AppliesInMonth(d.(rule := Yearly), year, month)
    ensures AppliesInMonth(d.(rule := Biannual), year, month)
  {
    SpanIgnoresRule(d, Yearly, year, month);
    SpanIgnoresRule(d, Biannual, year, month);
    TwelvesAreSixths(year - d.start.year);
    assert Index(year, month) - Index(d.start.year, d.start.month) == 12 * (year - d.start.year);
  }

  lemma BiannualIsQuarterly(d: Defn, year: int, month: int)
    requires AppliesInMonth(d.(rule := Biannual), year, month)
    ensures AppliesInMonth(d.(rule := Quarterly), year, month)
  {
    SpanIgnoresRule(d, Biannual, year, month);
    SpanIgnoresRule(d, Quarterly, year, month);
    SixthsAreThirds(Index(year, month) - Index(d.start.year, d.start.month));
  }

  lemma QuarterlyIsMonthly(d: Defn, year: int, month: int)
    requires AppliesInMonth(d.(rule := Quarterly), year, month)
    ensures AppliesInMonth(d.(rule := Monthly), year, month)
  {
    SpanIgnoresRule(d, Quarterly, year, month);
    SpanIgnoresRule(d, Monthly, year, month);
  }

  /** A month of a coarser rule is a month of every finer one. */
  lemma RulesNest(d: Defn, year: int, month: int)
    requires 1 <= month <= 12
    ensures AppliesInMonth(d.(rule := Yearly), year, month) ==> AppliesInMonth(d.(rule := Biannual), year, month)
    ensures AppliesInMonth(d.(rule := Biannual), year, month) ==> AppliesInMonth(d.(rule := Quarterly), year, month)
    ensures AppliesInMonth(d.(rule := Quarterly), year, month) ==> AppliesInMonth(d.(rule := Monthly), year, month)
  {
    if AppliesInMonth(d.(rule := Yearly), year, month) {
      YearlyIsBiannual(d, year, month);
    }
    if AppliesInMonth(d.(rule := Biannual), year, month) {
      BiannualIsQuarterly(d, year, month);
    }
    if AppliesInMonth(d.(rule := Quarterly), year, month) {
      QuarterlyIsMonthly(d, year, month);
    }
  }

  lemma SpanIgnoresRule(d: Defn, rule: Rule, year: int, month: int)
    ensures InSpan(d.(rule := rule), year, month) == InSpan(d, year, month)
  {
  }

  function Occurrences(d: Defn, year: int, upTo: nat): nat {
    if upTo == 0 then 0 else Occurrences(d, year, upTo - 1) + (if AppliesInMonth(d, year, upTo) then 1 else 0)
  }

  /** The months up to `upTo` that are a multiple of `step` months away from month `s`. */
  function Spaced(s: int, step: int, upTo: nat): nat
    requires step > 0
  {
    if upTo == 0 then 0 else Spaced(s, step, upTo - 1) + (if (upTo - s) % step == 0 then 1 else 0)
  }

  function Hit(s: int, step: int, month: int): nat
    requires step > 0
  {
    if (month - s) % step == 0 then 1 else 0
  }

  lemma SpacedOut(s: int, step: int)
    requires step > 0
    ensures Spaced(s, step, 12) == Hit(s, step, 1) + Hit(s, step, 2) + Hit(s, step, 3) + Hit(s, step, 4) + Hit(s, step, 5) + Hit(s, step, 6)
      + Hit(s, step, 7) + Hit(s, step, 8) + Hit(s, step, 9) + Hit(s, step, 10) + Hit(s, step, 11) + Hit(s, step, 12)
  {
    assert Spaced(s, step, 1) == Hit(s, step, 1);
    assert Spaced(s, step, 2) == Spaced(s, step, 1) + Hit(s, step, 2);
    assert Spaced(s, step, 3) == Spaced(s, step, 2) + Hit(s, step, 3);
    assert Spaced(s, step, 4) == Spaced(s, step, 3) + Hit(s, step, 4);
    assert Spaced(s, step, 5) == Spaced(s, step, 4) + Hit(s, step, 5);
    assert Spaced(s, step, 6) == Spaced(s, step, 5) + Hit(s, step, 6);
    assert Spaced(s, step, 7) == Spaced(s, step, 6) + Hit(s, step, 7);
    assert Spaced(s, step, 8) == Spaced(s, step, 7) + Hit(s, step, 8);
    assert Spaced(s, step, 9) == Spaced(s, step, 8) + Hit(s, step, 9);
    assert Spaced(s, step, 10) == Spaced(s, step, 9) + Hit(s, step, 10);
    assert Spaced(s, step, 11) == Spaced(s, step, 10) + Hit(s, step, 11);
  }

  lemma SmallMultiple(k: int, step: int)
    requires -step < k < step
    ensures k % step == 0 <==> k == 0
  {
  }

  lemma HitsEveryMonth(s: int)
    ensures Spaced(s, 1, 12) == 12
  {
    SpacedOut(s, 1);
    assert forall m :: Hit(s, 1, m) == 1;
  }

  lemma HitsOnceAYear(s: int)
    requires 1 <= s <= 12
    ensures Spaced(s, 12, 12) == 1
  {
    SpacedOut(s, 12);
    forall m | 1 <= m <= 12
      ensures Hit(s, 12, m) == if m == s then 1 else 0
    {
      SmallMultiple(m - s, 12);
    }
  }

  lemma HitsInHalves(s: int)
    requires 1 <= s <= 12
    ensures Spaced(s, 6, 12) == 2
  {
    SpacedOut(s, 6);
    var r := if s <= 6 then s else s - 6;
    forall m | 1 <= m <= 12
      ensures Hit(s, 6, m) == if m == r || m == r + 6 then 1 else 0
    {
      var k := if m <= 6 then m - r else m - 6 - r;
      SmallMultiple(k, 6);
      SixthsShift(m - s, k);
    }
  }

  lemma SixthsShift(k: int, j: int)
    requires k - j in {-6, 0, 6}
    ensures k % 6 == j % 6
  {
  }

  lemma HitsInQuarters(s: int)
    requires 1 <= s <= 12
    ensures Spaced(s, 3, 12) == 4
  {
    SpacedOut(s, 3);
    var r := (s - 1) % 3 + 1;
    forall m | 1 <= m <= 12
      ensures Hit(s, 3, m) == Hit(r, 3, m)
    {
      ThirdsShift(m, s, r);
    }
    HitsFrom(r);
  }

  lemma ThirdsShift(m: int, s: int, r: int)
    requires r == (s - 1) % 3 + 1
    ensures (m - s) % 3 == (m - r) % 3
  {
    assert m - s == (m - r) + 3 * -((s - 1) / 3);
  }

  lemma HitsFrom(r: int)
    requires 1 <= r <= 3
    ensures Hit(r, 3, 1) + Hit(r, 3, 2) + Hit(r, 3, 3) == 1 && Hit(r, 3, 4) + Hit(r, 3, 5) + Hit(r, 3, 6) == 1
    ensures Hit(r, 3, 7) + Hit(r, 3, 8) + Hit(r, 3, 9) == 1 && Hit(r, 3, 10) + Hit(r, 3, 11) + Hit(r, 3, 12) == 1
  {
    assert r == 1 || r == 2 || r == 3;
  }

  lemma SpacedInYear(s: int, step: int)
    requires 1 <= s <= 12 && step in {1, 3, 6, 12}
    ensures Spaced(s, step, 12) * step == 12
  {
    HitsEveryMonth(s);
    HitsOnceAYear(s);
    HitsInHalves(s);
    HitsInQuarters(s);
  }

  predicate SpacedBy(rule: Rule, step: int) {
    match rule
    case Monthly => step == 1
    case Quarterly => step == 3
    case Biannual => step == 6
    case Yearly => step == 12
    case _ => false
  }

  /** A rule with a step applies exactly in the months a multiple of the step away from the start month. */
  lemma AppliesWhenSpaced(d: Defn, year: int, step: int, month: int)
    requires ValidDefn(d) && d.end.None? && year > d.start.year && 1 <= month <= 12 && SpacedBy(d.rule, step)
    ensures step > 0 && (AppliesInMonth(d, year, month) <==> (month - d.start.month) % step == 0)
  {
    var years, months := year - d.start.year, month - d.start.month;
    assert InSpan(d, year, month) && Index(year, month) - Index(d.start.year, d.start.month) == 12 * years + months >= 0;
    match d.rule {
      case Quarterly => YearsAreThirds(years, months);
      case Biannual => YearsAreSixths(years, months);
      case _ =>
    }
  }

  lemma {:induction false} OccurrencesAreSpaced(d: Defn, year: int, step: int, upTo: nat)
    requires ValidDefn(d) && d.end.None? && year > d.start.year && upTo <= 12 && SpacedBy(d.rule, step)
    ensures step > 0 && Occurrences(d, year, upTo) == Spaced(d.start.month, step, upTo)
    decreases upTo
  {
    if upTo == 0 {
    } else {
      OccurrencesAreSpaced(d, year, step, upTo - 1);
      AppliesWhenSpaced(d, year, step, upTo);
    }
  }

  lemma YearsAreThirds(years: int, months: int)
    ensures (12 * years + months) % 3 == months % 3
  {
    assert 12 * years + months == 3 * (4 * years + months / 3) + months % 3;
  }

  lemma YearsAreSixths(years: int, months: int)
    ensures (12 * years + months) % 6 == months % 6
  {
    assert 12 * years + months == 6 * (2 * years + months / 6) + months % 6;
  }

  function ListedMonths(months: seq<int>, upTo: nat): set<int> {
    set m | m in months && 1 <= m <= upTo
  }

  /** In any year after the first, an open-ended definition occurs as often as its rule says. */
  lemma OccurrencesPerYear(d: Defn, year: int)
    requires ValidDefn(d) && d.end.None? && year > d.start.year
    ensures d.rule == Monthly ==> Occurrences(d, year, 12) == 12
    ensures d.rule == Quarterly ==> Occurrences(d, year, 12) == 4
    ensures d.rule == Biannual ==> Occurrences(d, year, 12) == 2
    ensures d.rule == Yearly ==> Occurrences(d, year, 12) == 1
    ensures d.rule == OneTime || d.rule == Unknown ==> Occurrences(d, year, 12) == 0
    ensures d.rule == Custom ==> Occurrences(d, year, 12) == if d.months.Some? then |ListedMonths(d.months.value, 12)| else 0
  {
    match d.rule {
      case Monthly => RegularOccurrences(d, year, 1);
      case Quarterly => RegularOccurrences(d, year, 3);
      case Biannual => RegularOccurrences(d, year, 6);
      case Yearly => RegularOccurrences(d, year, 12);
      case Custom =>
        if d.months.Some? {
          CustomOccurrences(d, year, 12);
        } else {
          NeverOccurs(d, year, 12);
        }
      case _ => NeverOccurs(d, year, 12);
    }
  }

  lemma RegularOccurrences(d: Defn, year: int, step: int)
    requires ValidDefn(d) && d.end.None? && year > d.start.year && SpacedBy(d.rule, step)
    ensures Occurrences(d, year, 12) * step == 12
  {
    OccurrencesAreSpaced(d, year, step, 12);
    SpacedInYear(d.start.month, step);
  }

  lemma {:induction false} NeverOccurs(d: Defn, year: int, upTo: nat)
    requires year > d.start.year && (d.rule in {OneTime, Unknown} || (d.rule == Custom && d.months.None?))
    ensures Occurrences(d, year, upTo) == 0
  {
    if upTo == 0 {
    } else {
      NeverOccurs(d, year, upTo - 1);
    }
  }

  lemma {:induction false} CustomOccurrences(d: Defn, year: int, upTo: nat)
    requires d.end.None? && year > d.start.year && d.rule == Custom && d.months.Some?
    ensures Occurrences(d, year, upTo) == |ListedMonths(d.months.value, upTo)|
  {
    var months := d.months.value;
    if upTo == 0 {
      assert ListedMonths(months, 0) == {};
    } else {
      CustomOccurrences(d, year, upTo - 1);
      assert ListedMonths(months, upTo) == ListedMonths(months, upTo - 1) + (if upTo in months then {upTo} else {});
    }
  }

  /** The monthly weight of a periodic expense, in cents: its occurrences in the year spread over twelve months. */
  function MonthlyWeight(perHit: int, occurrences: nat): int {
    HalfUp(Amount(perHit) * occurrences as real / 12.0)
  }

  /** Twelve monthly weights are within six cents of the year's load. */
  lemma WeightsAddUp(perHit: int, occurrences: nat)
    ensures -6 <= 12 * MonthlyWeight(perHit, occurrences) - perHit * occurrences <= 6
  {
    var x := Amount(perHit) * occurrences as real / 12.0;
    HalfUpExact(x, HalfUp(x));
    assert 1200.0 * x == perHit as real * occurrences as real;
    assert (perHit * occurrences) as real == perHit as real * occurrences as real;
  }
}

/** Actual spending by category: the year's table and the month's table, from the same expense rows. */
module Actuals {
  import opened Money
  import opened Options
  import opened Recurrence
  import opened RateTable
  import opened Conversion
  import opened Totals

  /** Amounts are in cents; `amountTl` is the lira amount fixed when the expense was recorded. */
  datatype Expense = Expense(
    category: string,
    amount: int,
    currency: Currency,
    date: Date,
    amountTl: int,
    onCard: bool,
    isPaid: bool)

  /** A paid card expense is already in the card's statement. */
  predicate Counted(e: Expense) {
    !e.onCard || !e.isPaid
  }

  /** The days of the common calendar in one count. */
  function DayNumber(d: Date): Day {
    var y := d.year - 1;
    365 * y + y / 4 - y / 100 + y / 400 + DaysBefore(d.year, d.month) + d.day
  }

  function DaysBefore(year: int, month: int): int
    decreases month
  {
    if month <= 1 then 0 else DaysBefore(year, month - 1) + MonthLength(year, month - 1)
  }

  function NextDay(d: Date): Date {
    if d.day < MonthLength(d.year, d.month) then Date(d.year, d.month, d.day + 1)
    else if d.month < 12 then Date(d.year, d.month + 1, 1) else Date(d.year + 1, 1, 1)
  }

  lemma DaysInYear(year: int)
    ensures DaysBefore(year, 12) + 31 == if IsLeap(year) then 366 else 365
  {
    assert DaysBefore(year, 3) == DaysBefore(year, 2) + MonthLength(year, 2) == 31 + MonthLength(year, 2);
    assert DaysBefore(year, 5) == DaysBefore(year, 4) + 30 == DaysBefore(year, 3) + 61;
    assert DaysBefore(year, 7) == DaysBefore(year, 6) + 30 == DaysBefore(year, 5) + 61;
    assert DaysBefore(year, 9) == DaysBefore(year, 8) + 31 == DaysBefore(year, 7) + 62;
    assert DaysBefore(year, 11) == DaysBefore(year, 10) + 31 == DaysBefore(year, 9) + 61;
    assert DaysBefore(year, 12) == DaysBefore(year, 11) + 30;
  }

  lemma FourthYears(y: int)
    ensures y / 4 == (y - 1) / 4 + if y % 4 == 0 then 1 else 0
  {
  }

  lemma Centuries(y: int)
    ensures y / 100 == (y - 1) / 100 + if y % 100 == 0 then 1 else 0
  {
  }

  lemma FourthCenturies(y: int)
    ensures y / 400 == (y - 1) / 400 + if y % 400 == 0 then 1 else 0
  {
  }

  lemma CenturiesAreFourthYears(y: int)
    ensures (y % 400 == 0 ==> y % 100 == 0) && (y % 100 == 0 ==> y % 4 == 0)
  {
    assert y % 400 == 0 ==> y == 100 * (4 * (y / 400));
    assert y % 100 == 0 ==> y == 4 * (25 * (y / 100));
  }

  lemma LeapDays(y: int)
    ensures y / 4 - y / 100 + y / 400 == (y - 1) / 4 - (y - 1) / 100 + (y - 1) / 400 + if IsLeap(y) then 1 else 0
  {
    FourthYears(y);
    Centuries(y);
    FourthCenturies(y);
    CenturiesAreFourthYears(y);
  }

  /** The calendar's dates are numbered without gaps: each day is one after the day before. */
  lemma NextDayIsOneLater(d: Date)
    requires ValidDate(d)
    ensures ValidDate(NextDay(d)) && DayNumber(NextDay(d)) == DayNumber(d) + 1
  {
    if d.day == MonthLength(d.year, d.month) && d.month == 12 {
      DaysInYear(d.year);
      LeapDays(d.year);
    }
  }

  function ItemOf(e: Expense): Item {
    Item(e.amount, e.currency, DayNumber(e.date), Some(e.amountTl))
  }

  /** An expense is worth its amount in its own currency and the recorded lira amount in lira, at whatever rates. */
  lemma ExpenseIsWorth(e: Expense, src: Option<real>, dst: Option<real>)
    ensures IsWorth(ItemOf(e), e.currency, src, dst, Amount(e.amount))
    ensures e.currency != "TRY" ==> IsWorth(ItemOf(e), "TRY", src, dst, Amount(e.amountTl))
    ensures ItemOf(e).on == DayNumber(e.date)
  {
  }

  // ------------------------------------------------------------ the queries

  /** The counted rows of a period, in table order. */
  function RowsBetween(rows: seq<Expense>, first: Date, last: Date): seq<Expense> {
    if rows == [] then []
    else
      var e := rows[|rows| - 1];
      RowsBetween(rows[..|rows| - 1], first, last)
      + (if NotAfter(first, e.date) && NotAfter(e.date, last) && Counted(e) then [e] else [])
  }

  function YearRows(rows: seq<Expense>, year: int): seq<Expense> {
    RowsBetween(rows, Date(year, 1, 1), Date(year, 12, 31))
  }

  function MonthRows(rows: seq<Expense>, year: int, month: int): seq<Expense> {
    RowsBetween(rows, Date(year, month, 1), Date(year, month, MonthLength(year, month)))
  }

  /** The rows of one category, of any month or of one. */
  function Cell(rows: seq<Expense>, category: string, month: Option<int>): seq<Expense> {
    if rows == [] then []
    else
      var e := rows[|rows| - 1];
      Cell(rows[..|rows| - 1], category, month)
      + (if e.category == category && (month.Some? ==> e.date.month == month.value) then [e] else [])
  }

  function SumTl(rows: seq<Expense>): int {
    if rows == [] then 0 else SumTl(rows[..|rows| - 1]) + rows[|rows| - 1].amountTl
  }

  function Items(rows: seq<Expense>): seq<Item> {
    seq(|rows|, i requires 0 <= i < |rows| => ItemOf(rows[i]))
  }

  function Categories(rows: seq<Expense>): set<string> {
    set i | 0 <= i < |rows| :: rows[i].category
  }

  function MonthsIn(rows: seq<Expense>): set<int> {
    set i | 0 <= i < |rows| :: rows[i].date.month
  }

  ghost predicate ValidRows(rows: seq<Expense>) {
    forall i :: 0 <= i < |rows| ==> ValidDate(rows[i].date)
  }

  lemma BetweenMeans(d: Date, year: int, month: int)
    requires ValidDate(d) && 1 <= month <= 12
    ensures NotAfter(Date(year, 1, 1), d) && NotAfter(d, Date(year, 12, 31)) <==> d.year == year
    ensures NotAfter(Date(year, month, 1), d) && NotAfter(d, Date(year, month, MonthLength(year, month)))
      <==> d.year == year && d.month == month
  {
  }

  /** A row is counted once in the month of its date, unless it is a card expense that has been paid. */
  lemma OneMoreExpense(rows: seq<Expense>, e: Expense, year: int, month: int)
    requires ValidDate(e.date) && 1 <= month <= 12
    ensures
      var counts := e.date.year == year && !(e.onCard && e.isPaid);
      && YearRows(rows + [e], year) == YearRows(rows, year) + (if counts then [e] else [])
      && MonthRows(rows + [e], year, month) == MonthRows(rows, year, month) + (if counts && e.date.month == month then [e] else [])
  {
    assert (rows + [e])[..|rows|] == rows;
    BetweenMeans(e.date, year, month);
  }

  lemma OneMoreAmount(rows: seq<Expense>, e: Expense)
    ensures SumTl(rows + [e]) == SumTl(rows) + e.amountTl
  {
    assert (rows + [e])[..|rows|] == rows;
  }

  /** A category's rows of the month are its rows of the year that fall in the month. */
  lemma {:induction false} MonthIsPartOfYear(rows: seq<Expense>, year: int, month: int, category: string)
    requires ValidRows(rows) && 1 <= month <= 12
    ensures Cell(YearRows(rows, year), category, Some(month)) == Cell(MonthRows(rows, year, month), category, None)
  {
    if rows == [] {
    } else {
      var n, e := |rows| - 1, rows[|rows| - 1];
      MonthIsPartOfYear(rows[..n], year, month, category);
      BetweenMeans(e.date, year, month);
      CellOfOneMore(YearRows(rows[..n], year), e, category, Some(month));
      CellOfOneMore(MonthRows(rows[..n], year, month), e, category, None);
      assert YearRows(rows, year) == YearRows(rows[..n], year) + (if e.date.year == year && Counted(e) then [e] else []);
      assert MonthRows(rows, year, month) == MonthRows(rows[..n], year, month)
        + (if e.date.year == year && e.date.month == month && Counted(e) then [e] else []);
    }
  }

  lemma CellOfOneMore(rows: seq<Expense>, e: Expense, category: string, month: Option<int>)
    ensures Cell(rows + [e], category, month)
         == Cell(rows, category, month) + (if e.category == category && (month.Some? ==> e.date.month == month.value) then [e] else [])
    ensures Cell(rows + [], category, month) == Cell(rows, category, month)
  {
    assert (rows + [e])[..|rows|] == rows && rows + [] == rows;
  }

  // ------------------------------------------------------------ lira tables: sums of stored lira amounts

  type YearTable = map<string, map<int, int>>
  type MonthTable = map<string, int>

  function At(t: YearTable, category: string, month: int): int {
    if category in t && month in t[category] then t[category][month] else 0
  }

  function Of(t: MonthTable, category: string): int {
    if category in t then t[category] else 0
  }

  function YearTl(rows: seq<Expense>): YearTable {
    map c | c in Categories(rows) :: map m | m in MonthsIn(Cell(rows, c, None)) :: SumTl(Cell(rows, c, Some(m)))
  }

  function MonthTl(rows: seq<Expense>): MonthTable {
    map c | c in Categories(rows) :: SumTl(Cell(rows, c, None))
  }

  lemma {:induction false} EmptyCells(rows: seq<Expense>, category: string, month: int)
    ensures category !in Categories(rows) ==> Cell(rows, category, None) == []
    ensures month !in MonthsIn(Cell(rows, category, None)) ==> Cell(rows, category, Some(month)) == []
  {
    if rows == [] {
    } else {
      var n := |rows| - 1;
      EmptyCells(rows[..n], category, month);
      if category !in Categories(rows) {
        assert rows[n].category != category;
        assert category !in Categories(rows[..n]) by {
          assert forall i :: 0 <= i < n ==> rows[..n][i] == rows[i];
        }
      }
      var before, after := Cell(rows[..n], category, None), Cell(rows, category, None);
      if month !in MonthsIn(after) {
        assert forall i :: 0 <= i < |before| ==> after[i] == before[i];
        if rows[n].category == category {
          assert after[|before|] == rows[n];
        }
      }
    }
  }

  lemma TableEntries(rows: seq<Expense>, category: string, month: int)
    ensures At(YearTl(rows), category, month) == SumTl(Cell(rows, category, Some(month)))
    ensures Of(MonthTl(rows), category) == SumTl(Cell(rows, category, None))
  {
    EmptyCells(rows, category, month);
    assert category !in Categories(rows) ==> MonthsIn(Cell(rows, category, None)) == {};
  }

  // ------------------------------------------------------------ display tables: converted groups

  /** The year's grouping key. */
  function CellKey(category: string, month: int): string {
    category + "|" + MonthText(month)
  }

  function MonthText(month: int): string {
    if 10 <= month <= 12 then ['1', DigitOf(month - 10)] else if 0 <= month < 10 then [DigitOf(month)] else "?"
  }

  function DigitOf(n: int): char
    requires 0 <= n <= 9
  {
    "0123456789"[n]
  }

  /** Splits at the last bar: the category before it, the number after it. */
  function CategoryOf(key: string): string {
    if key == [] || key[|key| - 1] == '|' then key[..if key == [] then 0 else |key| - 1] else CategoryOf(key[..|key| - 1])
  }

  function NumberAfterBar(key: string): int {
    if key == [] || key[|key| - 1] == '|' then 0
    else 10 * NumberAfterBar(key[..|key| - 1]) + (key[|key| - 1] as int - '0' as int)
  }

  lemma KeyRoundTrip(category: string, month: int)
    requires 1 <= month <= 12
    ensures CategoryOf(CellKey(category, month)) == category && NumberAfterBar(CellKey(category, month)) == month
  {
    var text := MonthText(month);
    var bar := category + "|";
    assert bar[..|category|] == category && CategoryOf(bar) == category && NumberAfterBar(bar) == 0;
    var one := bar + [text[0]];
    assert one[..|bar|] == bar;
    assert CategoryOf(one) == category && NumberAfterBar(one) == text[0] as int - '0' as int;
    var key := CellKey(category, month);
    if month < 10 {
      assert key == one;
    } else {
      assert key == one + [text[1]] && key[..|one|] == one;
    }
  }

  function ByCell(rows: seq<Expense>): seq<Keyed> {
    seq(|rows|, i requires 0 <= i < |rows| => Keyed(CellKey(rows[i].category, rows[i].date.month), ItemOf(rows[i])))
  }

  function ByCategory(rows: seq<Expense>): seq<Keyed> {
    seq(|rows|, i requires 0 <= i < |rows| => Keyed(rows[i].category, ItemOf(rows[i])))
  }

  /** `{category: {month: value}}` from the converted groups. */
  function Nested(byKey: map<string, int>): YearTable {
    map c | c in KeyCategories(byKey) :: map m | m in KeyMonths(byKey, c) :: byKey[CellKey(c, m)]
  }

  function KeyCategories(byKey: map<string, int>): set<string> {
    set k | k in byKey :: CategoryOf(k)
  }

  function KeyMonths(byKey: map<string, int>, category: string): set<int> {
    set k | k in byKey && k == CellKey(category, NumberAfterBar(k)) :: NumberAfterBar(k)
  }

  function YearConverted(tb: Table, pub: Publisher, rows: seq<Expense>, display: Currency): YearTable {
    Nested(ConvertedGrouped(tb, pub, ByCell(rows), display).byKey)
  }

  function MonthConverted(tb: Table, pub: Publisher, rows: seq<Expense>, display: Currency): MonthTable {
    ConvertedGrouped(tb, pub, ByCategory(rows), display).byKey
  }

  lemma NestedEntries(byKey: map<string, int>, category: string, month: int)
    requires 1 <= month <= 12
    ensures At(Nested(byKey), category, month) == Of(byKey, CellKey(category, month))
  {
    KeyRoundTrip(category, month);
    var key := CellKey(category, month);
    if key in byKey {
      assert category in KeyCategories(byKey) && month in KeyMonths(byKey, category);
    }
  }

  lemma KeysDiffer(c: string, m: int, d: string, n: int)
    requires 1 <= m <= 12 && 1 <= n <= 12
    ensures CellKey(c, m) == CellKey(d, n) <==> c == d && m == n
  {
    KeyRoundTrip(c, m);
    KeyRoundTrip(d, n);
  }

  lemma KeyedItemsOfOneMore(rows: seq<Expense>, key: string)
    requires rows != []
    ensures
      var n := |rows| - 1;
      ItemsOf(ByCell(rows), key)
        == ItemsOf(ByCell(rows[..n]), key) + (if ByCell(rows)[n].key == key then [ItemOf(rows[n])] else [])
  {
    assert ByCell(rows)[..|rows| - 1] == ByCell(rows[..|rows| - 1]);
  }

  lemma CellItemsOfOneMore(rows: seq<Expense>, category: string, month: int)
    requires rows != []
    ensures
      var n := |rows| - 1;
      Items(Cell(rows, category, Some(month)))
        == Items(Cell(rows[..n], category, Some(month)))
           + (if rows[n].category == category && rows[n].date.month == month then [ItemOf(rows[n])] else [])
  {
  }

  lemma {:induction false} ItemsOfCell(rows: seq<Expense>, category: string, month: int)
    requires ValidRows(rows) && 1 <= month <= 12
    ensures ItemsOf(ByCell(rows), CellKey(category, month)) == Items(Cell(rows, category, Some(month)))
  {
    if rows == [] {
    } else {
      var n := |rows| - 1;
      ItemsOfCell(rows[..n], category, month);
      KeysDiffer(rows[n].category, rows[n].date.month, category, month);
      KeyedItemsOfOneMore(rows, CellKey(category, month));
      CellItemsOfOneMore(rows, category, month);
    }
  }

  lemma {:induction false} ItemsOfCategory(rows: seq<Expense>, category: string)
    ensures ItemsOf(ByCategory(rows), category) == Items(Cell(rows, category, None))
  {
    if rows == [] {
    } else {
      var n := |rows| - 1;
      ItemsOfCategory(rows[..n], category);
      assert ByCategory(rows)[..n] == ByCategory(rows[..n]);
    }
  }

  /** Every rate the rows need is stable on the table. */
  ghost predicate ExpensesStable(tb: Table, pub: Publisher, rows: seq<Expense>, display: Currency) {
    forall i :: 0 <= i < |rows| ==> ItemStable(tb, pub, ItemOf(rows[i]), display)
  }

  lemma GroupEntry(tb: Table, pub: Publisher, later: Table, rows: seq<Keyed>, display: Currency, key: string)
    requires Faithful(tb, pub) && Faithful(later, pub) && Grows(tb, later) && RowsStable(tb, pub, rows, display)
    ensures Of(ConvertedGrouped(later, pub, rows, display).byKey, key) == HalfUp(ValuesAlone(tb, pub, ItemsOf(rows, key), display))
  {
    GroupsRoundOnce(tb, pub, later, rows, KeysOf(rows), display);
    if key !in KeysOf(rows) {
      NoItems(rows, key);
      HalfUpOfCents(0);
    }
  }

  // ------------------------------------------------------------ the two tables agree

  lemma {:induction false} RowsBetweenAreRows(rows: seq<Expense>, first: Date, last: Date, tb: Table, pub: Publisher,
                                              display: Currency)
    requires ValidRows(rows)
    ensures ValidRows(RowsBetween(rows, first, last))
    ensures ExpensesStable(tb, pub, rows, display) ==> ExpensesStable(tb, pub, RowsBetween(rows, first, last), display)
  {
    if rows == [] {
    } else {
      RowsBetweenAreRows(rows[..|rows| - 1], first, last, tb, pub, display);
    }
  }

  /** In lira: the year's entry for a month is the month's own entry, category by category. */
  lemma LiraEntriesAgree(rows: seq<Expense>, year: int, month: int, category: string)
    requires ValidRows(rows) && 1 <= month <= 12
    ensures At(YearTl(YearRows(rows, year)), category, month) == Of(MonthTl(MonthRows(rows, year, month)), category)
  {
    TableEntries(YearRows(rows, year), category, month);
    TableEntries(MonthRows(rows, year, month), category, month);
    MonthIsPartOfYear(rows, year, month, category);
  }

  /**
   In another currency: the same, when every rate is stable on some table from which the tables of both
   reports have grown, in whichever order the reports are made.
   */
  lemma DisplayEntriesAgree(tb: Table, pub: Publisher, forYear: Table, forMonth: Table, rows: seq<Expense>, year: int,
                            month: int, display: Currency, category: string)
    requires ValidRows(rows) && 1 <= month <= 12 && ExpensesStable(tb, pub, rows, display)
    requires Faithful(tb, pub) && Faithful(forYear, pub) && Faithful(forMonth, pub)
    requires Grows(tb, forYear) && Grows(tb, forMonth)
    ensures At(YearConverted(forYear, pub, YearRows(rows, year), display), category, month)
         == Of(MonthConverted(forMonth, pub, MonthRows(rows, year, month), display), category)
  {
    var yearRows, monthRows := YearRows(rows, year), MonthRows(rows, year, month);
    RowsBetweenAreRows(rows, Date(year, 1, 1), Date(year, 12, 31), tb, pub, display);
    RowsBetweenAreRows(rows, Date(year, month, 1), Date(year, month, MonthLength(year, month)), tb, pub, display);
    NestedEntries(ConvertedGrouped(forYear, pub, ByCell(yearRows), display).byKey, category, month);
    GroupEntry(tb, pub, forYear, ByCell(yearRows), display, CellKey(category, month));
    GroupEntry(tb, pub, forMonth, ByCategory(monthRows), display, category);
    ItemsOfCell(yearRows, category, month);
    ItemsOfCategory(monthRows, category);
    MonthIsPartOfYear(rows, year, month, category);
  }

  // ------------------------------------------------------------ nothing is dropped

  function EntryOf(t: MonthTable): string -> int {
    c => Of(t, c)
  }

  function CellSum(rows: seq<Expense>): string -> int {
    c => SumTl(Cell(rows, c, None))
  }

  /** The categories' sums together are the sum of all rows. */
  lemma {:induction false} CategoriesAddUp(rows: seq<Expense>, names: set<string>)
    requires Categories(rows) <= names
    ensures SumOver(names, CellSum(rows)) == SumTl(rows)
    decreases |rows|
  {
    if rows == [] {
      SumIgnoresZeros({}, names, CellSum(rows));
    } else {
      var n, e := |rows| - 1, rows[|rows| - 1];
      assert Categories(rows[..n]) <= names by {
        assert forall i :: 0 <= i < n ==> rows[..n][i] == rows[i];
      }
      CategoriesAddUp(rows[..n], names);
      assert e.category in Categories(rows);
      forall c
        ensures CellSum(rows)(c) == CellSum(rows[..n])(c) + (if c == e.category then e.amountTl else 0)
      {
        var before := Cell(rows[..n], c, None);
        assert Cell(rows, c, None) == if c == e.category then before + [e] else before;
        assert (before + [e])[..|before|] == before;
      }
      SumOfOneChange(names, CellSum(rows[..n]), CellSum(rows), e.category, e.amountTl);
    }
  }

  /** The month's lira table adds up to the month's counted expenses. */
  lemma MonthTableAddsUp(rows: seq<Expense>, names: set<string>)
    requires MonthTl(rows).Keys <= names
    ensures SumOver(names, EntryOf(MonthTl(rows))) == SumTl(rows)
  {
    CategoriesAddUp(rows, names);
    forall c
      ensures EntryOf(MonthTl(rows))(c) == CellSum(rows)(c)
    {
      TableEntries(rows, c, 1);
    }
    SumsAgree(names, EntryOf(MonthTl(rows)), CellSum(rows));
  }
}

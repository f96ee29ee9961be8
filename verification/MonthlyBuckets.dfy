/** The monthly view in three buckets, and its agreement with the yearly grid. */
module MonthlyBuckets {
  import opened Money
  import opened Options
  import opened RateTable
  import opened Totals
  import opened Recurrence
  import opened Actuals
  import opened Forecast
  import opened BudgetPlanner

  /** A non-monthly planned expense spread over the year. */
  datatype Weighted = Weighted(title: string, category: string, monthly: int)

  datatype BucketRow = BucketRow(category: string, budget: int, actual: int, difference: int, over: bool, weighted: bool)

  datatype Block = Block(budget: int, actual: int, rows: seq<BucketRow>)

  ghost predicate AllBuckets(blocks: map<Bucket, Block>) {
    forall b: Bucket :: b in blocks
  }

  datatype View = View(blocks: map<Bucket, Block>, income: int, expenses: int, net: int)

  /** The categories at home in a bucket. */
  function AtHome(names: set<string>, bucket: Bucket, buckets: BucketMap): set<string> {
    set c | c in names && BucketOf(c, buckets) == bucket
  }

  function WeightIn(weighted: seq<Weighted>, bucket: Bucket, buckets: BucketMap): int {
    if weighted == [] then 0
    else
      var w := weighted[|weighted| - 1];
      WeightIn(weighted[..|weighted| - 1], bucket, buckets) + if BucketOf(w.category, buckets) == bucket then w.monthly else 0
  }

  /** The rows of a bucket's weights, in their order. */
  function WeightedRows(weighted: seq<Weighted>, bucket: Bucket, buckets: BucketMap): seq<BucketRow> {
    if weighted == [] then []
    else
      var w := weighted[|weighted| - 1];
      WeightedRows(weighted[..|weighted| - 1], bucket, buckets)
      + (if BucketOf(w.category, buckets) == bucket then [BucketRow(w.title, w.monthly, 0, w.monthly, false, true)] else [])
  }

  function SumWeighted(weighted: seq<Weighted>): int {
    if weighted == [] then 0 else SumWeighted(weighted[..|weighted| - 1]) + weighted[|weighted| - 1].monthly
  }

  function Seen(planned: MonthTable, actual: MonthTable): set<string> {
    planned.Keys + actual.Keys + {SAVINGS}
  }

  predicate Skipped(category: string, planned: MonthTable, actual: MonthTable) {
    category == SAVINGS && Of(planned, category) == 0 && Of(actual, category) == 0
  }

  function RowOf(category: string, planned: MonthTable, actual: MonthTable): BucketRow {
    var b, a := Of(planned, category), Of(actual, category);
    BucketRow(category, b, a, b - a, a > b > 0, false)
  }

  /** One row for each of the categories that is not skipped, and no other. */
  ghost predicate RowsShow(rows: seq<BucketRow>, home: set<string>, planned: MonthTable, actual: MonthTable) {
    && (forall i, j :: 0 <= i < j < |rows| ==> rows[i].category != rows[j].category)
    && (forall i :: 0 <= i < |rows| ==>
          && rows[i].category in home && !Skipped(rows[i].category, planned, actual)
          && rows[i] == RowOf(rows[i].category, planned, actual))
    && (forall c :: c in home && !Skipped(c, planned, actual) ==> RowOf(c, planned, actual) in rows)
  }

  /** The block of a bucket holds the budgets and actuals of its categories, and a row for each that is not skipped. */
  ghost predicate BlockOf(block: Block, home: set<string>, planned: MonthTable, actual: MonthTable) {
    && block.budget == SumOver(home, EntryOf(planned))
    && block.actual == SumOver(home, EntryOf(actual))
    && RowsShow(block.rows, home, planned, actual)
  }

  lemma BlockWithCategory(block: Block, home: set<string>, planned: MonthTable, actual: MonthTable, category: string)
    requires BlockOf(block, home, planned, actual) && category !in home
    ensures
      var row := RowOf(category, planned, actual);
      BlockOf(if Skipped(category, planned, actual) then block
              else Block(block.budget + row.budget, block.actual + row.actual, block.rows + [row]),
              home + {category}, planned, actual)
  {
    Totals.SumOfOneMore(home, EntryOf(planned), category);
    Totals.SumOfOneMore(home, EntryOf(actual), category);
    RowsWithCategory(block.rows, home, planned, actual, category);
  }

  lemma RowsWithCategory(rows: seq<BucketRow>, home: set<string>, planned: MonthTable, actual: MonthTable,
                         category: string)
    requires RowsShow(rows, home, planned, actual) && category !in home
    ensures RowsShow(if Skipped(category, planned, actual) then rows else rows + [RowOf(category, planned, actual)],
                     home + {category}, planned, actual)
  {
    if !Skipped(category, planned, actual) {
      var after := rows + [RowOf(category, planned, actual)];
      assert after[|rows|] == RowOf(category, planned, actual);
      assert forall r :: r in rows ==> r in after;
    }
  }

  lemma HomeWithCategory(names: set<string>, category: string, bucket: Bucket, buckets: BucketMap)
    requires category !in names
    ensures AtHome(names + {category}, bucket, buckets)
         == if BucketOf(category, buckets) == bucket then AtHome(names, bucket, buckets) + {category} else AtHome(names, bucket, buckets)
  {
  }

  /** Every bucket's block for the categories handled so far. */
  ghost predicate BlocksOver(blocks: map<Bucket, Block>, names: set<string>, planned: MonthTable, actual: MonthTable,
                             buckets: BucketMap) {
    && AllBuckets(blocks)
    && forall b :: BlockOf(blocks[b], AtHome(names, b, buckets), planned, actual)
  }

  function WithCategory(blocks: map<Bucket, Block>, category: string, planned: MonthTable, actual: MonthTable,
                        buckets: BucketMap): map<Bucket, Block>
    requires BucketOf(category, buckets) in blocks
  {
    var bucket, row := BucketOf(category, buckets), RowOf(category, planned, actual);
    if Skipped(category, planned, actual) then blocks
    else blocks[bucket := Block(blocks[bucket].budget + row.budget, blocks[bucket].actual + row.actual, blocks[bucket].rows + [row])]
  }

  lemma BlocksWithCategory(blocks: map<Bucket, Block>, names: set<string>, category: string, planned: MonthTable,
                           actual: MonthTable, buckets: BucketMap)
    requires BlocksOver(blocks, names, planned, actual, buckets) && category !in names
    ensures BlocksOver(WithCategory(blocks, category, planned, actual, buckets), names + {category}, planned, actual, buckets)
  {
    var after := WithCategory(blocks, category, planned, actual, buckets);
    var home := BucketOf(category, buckets);
    forall b
      ensures b in after && BlockOf(after[b], AtHome(names + {category}, b, buckets), planned, actual)
    {
      assert b in blocks && BlockOf(blocks[b], AtHome(names, b, buckets), planned, actual);
      HomeWithCategory(names, category, b, buckets);
      if b == home {
        BlockWithCategory(blocks[b], AtHome(names, b, buckets), planned, actual, category);
      }
    }
  }

  /** One round of the loop over the categories. */
  method AddCategory(blocks: map<Bucket, Block>, category: string, planned: MonthTable, actual: MonthTable,
                     buckets: BucketMap)
    returns (after: map<Bucket, Block>)
    requires BucketOf(category, buckets) in blocks
    ensures after == WithCategory(blocks, category, planned, actual, buckets)
  {
    var bucket := BucketOf(category, buckets);
    var budget, spent := Quantize(Of(planned, category)), Quantize(Of(actual, category));
    if budget == 0 && spent == 0 && category == SAVINGS {
      return blocks;
    }
    var block := blocks[bucket];
    var row := BucketRow(category, budget, spent, Quantize(budget - spent), spent > budget > 0, false);
    after := blocks[bucket := Block(block.budget + budget, block.actual + spent, block.rows + [row])];
  }

  method EmptyBlocks(ghost planned: MonthTable, ghost actual: MonthTable, ghost buckets: BucketMap)
    returns (blocks: map<Bucket, Block>)
    ensures BlocksOver(blocks, {}, planned, actual, buckets)
  {
    blocks := map[Fundamental := Block(0, 0, []), Fun := Block(0, 0, []), Future := Block(0, 0, [])];
    forall b: Bucket
      ensures b in blocks && blocks[b] == Block(0, 0, []) && AtHome({}, b, buckets) == {}
    {
      assert b.Fundamental? || b.Fun? || b.Future?;
    }
  }

  method FillBlocks(seen: set<string>, planned: MonthTable, actual: MonthTable, buckets: BucketMap)
    returns (blocks: map<Bucket, Block>)
    ensures BlocksOver(blocks, seen, planned, actual, buckets)
  {
    blocks := EmptyBlocks(planned, actual, buckets);
    var todo := seen;
    assert seen - todo == {};
    while todo != {}
      invariant todo <= seen
      invariant BlocksOver(blocks, seen - todo, planned, actual, buckets)
      decreases |todo|
    {
      var category :| category in todo;
      BlocksWithCategory(blocks, seen - todo, category, planned, actual, buckets);
      blocks := AddCategory(blocks, category, planned, actual, buckets);
      assert seen - (todo - {category}) == seen - todo + {category};
      todo := todo - {category};
    }
    assert seen - todo == seen;
  }

  /** What a bucket's block becomes with the weights that belong to it: budget and rows grow, the actual does not. */
  function Weighed(block: Block, weighted: seq<Weighted>, bucket: Bucket, buckets: BucketMap): Block {
    Block(block.budget + WeightIn(weighted, bucket, buckets), block.actual, block.rows + WeightedRows(weighted, bucket, buckets))
  }

  ghost predicate AllWeighed(after: map<Bucket, Block>, blocks: map<Bucket, Block>, weighted: seq<Weighted>,
                             buckets: BucketMap) {
    forall b: Bucket :: b in blocks && b in after && after[b] == Weighed(blocks[b], weighted, b, buckets)
  }

  function WithWeight(block: Block, w: Weighted): Block {
    Block(block.budget + w.monthly, block.actual, block.rows + [BucketRow(w.title, w.monthly, 0, w.monthly, false, true)])
  }

  lemma WeighedOneMore(block: Block, weighted: seq<Weighted>, w: Weighted, bucket: Bucket, buckets: BucketMap)
    ensures
      var before := Weighed(block, weighted, bucket, buckets);
      Weighed(block, weighted + [w], bucket, buckets)
        == if BucketOf(w.category, buckets) == bucket then WithWeight(before, w) else before
    // its row is the only one marked as weighted, and it spends nothing
    ensures WithWeight(block, w).rows == block.rows + [BucketRow(w.title, w.monthly, 0, w.monthly, false, true)]
    ensures InItsBucket(w.category, bucket, buckets) <==> BucketOf(w.category, buckets) == bucket
  {
    assert (weighted + [w])[..|weighted|] == weighted;
  }

  lemma AllWeighedOneMore(after: map<Bucket, Block>, blocks: map<Bucket, Block>, weighted: seq<Weighted>, w: Weighted,
                          buckets: BucketMap)
    requires AllWeighed(after, blocks, weighted, buckets)
    ensures
      var bucket := BucketOf(w.category, buckets);
      AllWeighed(after[bucket := WithWeight(after[bucket], w)], blocks, weighted + [w], buckets)
  {
    forall b: Bucket
      ensures b in blocks && b in after
      ensures Weighed(blocks[b], weighted + [w], b, buckets)
        == if BucketOf(w.category, buckets) == b then WithWeight(after[b], w) else after[b]
    {
      assert after[b] == Weighed(blocks[b], weighted, b, buckets);
      WeighedOneMore(blocks[b], weighted, w, b, buckets);
    }
  }

  /** The weighted rows go to the budget side of their bucket, marked as weighted. */
  method AddWeighted(blocks: map<Bucket, Block>, weighted: seq<Weighted>, buckets: BucketMap)
    returns (after: map<Bucket, Block>)
    requires AllBuckets(blocks)
    ensures AllWeighed(after, blocks, weighted, buckets)
  {
    after := blocks;
    for i := 0 to |weighted|
      invariant AllWeighed(after, blocks, weighted[..i], buckets)
    {
      var w := weighted[i];
      AllWeighedOneMore(after, blocks, weighted[..i], w, buckets);
      assert weighted[..i + 1] == weighted[..i] + [w];
      var bucket := BucketOf(w.category, buckets);
      after := after[bucket := WithWeight(after[bucket], w)];
    }
    assert weighted[..|weighted|] == weighted;
  }

  /**
   A category's row in plain terms: its own bucket, plan and spending, what is left, and whether a budget is
   exceeded.
   */
  predicate Tells(r: BucketRow, b: Bucket, planned: MonthTable, actual: MonthTable, buckets: BucketMap) {
    && InItsBucket(r.category, b, buckets) && !r.weighted
    && r.budget == Of(planned, r.category) && r.actual == Of(actual, r.category) && r.budget == r.actual + r.difference
    && (r.over <==> r.budget > 0 && r.actual > r.budget)
  }

  ghost predicate RowsTell(rows: seq<BucketRow>, n: int, b: Bucket, planned: MonthTable, actual: MonthTable,
                           buckets: BucketMap) {
    0 <= n <= |rows| && forall i :: 0 <= i < n ==> Tells(rows[i], b, planned, actual, buckets)
  }

  lemma ShownRowsTell(rows: seq<BucketRow>, names: set<string>, b: Bucket, planned: MonthTable, actual: MonthTable,
                      buckets: BucketMap)
    requires RowsShow(rows, AtHome(names, b, buckets), planned, actual)
    ensures RowsTell(rows, |rows|, b, planned, actual, buckets)
  {
    forall i | 0 <= i < |rows|
      ensures Tells(rows[i], b, planned, actual, buckets)
    {
      assert rows[i].category in AtHome(names, b, buckets);
    }
  }

  ghost predicate ShowsAll(rows: seq<BucketRow>, home: set<string>, planned: MonthTable, actual: MonthTable,
                           weights: seq<BucketRow>) {
    && |weights| <= |rows|
    && RowsShow(rows[..|rows| - |weights|], home, planned, actual)
    && rows[|rows| - |weights|..] == weights
  }

  lemma RowsThenWeights(rows: seq<BucketRow>, home: set<string>, planned: MonthTable, actual: MonthTable,
                        weights: seq<BucketRow>)
    requires RowsShow(rows, home, planned, actual)
    ensures ShowsAll(rows + weights, home, planned, actual, weights)
  {
    assert (rows + weights)[..|rows|] == rows;
  }

  /**
   Every bucket shows one row per category at home that is not skipped, each telling its own, and then the
   rows of its weights.
   */
  ghost predicate BlocksShow(blocks: map<Bucket, Block>, names: set<string>, planned: MonthTable, actual: MonthTable,
                             weighted: seq<Weighted>, buckets: BucketMap) {
    forall b: Bucket :: b in blocks && BlockShows(blocks[b].rows, names, b, planned, actual, weighted, buckets)
  }

  ghost predicate BlockShows(rows: seq<BucketRow>, names: set<string>, b: Bucket, planned: MonthTable,
                             actual: MonthTable, weighted: seq<Weighted>, buckets: BucketMap) {
    var weights := WeightedRows(weighted, b, buckets);
    && ShowsAll(rows, AtHome(names, b, buckets), planned, actual, weights)
    && RowsTell(rows, |rows| - |weights|, b, planned, actual, buckets)
    && (forall c :: c in names && InItsBucket(c, b, buckets) ==>
          (HasRowOf(rows, |rows| - |weights|, c) <==> !EmptySavings(c, planned, actual)))
  }

  /** A savings category with nothing planned and nothing spent has no row. */
  predicate EmptySavings(c: string, planned: MonthTable, actual: MonthTable) {
    c == "savings" && !(c in planned && planned[c] != 0) && !(c in actual && actual[c] != 0)
  }

  ghost predicate HasRowOf(rows: seq<BucketRow>, n: int, c: string) {
    exists i :: 0 <= i < n <= |rows| && rows[i].category == c
  }

  lemma SeenHaveRows(rows: seq<BucketRow>, names: set<string>, b: Bucket, planned: MonthTable, actual: MonthTable,
                     weights: seq<BucketRow>, buckets: BucketMap, c: string)
    requires RowsShow(rows, AtHome(names, b, buckets), planned, actual) && c in names && InItsBucket(c, b, buckets)
    ensures HasRowOf(rows + weights, |rows|, c) <==> !EmptySavings(c, planned, actual)
  {
    assert c in AtHome(names, b, buckets);
    if !Skipped(c, planned, actual) {
      var i :| 0 <= i < |rows| && rows[i] == RowOf(c, planned, actual);
      assert (rows + weights)[i].category == c;
    }
    if HasRowOf(rows + weights, |rows|, c) {
      var i :| 0 <= i < |rows| && (rows + weights)[i].category == c;
      assert rows[i].category == c;
    }
  }

  lemma RowsAreShown(filled: map<Bucket, Block>, blocks: map<Bucket, Block>, names: set<string>, planned: MonthTable,
                     actual: MonthTable, weighted: seq<Weighted>, buckets: BucketMap)
    requires BlocksOver(filled, names, planned, actual, buckets) && AllWeighed(blocks, filled, weighted, buckets)
    ensures BlocksShow(blocks, names, planned, actual, weighted, buckets)
  {
    forall b: Bucket
      ensures b in blocks && BlockShows(blocks[b].rows, names, b, planned, actual, weighted, buckets)
    {
      assert b in filled && BlockOf(filled[b], AtHome(names, b, buckets), planned, actual);
      assert blocks[b] == Weighed(filled[b], weighted, b, buckets);
      ShownRowsTell(filled[b].rows, names, b, planned, actual, buckets);
      forall c | c in names && InItsBucket(c, b, buckets)
        ensures HasRowOf(blocks[b].rows, |filled[b].rows|, c) <==> !EmptySavings(c, planned, actual)
      {
        SeenHaveRows(filled[b].rows, names, b, planned, actual, WeightedRows(weighted, b, buckets), buckets, c);
      }
      RowsThenWeights(filled[b].rows, AtHome(names, b, buckets), planned, actual, WeightedRows(weighted, b, buckets));
    }
  }

  method BuildView(planned: MonthTable, actual: MonthTable, weighted: seq<Weighted>, income: int, buckets: BucketMap)
    returns (view: View)
    ensures AllBuckets(view.blocks) && view.income == income
    // every category's actual is counted in the one bucket it belongs to, and there only
    ensures forall b :: view.blocks[b].actual == SumOver(AtHome(Seen(planned, actual), b, buckets), EntryOf(actual))
    // with one row per category that is not skipped, then the rows of the weights
    ensures BlocksShow(view.blocks, Seen(planned, actual), planned, actual, weighted, buckets)
    ensures forall b ::
      view.blocks[b].budget == SumOver(AtHome(Seen(planned, actual), b, buckets), EntryOf(planned)) + WeightIn(weighted, b, buckets)
    // the bucket totals add up, and nothing is dropped
    ensures view.expenses == view.blocks[Fundamental].actual + view.blocks[Fun].actual + view.blocks[Future].actual
    ensures view.expenses == SumOver(Seen(planned, actual), EntryOf(actual))
    ensures view.net == income - view.expenses
  {
    var filled := FillBlocks(Seen(planned, actual), planned, actual, buckets);
    var blocks := AddWeighted(filled, weighted, buckets);
    var total := blocks[Fundamental].actual + blocks[Fun].actual + blocks[Future].actual;
    HomesPartition(Seen(planned, actual), EntryOf(actual), buckets);
    RowsAreShown(filled, blocks, Seen(planned, actual), planned, actual, weighted, buckets);
    view := View(blocks, income, Quantize(total), Quantize(income - Quantize(total)));
  }

  /** Each category is at home in exactly one bucket. */
  lemma {:induction false} HomesPartition(names: set<string>, f: string -> int, buckets: BucketMap)
    ensures SumOver(names, f) == SumOver(AtHome(names, Fundamental, buckets), f) + SumOver(AtHome(names, Fun, buckets), f)
      + SumOver(AtHome(names, Future, buckets), f)
    decreases |names|
  {
    if names == {} {
      assert forall b :: AtHome({}, b, buckets) == {};
    } else {
      var c :| c in names;
      var rest := names - {c};
      assert names == rest + {c};
      HomesPartition(rest, f, buckets);
      Totals.SumOfOneMore(rest, f, c);
      HomeSumWithCategory(rest, f, c, Fundamental, buckets);
      HomeSumWithCategory(rest, f, c, Fun, buckets);
      HomeSumWithCategory(rest, f, c, Future, buckets);
    }
  }

  lemma HomeSumWithCategory(names: set<string>, f: string -> int, category: string, bucket: Bucket, buckets: BucketMap)
    requires category !in names
    ensures SumOver(AtHome(names + {category}, bucket, buckets), f)
         == SumOver(AtHome(names, bucket, buckets), f) + if BucketOf(category, buckets) == bucket then f(category) else 0
  {
    HomeWithCategory(names, category, bucket, buckets);
    if BucketOf(category, buckets) == bucket {
      Totals.SumOfOneMore(AtHome(names, bucket, buckets), f, category);
    }
  }

  lemma {:induction false} WeightsPartition(weighted: seq<Weighted>, buckets: BucketMap)
    ensures WeightIn(weighted, Fundamental, buckets) + WeightIn(weighted, Fun, buckets) + WeightIn(weighted, Future, buckets)
      == SumWeighted(weighted)
  {
    if weighted == [] {
    } else {
      WeightsPartition(weighted[..|weighted| - 1], buckets);
    }
  }

  /** The buckets' budgets together are all plans and all weights. */
  lemma BudgetsAddUp(planned: MonthTable, names: set<string>, weighted: seq<Weighted>, buckets: BucketMap)
    ensures
      var budget := b => SumOver(AtHome(names, b, buckets), EntryOf(planned)) + WeightIn(weighted, b, buckets);
      budget(Fundamental) + budget(Fun) + budget(Future) == SumOver(names, EntryOf(planned)) + SumWeighted(weighted)
  {
    HomesPartition(names, EntryOf(planned), buckets);
    WeightsPartition(weighted, buckets);
  }

  // ------------------------------------------------------------ weighted periodic expenses

  datatype PlannedExpense = PlannedExpense(title: string, category: string, amount: int, currency: Currency, defn: Defn)

  predicate IsWeighted(rule: Rule) {
    rule in {Quarterly, Biannual, Yearly, Custom}
  }

  function PerHit(pe: PlannedExpense, display: Currency, rates: Rates): int {
    ConvertForecast(Amount(pe.amount), pe.currency, display, rates)
  }

  /** A planned expense contributes a weight if it is not monthly or one-time and occurs in the year. */
  predicate Contributes(pe: PlannedExpense, year: int) {
    IsWeighted(pe.defn.rule) && Occurrences(pe.defn, year, 12) > 0
  }

  function WeightsOf(plans: seq<PlannedExpense>, year: int, display: Currency, rates: Rates): seq<Weighted> {
    if plans == [] then []
    else
      var pe := plans[|plans| - 1];
      WeightsOf(plans[..|plans| - 1], year, display, rates)
      + (if Contributes(pe, year)
         then [Weighted(pe.title, pe.category, MonthlyWeight(PerHit(pe, display, rates), Occurrences(pe.defn, year, 12)))]
         else [])
  }

  method WeightedPeriodicForYear(plans: seq<PlannedExpense>, year: int, display: Currency, rates: Rates)
    returns (out: seq<Weighted>)
    ensures out == WeightsOf(plans, year, display, rates)
  {
    out := [];
    for i := 0 to |plans|
      invariant out == WeightsOf(plans[..i], year, display, rates)
    {
      assert plans[..i + 1][..i] == plans[..i];
      var pe := plans[i];
      if IsWeighted(pe.defn.rule) {
        var occurrences := 0;
        for m := 1 to 13
          invariant occurrences == Occurrences(pe.defn, year, m - 1)
        {
          if AppliesInMonth(pe.defn, year, m) {
            occurrences := occurrences + 1;
          }
        }
        if occurrences == 0 {
          continue;
        }
        out := out + [Weighted(pe.title, pe.category, MonthlyWeight(PerHit(pe, display, rates), occurrences))];
      }
    }
    assert plans[..|plans|] == plans;
  }

  /** The year's load of the weighted plans. */
  function YearLoad(plans: seq<PlannedExpense>, year: int, display: Currency, rates: Rates): int {
    if plans == [] then 0
    else
      var pe := plans[|plans| - 1];
      YearLoad(plans[..|plans| - 1], year, display, rates)
      + if Contributes(pe, year) then PerHit(pe, display, rates) * Occurrences(pe.defn, year, 12) else 0
  }

  /** Twelve months of weights are the year's load, within six cents per row. */
  lemma {:induction false} TwelveWeightsAreTheLoad(plans: seq<PlannedExpense>, year: int, display: Currency,
                                                   rates: Rates)
    ensures
      var rows := WeightsOf(plans, year, display, rates);
      -6 * |rows| <= 12 * SumWeighted(rows) - YearLoad(plans, year, display, rates) <= 6 * |rows|
  {
    if plans == [] {
    } else {
      var pe, before := plans[|plans| - 1], WeightsOf(plans[..|plans| - 1], year, display, rates);
      TwelveWeightsAreTheLoad(plans[..|plans| - 1], year, display, rates);
      var rows := WeightsOf(plans, year, display, rates);
      if Contributes(pe, year) {
        WeightsAddUp(PerHit(pe, display, rates), Occurrences(pe.defn, year, 12));
        assert |rows| == |before| + 1 && rows[..|before|] == before;
        assert SumWeighted(rows) == SumWeighted(before) + MonthlyWeight(PerHit(pe, display, rates), Occurrences(pe.defn, year, 12));
      } else {
        assert rows == before;
      }
    }
  }

  /** How often a plan without an end that is neither monthly nor happens once occurs in a later year. */
  function TimesAYear(d: Defn): nat {
    match d.rule
    case Quarterly => 4
    case Biannual => 2
    case Yearly => 1
    case Custom => if d.months.Some? then |set m | m in d.months.value && 1 <= m <= 12| else 0
    case _ => 0
  }

  lemma TimesExactly(d: Defn, year: int)
    requires ValidDefn(d) && d.end.None? && year > d.start.year
    ensures IsWeighted(d.rule) ==> Occurrences(d, year, 12) == TimesAYear(d)
    ensures !IsWeighted(d.rule) ==> TimesAYear(d) == 0
  {
    OccurrencesPerYear(d, year);
    assert d.months.Some? ==> ListedMonths(d.months.value, 12) == set m | m in d.months.value && 1 <= m <= 12;
  }

  lemma WeightsOfOne(pe: PlannedExpense, year: int, display: Currency, rates: Rates)
    ensures WeightsOf([pe], year, display, rates) ==
      if Contributes(pe, year)
      then [Weighted(pe.title, pe.category, MonthlyWeight(PerHit(pe, display, rates), Occurrences(pe.defn, year, 12)))]
      else []
  {
    assert [pe][..0] == [];
  }

  /**
   What a plan without an end adds in a later year: nothing if it is monthly or happens once, else a twelfth
   of its year.
   */
  lemma WeightOfPlan(pe: PlannedExpense, year: int, display: Currency, rates: Rates)
    requires ValidDefn(pe.defn) && pe.defn.end.None? && year > pe.defn.start.year
    ensures
      var weights := WeightsOf([pe], year, display, rates);
      var load := TimesAYear(pe.defn) * ConvertForecast(Amount(pe.amount), pe.currency, display, rates);
      if TimesAYear(pe.defn) == 0 then weights == [] else |weights| == 1 && IsTwelfth(weights[0], pe, load)
  {
    TimesExactly(pe.defn, year);
    WeightsOfOne(pe, year, display, rates);
    WeightsAddUp(PerHit(pe, display, rates), Occurrences(pe.defn, year, 12));
  }

  /** A weight of the plan that is the twelfth part of an amount, rounded to cents. */
  predicate IsTwelfth(w: Weighted, pe: PlannedExpense, load: int) {
    w.title == pe.title && w.category == pe.category && -6 <= 12 * w.monthly - load <= 6
  }

  // ------------------------------------------------------------ the two views of one month

  /** The month's lines, in table order. */
  function MonthLines(lines: seq<Line>, month: int): seq<Line> {
    if lines == [] then []
    else
      var line := lines[|lines| - 1];
      MonthLines(lines[..|lines| - 1], month) + (if line.month == month then [line] else [])
  }

  lemma {:induction false} MonthLineAt(lines: seq<Line>, category: string, month: int)
    ensures LineAt(MonthLines(lines, month), category, month) == LineAt(lines, category, month)
  {
    if lines == [] {
    } else {
      var n := |lines| - 1;
      MonthLineAt(lines[..n], category, month);
      var before := MonthLines(lines[..n], month);
      assert (before + [lines[n]])[..|before|] == before && before + [] == before;
    }
  }

  /** The dictionary of the month's plans; a later line of a category would replace an earlier one. */
  method PlannedByCategory(plan: Plan, month: int) returns (planned: MonthTable)
    ensures forall c :: c in planned <==> LineAt(plan.lines, c, month).Some?
    ensures forall c :: Of(planned, c) == PlannedAt(plan, c, month)
  {
    planned := map[];
    var lines := MonthLines(plan.lines, month);
    MonthLinesAreOfMonth(plan.lines, month);
    for i := 0 to |lines|
      invariant forall c :: c in planned <==> LineAt(lines[..i], c, month).Some?
      invariant forall c :: c in planned ==> planned[c] == Shown(plan, LineAt(lines[..i], c, month).value)
    {
      assert lines[..i + 1][..i] == lines[..i];
      planned := planned[lines[i].category := Shown(plan, lines[i])];
    }
    assert lines[..|lines|] == lines;
    forall c
      ensures LineAt(lines, c, month) == LineAt(plan.lines, c, month)
    {
      MonthLineAt(plan.lines, c, month);
    }
  }

  lemma {:induction false} MonthLinesAreOfMonth(lines: seq<Line>, month: int)
    ensures forall i :: 0 <= i < |MonthLines(lines, month)| ==> MonthLines(lines, month)[i].month == month
  {
    if lines == [] {
    } else {
      MonthLinesAreOfMonth(lines[..|lines| - 1], month);
    }
  }

  /** The grid's planned column of a month is the sum of the monthly view's plans, whatever categories the two list. */
  lemma PlannedViewsAgree(plan: Plan, actuals: YearTable, planned: MonthTable, actual: MonthTable, month: int)
    requires 1 <= month <= 12 && forall c :: Of(planned, c) == PlannedAt(plan, c, month)
    ensures ColumnSums(GridCategories(plan, actuals), PlannedCells(plan))[month - 1] == SumOver(Seen(planned, actual), EntryOf(planned))
  {
    var f, g := InMonth(PlannedCells(plan), month), EntryOf(planned);
    forall c
      ensures f(c) == g(c) && (c !in GridCategories(plan, actuals) || c !in Seen(planned, actual) ==> f(c) == 0)
    {
      if c !in LineCategories(plan.lines) {
        NoLineYetOf(plan.lines, c, month);
      }
    }
    SameSupport(GridCategories(plan, actuals), Seen(planned, actual), f, g);
  }

  lemma NoLineYetOf(lines: seq<Line>, category: string, month: int)
    requires category !in LineCategories(lines)
    ensures LineAt(lines, category, month) == None
  {
    NoLineYet(lines, category, month);
  }

  lemma OutsideIsZero(t: YearTable, category: string, month: int)
    requires category !in t
    ensures At(t, category, month) == 0
  {
  }

  /** Two tables with equal entries have equal totals, over whatever categories the two reports list. */
  lemma EqualEntriesEqualTotals(year: YearTable, month: MonthTable, m: int, gridNames: set<string>,
                                monthNames: set<string>)
    requires year.Keys <= gridNames && month.Keys <= monthNames
    requires forall c :: At(year, c, m) == Of(month, c)
    ensures SumOver(gridNames, InMonth(ActualCells(year), m)) == SumOver(monthNames, EntryOf(month))
  {
    var f, g := InMonth(ActualCells(year), m), EntryOf(month);
    forall x
      ensures f(x) == g(x) && (x !in gridNames || x !in monthNames ==> f(x) == 0)
    {
      if x !in gridNames {
        OutsideIsZero(year, x, m);
      }
    }
    SameSupport(gridNames, monthNames, f, g);
  }

  /**
   In lira, for every expense table: the grid's column of a month is the monthly view's expense total, and
   both are the month's counted expenses.
   */
  lemma LiraViewsAgree(rows: seq<Expense>, plan: Plan, planned: MonthTable, year: int, month: int)
    requires ValidRows(rows) && 1 <= month <= 12
    ensures
      var table, view := YearTl(YearRows(rows, year)), MonthTl(MonthRows(rows, year, month));
      var column := ColumnSums(GridCategories(plan, table), ActualCells(table))[month - 1];
      column == SumOver(Seen(planned, view), EntryOf(view)) == SumTl(MonthRows(rows, year, month))
  {
    var table, view := YearTl(YearRows(rows, year)), MonthTl(MonthRows(rows, year, month));
    forall c
      ensures At(table, c, month) == Of(view, c)
    {
      LiraEntriesAgree(rows, year, month, c);
    }
    EqualEntriesEqualTotals(table, view, month, GridCategories(plan, table), Seen(planned, view));
    MonthTableAddsUp(MonthRows(rows, year, month), Seen(planned, view));
  }

  /**
   In another currency: the same columns and totals, when every rate the expenses need is stable on some
   table from which the tables of both reports have grown, in whichever order the reports are made.
   */
  lemma DisplayViewsAgree(tb: Table, pub: Publisher, forGrid: Table, forMonth: Table, rows: seq<Expense>, plan: Plan,
                          planned: MonthTable, year: int, month: int, display: Currency)
    requires ValidRows(rows) && 1 <= month <= 12 && ExpensesStable(tb, pub, rows, display)
    requires Faithful(tb, pub) && Faithful(forGrid, pub) && Faithful(forMonth, pub)
    requires Grows(tb, forGrid) && Grows(tb, forMonth)
    ensures
      var table := YearConverted(forGrid, pub, YearRows(rows, year), display);
      var view := MonthConverted(forMonth, pub, MonthRows(rows, year, month), display);
      ColumnSums(GridCategories(plan, table), ActualCells(table))[month - 1] == SumOver(Seen(planned, view), EntryOf(view))
  {
    var table := YearConverted(forGrid, pub, YearRows(rows, year), display);
    var view := MonthConverted(forMonth, pub, MonthRows(rows, year, month), display);
    forall c
      ensures At(table, c, month) == Of(view, c)
    {
      DisplayEntriesAgree(tb, pub, forGrid, forMonth, rows, year, month, display, c);
    }
    EqualEntriesEqualTotals(table, view, month, GridCategories(plan, table), Seen(planned, view));
  }
}

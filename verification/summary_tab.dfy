/**
 * The summary tab: per-period profit and expense aggregated over both sales channels and the
 * B2B records, reported for one month or for a whole year, and the chart's monthly series.
 */
module SummaryTab {
  import opened Text
  import opened Store
  import opened Rows
  import opened WooTab

  /** The running totals of one (year, month). */
  datatype Totals = Totals(profit: real, expense: real)

  /** What a period's totals are taken to be: zero when the period has no entry. */
  function Get(agg: map<(string, string), Totals>, k: (string, string)): Totals {
    if k in agg then agg[k] else Totals(0.0, 0.0)
  }

  /**
   * `_add_monthly_values` on a value: the period's entry, created at zero when absent, grows
   * by the deltas, and every other entry stays as it was.
   */
  function Bumped(agg: map<(string, string), Totals>, year: string, month: string, profitDelta: real, expenseDelta: real)
    : (r: map<(string, string), Totals>)
    ensures r.Keys == agg.Keys + {(year, month)}
    ensures r[(year, month)].profit == Get(agg, (year, month)).profit + profitDelta
    ensures r[(year, month)].expense == Get(agg, (year, month)).expense + expenseDelta
    ensures forall k <- agg :: k != (year, month) ==> r[k] == agg[k]
  {
    var cur := Get(agg, (year, month));
    agg[(year, month) := Totals(cur.profit + profitDelta, cur.expense + expenseDelta)]
  }

  /** `monthly_aggregates`: the dictionary `generate_monthly_summary` fills. */
  class MonthlyAggregates {
    var totals: map<(string, string), Totals>

    constructor ()
      ensures totals == map[]
    {
      totals := map[];
    }

    /** `_add_monthly_values`. */
    method AddMonthlyValues(year: string, month: string, profitDelta: real, expenseDelta: real)
      modifies this
      ensures totals == Bumped(old(totals), year, month, profitDelta, expenseDelta)
    {
      var key := (year, month);
      if key !in totals {
        totals := totals[key := Totals(0.0, 0.0)];
      }
      totals := totals[key := Totals(totals[key].profit + profitDelta, totals[key].expense + expenseDelta)];
    }
  }

  // ---------------------------------------------------------------------------
  // The aggregation, as functions
  // ---------------------------------------------------------------------------

  function AllRows(r: Row<SkuData>): bool {
    true
  }

  function YearMonthSku(r: Row<SkuData>): (string, string, string) {
    (r.year, r.month, r.body.sku)
  }

  /** A channel's `(year, month, sku) -> profit` map: the profit of the last row with that key. */
  function ProfitMap(skus: seq<Row<SkuData>>): map<(string, string, string), real> {
    LastWins(skus, AllRows, YearMonthSku, ProfitOf)
  }

  function SaleKey(s: Row<SalesData>): (string, string, string) {
    (s.year, s.month, s.body.sku)
  }

  /** The aggregates after a channel's sales rows: each matched sale adds profit x units to its period's profit. */
  function WithSales(agg: map<(string, string), Totals>, sales: seq<Row<SalesData>>, profits: map<(string, string, string), real>)
    : map<(string, string), Totals>
  {
    if sales == [] then agg
    else
      var a := WithSales(agg, sales[..|sales| - 1], profits);
      var s := sales[|sales| - 1];
      if SaleKey(s) in profits then Bumped(a, s.year, s.month, LineProfit(profits[SaleKey(s)], s.body.unitsSold), 0.0)
      else a
  }

  /** The aggregates after the B2B rows: each row adds its profit and its expense to its period. */
  function WithB2B(agg: map<(string, string), Totals>, rows: seq<Row<B2BData>>): map<(string, string), Totals> {
    if rows == [] then agg
    else
      var a := WithB2B(agg, rows[..|rows| - 1]);
      var r := rows[|rows| - 1];
      Bumped(a, r.year, r.month, r.body.profit, r.body.expense)
  }

  /** `monthly_aggregates` once eBay sales, WooCommerce sales and B2B rows are all added, in that order. */
  function Aggregates(ebaySku: seq<Row<SkuData>>, ebaySales: seq<Row<SalesData>>, wooSku: seq<Row<SkuData>>,
                      wooSales: seq<Row<SalesData>>, b2b: seq<Row<B2BData>>): map<(string, string), Totals>
  {
    WithB2B(WithSales(WithSales(map[], ebaySales, ProfitMap(ebaySku)), wooSales, ProfitMap(wooSku)), b2b)
  }

  // ---------------------------------------------------------------------------
  // Closed forms
  // ---------------------------------------------------------------------------

  /** The profit a channel's sales add to period `k`: profit x units over its sales rows with a SKU row. */
  function SalesProfitIn(sales: seq<Row<SalesData>>, profits: map<(string, string, string), real>, k: (string, string)): real {
    if sales == [] then 0.0
    else
      var s := sales[|sales| - 1];
      SalesProfitIn(sales[..|sales| - 1], profits, k)
        + (if (s.year, s.month) == k && SaleKey(s) in profits then LineProfit(profits[SaleKey(s)], s.body.unitsSold) else 0.0)
  }

  function B2BProfitIn(rows: seq<Row<B2BData>>, k: (string, string)): real {
    if rows == [] then 0.0
    else
      var r := rows[|rows| - 1];
      B2BProfitIn(rows[..|rows| - 1], k) + (if (r.year, r.month) == k then r.body.profit else 0.0)
  }

  function B2BExpenseIn(rows: seq<Row<B2BData>>, k: (string, string)): real {
    if rows == [] then 0.0
    else
      var r := rows[|rows| - 1];
      B2BExpenseIn(rows[..|rows| - 1], k) + (if (r.year, r.month) == k then r.body.expense else 0.0)
  }

  /** Sales add exactly their matched profit to each period, and never add to its expense. */
  lemma {:induction false} WithSalesClosedForm(agg: map<(string, string), Totals>, sales: seq<Row<SalesData>>,
                                               profits: map<(string, string, string), real>, k: (string, string))
    ensures Get(WithSales(agg, sales, profits), k).profit == Get(agg, k).profit + SalesProfitIn(sales, profits, k)
    ensures Get(WithSales(agg, sales, profits), k).expense == Get(agg, k).expense
  {
    if sales != [] {
      WithSalesClosedForm(agg, sales[..|sales| - 1], profits, k);
    }
  }

  /** B2B rows add their profit and their expense, with no multiplier, to their own period. */
  lemma {:induction false} WithB2BClosedForm(agg: map<(string, string), Totals>, rows: seq<Row<B2BData>>, k: (string, string))
    ensures Get(WithB2B(agg, rows), k).profit == Get(agg, k).profit + B2BProfitIn(rows, k)
    ensures Get(WithB2B(agg, rows), k).expense == Get(agg, k).expense + B2BExpenseIn(rows, k)
  {
    if rows != [] {
      WithB2BClosedForm(agg, rows[..|rows| - 1], k);
    }
  }

  /**
   * A period's totals: its profit is the matched eBay and WooCommerce sales profit plus the B2B
   * profit, and its expense is the B2B expense alone.
   */
  lemma SummaryClosedForm(ebaySku: seq<Row<SkuData>>, ebaySales: seq<Row<SalesData>>, wooSku: seq<Row<SkuData>>,
                          wooSales: seq<Row<SalesData>>, b2b: seq<Row<B2BData>>, k: (string, string))
    ensures Get(Aggregates(ebaySku, ebaySales, wooSku, wooSales, b2b), k)
      == Totals(SalesProfitIn(ebaySales, ProfitMap(ebaySku), k) + SalesProfitIn(wooSales, ProfitMap(wooSku), k) + B2BProfitIn(b2b, k),
                B2BExpenseIn(b2b, k))
  {
    var a1 := WithSales(map[], ebaySales, ProfitMap(ebaySku));
    var a2 := WithSales(a1, wooSales, ProfitMap(wooSku));
    WithSalesClosedForm(map[], ebaySales, ProfitMap(ebaySku), k);
    WithSalesClosedForm(a1, wooSales, ProfitMap(wooSku), k);
    WithB2BClosedForm(a2, b2b, k);
  }

  /**
   * The WooCommerce tab's sales report and the summary agree: the report's total for a period
   * is exactly the WooCommerce share of that period's profit in the summary.
   */
  lemma {:induction false} WooReportMatchesSummary(wooSku: seq<Row<SkuData>>, wooSales: seq<Row<SalesData>>, year: string, month: string)
    ensures LineProfitSum(ReportLines(wooSales, PeriodProfits(wooSku, year, month), year, month))
      == SalesProfitIn(wooSales, ProfitMap(wooSku), (year, month))
  {
    if wooSales != [] {
      var init := wooSales[..|wooSales| - 1];
      var s := wooSales[|wooSales| - 1];
      WooReportMatchesSummary(wooSku, init, year, month);
      var lines := ReportLines(wooSales, PeriodProfits(wooSku, year, month), year, month);
      if s.year == year && s.month == month {
        LastWinsAgree(wooSku, InPeriod(year, month), SkuNameOf, AllRows, YearMonthSku, ProfitOf, s.body.sku, SaleKey(s));
        assert lines[..|lines| - 1] == ReportLines(init, PeriodProfits(wooSku, year, month), year, month);
      }
    }
  }

  // ---------------------------------------------------------------------------
  // Reports
  // ---------------------------------------------------------------------------

  /** The figures of the summary text. */
  datatype Summary =
    | NoData
    | MonthSummary(profit: real, expense: real, realized: real)
    | YearSummary(profit: real, expense: real, realized: real)

  /** The sums over (year, "1") .. (year, str(months)), an absent month counting as zero. */
  function YearTotals(agg: map<(string, string), Totals>, year: string, months: nat): Totals {
    if months == 0 then Totals(0.0, 0.0)
    else
      var t := YearTotals(agg, year, months - 1);
      var m := Get(agg, (year, NatToString(months)));
      Totals(t.profit + m.profit, t.expense + m.expense)
  }

  /** What the summary shows for a chosen month, or for the whole year when the month is "All". */
  function SummaryOf(agg: map<(string, string), Totals>, year: string, month: string): (s: Summary)
    ensures s.NoData? <==> month != "All" && (year, month) !in agg
    ensures s.MonthSummary? <==> month != "All" && (year, month) in agg
    ensures s.MonthSummary? ==> Totals(s.profit, s.expense) == agg[(year, month)]
    ensures s.YearSummary? <==> month == "All"
    ensures s.YearSummary? ==> Totals(s.profit, s.expense) == YearTotals(agg, year, 12)
    ensures !s.NoData? ==> s.realized == s.profit - s.expense
  {
    if month != "All" then
      if (year, month) in agg then
        var t := agg[(year, month)];
        MonthSummary(t.profit, t.expense, t.profit - t.expense)
      else NoData
    else
      var t := YearTotals(agg, year, 12);
      YearSummary(t.profit, t.expense, t.profit - t.expense)
  }

  /** An entry for any other year, or for a month text other than "1" .. "12", does not move the year's sums. */
  lemma {:induction false} YearTotalsIgnoresOtherKeys(agg: map<(string, string), Totals>, year: string, months: nat,
                                                    k: (string, string), t: Totals)
    requires forall m :: 1 <= m <= months ==> k != (year, NatToString(m))
    ensures YearTotals(agg[k := t], year, months) == YearTotals(agg, year, months)
  {
    if months > 0 {
      YearTotalsIgnoresOtherKeys(agg, year, months - 1, k, t);
      assert k != (year, NatToString(months));
    }
  }

  // ---------------------------------------------------------------------------
  // The loops
  // ---------------------------------------------------------------------------

  /** The sales loop of `generate_monthly_summary` for one channel. */
  method AccumulateSales(agg: MonthlyAggregates, sales: seq<Row<SalesData>>, profits: map<(string, string, string), real>)
    modifies agg
    ensures agg.totals == WithSales(old(agg.totals), sales, profits)
  {
    for i := 0 to |sales|
      invariant agg.totals == WithSales(old(agg.totals), sales[..i], profits)
    {
      assert sales[..i + 1][..i] == sales[..i];
      var s := sales[i];
      var key := (s.year, s.month, s.body.sku);
      if key in profits {
        agg.AddMonthlyValues(s.year, s.month, LineProfit(profits[key], s.body.unitsSold), 0.0);
      }
    }
    assert sales[..|sales|] == sales;
  }

  /** The B2B loop of `generate_monthly_summary`. */
  method AccumulateB2B(agg: MonthlyAggregates, rows: seq<Row<B2BData>>)
    modifies agg
    ensures agg.totals == WithB2B(old(agg.totals), rows)
  {
    for i := 0 to |rows|
      invariant agg.totals == WithB2B(old(agg.totals), rows[..i])
    {
      assert rows[..i + 1][..i] == rows[..i];
      var r := rows[i];
      agg.AddMonthlyValues(r.year, r.month, r.body.profit, r.body.expense);
    }
    assert rows[..|rows|] == rows;
  }

  /** The whole-year loop: the sums of profit and expense over months "1" .. "12". */
  method SumYear(agg: map<(string, string), Totals>, year: string) returns (grandProfit: real, grandExpense: real)
    ensures Totals(grandProfit, grandExpense) == YearTotals(agg, year, 12)
  {
    grandProfit, grandExpense := 0.0, 0.0;
    for m := 1 to 13
      invariant Totals(grandProfit, grandExpense) == YearTotals(agg, year, m - 1)
    {
      var key := (year, NatToString(m));
      if key in agg {
        grandProfit := grandProfit + agg[key].profit;
        grandExpense := grandExpense + agg[key].expense;
      }
    }
  }

  /**
   * `generate_monthly_summary`: the aggregates of all files, and the summary of the chosen
   * month, or of the chosen year when the month is "All".
   */
  method GenerateMonthlySummary(files: Files, year: string, month: string)
    returns (summary: Summary, totals: map<(string, string), Totals>)
    ensures totals == Aggregates(files.ebaySku, files.ebaySales, files.wooSku, files.wooSales, files.b2b)
    ensures summary == SummaryOf(totals, year, month)
  {
    var agg := new MonthlyAggregates();
    var ebayProfits := BuildLastWins(files.ebaySku, AllRows, YearMonthSku, ProfitOf);
    AccumulateSales(agg, files.ebaySales, ebayProfits);
    var wooProfits := BuildLastWins(files.wooSku, AllRows, YearMonthSku, ProfitOf);
    AccumulateSales(agg, files.wooSales, wooProfits);
    AccumulateB2B(agg, files.b2b);
    totals := agg.totals;
    summary := Summarize(totals, year, month);
  }

  /** The reporting half of `generate_monthly_summary`. */
  method Summarize(totals: map<(string, string), Totals>, year: string, month: string) returns (summary: Summary)
    ensures summary == SummaryOf(totals, year, month)
  {
    if month != "All" {
      var key := (year, month);
      if key !in totals {
        summary := NoData;
      } else {
        var profit, expense := totals[key].profit, totals[key].expense;
        summary := MonthSummary(profit, expense, profit - expense);
      }
    } else {
      var grandProfit, grandExpense := SumYear(totals, year);
      summary := YearSummary(grandProfit, grandExpense, grandProfit - grandExpense);
    }
  }

  /**
   * The arithmetic of `_update_summary_charts`: the twelve monthly expenses and profits (zero
   * for an absent month) and the year's total of profit minus expense, which over exact numbers
   * is the year summary's realized profit.
   */
  method ChartSeries(agg: map<(string, string), Totals>, year: string)
    returns (expenses: seq<real>, profits: seq<real>, yearTotal: real)
    ensures |expenses| == 12 && |profits| == 12
    ensures forall i :: 0 <= i < 12 ==>
      expenses[i] == Get(agg, (year, NatToString(i + 1))).expense && profits[i] == Get(agg, (year, NatToString(i + 1))).profit
    ensures yearTotal == SummaryOf(agg, year, "All").realized
  {
    expenses, profits, yearTotal := [], [], 0.0;
    for m := 1 to 13
      invariant |expenses| == m - 1 && |profits| == m - 1
      invariant forall i :: 0 <= i < m - 1 ==>
        expenses[i] == Get(agg, (year, NatToString(i + 1))).expense && profits[i] == Get(agg, (year, NatToString(i + 1))).profit
      invariant yearTotal == YearTotals(agg, year, m - 1).profit - YearTotals(agg, year, m - 1).expense
    {
      var key := (year, NatToString(m));
      var e, p := 0.0, 0.0;
      if key in agg {
        e, p := agg[key].expense, agg[key].profit;
      }
      expenses := expenses + [e];
      profits := profits + [p];
      yearTotal := yearTotal + (p - e);
    }
  }
}

/**
 * The WooCommerce tab's logic behind its buttons: valuing and saving a SKU, pasting sales
 * in bulk, the period's sales report, the category table, deleting and moving a SKU between
 * categories, and carrying the SKU list over from the previous month.
 */
module WooTab {
  import opened Wrappers
  import opened Text
  import opened Money
  import opened Store
  import opened Rows
  import opened MonthStatus
  import opened DataUtils

  // ---------------------------------------------------------------------------
  // Valuation
  // ---------------------------------------------------------------------------

  /** The derived figures of a SKU, before they are rounded for storage. */
  datatype Valuation = Valuation(
    beforeVat: real,
    transactionFee: real,
    totalExpenses: real,
    profit: real,
    profitMargin: real)

  /** The price without 20% VAT, rounded to pence; exactly 0 for a zero price. */
  function BeforeVat(afterVat: real): (r: real)
    ensures afterVat == 0.0 ==> r == 0.0
    ensures afterVat != 0.0 ==> -0.006 <= r * 1.2 - afterVat <= 0.006
    ensures Round2(r) == r
  {
    if afterVat != 0.0 then
      Round2Idempotent(afterVat / 1.2);
      Round2(afterVat / 1.2)
    else
      Round2OfWholePence(0);
      0.0
  }

  /** The SKU formula, as `add_woo_sku` computes it. */
  function Valuate(afterVat: real, cost: real, feePercent: real, feeFlat: real, delivery: real, packagingSum: real): Valuation {
    var beforeVat := BeforeVat(afterVat);
    var fee := afterVat * (feePercent / 100.0) + feeFlat;
    var total := cost + fee + packagingSum + delivery;
    var profit := beforeVat - total;
    Valuation(beforeVat, fee, total, profit, if beforeVat != 0.0 then (profit / beforeVat) * 100.0 else 0.0)
  }

  /**
   * What the formula means: the fee is a percentage of the VAT-inclusive price plus a flat part,
   * the expenses add up item cost, fee, packaging and delivery, the profit is what the
   * VAT-exclusive price leaves after the expenses, and the margin is the profit as a percentage
   * of that price, 0 when the price is 0.
   */
  lemma ValuateMeaning(afterVat: real, cost: real, feePercent: real, feeFlat: real, delivery: real, packagingSum: real)
    ensures var v := Valuate(afterVat, cost, feePercent, feeFlat, delivery, packagingSum);
      && v.beforeVat == BeforeVat(afterVat)
      && v.transactionFee == afterVat * feePercent / 100.0 + feeFlat
      && v.totalExpenses == cost + v.transactionFee + packagingSum + delivery
      && v.profit + v.totalExpenses == v.beforeVat
      && (v.beforeVat != 0.0 ==> v.profitMargin * v.beforeVat == 100.0 * v.profit)
      && (v.beforeVat == 0.0 ==> v.profitMargin == 0.0)
  {
  }

  /** Every extra pound of item cost is a pound less profit, and the price side does not move. */
  lemma ValuateCostShift(afterVat: real, cost: real, extra: real, feePercent: real, feeFlat: real, delivery: real, packagingSum: real)
    ensures Valuate(afterVat, cost + extra, feePercent, feeFlat, delivery, packagingSum).profit
      == Valuate(afterVat, cost, feePercent, feeFlat, delivery, packagingSum).profit - extra
    ensures Valuate(afterVat, cost + extra, feePercent, feeFlat, delivery, packagingSum).beforeVat
      == Valuate(afterVat, cost, feePercent, feeFlat, delivery, packagingSum).beforeVat
  {
  }

  /** The margin is 0 exactly when the SKU breaks even or has no VAT-exclusive price. */
  lemma MarginZeroIffBreakEven(afterVat: real, cost: real, feePercent: real, feeFlat: real, delivery: real, packagingSum: real)
    ensures var v := Valuate(afterVat, cost, feePercent, feeFlat, delivery, packagingSum);
      v.profitMargin == 0.0 <==> v.profit == 0.0 || v.beforeVat == 0.0
  {
  }

  lemma DividedBySelf(x: real)
    requires x != 0.0
    ensures x / x == 1.0
  {
  }

  /** With no expenses at all, a priced SKU keeps its whole VAT-exclusive price: a 100% margin. */
  lemma NoExpensesFullMargin(afterVat: real)
    requires BeforeVat(afterVat) != 0.0
    ensures Valuate(afterVat, 0.0, 0.0, 0.0, 0.0, 0.0).profitMargin == 100.0
  {
    var b := BeforeVat(afterVat);
    var v := Valuate(afterVat, 0.0, 0.0, 0.0, 0.0, 0.0);
    assert v.profit == b;
    DividedBySelf(b);
  }

  // ---------------------------------------------------------------------------
  // Saving a SKU
  // ---------------------------------------------------------------------------

  /** The SKU form's entries, as typed. */
  datatype SkuForm = SkuForm(
    category: string,
    sku: string,
    afterVat: string,
    cost: string,
    packaging: string,
    feePercent: string,
    feeFlat: string,
    delivery: string)

  function CostNameOf(r: Row<CostData>): string {
    r.body.costName
  }

  function CostValueOf(r: Row<CostData>): real {
    r.body.costValue
  }

  /** `cost_data`: the period's cost names, each with the value of its last row in the costs file. */
  function CostMapFor(costs: seq<Row<CostData>>, year: string, month: string): map<string, real> {
    LastWins(costs, InPeriod(year, month), CostNameOf, CostValueOf)
  }

  /** The figures of a filled-in form, a blank or unreadable number counting as 0. */
  function FormValuation(form: SkuForm, packagingSum: real): Valuation {
    Valuate(RealOrZero(form.afterVat), RealOrZero(form.cost), RealOrZero(form.feePercent),
            RealOrZero(form.feeFlat), RealOrZero(form.delivery), packagingSum)
  }

  /**
   * The row saved for a form: the stripped SKU and category, the stripped packaging text, and
   * every figure rounded to pence.
   */
  function NewSkuRow(year: string, month: string, form: SkuForm, packagingSum: real): (r: Row<SkuData>)
    ensures SkuKey(r) == (month, year, Strip(form.sku))
    ensures r.body.soldPriceBeforeVat == FormValuation(form, packagingSum).beforeVat
    ensures r.body.profit + r.body.totalExpenses - r.body.soldPriceBeforeVat <= 0.01
    ensures r.body.soldPriceBeforeVat - r.body.profit - r.body.totalExpenses <= 0.01
  {
    var v := FormValuation(form, packagingSum);
    assert v.profit + v.totalExpenses == v.beforeVat;
    Row(month, year, SkuData(
      Strip(form.sku), Strip(form.category), Round2(RealOrZero(form.afterVat)), Round2(v.beforeVat),
      Round2(RealOrZero(form.cost)), Strip(form.packaging), Round2(v.transactionFee),
      Round2(RealOrZero(form.delivery)), Round2(v.totalExpenses), Round2(v.profitMargin), Round2(v.profit)))
  }

  /** The packaging sum `add_woo_sku` computes for a form against the period's costs. */
  function FormPackaging(form: SkuForm, costs: seq<Row<CostData>>, year: string, month: string): real {
    PackagingSum(Tokens(Strip(form.packaging)), CostMapFor(costs, year, month))
  }

  /**
   * `add_woo_sku`: refused for an archived period and for a blank SKU; otherwise the form's row
   * is upserted by (month, year, sku) and the SKU file is rewritten.
   */
  method AddWooSku(files: Files, year: string, month: string, form: SkuForm) returns (outcome: Outcome)
    modifies files`wooSku, files`written
    ensures ArchivedFlag(files.monthStatus, year, month) ==> outcome == RejectedArchived
    ensures !ArchivedFlag(files.monthStatus, year, month) && Strip(form.sku) == "" ==> outcome == RejectedEmptyName
    ensures !ArchivedFlag(files.monthStatus, year, month) && Strip(form.sku) != "" ==> outcome == Done
    ensures outcome == Done ==>
      files.wooSku == Upsert(old(files.wooSku), SkuKey, NewSkuRow(year, month, form, FormPackaging(form, files.costs, year, month)))
      && files.written == old(files.written) + [WooSkuCsv]
    ensures outcome != Done ==> files.wooSku == old(files.wooSku) && files.written == old(files.written)
  {
    var archived := IsMonthArchived(files, year, month);
    if archived {
      return RejectedArchived;
    }
    if Strip(form.sku) == "" {
      return RejectedEmptyName;
    }
    var costMap := BuildLastWins(files.costs, InPeriod(year, month), CostNameOf, CostValueOf);
    assert costMap == CostMapFor(files.costs, year, month);
    var packagingSum := ParsePackagingInput(Strip(form.packaging), costMap);
    assert packagingSum == FormPackaging(form, files.costs, year, month);
    var row := NewSkuRow(year, month, form, packagingSum);
    var saved := UpsertRows(files.wooSku, SkuKey, row);
    files.wooSku := saved;
    files.written := files.written + [WooSkuCsv];
    return Done;
  }

  // ---------------------------------------------------------------------------
  // Mass sales entry
  // ---------------------------------------------------------------------------

  function Min(a: nat, b: nat): nat {
    if a < b then a else b
  }

  /**
   * The sales rows the first `n` line pairs produce: line i of the SKU box with line i of the
   * units box, blank SKUs skipped.
   */
  function SalesEntries(year: string, month: string, skuLines: seq<string>, unitLines: seq<string>, n: nat): (entries: seq<Row<SalesData>>)
    requires n <= |skuLines| && n <= |unitLines|
    ensures |entries| <= n
  {
    if n == 0 then []
    else
      var init := SalesEntries(year, month, skuLines, unitLines, n - 1);
      var sku := Strip(skuLines[n - 1]);
      init + (if sku == "" then [] else [Row(month, year, SalesData(sku, IntOrZero(unitLines[n - 1])))])
  }

  /**
   * Every entry belongs to the period and has a non-blank SKU, and every line pair with a
   * non-blank SKU yields the entry of its stripped SKU and its units, unreadable units being 0.
   */
  lemma {:induction false} SalesEntriesMeaning(year: string, month: string, skuLines: seq<string>, unitLines: seq<string>, n: nat)
    requires n <= |skuLines| && n <= |unitLines|
    ensures var entries := SalesEntries(year, month, skuLines, unitLines, n);
      forall e <- entries :: e.year == year && e.month == month && e.body.sku != ""
    ensures forall i :: 0 <= i < n && Strip(skuLines[i]) != "" ==>
      Row(month, year, SalesData(Strip(skuLines[i]), IntOrZero(unitLines[i]))) in SalesEntries(year, month, skuLines, unitLines, n)
    ensures forall e <- SalesEntries(year, month, skuLines, unitLines, n) :: exists i ::
      0 <= i < n && Strip(skuLines[i]) != "" && e == Row(month, year, SalesData(Strip(skuLines[i]), IntOrZero(unitLines[i])))
  {
    if n > 0 {
      SalesEntriesMeaning(year, month, skuLines, unitLines, n - 1);
      var init := SalesEntries(year, month, skuLines, unitLines, n - 1);
      var sku := Strip(skuLines[n - 1]);
      var last := if sku == "" then [] else [Row(month, year, SalesData(sku, IntOrZero(unitLines[n - 1])))];
      var all := SalesEntries(year, month, skuLines, unitLines, n);
      assert all == init + last;
      forall e <- all ensures e.year == year && e.month == month && e.body.sku != "" {
        assert e in init || e in last;
      }
      forall e <- all ensures exists i ::
        0 <= i < n && Strip(skuLines[i]) != "" && e == Row(month, year, SalesData(Strip(skuLines[i]), IntOrZero(unitLines[i])))
      {
        if e !in init {
          assert e in last;
          assert Strip(skuLines[n - 1]) != "" && e == Row(month, year, SalesData(Strip(skuLines[n - 1]), IntOrZero(unitLines[n - 1])));
        }
      }
      forall i | 0 <= i < n && Strip(skuLines[i]) != ""
        ensures Row(month, year, SalesData(Strip(skuLines[i]), IntOrZero(unitLines[i]))) in all
      {
        if i < n - 1 {
          assert Row(month, year, SalesData(Strip(skuLines[i]), IntOrZero(unitLines[i]))) in init;
        } else {
          assert last == [Row(month, year, SalesData(Strip(skuLines[i]), IntOrZero(unitLines[i])))];
        }
      }
    }
  }

  /**
   * Among the entries of one paste, the last one with SKU `s` is that of the last line pair
   * whose SKU line strips to `s`.
   */
  lemma {:induction false} SalesEntriesLastLine(year: string, month: string, skuLines: seq<string>, unitLines: seq<string>, n: nat, i: nat)
    requires n <= |skuLines| && n <= |unitLines|
    requires i < n && Strip(skuLines[i]) != ""
    requires forall j :: i < j < n ==> Strip(skuLines[j]) != Strip(skuLines[i])
    ensures LastWithKey(SalesEntries(year, month, skuLines, unitLines, n), SalesKey, (month, year, Strip(skuLines[i])))
      == Some(Row(month, year, SalesData(Strip(skuLines[i]), IntOrZero(unitLines[i]))))
  {
    var k := (month, year, Strip(skuLines[i]));
    var init := SalesEntries(year, month, skuLines, unitLines, n - 1);
    var all := SalesEntries(year, month, skuLines, unitLines, n);
    var sku := Strip(skuLines[n - 1]);
    var row := Row(month, year, SalesData(sku, IntOrZero(unitLines[n - 1])));
    if i < n - 1 {
      SalesEntriesLastLine(year, month, skuLines, unitLines, n - 1, i);
    }
    if sku != "" {
      assert all == init + [row];
      LastWithKeySnoc(init, row, SalesKey, k);
    } else {
      assert all == init;
    }
  }

  /**
   * A paste leaves the SKU of its last line with that line's units: looking up the period's
   * row for a pasted SKU finds the entry of the last line pair naming it.
   */
  lemma LastPastedLineWins(existing: seq<Row<SalesData>>, year: string, month: string, skuLines: seq<string>, unitLines: seq<string>, n: nat, i: nat)
    requires n <= |skuLines| && n <= |unitLines|
    requires i < n && Strip(skuLines[i]) != ""
    requires forall j :: i < j < n ==> Strip(skuLines[j]) != Strip(skuLines[i])
    ensures Lookup(UpsertAll(existing, SalesKey, SalesEntries(year, month, skuLines, unitLines, n)), SalesKey, (month, year, Strip(skuLines[i])))
      == Some(Row(month, year, SalesData(Strip(skuLines[i]), IntOrZero(unitLines[i]))))
  {
    SalesEntriesLastLine(year, month, skuLines, unitLines, n, i);
    UpsertAllLookup(existing, SalesKey, SalesEntries(year, month, skuLines, unitLines, n), (month, year, Strip(skuLines[i])));
  }

  /**
   * A paste leaves every other key as it was: a row of another period, or of a SKU no pasted
   * line names, is looked up as before.
   */
  lemma PasteKeepsOtherKeys(existing: seq<Row<SalesData>>, year: string, month: string, skuLines: seq<string>, unitLines: seq<string>, n: nat, k: (string, string, string))
    requires n <= |skuLines| && n <= |unitLines|
    requires (k.0, k.1) != (month, year) || forall i :: 0 <= i < n ==> Strip(skuLines[i]) != k.2
    ensures Lookup(UpsertAll(existing, SalesKey, SalesEntries(year, month, skuLines, unitLines, n)), SalesKey, k)
      == Lookup(existing, SalesKey, k)
  {
    var entries := SalesEntries(year, month, skuLines, unitLines, n);
    SalesEntriesMeaning(year, month, skuLines, unitLines, n);
    assert forall j :: 0 <= j < |entries| ==> SalesKey(entries[j]) != k by {
      forall j | 0 <= j < |entries| ensures SalesKey(entries[j]) != k {
        assert entries[j] in entries;
      }
    }
    UpsertAllLookup(existing, SalesKey, entries, k);
  }

  /**
   * The loop of `add_woo_sales_mass` over the line pairs: each pair with a non-blank SKU is
   * upserted into `existing` by (month, year, sku), and counted.
   */
  method UpsertSalesLines(existing: seq<Row<SalesData>>, year: string, month: string, skuLines: seq<string>, unitLines: seq<string>)
    returns (result: seq<Row<SalesData>>, count: nat)
    ensures var entries := SalesEntries(year, month, skuLines, unitLines, Min(|skuLines|, |unitLines|));
      result == UpsertAll(existing, SalesKey, entries) && count == |entries|
  {
    result, count := existing, 0;
    var n := Min(|skuLines|, |unitLines|);
    ghost var entries: seq<Row<SalesData>> := [];
    for i := 0 to n
      invariant entries == SalesEntries(year, month, skuLines, unitLines, i)
      invariant result == UpsertAll(existing, SalesKey, entries)
      invariant count == |entries|
    {
      var sku := Strip(skuLines[i]);
      if sku != "" {
        var row := Row(month, year, SalesData(sku, IntOrZero(unitLines[i])));
        assert SalesEntries(year, month, skuLines, unitLines, i + 1) == entries + [row];
        UpsertAllSnoc(existing, SalesKey, entries, row);
        result := UpsertRows(result, SalesKey, row);
        count := count + 1;
        entries := entries + [row];
      } else {
        assert SalesEntries(year, month, skuLines, unitLines, i + 1) == entries + [];
        assert entries + [] == entries;
      }
    }
  }

  /**
   * `add_woo_sales_mass`: refused for an archived period; otherwise every line pair is upserted
   * by (month, year, sku) in order, the sales file is rewritten, and the count of pairs used is
   * returned.
   */
  method AddWooSalesMass(files: Files, year: string, month: string, skuText: string, unitsText: string)
    returns (outcome: Outcome, count: nat)
    modifies files`wooSales, files`written
    ensures ArchivedFlag(files.monthStatus, year, month) ==>
      outcome == RejectedArchived && count == 0
      && files.wooSales == old(files.wooSales) && files.written == old(files.written)
    ensures !ArchivedFlag(files.monthStatus, year, month) ==>
      var skuLines := SplitLines(Strip(skuText));
      var unitLines := SplitLines(Strip(unitsText));
      var entries := SalesEntries(year, month, skuLines, unitLines, Min(|skuLines|, |unitLines|));
      outcome == Done && count == |entries|
      && files.wooSales == UpsertAll(old(files.wooSales), SalesKey, entries)
      && files.written == old(files.written) + [WooSalesCsv]
  {
    var archived := IsMonthArchived(files, year, month);
    if archived {
      return RejectedArchived, 0;
    }
    var skuLines := SplitLines(Strip(skuText));
    var unitLines := SplitLines(Strip(unitsText));
    var saved;
    saved, count := UpsertSalesLines(files.wooSales, year, month, skuLines, unitLines);
    files.wooSales := saved;
    files.written := files.written + [WooSalesCsv];
    return Done, count;
  }

  // ---------------------------------------------------------------------------
  // Sales report
  // ---------------------------------------------------------------------------

  function SkuNameOf(r: Row<SkuData>): string {
    r.body.sku
  }

  function ProfitOf(r: Row<SkuData>): real {
    r.body.profit
  }

  /** `profit_dict`: the period's SKUs, each with the profit of its last row. */
  function PeriodProfits(skus: seq<Row<SkuData>>, year: string, month: string): map<string, real> {
    LastWins(skus, InPeriod(year, month), SkuNameOf, ProfitOf)
  }

  /** The profit of a sales line: the per-item profit times the units sold. */
  function LineProfit(perItem: real, units: int): real {
    perItem * units as real
  }

  /** One line of the report: a sale with its profit, or a sale of a SKU without a SKU row. */
  datatype ReportLine =
    | Matched(sku: string, units: int, perItem: real, lineProfit: real)
    | Unmatched(sku: string, units: int)

  /** The report's lines for the period's sales rows, in file order. */
  function ReportLines(sales: seq<Row<SalesData>>, profits: map<string, real>, year: string, month: string): (lines: seq<ReportLine>)
    ensures |lines| <= |sales|
    ensures forall l <- lines :: l.Matched? ==> l.sku in profits && l.perItem == profits[l.sku] && l.lineProfit == LineProfit(profits[l.sku], l.units)
    ensures forall l <- lines :: l.Unmatched? ==> l.sku !in profits
  {
    if sales == [] then []
    else
      var init := ReportLines(sales[..|sales| - 1], profits, year, month);
      var s := sales[|sales| - 1];
      if s.year == year && s.month == month then
        var sku := s.body.sku;
        var units := s.body.unitsSold;
        init + [if sku in profits then Matched(sku, units, profits[sku], LineProfit(profits[sku], units)) else Unmatched(sku, units)]
      else init
  }

  /**
   * The report has one line per sales row of the period, in file order, with that row's SKU and
   * units, matched exactly when the SKU has a profit for the period.
   */
  lemma {:induction false} ReportLinesOnePerSale(sales: seq<Row<SalesData>>, profits: map<string, real>, year: string, month: string)
    ensures var lines := ReportLines(sales, profits, year, month);
      var period := RowsIn(sales, year, month);
      |lines| == |period|
      && forall i :: 0 <= i < |lines| ==>
        lines[i].sku == period[i].body.sku && lines[i].units == period[i].body.unitsSold
        && (lines[i].Matched? <==> period[i].body.sku in profits)
  {
    if sales != [] {
      var prev := sales[..|sales| - 1];
      ReportLinesOnePerSale(prev, profits, year, month);
      var lines := ReportLines(sales, profits, year, month);
      var period := RowsIn(sales, year, month);
      var linesBefore := ReportLines(prev, profits, year, month);
      var periodBefore := RowsIn(prev, year, month);
      var s := sales[|sales| - 1];
      assert lines[..|linesBefore|] == linesBefore;
      assert period[..|periodBefore|] == periodBefore;
      if s.year == year && s.month == month {
        assert period[|periodBefore|] == s;
      }
    }
  }

  /** The report's total: the sum of the matched lines' profits; unmatched lines add nothing. */
  function LineProfitSum(lines: seq<ReportLine>): real {
    if lines == [] then 0.0
    else LineProfitSum(lines[..|lines| - 1]) + (if lines[|lines| - 1].Matched? then lines[|lines| - 1].lineProfit else 0.0)
  }

  /** `show_woo_sales_report`: the report lines and the total of the period's matched sales. */
  method ShowWooSalesReport(files: Files, year: string, month: string) returns (lines: seq<ReportLine>, total: real)
    ensures lines == ReportLines(files.wooSales, PeriodProfits(files.wooSku, year, month), year, month)
    ensures total == LineProfitSum(lines)
  {
    var profits := BuildLastWins(files.wooSku, InPeriod(year, month), SkuNameOf, ProfitOf);
    lines, total := ReportFor(files.wooSales, profits, year, month);
  }

  /** The report loop of `show_woo_sales_report` over the sales rows. */
  method ReportFor(sales: seq<Row<SalesData>>, profits: map<string, real>, year: string, month: string)
    returns (lines: seq<ReportLine>, total: real)
    ensures lines == ReportLines(sales, profits, year, month)
    ensures total == LineProfitSum(lines)
  {
    lines, total := [], 0.0;
    for i := 0 to |sales|
      invariant lines == ReportLines(sales[..i], profits, year, month)
      invariant total == LineProfitSum(lines)
    {
      ghost var prefix := sales[..i + 1];
      assert prefix[..|prefix| - 1] == sales[..i] && prefix[|prefix| - 1] == sales[i];
      var s := sales[i];
      if s.year == year && s.month == month {
        var sku := s.body.sku;
        var units := s.body.unitsSold;
        if sku in profits {
          var lineProfit := LineProfit(profits[sku], units);
          total := total + lineProfit;
          lines := lines + [Matched(sku, units, profits[sku], lineProfit)];
        } else {
          lines := lines + [Unmatched(sku, units)];
        }
        assert lines[..|lines| - 1] == ReportLines(sales[..i], profits, year, month);
      }
    }
    assert sales[..|sales|] == sales;
  }

  // ---------------------------------------------------------------------------
  // Category table
  // ---------------------------------------------------------------------------

  /** Some row of the period files `sku` under `category`. */
  ghost predicate Listed(rows: seq<Row<SkuData>>, year: string, month: string, category: string, sku: string) {
    exists i :: 0 <= i < |rows| && rows[i].year == year && rows[i].month == month
      && rows[i].body.category == category && rows[i].body.sku == sku
  }

  ghost predicate NoDuplicates(xs: seq<string>) {
    forall i, j :: 0 <= i < j < |xs| ==> xs[i] != xs[j]
  }

  /** `cat_map`: each of the period's categories with its SKUs, in order of first appearance. */
  function CategoryMap(rows: seq<Row<SkuData>>, year: string, month: string): (m: map<string, seq<string>>)
    ensures forall i :: 0 <= i < |rows| && rows[i].year == year && rows[i].month == month ==>
      rows[i].body.category in m && rows[i].body.sku in m[rows[i].body.category]
    ensures forall c <- m, s <- m[c] :: Listed(rows, year, month, c, s)
    ensures forall c <- m :: NoDuplicates(m[c]) && m[c] != []
  {
    if rows == [] then map[]
    else
      var r := rows[|rows| - 1];
      var m0 := CategoryMap(rows[..|rows| - 1], year, month);
      var m := if r.year == year && r.month == month then AddToCategory(m0, r.body.category, r.body.sku) else m0;
      CategoryMapStep(rows, year, month, m0, m);
      m
  }

  /** `cat_map[cat]` created empty when missing, then `sku` appended unless already listed. */
  function AddToCategory(m: map<string, seq<string>>, cat: string, sku: string): map<string, seq<string>> {
    var skus := if cat in m then m[cat] else [];
    m[cat := if sku in skus then skus else skus + [sku]]
  }

  /** The step of `CategoryMap`: filing the last row keeps the three properties. */
  lemma CategoryMapStep(rows: seq<Row<SkuData>>, year: string, month: string, m0: map<string, seq<string>>, m: map<string, seq<string>>)
    requires rows != []
    requires forall i :: 0 <= i < |rows| - 1 && rows[i].year == year && rows[i].month == month ==>
      rows[i].body.category in m0 && rows[i].body.sku in m0[rows[i].body.category]
    requires forall c <- m0, s <- m0[c] :: Listed(rows[..|rows| - 1], year, month, c, s)
    requires forall c <- m0 :: NoDuplicates(m0[c]) && m0[c] != []
    requires var r := rows[|rows| - 1];
      m == if r.year == year && r.month == month then AddToCategory(m0, r.body.category, r.body.sku) else m0
    ensures forall i :: 0 <= i < |rows| && rows[i].year == year && rows[i].month == month ==>
      rows[i].body.category in m && rows[i].body.sku in m[rows[i].body.category]
    ensures forall c <- m, s <- m[c] :: Listed(rows, year, month, c, s)
    ensures forall c <- m :: NoDuplicates(m[c]) && m[c] != []
  {
    var n := |rows| - 1;
    forall c <- m0, s <- m0[c] ensures Listed(rows, year, month, c, s) {
      var i :| 0 <= i < n && rows[..n][i].year == year && rows[..n][i].month == month
        && rows[..n][i].body.category == c && rows[..n][i].body.sku == s;
      assert rows[i] == rows[..n][i];
    }
    var r := rows[n];
    if r.year == year && r.month == month {
      assert Listed(rows, year, month, r.body.category, r.body.sku) by {
        assert rows[n] == r;
      }
    }
  }

  /** The loop of `refresh_woo_category_table` that fills `cat_map`. */
  method BuildCategoryMap(files: Files, year: string, month: string) returns (catMap: map<string, seq<string>>)
    ensures catMap == CategoryMap(files.wooSku, year, month)
  {
    var data := files.wooSku;
    catMap := map[];
    for i := 0 to |data|
      invariant catMap == CategoryMap(data[..i], year, month)
    {
      assert data[..i + 1][..i] == data[..i];
      var r := data[i];
      if r.year == year && r.month == month {
        var cat, sku := r.body.category, r.body.sku;
        if cat !in catMap {
          catMap := catMap[cat := []];
        }
        if sku !in catMap[cat] {
          catMap := catMap[cat := catMap[cat] + [sku]];
        }
      }
    }
    assert data[..|data|] == data;
  }

  // ---------------------------------------------------------------------------
  // Deleting and moving a SKU from the category table
  // ---------------------------------------------------------------------------

  /** `(r["sku"], r["category"])`: what the category table's delete and move compare, as written. */
  function SkuAndCategory(r: Row<SkuData>): (string, string) {
    (r.body.sku, r.body.category)
  }

  /** The same comparison confined to one period. */
  function PeriodSkuAndCategory(r: Row<SkuData>): (string, string, string, string) {
    (r.month, r.year, r.body.sku, r.body.category)
  }

  /** A prompt answer the delete and move accept: non-blank, and one of the SKUs the selected category row lists. */
  predicate ValidChoice(skuListText: string, chosenSku: string) {
    chosenSku != "" && chosenSku in Tokens(skuListText)
  }

  /**
   * `delete_woo_sku_in_category`, as written: every row of the chosen SKU under the selected
   * category is removed, in whatever period it lies, and the file is rewritten only if a row
   * was removed.
   */
  method DeleteWooSkuInCategory(files: Files, category: string, skuListText: string, chosenSku: string)
    returns (outcome: Outcome)
    modifies files`wooSku, files`written
    ensures !ValidChoice(skuListText, chosenSku) ==> outcome == Cancelled
    ensures ValidChoice(skuListText, chosenSku) ==>
      (outcome == Done <==> Count(old(files.wooSku), SkuAndCategory, (chosenSku, category)) > 0)
      && (outcome == Done || outcome == NothingMatched)
    ensures outcome == Done ==>
      files.wooSku == Without(old(files.wooSku), SkuAndCategory, (chosenSku, category))
      && files.written == old(files.written) + [WooSkuCsv]
    ensures outcome != Done ==> files.wooSku == old(files.wooSku) && files.written == old(files.written)
  {
    if !ValidChoice(skuListText, chosenSku) {
      return Cancelled;
    }
    var kept, removed := DeleteWhere(files.wooSku, SkuAndCategory, (chosenSku, category));
    if removed > 0 {
      files.wooSku := kept;
      files.written := files.written + [WooSkuCsv];
      return Done;
    }
    return NothingMatched;
  }

  /** A SKU row with zero figures, for the examples below. */
  function SampleSku(month: string): Row<SkuData> {
    Row(month, "2024", SkuData("MUG-1", "Mugs", 0.0, 0.0, 0.0, "", 0.0, 0.0, 0.0, 0.0, 0.0))
  }

  /**
   * The delete as written reaches past the period on screen: with January 2024 archived and
   * "MUG-1" filed under "Mugs" in January and February, deleting it from February's category
   * table also removes January's row.
   */
  lemma DeleteReachesArchivedPeriod()
    ensures ArchivedFlag([StatusRow("2024", "1", true)], "2024", "1")
    ensures Without([SampleSku("1"), SampleSku("2")], SkuAndCategory, ("MUG-1", "Mugs")) == []
  {
    var rows := [SampleSku("1"), SampleSku("2")];
    assert Without(rows[..1], SkuAndCategory, ("MUG-1", "Mugs")) == [];
    assert rows[..1] == rows[..|rows| - 1];
  }

  /**
   * The delete confined to the period on screen and refused for an archived period, as every
   * other editing action of the tab is.
   */
  method DeleteWooSkuInPeriod(files: Files, year: string, month: string, category: string, skuListText: string, chosenSku: string)
    returns (outcome: Outcome)
    modifies files`wooSku, files`written
    ensures ArchivedFlag(files.monthStatus, year, month) ==> outcome == RejectedArchived
    ensures !ArchivedFlag(files.monthStatus, year, month) && !ValidChoice(skuListText, chosenSku) ==> outcome == Cancelled
    ensures !ArchivedFlag(files.monthStatus, year, month) && ValidChoice(skuListText, chosenSku) ==>
      (outcome == Done <==> Count(old(files.wooSku), PeriodSkuAndCategory, (month, year, chosenSku, category)) > 0)
      && (outcome == Done || outcome == NothingMatched)
    ensures outcome == Done ==>
      files.wooSku == Without(old(files.wooSku), PeriodSkuAndCategory, (month, year, chosenSku, category))
      && files.written == old(files.written) + [WooSkuCsv]
    ensures outcome != Done ==> files.wooSku == old(files.wooSku) && files.written == old(files.written)
  {
    var archived := IsMonthArchived(files, year, month);
    if archived {
      return RejectedArchived;
    }
    if !ValidChoice(skuListText, chosenSku) {
      return Cancelled;
    }
    var kept, removed := DeleteWhere(files.wooSku, PeriodSkuAndCategory, (month, year, chosenSku, category));
    if removed > 0 {
      files.wooSku := kept;
      files.written := files.written + [WooSkuCsv];
      return Done;
    }
    return NothingMatched;
  }

  /** The confined delete leaves every other period's rows exactly as they were. */
  lemma PeriodDeleteKeepsOtherPeriods(rows: seq<Row<SkuData>>, year: string, month: string,
                                      sku: string, category: string, otherYear: string, otherMonth: string)
    requires (otherYear, otherMonth) != (year, month)
    ensures RowsIn(Without(rows, PeriodSkuAndCategory, (month, year, sku, category)), otherYear, otherMonth)
      == RowsIn(rows, otherYear, otherMonth)
  {
    WithoutKeepsOtherPeriods(rows, PeriodSkuAndCategory, (month, year, sku, category), year, month, otherYear, otherMonth);
  }

  /** A row with its category replaced and every other field kept. */
  function WithCategory(r: Row<SkuData>, category: string): Row<SkuData> {
    r.(body := r.body.(category := category))
  }

  /** Every row whose key is `k` refiled under `newCategory`, in place; other rows as they were. */
  function Recategorized<K(==)>(rows: seq<Row<SkuData>>, key: Row<SkuData> -> K, k: K, newCategory: string): (result: seq<Row<SkuData>>)
    ensures |result| == |rows|
    ensures forall i :: 0 <= i < |rows| && key(rows[i]) == k ==> result[i] == WithCategory(rows[i], newCategory)
    ensures forall i :: 0 <= i < |rows| && key(rows[i]) != k ==> result[i] == rows[i]
  {
    if rows == [] then []
    else
      var last := rows[|rows| - 1];
      Recategorized(rows[..|rows| - 1], key, k, newCategory) + [if key(last) == k then WithCategory(last, newCategory) else last]
  }

  /** The loop of `move_woo_sku_category`: rewrite the category of each matching row in place, counting them. */
  method RecategorizeRows<K(==)>(rows: seq<Row<SkuData>>, key: Row<SkuData> -> K, k: K, newCategory: string)
    returns (result: seq<Row<SkuData>>, changed: nat)
    ensures result == Recategorized(rows, key, k, newCategory)
    ensures changed == Count(rows, key, k)
  {
    result, changed := rows, 0;
    for i := 0 to |rows|
      invariant |result| == |rows|
      invariant forall j :: 0 <= j < i && key(rows[j]) == k ==> result[j] == WithCategory(rows[j], newCategory)
      invariant forall j :: 0 <= j < i && key(rows[j]) != k ==> result[j] == rows[j]
      invariant forall j :: i <= j < |rows| ==> result[j] == rows[j]
      invariant changed == Count(rows[..i], key, k)
    {
      assert rows[..i + 1][..i] == rows[..i];
      if key(result[i]) == k {
        result := result[i := WithCategory(result[i], newCategory)];
        changed := changed + 1;
      }
    }
    assert rows[..|rows|] == rows;
  }

  /**
   * Moving relocates every match: afterwards no row of the SKU is left under the old category,
   * and the new category holds the rows it held plus the moved ones.
   */
  lemma {:induction false} MoveRelocatesAll(rows: seq<Row<SkuData>>, sku: string, oldCategory: string, newCategory: string)
    requires oldCategory != newCategory
    ensures var moved := Recategorized(rows, SkuAndCategory, (sku, oldCategory), newCategory);
      && Count(moved, SkuAndCategory, (sku, oldCategory)) == 0
      && Count(moved, SkuAndCategory, (sku, newCategory))
         == Count(rows, SkuAndCategory, (sku, newCategory)) + Count(rows, SkuAndCategory, (sku, oldCategory))
  {
    if rows != [] {
      var init := rows[..|rows| - 1];
      MoveRelocatesAll(init, sku, oldCategory, newCategory);
      var moved := Recategorized(rows, SkuAndCategory, (sku, oldCategory), newCategory);
      assert moved[..|moved| - 1] == Recategorized(init, SkuAndCategory, (sku, oldCategory), newCategory);
    }
  }

  /**
   * `move_woo_sku_category`, as written: every row of the chosen SKU under the selected
   * category is refiled under the new one, in whatever period it lies; the file is rewritten
   * only if a row changed.
   */
  method MoveWooSkuCategory(files: Files, oldCategory: string, skuListText: string, chosenSku: string, newCategory: string)
    returns (outcome: Outcome)
    modifies files`wooSku, files`written
    ensures !ValidChoice(skuListText, chosenSku) || newCategory == "" ==> outcome == Cancelled
    ensures ValidChoice(skuListText, chosenSku) && newCategory != "" ==>
      (outcome == Done <==> Count(old(files.wooSku), SkuAndCategory, (chosenSku, oldCategory)) > 0)
      && (outcome == Done || outcome == NothingMatched)
    ensures outcome == Done ==>
      files.wooSku == Recategorized(old(files.wooSku), SkuAndCategory, (chosenSku, oldCategory), newCategory)
      && files.written == old(files.written) + [WooSkuCsv]
    ensures outcome != Done ==> files.wooSku == old(files.wooSku) && files.written == old(files.written)
  {
    if !ValidChoice(skuListText, chosenSku) || newCategory == "" {
      return Cancelled;
    }
    var data, changed := RecategorizeRows(files.wooSku, SkuAndCategory, (chosenSku, oldCategory), newCategory);
    if changed > 0 {
      files.wooSku := data;
      files.written := files.written + [WooSkuCsv];
      return Done;
    }
    return NothingMatched;
  }

  /** The move as written refiles January's row of an archived January when February's table asks for it. */
  lemma MoveReachesArchivedPeriod()
    ensures ArchivedFlag([StatusRow("2024", "1", true)], "2024", "1")
    ensures Recategorized([SampleSku("1"), SampleSku("2")], SkuAndCategory, ("MUG-1", "Mugs"), "Cups")[0]
      == WithCategory(SampleSku("1"), "Cups")
  {
  }

  /** The move confined to the period on screen and refused for an archived period. */
  method MoveWooSkuInPeriod(files: Files, year: string, month: string, oldCategory: string, skuListText: string,
                            chosenSku: string, newCategory: string)
    returns (outcome: Outcome)
    modifies files`wooSku, files`written
    ensures ArchivedFlag(files.monthStatus, year, month) ==> outcome == RejectedArchived
    ensures !ArchivedFlag(files.monthStatus, year, month) && (!ValidChoice(skuListText, chosenSku) || newCategory == "") ==>
      outcome == Cancelled
    ensures !ArchivedFlag(files.monthStatus, year, month) && ValidChoice(skuListText, chosenSku) && newCategory != "" ==>
      (outcome == Done <==> Count(old(files.wooSku), PeriodSkuAndCategory, (month, year, chosenSku, oldCategory)) > 0)
      && (outcome == Done || outcome == NothingMatched)
    ensures outcome == Done ==>
      files.wooSku == Recategorized(old(files.wooSku), PeriodSkuAndCategory, (month, year, chosenSku, oldCategory), newCategory)
      && files.written == old(files.written) + [WooSkuCsv]
    ensures outcome != Done ==> files.wooSku == old(files.wooSku) && files.written == old(files.written)
  {
    var archived := IsMonthArchived(files, year, month);
    if archived {
      return RejectedArchived;
    }
    if !ValidChoice(skuListText, chosenSku) || newCategory == "" {
      return Cancelled;
    }
    var data, changed := RecategorizeRows(files.wooSku, PeriodSkuAndCategory, (month, year, chosenSku, oldCategory), newCategory);
    if changed > 0 {
      files.wooSku := data;
      files.written := files.written + [WooSkuCsv];
      return Done;
    }
    return NothingMatched;
  }

  /** The confined move leaves every other period's rows exactly as they were. */
  lemma PeriodMoveKeepsOtherPeriods(rows: seq<Row<SkuData>>, year: string, month: string, sku: string,
                                    oldCategory: string, newCategory: string, otherYear: string, otherMonth: string)
    requires (otherYear, otherMonth) != (year, month)
    ensures RowsIn(Recategorized(rows, PeriodSkuAndCategory, (month, year, sku, oldCategory), newCategory), otherYear, otherMonth)
      == RowsIn(rows, otherYear, otherMonth)
  {
    var moved := Recategorized(rows, PeriodSkuAndCategory, (month, year, sku, oldCategory), newCategory);
    SameOutsideSameRowsIn(moved, rows, otherYear, otherMonth);
  }

  // ---------------------------------------------------------------------------
  // Carry-over
  // ---------------------------------------------------------------------------

  /**
   * `_carry_over_callback`: refused for an archived target period; otherwise the SKU rows of the
   * previous month are carried over by SKU, and the file is rewritten only if a row was appended.
   */
  method WooCarryOver(files: Files, year: string, month: string) returns (outcome: Outcome)
    modifies files`wooSku, files`written
    ensures ArchivedFlag(files.monthStatus, year, month) ==> outcome == RejectedArchived
    ensures !ArchivedFlag(files.monthStatus, year, month) && PreviousPeriodText(year, month).None? ==> outcome == InvalidPeriod
    ensures !ArchivedFlag(files.monthStatus, year, month) && PreviousPeriodText(year, month).Some? ==> outcome == Done
    ensures outcome == Done ==>
      files.wooSku == CarryOverRows(old(files.wooSku), year, month, SkuName)
      && files.written == old(files.written) + (if |files.wooSku| > |old(files.wooSku)| then [WooSkuCsv] else [])
    ensures outcome != Done ==> files.wooSku == old(files.wooSku) && files.written == old(files.written)
  {
    var archived := IsMonthArchived(files, year, month);
    if archived {
      return RejectedArchived;
    }
    if PreviousPeriodText(year, month).None? {
      return InvalidPeriod;
    }
    var data, appendedAny := CarryOver(files.wooSku, year, month, SkuName);
    if appendedAny {
      files.wooSku := data;
      files.written := files.written + [WooSkuCsv];
    }
    return Done;
  }
}

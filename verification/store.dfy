/**
 * The record store: one delimited-text file per entity, each read whole into a list of rows
 * and written back whole. Rows are typed; a numeric field holds the number its text denotes
 * (`Round2(x)` for the fields the source writes with two decimals).
 */
module Store {

  /** One row of a per-period file: the period it belongs to, and the entity's own fields. */
  datatype Row<D> = Row(month: string, year: string, body: D)

  /** A SKU entry of `woo_sku.csv` / `ebay_sku.csv`; the composite key is (month, year, sku). */
  datatype SkuData = SkuData(
    sku: string,
    category: string,
    soldPriceAfterVat: real,
    soldPriceBeforeVat: real,
    costOfItem: real,
    packaging: string,
    transactionFee: real,
    delivery: real,
    totalExpenses: real,
    profitMargin: real,
    profit: real)

  /** A sales entry of `woo_sales.csv` / `ebay_sales.csv`; the key is (month, year, sku). */
  datatype SalesData = SalesData(sku: string, unitsSold: int)

  /** A cost entry of `costs_data.csv`; the key is (month, year, cost_name). */
  datatype CostData = CostData(costName: string, costValue: real)

  /** A B2B entry of `b2b_data.csv`; the key is (month, year, business_name). */
  datatype B2BData = B2BData(businessName: string, expense: real, profit: real)

  /** A row of `month_status.csv`; the key is (year, month), the flag is the text `str(bool)` wrote. */
  datatype StatusData = StatusData(archived: string)

  datatype CsvFile =
    | EbaySkuCsv | EbaySalesCsv | WooSkuCsv | WooSalesCsv | B2BCsv | CostsCsv | MonthStatusCsv

  /** What a user action reports back. */
  datatype Outcome =
    | Done              // the action ran (it may still have found nothing to change)
    | RejectedArchived  // the period is archived
    | RejectedEmptyName // the identifying field was blank
    | NothingMatched    // a delete or move found no row
    | Cancelled         // the user gave no usable choice in a prompt
    | InvalidPeriod     // the year or month text is not a whole number

  /** The filter `r["year"] == year and r["month"] == month`. */
  function InPeriod<D>(year: string, month: string): Row<D> -> bool {
    (r: Row<D>) => r.year == year && r.month == month
  }

  /** Composite keys, as the source compares them. */
  function SkuKey(r: Row<SkuData>): (string, string, string) {
    (r.month, r.year, r.body.sku)
  }

  function SalesKey(r: Row<SalesData>): (string, string, string) {
    (r.month, r.year, r.body.sku)
  }

  function CostKey(r: Row<CostData>): (string, string, string) {
    (r.month, r.year, r.body.costName)
  }

  function B2BKey(r: Row<B2BData>): (string, string, string) {
    (r.month, r.year, r.body.businessName)
  }

  function StatusKey(r: Row<StatusData>): (string, string) {
    (r.year, r.month)
  }

  /** Secondary keys that carry-over compares within a period (`key_fields=["sku"]`, `["cost_name"]`). */
  function SkuName(d: SkuData): string {
    d.sku
  }

  function CostName(d: CostData): string {
    d.costName
  }

  /** The files on disk. `written` logs every whole-file rewrite, oldest first. */
  class Files {
    var ebaySku: seq<Row<SkuData>>
    var ebaySales: seq<Row<SalesData>>
    var wooSku: seq<Row<SkuData>>
    var wooSales: seq<Row<SalesData>>
    var b2b: seq<Row<B2BData>>
    var costs: seq<Row<CostData>>
    var monthStatus: seq<Row<StatusData>>
    var written: seq<CsvFile>

    /** Every file holds its header line only. */
    constructor ()
      ensures ebaySku == [] && ebaySales == [] && wooSku == [] && wooSales == []
      ensures b2b == [] && costs == [] && monthStatus == [] && written == []
    {
      ebaySku, ebaySales, wooSku, wooSales := [], [], [], [];
      b2b, costs, monthStatus, written := [], [], [], [];
    }
  }
}

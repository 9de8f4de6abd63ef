# Profit margins: a Dafny model of the bookkeeping core

The application is a desktop bookkeeping tool for a small online shop. It keeps one CSV file
per entity: eBay and WooCommerce SKUs, their monthly sales, B2B records, packaging and overhead
costs, and the archived status of each month. Every row belongs to a period given as
(`month`, `year`) text. Each tab reads a whole file, changes the rows in memory and writes the
whole file back. A month marked "archived" can no longer be edited.

This project models the logic behind the tabs' buttons:

- `Text` models the string handling of the source: `strip`, `split(",")`, `splitlines`, `int()`, `float()` and `str(int)`.
- `Money` models rounding to pence (`round(x, 2)`, `f"{x:.2f}"`).
- `Store` holds the typed rows, the composite keys and the `Files` class. `Files` holds every CSV file as a sequence of rows, plus a log of whole-file rewrites.
- `Rows` holds the generic row operations:
  - upsert by key: replace the first match, or else append;
  - delete by key;
  - a dictionary built by assigning in a loop, where the last row wins.
- `MonthStatus` models `month_status.py`: the archived flag, marking a month, and the previous period.
- `DataUtils` models `data_utils.py`: packaging prices, the packaging-cost parser, and copying rows over from the previous month.
- `WooTab` models the WooCommerce tab:
  - valuing and saving a SKU;
  - bulk sales entry and the sales report;
  - the category table;
  - deleting a SKU and moving it to another category;
  - copying the SKU list over from the previous month.
- `CostsTab` and `B2BTab` model the costs tab and the B2B tab.
- `SummaryTab` models the summary: per-period profit and expense from both channels and B2B, the month and year summaries, and the chart series.

Money is modelled as exact `real` numbers. A numeric CSV field holds the number its text
denotes. For a field the source writes with two decimals, that number is `Round2(x)`.

## Model

| member | source | states |
|---|---|---|
| Text.TrimLeftMeaning | data_utils.py:69 | left-stripping keeps a suffix of the text and drops a prefix made only of whitespace; the kept part starts with a non-space, and is empty exactly when the text is all whitespace |
| Text.TrimRightMeaning | data_utils.py:69 | right-stripping keeps a prefix of the text and drops a suffix made only of whitespace; the kept part ends with a non-space, and is empty exactly when the text is all whitespace |
| Text.StripMeaning | data_utils.py:66-69 | `strip()` keeps one contiguous piece of the input and drops only whitespace before and after it; the piece has no whitespace at either end, and is empty exactly for blank input |
| Text.StripOfStripped | data_utils.py:69 | text with no whitespace at either end is returned unchanged by `strip()` |
| Text.TrimLeft | data_utils.py:69 | `lstrip()`: what it keeps and drops is stated by `Text.TrimLeftMeaning` |
| Text.TrimRight | data_utils.py:69 | `rstrip()`: what it keeps and drops is stated by `Text.TrimRightMeaning` |
| Text.Strip | data_utils.py:66-69 | `strip()`: the contiguous piece it keeps is stated by `Text.StripMeaning` |
| Text.Split | data_utils.py:69 | `split(",")` gives at least one piece, and no piece contains the separator |
| Text.JoinSplit | data_utils.py:69 | joining the pieces with the separator gives back the original text |
| Text.SplitWithoutSeparator | data_utils.py:69 | text without the separator splits into itself alone |
| Text.SplitConcat | data_utils.py:69 | text `a + "," + b` with no comma in `a` splits into `a` followed by the pieces of `b` |
| Text.SplitLines | woo_tab.py:450-451 | `splitlines()` of empty text has no lines, of non-empty text at least one, and no line holds a newline |
| Text.SplitTrailingSeparator | woo_tab.py:450-451 | text ending in the separator splits into at least two pieces, the last one empty |
| Text.JoinSnocEmpty | woo_tab.py:450-451 | one more empty piece adds one separator to the joined text |
| Text.SplitLinesJoin | woo_tab.py:450-451 | joining the lines with newlines gives the text back, less a final newline that `splitlines()` drops |
| Text.NatToString | summary_tab.py:152-153 | `str(m)` of a natural number is a non-empty digit string whose value is that number, with no leading zero unless it is "0" |
| Text.ParseIntOfIntToString | month_status.py:34-41 | `int(str(n)) == n` for every integer, so the previous period's text parses back |
| Text.ParseInt | month_status.py:36-37 | `int()` on stripped text, an optional sign and ASCII digits; that it reads back `str(n)` is `Text.ParseIntOfIntToString` |
| Text.IntOf | month_status.py:36-37 | `int(text)` ignores surrounding whitespace; `Text.IntOfIntToString` states it reads back `str(n)` |
| Text.IntOfIntToString | month_status.py:34-41 | `int(str(n)) == n` including `int`'s own stripping |
| Text.ParseReal | woo_tab.py:343-372 | `float()` on stripped text in plain decimal notation; `Text.ParseRealOfDigits` states a digit string reads as its value |
| Text.NoPointInDigits | woo_tab.py:343-372 | a digit string has no decimal point |
| Text.ParseRealOfDigits | woo_tab.py:343-372 | `float()` of a run of digits is the number they denote |
| Text.RealOrZero | woo_tab.py:343-372 | `float(field.strip())` with 0.0 on `ValueError`; its meaning is stated by `Text.OrZeroMeaning` |
| Text.IntOrZero | woo_tab.py:461-464 | `int(line.strip())` with 0 on `ValueError`; its meaning is stated by `Text.OrZeroMeaning` |
| Text.OrZeroMeaning | woo_tab.py:343-372 | the fallback parsers read `str(n)` back as `n`, and read blank text as 0 |
| Money.RoundCents | woo_tab.py:374 | the rounded pence are within half a penny of the exact amount |
| Money.Round2 | woo_tab.py:374 | rounding to two decimals moves a value by at most half a penny |
| Money.Round2OfWholePence | woo_tab.py:405-413 | a whole number of pence is left unchanged by rounding |
| Money.Round2Idempotent | woo_tab.py:405-413 | rounding an amount already rounded to pence changes nothing |
| Store.Files.constructor | data_utils.py:15-21 | a fresh store has every file empty and nothing written |
| Rows.FirstMatch | costs_tab.py:169-174 | the scan that breaks at the first row with the key finds that row's index, and finds none exactly when no row has the key |
| Rows.FirstMatchPrefix | month_status.py:13-15 | rows appended after a match do not change the first match |
| Rows.Upsert | costs_tab.py:169-182 | update the first row with the key, else append; its effect is stated by `Rows.UpsertFrame` and `Rows.UpsertLookup` |
| Rows.UpsertFrame | costs_tab.py:169-182 | an upsert grows the list by one exactly when no row has the key, appends the new row then, changes at most the matching row, and always stores the new row |
| Rows.UpsertLookup | costs_tab.py:169-182 | after an upsert, the first row with the new row's key is the new row, and the first match of every other key is unchanged |
| Rows.SameKeysSameFirstMatch | costs_tab.py:169-174 | two lists whose rows agree on having the key have the same first match |
| Rows.FirstMatchOfLongerWithoutMatch | costs_tab.py:175-182 | appending a row with another key leaves the first match unchanged |
| Rows.UpsertIdempotent | costs_tab.py:169-182 | saving the same row twice equals saving it once |
| Rows.UpsertKeepsKeysUnique | costs_tab.py:169-182 | an upsert keeps a file whose keys are unique free of duplicate keys |
| Rows.UpsertRows | costs_tab.py:169-182 | the in-place loop (update the first match, else append) computes `Upsert` |
| Rows.Count | costs_tab.py:246-249 | the number of rows removed is at most the list length, and zero exactly when no row has the key |
| Rows.Without | costs_tab.py:245-251 | the kept rows are exactly the rows without the key, and kept plus removed equals the original length |
| Rows.WithoutConcat | costs_tab.py:245-251 | the delete filter distributes over concatenation |
| Rows.WithoutNothing | costs_tab.py:253 | when no row matches, the filter returns the rows unchanged |
| Rows.DeleteWhere | costs_tab.py:244-251 | the filtering loop computes `Without`, and its counter is `Count` |
| Rows.Lookup | costs_tab.py:169-174 | a found row is a row of the list that has the key, with no row of that key before it; none is found exactly when no row has the key |
| Rows.LastWithKey | woo_tab.py:457-480 | the last entry with a key has that key, and none is found exactly when no entry has it |
| Rows.LastWithKeySnoc | woo_tab.py:457-480 | one more entry is the last with its key, and leaves the last entry of every other key unchanged |
| Rows.LastWithKeyIsLast | woo_tab.py:457-480 | what is found is an entry of the batch with no entry of that key after it |
| Rows.LookupAfterUpsert | woo_tab.py:466-479 | after an upsert, looking up the saved key gives the saved row, and every other key gives what it gave before |
| Rows.UpsertAllLookup | woo_tab.py:457-480 | after upserting a batch in order, a key finds the last batch entry with that key, or else its old row |
| Rows.UpsertAll | woo_tab.py:457-480 | a batch of upserts in order; its lookups are stated by `Rows.UpsertAllLookup` |
| Rows.UpsertAllSnoc | woo_tab.py:457-480 | one more upsert after a batch is the batch extended by that row |
| Rows.LastWins | woo_tab.py:493-501 | a dictionary filled by assignment in a loop holds every selected key, only selected keys, and for each key the value of the last selected row with it |
| Rows.LastWinsAgree | summary_tab.py:100-106 | two such dictionaries that select the same rows under corresponding keys hold the same value |
| Rows.BuildLastWins | woo_tab.py:493-501 | the dictionary-filling loop computes `LastWins` |
| MonthStatus.PreviousMonthYear | month_status.py:34-41 | the previous month differs from the given one, and for months 1-12 it is the month just before, wrapping January to December of the year before |
| MonthStatus.PreviousPeriodText | month_status.py:34-41 | the previous period exists exactly when year and month parse as integers, and its month text differs from the given month |
| MonthStatus.ArchivedFlag | month_status.py:10-16 | a month is archived exactly when its first status row reads "True"; a month with no row is not archived |
| MonthStatus.ArchivedFlagIgnoresLaterRows | month_status.py:13-15 | once a month has a status row, rows appended later do not change its flag |
| MonthStatus.IsMonthArchived | month_status.py:10-16 | the scan returns the archived flag of the first matching row |
| MonthStatus.SetMonthArchived | month_status.py:19-31 | the status file is upserted with the month's new flag and rewritten |
| MonthStatus.SetThenIsArchived | month_status.py:19-31 | after setting a month's flag, reading it back gives the flag that was set |
| MonthStatus.SetLeavesOtherPeriods | month_status.py:19-31 | setting a month's flag leaves every other month's flag unchanged |
| DataUtils.PackagingCost | data_utils.py:40-53 | every price is between 0 and 0.60; a known packaging type has a positive price, and an unknown one costs 0 |
| DataUtils.Clean | data_utils.py:69 | stripping the pieces and dropping blank ones leaves only non-blank tokens without surrounding whitespace, and adds no commas; `DataUtils.CleanConcat` and `DataUtils.TokensOfOnePiece` state which tokens |
| DataUtils.Tokens | data_utils.py:69 | the packaging tokens are non-blank, stripped and comma-free; which tokens they are is stated by `DataUtils.TokensOfOnePiece` and `DataUtils.TokensSplitAtComma` |
| DataUtils.CleanConcat | data_utils.py:69 | cleaning works piece by piece: the tokens of two runs of pieces are those of each run, in order |
| DataUtils.TokensOfOnePiece | data_utils.py:69 | text without a comma gives its stripped self as its only token, or no token when blank |
| DataUtils.TokensSplitAtComma | data_utils.py:69 | the tokens of `a,rest` are those of `a` followed by those of `rest` |
| DataUtils.TokenValue | data_utils.py:71-81 | one token adds its number, else its cost for the month, else 0; `DataUtils.PackagingSumSplitsAtComma` states the total in these terms |
| DataUtils.PackagingSum | data_utils.py:70-82 | the tokens' contributions added in order; `DataUtils.PackagingSumConcat` states it adds up over concatenation |
| DataUtils.BlankHasNoTokens | data_utils.py:66-69 | blank packaging text has no tokens |
| DataUtils.PackagingSumConcat | data_utils.py:70-82 | the packaging total of two token lists is the sum of their totals |
| DataUtils.PackagingSumSplitsAtComma | data_utils.py:69-82 | the total of `a,rest` is the value of `a` plus the total of `rest` |
| DataUtils.ParsePackagingInput | data_utils.py:56-82 | the total adds each token's number, or else its cost from the month's cost table, or else 0; blank text costs 0 |
| DataUtils.SumTokens | data_utils.py:70-82 | the token loop adds each number, or else the known cost of the name, or else 0, giving `PackagingSum` |
| DataUtils.RowsIn | data_utils.py:94-96 | the rows of a period are exactly the rows of the file stamped with that year and month |
| DataUtils.KeysOf | data_utils.py:99-102 | the key set holds exactly the keys of the given rows |
| DataUtils.Carried | data_utils.py:105-115 | each copied row is a previous-period row restamped with the target period, with a key not already present, and every such previous row is copied |
| DataUtils.CarryOverRows | data_utils.py:85-119 | carry-over keeps the existing rows as a prefix, and appends only target-period copies of previous-period rows whose key the target lacked |
| DataUtils.RowsInConcat | data_utils.py:94-96 | the period filter distributes over concatenation |
| DataUtils.WithoutKeepsOtherPeriods | costs_tab.py:244-251 | deleting a key that pins one period leaves every other period's rows unchanged |
| DataUtils.RowsInOfOtherMonth | data_utils.py:94-96 | rows of another month contribute nothing to a period |
| DataUtils.RowsInOfSamePeriod | data_utils.py:94-96 | rows that all belong to a period are kept whole by its filter |
| DataUtils.KeysOfConcat | data_utils.py:99-102 | the key set of a concatenation is the union of the key sets |
| DataUtils.CarryOverCoversPrevious | data_utils.py:105-118 | after carry-over, every key of the previous period is present in the target period |
| DataUtils.CarryOverKeepsPrevious | data_utils.py:117-118 | carry-over leaves the previous period's rows unchanged |
| DataUtils.CarriedNothingWhenCovered | data_utils.py:105-115 | when the target already has every previous key, nothing is copied |
| DataUtils.CarryOverIdempotent | data_utils.py:85-119 | carrying over a second time changes nothing |
| DataUtils.CollectKeys | data_utils.py:99-102 | the key-collecting loop computes `KeysOf` |
| DataUtils.CopyMissing | data_utils.py:105-115 | the copying loop computes `Carried` |
| DataUtils.CarryOver | data_utils.py:85-119 | carry-over computes `CarryOverRows` and reports "appended any" exactly when the file grew |
| WooTab.BeforeVat | woo_tab.py:374 | the price before 20% VAT is 0 for a zero price, otherwise within 0.006 of `after_vat / 1.2` once multiplied back, and already rounded to pence |
| WooTab.Valuate | woo_tab.py:367-385 | the SKU formula; what each figure means is stated by `WooTab.ValuateMeaning` |
| WooTab.CostMapFor | woo_tab.py:376-380 | the period's cost names with the value of their last row; stated by `Rows.LastWins` |
| WooTab.ValuateMeaning | woo_tab.py:367-385 | the fee is percent of the VAT price plus the flat fee; total expenses are item + fee + packaging + delivery; profit + expenses = price before VAT; the margin is profit over price in percent, or 0 when the price is 0 |
| WooTab.ValuateCostShift | woo_tab.py:383-384 | a higher item cost lowers profit by exactly the difference and leaves the price before VAT alone |
| WooTab.MarginZeroIffBreakEven | woo_tab.py:385 | for a nonzero price, the margin is 0 exactly when the profit is 0 |
| WooTab.NoExpensesFullMargin | woo_tab.py:383-385 | with no expenses, the margin is 100% |
| WooTab.NewSkuRow | woo_tab.py:403-433 | the saved row is keyed by (month, year, stripped SKU), stores the price before VAT, and its stored profit and expenses add up to that price within a penny |
| WooTab.AddWooSku | woo_tab.py:330-437 | an archived month or a blank SKU is rejected with no write; otherwise the SKU file is upserted with the valued row and rewritten |
| WooTab.SalesEntries | woo_tab.py:457-480 | there are at most as many entries as line pairs |
| WooTab.SalesEntriesMeaning | woo_tab.py:457-480 | the entries are exactly those of the line pairs with a non-blank SKU: each entry is the chosen period's row of some such pair's stripped SKU and its units (0 when they do not parse), and each such pair gives its entry |
| WooTab.SalesEntriesLastLine | woo_tab.py:457-480 | among a paste's entries, the last with a SKU is that of the last line pair naming the SKU |
| WooTab.LastPastedLineWins | woo_tab.py:457-480 | after a paste, the period's row of a pasted SKU holds the units of the last line naming it |
| WooTab.PasteKeepsOtherKeys | woo_tab.py:457-480 | a paste leaves the rows of other periods, and of SKUs no pasted line names, as they were |
| WooTab.UpsertSalesLines | woo_tab.py:457-480 | the paste loop upserts the entries in order, and counts one per non-blank SKU line |
| WooTab.AddWooSalesMass | woo_tab.py:442-483 | an archived month changes nothing; otherwise the sales file becomes the ordered upsert of the entries and is rewritten |
| WooTab.ReportLines | woo_tab.py:503-523 | there are at most as many lines as sales; a matched line's SKU has a profit, its per-item profit is that profit, and its line profit is per-item profit times units; an unmatched line's SKU has no SKU row |
| WooTab.ReportLinesOnePerSale | woo_tab.py:503-523 | there is exactly one line per sales row of the period, in file order, with that row's SKU and units, matched exactly when the SKU has a profit for the period |
| WooTab.ShowWooSalesReport | woo_tab.py:485-526 | the report lists the period's sales against the period's profit table, and its total is the sum of the matched line profits |
| WooTab.ReportFor | woo_tab.py:503-523 | the report loop computes `ReportLines`, and its running total is their `LineProfitSum` |
| WooTab.PeriodProfits | woo_tab.py:493-501 | the period's SKUs with the profit of their last row; stated by `Rows.LastWins` |
| WooTab.CategoryMap | woo_tab.py:578-586 | every row of the period appears under its category; every listed SKU has a row in that category; no category is empty or lists a SKU twice |
| WooTab.BuildCategoryMap | woo_tab.py:578-586 | the category-table loop computes `CategoryMap` |
| WooTab.DeleteWooSkuInCategory | woo_tab.py:679-724 | as written: a valid choice removes every row with that SKU and category, in every period, and the file is rewritten only when something was removed |
| WooTab.DeleteReachesArchivedPeriod | woo_tab.py:703-711 | as written: a delete chosen from February's table also removes the row of archived January |
| WooTab.DeleteWooSkuInPeriod | woo_tab.py:679-724 | corrected: an archived month is rejected, and the delete is confined to the chosen period |
| WooTab.PeriodDeleteKeepsOtherPeriods | woo_tab.py:703-711 | corrected: the period-confined delete leaves every other period's rows unchanged |
| WooTab.Recategorized | woo_tab.py:755-758 | the matching rows get the new category, and every other row is unchanged |
| WooTab.RecategorizeRows | woo_tab.py:753-758 | the in-place loop computes `Recategorized`, and counts the matching rows |
| WooTab.MoveRelocatesAll | woo_tab.py:753-758 | after a move, no row has the SKU under the old category, and the SKU's row count under the new category grows by exactly the number of rows it had under the old one |
| WooTab.MoveWooSkuCategory | woo_tab.py:726-771 | as written: a valid choice and non-empty new category relabel that SKU and category in every period, and the file is rewritten only when a row changed |
| WooTab.MoveReachesArchivedPeriod | woo_tab.py:753-758 | as written: a move chosen from February's table also relabels the row of archived January |
| WooTab.MoveWooSkuInPeriod | woo_tab.py:726-771 | corrected: an archived month is rejected, and the move is confined to the chosen period |
| WooTab.PeriodMoveKeepsOtherPeriods | woo_tab.py:753-758 | corrected: the period-confined move leaves every other period's rows unchanged |
| WooTab.WooCarryOver | woo_tab.py:267-294 | an archived month or an unparseable period changes nothing; otherwise SKUs are carried over by SKU name, and the file is rewritten only when rows were added |
| CostsTab.CostRow | costs_tab.py:157-164 | the saved cost is keyed by (month, year, stripped name), and its value is the parsed number, or 0 |
| CostsTab.AddCostRecord | costs_tab.py:149-186 | an archived month or a blank name is rejected with no write; otherwise the costs file is upserted and rewritten |
| CostsTab.SavedCostIsPriced | costs_tab.py:169-182 | in a costs file with unique keys, after saving a cost, the month's cost table (as packaging parsing sees it) gives the saved value |
| CostsTab.DeleteSelectedCost | costs_tab.py:227-259 | an archived month is rejected, no selection cancels, and otherwise the period's rows with that name are removed, with a rewrite only when one was |
| CostsTab.CostDeleteKeepsOtherPeriods | costs_tab.py:244-251 | deleting a cost leaves every other period's costs unchanged |
| CostsTab.CostsCarryOver | costs_tab.py:123-144 | an archived month or an unparseable period changes nothing; otherwise costs are carried over by cost name |
| B2BTab.B2BRow | b2b_tab.py:97-108 | the saved record is keyed by (month, year, stripped name), and its expense and profit are the parsed numbers, or 0 |
| B2BTab.AddB2BRecord | b2b_tab.py:89-132 | an archived month or a blank name is rejected with no write; otherwise the B2B file is upserted and rewritten |
| SummaryTab.Bumped | summary_tab.py:167-172 | adding to a period creates it at zero if absent, grows its profit and expense by the deltas, and leaves every other period alone |
| SummaryTab.MonthlyAggregates.constructor | summary_tab.py:71 | the aggregates start empty |
| SummaryTab.MonthlyAggregates.AddMonthlyValues | summary_tab.py:167-172 | the dictionary update is `Bumped` |
| SummaryTab.WithSalesClosedForm | summary_tab.py:86-95 | a channel's sales add exactly the sum of per-item profit times units of its matched sales to each period's profit, and nothing to its expense |
| SummaryTab.WithB2BClosedForm | summary_tab.py:120-131 | B2B rows add their profit and expense to their own period, unscaled |
| SummaryTab.WithSales | summary_tab.py:86-95 | the sales fold; its result is stated by `SummaryTab.WithSalesClosedForm` |
| SummaryTab.WithB2B | summary_tab.py:120-131 | the B2B fold; its result is stated by `SummaryTab.WithB2BClosedForm` |
| SummaryTab.Aggregates | summary_tab.py:73-131 | the aggregates of all five files; stated by `SummaryTab.SummaryClosedForm` |
| SummaryTab.SummaryClosedForm | summary_tab.py:73-131 | a period's profit is eBay plus WooCommerce matched sales profit plus B2B profit, and its expense is the B2B expense alone |
| SummaryTab.WooReportMatchesSummary | summary_tab.py:100-117 | the WooCommerce report's total for a period equals that channel's share of the period's profit in the summary |
| SummaryTab.SummaryOf | summary_tab.py:136-159 | a chosen month shows "No data" exactly when it has no entry, else its totals; "All" shows the year's sums over months "1"-"12"; realized profit is profit minus expenses |
| SummaryTab.YearTotalsIgnoresOtherKeys | summary_tab.py:152-156 | entries of other years, or with month text other than "1"-"12" (such as "01"), do not change the year's sums |
| SummaryTab.YearTotals | summary_tab.py:150-156 | the year's sums over months "1"-"12"; used by `SummaryTab.SummaryOf`, and `SummaryTab.YearTotalsIgnoresOtherKeys` states which entries it reads |
| SummaryTab.AccumulateSales | summary_tab.py:86-95 | the sales loop adds each matched sale to the aggregates as `WithSales` |
| SummaryTab.AccumulateB2B | summary_tab.py:121-131 | the B2B loop adds each row to the aggregates as `WithB2B` |
| SummaryTab.SumYear | summary_tab.py:150-156 | the year loop sums profit and expense over months "1"-"12" |
| SummaryTab.GenerateMonthlySummary | summary_tab.py:65-165 | the aggregates are those of all five files, and the summary is `SummaryOf` them |
| SummaryTab.Summarize | summary_tab.py:136-159 | the reporting branch computes `SummaryOf` |
| SummaryTab.ChartSeries | summary_tab.py:174-198 | the chart has twelve monthly expenses and profits (0 for a missing month), and its year total equals the year summary's realized profit |

## Left out

- CSV text layer: reading and writing CSV files (`csv.DictReader`/`DictWriter`, `ensure_csv_headers`, `append_csv_dict`) becomes the `Files` sequences plus a log of rewritten files.
- Numeric fields: a numeric field is held as the number it denotes. The fallbacks that turn an unreadable number in a hand-edited file into 0 (for example when the summary reads `profit`) therefore do not arise. The case where a bad `cost_value` makes the WooCommerce save raise is also not modelled.
- Text.ParseReal: accepts a sign, digits and an optional fraction. Python's `float()` also accepts exponents, `inf`, `nan` and underscores, which fall outside this model.
- Text.SplitLines: splits on `'\n'` only. Python's `splitlines()` also splits on `\r`, `\v`, `\f` and other Unicode line breaks.
- Text.ParseInt: accepts an optional sign and ASCII digits only. Python's `int()` also accepts underscores between digits and non-ASCII digits, so `Text.IntOrZero("1_000")` is 0 where Python reads 1000.
- Text.Strip: strips space and `\t` to `\r` only. Python's `str.strip()` also strips `\x1c`-`\x1f` and Unicode whitespace.
- Floating point: money is exact `real`, not IEEE double. The penny-rounding bounds are stated for exact arithmetic, and binary representation effects are not modelled.
- Text formats: `str(float)` text, such as exponent forms for very large or small values, is not modelled.
- GUI: widgets, message boxes, tables and charts are left out. Dialog answers become parameters: the chosen SKU, the new category, and the selected cost as an `Option`. The sorting and joining that build the displayed lists are left out.
- Invalid periods: a year or month that is not a whole number makes the carry-over raise inside `get_previous_month_year`. The model returns `InvalidPeriod` and changes nothing.
- Archiving: `_mark_month_done_callback` in the WooCommerce and costs tabs is `MonthStatus.SetMonthArchived` with the flag `true`. It is not modelled separately.
- DataUtils.PackagingCost: modelled with its price table, but no core operation calls it.
- `ebay_tab.py` is a placeholder and is not part of this model. The eBay files are modelled only as the summary reads them.
- `app.py` and `monthly profit.py` (window setup and an older single-file version) are not part of this model.
- Imports: `costs_tab.py:7-8` and `b2b_tab.py:6-7` import `.data_utils` and `.month_status` relatively at module level. The WooCommerce callbacks do the same at `woo_tab.py:263` (mark month done) and `woo_tab.py:277` (carry-over). Meanwhile `app.py:2-3`, `app.py:14-18`, `month_status.py:1`, `woo_tab.py:7-14` and `summary_tab.py:8-9` import everything as top-level modules. Read that way, no layout of the files as written resolves all these imports: loaded as top-level modules, the relative ones raise `ImportError`. The costs and B2B tabs fail at import time, and the two WooCommerce callbacks fail when they run. The model ignores imports, and models these tabs and callbacks (`WooTab.WooCarryOver` among them) as if every import resolved.
- DataUtils.ParsePackagingInput: the console warning that `data_utils.py:80` prints for a token that is neither a number nor a known cost name is not modelled. The token adds 0, as modelled; only the printed message is missing.
- Upsert: every upsert in the source overwrites all non-key fields of the first matching row. The model therefore replaces that row with the new row.
- WooTab.SalesEntries: its own contract states only the size bound. What the entries are is stated by `WooTab.SalesEntriesMeaning`, and which entry wins for a SKU by `WooTab.LastPastedLineWins`.
- Corrected members: `WooTab.DeleteWooSkuInPeriod` and `WooTab.MoveWooSkuInPeriod` are the corrected delete and move. Nothing else in the application calls delete or move, so no other member uses them.

## Findings

| source | as written | input that shows it | evidently intended | confidence | as-written member | corrected member |
|---|---|---|---|---|---|---|
| woo_tab.py:703-711 | deleting a SKU from the category table removes every row with that SKU and category in every period, with no archived-month check | January 2024 archived; MUG-1 in category Mugs in January and February; delete MUG-1 from February's table | remove only the rows of the period the table shows, and refuse an archived month, as the cost delete does | medium, not executed | WooTab.DeleteReachesArchivedPeriod | WooTab.PeriodDeleteKeepsOtherPeriods |
| woo_tab.py:753-758 | moving a SKU to another category relabels that SKU and category in every period, with no archived-month check | January 2024 archived; MUG-1 in Mugs in January and February; move MUG-1 from February's table to Cups | relabel only the rows of the period the table shows, and refuse an archived month | medium, not executed | WooTab.MoveReachesArchivedPeriod | WooTab.PeriodMoveKeepsOtherPeriods |

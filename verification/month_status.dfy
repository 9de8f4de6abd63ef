/**
 * `month_status.csv`: the per-period archival flag, and the calendar step back to the
 * previous period that carry-over uses.
 */
module MonthStatus {
  import opened Wrappers
  import opened Text
  import opened Store
  import opened Rows

  /** Months on one line: consecutive calendar months get consecutive numbers. */
  function MonthIndex(year: int, month: int): int {
    year * 12 + (month - 1)
  }

  /** `get_previous_month_year` on the parsed numbers: the calendar month just before (year, month). */
  function PreviousMonthYear(year: int, month: int): (p: (int, int))
    ensures p.1 != month
    ensures 1 <= month <= 12 ==> 1 <= p.1 <= 12 && MonthIndex(p.0, p.1) == MonthIndex(year, month) - 1
  {
    if month == 1 then (year - 1, 12) else (year, month - 1)
  }

  /**
   * The previous period as the texts carry-over compares with: `str(prev_year)`, `str(prev_month)`.
   * `int(...)` of a text that is not a whole number raises, which the model reports as `None`.
   */
  function PreviousPeriodText(year: string, month: string): (p: Option<(string, string)>)
    ensures p.Some? <==> IntOf(year).Some? && IntOf(month).Some?
    ensures p.Some? ==> p.value.1 != month
  {
    match (IntOf(year), IntOf(month))
    case (Some(y), Some(m)) =>
      var (py, pm) := PreviousMonthYear(y, m);
      IntOfIntToString(pm);
      Some((IntToString(py), IntToString(pm)))
    case _ => None
  }

  /** `str(archived)` for a Python bool. */
  function BoolText(b: bool): string {
    if b then "True" else "False"
  }

  function StatusRow(year: string, month: string, archived: bool): Row<StatusData> {
    Row(month, year, StatusData(BoolText(archived)))
  }

  /** Row `i` is the first row of `month_status.csv` for (year, month). */
  predicate IsFirstRowFor(rows: seq<Row<StatusData>>, i: int, year: string, month: string) {
    0 <= i < |rows| && StatusKey(rows[i]) == (year, month)
    && forall j :: 0 <= j < i ==> StatusKey(rows[j]) != (year, month)
  }

  /** `is_month_archived` as a value: the first row for (year, month) decides; no row means not archived. */
  function ArchivedFlag(rows: seq<Row<StatusData>>, year: string, month: string): (archived: bool)
    ensures archived <==> exists i :: IsFirstRowFor(rows, i, year, month) && rows[i].body.archived == "True"
    ensures (forall i :: 0 <= i < |rows| ==> StatusKey(rows[i]) != (year, month)) ==> !archived
  {
    match FirstMatch(rows, StatusKey, (year, month))
    case Some(i) =>
      assert IsFirstRowFor(rows, i, year, month);
      assert forall i' :: IsFirstRowFor(rows, i', year, month) ==> i' == i;
      rows[i].body.archived == "True"
    case None =>
      assert forall i' :: !IsFirstRowFor(rows, i', year, month);
      false
  }

  /** Rows after the first match for a period never change its flag. */
  lemma ArchivedFlagIgnoresLaterRows(rows: seq<Row<StatusData>>, more: seq<Row<StatusData>>, year: string, month: string)
    requires exists i :: 0 <= i < |rows| && StatusKey(rows[i]) == (year, month)
    ensures ArchivedFlag(rows + more, year, month) == ArchivedFlag(rows, year, month)
  {
    FirstMatchPrefix(rows, more, StatusKey, (year, month));
    var i := FirstMatch(rows, StatusKey, (year, month)).value;
    assert (rows + more)[i] == rows[i];
  }

  /** `is_month_archived`: a read-only scan that returns at the first row for the period. */
  method IsMonthArchived(files: Files, year: string, month: string) returns (archived: bool)
    ensures archived == ArchivedFlag(files.monthStatus, year, month)
  {
    var rows := files.monthStatus;
    for i := 0 to |rows|
      invariant forall j :: 0 <= j < i ==> StatusKey(rows[j]) != (year, month)
    {
      if rows[i].year == year && rows[i].month == month {
        return rows[i].body.archived == "True";
      }
    }
    return false;
  }

  /** `set_month_archived`: flip the first row for the period, or append one; the file is always rewritten. */
  method SetMonthArchived(files: Files, year: string, month: string, archived: bool)
    modifies files`monthStatus, files`written
    ensures files.monthStatus == Upsert(old(files.monthStatus), StatusKey, StatusRow(year, month, archived))
    ensures files.written == old(files.written) + [MonthStatusCsv]
  {
    var rows := UpsertRows(files.monthStatus, StatusKey, StatusRow(year, month, archived));
    files.monthStatus := rows;
    files.written := files.written + [MonthStatusCsv];
  }

  /** After `set_month_archived(y, m, a)`, `is_month_archived(y, m)` answers `a`. */
  lemma SetThenIsArchived(rows: seq<Row<StatusData>>, year: string, month: string, archived: bool)
    ensures ArchivedFlag(Upsert(rows, StatusKey, StatusRow(year, month, archived)), year, month) == archived
  {
    UpsertLookup(rows, StatusKey, StatusRow(year, month, archived), (year, month));
  }

  /** Setting one period's flag leaves every other period's answer as it was. */
  lemma SetLeavesOtherPeriods(rows: seq<Row<StatusData>>, year: string, month: string, archived: bool,
                              otherYear: string, otherMonth: string)
    requires (otherYear, otherMonth) != (year, month)
    ensures ArchivedFlag(Upsert(rows, StatusKey, StatusRow(year, month, archived)), otherYear, otherMonth)
         == ArchivedFlag(rows, otherYear, otherMonth)
  {
    var r := Upsert(rows, StatusKey, StatusRow(year, month, archived));
    UpsertLookup(rows, StatusKey, StatusRow(year, month, archived), (otherYear, otherMonth));
    UpsertFrame(rows, StatusKey, StatusRow(year, month, archived));
    match FirstMatch(rows, StatusKey, (otherYear, otherMonth))
    case Some(i) =>
      assert r[i] == rows[i];
    case None =>
  }
}

/** The B2B tab: saving a business's monthly expense and profit. */
module B2BTab {
  import opened Text
  import opened Store
  import opened Rows
  import opened MonthStatus

  /** The row a save writes: the stripped business name, and both figures, 0.0 where not a number. */
  function B2BRow(year: string, month: string, nameText: string, expenseText: string, profitText: string): (r: Row<B2BData>)
    ensures B2BKey(r) == (month, year, Strip(nameText))
    ensures ParseReal(Strip(expenseText)).None? ==> r.body.expense == 0.0
    ensures ParseReal(Strip(expenseText)).Some? ==> r.body.expense == ParseReal(Strip(expenseText)).value
    ensures ParseReal(Strip(profitText)).None? ==> r.body.profit == 0.0
    ensures ParseReal(Strip(profitText)).Some? ==> r.body.profit == ParseReal(Strip(profitText)).value
  {
    Row(month, year, B2BData(Strip(nameText), RealOrZero(expenseText), RealOrZero(profitText)))
  }

  /**
   * `add_b2b_record`: refused for an archived period and for a blank business name; otherwise
   * the record is upserted by (month, year, business_name), both figures replaced, and the B2B
   * file is rewritten.
   */
  method AddB2BRecord(files: Files, year: string, month: string, nameText: string, expenseText: string, profitText: string)
    returns (outcome: Outcome)
    modifies files`b2b, files`written
    ensures ArchivedFlag(files.monthStatus, year, month) ==> outcome == RejectedArchived
    ensures !ArchivedFlag(files.monthStatus, year, month) && Strip(nameText) == "" ==> outcome == RejectedEmptyName
    ensures !ArchivedFlag(files.monthStatus, year, month) && Strip(nameText) != "" ==> outcome == Done
    ensures outcome == Done ==>
      files.b2b == Upsert(old(files.b2b), B2BKey, B2BRow(year, month, nameText, expenseText, profitText))
      && files.written == old(files.written) + [B2BCsv]
    ensures outcome != Done ==> files.b2b == old(files.b2b) && files.written == old(files.written)
  {
    var archived := IsMonthArchived(files, year, month);
    if archived {
      return RejectedArchived;
    }
    if Strip(nameText) == "" {
      return RejectedEmptyName;
    }
    var saved := UpsertRows(files.b2b, B2BKey, B2BRow(year, month, nameText, expenseText, profitText));
    files.b2b := saved;
    files.written := files.written + [B2BCsv];
    return Done;
  }
}

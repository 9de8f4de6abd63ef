/** The costs tab: saving a named monthly cost, deleting one, and carrying costs over. */
module CostsTab {
  import opened Wrappers
  import opened Text
  import opened Store
  import opened Rows
  import opened MonthStatus
  import opened DataUtils
  import opened WooTab

  /** The row a save writes: the stripped name, and the value typed, 0.0 when it is not a number. */
  function CostRow(year: string, month: string, nameText: string, valueText: string): (r: Row<CostData>)
    ensures CostKey(r) == (month, year, Strip(nameText))
    ensures ParseReal(Strip(valueText)).None? ==> r.body.costValue == 0.0
    ensures ParseReal(Strip(valueText)).Some? ==> r.body.costValue == ParseReal(Strip(valueText)).value
  {
    Row(month, year, CostData(Strip(nameText), RealOrZero(valueText)))
  }

  /**
   * `add_cost_record`: refused for an archived period and for a blank name; otherwise the cost
   * is upserted by (month, year, cost_name) and the costs file is rewritten.
   */
  method AddCostRecord(files: Files, year: string, month: string, nameText: string, valueText: string)
    returns (outcome: Outcome)
    modifies files`costs, files`written
    ensures ArchivedFlag(files.monthStatus, year, month) ==> outcome == RejectedArchived
    ensures !ArchivedFlag(files.monthStatus, year, month) && Strip(nameText) == "" ==> outcome == RejectedEmptyName
    ensures !ArchivedFlag(files.monthStatus, year, month) && Strip(nameText) != "" ==> outcome == Done
    ensures outcome == Done ==>
      files.costs == Upsert(old(files.costs), CostKey, CostRow(year, month, nameText, valueText))
      && files.written == old(files.written) + [CostsCsv]
    ensures outcome != Done ==> files.costs == old(files.costs) && files.written == old(files.written)
  {
    var archived := IsMonthArchived(files, year, month);
    if archived {
      return RejectedArchived;
    }
    if Strip(nameText) == "" {
      return RejectedEmptyName;
    }
    var saved := UpsertRows(files.costs, CostKey, CostRow(year, month, nameText, valueText));
    files.costs := saved;
    files.written := files.written + [CostsCsv];
    return Done;
  }

  /**
   * A saved cost is the one the SKU valuation then prices its packaging with: while the costs
   * file holds one row per (month, year, cost_name), as saving keeps it, the period's cost map
   * gives the name the value just saved.
   */
  lemma SavedCostIsPriced(costs: seq<Row<CostData>>, year: string, month: string, name: string, value: real)
    requires UniqueKeys(costs, CostKey)
    ensures var saved := Upsert(costs, CostKey, Row(month, year, CostData(name, value)));
      name in CostMapFor(saved, year, month) && CostMapFor(saved, year, month)[name] == value
  {
    var x := Row(month, year, CostData(name, value));
    var saved := Upsert(costs, CostKey, x);
    UpsertKeepsKeysUnique(costs, CostKey, x);
    UpsertFrame(costs, CostKey, x);
    var i :| 0 <= i < |saved| && saved[i] == x;
    assert IsLastSelected(saved, InPeriod(year, month), CostNameOf, i) by {
      forall j | i < j < |saved| && InPeriod(year, month)(saved[j])
        ensures CostNameOf(saved[j]) != CostNameOf(saved[i])
      {
        assert CostKey(saved[j]) != CostKey(saved[i]);
      }
    }
  }

  /**
   * `delete_selected_cost`: refused for an archived period, cancelled without a selection;
   * otherwise every row of the selected name in the period is removed, and the file is
   * rewritten only if one was.
   */
  method DeleteSelectedCost(files: Files, year: string, month: string, selected: Option<string>)
    returns (outcome: Outcome)
    modifies files`costs, files`written
    ensures ArchivedFlag(files.monthStatus, year, month) ==> outcome == RejectedArchived
    ensures !ArchivedFlag(files.monthStatus, year, month) && selected.None? ==> outcome == Cancelled
    ensures !ArchivedFlag(files.monthStatus, year, month) && selected.Some? ==>
      (outcome == Done <==> Count(old(files.costs), CostKey, (month, year, selected.value)) > 0)
      && (outcome == Done || outcome == NothingMatched)
    ensures outcome == Done ==>
      files.costs == Without(old(files.costs), CostKey, (month, year, selected.value))
      && files.written == old(files.written) + [CostsCsv]
    ensures outcome != Done ==> files.costs == old(files.costs) && files.written == old(files.written)
  {
    var archived := IsMonthArchived(files, year, month);
    if archived {
      return RejectedArchived;
    }
    if selected.None? {
      return Cancelled;
    }
    var kept, removed := DeleteWhere(files.costs, CostKey, (month, year, selected.value));
    if removed > 0 {
      files.costs := kept;
      files.written := files.written + [CostsCsv];
      return Done;
    }
    return NothingMatched;
  }

  /** Deleting a cost leaves every other period's costs exactly as they were. */
  lemma CostDeleteKeepsOtherPeriods(costs: seq<Row<CostData>>, year: string, month: string, name: string,
                                    otherYear: string, otherMonth: string)
    requires (otherYear, otherMonth) != (year, month)
    ensures RowsIn(Without(costs, CostKey, (month, year, name)), otherYear, otherMonth) == RowsIn(costs, otherYear, otherMonth)
  {
    WithoutKeepsOtherPeriods(costs, CostKey, (month, year, name), year, month, otherYear, otherMonth);
  }

  /**
   * `_carry_over_callback`: refused for an archived target period; otherwise last month's costs
   * are carried over with the cost name as the only key, and the file is rewritten only if a
   * row was appended.
   */
  method CostsCarryOver(files: Files, year: string, month: string) returns (outcome: Outcome)
    modifies files`costs, files`written
    ensures ArchivedFlag(files.monthStatus, year, month) ==> outcome == RejectedArchived
    ensures !ArchivedFlag(files.monthStatus, year, month) && PreviousPeriodText(year, month).None? ==> outcome == InvalidPeriod
    ensures !ArchivedFlag(files.monthStatus, year, month) && PreviousPeriodText(year, month).Some? ==> outcome == Done
    ensures outcome == Done ==>
      files.costs == CarryOverRows(old(files.costs), year, month, CostName)
      && files.written == old(files.written) + (if |files.costs| > |old(files.costs)| then [CostsCsv] else [])
    ensures outcome != Done ==> files.costs == old(files.costs) && files.written == old(files.written)
  {
    var archived := IsMonthArchived(files, year, month);
    if archived {
      return RejectedArchived;
    }
    if PreviousPeriodText(year, month).None? {
      return InvalidPeriod;
    }
    var data, appendedAny := CarryOver(files.costs, year, month, CostName);
    if appendedAny {
      files.costs := data;
      files.written := files.written + [CostsCsv];
    }
    return Done;
  }
}

/**
 * `data_utils.py` without the file helpers: the fixed packaging price list, the packaging
 * string resolver, and the period carry-over that copies last month's rows forward.
 */
module DataUtils {
  import opened Wrappers
  import opened Text
  import opened Store
  import opened Rows
  import opened MonthStatus

  // ---------------------------------------------------------------------------
  // Packaging
  // ---------------------------------------------------------------------------

  const PackagingPrices: map<string, real> := map[
    "Box S" := 0.25,
    "Box M" := 0.40,
    "Box L" := 0.60,
    "Bubble Mailer" := 0.20,
    "Poly Bag" := 0.10,
    "Other/Multiple" := 0.30
  ]

  /** `packaging_cost`: the listed price of a known packaging name, nothing for any other name. */
  function PackagingCost(name: string): (price: real)
    ensures 0.0 <= price <= 0.60
    ensures name in PackagingPrices ==> price > 0.0
    ensures name !in PackagingPrices ==> price == 0.0
  {
    if name in PackagingPrices then PackagingPrices[name] else 0.0
  }

  /** A stripped, non-empty piece of text. */
  predicate IsToken(t: string) {
    t != "" && !IsSpace(t[0]) && !IsSpace(t[|t| - 1])
  }

  /** Strip every piece and drop the pieces that are left empty. */
  function Clean(pieces: seq<string>): (tokens: seq<string>)
    ensures |tokens| <= |pieces|
    ensures forall t <- tokens :: IsToken(t)
    ensures (forall p <- pieces :: ',' !in p) ==> forall t <- tokens :: ',' !in t
  {
    if pieces == [] then []
    else
      var t := Strip(pieces[0]);
      StripMeaning(pieces[0]);
      var head := if t == "" then [] else [t];
      var rest := Clean(pieces[1..]);
      assert forall x <- head :: x == t;
      assert forall x <- head + rest :: x in head || x in rest;
      head + rest
  }

  /** `[t.strip() for t in s.split(",") if t.strip()]`. */
  function Tokens(s: string): (tokens: seq<string>)
    ensures forall t <- tokens :: IsToken(t) && ',' !in t
  {
    Clean(Split(s, ','))
  }

  /** Cleaning works piece by piece: the tokens of two runs of pieces are those of each run, in order. */
  lemma {:induction false} CleanConcat(a: seq<string>, b: seq<string>)
    ensures Clean(a + b) == Clean(a) + Clean(b)
  {
    if a != [] {
      assert (a + b)[0] == a[0];
      assert (a + b)[1..] == a[1..] + b;
      CleanConcat(a[1..], b);
    } else {
      assert a + b == b;
    }
  }

  /** Text without a comma is one piece: it gives its stripped self as the only token, or no token when blank. */
  lemma TokensOfOnePiece(s: string)
    requires ',' !in s
    ensures Tokens(s) == if Strip(s) == "" then [] else [Strip(s)]
  {
    SplitWithoutSeparator(s, ',');
    assert [s][1..] == [];
  }

  /** The tokens of "a, rest" are those of `a` followed by those of `rest`. */
  lemma TokensSplitAtComma(a: string, rest: string)
    requires ',' !in a
    ensures Tokens(a + [','] + rest) == Tokens(a) + Tokens(rest)
  {
    SplitConcat(a, rest, ',');
    SplitWithoutSeparator(a, ',');
    CleanConcat([a], Split(rest, ','));
  }

  /** What one token adds: its numeric value, else its cost for the month, else nothing. */
  function TokenValue(token: string, costs: map<string, real>): real {
    match ParseReal(token)
    case Some(v) => v
    case None => if token in costs then costs[token] else 0.0
  }

  /** The sum of the tokens' contributions, in the order they are listed. */
  function PackagingSum(tokens: seq<string>, costs: map<string, real>): real {
    if tokens == [] then 0.0
    else PackagingSum(tokens[..|tokens| - 1], costs) + TokenValue(tokens[|tokens| - 1], costs)
  }

  /** A blank packaging string has no tokens. */
  lemma BlankHasNoTokens(s: string)
    requires AllSpace(s)
    ensures Tokens(s) == []
  {
    assert ',' !in s by {
      forall i | 0 <= i < |s| ensures s[i] != ',' { assert IsSpace(s[i]); }
    }
    SplitWithoutSeparator(s, ',');
    StripMeaning(s);
  }

  lemma {:induction false} PackagingSumConcat(a: seq<string>, b: seq<string>, costs: map<string, real>)
    ensures PackagingSum(a + b, costs) == PackagingSum(a, costs) + PackagingSum(b, costs)
    decreases |b|
  {
    if b == [] {
      assert a + b == a;
    } else {
      var b' := b[..|b| - 1];
      assert (a + b)[..|a + b| - 1] == a + b';
      PackagingSumConcat(a, b', costs);
    }
  }

  /** What the text before the first comma contributes: nothing if it is blank, else its token's value. */
  function PieceValue(piece: string, costs: map<string, real>): real {
    if Strip(piece) == "" then 0.0 else TokenValue(Strip(piece), costs)
  }

  /**
   * The packaging total of "a, rest" is what `a` contributes plus the total of "rest":
   * every comma-separated piece contributes on its own, and an unknown one contributes 0.
   */
  lemma PackagingSumSplitsAtComma(a: string, rest: string, costs: map<string, real>)
    requires ',' !in a
    ensures PackagingSum(Tokens(a + [','] + rest), costs) == PieceValue(a, costs) + PackagingSum(Tokens(rest), costs)
  {
    SplitConcat(a, rest, ',');
    var pieces := [a] + Split(rest, ',');
    assert pieces[0] == a && pieces[1..] == Split(rest, ',');
    var first := if Strip(a) == "" then [] else [Strip(a)];
    assert Tokens(a + [','] + rest) == first + Tokens(rest);
    PackagingSumConcat(first, Tokens(rest), costs);
    if first != [] {
      assert PackagingSum(first, costs) == PackagingSum([], costs) + TokenValue(Strip(a), costs);
    }
  }

  /** `parse_packaging_input`: the early exit for a blank string, then a running total over the tokens. */
  method ParsePackagingInput(packaging: string, costs: map<string, real>) returns (total: real)
    ensures total == PackagingSum(Tokens(packaging), costs)
    ensures AllSpace(packaging) ==> total == 0.0
  {
    StripMeaning(packaging);
    if Strip(packaging) == "" {
      BlankHasNoTokens(packaging);
      return 0.0;
    }
    total := SumTokens(Tokens(packaging), costs);
  }

  /** The loop of `parse_packaging_input`: a number adds itself, a known cost name its cost, anything else nothing. */
  method SumTokens(tokens: seq<string>, costs: map<string, real>) returns (total: real)
    ensures total == PackagingSum(tokens, costs)
  {
    total := 0.0;
    for i := 0 to |tokens|
      invariant total == PackagingSum(tokens[..i], costs)
    {
      var token := tokens[i];
      assert tokens[..i + 1][..i] == tokens[..i];
      match ParseReal(token)
      case Some(v) =>
        total := total + v;
      case None =>
        if token in costs {
          total := total + costs[token];
        }
    }
    assert tokens[..|tokens|] == tokens;
  }

  // ---------------------------------------------------------------------------
  // Carry-over
  // ---------------------------------------------------------------------------

  /** The rows of one period, in file order (`[r for r in data if r["year"] == y and r["month"] == m]`). */
  function RowsIn<D>(data: seq<Row<D>>, year: string, month: string): (rows: seq<Row<D>>)
    ensures forall r <- rows :: r in data && r.year == year && r.month == month
    ensures forall r <- data :: r.year == year && r.month == month ==> r in rows
  {
    if data == [] then []
    else
      var last := data[|data| - 1];
      assert data == data[..|data| - 1] + [last];
      RowsIn(data[..|data| - 1], year, month) + (if last.year == year && last.month == month then [last] else [])
  }

  /** The set of key tuples of some rows. */
  function KeysOf<D, K(==)>(rows: seq<Row<D>>, key: D -> K): (keys: set<K>)
    ensures forall r <- rows :: key(r.body) in keys
    ensures forall k <- keys :: exists r <- rows :: key(r.body) == k
  {
    if rows == [] then {}
    else
      var last := rows[|rows| - 1];
      assert rows == rows[..|rows| - 1] + [last];
      KeysOf(rows[..|rows| - 1], key) + {key(last.body)}
  }

  /** A copy of `r` moved to another period, every other field equal. */
  function Retarget<D>(r: Row<D>, year: string, month: string): Row<D> {
    r.(year := year, month := month)
  }

  /**
   * The rows carry-over appends: a copy, moved to (year, month), of every previous-period row
   * whose key is not among `existing`; and of no other row.
   */
  function Carried<D, K(==)>(prev: seq<Row<D>>, existing: set<K>, year: string, month: string, key: D -> K): (rows: seq<Row<D>>)
    ensures |rows| <= |prev|
    ensures forall r <- rows :: r.year == year && r.month == month && key(r.body) !in existing
    ensures forall r <- rows :: exists p <- prev :: r == Retarget(p, year, month)
    ensures forall p <- prev :: key(p.body) !in existing ==> Retarget(p, year, month) in rows
  {
    if prev == [] then []
    else
      var last := prev[|prev| - 1];
      var init := prev[..|prev| - 1];
      assert prev == init + [last];
      Carried(init, existing, year, month, key)
        + (if key(last.body) in existing then [] else [Retarget(last, year, month)])
  }

  /** `r` is a row of the period before (year, month), moved to (year, month). */
  ghost predicate IsCopyFromPrevious<D>(data: seq<Row<D>>, r: Row<D>, year: string, month: string) {
    exists p <- data :: PreviousPeriodText(year, month) == Some((p.year, p.month)) && r == Retarget(p, year, month)
  }

  /**
   * `carry_over_data_for_tab` on the file's rows: the rows, followed by the previous period's
   * rows whose key the target period lacks, moved to the target period. A year or month that
   * is not a whole number makes `int(...)` raise before anything is written.
   */
  function CarryOverRows<D, K(==)>(data: seq<Row<D>>, year: string, month: string, key: D -> K): (result: seq<Row<D>>)
    ensures |result| >= |data| && result[..|data|] == data
    ensures forall i :: |data| <= i < |result| ==>
      result[i].year == year && result[i].month == month
      && key(result[i].body) !in KeysOf(RowsIn(data, year, month), key)
    ensures forall i :: |data| <= i < |result| ==> IsCopyFromPrevious(data, result[i], year, month)
  {
    match PreviousPeriodText(year, month)
    case None => data
    case Some((py, pm)) =>
      var prev := RowsIn(data, py, pm);
      var added := Carried(prev, KeysOf(RowsIn(data, year, month), key), year, month, key);
      assert forall i :: |data| <= i < |data + added| ==> (data + added)[i] == added[i - |data|];
      forall i | |data| <= i < |data + added|
        ensures IsCopyFromPrevious(data, (data + added)[i], year, month)
      {
        var r := added[i - |data|];
        assert r in added;
        var p :| p in prev && r == Retarget(p, year, month);
        assert p in data && p.year == py && p.month == pm;
      }
      data + added
  }

  lemma {:induction false} RowsInConcat<D>(a: seq<Row<D>>, b: seq<Row<D>>, year: string, month: string)
    ensures RowsIn(a + b, year, month) == RowsIn(a, year, month) + RowsIn(b, year, month)
    decreases |b|
  {
    if b == [] {
      assert a + b == a;
    } else {
      var b' := b[..|b| - 1];
      assert (a + b)[..|a + b| - 1] == a + b';
      RowsInConcat(a, b', year, month);
    }
  }

  /**
   * A delete whose key pins the rows it removes to one period leaves every other period's rows
   * exactly as they were.
   */
  lemma {:induction false} WithoutKeepsOtherPeriods<D, K>(rows: seq<Row<D>>, key: Row<D> -> K, k: K, year: string, month: string,
                                                        otherYear: string, otherMonth: string)
    requires forall r: Row<D> :: key(r) == k ==> r.year == year && r.month == month
    requires (otherYear, otherMonth) != (year, month)
    ensures RowsIn(Without(rows, key, k), otherYear, otherMonth) == RowsIn(rows, otherYear, otherMonth)
  {
    if rows != [] {
      var init := rows[..|rows| - 1];
      var last := rows[|rows| - 1];
      assert rows == init + [last];
      WithoutKeepsOtherPeriods(init, key, k, year, month, otherYear, otherMonth);
      RowsInConcat(init, [last], otherYear, otherMonth);
      var tail := if key(last) == k then [] else [last];
      RowsInConcat(Without(init, key, k), tail, otherYear, otherMonth);
    }
  }

  /**
   * Two files that agree row by row on which rows belong to a period, and on those rows
   * themselves, have the same rows in that period.
   */
  lemma {:induction false} SameOutsideSameRowsIn<D>(a: seq<Row<D>>, b: seq<Row<D>>, year: string, month: string)
    requires |a| == |b|
    requires forall i :: 0 <= i < |a| ==> (a[i].year == year && a[i].month == month <==> b[i].year == year && b[i].month == month)
    requires forall i :: 0 <= i < |a| && a[i].year == year && a[i].month == month ==> a[i] == b[i]
    ensures RowsIn(a, year, month) == RowsIn(b, year, month)
  {
    if a != [] {
      SameOutsideSameRowsIn(a[..|a| - 1], b[..|b| - 1], year, month);
    }
  }

  lemma RowsInOfOtherMonth<D>(rows: seq<Row<D>>, year: string, month: string)
    requires forall r <- rows :: r.month != month
    ensures RowsIn(rows, year, month) == []
  {
  }

  lemma {:induction false} RowsInOfSamePeriod<D>(rows: seq<Row<D>>, year: string, month: string)
    requires forall r <- rows :: r.year == year && r.month == month
    ensures RowsIn(rows, year, month) == rows
  {
    if rows != [] {
      var init := rows[..|rows| - 1];
      assert rows == init + [rows[|rows| - 1]];
      RowsInOfSamePeriod(init, year, month);
    }
  }

  lemma KeysOfConcat<D, K>(a: seq<Row<D>>, b: seq<Row<D>>, key: D -> K)
    ensures KeysOf(a + b, key) == KeysOf(a, key) + KeysOf(b, key)
  {
    forall k | k in KeysOf(a + b, key) ensures k in KeysOf(a, key) + KeysOf(b, key) {
      var r :| r in a + b && key(r.body) == k;
    }
  }

  /**
   * After carry-over, the target period holds a row for every key the previous period has:
   * the gap the operation exists to fill is closed.
   */
  lemma CarryOverCoversPrevious<D, K>(data: seq<Row<D>>, year: string, month: string, key: D -> K, py: string, pm: string)
    requires PreviousPeriodText(year, month) == Some((py, pm))
    ensures forall p <- RowsIn(data, py, pm) :: key(p.body) in KeysOf(RowsIn(CarryOverRows(data, year, month, key), year, month), key)
  {
    var existing := KeysOf(RowsIn(data, year, month), key);
    var added := Carried(RowsIn(data, py, pm), existing, year, month, key);
    assert CarryOverRows(data, year, month, key) == data + added;
    RowsInConcat(data, added, year, month);
    RowsInOfSamePeriod(added, year, month);
    KeysOfConcat(RowsIn(data, year, month), added, key);
    forall p <- RowsIn(data, py, pm)
      ensures key(p.body) in existing + KeysOf(added, key)
    {
      if key(p.body) !in existing {
        var r := Retarget(p, year, month);
        assert r in added;
        assert key(r.body) == key(p.body);
      }
    }
  }

  /** Carry-over leaves the previous period's rows as they were. */
  lemma CarryOverKeepsPrevious<D, K>(data: seq<Row<D>>, year: string, month: string, key: D -> K, py: string, pm: string)
    requires PreviousPeriodText(year, month) == Some((py, pm))
    ensures RowsIn(CarryOverRows(data, year, month, key), py, pm) == RowsIn(data, py, pm)
  {
    var existing := KeysOf(RowsIn(data, year, month), key);
    var added := Carried(RowsIn(data, py, pm), existing, year, month, key);
    assert CarryOverRows(data, year, month, key) == data + added;
    RowsInConcat(data, added, py, pm);
    RowsInOfOtherMonth(added, py, pm);
    assert RowsIn(data, py, pm) + [] == RowsIn(data, py, pm);
  }

  lemma CarriedNothingWhenCovered<D, K>(prev: seq<Row<D>>, existing: set<K>, year: string, month: string, key: D -> K)
    requires forall p <- prev :: key(p.body) in existing
    ensures Carried(prev, existing, year, month, key) == []
  {
  }

  /** Carrying over twice is carrying over once: the second call appends nothing. */
  lemma CarryOverIdempotent<D, K>(data: seq<Row<D>>, year: string, month: string, key: D -> K)
    ensures CarryOverRows(CarryOverRows(data, year, month, key), year, month, key) == CarryOverRows(data, year, month, key)
  {
    match PreviousPeriodText(year, month)
    case None =>
    case Some((py, pm)) =>
      var once := CarryOverRows(data, year, month, key);
      CarryOverKeepsPrevious(data, year, month, key, py, pm);
      CarryOverCoversPrevious(data, year, month, key, py, pm);
      CarriedNothingWhenCovered(RowsIn(once, py, pm), KeysOf(RowsIn(once, year, month), key), year, month, key);
      assert once + [] == once;
  }

  /** The first loop of `carry_over_data_for_tab`: the set of the target period's keys. */
  method CollectKeys<D, K(==)>(rows: seq<Row<D>>, key: D -> K) returns (keys: set<K>)
    ensures keys == KeysOf(rows, key)
  {
    keys := {};
    for i := 0 to |rows|
      invariant keys == KeysOf(rows[..i], key)
    {
      assert rows[..i + 1] == rows[..i] + [rows[i]];
      keys := keys + {key(rows[i].body)};
    }
    assert rows[..|rows|] == rows;
  }

  /** The second loop: copies, moved to (year, month), of the rows whose key is missing. */
  method CopyMissing<D, K(==)>(prev: seq<Row<D>>, existing: set<K>, year: string, month: string, key: D -> K)
    returns (newData: seq<Row<D>>)
    ensures newData == Carried(prev, existing, year, month, key)
  {
    newData := [];
    for i := 0 to |prev|
      invariant newData == Carried(prev[..i], existing, year, month, key)
    {
      var r := prev[i];
      assert prev[..i + 1] == prev[..i] + [r];
      if key(r.body) !in existing {
        newData := newData + [Retarget(r, year, month)];
      }
    }
    assert prev[..|prev|] == prev;
  }

  /**
   * `carry_over_data_for_tab` on the rows of one file: gather the target period's keys, copy
   * every previous-period row with a missing key, and report whether anything was appended
   * (the caller writes the file only then).
   */
  method CarryOver<D, K(==)>(data: seq<Row<D>>, year: string, month: string, key: D -> K)
    returns (result: seq<Row<D>>, appendedAny: bool)
    ensures result == CarryOverRows(data, year, month, key)
    ensures appendedAny <==> |result| > |data|
  {
    var previous := PreviousPeriodText(year, month);
    if previous.None? {
      return data, false;
    }
    var (py, pm) := previous.value;
    var currKeys := CollectKeys(RowsIn(data, year, month), key);
    var newData := CopyMissing(RowsIn(data, py, pm), currKeys, year, month, key);
    appendedAny := newData != [];
    result := data + newData;
  }
}

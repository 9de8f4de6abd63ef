/**
 * The collection operations every tab performs on a file's rows, stated once for any row
 * type `R` and any key projection `key`: find the first row with a key, upsert by key
 * (update the first match, else append), and delete every row with a key.
 */
module Rows {
  import opened Wrappers

  /** The index of the first row whose key is `k`, if there is one. */
  function FirstMatch<R, K(==)>(rows: seq<R>, key: R -> K, k: K): (o: Option<nat>)
    ensures o.Some? ==> o.value < |rows| && key(rows[o.value]) == k
    ensures o.Some? ==> forall j :: 0 <= j < o.value ==> key(rows[j]) != k
    ensures o.None? <==> forall j :: 0 <= j < |rows| ==> key(rows[j]) != k
  {
    if |rows| == 0 then None
    else if key(rows[0]) == k then Some(0)
    else
      match FirstMatch(rows[1..], key, k)
      case None => None
      case Some(i) => Some(i + 1)
  }

  /** Rows that follow a match do not change which row matches first. */
  lemma FirstMatchPrefix<R, K>(rows: seq<R>, more: seq<R>, key: R -> K, k: K)
    requires FirstMatch(rows, key, k).Some?
    ensures FirstMatch(rows + more, key, k) == FirstMatch(rows, key, k)
  {
    var i := FirstMatch(rows, key, k).value;
    var all := rows + more;
    assert key(all[i]) == k;
    assert forall j :: 0 <= j < i ==> all[j] == rows[j];
  }

  /** Upsert by key: the first row with `x`'s key is replaced by `x`; if there is none, `x` is appended. */
  function Upsert<R, K(==)>(rows: seq<R>, key: R -> K, x: R): seq<R> {
    match FirstMatch(rows, key, key(x))
    case Some(i) => rows[i := x]
    case None => rows + [x]
  }

  /**
   * What an upsert changes: the collection grows by at most one row, it grows exactly when no row
   * had the key (and then ends in `x`), and the only row that can differ is the first match.
   */
  lemma UpsertFrame<R, K>(rows: seq<R>, key: R -> K, x: R)
    ensures |rows| <= |Upsert(rows, key, x)| <= |rows| + 1
    ensures |Upsert(rows, key, x)| == |rows| + 1 <==> forall j :: 0 <= j < |rows| ==> key(rows[j]) != key(x)
    ensures |Upsert(rows, key, x)| == |rows| + 1 ==> Upsert(rows, key, x)[|rows|] == x
    ensures forall j :: 0 <= j < |rows| && Upsert(rows, key, x)[j] != rows[j] ==>
      FirstMatch(rows, key, key(x)) == Some(j) && Upsert(rows, key, x)[j] == x
    ensures x in Upsert(rows, key, x)
  {
  }

  /** Looking a key up after an upsert finds `x` under its key, and what it found before under any other key. */
  lemma UpsertLookup<R, K>(rows: seq<R>, key: R -> K, x: R, k: K)
    ensures var o := FirstMatch(Upsert(rows, key, x), key, k);
      k == key(x) ==> o.Some? && Upsert(rows, key, x)[o.value] == x
    ensures k != key(x) ==> FirstMatch(Upsert(rows, key, x), key, k) == FirstMatch(rows, key, k)
  {
    var r := Upsert(rows, key, x);
    match FirstMatch(rows, key, key(x))
    case Some(i) =>
      assert r == rows[i := x];
      assert forall j :: 0 <= j < |rows| ==> (key(r[j]) == k <==> key(rows[j]) == k);
      if k == key(x) {
        assert FirstMatch(r, key, k) == Some(i);
      } else {
        SameKeysSameFirstMatch(rows, r, key, k);
      }
    case None =>
      assert r == rows + [x];
      assert forall j :: 0 <= j < |rows| ==> r[j] == rows[j];
      if k == key(x) {
        assert forall j :: 0 <= j < |rows| ==> key(r[j]) != k;
        assert key(r[|rows|]) == k;
        assert FirstMatch(r, key, k) == Some(|rows|);
      } else {
        SameKeysSameFirstMatch(rows, r[..|rows|], key, k);
        FirstMatchOfLongerWithoutMatch(rows, r, key, k);
      }
  }

  lemma SameKeysSameFirstMatch<R, K>(a: seq<R>, b: seq<R>, key: R -> K, k: K)
    requires |a| == |b|
    requires forall j :: 0 <= j < |a| ==> (key(a[j]) == k <==> key(b[j]) == k)
    ensures FirstMatch(a, key, k) == FirstMatch(b, key, k)
  {
  }

  lemma FirstMatchOfLongerWithoutMatch<R, K>(a: seq<R>, b: seq<R>, key: R -> K, k: K)
    requires |b| == |a| + 1 && b[..|a|] == a && key(b[|a|]) != k
    ensures FirstMatch(b, key, k) == FirstMatch(a, key, k)
  {
    assert forall j :: 0 <= j < |a| ==> b[j] == a[j];
  }

  /** Saving the same row twice is saving it once. */
  lemma UpsertIdempotent<R, K>(rows: seq<R>, key: R -> K, x: R)
    ensures Upsert(Upsert(rows, key, x), key, x) == Upsert(rows, key, x)
  {
    var r := Upsert(rows, key, x);
    UpsertLookup(rows, key, x, key(x));
    var i := FirstMatch(r, key, key(x)).value;
    assert r[i := x] == r;
  }

  /** At most one row per key. */
  ghost predicate UniqueKeys<R, K>(rows: seq<R>, key: R -> K) {
    forall i, j :: 0 <= i < j < |rows| ==> key(rows[i]) != key(rows[j])
  }

  /** Upsert keeps "at most one entry per key" true. */
  lemma UpsertKeepsKeysUnique<R, K>(rows: seq<R>, key: R -> K, x: R)
    requires UniqueKeys(rows, key)
    ensures UniqueKeys(Upsert(rows, key, x), key)
  {
    var r := Upsert(rows, key, x);
    match FirstMatch(rows, key, key(x))
    case Some(i) =>
      assert forall j :: 0 <= j < |rows| ==> key(r[j]) == key(rows[j]);
    case None =>
      assert forall j :: 0 <= j < |rows| ==> r[j] == rows[j];
  }

  /** Python's loop over `existing` with `found` and `break`, then the append when nothing was found. */
  method UpsertRows<R, K(==)>(rows: seq<R>, key: R -> K, x: R) returns (result: seq<R>)
    ensures result == Upsert(rows, key, x)
  {
    var i := 0;
    while i < |rows|
      invariant 0 <= i <= |rows|
      invariant forall j :: 0 <= j < i ==> key(rows[j]) != key(x)
    {
      if key(rows[i]) == key(x) {
        return rows[i := x];
      }
      i := i + 1;
    }
    return rows + [x];
  }

  /** How many rows have key `k`. */
  function Count<R, K(==)>(rows: seq<R>, key: R -> K, k: K): (n: nat)
    ensures n <= |rows|
    ensures n == 0 <==> forall j :: 0 <= j < |rows| ==> key(rows[j]) != k
  {
    if |rows| == 0 then 0
    else Count(rows[..|rows| - 1], key, k) + (if key(rows[|rows| - 1]) == k then 1 else 0)
  }

  /** The rows whose key is not `k`, in their original order. */
  function Without<R, K(==)>(rows: seq<R>, key: R -> K, k: K): (kept: seq<R>)
    ensures |kept| + Count(rows, key, k) == |rows|
    ensures forall i :: 0 <= i < |kept| ==> kept[i] in rows && key(kept[i]) != k
    ensures forall j :: 0 <= j < |rows| && key(rows[j]) != k ==> rows[j] in kept
  {
    if |rows| == 0 then []
    else
      var init := rows[..|rows| - 1];
      var last := rows[|rows| - 1];
      assert rows == init + [last];
      Without(init, key, k) + (if key(last) == k then [] else [last])
  }

  /** Deleting from two pieces is deleting from each: the surviving rows keep their relative order. */
  lemma {:induction false} WithoutConcat<R, K>(a: seq<R>, b: seq<R>, key: R -> K, k: K)
    ensures Without(a + b, key, k) == Without(a, key, k) + Without(b, key, k)
    decreases |b|
  {
    if |b| > 0 {
      var b' := b[..|b| - 1];
      assert (a + b)[..|a + b| - 1] == a + b';
      WithoutConcat(a, b', key, k);
    } else {
      assert a + b == a;
    }
  }

  /** A delete that matches nothing leaves the rows as they were. */
  lemma {:induction false} WithoutNothing<R, K>(rows: seq<R>, key: R -> K, k: K)
    requires Count(rows, key, k) == 0
    ensures Without(rows, key, k) == rows
  {
    if |rows| > 0 {
      var init := rows[..|rows| - 1];
      assert Count(init, key, k) == 0;
      WithoutNothing(init, key, k);
      assert init + [rows[|rows| - 1]] == rows;
    }
  }

  /** Python's loop building `new_data` with a `removed` counter. */
  method DeleteWhere<R, K(==)>(rows: seq<R>, key: R -> K, k: K) returns (kept: seq<R>, removed: nat)
    ensures kept == Without(rows, key, k)
    ensures removed == Count(rows, key, k)
  {
    kept, removed := [], 0;
    for i := 0 to |rows|
      invariant kept == Without(rows[..i], key, k)
      invariant removed == Count(rows[..i], key, k)
    {
      assert rows[..i + 1][..i] == rows[..i];
      if key(rows[i]) == k {
        removed := removed + 1;
      } else {
        kept := kept + [rows[i]];
      }
    }
    assert rows[..|rows|] == rows;
  }

  // ---------------------------------------------------------------------------
  // Lookup, and a run of upserts
  // ---------------------------------------------------------------------------

  /** The row a scan for key `k` stops at: the first one with that key. */
  function Lookup<R, K(==)>(rows: seq<R>, key: R -> K, k: K): (o: Option<R>)
    ensures o.Some? ==> key(o.value) == k
    ensures o.Some? ==> exists i :: 0 <= i < |rows| && o.value == rows[i] && forall j :: 0 <= j < i ==> key(rows[j]) != k
    ensures o.None? <==> forall j :: 0 <= j < |rows| ==> key(rows[j]) != k
  {
    match FirstMatch(rows, key, k)
    case Some(i) => Some(rows[i])
    case None => None
  }

  /** The last of `xs` with key `k`, if any. */
  function LastWithKey<R, K(==)>(xs: seq<R>, key: R -> K, k: K): (o: Option<R>)
    ensures o.Some? ==> key(o.value) == k
    ensures o.None? <==> forall j :: 0 <= j < |xs| ==> key(xs[j]) != k
  {
    if xs == [] then None
    else if key(xs[|xs| - 1]) == k then Some(xs[|xs| - 1])
    else LastWithKey(xs[..|xs| - 1], key, k)
  }

  /** One more element: it is the last with key `k` if it has that key, else the last stays what it was. */
  lemma LastWithKeySnoc<R, K>(xs: seq<R>, x: R, key: R -> K, k: K)
    ensures LastWithKey(xs + [x], key, k) == if key(x) == k then Some(x) else LastWithKey(xs, key, k)
  {
    assert (xs + [x])[..|xs|] == xs;
  }

  /** What `LastWithKey` finds is an element of `xs` with no element of key `k` after it. */
  lemma {:induction false} LastWithKeyIsLast<R, K>(xs: seq<R>, key: R -> K, k: K)
    requires LastWithKey(xs, key, k).Some?
    ensures exists i ::
      0 <= i < |xs| && xs[i] == LastWithKey(xs, key, k).value && forall j :: i < j < |xs| ==> key(xs[j]) != k
  {
    var last := |xs| - 1;
    if key(xs[last]) == k {
      assert xs[last] == LastWithKey(xs, key, k).value;
    } else {
      var init := xs[..last];
      LastWithKeyIsLast(init, key, k);
      var i :|
        0 <= i < |init| && init[i] == LastWithKey(init, key, k).value && forall j :: i < j < |init| ==> key(init[j]) != k;
      assert xs[i] == LastWithKey(xs, key, k).value;
      assert forall j :: i < j < |xs| ==> key(xs[j]) != k by {
        forall j | i < j < |xs| ensures key(xs[j]) != k {
          if j < last { assert xs[j] == init[j]; }
        }
      }
    }
  }

  /** Upserting `xs` one after the other, in order. */
  function UpsertAll<R, K(==)>(rows: seq<R>, key: R -> K, xs: seq<R>): seq<R> {
    if xs == [] then rows
    else Upsert(UpsertAll(rows, key, xs[..|xs| - 1]), key, xs[|xs| - 1])
  }

  /** Upserting one more row after a run. */
  lemma UpsertAllSnoc<R, K>(rows: seq<R>, key: R -> K, xs: seq<R>, x: R)
    ensures UpsertAll(rows, key, xs + [x]) == Upsert(UpsertAll(rows, key, xs), key, x)
  {
    assert (xs + [x])[..|xs|] == xs;
  }

  /** After an upsert, a lookup of `x`'s key finds `x`, and a lookup of any other key finds what it found before. */
  lemma LookupAfterUpsert<R, K>(rows: seq<R>, key: R -> K, x: R, k: K)
    ensures Lookup(Upsert(rows, key, x), key, k) == if k == key(x) then Some(x) else Lookup(rows, key, k)
  {
    UpsertLookup(rows, key, x, k);
  }

  /**
   * After a run of upserts, a key's lookup finds the last upserted row with that key, and a key
   * no upserted row has finds what it found before: later entries win, other keys are untouched.
   */
  lemma {:induction false} UpsertAllLookup<R, K>(rows: seq<R>, key: R -> K, xs: seq<R>, k: K)
    ensures Lookup(UpsertAll(rows, key, xs), key, k)
      == match LastWithKey(xs, key, k)
         case Some(x) => Some(x)
         case None => Lookup(rows, key, k)
  {
    if xs != [] {
      var init := xs[..|xs| - 1];
      UpsertAllLookup(rows, key, init, k);
      LookupAfterUpsert(UpsertAll(rows, key, init), key, xs[|xs| - 1], k);
    }
  }

  // ---------------------------------------------------------------------------
  // Dictionaries built by assignment in a loop
  // ---------------------------------------------------------------------------

  /** Row `i` is selected and no later selected row has its key. */
  ghost predicate IsLastSelected<R, K>(rows: seq<R>, sel: R -> bool, key: R -> K, i: int) {
    0 <= i < |rows| && sel(rows[i])
    && forall j :: i < j < |rows| && sel(rows[j]) ==> key(rows[j]) != key(rows[i])
  }

  /**
   * `d = {}; for r in rows: if sel(r): d[key(r)] = val(r)`: the keys of the selected rows,
   * each mapped to the value of the last selected row with that key.
   */
  function LastWins<R, K(==), V>(rows: seq<R>, sel: R -> bool, key: R -> K, val: R -> V): (m: map<K, V>)
    ensures forall i :: 0 <= i < |rows| && sel(rows[i]) ==> key(rows[i]) in m
    ensures forall k <- m :: exists i :: 0 <= i < |rows| && sel(rows[i]) && key(rows[i]) == k
    ensures forall i :: IsLastSelected(rows, sel, key, i) ==> key(rows[i]) in m && m[key(rows[i])] == val(rows[i])
  {
    if rows == [] then map[]
    else
      var init := rows[..|rows| - 1];
      var last := rows[|rows| - 1];
      var m0 := LastWins(init, sel, key, val);
      var m := if sel(last) then m0[key(last) := val(last)] else m0;
      LastWinsStep(rows, sel, key, val, m0, m);
      m
  }

  /** The step of `LastWins`: assigning the last row's entry keeps the three properties. */
  lemma LastWinsStep<R, K, V>(rows: seq<R>, sel: R -> bool, key: R -> K, val: R -> V, m0: map<K, V>, m: map<K, V>)
    requires rows != []
    requires forall i :: 0 <= i < |rows| - 1 && sel(rows[i]) ==> key(rows[i]) in m0
    requires forall k <- m0 :: exists i :: 0 <= i < |rows| - 1 && sel(rows[i]) && key(rows[i]) == k
    requires forall i :: IsLastSelected(rows[..|rows| - 1], sel, key, i) ==> key(rows[i]) in m0 && m0[key(rows[i])] == val(rows[i])
    requires m == if sel(rows[|rows| - 1]) then m0[key(rows[|rows| - 1]) := val(rows[|rows| - 1])] else m0
    ensures forall i :: 0 <= i < |rows| && sel(rows[i]) ==> key(rows[i]) in m
    ensures forall k <- m :: exists i :: 0 <= i < |rows| && sel(rows[i]) && key(rows[i]) == k
    ensures forall i :: IsLastSelected(rows, sel, key, i) ==> key(rows[i]) in m && m[key(rows[i])] == val(rows[i])
  {
    var n := |rows| - 1;
    var last := rows[n];
    forall k <- m ensures exists i :: 0 <= i < |rows| && sel(rows[i]) && key(rows[i]) == k {
      if sel(last) && k == key(last) {
        assert sel(rows[n]) && key(rows[n]) == k;
      } else {
        var i :| 0 <= i < n && sel(rows[i]) && key(rows[i]) == k;
      }
    }
    forall i | IsLastSelected(rows, sel, key, i)
      ensures key(rows[i]) in m && m[key(rows[i])] == val(rows[i])
    {
      if i < n {
        assert IsLastSelected(rows[..n], sel, key, i);
        if sel(last) {
          assert key(last) != key(rows[i]);
        }
      }
    }
  }

  /**
   * Two dictionaries built from the same rows agree on `k1` and `k2` when exactly the same rows
   * are selected under `k1` in the first and under `k2` in the second.
   */
  lemma {:induction false} LastWinsAgree<R, K1, K2, V>(rows: seq<R>, sel1: R -> bool, key1: R -> K1,
                                                      sel2: R -> bool, key2: R -> K2, val: R -> V, k1: K1, k2: K2)
    requires forall i :: 0 <= i < |rows| ==> (sel1(rows[i]) && key1(rows[i]) == k1 <==> sel2(rows[i]) && key2(rows[i]) == k2)
    ensures k1 in LastWins(rows, sel1, key1, val) <==> k2 in LastWins(rows, sel2, key2, val)
    ensures k1 in LastWins(rows, sel1, key1, val) ==> LastWins(rows, sel1, key1, val)[k1] == LastWins(rows, sel2, key2, val)[k2]
  {
    if rows != [] {
      var init := rows[..|rows| - 1];
      assert forall i :: 0 <= i < |init| ==> init[i] == rows[i];
      LastWinsAgree(init, sel1, key1, sel2, key2, val, k1, k2);
    }
  }

  /** The loop that fills such a dictionary. */
  method BuildLastWins<R, K(==), V>(rows: seq<R>, sel: R -> bool, key: R -> K, val: R -> V) returns (m: map<K, V>)
    ensures m == LastWins(rows, sel, key, val)
  {
    m := map[];
    for i := 0 to |rows|
      invariant m == LastWins(rows[..i], sel, key, val)
    {
      assert rows[..i + 1][..i] == rows[..i];
      if sel(rows[i]) {
        m := m[key(rows[i]) := val(rows[i])];
      }
    }
    assert rows[..|rows|] == rows;
  }
}

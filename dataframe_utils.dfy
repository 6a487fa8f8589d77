/** `merge_dataframes_on_common_columns` (inner join only) and `chunk_dataframe`. */
module DataFrameUtils {
  import opened Errors
  import opened Tables

  // ---------------------------------------------------------------------------
  // Inner join on the shared column labels
  // ---------------------------------------------------------------------------

  /** `set(df1.columns) & set(df2.columns)`. */
  function SharedColumns(t1: Table, t2: Table): set<string> {
    set c | c in t1.columns && c in t2.columns
  }

  /** `list(set(cols1) & set(cols2))`, in one of the possible iteration orders: the model
      fixes this one, and `MergeOnIgnoresKeyOrder` shows the merge does not depend on it. */
  function SharedList(cols1: seq<string>, cols2: seq<string>): (r: seq<string>)
    ensures forall c :: c in r <==> c in cols1 && c in cols2
  {
    if cols1 == [] then []
    else
      var rest := SharedList(cols1[1..], cols2);
      if cols1[0] in cols2 && cols1[0] !in rest then [cols1[0]] + rest else rest
  }

  /** Every join key is a column of both tables. */
  predicate KeysShared(t1: Table, t2: Table, on: seq<string>) {
    forall c :: c in on ==> c in t1.columns && c in t2.columns
  }

  /** A left row and a right row hold the same cell in every key column. */
  predicate Agree(t1: Table, l: Row, t2: Table, r: Row, on: seq<string>)
    requires |l| == |t1.columns| && |r| == |t2.columns| && KeysShared(t1, t2, on)
  {
    forall c :: c in on ==> l[IndexOf(t1.columns, c)] == r[IndexOf(t2.columns, c)]
  }

  /** The labels of `cols` that are not keys, in order. */
  function KeepNames(cols: seq<string>, on: seq<string>): (r: seq<string>)
    ensures forall c :: c in r <==> c in cols && c !in on
  {
    if cols == [] then [] else (if cols[0] in on then [] else [cols[0]]) + KeepNames(cols[1..], on)
  }

  /** The cells of `row` under the non-key labels of `cols`, in order. */
  function Keep(cols: seq<string>, row: Row, on: seq<string>): (r: Row)
    requires |row| == |cols|
    ensures |r| == |KeepNames(cols, on)|
  {
    if cols == [] then [] else (if cols[0] in on then [] else [row[0]]) + Keep(cols[1..], row[1..], on)
  }

  /** The output row of a matching pair: the whole left row, then the right row's non-key cells. */
  function Combine(t2: Table, l: Row, r: Row, on: seq<string>): Row
    requires |r| == |t2.columns|
  {
    l + Keep(t2.columns, r, on)
  }

  predicate RowsFit(rs: seq<Row>, width: nat) {
    forall i :: 0 <= i < |rs| ==> |rs[i]| == width
  }

  /** `x` is the output row of the pair (`l`, `r`). */
  predicate Joins(t1: Table, t2: Table, on: seq<string>, l: Row, r: Row, x: Row)
    requires |l| == |t1.columns| && |r| == |t2.columns| && KeysShared(t1, t2, on)
  {
    Agree(t1, l, t2, r, on) && x == Combine(t2, l, r, on)
  }

  /** The output rows contributed by one left row, in right-table order. */
  function Matches(t1: Table, t2: Table, on: seq<string>, l: Row, rs: seq<Row>): (out: seq<Row>)
    requires |l| == |t1.columns| && RowsFit(rs, |t2.columns|) && KeysShared(t1, t2, on)
    ensures RowsFit(out, |t1.columns| + |KeepNames(t2.columns, on)|)
  {
    if rs == [] then []
    else
      (if Agree(t1, l, t2, rs[0], on) then [Combine(t2, l, rs[0], on)] else [])
      + Matches(t1, t2, on, l, rs[1..])
  }

  /** The inner join's rows, left row by left row. */
  function JoinRows(t1: Table, t2: Table, on: seq<string>, ls: seq<Row>, rs: seq<Row>): (out: seq<Row>)
    requires RowsFit(ls, |t1.columns|) && RowsFit(rs, |t2.columns|) && KeysShared(t1, t2, on)
    ensures RowsFit(out, |t1.columns| + |KeepNames(t2.columns, on)|)
  {
    if ls == [] then [] else Matches(t1, t2, on, ls[0], rs) + JoinRows(t1, t2, on, ls[1..], rs)
  }

  /** pandas refuses a key label that is not unique in either table. */
  predicate UniqueKey(t1: Table, t2: Table, c: string) {
    Occurrences(t1.columns, c) == 1 && Occurrences(t2.columns, c) == 1
  }

  /** The first key, in `on` order, whose label is not unique. */
  function FirstAmbiguousKey(t1: Table, t2: Table, on: seq<string>): (r: Option<string>)
    ensures r.None? <==> forall c :: c in on ==> UniqueKey(t1, t2, c)
    ensures r.Some? ==> r.value in on && !UniqueKey(t1, t2, r.value)
  {
    if on == [] then None
    else if !UniqueKey(t1, t2, on[0]) then Some(on[0])
    else FirstAmbiguousKey(t1, t2, on[1..])
  }

  /** `pd.merge(df1, df2, on=on, how='inner')`. */
  function MergeOn(t1: Table, t2: Table, on: seq<string>): (r: Result<Table>)
    requires KeysShared(t1, t2, on)
    ensures r.Err? <==> exists c :: c in on && !UniqueKey(t1, t2, c)
    ensures r.Err? ==> exists c :: c in on && !UniqueKey(t1, t2, c)
                                 && r.error == Error(ValueError, "The column label '" + c + "' is not unique.")
    ensures r.Ok? ==> r.value.columns == t1.columns + KeepNames(t2.columns, on)
  {
    match FirstAmbiguousKey(t1, t2, on)
    case Some(c) => Err(Error(ValueError, "The column label '" + c + "' is not unique."))
    case None =>
      Ok(Frame(t1.columns + KeepNames(t2.columns, on), JoinRows(t1, t2, on, t1.rows, t2.rows)))
  }

  /** `merge_dataframes_on_common_columns(df1, df2)` with the default `how='inner'`. */
  function MergeOnCommonColumns(t1: Table, t2: Table): (r: Result<Table>)
    ensures SharedColumns(t1, t2) == {} ==>
      r == Err(Error(ValueError, "No common columns found to merge the DataFrames."))
    ensures r.Err? <==>
      SharedColumns(t1, t2) == {} || exists c :: c in SharedColumns(t1, t2) && !UniqueKey(t1, t2, c)
    ensures r.Err? ==> r.error.kind == ValueError
    ensures r.Err? && SharedColumns(t1, t2) != {} ==>
      exists m :: r.error.message == "Failed to merge DataFrames: " + m
    ensures r.Ok? ==> r.value.columns == t1.columns + KeepNames(t2.columns, t1.columns)
  {
    var on := SharedList(t1.columns, t2.columns);
    if on == [] then
      assert SharedColumns(t1, t2) == {};
      Err(Error(ValueError, "No common columns found to merge the DataFrames."))
    else
      assert on[0] in SharedColumns(t1, t2);
      KeepNamesSameDrops(t2.columns, on, t1.columns);
      match MergeOn(t1, t2, on)
      case Ok(m) => Ok(m)
      case Err(e) =>
        var c := FirstAmbiguousKey(t1, t2, on).value;
        assert c in SharedColumns(t1, t2);
        Err(Error(ValueError, "Failed to merge DataFrames: " + e.message))
  }

  /** Which labels are dropped matters only through membership. */
  lemma {:induction false} KeepNamesSameDrops(cols: seq<string>, d1: seq<string>, d2: seq<string>)
    requires forall c :: c in cols ==> (c in d1 <==> c in d2)
    ensures KeepNames(cols, d1) == KeepNames(cols, d2)
  {
    if cols != [] {
      KeepNamesSameDrops(cols[1..], d1, d2);
    }
  }

  lemma {:induction false} KeepSameDrops(cols: seq<string>, row: Row, d1: seq<string>, d2: seq<string>)
    requires |row| == |cols|
    requires forall c :: c in cols ==> (c in d1 <==> c in d2)
    ensures Keep(cols, row, d1) == Keep(cols, row, d2)
  {
    if cols != [] {
      KeepSameDrops(cols[1..], row[1..], d1, d2);
    }
  }

  lemma {:induction false} MatchesSameKeys(t1: Table, t2: Table, on1: seq<string>, on2: seq<string>,
                                           l: Row, rs: seq<Row>)
    requires RowsFit(rs, |t2.columns|)
    requires KeysShared(t1, t2, on1) && KeysShared(t1, t2, on2)
    requires forall c :: c in on1 <==> c in on2
    requires |l| == |t1.columns|
    ensures Matches(t1, t2, on1, l, rs) == Matches(t1, t2, on2, l, rs)
  {
    if rs != [] {
      MatchesSameKeys(t1, t2, on1, on2, l, rs[1..]);
      KeepSameDrops(t2.columns, rs[0], on1, on2);
      assert Agree(t1, l, t2, rs[0], on1) == Agree(t1, l, t2, rs[0], on2);
    }
  }

  lemma {:induction false} JoinRowsSameKeys(t1: Table, t2: Table, on1: seq<string>, on2: seq<string>,
                                            ls: seq<Row>, rs: seq<Row>)
    requires RowsFit(ls, |t1.columns|) && RowsFit(rs, |t2.columns|)
    requires KeysShared(t1, t2, on1) && KeysShared(t1, t2, on2)
    requires forall c :: c in on1 <==> c in on2
    ensures JoinRows(t1, t2, on1, ls, rs) == JoinRows(t1, t2, on2, ls, rs)
  {
    if ls != [] {
      MatchesSameKeys(t1, t2, on1, on2, ls[0], rs);
      JoinRowsSameKeys(t1, t2, on1, on2, ls[1..], rs);
    }
  }

  /** The merge depends on the set of join keys, not on the order `list(set)` lists them in. */
  lemma MergeOnIgnoresKeyOrder(t1: Table, t2: Table, on1: seq<string>, on2: seq<string>)
    requires KeysShared(t1, t2, on1) && KeysShared(t1, t2, on2)
    requires forall c :: c in on1 <==> c in on2
    ensures MergeOn(t1, t2, on1).Ok? == MergeOn(t1, t2, on2).Ok?
    ensures MergeOn(t1, t2, on1).Ok? ==> MergeOn(t1, t2, on1) == MergeOn(t1, t2, on2)
  {
    KeepNamesSameDrops(t2.columns, on1, on2);
    JoinRowsSameKeys(t1, t2, on1, on2, t1.rows, t2.rows);
  }

  /** A row is produced for one left row exactly when it is the output of a matching pair with
      some right row. */
  lemma {:induction false} MatchesMembers(t1: Table, t2: Table, on: seq<string>, l: Row, rs: seq<Row>, x: Row)
    requires |l| == |t1.columns| && RowsFit(rs, |t2.columns|) && KeysShared(t1, t2, on)
    ensures x in Matches(t1, t2, on, l, rs) <==> exists j :: 0 <= j < |rs| && Joins(t1, t2, on, l, rs[j], x)
  {
    if rs != [] {
      MatchesMembers(t1, t2, on, l, rs[1..], x);
      if exists j :: 0 <= j < |rs| && Joins(t1, t2, on, l, rs[j], x) {
        var j :| 0 <= j < |rs| && Joins(t1, t2, on, l, rs[j], x);
        if j > 0 { assert rs[1..][j - 1] == rs[j]; }
      }
      if exists j :: 0 <= j < |rs| - 1 && Joins(t1, t2, on, l, rs[1..][j], x) {
        var j :| 0 <= j < |rs| - 1 && Joins(t1, t2, on, l, rs[1..][j], x);
        assert rs[j + 1] == rs[1..][j];
      }
    }
  }

  lemma {:induction false} JoinRowsMembers(t1: Table, t2: Table, on: seq<string>, ls: seq<Row>, rs: seq<Row>, x: Row)
    requires RowsFit(ls, |t1.columns|) && RowsFit(rs, |t2.columns|) && KeysShared(t1, t2, on)
    ensures x in JoinRows(t1, t2, on, ls, rs) <==>
      exists i, j :: 0 <= i < |ls| && 0 <= j < |rs| && Joins(t1, t2, on, ls[i], rs[j], x)
  {
    if ls != [] {
      MatchesMembers(t1, t2, on, ls[0], rs, x);
      JoinRowsMembers(t1, t2, on, ls[1..], rs, x);
      if exists i, j :: 0 <= i < |ls| && 0 <= j < |rs| && Joins(t1, t2, on, ls[i], rs[j], x) {
        var i, j :| 0 <= i < |ls| && 0 <= j < |rs| && Joins(t1, t2, on, ls[i], rs[j], x);
        if i > 0 { assert ls[1..][i - 1] == ls[i]; }
      }
      if exists i, j :: 0 <= i < |ls| - 1 && 0 <= j < |rs| && Joins(t1, t2, on, ls[1..][i], rs[j], x) {
        var i, j :| 0 <= i < |ls| - 1 && 0 <= j < |rs| && Joins(t1, t2, on, ls[1..][i], rs[j], x);
        assert ls[i + 1] == ls[1..][i];
      }
    }
  }

  /** Two rows agree on the shared columns, whatever list of them is used as keys. */
  predicate AgreeOnShared(t1: Table, l: Row, t2: Table, r: Row)
    requires |l| == |t1.columns| && |r| == |t2.columns|
  {
    forall c :: c in t1.columns && c in t2.columns ==> l[IndexOf(t1.columns, c)] == r[IndexOf(t2.columns, c)]
  }

  /** With the shared labels as keys, a pair of rows joins to `x` exactly when the rows agree
      on every shared column and `x` is the left row followed by the right row's cells under
      the labels df1 does not have. */
  lemma JoinsOnShared(t1: Table, t2: Table, l: Row, r: Row, x: Row)
    requires |l| == |t1.columns| && |r| == |t2.columns|
    ensures KeysShared(t1, t2, SharedList(t1.columns, t2.columns))
    ensures Joins(t1, t2, SharedList(t1.columns, t2.columns), l, r, x) <==>
              AgreeOnShared(t1, l, t2, r) && x == l + Keep(t2.columns, r, t1.columns)
  {
    KeepSameDrops(t2.columns, r, SharedList(t1.columns, t2.columns), t1.columns);
  }

  /** The inner join's rows are exactly the outputs of the pairs of a df1 row and a df2 row that
      agree on every shared column: each such output is present, and nothing else is. */
  lemma MergeRowsAreMatchingPairs(t1: Table, t2: Table, x: Row)
    requires MergeOnCommonColumns(t1, t2).Ok?
    ensures x in MergeOnCommonColumns(t1, t2).value.rows <==>
      exists i, j :: 0 <= i < |t1.rows| && 0 <= j < |t2.rows| && AgreeOnShared(t1, t1.rows[i], t2, t2.rows[j])
                     && x == t1.rows[i] + Keep(t2.columns, t2.rows[j], t1.columns)
  {
    var on := SharedList(t1.columns, t2.columns);
    var rows := JoinRows(t1, t2, on, t1.rows, t2.rows);
    assert MergeOnCommonColumns(t1, t2).value.rows == rows;
    JoinRowsMembers(t1, t2, on, t1.rows, t2.rows, x);
    if x in rows {
      var i, j :| 0 <= i < |t1.rows| && 0 <= j < |t2.rows| && Joins(t1, t2, on, t1.rows[i], t2.rows[j], x);
      JoinsOnShared(t1, t2, t1.rows[i], t2.rows[j], x);
    }
    if exists i, j :: 0 <= i < |t1.rows| && 0 <= j < |t2.rows| && AgreeOnShared(t1, t1.rows[i], t2, t2.rows[j])
                      && x == t1.rows[i] + Keep(t2.columns, t2.rows[j], t1.columns) {
      var i, j :| 0 <= i < |t1.rows| && 0 <= j < |t2.rows| && AgreeOnShared(t1, t1.rows[i], t2, t2.rows[j])
                  && x == t1.rows[i] + Keep(t2.columns, t2.rows[j], t1.columns);
      JoinsOnShared(t1, t2, t1.rows[i], t2.rows[j], x);
    }
  }

  // ---------------------------------------------------------------------------
  // One output row per agreeing pair
  // ---------------------------------------------------------------------------

  /** The pair of a df1 row index and a df2 row index whose rows agree on the shared columns. */
  predicate PairAgrees(t1: Table, t2: Table, p: (nat, nat)) {
    p.0 < |t1.rows| && p.1 < |t2.rows| && AgreeOnShared(t1, t1.rows[p.0], t2, t2.rows[p.1])
  }

  /** `a` comes strictly before `b` in left-major order. */
  predicate PairBefore(a: (nat, nat), b: (nat, nat)) {
    a.0 < b.0 || (a.0 == b.0 && a.1 < b.1)
  }

  /** Strictly increasing in left-major order, so no pair occurs twice. */
  predicate LeftMajorSorted(ps: seq<(nat, nat)>) {
    forall a, b :: 0 <= a < b < |ps| ==> PairBefore(ps[a], ps[b])
  }

  /** The agreeing pairs of df1 row `i` with the df2 rows from `j` on, in df2 order. */
  function RowPairs(t1: Table, t2: Table, i: nat, j: nat): (r: seq<(nat, nat)>)
    requires i < |t1.rows| && j <= |t2.rows|
    decreases |t2.rows| - j
    ensures forall k :: 0 <= k < |r| ==> r[k].0 == i && j <= r[k].1 < |t2.rows|
  {
    if j == |t2.rows| then []
    else
      (if AgreeOnShared(t1, t1.rows[i], t2, t2.rows[j]) then [(i, j)] else [])
      + RowPairs(t1, t2, i, j + 1)
  }

  /** The agreeing index pairs from df1 row `i` on, df1 row by df1 row and within one df1
      row in df2 order: pandas' inner-join order, counted by indices rather than by rows. */
  function AgreeingPairs(t1: Table, t2: Table, i: nat): (r: seq<(nat, nat)>)
    requires i <= |t1.rows|
    decreases |t1.rows| - i
    ensures forall k :: 0 <= k < |r| ==> i <= r[k].0 < |t1.rows| && r[k].1 < |t2.rows|
  {
    if i == |t1.rows| then [] else RowPairs(t1, t2, i, 0) + AgreeingPairs(t1, t2, i + 1)
  }

  lemma {:induction false} RowPairsMembers(t1: Table, t2: Table, i: nat, j: nat)
    requires i < |t1.rows| && j <= |t2.rows|
    decreases |t2.rows| - j
    ensures forall p: (nat, nat) :: p in RowPairs(t1, t2, i, j) <==> PairAgrees(t1, t2, p) && p.0 == i && p.1 >= j
  {
    if j < |t2.rows| {
      RowPairsMembers(t1, t2, i, j + 1);
    }
  }

  /** The list holds every agreeing pair from df1 row `i` on, and nothing else. */
  lemma {:induction false} AgreeingPairsMembers(t1: Table, t2: Table, i: nat)
    requires i <= |t1.rows|
    decreases |t1.rows| - i
    ensures forall p: (nat, nat) :: p in AgreeingPairs(t1, t2, i) <==> PairAgrees(t1, t2, p) && p.0 >= i
  {
    if i < |t1.rows| {
      RowPairsMembers(t1, t2, i, 0);
      AgreeingPairsMembers(t1, t2, i + 1);
    }
  }

  /** A pair in front of a sorted list of pairs of the same df1 row with larger df2 indices
      keeps it sorted. */
  lemma SortedCons(i: nat, j: nat, rest: seq<(nat, nat)>)
    requires LeftMajorSorted(rest)
    requires forall k :: 0 <= k < |rest| ==> rest[k].0 == i && rest[k].1 > j
    ensures LeftMajorSorted([(i, j)] + rest)
  {
    var r := [(i, j)] + rest;
    forall a, b | 0 <= a < b < |r| ensures PairBefore(r[a], r[b]) {
      assert r[b] == rest[b - 1];
      if a > 0 {
        assert r[a] == rest[a - 1];
      }
    }
  }

  /** Two sorted lists, the second starting at a later df1 row, join into a sorted list. */
  lemma SortedAppend(i: nat, xs: seq<(nat, nat)>, ys: seq<(nat, nat)>)
    requires LeftMajorSorted(xs) && LeftMajorSorted(ys)
    requires forall k :: 0 <= k < |xs| ==> xs[k].0 == i
    requires forall k :: 0 <= k < |ys| ==> ys[k].0 > i
    ensures LeftMajorSorted(xs + ys)
  {
    var r := xs + ys;
    forall a, b | 0 <= a < b < |r| ensures PairBefore(r[a], r[b]) {
      if b < |xs| {
        assert r[a] == xs[a] && r[b] == xs[b];
      } else if a < |xs| {
        assert r[a] == xs[a] && r[b] == ys[b - |xs|];
      } else {
        assert r[a] == ys[a - |xs|] && r[b] == ys[b - |xs|];
      }
    }
  }

  lemma {:induction false} RowPairsSorted(t1: Table, t2: Table, i: nat, j: nat)
    requires i < |t1.rows| && j <= |t2.rows|
    decreases |t2.rows| - j
    ensures LeftMajorSorted(RowPairs(t1, t2, i, j))
  {
    if j < |t2.rows| {
      var rest := RowPairs(t1, t2, i, j + 1);
      RowPairsSorted(t1, t2, i, j + 1);
      if AgreeOnShared(t1, t1.rows[i], t2, t2.rows[j]) {
        SortedCons(i, j, rest);
      }
    }
  }

  /** The list is strictly increasing in left-major order, so no pair occurs twice. */
  lemma {:induction false} AgreeingPairsSorted(t1: Table, t2: Table, i: nat)
    requires i <= |t1.rows|
    decreases |t1.rows| - i
    ensures LeftMajorSorted(AgreeingPairs(t1, t2, i))
  {
    if i < |t1.rows| {
      RowPairsSorted(t1, t2, i, 0);
      AgreeingPairsSorted(t1, t2, i + 1);
      SortedAppend(i, RowPairs(t1, t2, i, 0), AgreeingPairs(t1, t2, i + 1));
    }
  }

  /** The output rows of a list of index pairs, in the list's order. */
  function PairRows(t1: Table, t2: Table, ps: seq<(nat, nat)>): (rows: seq<Row>)
    requires forall k :: 0 <= k < |ps| ==> ps[k].0 < |t1.rows| && ps[k].1 < |t2.rows|
    ensures |rows| == |ps|
    ensures forall k :: 0 <= k < |ps| ==>
              rows[k] == t1.rows[ps[k].0] + Keep(t2.columns, t2.rows[ps[k].1], t1.columns)
  {
    seq(|ps|, k requires 0 <= k < |ps| => t1.rows[ps[k].0] + Keep(t2.columns, t2.rows[ps[k].1], t1.columns))
  }

  lemma PairRowsAppend(t1: Table, t2: Table, a: seq<(nat, nat)>, b: seq<(nat, nat)>)
    requires forall k :: 0 <= k < |a| ==> a[k].0 < |t1.rows| && a[k].1 < |t2.rows|
    requires forall k :: 0 <= k < |b| ==> b[k].0 < |t1.rows| && b[k].1 < |t2.rows|
    ensures PairRows(t1, t2, a + b) == PairRows(t1, t2, a) + PairRows(t1, t2, b)
  {
    var ab := a + b;
    assert forall k :: 0 <= k < |b| ==> ab[|a| + k] == b[k];
  }

  /** With the shared labels as keys, a pair agrees on the keys exactly when its rows agree on
      the shared columns, and its output row is the left row and the right row's other cells. */
  lemma AgreeOnSharedKeys(t1: Table, t2: Table, l: Row, r: Row)
    requires |l| == |t1.columns| && |r| == |t2.columns|
    ensures KeysShared(t1, t2, SharedList(t1.columns, t2.columns))
    ensures Agree(t1, l, t2, r, SharedList(t1.columns, t2.columns)) <==> AgreeOnShared(t1, l, t2, r)
    ensures Combine(t2, l, r, SharedList(t1.columns, t2.columns)) == l + Keep(t2.columns, r, t1.columns)
  {
    KeepSameDrops(t2.columns, r, SharedList(t1.columns, t2.columns), t1.columns);
  }

  /** The output rows of df1 row `i` against the df2 rows from `j` on are those of its
      agreeing pairs. */
  lemma {:induction false} MatchesFollowPairs(t1: Table, t2: Table, i: nat, j: nat)
    requires i < |t1.rows| && j <= |t2.rows|
    requires KeysShared(t1, t2, SharedList(t1.columns, t2.columns))
    decreases |t2.rows| - j
    ensures Matches(t1, t2, SharedList(t1.columns, t2.columns), t1.rows[i], t2.rows[j..])
            == PairRows(t1, t2, RowPairs(t1, t2, i, j))
  {
    if j < |t2.rows| {
      var on := SharedList(t1.columns, t2.columns);
      var l := t1.rows[i];
      var rs := t2.rows[j..];
      assert rs[0] == t2.rows[j] && rs[1..] == t2.rows[j + 1..];
      MatchesFollowPairs(t1, t2, i, j + 1);
      AgreeOnSharedKeys(t1, t2, l, t2.rows[j]);
      var head := if AgreeOnShared(t1, l, t2, t2.rows[j]) then [(i, j)] else [];
      PairRowsAppend(t1, t2, head, RowPairs(t1, t2, i, j + 1));
      assert PairRows(t1, t2, head) == if Agree(t1, l, t2, rs[0], on) then [Combine(t2, l, rs[0], on)] else [];
    } else {
      assert t2.rows[j..] == [];
    }
  }

  /** The join's rows from df1 row `i` on are the output rows of the agreeing pairs from `i` on. */
  lemma {:induction false} JoinRowsFollowPairs(t1: Table, t2: Table, i: nat)
    requires i <= |t1.rows|
    requires KeysShared(t1, t2, SharedList(t1.columns, t2.columns))
    decreases |t1.rows| - i
    ensures JoinRows(t1, t2, SharedList(t1.columns, t2.columns), t1.rows[i..], t2.rows)
            == PairRows(t1, t2, AgreeingPairs(t1, t2, i))
  {
    if i < |t1.rows| {
      var ls := t1.rows[i..];
      assert ls[0] == t1.rows[i] && ls[1..] == t1.rows[i + 1..];
      assert t2.rows[0..] == t2.rows;
      MatchesFollowPairs(t1, t2, i, 0);
      JoinRowsFollowPairs(t1, t2, i + 1);
      PairRowsAppend(t1, t2, RowPairs(t1, t2, i, 0), AgreeingPairs(t1, t2, i + 1));
    } else {
      assert t1.rows[i..] == [];
    }
  }

  /** The merged rows, as the output rows of the agreeing index pairs. */
  lemma MergeRowsArePairRows(t1: Table, t2: Table)
    requires MergeOnCommonColumns(t1, t2).Ok?
    ensures MergeOnCommonColumns(t1, t2).value.rows == PairRows(t1, t2, AgreeingPairs(t1, t2, 0))
  {
    var on := SharedList(t1.columns, t2.columns);
    assert MergeOnCommonColumns(t1, t2).value.rows == JoinRows(t1, t2, on, t1.rows, t2.rows);
    assert t1.rows[0..] == t1.rows;
    JoinRowsFollowPairs(t1, t2, 0);
  }

  /** The inner join has exactly one row per agreeing pair of a df1 row and a df2 row: the
      rows are the outputs of the agreeing index pairs, each pair listed once, df1 row by df1
      row and within one df1 row in df2 order. */
  lemma MergeHasOneRowPerAgreeingPair(t1: Table, t2: Table)
    requires MergeOnCommonColumns(t1, t2).Ok?
    ensures var rows := MergeOnCommonColumns(t1, t2).value.rows;
      var ps := AgreeingPairs(t1, t2, 0);
      && (forall p: (nat, nat) :: p in ps <==> PairAgrees(t1, t2, p))
      && LeftMajorSorted(ps)
      && |rows| == |ps|
      && forall k :: 0 <= k < |ps| ==>
           rows[k] == t1.rows[ps[k].0] + Keep(t2.columns, t2.rows[ps[k].1], t1.columns)
  {
    MergeRowsArePairRows(t1, t2);
    AgreeingPairsMembers(t1, t2, 0);
    AgreeingPairsSorted(t1, t2, 0);
  }

  // ---------------------------------------------------------------------------
  // Chunking
  // ---------------------------------------------------------------------------

  const DefaultChunkSize: int := 100

  /** The rows of a list of chunks, concatenated in order. */
  function Flatten(chunks: seq<Table>): seq<Row> {
    if chunks == [] then [] else chunks[0].rows + Flatten(chunks[1..])
  }

  /** `[df[i:i + size].copy() for i in range(from, len(df), size)]`. */
  function ChunksFrom(t: Table, size: nat, from: nat): (r: seq<Table>)
    requires size > 0
    decreases |t.rows| - from
    ensures forall k :: 0 <= k < |r| ==> r[k].columns == t.columns
    ensures from <= |t.rows| ==> Flatten(r) == t.rows[from..]
    ensures forall k :: 0 <= k < |r| - 1 ==> |r[k].rows| == size
    ensures |r| > 0 ==> 1 <= |r[|r| - 1].rows| <= size
    ensures |r| == 0 <==> from >= |t.rows|
    ensures |r| == RangeLength(|t.rows|, size, from)
  {
    if from >= |t.rows| then []
    else if from + size >= |t.rows| then
      var last: Table := Frame(t.columns, t.rows[from..]);
      assert Flatten([last]) == last.rows + Flatten([]);
      [last]
    else
      var chunk: Table := Frame(t.columns, t.rows[from..from + size]);
      var rest := ChunksFrom(t, size, from + size);
      var r := [chunk] + rest;
      assert r[1..] == rest;
      assert Flatten(r) == chunk.rows + Flatten(rest);
      assert t.rows[from..] == chunk.rows + t.rows[from + size..];
      r
  }

  /** The number of values `from`, `from + size`, `from + 2 * size`, ... below `n`: the length
      of Python's `range(from, n, size)`. */
  function RangeLength(n: int, size: nat, from: int): nat
    requires size > 0
    decreases n - from
  {
    if from >= n then 0 else 1 + RangeLength(n, size, from + size)
  }

  /** A range of k values with step `size` that starts below `n` satisfies
      (k - 1) * size < n - from <= k * size. */
  lemma {:induction false} RangeLengthBounds(n: int, size: nat, from: int)
    requires size > 0 && from < n
    decreases n - from
    ensures var k := RangeLength(n, size, from); (k - 1) * size < n - from <= k * size
  {
    var k := RangeLength(n, size, from);
    if from + size >= n {
      assert RangeLength(n, size, from + size) == 0;
    } else {
      RangeLengthBounds(n, size, from + size);
      MulSucc(k - 2, size);
      MulSucc(k - 1, size);
    }
  }

  /** Each chunk but the last holds `size` rows, so the count k satisfies (k - 1) * size < n <= k * size. */
  lemma ChunksFromCount(t: Table, size: nat, from: nat)
    requires size > 0 && from < |t.rows|
    ensures var k := |ChunksFrom(t, size, from)|; (k - 1) * size < |t.rows| - from <= k * size
  {
    RangeLengthBounds(|t.rows|, size, from);
  }

  /** `chunk_dataframe(df, chunk_size)`. */
  function ChunkDataFrame(t: Table, chunkSize: int := DefaultChunkSize): (r: Result<seq<Table>>)
    ensures chunkSize <= 0 <==> r.Err?
    ensures r.Err? ==> r.error == Error(ValueError, "chunk_size must be a positive integer.")
    ensures r.Ok? ==> Flatten(r.value) == t.rows
    ensures r.Ok? ==> forall k :: 0 <= k < |r.value| ==> r.value[k].columns == t.columns
    ensures r.Ok? ==> forall k :: 0 <= k < |r.value| - 1 ==> |r.value[k].rows| == chunkSize
    ensures r.Ok? && |r.value| > 0 ==> 1 <= |r.value[|r.value| - 1].rows| <= chunkSize
    ensures r.Ok? ==> (|r.value| == 0 <==> |t.rows| == 0)
  {
    if chunkSize <= 0 then Err(Error(ValueError, "chunk_size must be a positive integer."))
    else Ok(ChunksFrom(t, chunkSize, 0))
  }

  /** The number of chunks is the ceiling of rows / chunk size. */
  lemma ChunkCount(t: Table, chunkSize: int)
    requires chunkSize > 0
    ensures |ChunkDataFrame(t, chunkSize).value| == (|t.rows| + chunkSize - 1) / chunkSize
  {
    RangeLengthCeiling(|t.rows|, chunkSize);
  }

  /** `len(range(0, n, size))` is the ceiling of n / size. */
  lemma RangeLengthCeiling(n: nat, size: nat)
    requires size > 0
    ensures RangeLength(n, size, 0) == (n + size - 1) / size
  {
    var k := RangeLength(n, size, 0);
    if n == 0 {
      assert k == 0;
    } else {
      RangeLengthBounds(n, size, 0);
      MulSucc(k - 1, size);
      MulSucc(k, size);
      DivBetween(n + size - 1, size, k);
    }
  }

  lemma MulSucc(k: int, s: int)
    ensures (k + 1) * s == k * s + s
  {
  }

  lemma {:induction false} MulMono(x: nat, y: nat, b: nat)
    requires x <= y
    ensures x * b <= y * b
    decreases y - x
  {
    if x < y {
      MulMono(x, y - 1, b);
      MulSucc(y - 1, b);
    }
  }

  lemma DivBetween(a: nat, b: nat, k: nat)
    requires b > 0 && k * b <= a < (k + 1) * b
    ensures a / b == k
  {
    var q := a / b;
    assert q * b <= a < q * b + b;
    MulSucc(q, b);
    MulSucc(k, b);
    if q < k {
      MulMono(q + 1, k, b);
    } else if q > k {
      MulMono(k + 1, q, b);
    }
  }
}

/** The data model of a pandas DataFrame: an ordered list of column labels and a
    list of rows, one cell per column. Cells are opaque values. */
module Tables {

  type Cell = string
  type Row = seq<Cell>

  datatype Frame = Frame(columns: seq<string>, rows: seq<Row>)

  /** Every row has one cell per column, as in any DataFrame. */
  predicate Rectangular(f: Frame) {
    forall i :: 0 <= i < |f.rows| ==> |f.rows[i]| == |f.columns|
  }

  /** A DataFrame's contents, as a value. */
  type Table = f: Frame | Rectangular(f) witness Frame([], [])

  function Min(a: int, b: int): int {
    if a <= b then a else b
  }

  /** `df.head(n)`: the same columns and the first min(n, number of rows) rows. */
  function Head(t: Table, n: nat): (h: Table)
    ensures h.columns == t.columns
    ensures |h.rows| == Min(n, |t.rows|)
    ensures h.rows == t.rows[..|h.rows|]
  {
    Frame(t.columns, t.rows[..Min(n, |t.rows|)])
  }

  /** The position of the first column labelled `c`. */
  function IndexOf(cols: seq<string>, c: string): (i: nat)
    requires c in cols
    ensures i < |cols| && cols[i] == c
    ensures forall k :: 0 <= k < i ==> cols[k] != c
  {
    if cols[0] == c then 0 else 1 + IndexOf(cols[1..], c)
  }

  /** Appending a label leaves the positions of the labels already present unchanged, and a
      new label lands at the end. */
  lemma {:induction false} IndexOfAppend(cols: seq<string>, d: string, c: string)
    requires c in cols + [d]
    ensures c in cols ==> IndexOf(cols + [d], c) == IndexOf(cols, c)
    ensures c !in cols ==> IndexOf(cols + [d], c) == |cols|
  {
    if cols != [] && cols[0] != c {
      assert (cols + [d])[1..] == cols[1..] + [d];
      IndexOfAppend(cols[1..], d, c);
    }
  }

  /** The number of columns labelled `c`. */
  function Occurrences(cols: seq<string>, c: string): nat
  {
    if cols == [] then 0 else (if cols[0] == c then 1 else 0) + Occurrences(cols[1..], c)
  }

  /** `df[c]`, for a label that occurs: the cells of the first column labelled `c`, top to bottom. */
  function Column(t: Table, c: string): (col: seq<Cell>)
    requires c in t.columns
    ensures |col| == |t.rows|
    ensures forall i :: 0 <= i < |t.rows| ==> col[i] == t.rows[i][IndexOf(t.columns, c)]
  {
    var j := IndexOf(t.columns, c);
    seq(|t.rows|, i requires 0 <= i < |t.rows| => t.rows[i][j])
  }

  /** A DataFrame object, for the one place where the modelled code updates a frame in
      place (`df.columns = ...`). */
  class DataFrame {
    var columns: seq<string>
    var rows: seq<Row>

    ghost predicate Valid()
      reads this
    {
      forall i :: 0 <= i < |rows| ==> |rows[i]| == |columns|
    }

    /** The frame's current contents. */
    function Snapshot(): (t: Table)
      reads this
      requires Valid()
      ensures t.columns == columns && t.rows == rows
    {
      Frame(columns, rows)
    }

    constructor (t: Table)
      ensures Valid() && Snapshot() == t
    {
      columns := t.columns;
      rows := t.rows;
    }
  }
}

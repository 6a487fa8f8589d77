/** `TestQuestions`: the smoke test that loads the cleaned table, derives the departure
    month, and answers two questions with a most-frequent-value count. */
module TestServices {
  import opened Errors
  import opened Text
  import opened Tables

  const AirlineColumn: string := "Airline_Name"
  const DateColumn: string := "Departure_Date"
  const MonthColumn: string := "Departure_Month"
  const FailureLine: string :=
    "An error occurred while executing the test queries. Please check the logs for more details."

  // ---------------------------------------------------------------------------------
  // value_counts and idxmax

  /** The number of times `v` occurs in `s`. */
  function Count(s: seq<Cell>, v: Cell): (n: nat)
    ensures n <= |s|
    ensures n > 0 <==> v in s
  {
    if |s| == 0 then 0 else (if s[0] == v then 1 else 0) + Count(s[1..], v)
  }

  /** The candidate that occurs most often in `s`, the earliest one among equals. */
  function Best(s: seq<Cell>, candidates: seq<Cell>): (v: Cell)
    requires |candidates| > 0
    ensures v in candidates
    ensures forall w :: w in candidates ==> Count(s, w) <= Count(s, v)
  {
    if |candidates| == 1 then candidates[0]
    else
      var rest := Best(s, candidates[1..]);
      if Count(s, candidates[0]) >= Count(s, rest) then candidates[0] else rest
  }

  /** `value_counts().idxmax()` with `max()` beside it, over a column: the label of a
      largest count and that count. */
  function Mode(s: seq<Cell>): (r: (Cell, nat))
    requires |s| > 0
    ensures r.0 in s && r.1 == Count(s, r.0) && r.1 >= 1
    ensures forall w :: w in s ==> Count(s, w) <= r.1
  {
    var v := Best(s, s);
    (v, Count(s, v))
  }

  /** The most frequent value of column `c` and its count. A missing column raises
      `KeyError`, and an empty column raises the `ValueError` of `idxmax`. */
  function TopValue(t: Table, c: string): (r: Result<(Cell, nat)>)
    ensures c !in t.columns ==> r == Err(Error(KeyError, "'" + c + "'"))
    ensures c in t.columns && |t.rows| == 0 ==>
              r == Err(Error(ValueError, "attempt to get argmax of an empty sequence"))
    ensures r.Ok? <==> c in t.columns && |t.rows| > 0
    ensures r.Ok? ==> var col := Column(t, c);
      && r.value.0 in col && r.value.1 == Count(col, r.value.0)
      && forall w :: w in col ==> Count(col, w) <= r.value.1
  {
    if c !in t.columns then Err(Error(KeyError, "'" + c + "'"))
    else if |t.rows| == 0 then Err(Error(ValueError, "attempt to get argmax of an empty sequence"))
    else Ok(Mode(Column(t, c)))
  }

  /** The reported count is the size of the value's group: no other value can be reported
      with a larger count, and two reported answers for the same column agree on the count. */
  lemma TopCountIsUnique(t: Table, c: string, v: Cell, n: nat)
    requires c in t.columns && |t.rows| > 0
    requires v in Column(t, c) && n == Count(Column(t, c), v)
    requires forall w :: w in Column(t, c) ==> Count(Column(t, c), w) <= n
    ensures n == TopValue(t, c).value.1
  {
    var top := TopValue(t, c).value;
    assert Count(Column(t, c), top.0) <= n;
    assert n <= top.1;
  }

  // ---------------------------------------------------------------------------------
  // Column assignment and the date conversion

  /** `df[c] = values`: an existing column is overwritten in place, a new one is appended
      at the right; every other column keeps its cells. */
  function SetColumn(t: Table, c: string, values: seq<Cell>): (r: Table)
    requires |values| == |t.rows|
    ensures c in t.columns ==> r.columns == t.columns
    ensures c !in t.columns ==> r.columns == t.columns + [c]
    ensures |r.rows| == |t.rows| && Column(r, c) == values
    ensures forall d :: d in t.columns && d != c ==> Column(r, d) == Column(t, d)
  {
    if c in t.columns then
      var j := IndexOf(t.columns, c);
      var r := Frame(t.columns, seq(|t.rows|, i requires 0 <= i < |t.rows| => t.rows[i][j := values[i]]));
      assert forall d :: d in t.columns && d != c ==> IndexOf(t.columns, d) != j;
      r
    else
      var r := Frame(t.columns + [c], seq(|t.rows|, i requires 0 <= i < |t.rows| => t.rows[i] + [values[i]]));
      IndexOfAppend(t.columns, c, c);
      forall d | d in t.columns && d != c ensures Column(r, d) == Column(t, d) {
        IndexOfAppend(t.columns, c, d);
      }
      r
  }

  /** `pd.to_datetime` on one cell: the parsed timestamp, or what it raised. */
  type DateParser = Cell -> Result<Cell>
  /** `.dt.month_name()` on one timestamp. */
  type MonthNamer = Cell -> Cell

  /** `pd.to_datetime` over a column: every cell converted, or the first cell's failure. */
  function ConvertAll(col: seq<Cell>, parse: DateParser): (r: Result<seq<Cell>>)
    ensures r.Ok? <==> forall i :: 0 <= i < |col| ==> parse(col[i]).Ok?
    ensures r.Ok? ==> |r.value| == |col| && forall i :: 0 <= i < |col| ==> r.value[i] == parse(col[i]).value
    ensures r.Err? ==> exists i :: 0 <= i < |col| && parse(col[i]) == Err(r.error)
  {
    if |col| == 0 then Ok([])
    else
      match parse(col[0])
      case Err(e) => Err(e)
      case Ok(first) =>
        match ConvertAll(col[1..], parse)
        case Err(e) =>
          var i :| 0 <= i < |col[1..]| && parse(col[1..][i]) == Err(e);
          assert parse(col[i + 1]) == Err(e);
          Err(e)
        case Ok(rest) =>
          assert forall i :: 1 <= i < |col| ==> parse(col[i]) == parse(col[1..][i - 1]);
          Ok([first] + rest)
  }

  /** `preprocess_data` on the table's contents: the date column is parsed in place and the
      month column is derived from it; a missing date column raises `KeyError`, a failed
      parse re-raises its error, and either way nothing is written. */
  function PreprocessSpec(t: Table, parse: DateParser, monthName: MonthNamer): (r: Result<Table>)
    ensures DateColumn !in t.columns ==> r == Err(Error(KeyError, "'" + DateColumn + "'"))
    ensures DateColumn in t.columns ==> (r.Ok? <==> ConvertAll(Column(t, DateColumn), parse).Ok?)
    ensures r.Ok? ==> var dates := ConvertAll(Column(t, DateColumn), parse).value;
      && r.value.columns == t.columns + (if MonthColumn in t.columns then [] else [MonthColumn])
      && |r.value.rows| == |t.rows|
      && Column(r.value, DateColumn) == dates
      && (forall i :: 0 <= i < |t.rows| ==> Column(r.value, MonthColumn)[i] == monthName(dates[i]))
      && (forall d :: d in t.columns && d != DateColumn && d != MonthColumn ==> Column(r.value, d) == Column(t, d))
  {
    if DateColumn !in t.columns then Err(Error(KeyError, "'" + DateColumn + "'"))
    else
      match ConvertAll(Column(t, DateColumn), parse)
      case Err(e) => Err(e)
      case Ok(dates) =>
        var withDates := SetColumn(t, DateColumn, dates);
        var months := seq(|dates|, i requires 0 <= i < |dates| => monthName(dates[i]));
        var r := SetColumn(withDates, MonthColumn, months);
        assert Column(r, DateColumn) == Column(withDates, DateColumn);
        Ok(r)
  }

  /** After a successful preprocessing the month question cannot fail with `KeyError`, and
      it is answered whenever the table has rows. */
  lemma MonthQueryAfterPreprocess(t: Table, parse: DateParser, monthName: MonthNamer)
    requires PreprocessSpec(t, parse, monthName).Ok?
    ensures TopValue(PreprocessSpec(t, parse, monthName).value, MonthColumn).Ok? <==> |t.rows| > 0
  {
  }

  // ---------------------------------------------------------------------------------
  // The class

  function AirlineLine(answer: (Cell, nat)): string {
    "The airline with the most flights listed is " + answer.0 + " with " + NatToString(answer.1) + " flights."
  }

  function MonthLine(answer: (Cell, nat)): string {
    "The month with the highest number of bookings is " + answer.0 + " with " + NatToString(answer.1) + " bookings."
  }

  /** What `test_queries` prints and the table it leaves, from the table it starts with:
      the two answers, or as many answers as were found followed by the fixed failure line. */
  function QueriesSpec(t: Table, parse: DateParser, monthName: MonthNamer): (r: (seq<string>, Table))
    ensures 1 <= |r.0| <= 2
    ensures PreprocessSpec(t, parse, monthName).Err? ==> r == ([FailureLine], t)
    ensures PreprocessSpec(t, parse, monthName).Ok? ==> r.1 == PreprocessSpec(t, parse, monthName).value
    ensures PreprocessSpec(t, parse, monthName).Ok? && |t.rows| > 0 && AirlineColumn in t.columns ==>
              var p := PreprocessSpec(t, parse, monthName).value;
              r.0 == [AirlineLine(TopValue(p, AirlineColumn).value), MonthLine(TopValue(p, MonthColumn).value)]
    ensures PreprocessSpec(t, parse, monthName).Ok? && (|t.rows| == 0 || AirlineColumn !in t.columns) ==>
              r.0 == [FailureLine]
  {
    match PreprocessSpec(t, parse, monthName)
    case Err(_) => ([FailureLine], t)
    case Ok(p) =>
      assert |p.rows| == |t.rows|;
      assert AirlineColumn in p.columns <==> AirlineColumn in t.columns by {
        assert AirlineColumn != MonthColumn;
      }
      match TopValue(p, AirlineColumn)
      case Err(_) => ([FailureLine], p)
      case Ok(airline) =>
        match TopValue(p, MonthColumn)
        case Err(_) => ([AirlineLine(airline), FailureLine], p)
        case Ok(month) => ([AirlineLine(airline), MonthLine(month)], p)
  }

  class TestQuestions {
    var dataPath: string
    var data: Table

    constructor (dataPath: string, data: Table)
      ensures this.dataPath == dataPath && this.data == data
    {
      this.dataPath := dataPath;
      this.data := data;
    }

    /** `TestQuestions(data_path)`: `load_data` re-raises whatever `read_csv` raised. */
    static method Load(dataPath: string, readCsv: string -> Result<Table>) returns (r: Result<TestQuestions>)
      ensures readCsv(dataPath).Err? ==> r == Err(readCsv(dataPath).error)
      ensures readCsv(dataPath).Ok? ==>
                r.Ok? && fresh(r.value) && r.value.dataPath == dataPath && r.value.data == readCsv(dataPath).value
    {
      match readCsv(dataPath)
      case Err(e) =>
        r := Err(e);
      case Ok(data) =>
        var questions := new TestQuestions(dataPath, data);
        r := Ok(questions);
    }

    /** `preprocess_data`: the two column assignments happen on `self.data`. */
    method PreprocessData(parse: DateParser, monthName: MonthNamer) returns (r: Option<Error>)
      modifies this`data
      ensures PreprocessSpec(old(data), parse, monthName).Err? ==>
                r == Some(PreprocessSpec(old(data), parse, monthName).error) && data == old(data)
      ensures PreprocessSpec(old(data), parse, monthName).Ok? ==>
                r.None? && data == PreprocessSpec(old(data), parse, monthName).value
    {
      if DateColumn !in data.columns {
        return Some(Error(KeyError, "'" + DateColumn + "'"));
      }
      var dates := ConvertAll(Column(data, DateColumn), parse);
      if dates.Err? {
        return Some(dates.error);
      }
      data := SetColumn(data, DateColumn, dates.value);
      var converted := Column(data, DateColumn);
      var months := seq(|converted|, i requires 0 <= i < |converted| => monthName(converted[i]));
      data := SetColumn(data, MonthColumn, months);
      r := None;
    }

    /** `get_top_airline`: `TopValue` over the airline column of the current data. */
    function GetTopAirline(): (r: Result<(Cell, nat)>)
      reads this
      ensures r.Ok? <==> AirlineColumn in data.columns && |data.rows| > 0
      ensures r.Ok? ==> forall w :: w in Column(data, AirlineColumn) ==> Count(Column(data, AirlineColumn), w) <= r.value.1
      ensures r.Ok? ==> r.value.0 in Column(data, AirlineColumn) && r.value.1 == Count(Column(data, AirlineColumn), r.value.0)
    {
      TopValue(data, AirlineColumn)
    }

    /** `get_top_month`: `TopValue` over the month column of the current data. */
    function GetTopMonth(): (r: Result<(Cell, nat)>)
      reads this
      ensures r.Ok? <==> MonthColumn in data.columns && |data.rows| > 0
      ensures r.Ok? ==> forall w :: w in Column(data, MonthColumn) ==> Count(Column(data, MonthColumn), w) <= r.value.1
      ensures r.Ok? ==> r.value.0 in Column(data, MonthColumn) && r.value.1 == Count(Column(data, MonthColumn), r.value.0)
    {
      TopValue(data, MonthColumn)
    }

    /** `test_queries`: the lines it prints. Every failure is caught and replaced by the
      fixed failure line, so nothing escapes. */
    method TestQueries(parse: DateParser, monthName: MonthNamer) returns (printed: seq<string>)
      modifies this`data
      ensures (printed, data) == QueriesSpec(old(data), parse, monthName)
    {
      ghost var start := data;
      var failure := PreprocessData(parse, monthName);
      if failure.Some? {
        assert QueriesSpec(start, parse, monthName) == ([FailureLine], start);
        printed := [FailureLine];
        return;
      }
      var airline := GetTopAirline();
      if airline.Err? {
        assert QueriesSpec(start, parse, monthName) == ([FailureLine], data);
        printed := [FailureLine];
        return;
      }
      printed := [AirlineLine(airline.value)];
      // The month column was written by the preprocessing and the airline answer shows
      // that the table has rows, so this query cannot fail here.
      MonthQueryAfterPreprocess(start, parse, monthName);
      var month := GetTopMonth();
      assert QueriesSpec(start, parse, monthName) == ([AirlineLine(airline.value), MonthLine(month.value)], data);
      printed := printed + [MonthLine(month.value)];
      assert printed == [AirlineLine(airline.value), MonthLine(month.value)];
    }
  }
}

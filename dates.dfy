/**
 * What `DataCleaner._convert_dates` does to the cleaner's frame: every `object`
 * column is handed, whole, to `pd.to_datetime`; a column the call accepts is
 * replaced by its result (dtype datetime64, with NaT where a value reads as
 * no date), and a column on which the call raises is left exactly as it was,
 * the exception swallowed. Each column is handled on its own.
 */
module Dates {
  import opened Wrappers
  import opened Tables

  /** A column-level answer keeps one entry per value of the column. */
  ghost predicate KeepsLength(f: seq<Cell> -> Option<seq<Option<int>>>)
  {
    forall col :: f(col).Some? ==> |f(col).value| == |col|
  }

  /**
   * `pd.to_datetime` on a whole column: None where the call raises (a value it
   * cannot read, or a value in another format than the one it inferred from
   * the column), otherwise one entry per value, the timestamp in nanoseconds
   * or None for NaT. Which columns parse, and how, is not modelled.
   */
  type DateParser = f: seq<Cell> -> Option<seq<Option<int>>> | KeepsLength(f)
    witness (col: seq<Cell>) => None

  /** One value of the result: a missing value stays NaT (Null), a value the parser read as NaT becomes Null too. */
  function Stamp(c: Cell, v: Option<int>): (r: Cell)
    ensures Fits(Temporal, r)
    ensures r.Null? <==> c.Null? || v.None?
    ensures r.Date? ==> r.stamp == v.value
  {
    if c.Null? then Null
    else match v
      case Some(ns) => Date(ns)
      case None => Null
  }

  /** `pd.to_datetime(df[col])` does not raise on column j. */
  predicate ColumnParses(t: Table, j: nat, parse: DateParser)
    requires Shaped(t) && j < |t.columns|
  {
    parse(ColumnOf(t, j)).Some?
  }

  /** Column j is replaced: its dtype is `object` and the parser accepts it. */
  predicate Converts(t: Table, j: nat, parse: DateParser)
    requires Shaped(t) && j < |t.columns|
  {
    t.columns[j].kind == Object && ColumnParses(t, j, parse)
  }

  /**
   * The converted values of column j, or None when the call raises: as many
   * values as rows, each a datetime or NaT, missing values staying NaT.
   */
  function ParseColumn(t: Table, j: nat, parse: DateParser): (r: Option<seq<Cell>>)
    requires Shaped(t) && j < |t.columns|
    ensures r.Some? <==> ColumnParses(t, j, parse)
    ensures r.Some? ==> |r.value| == |t.rows|
    ensures r.Some? ==> forall i :: 0 <= i < |t.rows| ==> Fits(Temporal, r.value[i])
    ensures r.Some? ==> forall i :: 0 <= i < |t.rows| && t.rows[i][j].Null? ==> r.value[i].Null?
    ensures r.Some? ==> forall i :: 0 <= i < |t.rows| ==>
              r.value[i] == Stamp(t.rows[i][j], parse(ColumnOf(t, j)).value[i])
  {
    match parse(ColumnOf(t, j))
    case None => None
    case Some(vs) =>
      Some(seq(|t.rows|, i requires 0 <= i < |t.rows| => Stamp(t.rows[i][j], vs[i])))
  }

  /** The frame once the loop has handled the columns before n. */
  function Converted(t: Table, parse: DateParser, n: nat): (r: Table)
    requires Shaped(t)
    ensures Shaped(r) && |r.columns| == |t.columns| && |r.rows| == |t.rows|
  {
    Table(seq(|t.columns|, j requires 0 <= j < |t.columns| =>
            if j < n && Converts(t, j, parse) then Column(t.columns[j].name, Temporal) else t.columns[j]),
          seq(|t.rows|, i requires 0 <= i < |t.rows| =>
            seq(|t.columns|, j requires 0 <= j < |t.columns| =>
              if j < n && Converts(t, j, parse) then ParseColumn(t, j, parse).value[i] else t.rows[i][j])))
  }

  /** `_convert_dates`: every column handled. */
  function ConvertDates(t: Table, parse: DateParser): (r: Table)
    requires Shaped(t)
    ensures Shaped(r) && |r.columns| == |t.columns| && |r.rows| == |t.rows|
  {
    Converted(t, parse, |t.columns|)
  }

  /** Before the loop starts, the frame is the input. */
  lemma ConvertedNone(t: Table, parse: DateParser)
    requires Shaped(t)
    ensures Converted(t, parse, 0) == t
  {
    var r := Converted(t, parse, 0);
    assert r.columns == t.columns;
    forall i | 0 <= i < |t.rows| ensures r.rows[i] == t.rows[i] {
    }
    assert r.rows == t.rows;
  }

  /** Before the loop reaches column n, that column is still the input's. */
  lemma ConvertedPending(t: Table, parse: DateParser, n: nat)
    requires Shaped(t) && n < |t.columns|
    ensures Converted(t, parse, n).columns[n] == t.columns[n]
    ensures ColumnOf(Converted(t, parse, n), n) == ColumnOf(t, n)
    ensures Converts(Converted(t, parse, n), n, parse) == Converts(t, n, parse)
    ensures ParseColumn(Converted(t, parse, n), n, parse) == ParseColumn(t, n, parse)
  {
    var c := Converted(t, parse, n);
    assert forall i :: 0 <= i < |t.rows| ==> c.rows[i][n] == t.rows[i][n];
    assert ColumnOf(c, n) == ColumnOf(t, n);
    if ColumnParses(t, n, parse) {
      assert ParseColumn(c, n, parse).value == ParseColumn(t, n, parse).value;
    }
  }

  /** One more turn of the loop: column n is replaced by its parsed values, or left. */
  lemma ConvertedStep(t: Table, parse: DateParser, n: nat)
    requires Shaped(t) && n < |t.columns|
    ensures Converted(t, parse, n + 1) ==
            if Converts(t, n, parse)
            then SetColumn(Converted(t, parse, n), n, Temporal, ParseColumn(t, n, parse).value)
            else Converted(t, parse, n)
  {
    var a, b := Converted(t, parse, n), Converted(t, parse, n + 1);
    if Converts(t, n, parse) {
      var s := SetColumn(a, n, Temporal, ParseColumn(t, n, parse).value);
      assert b.columns == s.columns;
      forall i | 0 <= i < |t.rows|
        ensures b.rows[i] == s.rows[i]
      {
      }
      assert b.rows == s.rows;
    } else {
      assert b.columns == a.columns;
      forall i | 0 <= i < |t.rows|
        ensures b.rows[i] == a.rows[i]
      {
      }
      assert b.rows == a.rows;
    }
  }

  /**
   * All or nothing, column by column: a column is either exactly as it was, or
   * it was an `object` column the parser accepted, and it now holds the
   * parser's answer as datetimes. Names and the row count never change.
   */
  lemma ConvertDatesColumn(t: Table, parse: DateParser, j: nat)
    requires Shaped(t) && j < |t.columns|
    ensures ConvertDates(t, parse).columns[j].name == t.columns[j].name
    ensures !Converts(t, j, parse) ==>
              ConvertDates(t, parse).columns[j] == t.columns[j] && ColumnOf(ConvertDates(t, parse), j) == ColumnOf(t, j)
    ensures Converts(t, j, parse) ==>
              ConvertDates(t, parse).columns[j].kind == Temporal &&
              ColumnOf(ConvertDates(t, parse), j) == ParseColumn(t, j, parse).value
  {
    var r := ConvertDates(t, parse);
    if !Converts(t, j, parse) {
      assert forall i :: 0 <= i < |t.rows| ==> r.rows[i][j] == t.rows[i][j];
    } else {
      assert forall i :: 0 <= i < |t.rows| ==> r.rows[i][j] == ParseColumn(t, j, parse).value[i];
    }
  }

  /** A column whose dtype is not `object` is never touched. */
  lemma ConvertDatesSkipsTyped(t: Table, parse: DateParser, j: nat)
    requires Shaped(t) && j < |t.columns| && t.columns[j].kind != Object
    ensures ConvertDates(t, parse).columns[j] == t.columns[j]
    ensures ColumnOf(ConvertDates(t, parse), j) == ColumnOf(t, j)
  {
    ConvertDatesColumn(t, parse, j);
  }

  /** The conversion keeps every cell within its column's dtype. */
  lemma ConvertDatesValid(t: Table, parse: DateParser)
    requires Valid(t)
    ensures Valid(ConvertDates(t, parse))
  {
    var r := ConvertDates(t, parse);
    forall i | 0 <= i < |r.rows|
      ensures RowFits(r.columns, r.rows[i])
    {
      assert RowFits(t.columns, t.rows[i]);
    }
  }

  /** Converting a second time changes nothing: converted columns are no longer `object`, the others raise again. */
  lemma ConvertDatesIdempotent(t: Table, parse: DateParser)
    requires Shaped(t)
    ensures ConvertDates(ConvertDates(t, parse), parse) == ConvertDates(t, parse)
  {
    var r := ConvertDates(t, parse);
    var rr := ConvertDates(r, parse);
    forall j | 0 <= j < |t.columns|
      ensures !Converts(r, j, parse)
    {
      ConvertDatesColumn(t, parse, j);
    }
    assert rr.columns == r.columns;
    forall i | 0 <= i < |t.rows|
      ensures rr.rows[i] == r.rows[i]
    {
    }
    assert rr.rows == r.rows;
  }

  /** A date column on which the parser raises is left entirely as it was. */
  lemma PartialColumnExample(parse: DateParser)
    requires parse([Text("2024-01-01"), Text("bad-date")]).None?
    ensures
      var t := Table([Column("date", Object)], [[Text("2024-01-01")], [Text("bad-date")]]);
      ConvertDates(t, parse) == t
  {
    var t := Table([Column("date", Object)], [[Text("2024-01-01")], [Text("bad-date")]]);
    assert ColumnOf(t, 0) == [Text("2024-01-01"), Text("bad-date")];
    ConvertDatesColumn(t, parse, 0);
    var r := ConvertDates(t, parse);
    assert r.rows[0] == t.rows[0] && r.rows[1] == t.rows[1];
  }

  /** A date column the parser accepts becomes a datetime column of the parsed values. */
  lemma FullColumnExample(parse: DateParser)
    requires parse([Text("2024-01-01"), Text("2024-02-01")]) == Some([Some(1704067200000000000), Some(1706745600000000000)])
    ensures
      var t := Table([Column("date", Object)], [[Text("2024-01-01")], [Text("2024-02-01")]]);
      ConvertDates(t, parse) == Table([Column("date", Temporal)], [[Date(1704067200000000000)], [Date(1706745600000000000)]])
  {
    var t := Table([Column("date", Object)], [[Text("2024-01-01")], [Text("2024-02-01")]]);
    assert ColumnOf(t, 0) == [Text("2024-01-01"), Text("2024-02-01")];
    assert Converts(t, 0, parse);
    var r := ConvertDates(t, parse);
    assert r.rows[0] == [Date(1704067200000000000)] && r.rows[1] == [Date(1706745600000000000)];
  }

  /**
   * A text the parser reads as no date (an empty string, say) does not make the
   * column fail: it becomes NaT and the rest of the column is converted.
   */
  lemma NaTExample(parse: DateParser)
    requires parse([Text("2024-01-01"), Text("")]) == Some([Some(1704067200000000000), None])
    ensures
      var t := Table([Column("date", Object)], [[Text("2024-01-01")], [Text("")]]);
      ConvertDates(t, parse) == Table([Column("date", Temporal)], [[Date(1704067200000000000)], [Null]])
  {
    var t := Table([Column("date", Object)], [[Text("2024-01-01")], [Text("")]]);
    assert ColumnOf(t, 0) == [Text("2024-01-01"), Text("")];
    assert Converts(t, 0, parse);
    var r := ConvertDates(t, parse);
    assert r.rows[0] == [Date(1704067200000000000)] && r.rows[1] == [Null];
  }
}

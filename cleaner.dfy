/**
 * The `DataCleaner` object: it takes its own copy of the caller's frame,
 * answers `remove_duplicates` and `fill_missing` from that copy, rewrites the
 * copy's columns in place in `_convert_dates`, and routes a typed command with
 * `execute_command`.
 *
 * The module also keeps the two places where the code as written cannot do
 * what it is meant to (see the Findings of the README): the command map names
 * two methods the class does not have, and the mean query names no column.
 */
module Cleaner {
  import opened Wrappers
  import opened Tables
  import Distinct
  import Fill
  import Dates
  import Router

  /** A pandas DataFrame: a mutable object whose columns can be reassigned in place. */
  class DataFrame {
    var columns: seq<Column>
    var rows: seq<Row>

    /** The frame's current contents. */
    function Value(): Table
      reads this
    {
      Table(columns, rows)
    }

    constructor Of(t: Table)
      ensures Value() == t
    {
      columns := t.columns;
      rows := t.rows;
    }

    /** `df.copy()`: a new frame, equal in contents, sharing nothing with this one. */
    method Copy() returns (c: DataFrame)
      ensures fresh(c) && c.Value() == Value()
    {
      c := new DataFrame.Of(Table(columns, rows));
    }

    /** `df[col] = values` for the j-th column: new values and dtype, same name, same position. */
    method AssignColumn(j: nat, kind: Kind, values: seq<Cell>)
      requires Shaped(Value()) && j < |columns| && |values| == |rows|
      modifies this
      ensures Value() == SetColumn(old(Value()), j, kind, values)
    {
      var before := rows;
      columns := columns[j := Column(columns[j].name, kind)];
      rows := seq(|before|, i requires 0 <= i < |before| => before[i][j := values[i]]);
    }
  }

  /** What `execute_command` hands back. */
  datatype Outcome =
    | NoMatch                              // no pattern matched: None
    | Converted(table: Table)              // `_convert_dates` ran and returned the cleaner's frame
    | Dispatched(command: Router.Command)  // the drop-columns or filter operation, with its argument

  class DataCleaner {
    /** `self.df`: the cleaner's private copy of the frame it was given. */
    const df: DataFrame

    /** Every cell of the frame fits its column's dtype. */
    predicate Valid()
      reads this, df
    {
      Tables.Valid(df.Value())
    }

    /** `__init__`: the cleaner works on a fresh copy, so nothing it does reaches the caller's frame. */
    constructor(src: DataFrame)
      requires Tables.Valid(src.Value())
      ensures fresh(df) && df.Value() == src.Value() && Valid()
    {
      var copy := src.Copy();
      df := copy;
    }

    /** `remove_duplicates`: SELECT DISTINCT over the cleaner's frame, which it leaves as it is. */
    method RemoveDuplicates() returns (r: Table)
      requires Valid()
      ensures r.columns == df.Value().columns && Distinct.NoDuplicates(r.rows)
      ensures forall row :: row in r.rows <==> row in df.Value().rows
      ensures Tables.Valid(r)
    {
      r := Distinct.RemoveDuplicates(df.Value());
      Distinct.RemoveDuplicatesValid(df.Value());
    }

    /**
     * `fill_missing(strategy="mean")`, with the mean strategy read as intended:
     * a new frame; the cleaner's is left as it is.
     */
    method FillMissing(strategy: string := "mean") returns (r: Table)
      requires Valid()
      ensures r == Fill.FillMissing(df.Value(), strategy)
      ensures Tables.Valid(r)
    {
      r := Fill.FillMissing(df.Value(), strategy);
      if strategy == "mean" {
        Fill.FillMeanValid(df.Value());
      } else {
        Fill.FillNAValid(df.Value());
      }
    }

    /**
     * `_convert_dates`: visit the columns in order; an `object` column that the
     * parser accepts throughout is reassigned its parsed values, any other
     * column is skipped. Returns the cleaner's frame.
     */
    method ConvertDates(parse: Dates.DateParser) returns (r: Table)
      requires Valid()
      modifies df
      ensures df.Value() == Dates.ConvertDates(old(df.Value()), parse)
      ensures r == df.Value() && Valid()
    {
      ghost var t := df.Value();
      Dates.ConvertedNone(t, parse);
      var j := 0;
      while j < |df.columns|
        invariant 0 <= j <= |t.columns| == |df.columns|
        invariant df.Value() == Dates.Converted(t, parse, j)
      {
        Dates.ConvertedPending(t, parse, j);
        Dates.ConvertedStep(t, parse, j);
        var parsed := Dates.ParseColumn(df.Value(), j, parse);
        if df.columns[j].kind == Object && parsed.Some? {
          df.AssignColumn(j, Temporal, parsed.value);
        }
        j := j + 1;
      }
      Dates.ConvertDatesValid(t, parse);
      r := df.Value();
    }

    /**
     * `execute_command`, with the command map holding the three operations it
     * was meant to hold: the first pattern that occurs in the command picks
     * the operation. Only `convertir dates` changes the cleaner's frame.
     */
    method ExecuteCommand(command: string, parse: Dates.DateParser) returns (r: Outcome)
      requires Valid()
      modifies df
      ensures Valid()
      ensures Router.Resolve(command).None? ==> r == NoMatch && df.Value() == old(df.Value())
      ensures Router.Resolve(command) == Some(Router.ConvertDates) ==>
                df.Value() == Dates.ConvertDates(old(df.Value()), parse) && r == Converted(df.Value())
      ensures Router.Resolve(command).Some? && !Router.Resolve(command).value.ConvertDates? ==>
                r == Dispatched(Router.Resolve(command).value) && df.Value() == old(df.Value())
    {
      match Router.Resolve(command)
      case None =>
        r := NoMatch;
      case Some(c) =>
        if c.ConvertDates? {
          var t := ConvertDates(parse);
          r := Converted(t);
        } else {
          r := Dispatched(c);
        }
    }
  }

  /**
   * A caller's use of the cleaner: whatever the command, the caller's own
   * frame is the same afterwards, even when the cleaner rewrote its columns.
   */
  method CleanWithCommand(src: DataFrame, command: string, parse: Dates.DateParser) returns (r: Outcome)
    requires Tables.Valid(src.Value())
    ensures src.Value() == old(src.Value())
    ensures Router.Resolve(command) == Some(Router.ConvertDates) ==>
              r == Converted(Dates.ConvertDates(src.Value(), parse))
    ensures Router.Resolve(command).None? ==> r == NoMatch
  {
    var cleaner := new DataCleaner(src);
    r := cleaner.ExecuteCommand(command, parse);
  }

  // ----- the command map as written -----

  /** The methods `DataCleaner` defines. */
  const DefinedMethods: set<string> :=
    {"__init__", "remove_duplicates", "fill_missing", "execute_command", "_convert_dates"}

  /** What a call can raise in this model. */
  datatype Error = AttributeError(name: string) | QueryError

  /**
   * Building the dict literal: each value `self._x` is looked up when the
   * dict is built, in order, and the first missing attribute raises.
   */
  function BuildMap(routes: seq<Router.Route>): (r: Result<seq<Router.Route>, Error>)
    ensures r.Success? <==> forall k :: 0 <= k < |routes| ==> routes[k].handler in DefinedMethods
    ensures r.Success? ==> r.value == routes
    ensures r.Failure? ==> exists k :: 0 <= k < |routes| && r.error == AttributeError(routes[k].handler) &&
                                       routes[k].handler !in DefinedMethods &&
                                       forall j :: 0 <= j < k ==> routes[j].handler in DefinedMethods
    decreases |routes|
  {
    if |routes| == 0 then Success([])
    else if routes[0].handler !in DefinedMethods then Failure(AttributeError(routes[0].handler))
    else match BuildMap(routes[1..])
      case Failure(e) =>
        assert forall k :: 1 <= k < |routes| ==> routes[k] == routes[1..][k - 1];
        Failure(e)
      case Success(rest) =>
        assert forall k :: 1 <= k < |routes| ==> routes[k] == routes[1..][k - 1];
        Success([routes[0]] + rest)
  }

  /**
   * `execute_command` as written: build the map, then search it. It raises
   * exactly when the map names a method the class does not define, and
   * otherwise routes as the router does.
   */
  function ExecuteCommandAsWritten(command: string): (r: Result<Option<Router.Command>, Error>)
    ensures r.Failure? <==> exists k :: 0 <= k < |Router.Routes| && Router.Routes[k].handler !in DefinedMethods
    ensures r.Success? ==> r.value == Router.Resolve(command)
  {
    match BuildMap(Router.Routes)
    case Failure(e) => Failure(e)
    case Success(routes) =>
      Router.RoutesWellFormed();
      Success(Router.ResolveIn(routes, command))
  }

  /**
   * The dict literal raises before any pattern is tried: every command, even
   * one the router would send to `_convert_dates`, ends in AttributeError.
   */
  lemma ExecuteCommandAlwaysRaises(command: string)
    ensures ExecuteCommandAsWritten(command) == Failure(AttributeError("_drop_columns"))
  {
    var routes := Router.Routes;
    assert routes[0].handler in DefinedMethods;
    assert routes[1].handler !in DefinedMethods;
    assert BuildMap(routes[1..]) == Failure(AttributeError("_drop_columns"));
  }

  // ----- the mean query as written -----

  /**
   * `fill_missing` as written. The mean query's REPLACE clause names the
   * identifier `column`, which is a reserved word of DuckDB's grammar and no
   * column of the frame, so the query fails whatever the frame; any other
   * strategy is `fillna("N/A")`.
   */
  function FillMissingAsWritten(t: Table, strategy: string := "mean"): (r: Result<Table, Error>)
    requires Shaped(t)
    ensures r.Failure? <==> strategy == "mean"
    ensures r.Success? ==> r.value == Fill.FillMissing(t, strategy)
  {
    if strategy == "mean" then Failure(QueryError) else Success(Fill.FillNA(t))
  }
}

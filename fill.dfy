/**
 * `DataCleaner.fill_missing(strategy)`. Strategy "mean" is the query
 * `COALESCE(x, AVG(x) OVER ())` applied to every numeric column: a null takes
 * the average of the column's values, computed once over the whole column with
 * nulls ignored. Every other strategy is `df.fillna("N/A")`.
 */
module Fill {
  import opened Wrappers
  import opened Tables

  /** The sentinel text the fallback strategy writes into every empty cell. */
  const NA: string := "N/A"

  /** How many numbers a column holds (COUNT(x) over a numeric column). */
  function Count(cells: seq<Cell>): (n: nat)
    ensures n <= |cells|
  {
    if |cells| == 0 then 0
    else (if cells[0].Num? then 1 else 0) + Count(cells[1..])
  }

  /** A column counts no number exactly when none of its cells is a number. */
  lemma {:induction false} CountZeroIff(cells: seq<Cell>)
    ensures Count(cells) == 0 <==> forall i :: 0 <= i < |cells| ==> !cells[i].Num?
    decreases |cells|
  {
    if |cells| > 0 {
      CountZeroIff(cells[1..]);
      assert forall i :: 1 <= i < |cells| ==> cells[i] == cells[1..][i - 1];
    }
  }

  /** The total of a column's numbers (SUM(x)). */
  function Sum(cells: seq<Cell>): real {
    if |cells| == 0 then 0.0
    else (if cells[0].Num? then cells[0].value else 0.0) + Sum(cells[1..])
  }

  /** AVG(x): the average of the column's numbers, nulls ignored; NULL when the column has none. */
  function Mean(cells: seq<Cell>): (m: Option<real>)
    ensures m.None? <==> forall i :: 0 <= i < |cells| ==> !cells[i].Num?
  {
    CountZeroIff(cells);
    if Count(cells) == 0 then None else Some(Sum(cells) / Count(cells) as real)
  }

  /** COALESCE(x, avg): a null takes the average when there is one; any other cell stays. */
  function Coalesce(avg: Option<real>, c: Cell): Cell {
    if c.Null? && avg.Some? then Num(avg.value) else c
  }

  /** The average of each column, computed before any cell is replaced; None for a non-numeric column. */
  function ColumnMeans(t: Table): seq<Option<real>>
    requires Shaped(t)
  {
    seq(|t.columns|, j requires 0 <= j < |t.columns| =>
      if t.columns[j].kind == Numeric then Mean(ColumnOf(t, j)) else None)
  }

  /** fill_missing("mean"). */
  function FillMean(t: Table): (r: Table)
    requires Shaped(t)
    ensures r.columns == t.columns && |r.rows| == |t.rows| && Shaped(r)
    ensures forall i, j :: 0 <= i < |t.rows| && 0 <= j < |t.columns| && !t.rows[i][j].Null? ==>
              r.rows[i][j] == t.rows[i][j]
    ensures forall i, j :: 0 <= i < |t.rows| && 0 <= j < |t.columns| && t.rows[i][j].Null? ==>
              r.rows[i][j] == if t.columns[j].kind == Numeric && Mean(ColumnOf(t, j)).Some?
                              then Num(Mean(ColumnOf(t, j)).value) else Null
  {
    var means := ColumnMeans(t);
    Table(t.columns,
          seq(|t.rows|, i requires 0 <= i < |t.rows| =>
            seq(|t.columns|, j requires 0 <= j < |t.columns| => Coalesce(means[j], t.rows[i][j]))))
  }

  /** `fillna("N/A")`: a column that held a null becomes an `object` column, as pandas upcasts it. */
  function FillNA(t: Table): (r: Table)
    requires Shaped(t)
    ensures |r.columns| == |t.columns| && |r.rows| == |t.rows| && Shaped(r)
    ensures forall j :: 0 <= j < |t.columns| ==> r.columns[j].name == t.columns[j].name
    ensures forall j :: 0 <= j < |t.columns| ==>
              r.columns[j].kind == if Null in ColumnOf(t, j) then Object else t.columns[j].kind
    ensures forall i, j :: 0 <= i < |t.rows| && 0 <= j < |t.columns| ==> !r.rows[i][j].Null?
    ensures forall i, j :: 0 <= i < |t.rows| && 0 <= j < |t.columns| ==>
              r.rows[i][j] == if t.rows[i][j].Null? then Text(NA) else t.rows[i][j]
  {
    Table(seq(|t.columns|, j requires 0 <= j < |t.columns| =>
            Column(t.columns[j].name, if Null in ColumnOf(t, j) then Object else t.columns[j].kind)),
          seq(|t.rows|, i requires 0 <= i < |t.rows| =>
            seq(|t.columns|, j requires 0 <= j < |t.columns| =>
              if t.rows[i][j].Null? then Text(NA) else t.rows[i][j])))
  }

  /** The mean fill keeps every cell in its column's dtype. */
  lemma FillMeanValid(t: Table)
    requires Valid(t)
    ensures Valid(FillMean(t))
  {
    var r := FillMean(t);
    forall i | 0 <= i < |r.rows|
      ensures RowFits(r.columns, r.rows[i])
    {
      assert RowFits(t.columns, t.rows[i]);
    }
  }

  /** The "N/A" fill keeps every cell in its column's dtype: a column that received "N/A" is `object`. */
  lemma FillNAValid(t: Table)
    requires Valid(t)
    ensures Valid(FillNA(t))
  {
    var r := FillNA(t);
    forall i | 0 <= i < |r.rows|
      ensures RowFits(r.columns, r.rows[i])
    {
      assert RowFits(t.columns, t.rows[i]);
      forall j | 0 <= j < |t.columns|
        ensures Fits(r.columns[j].kind, r.rows[i][j])
      {
        if t.rows[i][j].Null? {
          assert ColumnOf(t, j)[i] == Null;
        }
      }
    }
  }

  /** fill_missing(strategy), with the mean fill applied per numeric column; the strategy defaults to "mean". */
  function FillMissing(t: Table, strategy: string := "mean"): (r: Table)
    requires Shaped(t)
    ensures |r.rows| == |t.rows| && |r.columns| == |t.columns| && Shaped(r)
    ensures forall j :: 0 <= j < |t.columns| ==> r.columns[j].name == t.columns[j].name
    ensures forall i, j :: 0 <= i < |t.rows| && 0 <= j < |t.columns| && !t.rows[i][j].Null? ==>
              r.rows[i][j] == t.rows[i][j]
    ensures strategy != "mean" ==> forall i, j :: 0 <= i < |t.rows| && 0 <= j < |t.columns| ==> !r.rows[i][j].Null?
  {
    if strategy == "mean" then FillMean(t) else FillNA(t)
  }

  /** Called without a strategy, fill_missing takes the mean strategy. */
  lemma DefaultStrategyIsMean(t: Table)
    requires Shaped(t)
    ensures FillMissing(t) == FillMean(t)
  {
  }

  // ----- the average -----

  lemma {:induction false} SumAtLeast(cells: seq<Cell>, lo: real)
    requires forall i :: 0 <= i < |cells| && cells[i].Num? ==> lo <= cells[i].value
    ensures lo * Count(cells) as real <= Sum(cells)
    decreases |cells|
  {
    if |cells| > 0 {
      var rest := cells[1..];
      SumAtLeast(rest, lo);
      var n := Count(rest) as real;
      if cells[0].Num? {
        assert Count(cells) as real == n + 1.0;
        assert lo * (n + 1.0) == lo * n + lo;
      }
    }
  }

  lemma {:induction false} SumAtMost(cells: seq<Cell>, hi: real)
    requires forall i :: 0 <= i < |cells| && cells[i].Num? ==> cells[i].value <= hi
    ensures Sum(cells) <= hi * Count(cells) as real
    decreases |cells|
  {
    if |cells| > 0 {
      var rest := cells[1..];
      SumAtMost(rest, hi);
      var n := Count(rest) as real;
      if cells[0].Num? {
        assert Count(cells) as real == n + 1.0;
        assert hi * (n + 1.0) == hi * n + hi;
      }
    }
  }

  /** The average lies between any lower and upper bound of the column's values. */
  lemma MeanBounds(cells: seq<Cell>, lo: real, hi: real)
    requires forall i :: 0 <= i < |cells| && cells[i].Num? ==> lo <= cells[i].value <= hi
    ensures Mean(cells).Some? ==> lo <= Mean(cells).value <= hi
  {
    if Count(cells) > 0 {
      SumAtLeast(cells, lo);
      SumAtMost(cells, hi);
      QuotientBounds(Sum(cells), Count(cells) as real, lo, hi);
    }
  }

  lemma QuotientBounds(s: real, n: real, lo: real, hi: real)
    requires n > 0.0 && lo * n <= s <= hi * n
    ensures lo <= s / n <= hi
  {
    var m := s / n;
    assert s == m * n;
    if m < lo {
      PositiveProduct(lo - m, n);
    }
    if m > hi {
      PositiveProduct(m - hi, n);
    }
  }

  lemma QuotientTimes(s: real, c: real)
    requires c != 0.0
    ensures (s / c) * c == s
  {
  }

  lemma QuotientOfTimes(m: real, c: real)
    requires c != 0.0
    ensures (m * c) / c == m
  {
  }

  lemma PositiveProduct(a: real, b: real)
    requires a > 0.0 && b > 0.0
    ensures a * b > 0.0
  {
  }

  // ----- filled values never feed back into the average -----

  function Nulls(cells: seq<Cell>): nat {
    if |cells| == 0 then 0 else (if cells[0].Null? then 1 else 0) + Nulls(cells[1..])
  }

  function CoalesceAll(avg: Option<real>, cells: seq<Cell>): seq<Cell> {
    seq(|cells|, i requires 0 <= i < |cells| => Coalesce(avg, cells[i]))
  }

  lemma {:induction false} CoalesceAllCount(m: real, cells: seq<Cell>)
    ensures Count(CoalesceAll(Some(m), cells)) == Count(cells) + Nulls(cells)
    decreases |cells|
  {
    if |cells| > 0 {
      assert CoalesceAll(Some(m), cells)[1..] == CoalesceAll(Some(m), cells[1..]);
      CoalesceAllCount(m, cells[1..]);
    }
  }

  lemma {:induction false} CoalesceAllSum(m: real, cells: seq<Cell>)
    ensures Sum(CoalesceAll(Some(m), cells)) == Sum(cells) + Nulls(cells) as real * m
    decreases |cells|
  {
    if |cells| > 0 {
      var filled := CoalesceAll(Some(m), cells);
      assert filled[1..] == CoalesceAll(Some(m), cells[1..]);
      CoalesceAllSum(m, cells[1..]);
      var k := Nulls(cells[1..]) as real;
      if cells[0].Null? {
        assert Nulls(cells) as real == k + 1.0;
        assert Sum(filled) == m + Sum(filled[1..]);
        assert (k + 1.0) * m == k * m + m;
      } else {
        assert Nulls(cells) == Nulls(cells[1..]);
        assert filled[0] == cells[0];
        assert Sum(filled) == Sum(cells) - Sum(cells[1..]) + Sum(filled[1..]);
      }
    }
  }

  /** Replacing every null by the average leaves the average as it was. */
  lemma CoalesceKeepsMean(cells: seq<Cell>)
    ensures Mean(CoalesceAll(Mean(cells), cells)) == Mean(cells)
  {
    match Mean(cells)
    case None =>
      assert CoalesceAll(None, cells) == cells;
    case Some(m) =>
      var s, c, k := Sum(cells), Count(cells) as real, Nulls(cells) as real;
      assert m == s / c;
      CoalesceAllCount(m, cells);
      CoalesceAllSum(m, cells);
      MeanOfTotals(CoalesceAll(Some(m), cells), s + k * m, c + k);
      PaddedMean(s, c, k, m);
  }

  lemma MeanOfTotals(cells: seq<Cell>, total: real, n: real)
    requires Sum(cells) == total && Count(cells) as real == n && n > 0.0
    ensures Mean(cells) == Some(total / n)
  {
  }

  lemma PaddedMean(s: real, c: real, k: real, m: real)
    requires c > 0.0 && k >= 0.0 && m == s / c
    ensures (s + k * m) / (c + k) == m
  {
    QuotientTimes(s, c);
    assert s + k * m == m * (c + k);
    QuotientOfTimes(m, c + k);
  }

  lemma FillMeanColumn(t: Table, j: nat)
    requires Shaped(t) && j < |t.columns|
    ensures ColumnOf(FillMean(t), j) == CoalesceAll(ColumnMeans(t)[j], ColumnOf(t, j))
  {
  }

  /** Filling by the mean does not change any column's average. */
  lemma FillMeanKeepsMeans(t: Table, j: nat)
    requires Shaped(t) && j < |t.columns|
    ensures Mean(ColumnOf(FillMean(t), j)) == Mean(ColumnOf(t, j))
  {
    FillMeanColumn(t, j);
    if t.columns[j].kind == Numeric {
      CoalesceKeepsMean(ColumnOf(t, j));
    } else {
      assert CoalesceAll(None, ColumnOf(t, j)) == ColumnOf(t, j);
    }
  }

  /** A numeric column that holds at least one number has no null left after the mean fill. */
  lemma FillMeanLeavesNoNull(t: Table, j: nat)
    requires Shaped(t) && j < |t.columns| && t.columns[j].kind == Numeric
    requires exists i :: 0 <= i < |t.rows| && t.rows[i][j].Num?
    ensures forall i :: 0 <= i < |t.rows| ==> !FillMean(t).rows[i][j].Null?
  {
    var i :| 0 <= i < |t.rows| && t.rows[i][j].Num?;
    assert ColumnOf(t, j)[i].Num?;
  }

  /** Filling by the mean twice is filling once. */
  lemma FillMeanIdempotent(t: Table)
    requires Shaped(t)
    ensures FillMean(FillMean(t)) == FillMean(t)
  {
    var r := FillMean(t);
    forall j | 0 <= j < |t.columns|
      ensures ColumnMeans(r)[j] == ColumnMeans(t)[j]
    {
      FillMeanKeepsMeans(t, j);
    }
    forall i | 0 <= i < |t.rows|
      ensures FillMean(r).rows[i] == r.rows[i]
    {
      forall j | 0 <= j < |t.columns|
        ensures FillMean(r).rows[i][j] == r.rows[i][j]
      {
        FillMeanKeepsMeans(t, j);
      }
    }
  }

  /** Filling with "N/A" twice is filling once. */
  lemma FillNAIdempotent(t: Table)
    requires Shaped(t)
    ensures FillNA(FillNA(t)) == FillNA(t)
  {
    var r := FillNA(t);
    forall j | 0 <= j < |t.columns|
      ensures FillNA(r).columns[j] == r.columns[j]
    {
      assert Null !in ColumnOf(r, j);
    }
    assert FillNA(r).columns == r.columns;
    forall i | 0 <= i < |t.rows|
      ensures FillNA(r).rows[i] == r.rows[i]
    {
    }
  }

  /** The numeric column [1, null, 3] is filled to [1, 2, 3]. */
  lemma MeanExample()
    ensures FillMean(Table([Column("x", Numeric)], [[Num(1.0)], [Null], [Num(3.0)]]))
            == Table([Column("x", Numeric)], [[Num(1.0)], [Num(2.0)], [Num(3.0)]])
  {
    var t := Table([Column("x", Numeric)], [[Num(1.0)], [Null], [Num(3.0)]]);
    var col := ColumnOf(t, 0);
    assert col == [Num(1.0), Null, Num(3.0)];
    assert col[1..][1..][1..] == [];
    assert Count(col[1..][1..]) == 1 && Sum(col[1..][1..]) == 3.0;
    assert Count(col[1..]) == 1 && Sum(col[1..]) == 3.0;
    assert Count(col) == 2 && Sum(col) == 4.0;
    assert ColumnMeans(t)[0] == Some(2.0);
    var r := FillMean(t);
    assert r.rows[0] == [Num(1.0)] && r.rows[1] == [Num(2.0)] && r.rows[2] == [Num(3.0)];
  }

  /** Strategy "unknown" writes "N/A" over every null, in a text column too. */
  lemma FallbackExample()
    ensures FillMissing(Table([Column("name", Object), Column("x", Numeric)], [[Null, Null], [Text("a"), Num(1.0)]]), "unknown")
            == Table([Column("name", Object), Column("x", Object)], [[Text(NA), Text(NA)], [Text("a"), Num(1.0)]])
  {
    var t := Table([Column("name", Object), Column("x", Numeric)], [[Null, Null], [Text("a"), Num(1.0)]]);
    assert ColumnOf(t, 1)[0] == Null;
    var r := FillNA(t);
    assert r.columns == [Column("name", Object), Column("x", Object)];
    assert r.rows[0] == [Text(NA), Text(NA)];
    assert r.rows[1] == [Text("a"), Num(1.0)];
  }
}

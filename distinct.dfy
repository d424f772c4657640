/**
 * `DataCleaner.remove_duplicates`: `SELECT DISTINCT * FROM df`. The query keeps
 * the columns and returns each distinct row once; SQL fixes no order of the rows,
 * so nothing below promises one.
 */
module Distinct {
  import opened Tables

  predicate NoDuplicates<T(==)>(s: seq<T>) {
    forall i, j :: 0 <= i < j < |s| ==> s[i] != s[j]
  }

  /** One copy of every element of s. (This definition keeps first occurrences; the lemmas do not depend on it.) */
  function Dedup(s: seq<Row>): (r: seq<Row>)
    ensures NoDuplicates(r)
    ensures forall x :: x in r <==> x in s
    ensures |r| <= |s|
    decreases |s|
  {
    if |s| == 0 then []
    else
      var init := Dedup(s[..|s| - 1]);
      if s[|s| - 1] in s[..|s| - 1] then init else init + [s[|s| - 1]]
  }

  /** remove_duplicates: same columns, no row twice, and exactly the rows of the input. */
  function RemoveDuplicates(t: Table): (r: Table)
    ensures r.columns == t.columns
    ensures NoDuplicates(r.rows)
    ensures forall row :: row in r.rows <==> row in t.rows
    ensures |r.rows| <= |t.rows|
  {
    Table(t.columns, Dedup(t.rows))
  }

  /** The result is a well-formed frame whenever the input is: every row it holds is an input row. */
  lemma RemoveDuplicatesValid(t: Table)
    requires Valid(t)
    ensures Valid(RemoveDuplicates(t))
  {
    var r := RemoveDuplicates(t);
    forall i | 0 <= i < |r.rows|
      ensures RowFits(r.columns, r.rows[i])
    {
      assert r.rows[i] in t.rows;
      var k :| 0 <= k < |t.rows| && t.rows[k] == r.rows[i];
    }
  }

  /** A list with no repeated element comes back as it is. */
  lemma {:induction false} DedupOfDistinct(s: seq<Row>)
    requires NoDuplicates(s)
    ensures Dedup(s) == s
    decreases |s|
  {
    if |s| > 0 {
      var init := s[..|s| - 1];
      assert NoDuplicates(init);
      DedupOfDistinct(init);
      assert s[|s| - 1] !in init;
      assert init + [s[|s| - 1]] == s;
    }
  }

  /** The row count is unchanged exactly when the input had no duplicate row. */
  lemma {:induction false} DedupKeepsLengthIff(s: seq<Row>)
    ensures |Dedup(s)| == |s| <==> NoDuplicates(s)
    decreases |s|
  {
    if NoDuplicates(s) {
      DedupOfDistinct(s);
    } else if |s| > 0 {
      var init := s[..|s| - 1];
      var last := s[|s| - 1];
      if last !in init {
        var i, j :| 0 <= i < j < |s| && s[i] == s[j];
        assert s[i] == init[i];
        assert j < |s| - 1;
        assert init[i] == init[j];
        DedupKeepsLengthIff(init);
      }
    }
  }

  /** Each distinct input row appears exactly once in the result. */
  lemma {:induction false} OnceEach(s: seq<Row>, x: Row)
    requires NoDuplicates(s)
    ensures multiset(s)[x] == if x in s then 1 else 0
    decreases |s|
  {
    if |s| > 0 {
      var init := s[..|s| - 1];
      assert s == init + [s[|s| - 1]];
      assert NoDuplicates(init);
      OnceEach(init, x);
      if x == s[|s| - 1] {
        assert x !in init;
      }
    }
  }

  /** SELECT DISTINCT yields every row of the table once and no other row. */
  lemma RemoveDuplicatesOnce(t: Table, row: Row)
    ensures multiset(RemoveDuplicates(t).rows)[row] == if row in t.rows then 1 else 0
  {
    OnceEach(RemoveDuplicates(t).rows, row);
  }

  /** Running remove_duplicates on its own output changes nothing. */
  lemma RemoveDuplicatesIdempotent(t: Table)
    ensures RemoveDuplicates(RemoveDuplicates(t)) == RemoveDuplicates(t)
  {
    DedupOfDistinct(Dedup(t.rows));
  }

  /** remove_duplicates keeps the row count exactly when the table had no duplicate row. */
  lemma RemoveDuplicatesKeepsCountIff(t: Table)
    ensures |RemoveDuplicates(t).rows| == |t.rows| <==> NoDuplicates(t.rows)
  {
    DedupKeepsLengthIff(t.rows);
  }
}

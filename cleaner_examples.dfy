/**
 * The two defects of the cleaner as written, each set beside what the
 * intended model does on the same input.
 */
module CleanerExamples {
  import opened Wrappers
  import opened Tables
  import Fill
  import Router
  import RouterExamples
  import Cleaner

  /**
   * The column [1, null, 3]: as written the mean strategy raises, while the
   * intended fill gives [1, 2, 3].
   */
  lemma MeanFillDiscrepancy()
    ensures Cleaner.FillMissingAsWritten(Table([Column("x", Numeric)], [[Num(1.0)], [Null], [Num(3.0)]]), "mean").Failure?
    ensures Fill.FillMissing(Table([Column("x", Numeric)], [[Num(1.0)], [Null], [Num(3.0)]]), "mean")
            == Table([Column("x", Numeric)], [[Num(1.0)], [Num(2.0)], [Num(3.0)]])
  {
    Fill.MeanExample();
  }

  /**
   * The command `convertir dates`: as written it raises AttributeError, while
   * the intended router picks `_convert_dates`.
   */
  lemma CommandDiscrepancy()
    ensures Cleaner.ExecuteCommandAsWritten("convertir dates").Failure?
    ensures Router.Resolve("convertir dates") == Some(Router.ConvertDates)
  {
    Cleaner.ExecuteCommandAlwaysRaises("convertir dates");
    RouterExamples.ConvertDatesExample();
  }
}

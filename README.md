# DataCleaner, modelled in Dafny

This project models `DataCleaner` from `utils/data_cleaner.py`. It is the
cleaning component of a small Streamlit data-preparation app, and it works on
a pandas DataFrame:

- **Construction.** The cleaner takes a private copy of the caller's frame.
- **`remove_duplicates`.** Keeps one copy of every row (`SELECT DISTINCT *`).
- **`fill_missing`.** Fills missing values. The `"mean"` strategy, the default, fills from a
  whole-column average. Any other strategy writes the text `"N/A"`.
- **`_convert_dates`.** Turns every text column that parses as dates into a
  datetime column, in place. A column on which the parse raises is left alone.
- **`execute_command`.** Routes a French typed command through three regular
  expressions: `convertir dates`, `supprimer colonnes …` and `filtrer …`.

Layout:

- `tables.dfy` is the data model. A table is a list of named, typed columns
  (`object`, numeric, datetime) and a list of rows. A cell is null, a number,
  a text or a timestamp.
- `distinct.dfy`, `fill.dfy` and `dates.dfy` state what each transform
  computes, as functions. The lemmas beside them prove the properties.
- `router.dfy` writes the three fixed patterns out as string functions:
  - `\s` is the set of characters Python's `str.isspace` accepts;
  - `re.IGNORECASE` is ASCII case folding;
  - `.` is any character but a line feed;
  - `\s+(.+)` backtracks as Python's engine does.

  `re.search` is the leftmost match. The loop over the command map is
  first-match resolution in declaration order.
- `router_props.dfy` proves properties that hold for every command: matching
  ignores case, search is unanchored, declaration order decides, and the shape
  of a captured argument. `router_examples.dfy` works concrete commands through.
- `cleaner.dfy` holds the two classes:
  - `DataFrame` is a mutable frame with `copy()` and in-place column assignment.
  - `DataCleaner` holds the copied frame. Its `_convert_dates` is a loop over
    the columns, proved against `Dates.ConvertDates`.

  `cleaner.dfy` also holds the code as written for the two defects under
  Findings. `cleaner_examples.dfy` sets each defect beside the intended
  behaviour on one input.

## Model

| member | source | states |
|---|---|---|
| Cleaner.DataCleaner.constructor | utils/data_cleaner.py:7-10 | the cleaner's frame is a fresh object equal in contents to the caller's frame |
| Cleaner.DataFrame.Copy | utils/data_cleaner.py:8 | `df.copy()` yields a new frame with the same contents |
| Cleaner.DataFrame.AssignColumn | utils/data_cleaner.py:47 | `self.df[col] = …` replaces that column's values and dtype in place, and keeps its name, its position and every other column |
| Cleaner.CleanWithCommand | utils/data_cleaner.py:8 | a caller that hands its frame to a cleaner and runs any command finds its own frame unchanged afterwards, even when the cleaner converted columns in place |
| Tables.SetColumn | utils/data_cleaner.py:47 | column assignment: the new column holds exactly the given values under the old name; every other column, the row count and the shape are kept |
| Distinct.Dedup | utils/data_cleaner.py:14 | one copy of each row: no duplicates, the same set of rows, no more rows than the input |
| Distinct.RemoveDuplicates | utils/data_cleaner.py:12-14 | `SELECT DISTINCT *`: same columns, no two equal rows, and a row is in the output iff it is in the input |
| Cleaner.DataCleaner.RemoveDuplicates | utils/data_cleaner.py:12-14 | the query result has the frame's columns, no duplicate rows and the frame's set of rows; it is a well-typed frame; the cleaner's frame is not changed |
| Distinct.RemoveDuplicatesValid | utils/data_cleaner.py:14 | every cell of the result still fits its column's dtype |
| Distinct.DedupOfDistinct | utils/data_cleaner.py:14 | rows that are already distinct come back as they are |
| Distinct.DedupKeepsLengthIff | utils/data_cleaner.py:14 | the row count is kept exactly when the input has no duplicate rows |
| Distinct.OnceEach | utils/data_cleaner.py:14 | in a duplicate-free list each row occurs once or not at all |
| Distinct.RemoveDuplicatesOnce | utils/data_cleaner.py:12-14 | each input row occurs exactly once in the output, and no other row occurs |
| Distinct.RemoveDuplicatesIdempotent | utils/data_cleaner.py:12-14 | removing duplicates twice is the same as removing them once |
| Distinct.RemoveDuplicatesKeepsCountIff | utils/data_cleaner.py:12-14 | the output has as many rows as the input iff the input had no duplicates |
| Fill.Count | utils/data_cleaner.py:22 | the number of non-null values of a column, at most its length |
| Fill.CountZeroIff | utils/data_cleaner.py:22 | a column counts zero non-null values iff it holds no number |
| Fill.Mean | utils/data_cleaner.py:22 | `AVG(x)` ignores nulls and is NULL exactly when the column holds no number |
| Fill.MeanBounds | utils/data_cleaner.py:22 | the average lies between any lower and upper bounds of the column's numbers |
| Fill.SumAtLeast | utils/data_cleaner.py:22 | the sum of the numbers is at least their count times any lower bound |
| Fill.SumAtMost | utils/data_cleaner.py:22 | the sum of the numbers is at most their count times any upper bound |
| Fill.FillMean | utils/data_cleaner.py:18-25 | the mean fill as intended: columns kept, non-null cells unchanged, a null in a numeric column becomes that column's original average, and stays null when the column has no number or is not numeric |
| Fill.FillMeanColumn | utils/data_cleaner.py:22 | each filled column is the original column with every null coalesced to its own average |
| Fill.FillMeanKeepsMeans | utils/data_cleaner.py:22 | filling does not move a column's average, because the average is taken over the original values only |
| Fill.CoalesceKeepsMean | utils/data_cleaner.py:22 | coalescing a column's nulls to its average leaves the average unchanged |
| Fill.CoalesceAllCount | utils/data_cleaner.py:22 | after coalescing to a value, the numbers counted are the old numbers plus the filled nulls |
| Fill.CoalesceAllSum | utils/data_cleaner.py:22 | after coalescing to m, the sum grows by m for each filled null |
| Fill.MeanOfTotals | utils/data_cleaner.py:22 | the average is the column's sum divided by its count |
| Fill.FillMeanLeavesNoNull | utils/data_cleaner.py:22 | a numeric column with at least one number has no null left after the fill |
| Fill.FillMeanIdempotent | utils/data_cleaner.py:18-25 | filling by the mean twice is the same as once |
| Fill.FillMeanValid | utils/data_cleaner.py:18-25 | the mean fill keeps every cell fitting its column's dtype |
| Fill.FillNA | utils/data_cleaner.py:26 | `fillna("N/A")`: shape and names kept, no null left, a null becomes the text "N/A" in any column, a non-null cell is unchanged, and a column that held a null becomes `object` |
| Fill.FillNAValid | utils/data_cleaner.py:26 | `fillna` keeps every cell fitting its column's dtype |
| Fill.FillNAIdempotent | utils/data_cleaner.py:26 | filling with "N/A" twice is the same as once |
| Fill.FillMissing | utils/data_cleaner.py:16-26 | shape and names are kept, non-null cells are unchanged, and a strategy other than "mean" leaves no null |
| Fill.DefaultStrategyIsMean | utils/data_cleaner.py:16 | called without a strategy, `fill_missing` uses the mean strategy |
| Fill.MeanExample | utils/data_cleaner.py:18-25 | the numeric column [1, null, 3] is filled to [1, 2, 3] |
| Fill.FallbackExample | utils/data_cleaner.py:26 | with strategy "unknown", nulls in both a text column and a numeric column become "N/A" |
| Cleaner.DataCleaner.FillMissing | utils/data_cleaner.py:16-26 | `fill_missing` on the cleaner's frame, with "mean" as the default strategy, returns the intended fill, a well-typed frame, and leaves the cleaner's frame unchanged |
| Dates.Stamp | utils/data_cleaner.py:47 | one value of `pd.to_datetime`'s result fits a datetime column: it is NaT iff the value was missing or the call read it as NaT, and otherwise the timestamp the call gave |
| Dates.ParseColumn | utils/data_cleaner.py:47 | `pd.to_datetime` on the whole column succeeds iff the parser accepts that column, and then gives one datetime or NaT per row, in order, a missing value staying NaT |
| Dates.Converted | utils/data_cleaner.py:44-49 | the frame after the loop has handled the first n columns keeps its shape |
| Dates.ConvertedNone | utils/data_cleaner.py:44 | before the loop runs, the frame is the input |
| Dates.ConvertedPending | utils/data_cleaner.py:44-47 | a column the loop has not reached is still the input's, so it parses as the input's would |
| Dates.ConvertedStep | utils/data_cleaner.py:44-49 | one turn of the loop assigns the column its parsed values when it is an `object` column the parser accepts, and otherwise changes nothing |
| Dates.ConvertDates | utils/data_cleaner.py:42-50 | the conversion keeps the shape of the frame |
| Dates.ConvertDatesColumn | utils/data_cleaner.py:44-49 | all or nothing per column: a column is either exactly as before, or an `object` column the parser accepted, now of dtype datetime and holding the parser's answer for that column; names never change |
| Dates.ConvertDatesSkipsTyped | utils/data_cleaner.py:45 | a column whose dtype is not `object` is never touched |
| Dates.ConvertDatesValid | utils/data_cleaner.py:44-50 | conversion keeps every cell fitting its column's dtype |
| Dates.ConvertDatesIdempotent | utils/data_cleaner.py:42-50 | converting twice is the same as converting once |
| Dates.PartialColumnExample | utils/data_cleaner.py:46-49 | a column on which the parser raises (here because of one value it cannot read) is left exactly as it was; the exception is swallowed |
| Dates.FullColumnExample | utils/data_cleaner.py:45-47 | a text column of two parseable dates becomes a datetime column of their timestamps |
| Dates.NaTExample | utils/data_cleaner.py:45-47 | a value the parser reads as NaT (an empty text) does not stop the conversion: the column becomes datetime with NaT in that row |
| Cleaner.DataCleaner.ConvertDates | utils/data_cleaner.py:42-50 | the loop over the columns leaves the cleaner's frame equal to `Dates.ConvertDates` of the frame before, returns that frame, and keeps it well-typed |
| Router.SpaceEnd | utils/data_cleaner.py:31-33 | a greedy `\s` run: every character up to the end is whitespace, and the next one is not |
| Router.LineEnd | utils/data_cleaner.py:32-33 | a greedy `.` run stops at the first line feed or the end of the command |
| Router.Backoff | utils/data_cleaner.py:32-33 | backtracking into `\s+` finds the last position in range where `.` can match, or shows there is none |
| Router.GroupAt | utils/data_cleaner.py:32-33 | a capture of `(.+)` is never empty |
| Router.GroupAtIsGreedy | utils/data_cleaner.py:32-33 | `\s+(.+)` fails iff no group start exists; otherwise it captures from the last possible start to the end of that line, and the capture holds no line feed |
| Router.WordsEnd | utils/data_cleaner.py:31-33 | matching the keywords from i, when it succeeds, ends between i and the end of the command |
| Router.WordsEndIsSpan | utils/data_cleaner.py:31-33 | matching the keywords greedily ends at e iff the regular expression `w0\s+w1…` spans exactly up to e |
| Router.KeywordNotSpace | utils/data_cleaner.py:31-33 | a keyword never starts on whitespace |
| Router.MatchAt | utils/data_cleaner.py:37-38 | a match at a position has one group for a capturing pattern and none otherwise |
| Router.MatchAtIsRegexMatch | utils/data_cleaner.py:31-33 | the pattern matches at i iff some split of the text into keywords and whitespace runs exists, with a group start after it when the pattern captures |
| Router.Matches | utils/data_cleaner.py:37 | `re.search` tries the pattern at every position of the command, the end included |
| Router.FirstMatch | utils/data_cleaner.py:37 | the scan reports a position that holds a match, with that match's groups |
| Router.FirstMatchIsLeftmost | utils/data_cleaner.py:37 | the scan stops at the leftmost match from i on, and reports none only when no position from i on matches |
| Router.Search | utils/data_cleaner.py:37 | `re.search` reports a match with as many groups as the pattern captures |
| Router.SearchIsLeftmost | utils/data_cleaner.py:37 | `re.search` finds the leftmost match, and finds none iff the pattern matches nowhere |
| Router.ResolveIn | utils/data_cleaner.py:36-40 | the result is None iff no pattern of the map occurs; otherwise it is the first route in order whose pattern occurs, called with that match's groups |
| Router.RoutesWellFormed | utils/data_cleaner.py:30-34 | the command map `Router.Routes` holds exactly three routes, in this order: `convertir\s+dates` to the date conversion, `supprimer\s+colonnes\s+(.+)` to dropping columns, `filtrer\s+(.+)` to filtering; each has as many groups as its operation takes arguments, and every keyword is lower-case letters |
| Router.Resolve | utils/data_cleaner.py:36-40 | `execute_command`'s choice: None iff none of the three patterns occurs in the command; otherwise the operation of the first route in map order whose pattern occurs, called with that match's groups |
| RouterProps.ConvertDatesComesFirst | utils/data_cleaner.py:31-38 | a command in which `convertir dates` occurs converts dates, whatever else it holds |
| RouterProps.DropColumnsComesSecond | utils/data_cleaner.py:32-38 | when `convertir dates` does not occur and `supprimer colonnes …` does, the command drops columns with that pattern's argument, even if `filtrer` also occurs |
| RouterProps.FilterComesLast | utils/data_cleaner.py:33-38 | `filtrer …` is dispatched, with its argument, only when neither earlier pattern occurs |
| RouterProps.ResolveIgnoresCase | utils/data_cleaner.py:37 | lower-casing a command selects the same operation, with the lower-cased argument |
| RouterProps.LowerResolveIn | utils/data_cleaner.py:36-40 | case-insensitivity carries through the whole ordered map |
| RouterProps.LowerMatchAt | utils/data_cleaner.py:37 | a pattern matches the lower-cased text where it matches the original, and captures the lower-cased groups |
| RouterProps.LowerSearch | utils/data_cleaner.py:37 | `re.search` reports the same start on the lower-cased text, with the lower-cased groups |
| RouterProps.FirstMatchLowered | utils/data_cleaner.py:37 | when every position's match is lowered, the scan finds the same position with lowered groups |
| RouterProps.LowerKeywordAt | utils/data_cleaner.py:37 | a keyword occurs in the lower-cased text where it occurs in the original |
| RouterProps.LowerWordsEnd | utils/data_cleaner.py:31-33 | the keyword sequence ends at the same place in the lower-cased text |
| RouterProps.LowerGroupAt | utils/data_cleaner.py:32-33 | the captured group of the lower-cased text is the lower-cased group |
| RouterProps.ShiftMatchAt | utils/data_cleaner.py:37 | text put in front of a command does not change what a pattern matches at a shifted position |
| RouterProps.ShiftWordsEnd | utils/data_cleaner.py:31-33 | the keyword sequence ends at the shifted position after a prefix |
| RouterProps.ShiftGroupAt | utils/data_cleaner.py:32-33 | the captured group is the same after a prefix |
| RouterProps.ResolveUnanchored | utils/data_cleaner.py:37 | the search is not anchored: a command that selects an operation still selects one with any text in front of it |
| RouterProps.ArgumentShape | utils/data_cleaner.py:32-33 | the argument given to `supprimer colonnes` or `filtrer` is non-empty, holds no line feed, follows whitespace in the command and runs to the end of its line |
| RouterProps.GroupIsArgument | utils/data_cleaner.py:32-33 | what `\s+(.+)` captures is a piece of the command that follows whitespace and ends at a line end |
| RouterExamples.ConvertDatesExample | utils/data_cleaner.py:31 | "convertir dates" is routed to `_convert_dates` |
| RouterExamples.UpperCaseExample | utils/data_cleaner.py:37 | "CONVERTIR DATES" is routed to `_convert_dates` |
| RouterExamples.RouteOrderExample | utils/data_cleaner.py:30-38 | "filtrer x puis convertir dates" runs only the date conversion: map order wins over position in the command |
| RouterExamples.DropColumnsExample | utils/data_cleaner.py:32 | "supprimer colonnes a, b" is routed to the drop-columns operation with argument "a, b" |
| RouterExamples.NoMatchWithoutInitial | utils/data_cleaner.py:31-37 | a pattern finds no match in a command lacking the first letter of its first keyword in either case |
| RouterExamples.NoInitialNoRoute | utils/data_cleaner.py:36-40 | a command holding none of the letters c, s, f in either case matches no route, so `execute_command` returns None |
| RouterExamples.EmptyIsNone | utils/data_cleaner.py:40 | the empty command returns None |
| RouterExamples.UnknownCommandIsNone | utils/data_cleaner.py:40 | the command "xyzzy" returns None |
| RouterExamples.NoConvertWithoutV | utils/data_cleaner.py:31 | `convertir dates` cannot match a command without the letter v in either case |
| Cleaner.DataCleaner.ExecuteCommand | utils/data_cleaner.py:28-40 | no match returns nothing and leaves the frame; `convertir dates` converts the cleaner's frame and returns it; the other two operations are dispatched with their argument and leave the frame |
| Cleaner.BuildMap | utils/data_cleaner.py:30-34 | building the command map succeeds iff every handler exists, and otherwise raises AttributeError for the first missing one in order |
| Cleaner.ExecuteCommandAsWritten | utils/data_cleaner.py:28-40 | `execute_command` as written raises iff the map names a method the class does not define, and otherwise routes as `Router.Resolve` does |
| Cleaner.ExecuteCommandAlwaysRaises | utils/data_cleaner.py:30-34 | as written, every command raises AttributeError for `_drop_columns` |
| CleanerExamples.CommandDiscrepancy | utils/data_cleaner.py:30-38 | "convertir dates" raises as written, while the intended router sends it to `_convert_dates` |
| Cleaner.FillMissingAsWritten | utils/data_cleaner.py:16-26 | as written, the mean strategy fails on every frame, and any other strategy is `fillna("N/A")` |
| CleanerExamples.MeanFillDiscrepancy | utils/data_cleaner.py:18-25 | on the column [1, null, 3] the query as written fails, while the intended fill gives [1, 2, 3] |

## Left out

- The DuckDB connection, the registration of the frame and the query engine
  are left out. Only the relational meaning of the two queries is modelled.
- Dates.ParseColumn: `pd.to_datetime` is a parameter that answers for a
  whole column at once: it raises, or it gives one timestamp or NaT per value.
  Which columns it accepts is not modelled. That covers the format pandas
  infers from the first value, the values it reads as NaT (`""`, `"NaT"`),
  time zones and units. The model fixes only the length of the answer, that a
  missing value stays NaT, and what the loop does with a success or a failure.
- Python's full Unicode case folding under `re.IGNORECASE` is left out (for
  example, the Kelvin sign matching `k`). Letters fold by ASCII only.
- Floating-point arithmetic is left out. The average uses exact reals, so
  rounding, NaN values as numbers and pandas dtype promotion of numbers do
  not appear.
- The bodies of `_drop_columns` and `_filter_data` do not exist in the class.
  The two operations are tags carrying their raw argument
  (`Cleaner.Outcome.Dispatched`). Column-list parsing and filter predicates
  are not invented.
- Distinct.RemoveDuplicates: no row order is claimed, because `SELECT DISTINCT`
  promises none. `Dedup` happens to keep first occurrences.
- Cleaner.DataCleaner.FillMissing: it follows the intended per-column mean
  fill, not the failing query. The query as written is
  `Cleaner.FillMissingAsWritten`.
- Fill.FillMean: only columns of a numeric dtype are averaged. `AVG` on text
  fails in DuckDB, and the intended fill is over numeric columns.
- Python exceptions other than the two findings are not modelled. The bare
  `except` around `pd.to_datetime` swallows every failure, which is modelled
  as the parser returning None.
- Dates.ConvertDates: a frame with two columns of the same name is converted
  column by column, by position. In the source, `self.df[col]` at
  utils/data_cleaner.py:45 is then a DataFrame, and `.dtype` raises
  AttributeError outside the `try`. That exception is not modelled.
- Router: the command language is exactly the three French patterns at
  utils/data_cleaner.py:31-33. No other phrasing is recognised.
- Cleaner.DataCleaner.ConvertDates: it rewrites the cleaner's own copy in
  place, as utils/data_cleaner.py:47 does. The caller's frame is untouched
  only because of the copy at line 8 (`Cleaner.CleanWithCommand`).
- `app.py` (UI, upload, session state and the replace-when-not-None caller
  rule) is not part of this model. Neither is `utils/viz_helper.py`.

## Findings

| source | as written | input that shows it | evidently intended | confidence | as-written member | corrected member |
|---|---|---|---|---|---|---|
| utils/data_cleaner.py:30-34 | the dict literal evaluates `self._drop_columns` and `self._filter_data`, which the class does not define, before any pattern is tried | the command "convertir dates" raises AttributeError `_drop_columns` | the first pattern that occurs picks its operation; "convertir dates" runs `_convert_dates` | high; not executed | Cleaner.ExecuteCommandAlwaysRaises | Cleaner.DataCleaner.ExecuteCommand |
| utils/data_cleaner.py:22 | the REPLACE clause uses the identifier `column`, which is a reserved word of DuckDB's grammar and names no column of the frame | a frame with the numeric column x = [1, null, 3] and strategy "mean": the query fails | every null of a numeric column becomes that column's average over its non-null values, so x becomes [1, 2, 3] | medium; not executed | CleanerExamples.MeanFillDiscrepancy | Fill.FillMean |

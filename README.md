# Stealth CME characterisation and correlation scan, modelled in Dafny

The repository looks for "stealth" coronal mass ejections: CMEs that have
no flare to go with them. It looks for them in SDO/EVE extreme-ultraviolet
irradiance, a multi-channel time series with one column per emission line.
This project models its four core pieces:

- **`characterizeStealthCMEs`** builds the JEDI catalog:
  - It starts from one wide row. The row has 7 event columns, 15 groups
    with one column per channel, and 16 groups with one column per ordered
    pair of channels.
  - It keeps the SOHO catalog rows whose `Stealth?` flag is exactly `yes`.
  - For each such row, it cuts the closed window [t − 1.5 h, t + 4 h] out of
    the irradiance series and converts each channel to percent of its first
    sample.
  - It then fits each channel and parameterises the dimming. The chain is
    depth, then slope, then duration, each gated on the one before.
  - It writes the results into the one shared row and appends that row to
    the catalog file.

  Modules: `Schema`, `Catalog`, `Windowing` and `Characterization`.
- **`correlationCoefficientScan`** slides a window as long as a reference
  event over the series:
  - The window advances 60 rows at a time.
  - Each window is normalised the same way and then fitted.
  - It is scored by the sum of hand-written Pearson coefficients, one per
    channel, against the reference.
  - A record is written when the score is a number.

  Modules: `Correlation` and `Scanner`.
- **`latex_float`** renders the `.2g` text of a float as LaTeX scientific
  notation. Module: `NumberPrinting`.
- **`closest`** returns the index of the element nearest a target. Module:
  `Closest`.

Conventions of the model:

- **NaN.** A floating-point value is `Num = Option<real>`, and `None` is NaN.
  Arithmetic propagates NaN. A zero divisor gives NaN.
- **Time.** Timestamps are whole seconds, so 1.5 h is 5400 and 4 h is 14400.
  A series is `Series(times, columns)`, with one column per channel.
- **External routines.** The curve fit and the depth, slope and duration
  routines are implemented outside the repository. They are
  function-valued parameters (`FitStrategy`, `Strategies`).
- **Square root.** The square root used by the standard deviation is a
  parameter. The `IsSqrt` predicate requires it to be non-negative and to
  square back to its argument.
- **Imperative parts.** The drivers are imperative:
  - `JediRow` is the row that is updated in place.
  - `CatalogFile` is the file that receives the header and the still
    all-NaN row once, and then one line per event.
  - `OutputTable` is the scan's table, which grows through
    `output_table.loc[i] = …`.
  - Their loops are `while`/`for` loops proved against fold functions:
    `Run`, `ParamChannels`, `FitChannels`, `Scan`, `AggregateUpTo` and
    `NumeratorUpTo`.

## Model

| member | source | states |
|---|---|---|
| Common.Div | CorrelationCoefficientAnalysis.py:152 | the quotient is a number exactly when both operands are numbers and the divisor is non-zero, and then quotient × divisor = dividend |
| Common.Percent | CharacterizeStealthCMEs.py:177 | (x − b)/b·100 is a number exactly when x and the baseline b are numbers and b ≠ 0, and then b + r·b/100 gives back x |
| Common.Normalise | CharacterizeStealthCMEs.py:176-177 | the first sample maps to 0 when the baseline is a non-zero number; a zero or NaN baseline makes the whole channel NaN; otherwise sample i is a number exactly when it was one; the length is kept |
| Common.Uncertainty | CharacterizeStealthCMEs.py:185 | the uncertainty passed to the fit is one copy of 0.002545 per sample |
| Windowing.Selected | CharacterizeStealthCMEs.py:157 | the selected positions are in increasing order and are exactly the samples with lo ≤ timestamp ≤ hi |
| Windowing.SliceTimeMembers | CharacterizeStealthCMEs.py:155-157 | a timestamp is in the event window exactly when it is in the series and inside the closed interval |
| Windowing.SliceTimeOrdered | CharacterizeStealthCMEs.py:157 | the window keeps the series' strictly increasing order |
| Windowing.SliceTimeValues | CharacterizeStealthCMEs.py:157 | sample j of the window has the timestamp and every channel value of the series sample it was selected from |
| Windowing.SliceRows | CorrelationCoefficientAnalysis.py:72 | `iloc[from:to]` holds rows from..to−1, clipped to the series, with their timestamps and values |
| Windowing.NormaliseWindow | CorrelationCoefficientAnalysis.py:76-77 | every channel of the window is normalised against its own first row |
| Schema.PermutationAt | CharacterizeStealthCMEs.py:106-107 | there are N(N−1) ordered pairs; the pair (channels[a], channels[b]) with a ≠ b is at a(N−1) + b, less one when b > a (itertools order, both directions present) |
| Schema.PermutationsDistinct | CharacterizeStealthCMEs.py:106 | with distinct channel names no pair joins a channel with itself |
| Schema.ColumnsParts | CharacterizeStealthCMEs.py:82-124 | the columns are the 7 event columns, then 15·N channel columns, then 16 groups over the N(N−1) pairs |
| Schema.HeaderLength | CharacterizeStealthCMEs.py:82-124 | the header has 7 + 15N + 16N(N−1) names |
| Schema.HeaderStartsWithMetadata | CharacterizeStealthCMEs.py:82-89 | the header begins `Event #`, `Start Time`, `End Time`, `GOES Flare Class`, `Pre-Flare Start Time`, `Pre-Flare End Time`, `Flare Interrupt` |
| Schema.HeaderChannelAt | CharacterizeStealthCMEs.py:90-104 | channel groups are feature-major and channel-minor: name 7 + sN + c is channel c followed by the s-th suffix |
| Schema.HeaderPairAt | CharacterizeStealthCMEs.py:106-124 | after the channel groups, the s-th pair group names every ordered pair as "A by B" followed by the s-th pair suffix |
| Schema.PairColumnsDistinctChannels | CharacterizeStealthCMEs.py:109-124 | no pair column joins a channel with itself, so no "A by A" column exists |
| Catalog.Blank | CharacterizeStealthCMEs.py:82-89 | a new row holds every column, and every value is NaN |
| Catalog.Cells | CharacterizeStealthCMEs.py:372 | a written line holds the row's values in column order |
| Catalog.JediRow.constructor | CharacterizeStealthCMEs.py:82-124 | the row is created once, over the catalog's columns, with every value NaN |
| Catalog.JediRow.Set | CharacterizeStealthCMEs.py:165 | assigning one field changes that field and no other |
| Catalog.CatalogFile.constructor | CharacterizeStealthCMEs.py:126-127 | the file starts with the header and exactly one data line: the row's cells as they are when the file is created |
| Catalog.CatalogFile.Append | CharacterizeStealthCMEs.py:372 | appending adds exactly the row's current cells as one line |
| Characterization.EventWindow | CharacterizeStealthCMEs.py:155-157 | the event window has every channel of the series |
| Characterization.FitChannels | CharacterizeStealthCMEs.py:189-211 | after k channels, a channel that is not all NaN is replaced by its fit and the others are unchanged; only the fit fields of the row change |
| Characterization.FitEventChannels | CharacterizeStealthCMEs.py:189-211 | the fit loop leaves the frame and the row as `FitChannels` over every channel |
| Characterization.ParameteriseFrame | CharacterizeStealthCMEs.py:228-305 | a channel's parameterisation changes only that channel's parameter fields, and changes nothing for an all-NaN channel |
| Characterization.GatingWithDepthTime | CharacterizeStealthCMEs.py:252-305 | with a depth time, depth, slope (bounded by the window start and the depth time) and duration are all written |
| Characterization.GatingWithoutDepthTime | CharacterizeStealthCMEs.py:252-270 | with a NaN depth time, only depth is written; the slope and duration fields keep their old values |
| Characterization.ParamChannels | CharacterizeStealthCMEs.py:228-305 | the parameterisation loop changes parameter fields only |
| Characterization.ParameteriseChannel | CharacterizeStealthCMEs.py:237-305 | one iteration changes the row field by field as `Parameterise` does |
| Characterization.ParameteriseEventChannels | CharacterizeStealthCMEs.py:228-305 | the parameterisation loop leaves the row as `ParamChannels` over every channel |
| Characterization.Characterise | CharacterizeStealthCMEs.py:189-305 | fitting then parameterising changes only fit and parameter fields |
| Characterization.Event | CharacterizeStealthCMEs.py:150-177 | an event never drops a column, and it fails at `iloc[0]` exactly when its window holds no sample |
| Characterization.EventFields | CharacterizeStealthCMEs.py:165-167 | an event stores its catalog index and the two window bounds |
| Characterization.EventKeepsUnwritten | CharacterizeStealthCMEs.py:165-305 | an event assigns no column outside the event, fit and parameter fields |
| Characterization.CharacterizeEvent | CharacterizeStealthCMEs.py:150-305 | one stealth event, done on the shared row, gives the row and the empty-window flag of `Event` |
| Characterization.FitChannelsSkip | CharacterizeStealthCMEs.py:189-194 | the fit loop leaves every field of an all-NaN channel alone |
| Characterization.ParameteriseKeeps | CharacterizeStealthCMEs.py:228-305 | parameterising one channel leaves the other channels' fields alone |
| Characterization.ParamChannelsSkip | CharacterizeStealthCMEs.py:237-240 | the parameterisation loop leaves every field of an all-NaN channel alone |
| Characterization.SkippedChannelKeepsValues | CharacterizeStealthCMEs.py:189-240 | a channel that is all NaN in the event's window keeps the values it had before the event: stale ones from an earlier event, or NaN |
| Characterization.GatingDepth | CharacterizeStealthCMEs.py:252-258 | a channel that is not all NaN always gets the depth and the depth time of its curve |
| Characterization.FitFieldsWritten | CharacterizeStealthCMEs.py:189-211 | once the fit loop has passed a channel that is not all NaN, its gamma and score fields hold that channel's fit |
| Characterization.ParamFieldsWritten | CharacterizeStealthCMEs.py:228-305 | a parameter field of channel j ends the parameterisation loop as channel j's own iteration wrote it; later channels do not touch it |
| Characterization.ChannelGroup | CharacterizeStealthCMEs.py:90-104 | every per-channel feature has its group among the channel groups |
| Characterization.ChannelFieldInColumns | CharacterizeStealthCMEs.py:90-104 | every channel has a column in every channel group |
| Characterization.CoversChannelFields | CharacterizeStealthCMEs.py:82-124 | a row over the catalog's columns has every per-channel field of every channel |
| Characterization.EventFitFields | CharacterizeStealthCMEs.py:189-211 | after an event, a channel that is not all NaN in the event's window holds its fit's gamma and score |
| Characterization.ChannelParameters | CharacterizeStealthCMEs.py:228-305 | channel c's own parameterisation of its fitted curve keeps every column of the row |
| Characterization.EventChannelField | CharacterizeStealthCMEs.py:228-305 | after an event, a field of channel c holds what channel c's parameterisation of its fitted curve wrote |
| Characterization.EventParameters | CharacterizeStealthCMEs.py:228-305 | after an event, every parameter field of channel c holds what channel c's parameterisation of its fitted curve wrote |
| Characterization.EventDepthFields | CharacterizeStealthCMEs.py:252-258 | after an event, a channel whose fitted curve is not all NaN holds that curve's depth and depth time |
| Characterization.EventSlopeDurationFields | CharacterizeStealthCMEs.py:260-305 | when the depth has a time, the event also holds the slope between the window start and the depth time (its minimum, maximum, mean and two bounds) and the duration with its start and end |
| Characterization.Run | CharacterizeStealthCMEs.py:140-146 | the row always covers every column, and a stop happens at a visited catalog row |
| Characterization.RunStaysStopped | CharacterizeStealthCMEs.py:176 | once `iloc[0]` has raised, later catalog rows change nothing |
| Characterization.VisitCatalogRow | CharacterizeStealthCMEs.py:144-372 | one loop iteration takes the row, the file and the stop flag to `Run` over one more catalog row |
| Characterization.CharacterizeStealthCMEs | CharacterizeStealthCMEs.py:35-372 | the file holds the header, then the all-NaN line written at creation, then exactly the lines of `Run` over the whole catalog; the run stops where `Run` stops |
| Characterization.StealthIndices | CharacterizeStealthCMEs.py:145-146 | the listed catalog indices are increasing and each one is a `yes` row |
| Characterization.StealthIndicesComplete | CharacterizeStealthCMEs.py:145-146 | every `yes` row is listed |
| Characterization.ColumnsStart | CharacterizeStealthCMEs.py:83-85 | the first three columns are `Event #`, `Start Time` and `End Time` |
| Characterization.RunRowCount | CharacterizeStealthCMEs.py:140-146 | one line is appended after the all-NaN first line per `yes` row visited before the stop, and a stop happens only at a `yes` row |
| Characterization.RunRowFields | CharacterizeStealthCMEs.py:165-167 | line k carries the catalog index and the window bounds of the k-th `yes` row |
| Characterization.RunStopsFor | CharacterizeStealthCMEs.py:176 | the run stops at the first `yes` row whose step reports an empty window |
| Characterization.RunStopsAtEmptyWindow | CharacterizeStealthCMEs.py:157-176 | the run stops exactly at the first `yes` row whose event window has no sample |
| Characterization.CatalogRows | CharacterizeStealthCMEs.py:140-167 | the number of lines appended after the all-NaN first line is the number of `yes` rows before the stop (all of them when there is none); appended line k's `Event #` is the catalog index of the k-th `yes` row, and its start and end are that event's bounds |
| Characterization.UnwrittenStayMissingFor | CharacterizeStealthCMEs.py:82-89 | columns the driver never assigns stay NaN in the row and in every line |
| Characterization.UnwrittenColumnsStayMissing | CharacterizeStealthCMEs.py:82-124 | the GOES, pre-flare, interrupt, uncertainty and pair columns are NaN in every appended line |
| Characterization.LookupAsWritten | CharacterizeStealthCMEs.py:144 | the as-written lookup only ever records catalog indices it has visited |
| Characterization.LookupAsWrittenAlwaysFails | CharacterizeStealthCMEs.py:144 | as written, the first iteration fails on the unbound `i`, and no event is characterised |
| Characterization.LookupCounterexample | CharacterizeStealthCMEs.py:144 | a one-row catalog with a stealth CME whose window holds a sample: the corrected lookup finds event 0 and the driver appends one line whose `Event #` is 0; the as-written lookup finds none |
| NumberPrinting.Split | jpm_number_printing.py:25 | `split` gives one more part than there are separators; no part holds the separator; joining the parts gives back the text |
| NumberPrinting.SplitAtSingle | jpm_number_printing.py:25 | with exactly one separator, the parts are the text before it and the text after it |
| NumberPrinting.NatToStringValue | jpm_number_printing.py:26 | the decimal text of n reads back as n |
| NumberPrinting.IntToString | jpm_number_printing.py:26 | `str()` of an int has no '+', no leading zero and no "-0" |
| NumberPrinting.ParseInt | jpm_number_printing.py:26 | on the exponent text that `.2g` produces (ASCII sign and digits), `int()` accepts exactly an optional sign followed by one or more digits |
| NumberPrinting.IntToStringRoundTrip | jpm_number_printing.py:26 | `int(str(i)) == i` |
| NumberPrinting.CanonicalExponent | jpm_number_printing.py:26 | a signed exponent reads as its value, with '-' kept and '+' and leading zeros dropped, and prints canonically |
| NumberPrinting.LatexFloat | jpm_number_printing.py:23-28 | text without 'e' comes back unchanged; in the 'e' case the output starts with `$` and ends with `}$` |
| NumberPrinting.LatexFloatScientific | jpm_number_printing.py:24-26 | with one 'e', the base is the text before it, kept verbatim, and the exponent is `int()` of the text after it (a ValueError when it is not an integer) |
| NumberPrinting.LatexFloatTooManyParts | jpm_number_printing.py:25 | two or more 'e's make the two-name unpacking fail |
| NumberPrinting.PositiveExponentExample | jpm_number_printing.py:26 | "+09" reads as 9 and prints "9" |
| NumberPrinting.NegativeExponentExample | jpm_number_printing.py:26 | "-05" reads as −5 and prints "-5" |
| NumberPrinting.RenderExample | jpm_number_printing.py:26 | base "1.4" and exponent 9 render as `$1.4 \times 10^{9}$` |
| NumberPrinting.LatexFloatExample | jpm_number_printing.py:21-26 | the docstring's "1.4e+09" becomes `$1.4 \times 10^{9}$` |
| Closest.Closest | closest.py:26 | for a non-empty array, the result is a valid index whose distance to the target is the least, and no earlier index is as close |
| Closest.ClosestUnique | closest.py:26 | any index that is the first minimiser is the one returned |
| Closest.ClosestExample | closest.py:24 | the nearest index to 4.3 in 0..9 is 4 |
| Correlation.Count | CorrelationCoefficientAnalysis.py:136 | `count()` is at most the length, is zero exactly for an all-NaN column, and is the length for a column without NaN |
| Correlation.Mean | CorrelationCoefficientAnalysis.py:137 | the mean is a number exactly when some sample is |
| Correlation.Variance | CorrelationCoefficientAnalysis.py:139 | the population variance is a number exactly when some sample is, and then it is non-negative |
| Correlation.Std | CorrelationCoefficientAnalysis.py:139 | the standard deviation is a number exactly when some sample is |
| Correlation.StdZero | CorrelationCoefficientAnalysis.py:139 | a zero standard deviation means a zero variance |
| Correlation.At | CorrelationCoefficientAnalysis.py:133-143 | after the index reset, row i pairs the i-th samples, with NaN past the end of the shorter column |
| Correlation.NumeratorUpTo | CorrelationCoefficientAnalysis.py:147-150 | the running numerator is a number exactly when every row so far gave a number |
| Correlation.NumeratorDefinedOnlyIfComplete | CorrelationCoefficientAnalysis.py:147-150 | a number as numerator needs two columns of one length without NaN |
| Correlation.NumeratorDefinedIfComplete | CorrelationCoefficientAnalysis.py:147-150 | two columns of one length without NaN give a number as numerator |
| Correlation.NumeratorDefined | CorrelationCoefficientAnalysis.py:147-150 | both directions together: the numerator is a number if and only if the columns have one length and no NaN |
| Correlation.CoefficientNeedsCompleteColumns | CorrelationCoefficientAnalysis.py:143-152 | a NaN sample, or columns of different lengths, make the coefficient NaN |
| Correlation.NumeratorOfSelf | CorrelationCoefficientAnalysis.py:147-150 | a column paired with itself has the sum of its squared deviations as numerator |
| Correlation.SelfCoefficient | CorrelationCoefficientAnalysis.py:136-152 | a non-constant column without NaN correlates with itself as exactly 1 (numerator = n·var = denominator) |
| Correlation.NumeratorAtMean | CorrelationCoefficientAnalysis.py:147-150 | when one column sits at its mean throughout, the numerator is 0 |
| Correlation.ZeroVarianceUndefined | CorrelationCoefficientAnalysis.py:145-152 | a zero-variance column gives 0/0, so the coefficient is NaN |
| Correlation.ZeroDenominatorZeroNumerator | CorrelationCoefficientAnalysis.py:145-152 | whenever the denominator is 0 and the numerator a number, the numerator is 0 too: never x/0 with x ≠ 0 |
| Correlation.AggregateMissingName | CorrelationCoefficientAnalysis.py:131 | a frame column that the reference lacks raises KeyError with its name, whatever follows |
| Correlation.AggregateFirstMissing | CorrelationCoefficientAnalysis.py:129-131 | the first missing column is the one reported |
| Correlation.AggregatePresent | CorrelationCoefficientAnalysis.py:153 | with every column present, the sum is a number exactly when every coefficient is (a NaN channel makes the total NaN) |
| Correlation.AggregateOfOnes | CorrelationCoefficientAnalysis.py:153 | coefficients that are all 1 sum to the number of columns |
| Correlation.AggregateOfIdentical | CorrelationCoefficientAnalysis.py:124-153 | a frame identical to the reference, without NaN and without a constant column, scores the number of channels (a sum, not a mean) |
| Correlation.AggregateStep | CorrelationCoefficientAnalysis.py:153 | one more present column adds its coefficient to the total |
| Correlation.ColumnCoefficient | CorrelationCoefficientAnalysis.py:136-152 | the loop over the joined rows computes `Coefficient` |
| Correlation.AddColumn | CorrelationCoefficientAnalysis.py:129-153 | one pass over a column extends the running total by one column |
| Correlation.TotalCoefficient | CorrelationCoefficientAnalysis.py:124-153 | the loop over the columns computes `Aggregate`, or the KeyError of the first missing column |
| Scanner.WindowCountBounds | CorrelationCoefficientAnalysis.py:61-68 | `range(1, int(W/L))` evaluates no window when W < 2L, and otherwise n windows with (n+1)L ≤ W < (n+2)L |
| Scanner.WindowsAreFull | CorrelationCoefficientAnalysis.py:59-72 | with L ≥ 60, every evaluated window holds exactly L rows |
| Scanner.WindowsOverlap | CorrelationCoefficientAnalysis.py:165-166 | consecutive windows overlap exactly when L > 60 |
| Scanner.FitPrefix | CorrelationCoefficientAnalysis.py:90-110 | after k channels, channels that are all NaN (or not yet visited) are unchanged and the others are replaced by their fit |
| Scanner.FitWindowChannels | CorrelationCoefficientAnalysis.py:90-115 | the fit loop leaves the frame as `FitPrefix` over every channel |
| Scanner.WindowResult | CorrelationCoefficientAnalysis.py:72-163 | a window's error names that window and is an empty window or a missing reference column; a record carries its window number |
| Scanner.EmptyWindowFails | CorrelationCoefficientAnalysis.py:72-76 | `iloc[0]` fails exactly when L = 0 or the window starts past the last row |
| Scanner.RecordSpansWindow | CorrelationCoefficientAnalysis.py:157-158 | a record's start and end are the first and last timestamps of its window, rows 60(i−1) and 60(i−1)+|window|−1 |
| Scanner.MissingChannelNoRecord | CorrelationCoefficientAnalysis.py:90-160 | an all-NaN channel is not fitted, stays NaN in the correlation, and keeps the window from being recorded |
| Scanner.IdenticalWindowScoresChannelCount | CorrelationCoefficientAnalysis.py:124-161 | a fitted window identical to the reference, without NaN or a constant channel, is recorded with the channel count as its score |
| Scanner.EvaluateWindow | CorrelationCoefficientAnalysis.py:72-158 | one window, cut at `startRow`/`endRow`, has the outcome `WindowResult` gives |
| Scanner.ScanStaysStopped | CorrelationCoefficientAnalysis.py:68 | once a window has raised, later windows change nothing |
| Scanner.ScanGrows | CorrelationCoefficientAnalysis.py:160-161 | the table only grows: earlier records are a prefix of later ones |
| Scanner.ScanRecords | CorrelationCoefficientAnalysis.py:160-161 | each record is the one its window produced, event numbers lie in 1..k, and they strictly increase |
| Scanner.ScanKeepsRecord | CorrelationCoefficientAnalysis.py:160-161 | every window reached that has a number as its score has its record in the table |
| Scanner.Place | CorrelationCoefficientAnalysis.py:161 | `loc[label] = row` puts the row in the table; an existing label keeps the length, and a new label appends |
| Scanner.PlaceFresh | CorrelationCoefficientAnalysis.py:161 | a label above every label in the table appends the row |
| Scanner.OutputTable.constructor | CorrelationCoefficientAnalysis.py:48 | the table starts empty |
| Scanner.OutputTable.Put | CorrelationCoefficientAnalysis.py:161 | a put changes the records as `Place` does |
| Scanner.VisitWindow | CorrelationCoefficientAnalysis.py:68-166 | one iteration of the window loop takes the table to `Scan` over one more window |
| Scanner.ScanWindows | CorrelationCoefficientAnalysis.py:59-166 | the window loop leaves the table and the error of `Scan` over every window due |
| Scanner.CorrelationCoefficientScan | CorrelationCoefficientAnalysis.py:28-167 | a zero-length reference raises on `int(W/0)` with an empty table; otherwise the table and the error are those of `Scan` over `int(W/L) − 1` windows |
| Scanner.ShortReferenceRunsOff | CorrelationCoefficientAnalysis.py:61-76 | with W = 100 and L = 10, nine windows are due but the third starts past the end, so the scan always raises |
| Scanner.AsWrittenWindow | CorrelationCoefficientAnalysis.py:111-125 | the frame carried to the next window, if any, has every channel |
| Scanner.AsWrittenAgreesWhenFitted | CorrelationCoefficientAnalysis.py:111-125 | where a window fits at least one channel, the code as written and the model give the same outcome |
| Scanner.UnfittedWindowCounterexample | CorrelationCoefficientAnalysis.py:111-125 | a one-channel all-NaN series: as written, the scan fails on an unbound name; the model ends with no record and no error |

## Left out

- Plotting, the summary plots and the debugger trap at
  CharacterizeStealthCMEs.py:310-366 are left out. They only draw pictures.
- Progress bars, `os.makedirs` and the `Time.now()` file names are left out.
  They are I/O.
- Reading the CSVs is left out. The catalog file is a header plus a sequence
  of lines, and the scan's output table is its sequence of records. The scan
  rewrites its whole table after each record (lines 162-163); the model keeps
  only the table itself.
- `eve_lines_event.to_csv` at CharacterizeStealthCMEs.py:225 writes the
  fitted event as `eve_lines_event_percents_fitted.csv`, and
  CorrelationCoefficientAnalysis.py:34 reads that file back as the scan's
  reference event. The model does not write it: the scan takes its reference
  as an input, as it takes the irradiance series.
- Logging is left out. The model follows the run with `verbose` off.
- Characterization.CharacterizeStealthCMEs: this does not model
  CharacterizeStealthCMEs.py:161. With `verbose` on, that line adds a string
  to a timestamp and raises TypeError at the first stealth event. It only
  builds a log message.
- Characterization.CharacterizeStealthCMEs: the catalog's `Date` and `Time`
  text is not parsed into a timestamp. The model takes the event time as whole
  seconds.
- The external routines are parameters: `automatic_fit_light_curve` and
  `determine_dimming_depth/slope/duration`. Their code is not part of this
  model. An exception raised inside them is not modelled. The fit is assumed
  to return a curve as long as the window: CharacterizeStealthCMEs.py:209 and
  CorrelationCoefficientAnalysis.py:109 assign it back as a column, which
  pandas refuses for a curve of another length, and the model does not
  carry that error.
- `determine_preflare_irradiance` is imported but never called, so it is left
  out.
- Common.Div: a zero divisor gives NaN, where IEEE arithmetic gives ±inf for a
  non-zero dividend. This gap does not arise in the correlation:
  `Correlation.ZeroDenominatorZeroNumerator` proves that the dividend is then 0.
- Common.Percent: a zero baseline gives NaN for every sample. IEEE arithmetic
  gives ±inf for a non-zero sample. Rounding is not modelled, because values
  are reals. Downstream, such a channel counts as all NaN in the model, so it
  is skipped where the source fits it (see `Common.Normalise`).
- Common.Normalise: a channel whose first sample in the window is 0 and that
  has a non-zero later sample becomes all NaN in the model. The source turns
  that later sample into ±inf, which is not null, so `isnull().all()` is False
  there: CharacterizeStealthCMEs.py:190-211 fits the channel and :237-305
  parameterise it and write its fit and parameter fields, and the scan's fit
  loop (CorrelationCoefficientAnalysis.py:90-110) fits it too. The model skips
  that channel for fitting and parameterisation, and its fields keep their
  values from an earlier event (`Characterization.SkippedChannelKeepsValues`).
  Infinity is not modelled as a value of its own.
- Correlation.Std: the square root is an abstract function. It is constrained
  by `IsSqrt` wherever a lemma needs its value.
- Closest.Closest: the elements are reals, so a NaN element is not modelled.
  numpy's argmin would return the index of the first NaN.
- The in-place `reset_index` (CorrelationCoefficientAnalysis.py:133-134) is
  left out as a mutation of the reference. Pairing rows by position is
  modelled (`Correlation.At`).
- The commented-out helpers at CorrelationCoefficientAnalysis.py:173-211 are
  not modelled. DetectStealthCMEsInSOHO.py and goes_soho.py are not part of
  this model either: they only produce the `Stealth?` flag, which is an input
  here. jpm_logger.py is not part of this model.
- NumberPrinting.ParseInt: only the text `.2g` can put after an 'e' is
  modelled, an optional ASCII sign and ASCII digits. Python's `int()` also
  accepts surrounding whitespace, `_` between digits and non-ASCII digits;
  `.2g` never produces these, so that part of `int()` is not modelled.
- NumberPrinting.LatexFloat: the `.2g` formatting is a library call. The model
  starts from the formatted text.

Where the repository's own description and its code disagree, the model
follows the code:

- The scan evaluates `int(W/L) − 1` windows. It does not stop when a window's
  end passes the series' end. With L < 60, windows can start past the end, and
  `iloc[0]` then raises (`Scanner.ShortReferenceRunsOff`).
- A channel whose coefficient is NaN (zero variance, a NaN sample) is not
  excluded from the sum. It makes the total NaN, so the window is not recorded
  (`Correlation.AggregatePresent`, `Correlation.ZeroVarianceUndefined`).
- Errors do end both loops:
  - an empty event or scan window raises IndexError at `iloc[0]`;
  - a frame column that the reference lacks raises KeyError.

  The model carries these as the `stopped` index and the `ScanError` value.
- A channel skipped for an event does not get unset fields. The row is never
  reset, so the channel keeps the values of an earlier event
  (`Characterization.SkippedChannelKeepsValues`).

## Findings

| source | as written | input that shows it | evidently intended | confidence | as-written member | corrected member |
|---|---|---|---|---|---|---|
| CharacterizeStealthCMEs.py:144 | the catalog row is read as `iloc[i]`, but `i` is only bound later, by the fit loop, so the first iteration raises UnboundLocalError | a one-row catalog `[("yes", 0)]`: no event is characterised (`Characterization.LookupCounterexample`) | `iloc[t]`, the row of the loop variable | not executed | Characterization.LookupAsWritten | Characterization.CharacterizeStealthCMEs |
| CorrelationCoefficientAnalysis.py:111 | `event_time_slice_fitted` is bound only when the fit loop fits a channel, and the correlation at line 125 reads it: a window with no fitted channel uses a stale frame, or an unbound name | one channel, rows at 0 s and 60 s, both NaN, and a one-row reference: as written this raises NameError, where the intended scan ends with no record (`Scanner.UnfittedWindowCounterexample`) | correlate the current window's frame, fitted where a fit was made | not executed | Scanner.AsWrittenWindow | Scanner.WindowResult |

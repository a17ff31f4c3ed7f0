/** `correlationCoefficientScan` (CorrelationCoefficientAnalysis.py:28-167):
    a window as long as the reference event slides over the irradiance
    series 60 rows at a time; each window is converted to percent of its
    first row, its channels are fitted, and the summed correlation against
    the reference is written to the output table when it is a number. */
module Scanner {
  import opened Common
  import opened Windowing
  import opened Correlation

  /** Rows the window advances by on each iteration (one hour of minutes). */
  const Stride: nat := 60

  /** One row of the output table: `Event #`, `Start Time`, `End Time`,
      `Correlation Coefficient`. */
  datatype Record = Record(event: nat, start: int, end: int, correlation: real)

  /** The exceptions that end the scan: the division by a zero reference
      length (line 61), `iloc[0]` of an empty window (line 76), and a window
      channel the reference lacks (line 131). */
  datatype ScanError = ZeroReferenceLength | EmptyWindow(window: nat) | MissingReference(window: nat, channel: string)

  // ---------------------------------------------------------------------
  // Window arithmetic (lines 59-72, 165-166)

  /** Windows the loop `for i in range(1, numSlices)` evaluates, with
      numSlices = int(W / L). */
  function WindowCount(w: nat, l: nat): nat
    requires l > 0
  {
    if w / l >= 1 then w / l - 1 else 0
  }

  /** Window n + 1 would need L rows beyond the last window's; the windows
      evaluated are those whose successor still fits: there are none below
      2L rows, and otherwise (n + 1) L <= W < (n + 2) L. */
  lemma WindowCountBounds(w: nat, l: nat)
    requires l > 0
    ensures var n := WindowCount(w, l);
            && (n == 0 <==> w < 2 * l)
            && (n > 0 ==> l * (n + 1) <= w < l * (n + 2))
  {
    var q := w / l;
    assert l * q <= w < l * (q + 1);
  }

  /** First row of window i (`startRow`). */
  function WindowStart(i: nat): nat
    requires i >= 1
  {
    Stride * (i - 1)
  }

  /** Window i: rows [60(i-1), 60(i-1) + L), clipped to the series. */
  function Window(eve: Series, l: nat, i: nat): (w: Series)
    requires eve.WellFormed() && i >= 1
    ensures w.WellFormed() && |w.columns| == |eve.columns|
  {
    SliceRows(eve, WindowStart(i), WindowStart(i) + l)
  }

  /** With a reference of at least 60 rows every evaluated window is full:
      it holds exactly L rows of the series. */
  lemma WindowsAreFull(eve: Series, l: nat, i: nat)
    requires eve.WellFormed() && l >= Stride
    requires 1 <= i <= WindowCount(|eve.times|, l)
    ensures |Window(eve, l, i).times| == l
  {
    var n := WindowCount(|eve.times|, l);
    WindowCountBounds(|eve.times|, l);
    assert Stride * (i - 1) <= l * (i - 1) by {
      MulMonotone(i - 1, Stride, l);
    }
    assert l * (i + 1) <= l * (n + 1) by {
      MulMonotone(l, i + 1, n + 1);
    }
    assert WindowStart(i) + l <= l * (i + 1);
  }

  lemma MulMonotone(k: nat, x: nat, y: nat)
    requires x <= y
    ensures k * x <= k * y && x * k <= y * k
  {
  }

  /** Consecutive windows overlap exactly when the reference is longer
      than the stride. */
  lemma WindowsOverlap(l: nat, i: nat)
    requires i >= 1
    ensures WindowStart(i + 1) < WindowStart(i) + l <==> l > Stride
  {
  }

  // ---------------------------------------------------------------------
  // Fitting (lines 84-115)

  /** The window frame after the fit loop has visited its first k channels. */
  function FitPrefix(frame: seq<seq<Num>>, times: seq<int>, fit: FitStrategy, k: nat): (r: seq<seq<Num>>)
    ensures |r| == |frame|
    ensures forall c :: 0 <= c < |frame| && (k <= c || AllMissing(frame[c])) ==> r[c] == frame[c]
    ensures forall c :: 0 <= c < k && c < |frame| && !AllMissing(frame[c]) ==>
              r[c] == fit(times, frame[c], Uncertainty(|times|)).curve
  {
    seq(|frame|, c requires 0 <= c < |frame| => if c < k then Fitted(frame[c], times, fit) else frame[c])
  }

  /** The fit loop: every channel not entirely NaN is replaced, in place,
      by its fitted curve; all-NaN channels stay as they are. */
  method FitWindowChannels(frame0: seq<seq<Num>>, times: seq<int>, fit: FitStrategy) returns (frame: seq<seq<Num>>)
    ensures frame == FitPrefix(frame0, times, fit, |frame0|)
  {
    frame := frame0;
    for j := 0 to |frame0|
      invariant frame == FitPrefix(frame0, times, fit, j)
    {
      if !AllMissing(frame[j]) {
        var f := fit(times, frame[j], Uncertainty(|times|));
        frame := frame[j := f.curve];
      }
    }
  }

  /** Whether the fit loop of a window fits at least one channel, that is,
      assigns `event_time_slice_fitted`. */
  predicate AnyFitted(frame: seq<seq<Num>>)
  {
    exists c :: 0 <= c < |frame| && !AllMissing(frame[c])
  }

  // ---------------------------------------------------------------------
  // One window (lines 72-163)

  /** The frame the correlation of a non-empty window is computed on:
      percent of the first row, then fitted. */
  function WindowFrame(eve: Series, l: nat, fit: FitStrategy, i: nat): (frame: seq<seq<Num>>)
    requires eve.WellFormed() && i >= 1 && |Window(eve, l, i).times| > 0
    ensures |frame| == |eve.columns|
  {
    var w := Window(eve, l, i);
    var normalised := NormaliseWindow(w);
    FitPrefix(normalised, w.times, fit, |normalised|)
  }

  /** Outcome of window i: an error, no record (the total is NaN), or the
      record for the table. */
  function WindowResult(names: seq<string>, eve: Series, reference: map<string, seq<Num>>, l: nat,
                        fit: FitStrategy, sqrt: real -> real, i: nat): (r: Result<Option<Record>, ScanError>)
    requires eve.WellFormed() && |names| == |eve.columns| && i >= 1
    ensures r.Err? ==> r.error.EmptyWindow? || r.error.MissingReference?
    ensures r.Err? ==> r.error.window == i
    ensures r.Ok? && r.value.Some? ==> r.value.value.event == i
  {
    var w := Window(eve, l, i);
    if |w.times| == 0 then Err(EmptyWindow(i))
    else
      match Aggregate(names, WindowFrame(eve, l, fit, i), reference, sqrt)
      case Err(name) => Err(MissingReference(i, name))
      case Ok(total) =>
        if total.None? then Ok(None)
        else Ok(Some(Record(i, w.times[0], w.times[|w.times| - 1], total.value)))
  }

  /** An empty window is exactly the case where `iloc[0]` fails. */
  lemma EmptyWindowFails(names: seq<string>, eve: Series, reference: map<string, seq<Num>>, l: nat,
                         fit: FitStrategy, sqrt: real -> real, i: nat)
    requires eve.WellFormed() && |names| == |eve.columns| && i >= 1
    ensures WindowResult(names, eve, reference, l, fit, sqrt, i) == Err(EmptyWindow(i)) <==>
            l == 0 || WindowStart(i) >= |eve.times|
  {
  }

  /** A record spans its window: the start is the window's first timestamp
      and the end its last, taken from the series rows 60(i-1) and
      60(i-1) + |window| - 1. */
  lemma RecordSpansWindow(names: seq<string>, eve: Series, reference: map<string, seq<Num>>, l: nat,
                          fit: FitStrategy, sqrt: real -> real, i: nat)
    requires eve.WellFormed() && |names| == |eve.columns| && i >= 1
    requires WindowResult(names, eve, reference, l, fit, sqrt, i).Ok?
    requires WindowResult(names, eve, reference, l, fit, sqrt, i).value.Some?
    ensures var r := WindowResult(names, eve, reference, l, fit, sqrt, i).value.value;
            var n := |Window(eve, l, i).times|;
            && 0 < n <= l
            && WindowStart(i) + n <= |eve.times|
            && r.start == eve.times[WindowStart(i)]
            && r.end == eve.times[WindowStart(i) + n - 1]
  {
  }

  /** A channel entirely NaN in a non-empty window is not fitted and keeps
      its NaN values, so with every channel in the reference the window
      writes no record. */
  lemma MissingChannelNoRecord(names: seq<string>, eve: Series, reference: map<string, seq<Num>>, l: nat,
                               fit: FitStrategy, sqrt: real -> real, i: nat, c: nat)
    requires eve.WellFormed() && |names| == |eve.columns| && i >= 1
    requires |Window(eve, l, i).times| > 0
    requires forall j :: 0 <= j < |names| ==> names[j] in reference
    requires c < |names| && AllMissing(Window(eve, l, i).columns[c])
    ensures WindowResult(names, eve, reference, l, fit, sqrt, i) == Ok(None)
  {
    var w := Window(eve, l, i);
    var normalised := NormaliseWindow(w);
    assert AllMissing(normalised[c]);
    var frame := WindowFrame(eve, l, fit, i);
    assert frame[c] == normalised[c];
    assert !NoMissing(frame[c]) by {
      assert frame[c][0].None?;
    }
    CoefficientNeedsCompleteColumns(frame[c], reference[names[c]], sqrt);
    AggregatePresent(names, frame, reference, CoefficientOf(sqrt), |names|);
  }

  /** A window whose fitted frame equals the reference, column by column,
      without NaN and without a constant column, scores the number of
      channels. */
  lemma IdenticalWindowScoresChannelCount(names: seq<string>, eve: Series, reference: map<string, seq<Num>>,
                                          l: nat, fit: FitStrategy, sqrt: real -> real, i: nat)
    requires IsSqrt(sqrt)
    requires eve.WellFormed() && |names| == |eve.columns| && i >= 1
    requires |Window(eve, l, i).times| > 0
    requires forall j :: 0 <= j < |names| ==> names[j] in reference && reference[names[j]] == WindowFrame(eve, l, fit, i)[j]
    requires forall j :: 0 <= j < |names| ==>
               var col := WindowFrame(eve, l, fit, i)[j];
               NoMissing(col) && |col| > 0 && Variance(col).value > 0.0
    ensures WindowResult(names, eve, reference, l, fit, sqrt, i).Ok?
    ensures WindowResult(names, eve, reference, l, fit, sqrt, i).value.Some?
    ensures WindowResult(names, eve, reference, l, fit, sqrt, i).value.value.correlation == |names| as real
  {
    AggregateOfIdentical(names, WindowFrame(eve, l, fit, i), reference, sqrt);
  }

  /** Lines 72-153 for window i, from `startRow`/`endRow` as the loop keeps
      them. */
  method EvaluateWindow(names: seq<string>, eve: Series, reference: map<string, seq<Num>>, l: nat,
                        fit: FitStrategy, sqrt: real -> real, i: nat, startRow: nat, endRow: nat)
    returns (r: Result<Option<Record>, ScanError>)
    requires eve.WellFormed() && |names| == |eve.columns| && i >= 1
    requires startRow == WindowStart(i) && endRow == startRow + l
    ensures r == WindowResult(names, eve, reference, l, fit, sqrt, i)
  {
    var w := SliceRows(eve, startRow, endRow);
    assert w == Window(eve, l, i);
    if |w.times| == 0 {
      return Err(EmptyWindow(i));
    }
    var percentages := NormaliseWindow(w);
    var fitted := FitWindowChannels(percentages, w.times, fit);
    assert fitted == WindowFrame(eve, l, fit, i);
    var total := TotalCoefficient(names, fitted, reference, sqrt);
    match total {
      case Err(name) =>
        r := Err(MissingReference(i, name));
      case Ok(x) =>
        if x.None? {
          r := Ok(None);
        } else {
          r := Ok(Some(Record(i, w.times[0], w.times[|w.times| - 1], x.value)));
        }
    }
  }

  // ---------------------------------------------------------------------
  // The scan

  /** The outcome of window i, for any i >= 1. */
  type WindowStep = nat -> Result<Option<Record>, ScanError>

  function WindowStepOf(names: seq<string>, eve: Series, reference: map<string, seq<Num>>, l: nat,
                        fit: FitStrategy, sqrt: real -> real): WindowStep
    requires eve.WellFormed() && |names| == |eve.columns|
  {
    i => if i >= 1 then WindowResult(names, eve, reference, l, fit, sqrt, i) else Ok(None)
  }

  /** A step whose records carry the number of their window. */
  ghost predicate LabelsWindows(step: WindowStep)
  {
    forall i :: step(i).Ok? && step(i).value.Some? ==> step(i).value.value.event == i
  }

  lemma WindowStepLabels(names: seq<string>, eve: Series, reference: map<string, seq<Num>>, l: nat,
                         fit: FitStrategy, sqrt: real -> real)
    requires eve.WellFormed() && |names| == |eve.columns|
    ensures LabelsWindows(WindowStepOf(names, eve, reference, l, fit, sqrt))
  {
  }

  /** The table's records and the error that ended the scan, if any. */
  datatype ScanState = ScanState(records: seq<Record>, error: Option<ScanError>)

  /** The state after windows 1..k: a record for each window whose total
      is a number, until the first error. */
  function Scan(step: WindowStep, k: nat): ScanState
  {
    if k == 0 then ScanState([], None)
    else
      var p := Scan(step, k - 1);
      if p.error.Some? then p
      else
        match step(k)
        case Err(e) => ScanState(p.records, Some(e))
        case Ok(None) => p
        case Ok(Some(r)) => ScanState(p.records + [r], None)
  }

  /** Once a window has failed, later windows change nothing. */
  lemma {:induction false} ScanStaysStopped(step: WindowStep, k: nat, n: nat)
    requires k <= n && Scan(step, k).error.Some?
    ensures Scan(step, n) == Scan(step, k)
  {
    if n > k {
      ScanStaysStopped(step, k, n - 1);
    }
  }

  /** The table only grows: the records after k windows begin the records
      after any later window. */
  lemma {:induction false} ScanGrows(step: WindowStep, k: nat, n: nat)
    requires k <= n
    ensures Scan(step, k).records <= Scan(step, n).records
  {
    if n > k {
      ScanGrows(step, k, n - 1);
    }
  }

  /** Records are numbered by their windows: every event number lies in
      1..k, the numbers strictly increase, and each record is the one its
      window produced. */
  lemma {:induction false} ScanRecords(step: WindowStep, k: nat)
    requires LabelsWindows(step)
    ensures forall j :: 0 <= j < |Scan(step, k).records| ==>
              var x := Scan(step, k).records[j];
              1 <= x.event <= k && step(x.event) == Ok(Some(x))
    ensures forall j1, j2 :: 0 <= j1 < j2 < |Scan(step, k).records| ==>
              Scan(step, k).records[j1].event < Scan(step, k).records[j2].event
  {
    if k > 0 {
      ScanRecords(step, k - 1);
      var p := Scan(step, k - 1);
      if p.error.None? && step(k).Ok? && step(k).value.Some? {
        var r := step(k).value.value;
        assert r.event == k && step(k) == Ok(Some(r));
        var rs := Scan(step, k).records;
        assert rs == p.records + [r];
        forall j | 0 <= j < |rs|
          ensures 1 <= rs[j].event <= k && step(rs[j].event) == Ok(Some(rs[j]))
        {
          if j < |p.records| {
            assert rs[j] == p.records[j];
            assert 1 <= p.records[j].event <= k - 1;
            assert step(p.records[j].event) == Ok(Some(p.records[j]));
          } else {
            assert rs[j] == r;
          }
        }
        forall j1, j2 | 0 <= j1 < j2 < |rs|
          ensures rs[j1].event < rs[j2].event
        {
          assert rs[j1] == p.records[j1];
          if j2 < |p.records| {
            assert rs[j2] == p.records[j2];
          }
        }
      }
    }
  }

  /** A window with a record that the scan reached has its record in the
      table. */
  lemma {:induction false} ScanKeepsRecord(step: WindowStep, k: nat, i: nat)
    requires 1 <= i <= k && Scan(step, i - 1).error.None?
    requires step(i).Ok? && step(i).value.Some?
    ensures step(i).value.value in Scan(step, k).records
  {
    ScanGrows(step, i, k);
    assert Scan(step, i).records[|Scan(step, i).records| - 1] == step(i).value.value;
  }

  // ---------------------------------------------------------------------
  // The output table (lines 48, 161)

  /** `output_table.loc[label] = row`: overwrite the row with that label,
      or append a new one. */
  function Place(records: seq<Record>, r: Record): (s: seq<Record>)
    ensures r in s
    ensures (exists j :: 0 <= j < |records| && records[j].event == r.event) ==> |s| == |records|
    ensures (forall j :: 0 <= j < |records| ==> records[j].event != r.event) ==> s == records + [r]
  {
    if |records| == 0 then [r]
    else if records[0].event == r.event then [r] + records[1..]
    else [records[0]] + Place(records[1..], r)
  }

  class OutputTable {
    var records: seq<Record>

    constructor ()
      ensures records == []
    {
      records := [];
    }

    method Put(r: Record)
      modifies this
      ensures records == Place(old(records), r)
    {
      records := Place(records, r);
    }
  }

  /** One more window after a scan without error so far. */
  lemma ScanNext(step: WindowStep, i: nat, records: seq<Record>, r: Result<Option<Record>, ScanError>)
    requires i >= 1 && Scan(step, i - 1) == ScanState(records, None) && step(i) == r
    ensures Scan(step, i) == match r
                             case Err(e) => ScanState(records, Some(e))
                             case Ok(None) => ScanState(records, None)
                             case Ok(Some(x)) => ScanState(records + [x], None)
  {
  }

  /** A label above every label in the table appends a row. */
  lemma PlaceFresh(records: seq<Record>, r: Record)
    requires forall j :: 0 <= j < |records| ==> records[j].event < r.event
    ensures Place(records, r) == records + [r]
  {
  }

  /** `step` gives the outcome of every window of this scan. */
  ghost predicate IsWindowStep(step: WindowStep, names: seq<string>, eve: Series, reference: map<string, seq<Num>>,
                               l: nat, fit: FitStrategy, sqrt: real -> real)
    requires eve.WellFormed() && |names| == |eve.columns|
  {
    forall i {:trigger WindowResult(names, eve, reference, l, fit, sqrt, i)} ::
      i >= 1 ==> step(i) == WindowResult(names, eve, reference, l, fit, sqrt, i)
  }

  lemma WindowStepOfIsWindowStep(names: seq<string>, eve: Series, reference: map<string, seq<Num>>, l: nat,
                                 fit: FitStrategy, sqrt: real -> real)
    requires eve.WellFormed() && |names| == |eve.columns|
    ensures IsWindowStep(WindowStepOf(names, eve, reference, l, fit, sqrt), names, eve, reference, l, fit, sqrt)
  {
  }

  /** One pass of the loop for window i: evaluate it, put its record in
      the table, and report the error that ends the scan, if any. The
      scan's state afterwards is that of `Scan` over windows 1..i. */
  method VisitWindow(table: OutputTable, names: seq<string>, eve: Series, reference: map<string, seq<Num>>, l: nat,
                     fit: FitStrategy, sqrt: real -> real, i: nat, startRow: nat, endRow: nat, ghost step: WindowStep)
    returns (error: Option<ScanError>)
    requires eve.WellFormed() && |names| == |eve.columns| && i >= 1
    requires IsWindowStep(step, names, eve, reference, l, fit, sqrt) && LabelsWindows(step)
    requires startRow == WindowStart(i) && endRow == startRow + l
    requires Scan(step, i - 1) == ScanState(table.records, None)
    modifies table
    ensures Scan(step, i) == ScanState(table.records, error)
  {
    var r := EvaluateWindow(names, eve, reference, l, fit, sqrt, i, startRow, endRow);
    assert step(i) == r;
    ScanNext(step, i, table.records, r);
    error := None;
    match r {
      case Err(e) =>
        error := Some(e);
      case Ok(x) =>
        if x.Some? {
          ScanRecords(step, i - 1);
          PlaceFresh(table.records, x.value);
          table.Put(x.value);
        }
    }
  }

  /** The loop over the windows (lines 59-167): window i starts at row
      60(i-1) and ends L rows later; an error ends the loop. */
  method ScanWindows(table: OutputTable, names: seq<string>, eve: Series, reference: map<string, seq<Num>>, l: nat,
                     fit: FitStrategy, sqrt: real -> real, ghost step: WindowStep)
    returns (error: Option<ScanError>)
    requires eve.WellFormed() && |names| == |eve.columns| && l > 0
    requires IsWindowStep(step, names, eve, reference, l, fit, sqrt) && LabelsWindows(step)
    requires table.records == []
    modifies table
    ensures Scan(step, WindowCount(|eve.times|, l)) == ScanState(table.records, error)
  {
    var startRow := 0;
    var endRow := l;
    var numSlices := |eve.times| / l;
    error := None;
    var i := 1;
    while i < numSlices && error.None?
      invariant 1 <= i && (i <= numSlices || i == 1)
      invariant startRow == WindowStart(i) && endRow == startRow + l
      invariant Scan(step, i - 1) == ScanState(table.records, error)
    {
      error := VisitWindow(table, names, eve, reference, l, fit, sqrt, i, startRow, endRow, step);
      startRow := startRow + Stride;
      endRow := endRow + Stride;
      i := i + 1;
    }
    if error.Some? {
      ScanStaysStopped(step, i - 1, WindowCount(|eve.times|, l));
    }
  }

  /** The scanner. `names` are the channels of the series, `reference` the
      reference event by channel, `l` its length. Returns the table and the
      error that ended the scan, if any. */
  method CorrelationCoefficientScan(names: seq<string>, eve: Series, reference: map<string, seq<Num>>, l: nat,
                                    fit: FitStrategy, sqrt: real -> real)
    returns (table: OutputTable, error: Option<ScanError>)
    requires eve.WellFormed() && |names| == |eve.columns|
    ensures l == 0 ==> table.records == [] && error == Some(ZeroReferenceLength)
    ensures l > 0 ==>
              var final := Scan(WindowStepOf(names, eve, reference, l, fit, sqrt), WindowCount(|eve.times|, l));
              table.records == final.records && error == final.error
  {
    table := new OutputTable();
    if l == 0 {
      return table, Some(ZeroReferenceLength);
    }
    WindowStepOfIsWindowStep(names, eve, reference, l, fit, sqrt);
    WindowStepLabels(names, eve, reference, l, fit, sqrt);
    error := ScanWindows(table, names, eve, reference, l, fit, sqrt, WindowStepOf(names, eve, reference, l, fit, sqrt));
  }

  /** With a reference shorter than the stride the windows run off the end
      of the series: for 100 rows and a reference of 10 rows, nine windows
      are due but the third starts at row 120, so the scan always ends in an
      error. */
  lemma ShortReferenceRunsOff(names: seq<string>, eve: Series, reference: map<string, seq<Num>>,
                              fit: FitStrategy, sqrt: real -> real)
    requires eve.WellFormed() && |names| == |eve.columns| && |eve.times| == 100
    ensures WindowCount(|eve.times|, 10) == 9
    ensures Scan(WindowStepOf(names, eve, reference, 10, fit, sqrt), 9).error.Some?
  {
    var step := WindowStepOf(names, eve, reference, 10, fit, sqrt);
    assert WindowStart(3) == 120;
    assert step(3) == Err(EmptyWindow(3));
    assert Scan(step, 3).error.Some?;
    ScanStaysStopped(step, 3, 9);
  }

  // ---------------------------------------------------------------------
  // Lines 111 and 125 as written

  /** As written, the correlation reads `event_time_slice_fitted`, which
      the fit loop binds to the window frame only when it fits a channel.
      A window without a fitted channel reuses the frame of the last window
      that had one, and before any such window the name is unbound. */
  datatype AsWrittenError = NameError | Raised(e: ScanError)

  function AsWrittenWindow(names: seq<string>, eve: Series, reference: map<string, seq<Num>>, l: nat,
                           fit: FitStrategy, sqrt: real -> real, i: nat, last: Option<seq<seq<Num>>>)
    : (r: (Result<Option<Record>, AsWrittenError>, Option<seq<seq<Num>>>))
    requires eve.WellFormed() && |names| == |eve.columns| && i >= 1
    requires last.Some? ==> |last.value| == |names|
    ensures r.1.Some? ==> |r.1.value| == |names|
  {
    var w := Window(eve, l, i);
    if |w.times| == 0 then (Err(Raised(EmptyWindow(i))), last)
    else
      var normalised := NormaliseWindow(w);
      var ds1 := if AnyFitted(normalised) then Some(WindowFrame(eve, l, fit, i)) else last;
      if ds1.None? then (Err(NameError), ds1)
      else
        var result :=
          match Aggregate(names, ds1.value, reference, sqrt)
          case Err(name) => Err(Raised(MissingReference(i, name)))
          case Ok(total) =>
            if total.None? then Ok(None)
            else Ok(Some(Record(i, w.times[0], w.times[|w.times| - 1], total.value)));
        (result, ds1)
  }

  /** Where the window fits a channel, the source as written and the model
      agree. */
  lemma AsWrittenAgreesWhenFitted(names: seq<string>, eve: Series, reference: map<string, seq<Num>>, l: nat,
                                  fit: FitStrategy, sqrt: real -> real, i: nat, last: Option<seq<seq<Num>>>)
    requires eve.WellFormed() && |names| == |eve.columns| && i >= 1
    requires last.Some? ==> |last.value| == |names|
    requires |Window(eve, l, i).times| > 0 && AnyFitted(NormaliseWindow(Window(eve, l, i)))
    ensures var asWritten := AsWrittenWindow(names, eve, reference, l, fit, sqrt, i, last).0;
            var model := WindowResult(names, eve, reference, l, fit, sqrt, i);
            && (model.Ok? <==> asWritten.Ok?)
            && (model.Ok? ==> model.value == asWritten.value)
            && (model.Err? ==> asWritten.error == Raised(model.error))
  {
  }

  /** One channel, two rows, both NaN, reference of one row: the single
      window is all NaN, nothing is fitted, and the source as written
      fails on the unbound name, where the scan ends with no record and no
      error. */
  lemma UnfittedWindowCounterexample(fit: FitStrategy, sqrt: real -> real)
    ensures var eve := Series([0, 60], [[None, None]]);
            var reference := map["x" := [Some(1.0)]];
            && AsWrittenWindow(["x"], eve, reference, 1, fit, sqrt, 1, None).0 == Err(NameError)
            && WindowCount(|eve.times|, 1) == 1
            && Scan(WindowStepOf(["x"], eve, reference, 1, fit, sqrt), 1) == ScanState([], None)
  {
    var eve := Series([0, 60], [[None, None]]);
    var reference := map["x" := [Some(1.0)]];
    var w := Window(eve, 1, 1);
    assert w.times == [0] && |w.columns| == 1 && |w.columns[0]| == 1;
    assert w.columns[0][0] == None;
    assert w.columns[0] == [None];
    var normalised := NormaliseWindow(w);
    assert |normalised| == 1 && AllMissing(normalised[0]);
    assert !AnyFitted(normalised);
    MissingChannelNoRecord(["x"], eve, reference, 1, fit, sqrt, 1, 0);
  }
}

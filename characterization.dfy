/** `characterizeStealthCMEs` (CharacterizeStealthCMEs.py): for every SOHO
    catalog row flagged as a stealth CME, cut the EVE irradiance window
    around the event, convert it to percent of its first sample, fit each
    channel, parameterise the dimming (depth, then slope, then duration)
    and append the one shared JEDI row to the catalog file.

    The fit and the three parameterisations are external code; they are
    parameters here (`Strategies`). Timestamps are whole seconds. */
module Characterization {
  import opened Common
  import opened Schema
  import opened Windowing
  import opened Catalog

  /** The event window runs from 1.5 hours before to 4 hours after the CME. */
  const WindowBefore: int := 5400
  const WindowAfter: int := 14400

  /** One SOHO catalog row: its `Stealth?` flag and its date and time. */
  datatype SohoRow = SohoRow(stealth: string, dateTime: int)

  /** Only a flag equal to exactly "yes" marks a stealth CME. */
  predicate IsStealth(row: SohoRow)
  {
    row.stealth == "yes"
  }

  datatype DepthResult = DepthResult(percent: Num, time: Option<int>)
  datatype SlopeResult = SlopeResult(min: Num, max: Num, mean: Num)
  datatype DurationResult = DurationResult(seconds: Num, start: Option<int>, end: Option<int>)

  /** The external light-curve fit and dimming parameterisations. Each sees
      the window's timestamps and one channel's series; slope also gets its
      two bounding times, duration its earliest allowed time. */
  datatype Strategies = Strategies(
    fit: FitStrategy,
    depth: (seq<int>, seq<Num>) -> DepthResult,
    slope: (seq<int>, seq<Num>, int, int) -> SlopeResult,
    duration: (seq<int>, seq<Num>, int) -> DurationResult)

  /** The features the parameterisation step assigns. */
  predicate IsParameterFeature(f: Feature)
  {
    f.Depth? || f.DepthTime? || f.SlopeMin? || f.SlopeMax? || f.SlopeMean? || f.SlopeStartTime? ||
    f.SlopeEndTime? || f.Duration? || f.DurationStartTime? || f.DurationEndTime?
  }

  /** Columns the driver ever assigns; every other column stays NaN. */
  predicate Written(col: Column)
  {
    match col
    case Meta(f) => f == EventNumber || f == StartTime || f == EndTime
    case OfChannel(_, f) => IsParameterFeature(f) || f == FittingGamma || f == FittingScore
    case OfPair(_, _, _) => false
  }

  predicate Distinct(chs: seq<string>)
  {
    forall x, y :: 0 <= x < y < |chs| ==> chs[x] != chs[y]
  }

  // ---------------------------------------------------------------------
  // Fitting (lines 189-215)

  /** The two fields the fit loop assigns for a channel. */
  predicate IsFitField(key: Column)
  {
    key.OfChannel? && (key.feature == FittingGamma || key.feature == FittingScore)
  }

  /** The frame and row after the first k iterations of the fit loop. */
  function FitChannels(chs: seq<string>, frame: seq<seq<Num>>, times: seq<int>, m: RowValues,
                       fit: FitStrategy, k: nat): (r: (seq<seq<Num>>, RowValues))
    requires |frame| == |chs| && k <= |chs|
    ensures |r.0| == |chs|
    ensures forall j :: 0 <= j < |chs| ==> r.0[j] == if j < k then Fitted(frame[j], times, fit) else frame[j]
    ensures forall key :: key in m ==> key in r.1
    ensures forall key :: key in m && !IsFitField(key) ==> r.1[key] == m[key]
  {
    if k == 0 then (frame, m)
    else
      var p := FitChannels(chs, frame, times, m, fit, k - 1);
      var col := p.0[k - 1];
      if AllMissing(col) then p
      else
        var f := fit(times, col, Uncertainty(|times|));
        (p.0[k - 1 := f.curve],
         p.1[OfChannel(chs[k - 1], FittingGamma) := NumCell(f.gamma)]
            [OfChannel(chs[k - 1], FittingScore) := NumCell(f.score)])
  }

  /** The fit loop: each channel that is not entirely NaN is replaced by
      its fitted curve, and its gamma and score go into the row. */
  method FitEventChannels(row: JediRow, chs: seq<string>, frame0: seq<seq<Num>>, times: seq<int>,
                          fit: FitStrategy) returns (frame: seq<seq<Num>>)
    requires |frame0| == |chs|
    modifies row
    ensures (frame, row.values) == FitChannels(chs, frame0, times, old(row.values), fit, |chs|)
    ensures old(row.Valid()) ==> row.Valid()
  {
    frame := frame0;
    var i := 0;
    while i < |chs|
      invariant 0 <= i <= |chs|
      invariant (frame, row.values) == FitChannels(chs, frame0, times, old(row.values), fit, i)
      invariant old(row.Valid()) ==> row.Valid()
    {
      var col := frame[i];
      if !AllMissing(col) {
        var f := fit(times, col, Uncertainty(|times|));
        frame := frame[i := f.curve];
        row.Set(OfChannel(chs[i], FittingGamma), NumCell(f.gamma));
        row.Set(OfChannel(chs[i], FittingScore), NumCell(f.score));
      }
      i := i + 1;
    }
  }

  // ---------------------------------------------------------------------
  // Parameterisation (lines 228-305)

  /** One channel: nothing for an all-NaN channel; otherwise the depth,
      then slope and duration only when the depth time is known (the
      window start, the other slope bound, is never null here). */
  function Parameterise(ch: string, col: seq<Num>, times: seq<int>, start: int, m: RowValues,
                        s: Strategies): RowValues
  {
    if AllMissing(col) then m
    else
      var d := s.depth(times, col);
      var m1 := m[OfChannel(ch, Depth) := NumCell(d.percent)][OfChannel(ch, DepthTime) := TimeCell(d.time)];
      if d.time.None? then m1
      else
        var slope := s.slope(times, col, start, d.time.value);
        var m2 := m1[OfChannel(ch, SlopeMin) := NumCell(slope.min)]
                    [OfChannel(ch, SlopeMax) := NumCell(slope.max)]
                    [OfChannel(ch, SlopeMean) := NumCell(slope.mean)]
                    [OfChannel(ch, SlopeStartTime) := Instant(start)]
                    [OfChannel(ch, SlopeEndTime) := Instant(d.time.value)];
        var dur := s.duration(times, col, start);
        m2[OfChannel(ch, Duration) := NumCell(dur.seconds)]
          [OfChannel(ch, DurationStartTime) := TimeCell(dur.start)]
          [OfChannel(ch, DurationEndTime) := TimeCell(dur.end)]
  }

  /** A channel's parameterisation only assigns that channel's parameter
      fields, and assigns nothing for an all-NaN channel. */
  lemma ParameteriseFrame(ch: string, col: seq<Num>, times: seq<int>, start: int, m: RowValues, s: Strategies)
    ensures var r := Parameterise(ch, col, times, start, m, s);
            && (forall key :: key in m ==> key in r)
            && (forall key :: key in m && !(key.OfChannel? && key.channel == ch && IsParameterFeature(key.feature))
                  ==> r[key] == m[key])
            && (AllMissing(col) ==> r == m)
  {
  }

  /** The gating chain when the depth time is known: depth, then the slope
      with its two bounds, then the duration are all written. */
  lemma GatingWithDepthTime(ch: string, col: seq<Num>, times: seq<int>, start: int, m: RowValues, s: Strategies)
    requires !AllMissing(col) && s.depth(times, col).time.Some?
    ensures var r := Parameterise(ch, col, times, start, m, s);
            var d := s.depth(times, col);
            var slope := s.slope(times, col, start, d.time.value);
            var dur := s.duration(times, col, start);
            && r[OfChannel(ch, Depth)] == NumCell(d.percent)
            && r[OfChannel(ch, DepthTime)] == Instant(d.time.value)
            && r[OfChannel(ch, SlopeMin)] == NumCell(slope.min)
            && r[OfChannel(ch, SlopeMax)] == NumCell(slope.max)
            && r[OfChannel(ch, SlopeMean)] == NumCell(slope.mean)
            && r[OfChannel(ch, SlopeStartTime)] == Instant(start)
            && r[OfChannel(ch, SlopeEndTime)] == Instant(d.time.value)
            && r[OfChannel(ch, Duration)] == NumCell(dur.seconds)
            && r[OfChannel(ch, DurationStartTime)] == TimeCell(dur.start)
            && r[OfChannel(ch, DurationEndTime)] == TimeCell(dur.end)
  {
  }

  /** The gating chain when the depth time is NaN: only the depth fields
      are written; slope, its bounds and duration keep their old values. */
  lemma GatingWithoutDepthTime(ch: string, col: seq<Num>, times: seq<int>, start: int, m: RowValues,
                               s: Strategies, f: Feature)
    requires !AllMissing(col) && s.depth(times, col).time.None?
    requires IsParameterFeature(f) && f != Depth && f != DepthTime && OfChannel(ch, f) in m
    ensures var r := Parameterise(ch, col, times, start, m, s);
            && r[OfChannel(ch, Depth)] == NumCell(s.depth(times, col).percent)
            && r[OfChannel(ch, DepthTime)] == Missing
            && r[OfChannel(ch, f)] == m[OfChannel(ch, f)]
  {
  }

  /** A channel that is not all NaN always gets its depth and depth time. */
  lemma GatingDepth(ch: string, col: seq<Num>, times: seq<int>, start: int, m: RowValues, s: Strategies)
    requires !AllMissing(col)
    ensures var r := Parameterise(ch, col, times, start, m, s);
            && OfChannel(ch, Depth) in r && r[OfChannel(ch, Depth)] == NumCell(s.depth(times, col).percent)
            && OfChannel(ch, DepthTime) in r && r[OfChannel(ch, DepthTime)] == TimeCell(s.depth(times, col).time)
  {
  }

  /** The fields the parameterisation loop assigns for a channel. */
  predicate IsParamField(key: Column)
  {
    key.OfChannel? && IsParameterFeature(key.feature)
  }

  /** The row after the first k iterations of the parameterisation loop. */
  function ParamChannels(chs: seq<string>, frame: seq<seq<Num>>, times: seq<int>, start: int,
                         m: RowValues, s: Strategies, k: nat): (r: RowValues)
    requires |frame| == |chs| && k <= |chs|
    ensures forall key :: key in m ==> key in r
    ensures forall key :: key in m && !IsParamField(key) ==> r[key] == m[key]
  {
    if k == 0 then m
    else
      var p := ParamChannels(chs, frame, times, start, m, s, k - 1);
      ParameteriseFrame(chs[k - 1], frame[k - 1], times, start, p, s);
      Parameterise(chs[k - 1], frame[k - 1], times, start, p, s)
  }

  /** One iteration of the parameterisation loop, field by field. */
  method ParameteriseChannel(row: JediRow, ch: string, col: seq<Num>, times: seq<int>, start: int,
                             s: Strategies)
    modifies row
    ensures row.values == Parameterise(ch, col, times, start, old(row.values), s)
    ensures old(row.Valid()) ==> row.Valid()
  {
    if AllMissing(col) {
      return;
    }
    var d := s.depth(times, col);
    row.Set(OfChannel(ch, Depth), NumCell(d.percent));
    row.Set(OfChannel(ch, DepthTime), TimeCell(d.time));
    if d.time.None? {
      return;
    }
    var slope := s.slope(times, col, start, d.time.value);
    row.Set(OfChannel(ch, SlopeMin), NumCell(slope.min));
    row.Set(OfChannel(ch, SlopeMax), NumCell(slope.max));
    row.Set(OfChannel(ch, SlopeMean), NumCell(slope.mean));
    row.Set(OfChannel(ch, SlopeStartTime), Instant(start));
    row.Set(OfChannel(ch, SlopeEndTime), Instant(d.time.value));
    var dur := s.duration(times, col, start);
    row.Set(OfChannel(ch, Duration), NumCell(dur.seconds));
    row.Set(OfChannel(ch, DurationStartTime), TimeCell(dur.start));
    row.Set(OfChannel(ch, DurationEndTime), TimeCell(dur.end));
  }

  /** The parameterisation loop over the channels of the fitted frame. */
  method ParameteriseEventChannels(row: JediRow, chs: seq<string>, frame: seq<seq<Num>>, times: seq<int>,
                                   start: int, s: Strategies)
    requires |frame| == |chs|
    modifies row
    ensures row.values == ParamChannels(chs, frame, times, start, old(row.values), s, |chs|)
    ensures old(row.Valid()) ==> row.Valid()
  {
    var i := 0;
    while i < |chs|
      invariant 0 <= i <= |chs|
      invariant row.values == ParamChannels(chs, frame, times, start, old(row.values), s, i)
      invariant old(row.Valid()) ==> row.Valid()
    {
      ParameteriseChannel(row, chs[i], frame[i], times, start, s);
      i := i + 1;
    }
  }

  // ---------------------------------------------------------------------
  // One event (lines 150-305)

  /** The row after an event, and whether its window was empty (then
      `iloc[0]` raises IndexError after the event fields were stored). */
  datatype EventOutcome = EventOutcome(values: RowValues, windowEmpty: bool)

  function EventWindow(eve: Series, dateTime: int): (w: Series)
    requires eve.WellFormed()
    ensures w.WellFormed() && |w.columns| == |eve.columns|
  {
    SliceTime(eve, dateTime - WindowBefore, dateTime + WindowAfter)
  }

  /** The row after the event fields are stored (lines 165-167). */
  function StoreEventFields(m: RowValues, dateTime: int, t: nat): RowValues
  {
    m[Meta(EventNumber) := Index(t)][Meta(StartTime) := Instant(dateTime - WindowBefore)]
     [Meta(EndTime) := Instant(dateTime + WindowAfter)]
  }

  /** The fit loop followed by the parameterisation loop over a normalised
      window: only fit and parameter fields change. */
  function Characterise(chs: seq<string>, frame: seq<seq<Num>>, times: seq<int>, start: int, m: RowValues,
                        s: Strategies): (r: RowValues)
    requires |frame| == |chs|
    ensures forall key :: key in m ==> key in r
    ensures forall key :: key in m && !IsFitField(key) && !IsParamField(key) ==> r[key] == m[key]
  {
    var fitted := FitChannels(chs, frame, times, m, s.fit, |chs|);
    ParamChannels(chs, fitted.0, times, start, fitted.1, s, |chs|)
  }

  function Event(chs: seq<string>, eve: Series, dateTime: int, t: nat, m: RowValues, s: Strategies): (e: EventOutcome)
    requires eve.WellFormed() && |eve.columns| == |chs|
    ensures forall key :: key in m ==> key in e.values
    ensures e.windowEmpty <==> |EventWindow(eve, dateTime).times| == 0
  {
    var w := EventWindow(eve, dateTime);
    var m1 := StoreEventFields(m, dateTime, t);
    if |w.times| == 0 then EventOutcome(m1, true)
    else
      EventOutcome(Characterise(chs, NormaliseWindow(w), w.times, dateTime - WindowBefore, m1, s), false)
  }

  /** An event stores its catalog index and window bounds. */
  lemma EventFields(chs: seq<string>, eve: Series, dateTime: int, t: nat, m: RowValues, s: Strategies)
    requires eve.WellFormed() && |eve.columns| == |chs|
    ensures var e := Event(chs, eve, dateTime, t, m, s);
            && Meta(EventNumber) in e.values && e.values[Meta(EventNumber)] == Index(t)
            && Meta(StartTime) in e.values && e.values[Meta(StartTime)] == Instant(dateTime - WindowBefore)
            && Meta(EndTime) in e.values && e.values[Meta(EndTime)] == Instant(dateTime + WindowAfter)
  {
    var w := EventWindow(eve, dateTime);
    var m1 := StoreEventFields(m, dateTime, t);
    if |w.times| > 0 {
      var r := Characterise(chs, NormaliseWindow(w), w.times, dateTime - WindowBefore, m1, s);
      assert Event(chs, eve, dateTime, t, m, s).values == r;
    }
  }

  /** An event assigns no column outside `Written`. */
  lemma EventKeepsUnwritten(chs: seq<string>, eve: Series, dateTime: int, t: nat, m: RowValues, s: Strategies,
                            key: Column)
    requires eve.WellFormed() && |eve.columns| == |chs|
    requires key in m && !Written(key)
    ensures Event(chs, eve, dateTime, t, m, s).values[key] == m[key]
  {
    var w := EventWindow(eve, dateTime);
    var m1 := StoreEventFields(m, dateTime, t);
    if |w.times| > 0 {
      var r := Characterise(chs, NormaliseWindow(w), w.times, dateTime - WindowBefore, m1, s);
      assert Event(chs, eve, dateTime, t, m, s).values == r;
      assert !IsFitField(key) && !IsParamField(key);
    }
  }

  /** Lines 150-305 for one stealth row, on the shared row object. */
  method CharacterizeEvent(row: JediRow, chs: seq<string>, eve: Series, dateTime: int, t: nat, s: Strategies)
    returns (windowEmpty: bool)
    requires eve.WellFormed() && |eve.columns| == |chs|
    modifies row
    ensures Event(chs, eve, dateTime, t, old(row.values), s) == EventOutcome(row.values, windowEmpty)
    ensures old(row.Valid()) ==> row.Valid()
  {
    var start := dateTime - WindowBefore;
    var w := EventWindow(eve, dateTime);
    row.Set(Meta(EventNumber), Index(t));
    row.Set(Meta(StartTime), Instant(start));
    row.Set(Meta(EndTime), Instant(dateTime + WindowAfter));
    assert row.values == StoreEventFields(old(row.values), dateTime, t);
    if |w.times| == 0 {
      return true;
    }
    var frame := NormaliseWindow(w);
    frame := FitEventChannels(row, chs, frame, w.times, s.fit);
    ParameteriseEventChannels(row, chs, frame, w.times, start, s);
    windowEmpty := false;
  }

  /** The fit loop leaves every field of an all-NaN channel alone. */
  lemma {:induction false} FitChannelsSkip(chs: seq<string>, frame: seq<seq<Num>>, times: seq<int>, m: RowValues,
                                           fit: FitStrategy, k: nat, c: nat, f: Feature)
    requires |frame| == |chs| && k <= |chs| && Distinct(chs) && c < |chs| && AllMissing(frame[c])
    requires OfChannel(chs[c], f) in m
    ensures FitChannels(chs, frame, times, m, fit, k).1[OfChannel(chs[c], f)] == m[OfChannel(chs[c], f)]
  {
    if k > 0 {
      FitChannelsSkip(chs, frame, times, m, fit, k - 1, c, f);
      if k - 1 != c {
        assert chs[k - 1] != chs[c];
      }
    }
  }

  /** One channel's parameterisation leaves the fields of every other
      channel alone, and all fields when its column is all NaN. */
  lemma ParameteriseKeeps(ch: string, col: seq<Num>, times: seq<int>, start: int, m: RowValues, s: Strategies,
                          other: string, f: Feature)
    requires OfChannel(other, f) in m && (other != ch || AllMissing(col))
    ensures var r := Parameterise(ch, col, times, start, m, s);
            OfChannel(other, f) in r && r[OfChannel(other, f)] == m[OfChannel(other, f)]
  {
    ParameteriseFrame(ch, col, times, start, m, s);
  }

  /** The parameterisation loop leaves every field of an all-NaN channel alone. */
  lemma {:induction false} ParamChannelsSkip(chs: seq<string>, frame: seq<seq<Num>>, times: seq<int>, start: int,
                                             m: RowValues, s: Strategies, k: nat, c: nat, f: Feature)
    requires |frame| == |chs| && k <= |chs| && Distinct(chs) && c < |chs| && AllMissing(frame[c])
    requires OfChannel(chs[c], f) in m
    ensures ParamChannels(chs, frame, times, start, m, s, k)[OfChannel(chs[c], f)] == m[OfChannel(chs[c], f)]
  {
    if k > 0 {
      ParamChannelsSkip(chs, frame, times, start, m, s, k - 1, c, f);
      var p := ParamChannels(chs, frame, times, start, m, s, k - 1);
      assert k - 1 != c ==> chs[k - 1] != chs[c];
      ParameteriseKeeps(chs[k - 1], frame[k - 1], times, start, p, s, chs[c], f);
    }
  }

  /** A channel whose normalised window is entirely NaN is neither fitted
      nor parameterised: every field of that channel keeps the value the
      row had before the event (a stale value, or NaN if never set). */
  lemma SkippedChannelKeepsValues(chs: seq<string>, eve: Series, dateTime: int, t: nat, m: RowValues,
                                  s: Strategies, c: nat, f: Feature)
    requires eve.WellFormed() && |eve.columns| == |chs| && Distinct(chs) && c < |chs|
    requires |EventWindow(eve, dateTime).times| > 0
    requires AllMissing(NormaliseWindow(EventWindow(eve, dateTime))[c])
    requires OfChannel(chs[c], f) in m
    ensures Event(chs, eve, dateTime, t, m, s).values[OfChannel(chs[c], f)] == m[OfChannel(chs[c], f)]
  {
    var w := EventWindow(eve, dateTime);
    var frame := NormaliseWindow(w);
    var m1 := StoreEventFields(m, dateTime, t);
    var fitted := FitChannels(chs, frame, w.times, m1, s.fit, |chs|);
    FitChannelsSkip(chs, frame, w.times, m1, s.fit, |chs|, c, f);
    assert fitted.0[c] == frame[c];
    ParamChannelsSkip(chs, fitted.0, w.times, dateTime - WindowBefore, fitted.1, s, |chs|, c, f);
  }

  /** After the fit loop has passed channel j, a channel that is not all
      NaN holds its fit's gamma and score. */
  lemma {:induction false} FitFieldsWritten(chs: seq<string>, frame: seq<seq<Num>>, times: seq<int>, m: RowValues,
                                            fit: FitStrategy, k: nat, j: nat)
    requires |frame| == |chs| && k <= |chs| && Distinct(chs) && j < k && !AllMissing(frame[j])
    ensures var r := FitChannels(chs, frame, times, m, fit, k).1;
            var f := fit(times, frame[j], Uncertainty(|times|));
            && OfChannel(chs[j], FittingGamma) in r && r[OfChannel(chs[j], FittingGamma)] == NumCell(f.gamma)
            && OfChannel(chs[j], FittingScore) in r && r[OfChannel(chs[j], FittingScore)] == NumCell(f.score)
  {
    if k - 1 > j {
      FitFieldsWritten(chs, frame, times, m, fit, k - 1, j);
      assert chs[k - 1] != chs[j];
    }
  }

  /** After the parameterisation loop has passed channel j, that channel's
      fields are those its own parameterisation wrote: later channels do
      not touch them. */
  lemma {:induction false} ParamFieldsWritten(chs: seq<string>, frame: seq<seq<Num>>, times: seq<int>, start: int,
                                              m: RowValues, s: Strategies, k: nat, j: nat, f: Feature)
    requires |frame| == |chs| && k <= |chs| && Distinct(chs) && j < k
    requires OfChannel(chs[j], f) in m
    ensures var p := ParamChannels(chs, frame, times, start, m, s, j);
            ParamChannels(chs, frame, times, start, m, s, k)[OfChannel(chs[j], f)] ==
              Parameterise(chs[j], frame[j], times, start, p, s)[OfChannel(chs[j], f)]
  {
    var before := ParamChannels(chs, frame, times, start, m, s, k - 1);
    assert ParamChannels(chs, frame, times, start, m, s, k) == Parameterise(chs[k - 1], frame[k - 1], times, start, before, s);
    if k - 1 > j {
      ParamFieldsWritten(chs, frame, times, start, m, s, k - 1, j, f);
      assert chs[k - 1] != chs[j];
      ParameteriseKeeps(chs[k - 1], frame[k - 1], times, start, before, s, chs[j], f);
    }
  }

  /** The position of a per-channel feature among the channel groups. */
  function ChannelGroup(f: Feature): (g: nat)
    requires f != CorrectionTimeShift && f != CorrectionScaleFactor
    ensures g < |ChannelFeatures| && ChannelFeatures[g] == f
  {
    match f
    case PreFlareIrradiance => 0
    case SlopeStartTime => 1
    case SlopeEndTime => 2
    case SlopeMin => 3
    case SlopeMax => 4
    case SlopeMean => 5
    case SlopeUncertainty => 6
    case DepthTime => 7
    case Depth => 8
    case DepthUncertainty => 9
    case DurationStartTime => 10
    case DurationEndTime => 11
    case Duration => 12
    case FittingGamma => 13
    case FittingScore => 14
  }

  /** Every channel group has a column for every channel. */
  lemma ChannelFieldInColumns(chs: seq<string>, c: nat, g: nat)
    requires c < |chs| && g < |ChannelFeatures|
    ensures OfChannel(chs[c], ChannelFeatures[g]) in Columns(chs)
  {
    var mid := ChannelColumns(chs, ChannelFeatures);
    var back := PairColumns(Permutations(chs), PairFeatures);
    assert Columns(chs) == MetaColumns() + mid + back;
    ChannelColumnsAt(chs, ChannelFeatures, g, c);
    var i := g * |chs| + c;
    MiddleAt(MetaColumns(), mid, back, i);
    assert Columns(chs)[|MetaColumns()| + i] == OfChannel(chs[c], ChannelFeatures[g]);
  }

  /** One parameter field of channel c after the event: later channels do
      not touch it, and the fit loop handed channel c its fitted curve. */
  lemma EventChannelField(chs: seq<string>, eve: Series, dateTime: int, t: nat, m: RowValues, s: Strategies,
                          c: nat, f: Feature)
    requires eve.WellFormed() && |eve.columns| == |chs| && Distinct(chs) && c < |chs|
    requires |EventWindow(eve, dateTime).times| > 0 && OfChannel(chs[c], f) in m
    ensures OfChannel(chs[c], f) in Event(chs, eve, dateTime, t, m, s).values
    ensures OfChannel(chs[c], f) in ChannelParameters(chs, eve, dateTime, t, m, s, c)
    ensures Event(chs, eve, dateTime, t, m, s).values[OfChannel(chs[c], f)] ==
              ChannelParameters(chs, eve, dateTime, t, m, s, c)[OfChannel(chs[c], f)]
  {
    var w := EventWindow(eve, dateTime);
    var frame := NormaliseWindow(w);
    var m1 := StoreEventFields(m, dateTime, t);
    var fitted := FitChannels(chs, frame, w.times, m1, s.fit, |chs|);
    ParamFieldsWritten(chs, fitted.0, w.times, dateTime - WindowBefore, fitted.1, s, |chs|, c, f);
    assert fitted.0[c] == Fitted(frame[c], w.times, s.fit);
    var r := Characterise(chs, frame, w.times, dateTime - WindowBefore, m1, s);
    assert Event(chs, eve, dateTime, t, m, s).values == r;
  }

  /** The row has a field for every per-channel feature of channel ch. */
  predicate HasChannelFields(m: RowValues, ch: string)
  {
    forall f :: f in ChannelFeatures ==> OfChannel(ch, f) in m
  }

  /** A row over the catalog's columns has every channel's fields. */
  lemma CoversChannelFields(chs: seq<string>, m: RowValues, c: nat)
    requires c < |chs| && Covers(m, Columns(chs))
    ensures HasChannelFields(m, chs[c])
  {
    forall f | f in ChannelFeatures
      ensures OfChannel(chs[c], f) in m
    {
      ChannelFieldInColumns(chs, c, ChannelGroup(f));
    }
  }

  /** A channel that is not all NaN in the event's window holds its fit's
      gamma and score once the event is done. */
  lemma EventFitFields(chs: seq<string>, eve: Series, dateTime: int, t: nat, m: RowValues, s: Strategies, c: nat)
    requires eve.WellFormed() && |eve.columns| == |chs| && Distinct(chs) && c < |chs|
    requires |EventWindow(eve, dateTime).times| > 0 && HasChannelFields(m, chs[c])
    requires !AllMissing(NormaliseWindow(EventWindow(eve, dateTime))[c])
    ensures var w := EventWindow(eve, dateTime);
            var f := s.fit(w.times, NormaliseWindow(w)[c], Uncertainty(|w.times|));
            var e := Event(chs, eve, dateTime, t, m, s).values;
            && OfChannel(chs[c], FittingGamma) in e && e[OfChannel(chs[c], FittingGamma)] == NumCell(f.gamma)
            && OfChannel(chs[c], FittingScore) in e && e[OfChannel(chs[c], FittingScore)] == NumCell(f.score)
  {
    var w := EventWindow(eve, dateTime);
    var frame := NormaliseWindow(w);
    var m1 := StoreEventFields(m, dateTime, t);
    FitFieldsWritten(chs, frame, w.times, m1, s.fit, |chs|, c);
    var r := Characterise(chs, frame, w.times, dateTime - WindowBefore, m1, s);
    assert Event(chs, eve, dateTime, t, m, s).values == r;
    assert !IsParamField(OfChannel(chs[c], FittingGamma)) && !IsParamField(OfChannel(chs[c], FittingScore));
  }

  /** The parameterisation the event applies to channel c: that of its
      fitted curve, over the row the earlier channels left. */
  function ChannelParameters(chs: seq<string>, eve: Series, dateTime: int, t: nat, m: RowValues, s: Strategies,
                             c: nat): (r: RowValues)
    requires eve.WellFormed() && |eve.columns| == |chs| && c < |chs|
    requires |EventWindow(eve, dateTime).times| > 0
    ensures forall key :: key in m ==> key in r
  {
    var w := EventWindow(eve, dateTime);
    var frame := NormaliseWindow(w);
    var fitted := FitChannels(chs, frame, w.times, StoreEventFields(m, dateTime, t), s.fit, |chs|);
    var p := ParamChannels(chs, fitted.0, w.times, dateTime - WindowBefore, fitted.1, s, c);
    ParameteriseFrame(chs[c], Fitted(frame[c], w.times, s.fit), w.times, dateTime - WindowBefore, p, s);
    Parameterise(chs[c], Fitted(frame[c], w.times, s.fit), w.times, dateTime - WindowBefore, p, s)
  }

  /** Every parameter field of channel c ends the event as that channel's
      own parameterisation wrote it. */
  lemma EventParameters(chs: seq<string>, eve: Series, dateTime: int, t: nat, m: RowValues, s: Strategies, c: nat)
    requires eve.WellFormed() && |eve.columns| == |chs| && Distinct(chs) && c < |chs|
    requires |EventWindow(eve, dateTime).times| > 0 && HasChannelFields(m, chs[c])
    ensures forall f :: IsParameterFeature(f) ==>
              var e := Event(chs, eve, dateTime, t, m, s).values;
              var p := ChannelParameters(chs, eve, dateTime, t, m, s, c);
              OfChannel(chs[c], f) in e && OfChannel(chs[c], f) in p && e[OfChannel(chs[c], f)] == p[OfChannel(chs[c], f)]
  {
    forall f | IsParameterFeature(f)
      ensures var e := Event(chs, eve, dateTime, t, m, s).values;
              var p := ChannelParameters(chs, eve, dateTime, t, m, s, c);
              OfChannel(chs[c], f) in e && OfChannel(chs[c], f) in p && e[OfChannel(chs[c], f)] == p[OfChannel(chs[c], f)]
    {
      assert f in ChannelFeatures;
      EventChannelField(chs, eve, dateTime, t, m, s, c, f);
    }
  }

  /** For a channel whose fitted curve is not all NaN, the event stores the
      depth of that curve. */
  lemma EventDepthFields(chs: seq<string>, eve: Series, dateTime: int, t: nat, m: RowValues, s: Strategies, c: nat)
    requires eve.WellFormed() && |eve.columns| == |chs| && Distinct(chs) && c < |chs|
    requires |EventWindow(eve, dateTime).times| > 0 && HasChannelFields(m, chs[c])
    requires !AllMissing(Fitted(NormaliseWindow(EventWindow(eve, dateTime))[c], EventWindow(eve, dateTime).times, s.fit))
    ensures var w := EventWindow(eve, dateTime);
            var d := s.depth(w.times, Fitted(NormaliseWindow(w)[c], w.times, s.fit));
            var e := Event(chs, eve, dateTime, t, m, s).values;
            && OfChannel(chs[c], Depth) in e && e[OfChannel(chs[c], Depth)] == NumCell(d.percent)
            && OfChannel(chs[c], DepthTime) in e && e[OfChannel(chs[c], DepthTime)] == TimeCell(d.time)
  {
    var w := EventWindow(eve, dateTime);
    var frame := NormaliseWindow(w);
    var fitted := FitChannels(chs, frame, w.times, StoreEventFields(m, dateTime, t), s.fit, |chs|);
    var p := ParamChannels(chs, fitted.0, w.times, dateTime - WindowBefore, fitted.1, s, c);
    var curve := Fitted(frame[c], w.times, s.fit);
    assert ChannelParameters(chs, eve, dateTime, t, m, s, c) == Parameterise(chs[c], curve, w.times, dateTime - WindowBefore, p, s);
    GatingDepth(chs[c], curve, w.times, dateTime - WindowBefore, p, s);
    EventParameters(chs, eve, dateTime, t, m, s, c);
    assert IsParameterFeature(Depth) && IsParameterFeature(DepthTime);
  }

  /** When that depth has a time, the event also stores the slope between
      the window start and the depth time, and the duration. */
  lemma EventSlopeDurationFields(chs: seq<string>, eve: Series, dateTime: int, t: nat, m: RowValues, s: Strategies,
                                 c: nat)
    requires eve.WellFormed() && |eve.columns| == |chs| && Distinct(chs) && c < |chs|
    requires |EventWindow(eve, dateTime).times| > 0 && HasChannelFields(m, chs[c])
    requires !AllMissing(Fitted(NormaliseWindow(EventWindow(eve, dateTime))[c], EventWindow(eve, dateTime).times, s.fit))
    requires s.depth(EventWindow(eve, dateTime).times,
                     Fitted(NormaliseWindow(EventWindow(eve, dateTime))[c], EventWindow(eve, dateTime).times, s.fit)).time.Some?
    ensures var w := EventWindow(eve, dateTime);
            var start := dateTime - WindowBefore;
            var curve := Fitted(NormaliseWindow(w)[c], w.times, s.fit);
            var depthTime := s.depth(w.times, curve).time.value;
            var slope := s.slope(w.times, curve, start, depthTime);
            var dur := s.duration(w.times, curve, start);
            var e := Event(chs, eve, dateTime, t, m, s).values;
            && OfChannel(chs[c], SlopeMin) in e && e[OfChannel(chs[c], SlopeMin)] == NumCell(slope.min)
            && OfChannel(chs[c], SlopeMax) in e && e[OfChannel(chs[c], SlopeMax)] == NumCell(slope.max)
            && OfChannel(chs[c], SlopeMean) in e && e[OfChannel(chs[c], SlopeMean)] == NumCell(slope.mean)
            && OfChannel(chs[c], SlopeStartTime) in e && e[OfChannel(chs[c], SlopeStartTime)] == Instant(start)
            && OfChannel(chs[c], SlopeEndTime) in e && e[OfChannel(chs[c], SlopeEndTime)] == Instant(depthTime)
            && OfChannel(chs[c], Duration) in e && e[OfChannel(chs[c], Duration)] == NumCell(dur.seconds)
            && OfChannel(chs[c], DurationStartTime) in e && e[OfChannel(chs[c], DurationStartTime)] == TimeCell(dur.start)
            && OfChannel(chs[c], DurationEndTime) in e && e[OfChannel(chs[c], DurationEndTime)] == TimeCell(dur.end)
  {
    var w := EventWindow(eve, dateTime);
    var frame := NormaliseWindow(w);
    var fitted := FitChannels(chs, frame, w.times, StoreEventFields(m, dateTime, t), s.fit, |chs|);
    var p := ParamChannels(chs, fitted.0, w.times, dateTime - WindowBefore, fitted.1, s, c);
    var curve := Fitted(frame[c], w.times, s.fit);
    assert ChannelParameters(chs, eve, dateTime, t, m, s, c) == Parameterise(chs[c], curve, w.times, dateTime - WindowBefore, p, s);
    GatingWithDepthTime(chs[c], curve, w.times, dateTime - WindowBefore, p, s);
    EventParameters(chs, eve, dateTime, t, m, s, c);
    assert IsParameterFeature(SlopeMin) && IsParameterFeature(SlopeMax) && IsParameterFeature(SlopeMean);
    assert IsParameterFeature(SlopeStartTime) && IsParameterFeature(SlopeEndTime) && IsParameterFeature(Duration);
    assert IsParameterFeature(DurationStartTime) && IsParameterFeature(DurationEndTime);
  }

  // ---------------------------------------------------------------------
  // The whole run (lines 82-127, 140-146, 372)

  /** What the loop does with one stealth row: from its date and time, its
      catalog index and the row before it, the event's outcome. */
  type EventStep = (int, nat, RowValues) -> EventOutcome

  function EventStepOf(chs: seq<string>, eve: Series, s: Strategies): EventStep
    requires eve.WellFormed() && |eve.columns| == |chs|
  {
    (dateTime: int, t: nat, m: RowValues) => Event(chs, eve, dateTime, t, m, s)
  }

  /** A step never drops a column of the row. */
  ghost predicate KeepsColumns(step: EventStep)
  {
    forall dateTime, t, m, key :: key in m ==> key in step(dateTime, t, m).values
  }

  /** A step stores the catalog index and the window bounds. */
  ghost predicate StoresEventFields(step: EventStep)
  {
    forall dateTime, t, m :: StoresEventFieldsAt(step(dateTime, t, m).values, dateTime, t)
  }

  predicate StoresEventFieldsAt(values: RowValues, dateTime: int, t: nat)
  {
    && Meta(EventNumber) in values && values[Meta(EventNumber)] == Index(t)
    && Meta(StartTime) in values && values[Meta(StartTime)] == Instant(dateTime - WindowBefore)
    && Meta(EndTime) in values && values[Meta(EndTime)] == Instant(dateTime + WindowAfter)
  }

  /** A step assigns no column outside `Written`. */
  ghost predicate KeepsUnwritten(step: EventStep)
  {
    forall dateTime, t, m, key :: key in m && !Written(key) ==>
      key in step(dateTime, t, m).values && step(dateTime, t, m).values[key] == m[key]
  }

  lemma EventStepKeepsColumns(chs: seq<string>, eve: Series, s: Strategies)
    requires eve.WellFormed() && |eve.columns| == |chs|
    ensures KeepsColumns(EventStepOf(chs, eve, s))
  {
  }

  /** The characterisation of one event has all three properties. */
  lemma EventStepFacts(chs: seq<string>, eve: Series, s: Strategies)
    requires eve.WellFormed() && |eve.columns| == |chs|
    ensures KeepsColumns(EventStepOf(chs, eve, s))
    ensures StoresEventFields(EventStepOf(chs, eve, s))
    ensures KeepsUnwritten(EventStepOf(chs, eve, s))
  {
    var step := EventStepOf(chs, eve, s);
    EventStepKeepsColumns(chs, eve, s);
    forall dateTime, t, m
      ensures StoresEventFieldsAt(step(dateTime, t, m).values, dateTime, t)
    {
      EventFields(chs, eve, dateTime, t, m, s);
    }
    forall dateTime, t, m, key | key in m && !Written(key)
      ensures step(dateTime, t, m).values[key] == m[key]
    {
      EventKeepsUnwritten(chs, eve, dateTime, t, m, s, key);
    }
  }

  /** The row, the rows appended after the header, and the catalog index
      whose empty window stopped the run, if any. */
  datatype Progress = Progress(values: RowValues, rows: seq<seq<Cell>>, stopped: Option<nat>)

  /** The state after the loop has visited catalog rows 0..n-1. */
  function Run(cols: seq<Column>, catalog: seq<SohoRow>, step: EventStep, n: nat): (p: Progress)
    requires n <= |catalog| && KeepsColumns(step)
    ensures Covers(p.values, cols)
    ensures p.stopped.Some? ==> p.stopped.value < n
  {
    if n == 0 then Progress(Blank(cols), [], None)
    else
      var p := Run(cols, catalog, step, n - 1);
      var t := n - 1;
      if p.stopped.Some? || !IsStealth(catalog[t]) then p
      else
        var e := step(catalog[t].dateTime, t, p.values);
        if e.windowEmpty then Progress(e.values, p.rows, Some(t))
        else Progress(e.values, p.rows + [Cells(e.values, cols)], None)
  }

  /** Once the run has stopped, later catalog rows change nothing. */
  lemma {:induction false} RunStaysStopped(cols: seq<Column>, catalog: seq<SohoRow>, step: EventStep, t: nat, n: nat)
    requires t <= n <= |catalog| && KeepsColumns(step)
    requires Run(cols, catalog, step, t).stopped.Some?
    ensures Run(cols, catalog, step, n) == Run(cols, catalog, step, t)
  {
    if n > t {
      RunStaysStopped(cols, catalog, step, t, n - 1);
    }
  }

  /** One more catalog row: a stealth row runs the step and appends the
      row unless the window was empty; any other row changes nothing. */
  lemma RunNext(cols: seq<Column>, catalog: seq<SohoRow>, step: EventStep, t: nat, p: Progress)
    requires t < |catalog| && KeepsColumns(step)
    requires Run(cols, catalog, step, t) == p && p.stopped.None?
    ensures Covers(p.values, cols)
    ensures var e := step(catalog[t].dateTime, t, p.values);
            Run(cols, catalog, step, t + 1) ==
              if !IsStealth(catalog[t]) then p
              else if e.windowEmpty then Progress(e.values, p.rows, Some(t))
              else Progress(e.values, p.rows + [Cells(e.values, cols)], None)
  {
  }

  /** Lines 144-372 for catalog row t: nothing unless it is a stealth row;
      otherwise the event is characterised on the shared row and the row is
      appended, unless the window was empty. The run's state afterwards is
      that of `Run` over the first t + 1 catalog rows. */
  method VisitCatalogRow(row: JediRow, file: CatalogFile, chs: seq<string>, eve: Series, catalog: seq<SohoRow>,
                         t: nat, s: Strategies) returns (windowEmpty: bool)
    requires eve.WellFormed() && |eve.columns| == |chs| && t < |catalog|
    requires row.columns == Columns(chs) && row.Valid()
    requires Run(Columns(chs), catalog, EventStepOf(chs, eve, s), t) == Progress(row.values, file.rows, None)
    modifies row, file
    ensures row.Valid()
    ensures Run(Columns(chs), catalog, EventStepOf(chs, eve, s), t + 1) ==
              Progress(row.values, file.rows, if windowEmpty then Some(t) else None)
  {
    EventStepKeepsColumns(chs, eve, s);
    RunNext(Columns(chs), catalog, EventStepOf(chs, eve, s), t, Progress(row.values, file.rows, None));
    windowEmpty := false;
    if IsStealth(catalog[t]) {
      windowEmpty := CharacterizeEvent(row, chs, eve, catalog[t].dateTime, t, s);
      if !windowEmpty {
        file.Append(row);
      }
    }
  }

  /** The driver: build the row, write the header and the still blank row,
      then visit the catalog rows in order. An empty event window ends the
      run with the rows appended so far. */
  method CharacterizeStealthCMEs(chs: seq<string>, eve: Series, catalog: seq<SohoRow>, s: Strategies)
    returns (file: CatalogFile, stopped: Option<nat>)
    requires eve.WellFormed() && |eve.columns| == |chs|
    ensures KeepsColumns(EventStepOf(chs, eve, s))
    ensures file.header == Header(chs)
    ensures file.Lines() == [Cells(Blank(Columns(chs)), Columns(chs))] +
                            Run(Columns(chs), catalog, EventStepOf(chs, eve, s), |catalog|).rows
    ensures stopped == Run(Columns(chs), catalog, EventStepOf(chs, eve, s), |catalog|).stopped
  {
    EventStepKeepsColumns(chs, eve, s);
    var row := new JediRow(chs);
    file := new CatalogFile(Header(chs), row);
    assert Run(Columns(chs), catalog, EventStepOf(chs, eve, s), 0) == Progress(row.values, [], None);
    stopped := None;
    var t := 0;
    while t < |catalog| && stopped.None?
      invariant 0 <= t <= |catalog|
      invariant row.columns == Columns(chs) && row.Valid()
      invariant file.first == Cells(Blank(Columns(chs)), Columns(chs))
      invariant Run(Columns(chs), catalog, EventStepOf(chs, eve, s), t) == Progress(row.values, file.rows, stopped)
    {
      var windowEmpty := VisitCatalogRow(row, file, chs, eve, catalog, t, s);
      if windowEmpty {
        stopped := Some(t);
      }
      t := t + 1;
    }
    if t < |catalog| {
      RunStaysStopped(Columns(chs), catalog, EventStepOf(chs, eve, s), t, |catalog|);
    }
  }

  // ---------------------------------------------------------------------
  // Properties of the run

  /** Catalog indices, in order, of the stealth rows among the first n. */
  function StealthIndices(catalog: seq<SohoRow>, n: nat): (idx: seq<nat>)
    requires n <= |catalog|
    ensures forall k :: 0 <= k < |idx| ==> idx[k] < n && IsStealth(catalog[idx[k]])
    ensures forall k1, k2 :: 0 <= k1 < k2 < |idx| ==> idx[k1] < idx[k2]
  {
    if n == 0 then []
    else StealthIndices(catalog, n - 1) + (if IsStealth(catalog[n - 1]) then [n - 1] else [])
  }

  /** Every stealth row among the first n is listed. */
  lemma {:induction false} StealthIndicesComplete(catalog: seq<SohoRow>, n: nat)
    requires n <= |catalog|
    ensures forall t :: 0 <= t < n && IsStealth(catalog[t]) ==> t in StealthIndices(catalog, n)
  {
    if n > 0 {
      StealthIndicesComplete(catalog, n - 1);
    }
  }

  /** The first three columns are the event number, start and end time. */
  lemma ColumnsStart(chs: seq<string>)
    ensures |Columns(chs)| >= 3
    ensures Columns(chs)[0] == Meta(EventNumber)
    ensures Columns(chs)[1] == Meta(StartTime)
    ensures Columns(chs)[2] == Meta(EndTime)
  {
    ColumnsParts(chs);
    assert Columns(chs)[..7] == MetaColumns();
  }

  /** The catalog index at which the run stopped, or n. */
  function StopIndex(p: Progress, n: nat): nat
  {
    if p.stopped.Some? then p.stopped.value else n
  }

  /** A catalog line whose first three cells are the event's catalog index
      and window bounds. */
  predicate EventLine(line: seq<Cell>, width: nat, t: nat, dateTime: int)
  {
    && |line| == width >= 3
    && line[0] == Index(t)
    && line[1] == Instant(dateTime - WindowBefore)
    && line[2] == Instant(dateTime + WindowAfter)
  }

  /** A run appends one line per stealth row visited before it stopped;
      a stop happens only at a stealth row. */
  lemma {:induction false} RunRowCount(cols: seq<Column>, catalog: seq<SohoRow>, step: EventStep, n: nat)
    requires n <= |catalog| && KeepsColumns(step)
    ensures var p := Run(cols, catalog, step, n);
            && |p.rows| == |StealthIndices(catalog, StopIndex(p, n))|
            && (p.stopped.Some? ==> IsStealth(catalog[p.stopped.value]))
  {
    if n > 0 {
      RunRowCount(cols, catalog, step, n - 1);
    }
  }

  /** Line k of a run carries the catalog index and window bounds of the
      k-th stealth row. */
  lemma {:induction false} RunRowFields(cols: seq<Column>, catalog: seq<SohoRow>, step: EventStep, n: nat)
    requires n <= |catalog| && KeepsColumns(step) && StoresEventFields(step)
    requires |cols| >= 3 && cols[0] == Meta(EventNumber) && cols[1] == Meta(StartTime) && cols[2] == Meta(EndTime)
    ensures var p := Run(cols, catalog, step, n);
            var idx := StealthIndices(catalog, StopIndex(p, n));
            |p.rows| == |idx| &&
            forall k :: 0 <= k < |p.rows| ==> EventLine(p.rows[k], |cols|, idx[k], catalog[idx[k]].dateTime)
  {
    RunRowCount(cols, catalog, step, n);
    if n > 0 {
      RunRowFields(cols, catalog, step, n - 1);
      var p := Run(cols, catalog, step, n - 1);
      var q := Run(cols, catalog, step, n);
      var t := n - 1;
      var idx := StealthIndices(catalog, StopIndex(p, t));
      var idx' := StealthIndices(catalog, StopIndex(q, n));
      if p.stopped.Some? || !IsStealth(catalog[t]) {
        assert q == p;
        assert idx' == idx;
      } else {
        var e := step(catalog[t].dateTime, t, p.values);
        if e.windowEmpty {
          assert q.rows == p.rows && StopIndex(q, n) == t;
        } else {
          var line := Cells(e.values, cols);
          assert q.rows == p.rows + [line];
          assert idx' == idx + [t];
          assert StoresEventFieldsAt(e.values, catalog[t].dateTime, t);
          forall k | 0 <= k < |q.rows|
            ensures EventLine(q.rows[k], |cols|, idx'[k], catalog[idx'[k]].dateTime)
          {
            if k < |p.rows| {
              assert q.rows[k] == p.rows[k] && idx'[k] == idx[k];
            } else {
              assert q.rows[k] == line && idx'[k] == t;
            }
          }
        }
      }
    }
  }

  /** Whether a step's window is empty depends on the event time alone. */
  ghost predicate EmptyWindowWhen(step: EventStep, empty: int -> bool)
  {
    forall dateTime, t, m :: step(dateTime, t, m).windowEmpty == empty(dateTime)
  }

  /** A run stops at the first stealth row whose window is empty. */
  lemma {:induction false} RunStopsFor(cols: seq<Column>, catalog: seq<SohoRow>, step: EventStep,
                                       empty: int -> bool, n: nat)
    requires n <= |catalog| && KeepsColumns(step) && EmptyWindowWhen(step, empty)
    ensures var p := Run(cols, catalog, step, n);
            && (p.stopped.Some? ==> IsStealth(catalog[p.stopped.value]) && empty(catalog[p.stopped.value].dateTime))
            && (forall t :: 0 <= t < StopIndex(p, n) && IsStealth(catalog[t]) ==> !empty(catalog[t].dateTime))
  {
    if n > 0 {
      RunStopsFor(cols, catalog, step, empty, n - 1);
    }
  }

  /** The run stops at catalog row t exactly when t is the first stealth
      row whose event window holds no sample (`iloc[0]` then raises). */
  lemma RunStopsAtEmptyWindow(chs: seq<string>, eve: Series, catalog: seq<SohoRow>, s: Strategies)
    requires eve.WellFormed() && |eve.columns| == |chs|
    ensures KeepsColumns(EventStepOf(chs, eve, s))
    ensures var p := Run(Columns(chs), catalog, EventStepOf(chs, eve, s), |catalog|);
            && (p.stopped.Some? ==>
                  IsStealth(catalog[p.stopped.value]) && |EventWindow(eve, catalog[p.stopped.value].dateTime).times| == 0)
            && (forall t :: 0 <= t < StopIndex(p, |catalog|) && IsStealth(catalog[t]) ==>
                  |EventWindow(eve, catalog[t].dateTime).times| > 0)
  {
    EventStepFacts(chs, eve, s);
    var empty := (dateTime: int) => |EventWindow(eve, dateTime).times| == 0;
    assert EmptyWindowWhen(EventStepOf(chs, eve, s), empty);
    RunStopsFor(Columns(chs), catalog, EventStepOf(chs, eve, s), empty, |catalog|);
  }

  lemma EventStepStoresFields(chs: seq<string>, eve: Series, s: Strategies)
    requires eve.WellFormed() && |eve.columns| == |chs|
    ensures StoresEventFields(EventStepOf(chs, eve, s))
  {
    var step := EventStepOf(chs, eve, s);
    forall dateTime, t, m
      ensures StoresEventFieldsAt(step(dateTime, t, m).values, dateTime, t)
    {
      EventFields(chs, eve, dateTime, t, m, s);
    }
  }

  /** One catalog line is appended per stealth row visited before the run
      stopped (per stealth row of the catalog when none has an empty
      window). Line k holds, as `Event #`, the catalog index of the k-th
      stealth row (not a count of events), and as `Start Time`/`End Time`
      the bounds of that event's window. */
  lemma CatalogRows(chs: seq<string>, eve: Series, catalog: seq<SohoRow>, s: Strategies)
    requires eve.WellFormed() && |eve.columns| == |chs|
    ensures KeepsColumns(EventStepOf(chs, eve, s))
    ensures var p := Run(Columns(chs), catalog, EventStepOf(chs, eve, s), |catalog|);
            var idx := StealthIndices(catalog, StopIndex(p, |catalog|));
            && |p.rows| == |idx|
            && (p.stopped.None? ==> idx == StealthIndices(catalog, |catalog|))
            && forall k :: 0 <= k < |p.rows| ==>
                 EventLine(p.rows[k], |Columns(chs)|, idx[k], catalog[idx[k]].dateTime)
  {
    EventStepKeepsColumns(chs, eve, s);
    EventStepStoresFields(chs, eve, s);
    ColumnsStart(chs);
    RunRowFields(Columns(chs), catalog, EventStepOf(chs, eve, s), |catalog|);
  }

  /** The row is never reset: a column the driver never assigns keeps its
      initial NaN in the row and in every appended line. */
  lemma {:induction false} UnwrittenStayMissingFor(cols: seq<Column>, catalog: seq<SohoRow>, step: EventStep, n: nat)
    requires n <= |catalog| && KeepsColumns(step) && KeepsUnwritten(step)
    ensures var p := Run(cols, catalog, step, n);
            && (forall c :: c in cols && !Written(c) ==> p.values[c] == Missing)
            && (forall k, j :: 0 <= k < |p.rows| && 0 <= j < |cols| && !Written(cols[j])
                  ==> |p.rows[k]| == |cols| && p.rows[k][j] == Missing)
  {
    if n > 0 {
      UnwrittenStayMissingFor(cols, catalog, step, n - 1);
    }
  }

  /** The GOES flare class, pre-flare fields, uncertainties and every pair
      column are NaN in every appended line. */
  lemma UnwrittenColumnsStayMissing(chs: seq<string>, eve: Series, catalog: seq<SohoRow>, s: Strategies)
    requires eve.WellFormed() && |eve.columns| == |chs|
    ensures KeepsColumns(EventStepOf(chs, eve, s))
    ensures var p := Run(Columns(chs), catalog, EventStepOf(chs, eve, s), |catalog|);
            forall k, j :: 0 <= k < |p.rows| && 0 <= j < |Columns(chs)| && !Written(Columns(chs)[j])
              ==> |p.rows[k]| == |Header(chs)| && p.rows[k][j] == Missing
  {
    EventStepFacts(chs, eve, s);
    UnwrittenStayMissingFor(Columns(chs), catalog, EventStepOf(chs, eve, s), |catalog|);
  }

  // ---------------------------------------------------------------------
  // Line 144 as written

  /** Line 144 looks up `iloc[i]`, where `i` is only bound by the fit loop
      of an event (its last channel index) and the loop variable is `t`. */
  datatype LookupError = UnboundLocal | OutOfRange

  /** The state of the as-written loop: the value of `i`, the catalog
      indices characterised so far, and the error that ended the run. */
  datatype AsWrittenState = AsWrittenState(i: Option<nat>, events: seq<nat>, error: Option<LookupError>)

  /** The as-written row lookup over the first n iterations with c channels.
      It follows the loop body as written: a bound `i` left by an earlier
      event's fit loop would select the row `iloc[i]`. Those branches are
      never reached, because the first iteration always fails
      (`LookupAsWrittenAlwaysFails`). */
  function LookupAsWritten(catalog: seq<SohoRow>, c: nat, n: nat): (st: AsWrittenState)
    requires n <= |catalog|
    ensures forall k :: 0 <= k < |st.events| ==> st.events[k] < n
    ensures n > 0 && st.error.None? ==> st.i.Some?
  {
    if n == 0 then AsWrittenState(None, [], None)
    else
      var p := LookupAsWritten(catalog, c, n - 1);
      if p.error.Some? then p
      else if p.i.None? then AsWrittenState(p.i, p.events, Some(UnboundLocal))
      else if p.i.value >= |catalog| then AsWrittenState(p.i, p.events, Some(OutOfRange))
      else if !IsStealth(catalog[p.i.value]) then p
      else AsWrittenState(if c > 0 then Some(c - 1) else p.i, p.events + [n - 1], None)
  }

  /** As written, the very first lookup fails: no event is ever
      characterised, whatever the catalog holds. */
  lemma {:induction false} LookupAsWrittenAlwaysFails(catalog: seq<SohoRow>, c: nat, n: nat)
    requires 1 <= n <= |catalog|
    ensures LookupAsWritten(catalog, c, n) == AsWrittenState(None, [], Some(UnboundLocal))
  {
    if n > 1 {
      LookupAsWrittenAlwaysFails(catalog, c, n - 1);
    }
  }

  /** A one-row catalog with a stealth CME whose window holds a sample: the
      corrected lookup (`iloc[t]`) characterises event 0 and the driver
      appends its line, the as-written one characterises none. */
  lemma LookupCounterexample(chs: seq<string>, eve: Series, s: Strategies, catalog: seq<SohoRow>)
    requires catalog == [SohoRow("yes", 0)]
    requires eve.WellFormed() && |eve.columns| == |chs| && |EventWindow(eve, 0).times| > 0
    ensures StealthIndices(catalog, 1) == [0]
    ensures var p := Run(Columns(chs), catalog, EventStepOf(chs, eve, s), 1);
            && p.stopped.None? && |p.rows| == 1
            && |p.rows[0]| >= 1 && p.rows[0][0] == Index(0)
    ensures LookupAsWritten(catalog, 39, 1).events == []
  {
    assert IsStealth(catalog[0]);
    RunStopsAtEmptyWindow(chs, eve, catalog, s);
    CatalogRows(chs, eve, catalog, s);
  }
}

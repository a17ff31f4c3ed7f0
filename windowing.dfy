/** Multi-channel irradiance series and the two ways the pipelines cut
    windows out of them: by an inclusive time interval (`.loc` with a
    boolean mask) and by row positions (`.iloc[from:to]`). */
module Windowing {
  import opened Common

  /** Timestamps in seconds and one column of samples per channel. */
  datatype Series = Series(times: seq<int>, columns: seq<seq<Num>>)
  {
    predicate WellFormed()
    {
      forall c :: 0 <= c < |columns| ==> |columns[c]| == |times|
    }
  }

  predicate StrictlyIncreasing(xs: seq<int>)
  {
    forall i, j :: 0 <= i < j < |xs| ==> xs[i] < xs[j]
  }

  /** Positions, in order, of the samples whose timestamp lies in [lo, hi]. */
  function Selected(times: seq<int>, lo: int, hi: int): (idx: seq<nat>)
    ensures forall j :: 0 <= j < |idx| ==> idx[j] < |times| && lo <= times[idx[j]] <= hi
    ensures forall k :: 0 <= k < |times| && lo <= times[k] <= hi ==> k in idx
    ensures forall j1, j2 :: 0 <= j1 < j2 < |idx| ==> idx[j1] < idx[j2]
  {
    if |times| == 0 then []
    else
      var last := |times| - 1;
      var rest := Selected(times[..last], lo, hi);
      if lo <= times[last] <= hi then rest + [last] else rest
  }

  function Project<T>(xs: seq<T>, idx: seq<nat>): (ys: seq<T>)
    requires forall j :: 0 <= j < |idx| ==> idx[j] < |xs|
    ensures |ys| == |idx| && forall j :: 0 <= j < |idx| ==> ys[j] == xs[idx[j]]
  {
    seq(|idx|, j requires 0 <= j < |idx| => xs[idx[j]])
  }

  /** The samples with lo <= timestamp <= hi, both ends included. */
  function SliceTime(s: Series, lo: int, hi: int): (w: Series)
    requires s.WellFormed()
    ensures w.WellFormed() && |w.columns| == |s.columns|
  {
    var idx := Selected(s.times, lo, hi);
    Series(Project(s.times, idx), seq(|s.columns|, c requires 0 <= c < |s.columns| => Project(s.columns[c], idx)))
  }

  /** The window holds exactly the samples whose timestamp lies in [lo, hi]. */
  lemma SliceTimeMembers(s: Series, lo: int, hi: int)
    requires s.WellFormed()
    ensures forall t :: t in SliceTime(s, lo, hi).times <==> t in s.times && lo <= t <= hi
  {
    var idx := Selected(s.times, lo, hi);
    var wt := SliceTime(s, lo, hi).times;
    assert wt == Project(s.times, idx);
    forall t | t in s.times && lo <= t <= hi
      ensures t in wt
    {
      var k :| 0 <= k < |s.times| && s.times[k] == t;
      var j :| 0 <= j < |idx| && idx[j] == k;
      assert wt[j] == t;
    }
  }

  /** The window keeps the original order of the samples. */
  lemma SliceTimeOrdered(s: Series, lo: int, hi: int)
    requires s.WellFormed() && StrictlyIncreasing(s.times)
    ensures StrictlyIncreasing(SliceTime(s, lo, hi).times)
  {
    var idx := Selected(s.times, lo, hi);
    assert SliceTime(s, lo, hi).times == Project(s.times, idx);
  }

  /** Sample j of the window is sample `Selected(..)[j]` of the series,
      with that sample's value in every channel. */
  lemma SliceTimeValues(s: Series, lo: int, hi: int, j: nat)
    requires s.WellFormed()
    requires j < |SliceTime(s, lo, hi).times|
    ensures var k := Selected(s.times, lo, hi)[j];
            var w := SliceTime(s, lo, hi);
            && k < |s.times|
            && w.times[j] == s.times[k]
            && forall c :: 0 <= c < |s.columns| ==> w.columns[c][j] == s.columns[c][k]
  {
  }

  /** `iloc[from:to]`: rows from..to-1, both bounds clipped to the series. */
  function SliceRows(s: Series, from: nat, to: nat): (w: Series)
    requires s.WellFormed()
    ensures w.WellFormed() && |w.columns| == |s.columns|
    ensures |w.times| == (if to <= from || from >= |s.times| then 0
                          else (if to <= |s.times| then to else |s.times|) - from)
    ensures forall j :: 0 <= j < |w.times| ==> w.times[j] == s.times[from + j]
    ensures forall c, j :: 0 <= c < |s.columns| && 0 <= j < |w.times| ==> w.columns[c][j] == s.columns[c][from + j]
  {
    var n := |s.times|;
    var lo := if from <= n then from else n;
    var hi := if to <= lo then lo else if to <= n then to else n;
    Series(s.times[lo..hi], seq(|s.columns|, c requires 0 <= c < |s.columns| => s.columns[c][lo..hi]))
  }

  /** Every channel of a non-empty window as percent of its first sample. */
  function NormaliseWindow(w: Series): (frame: seq<seq<Num>>)
    requires w.WellFormed() && |w.times| > 0
    ensures |frame| == |w.columns|
    ensures forall c :: 0 <= c < |w.columns| ==> frame[c] == Normalise(w.columns[c])
  {
    seq(|w.columns|, c requires 0 <= c < |w.columns| => Normalise(w.columns[c]))
  }
}

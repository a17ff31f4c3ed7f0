/** Values shared by both pipelines: NaN-able numbers, catalog cells and the
    percent-of-baseline conversion applied to every irradiance window. */
module Common {

  datatype Option<+T> = None | Some(value: T)

  /** An outcome that is either a value or the error the source raises. */
  datatype Result<+T, +E> = Ok(value: T) | Err(error: E)

  /** A floating-point irradiance value; `None` stands for NaN. */
  type Num = Option<real>

  /** One cell of the JEDI catalog row: NaN, a number, a timestamp in
      seconds, or a catalog row index. */
  datatype Cell = Missing | Number(x: real) | Instant(seconds: int) | Index(n: int)

  function NumCell(x: Num): (c: Cell)
    ensures c.Missing? <==> x.None?
    ensures x.Some? ==> c == Number(x.value)
  {
    match x
    case None => Missing
    case Some(v) => Number(v)
  }

  function TimeCell(t: Option<int>): (c: Cell)
    ensures c.Missing? <==> t.None?
    ensures t.Some? ==> c == Instant(t.value)
  {
    match t
    case None => Missing
    case Some(s) => Instant(s)
  }

  /** NaN-propagating arithmetic on `Num`. */
  function Add(x: Num, y: Num): (r: Num)
    ensures r.Some? <==> x.Some? && y.Some?
  {
    if x.Some? && y.Some? then Some(x.value + y.value) else None
  }

  function Sub(x: Num, y: Num): (r: Num)
    ensures r.Some? <==> x.Some? && y.Some?
  {
    if x.Some? && y.Some? then Some(x.value - y.value) else None
  }

  function Mul(x: Num, y: Num): (r: Num)
    ensures r.Some? <==> x.Some? && y.Some?
  {
    if x.Some? && y.Some? then Some(x.value * y.value) else None
  }

  /** Division; a zero divisor gives an undefined result. */
  function Div(x: Num, y: Num): (r: Num)
    ensures r.Some? <==> x.Some? && y.Some? && y.value != 0.0
    ensures r.Some? ==> r.value * y.value == x.value
  {
    if x.Some? && y.Some? && y.value != 0.0 then Some(x.value / y.value) else None
  }

  /** True when every sample of a channel is NaN (pandas `isnull().all()`). */
  predicate AllMissing(col: seq<Num>)
  {
    forall i :: 0 <= i < |col| ==> col[i].None?
  }

  /** Percent change of `x` from the baseline `b`: (x - b) / b * 100. */
  function Percent(x: Num, b: Num): (r: Num)
    ensures r.Some? <==> x.Some? && b.Some? && b.value != 0.0
    ensures r.Some? ==> b.value + r.value * b.value / 100.0 == x.value
  {
    Mul(Div(Sub(x, b), b), Some(100.0))
  }

  /** Converts a window of one channel to percent of its first sample. */
  function Normalise(col: seq<Num>): (r: seq<Num>)
    requires |col| > 0
    ensures |r| == |col|
    ensures col[0].Some? && col[0].value != 0.0 ==> r[0] == Some(0.0)
    ensures col[0].None? || col[0].value == 0.0 ==> AllMissing(r)
    ensures forall i :: 0 <= i < |col| ==> (r[i].Some? <==> col[i].Some? && col[0].Some? && col[0].value != 0.0)
  {
    seq(|col|, i requires 0 <= i < |col| => Percent(col[i], col[0]))
  }

  /** Result of the external noise-reduction fit of one channel. */
  datatype FitResult = FitResult(curve: seq<Num>, gamma: Num, score: Num)

  /** The external fit: timestamps, percent series and per-sample uncertainty.
      Its curve is taken to be as long as the series it was given. */
  type FitStrategy = (seq<int>, seq<Num>, seq<real>) -> FitResult

  /** The fixed measurement uncertainty broadcast to every sample of a fit. */
  const FitUncertainty: real := 0.002545

  function Uncertainty(n: nat): (u: seq<real>)
    ensures |u| == n && forall i :: 0 <= i < n ==> u[i] == FitUncertainty
  {
    seq(n, _ => FitUncertainty)
  }

  /** A channel after a fit loop: unchanged when every sample is NaN
      (the fit is skipped), the fitted curve otherwise. */
  function Fitted(col: seq<Num>, times: seq<int>, fit: FitStrategy): seq<Num>
  {
    if AllMissing(col) then col else fit(times, col, Uncertainty(|times|)).curve
  }
}

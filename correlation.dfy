/** The hand-written Pearson correlation of `correlationCoefficientScan`
    (CorrelationCoefficientAnalysis.py:124-153): pandas' NaN-skipping
    `count`, `mean` and population `std` of each column, a numerator summed
    row by row over the two columns paired by position, the denominator
    n * stdA * stdB, and the plain sum of the per-column coefficients. */
module Correlation {
  import opened Common

  /** No sample of the column is NaN. */
  predicate NoMissing(col: seq<Num>)
  {
    forall i :: 0 <= i < |col| ==> col[i].Some?
  }

  /** `Series.count()`: the number of non-NaN samples. */
  function Count(col: seq<Num>): (n: nat)
    ensures n <= |col|
    ensures n == 0 <==> AllMissing(col)
    ensures NoMissing(col) ==> n == |col|
  {
    if |col| == 0 then 0
    else Count(col[..|col| - 1]) + (if col[|col| - 1].Some? then 1 else 0)
  }

  /** The sum of the non-NaN samples. */
  function Total(col: seq<Num>): real
  {
    if |col| == 0 then 0.0
    else Total(col[..|col| - 1]) + (if col[|col| - 1].Some? then col[|col| - 1].value else 0.0)
  }

  /** `Series.mean()`: NaN when no sample is a number. */
  function Mean(col: seq<Num>): (m: Num)
    ensures m.Some? <==> Count(col) > 0
  {
    if Count(col) == 0 then None else Some(Total(col) / Count(col) as real)
  }

  /** Real multiplication behind a name of its own: the facts about squares
      below are stated on it, which keeps the solver's rewriting of `x * x`
      out of their way. */
  function Mult(x: real, y: real): real
  {
    x * y
  }

  lemma PositiveProduct(x: real, y: real)
    requires x > 0.0 && y > 0.0
    ensures Mult(x, y) > 0.0
  {
  }

  /** A square is never negative. */
  lemma SquareNonNegative(x: real)
    ensures Mult(x, x) >= 0.0
  {
    if x > 0.0 {
      PositiveProduct(x, x);
    } else if x < 0.0 {
      assert Mult(-x, -x) == Mult(x, x);
      PositiveProduct(-x, -x);
    }
  }

  /** A square is zero only for zero. */
  lemma SquareZero(x: real)
    requires Mult(x, x) == 0.0
    ensures x == 0.0
  {
    if x > 0.0 {
      PositiveProduct(x, x);
    } else if x < 0.0 {
      assert Mult(-x, -x) == Mult(x, x);
      PositiveProduct(-x, -x);
    }
  }

  /** The sum of squared deviations from m over the non-NaN samples. */
  function SqDev(col: seq<Num>, m: real): (d: real)
    ensures d >= 0.0
  {
    if |col| == 0 then 0.0
    else
      var x := col[|col| - 1];
      if x.Some? then
        SquareNonNegative(x.value - m);
        SqDev(col[..|col| - 1], m) + Mult(x.value - m, x.value - m)
      else
        SqDev(col[..|col| - 1], m)
  }

  /** Population variance (`ddof=0`): NaN when no sample is a number. */
  function Variance(col: seq<Num>): (v: Num)
    ensures v.Some? <==> Count(col) > 0
    ensures v.Some? ==> v.value >= 0.0
  {
    if Count(col) == 0 then None else Some(SqDev(col, Mean(col).value) / Count(col) as real)
  }

  /** The square root the standard deviation is taken with: non-negative,
      and its square gives back its argument. */
  ghost predicate IsSqrt(sqrt: real -> real)
  {
    forall v :: v >= 0.0 ==> sqrt(v) >= 0.0 && Mult(sqrt(v), sqrt(v)) == v
  }

  /** `Series.std(ddof=0)`. */
  function Std(col: seq<Num>, sqrt: real -> real): (s: Num)
    ensures s.Some? <==> Count(col) > 0
  {
    match Variance(col)
    case None => None
    case Some(v) => Some(sqrt(v))
  }

  /** Sample i of a column once both columns are joined on a reset index:
      past the end of the shorter column the join holds NaN. */
  function At(col: seq<Num>, i: nat): (x: Num)
    ensures i < |col| ==> x == col[i]
    ensures i >= |col| ==> x.None?
  {
    if i < |col| then col[i] else None
  }

  /** Rows of the joined frame. */
  function Rows(a: seq<Num>, b: seq<Num>): nat
  {
    if |a| < |b| then |b| else |a|
  }

  /** (a_i - meanA) * (b_i - meanB) in float arithmetic: NaN in, NaN out. */
  function Product(a: seq<Num>, b: seq<Num>, meanA: Num, meanB: Num, i: nat): Num
  {
    Mul(Sub(At(a, i), meanA), Sub(At(b, i), meanB))
  }

  /** The numerator after the first k rows of the joined frame. */
  function NumeratorUpTo(a: seq<Num>, b: seq<Num>, meanA: Num, meanB: Num, k: nat): (r: Num)
    ensures r.Some? <==> forall i :: 0 <= i < k ==> Product(a, b, meanA, meanB, i).Some?
  {
    if k == 0 then Some(0.0)
    else Add(NumeratorUpTo(a, b, meanA, meanB, k - 1), Product(a, b, meanA, meanB, k - 1))
  }

  function Numerator(a: seq<Num>, b: seq<Num>): Num
  {
    NumeratorUpTo(a, b, Mean(a), Mean(b), Rows(a, b))
  }

  /** n * stdA * stdB, where n counts the first column only. */
  function Denominator(a: seq<Num>, b: seq<Num>, sqrt: real -> real): Num
  {
    Mul(Mul(Some(Count(a) as real), Std(a, sqrt)), Std(b, sqrt))
  }

  /** The coefficient of one column; a zero denominator gives NaN. */
  function Coefficient(a: seq<Num>, b: seq<Num>, sqrt: real -> real): Num
  {
    Div(Numerator(a, b), Denominator(a, b, sqrt))
  }

  /** A number as numerator needs two columns of one length without NaN. */
  lemma NumeratorDefinedOnlyIfComplete(a: seq<Num>, b: seq<Num>)
    requires Numerator(a, b).Some?
    ensures |a| == |b| && NoMissing(a) && NoMissing(b)
  {
    var n := Rows(a, b);
    forall i | 0 <= i < n
      ensures At(a, i).Some? && At(b, i).Some?
    {
      assert Product(a, b, Mean(a), Mean(b), i).Some?;
    }
    if n > 0 {
      assert At(a, n - 1).Some? && At(b, n - 1).Some?;
    }
    forall i | 0 <= i < |a|
      ensures a[i].Some?
    {
      assert At(a, i) == a[i];
    }
    forall i | 0 <= i < |b|
      ensures b[i].Some?
    {
      assert At(b, i) == b[i];
    }
  }

  /** Two columns of one length without NaN give a number as numerator. */
  lemma NumeratorDefinedIfComplete(a: seq<Num>, b: seq<Num>)
    requires |a| == |b| && NoMissing(a) && NoMissing(b)
    ensures Numerator(a, b).Some?
  {
    if |a| > 0 {
      assert Count(a) > 0 && Count(b) > 0;
      forall i | 0 <= i < Rows(a, b)
        ensures Product(a, b, Mean(a), Mean(b), i).Some?
      {
        assert At(a, i).Some? && At(b, i).Some?;
      }
    }
  }

  /** The numerator is a number exactly when the two columns have the same
      length and neither holds a NaN. */
  lemma NumeratorDefined(a: seq<Num>, b: seq<Num>)
    ensures Numerator(a, b).Some? <==> |a| == |b| && NoMissing(a) && NoMissing(b)
  {
    if Numerator(a, b).Some? {
      NumeratorDefinedOnlyIfComplete(a, b);
    }
    if |a| == |b| && NoMissing(a) && NoMissing(b) {
      NumeratorDefinedIfComplete(a, b);
    }
  }

  /** A column with a NaN sample, or paired with a column of another
      length, has an undefined coefficient. */
  lemma CoefficientNeedsCompleteColumns(a: seq<Num>, b: seq<Num>, sqrt: real -> real)
    requires |a| != |b| || !NoMissing(a) || !NoMissing(b)
    ensures Coefficient(a, b, sqrt).None?
  {
    NumeratorDefined(a, b);
  }

  /** Paired with itself, a column without NaN has the sum of its squared
      deviations as numerator. */
  lemma {:induction false} NumeratorOfSelf(a: seq<Num>, m: real, k: nat)
    requires NoMissing(a) && k <= |a|
    ensures NumeratorUpTo(a, a, Some(m), Some(m), k) == Some(SqDev(a[..k], m))
  {
    if k > 0 {
      NumeratorOfSelf(a, m, k - 1);
      assert a[..k][..k - 1] == a[..k - 1];
      assert a[..k][k - 1] == a[k - 1] == At(a, k - 1);
      var x := a[k - 1].value;
      var d := x - m;
      assert At(a, k - 1) == Some(x);
      assert Sub(Some(x), Some(m)) == Some(d);
      var p := Product(a, a, Some(m), Some(m), k - 1);
      assert p.Some? && p.value == Mult(d, d);
      assert SqDev(a[..k], m) == SqDev(a[..k - 1], m) + Mult(x - m, x - m);
    }
  }

  /** n * s * s gives back d when s is the root of d / n. */
  lemma RootCancels(n: real, s: real, d: real)
    requires n > 0.0 && Mult(s, s) == d / n && d / n > 0.0
    ensures (n * s) * s == d && d != 0.0 && d / d == 1.0
  {
    assert (n * s) * s == n * (s * s);
    assert n * (d / n) == d;
  }

  /** A column correlated with itself gives 1 when it is not constant. */
  lemma SelfCoefficient(a: seq<Num>, sqrt: real -> real)
    requires IsSqrt(sqrt)
    requires NoMissing(a) && |a| > 0
    requires Variance(a).value > 0.0
    ensures Coefficient(a, a, sqrt) == Some(1.0)
  {
    var m := Mean(a).value;
    var n := |a| as real;
    var d := SqDev(a, m);
    NumeratorOfSelf(a, m, |a|);
    assert a[..|a|] == a;
    var num := Numerator(a, a);
    assert num == Some(d);
    var v := Variance(a).value;
    assert v == d / n;
    var s := sqrt(v);
    assert Std(a, sqrt) == Some(s);
    RootCancels(n, s, d);
    var den := Denominator(a, a, sqrt);
    assert den.Some? && den.value == d;
    var r := Coefficient(a, a, sqrt);
    assert r.Some? && r.value == d / d;
  }

  /** A zero sum of squared deviations means every number equals m. */
  lemma {:induction false} SqDevZero(col: seq<Num>, m: real)
    requires SqDev(col, m) == 0.0
    ensures forall i :: 0 <= i < |col| && col[i].Some? ==> col[i].value == m
  {
    if |col| > 0 {
      var init := col[..|col| - 1];
      var x := col[|col| - 1];
      if x.Some? {
        SquareNonNegative(x.value - m);
        assert SqDev(init, m) + Mult(x.value - m, x.value - m) == 0.0;
        SquareZero(x.value - m);
      }
      SqDevZero(init, m);
      assert forall i :: 0 <= i < |init| ==> col[i] == init[i];
    }
  }

  /** Rows whose first (or second) column sits at its mean add nothing. */
  lemma {:induction false} NumeratorAtMean(a: seq<Num>, b: seq<Num>, ma: real, mb: real, k: nat)
    requires NumeratorUpTo(a, b, Some(ma), Some(mb), k).Some?
    requires (forall i :: 0 <= i < |a| && a[i].Some? ==> a[i].value == ma) ||
             (forall i :: 0 <= i < |b| && b[i].Some? ==> b[i].value == mb)
    ensures NumeratorUpTo(a, b, Some(ma), Some(mb), k) == Some(0.0)
  {
    if k > 0 {
      NumeratorAtMean(a, b, ma, mb, k - 1);
      assert Product(a, b, Some(ma), Some(mb), k - 1).Some?;
    }
  }

  /** The square root of zero is zero. */
  lemma SqrtZero(sqrt: real -> real)
    requires IsSqrt(sqrt)
    ensures sqrt(0.0) == 0.0
  {
    SquareZero(sqrt(0.0));
  }

  /** The standard deviation is zero only for a zero variance. */
  lemma StdZero(col: seq<Num>, sqrt: real -> real)
    requires IsSqrt(sqrt) && Std(col, sqrt) == Some(0.0)
    ensures Variance(col) == Some(0.0)
  {
    var v := Variance(col).value;
    assert Mult(sqrt(v), sqrt(v)) == v;
  }

  /** A zero-variance column gives 0/0: the coefficient is NaN. */
  lemma ZeroVarianceUndefined(a: seq<Num>, b: seq<Num>, sqrt: real -> real)
    requires IsSqrt(sqrt)
    requires Variance(a) == Some(0.0) || Variance(b) == Some(0.0)
    ensures Coefficient(a, b, sqrt).None?
  {
    SqrtZero(sqrt);
    var den := Denominator(a, b, sqrt);
    if den.Some? {
      assert Std(a, sqrt) == Some(0.0) || Std(b, sqrt) == Some(0.0);
      assert den.value == 0.0;
    }
  }

  /** Whenever the denominator is zero and the numerator a number, the
      numerator is zero too: the division is 0/0 (NaN), never x/0 (an
      infinity). */
  lemma ZeroDenominatorZeroNumerator(a: seq<Num>, b: seq<Num>, sqrt: real -> real)
    requires IsSqrt(sqrt)
    requires Denominator(a, b, sqrt) == Some(0.0) && Numerator(a, b).Some?
    ensures Numerator(a, b) == Some(0.0)
  {
    NumeratorDefined(a, b);
    if |a| > 0 {
      var n := Count(a) as real;
      var sa := Std(a, sqrt).value;
      var sb := Std(b, sqrt).value;
      assert n > 0.0;
      assert (n * sa) * sb == 0.0;
      if sa == 0.0 {
        StdZero(a, sqrt);
        SqDevZero(a, Mean(a).value);
      } else {
        assert n * sa != 0.0;
        assert sb == 0.0;
        StdZero(b, sqrt);
        SqDevZero(b, Mean(b).value);
      }
      NumeratorAtMean(a, b, Mean(a).value, Mean(b).value, Rows(a, b));
    }
  }

  /** The coefficient of a column against its reference column. */
  type Correlator = (seq<Num>, seq<Num>) -> Num

  function CoefficientOf(sqrt: real -> real): Correlator
  {
    (a, b) => Coefficient(a, b, sqrt)
  }

  /** The running total after the first k columns of the window frame, each
      paired with the reference column of the same name. A name the
      reference lacks is a KeyError, reported with that name. */
  function AggregateUpTo(names: seq<string>, frame: seq<seq<Num>>, reference: map<string, seq<Num>>,
                         coefficient: Correlator, k: nat): Result<Num, string>
    requires |names| == |frame| && k <= |names|
  {
    if k == 0 then Ok(Some(0.0))
    else
      match AggregateUpTo(names, frame, reference, coefficient, k - 1)
      case Err(name) => Err(name)
      case Ok(total) =>
        if names[k - 1] !in reference then Err(names[k - 1])
        else Ok(Add(total, coefficient(frame[k - 1], reference[names[k - 1]])))
  }

  /** `totalCorrelationCoefficient`: the sum, not the mean, of the
      coefficients of every column of the frame. */
  function Aggregate(names: seq<string>, frame: seq<seq<Num>>, reference: map<string, seq<Num>>,
                     sqrt: real -> real): Result<Num, string>
    requires |names| == |frame|
  {
    AggregateUpTo(names, frame, reference, CoefficientOf(sqrt), |names|)
  }

  /** A column the reference lacks fails the whole aggregate with its name,
      whatever follows it. */
  lemma {:induction false} AggregateMissingName(names: seq<string>, frame: seq<seq<Num>>,
                                                reference: map<string, seq<Num>>, coefficient: Correlator, k: nat, j: nat)
    requires |names| == |frame| && j < k <= |names|
    requires names[j] !in reference
    requires AggregateUpTo(names, frame, reference, coefficient, j).Ok?
    ensures AggregateUpTo(names, frame, reference, coefficient, k) == Err(names[j])
  {
    if k - 1 > j {
      AggregateMissingName(names, frame, reference, coefficient, k - 1, j);
    }
  }

  /** The first column the reference lacks is the one reported. */
  lemma AggregateFirstMissing(names: seq<string>, frame: seq<seq<Num>>,
                              reference: map<string, seq<Num>>, coefficient: Correlator, j: nat)
    requires |names| == |frame| && j < |names|
    requires names[j] !in reference
    requires forall i :: 0 <= i < j ==> names[i] in reference
    ensures AggregateUpTo(names, frame, reference, coefficient, |names|) == Err(names[j])
  {
    AggregatePresent(names, frame, reference, coefficient, j);
    AggregateMissingName(names, frame, reference, coefficient, |names|, j);
  }

  /** Every column present in the reference: the total is a number exactly
      when every column's coefficient is. */
  lemma {:induction false} AggregatePresent(names: seq<string>, frame: seq<seq<Num>>,
                                            reference: map<string, seq<Num>>, coefficient: Correlator, k: nat)
    requires |names| == |frame| && k <= |names|
    requires forall j :: 0 <= j < k ==> names[j] in reference
    ensures AggregateUpTo(names, frame, reference, coefficient, k).Ok?
    ensures AggregateUpTo(names, frame, reference, coefficient, k).value.Some? <==>
            forall j :: 0 <= j < k ==> coefficient(frame[j], reference[names[j]]).Some?
  {
    if k > 0 {
      AggregatePresent(names, frame, reference, coefficient, k - 1);
    }
  }

  /** Columns whose coefficients are all 1 aggregate to the number of columns. */
  lemma {:induction false} AggregateOfOnes(names: seq<string>, frame: seq<seq<Num>>,
                                           reference: map<string, seq<Num>>, coefficient: Correlator, k: nat)
    requires |names| == |frame| && k <= |names|
    requires forall j :: 0 <= j < k ==> names[j] in reference && coefficient(frame[j], reference[names[j]]) == Some(1.0)
    ensures AggregateUpTo(names, frame, reference, coefficient, k) == Ok(Some(k as real))
  {
    if k > 0 {
      AggregateOfOnes(names, frame, reference, coefficient, k - 1);
    }
  }

  /** A frame identical to the reference, column by column, with no NaN and
      no constant column, aggregates to the number of columns. */
  lemma AggregateOfIdentical(names: seq<string>, frame: seq<seq<Num>>,
                             reference: map<string, seq<Num>>, sqrt: real -> real)
    requires IsSqrt(sqrt) && |names| == |frame|
    requires forall j :: 0 <= j < |names| ==> names[j] in reference && reference[names[j]] == frame[j]
    requires forall j :: 0 <= j < |names| ==> NoMissing(frame[j]) && |frame[j]| > 0 && Variance(frame[j]).value > 0.0
    ensures Aggregate(names, frame, reference, sqrt) == Ok(Some(|names| as real))
  {
    var c := CoefficientOf(sqrt);
    forall j | 0 <= j < |names|
      ensures c(frame[j], reference[names[j]]) == Some(1.0)
    {
      SelfCoefficient(frame[j], sqrt);
    }
    AggregateOfOnes(names, frame, reference, c, |names|);
  }

  /** One more column present in the reference adds its coefficient. */
  lemma AggregateStep(names: seq<string>, frame: seq<seq<Num>>, reference: map<string, seq<Num>>,
                      coefficient: Correlator, k: nat, total: Num)
    requires |names| == |frame| && k < |names|
    requires AggregateUpTo(names, frame, reference, coefficient, k) == Ok(total)
    requires names[k] in reference
    ensures AggregateUpTo(names, frame, reference, coefficient, k + 1) ==
            Ok(Add(total, coefficient(frame[k], reference[names[k]])))
  {
  }

  /** One coefficient of a column, in the source's loop form. */
  method ColumnCoefficient(a: seq<Num>, b: seq<Num>, sqrt: real -> real) returns (r: Num)
    ensures r == Coefficient(a, b, sqrt)
  {
    var n := Count(a);
    var meanA := Mean(a);
    var meanB := Mean(b);
    var stdA := Std(a, sqrt);
    var stdB := Std(b, sqrt);
    var numerator: Num := Some(0.0);
    var denominator := Mul(Mul(Some(n as real), stdA), stdB);
    var rows := Rows(a, b);
    for i := 0 to rows
      invariant numerator == NumeratorUpTo(a, b, meanA, meanB, i)
    {
      numerator := Add(numerator, Mul(Sub(At(a, i), meanA), Sub(At(b, i), meanB)));
    }
    r := Div(numerator, denominator);
  }

  /** One pass of the loop over the columns: the column's coefficient
      added to the running total. */
  method AddColumn(names: seq<string>, frame: seq<seq<Num>>, reference: map<string, seq<Num>>,
                   sqrt: real -> real, k: nat, total: Num) returns (next: Num)
    requires |names| == |frame| && k < |names| && names[k] in reference
    requires AggregateUpTo(names, frame, reference, CoefficientOf(sqrt), k) == Ok(total)
    ensures AggregateUpTo(names, frame, reference, CoefficientOf(sqrt), k + 1) == Ok(next)
  {
    var c := ColumnCoefficient(frame[k], reference[names[k]], sqrt);
    AggregateStep(names, frame, reference, CoefficientOf(sqrt), k, total);
    next := Add(total, c);
  }

  /** The loop over the columns of the window frame (lines 129-153): a
      column the reference lacks ends it with that column's name. */
  method TotalCoefficient(names: seq<string>, frame: seq<seq<Num>>, reference: map<string, seq<Num>>,
                          sqrt: real -> real) returns (r: Result<Num, string>)
    requires |names| == |frame|
    ensures r == Aggregate(names, frame, reference, sqrt)
  {
    var total: Num := Some(0.0);
    var k := 0;
    while k < |names|
      invariant k <= |names|
      invariant AggregateUpTo(names, frame, reference, CoefficientOf(sqrt), k) == Ok(total)
    {
      if names[k] !in reference {
        AggregateMissingName(names, frame, reference, CoefficientOf(sqrt), |names|, k);
        return Err(names[k]);
      }
      total := AddColumn(names, frame, reference, sqrt, k, total);
      k := k + 1;
    }
    return Ok(total);
  }
}

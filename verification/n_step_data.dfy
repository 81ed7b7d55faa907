/**
 * The residual script for predictions made outside the simulator (a simple
 * moving average computed in R): the predictions are cleaned, then scored
 * over the first half-year like the n-step models' predictions.  Its
 * first-half helper returns (arrivals, predictions) while every caller
 * unpacks (pred, arrivals), so each residual is computed with the two series
 * in swapped roles: the rounded-up arrivals are compared against the
 * predictions.
 */
module NStepData {
  import opened Wrappers
  import opened Numeric
  import opened Residual
  import opened Windows

  /** The predictions with every NA entry (None) read as 0. */
  function Filled(data: seq<Option<real>>): (r: seq<real>)
    ensures |r| == |data|
    ensures forall i :: 0 <= i < |data| ==> r[i] == data[i].UnwrapOr(0.0)
  {
    seq(|data|, i requires 0 <= i < |data| => data[i].UnwrapOr(0.0))
  }

  /**
   * clean: a 0 is inserted in front and the last entry dropped, which shifts
   * the predictions one period later, and NA entries become 0.
   */
  function Clean(data: seq<Option<real>>): (r: seq<real>)
    ensures |r| == |data|
    ensures |data| > 0 ==> r[0] == 0.0
    ensures forall i :: 1 <= i < |data| ==> r[i] == data[i - 1].UnwrapOr(0.0)
  {
    var shifted := ([Some(0.0)] + data)[..|data|];
    Filled(shifted)
  }

  /** Cleaning loses exactly the last prediction from the total. */
  lemma CleanSum(data: seq<Option<real>>)
    requires |data| > 0
    ensures Sum(Clean(data)) + Filled(data)[|data| - 1] == Sum(Filled(data))
  {
    var f := Filled(data);
    var n := |data| - 1;
    assert Clean(data) == [0.0] + f[..n];
    SumCons(0.0, f[..n]);
    assert f == f[..n] + [f[n]];
    SumAppend(f[..n], [f[n]]);
    assert [f[n]][..0] == [];
  }

  /**
   * get_first_half_year_pred_and_arrivals as its callers read it: the first
   * component they call pred is the arrivals' first half, the second they
   * call arrivals is the predictions' first half.
   */
  function SwappedHalves(arrivals: seq<real>, cleaned: seq<real>): (r: (seq<real>, seq<real>))
    ensures r.0 == FirstHalf(arrivals) && r.1 == FirstHalf(cleaned)
  {
    (FirstHalf(arrivals), FirstHalf(cleaned))
  }

  /** simple_residual with the roles swapped: the rounded-up arrivals against the predictions. */
  function SimpleResidual(arrivals: seq<real>, cleaned: seq<real>): (r: Result<Residual>)
    ensures r.Err? <==> |arrivals| / 2 != |cleaned| / 2
    ensures r.Ok? ==> (r.value.overestimate + r.value.underestimate ==
      Sum(CeilAll(FirstHalf(arrivals))) - Sum(FirstHalf(cleaned)))
  {
    var (pred, actual) := SwappedHalves(arrivals, cleaned);
    ComputeResidual(pred, actual)
  }

  /** The residual with its sign flipped: what was an overestimate is an underestimate. */
  function Negated(r: Residual): (n: Residual)
    ensures n.overestimate == -r.underestimate && n.underestimate == -r.overestimate && n.sse == r.sse
  {
    Residual(-r.underestimate, -r.overestimate, r.sse)
  }

  predicate Whole(s: seq<real>) {
    forall i :: 0 <= i < |s| ==> Ceil(s[i]) as real == s[i]
  }

  lemma CeilAllWhole(s: seq<real>)
    requires Whole(s)
    ensures CeilAll(s) == s
  {
  }

  function Negate(s: seq<real>): (r: seq<real>)
    ensures |r| == |s| && forall i :: 0 <= i < |s| ==> r[i] == -s[i]
  {
    seq(|s|, i requires 0 <= i < |s| => -s[i])
  }

  /** Negating every error swaps and negates the positive and negative sums and keeps the squares. */
  lemma {:induction false} NegateSums(s: seq<real>)
    ensures SumPositive(Negate(s)) == -SumNegative(s)
    ensures SumNegative(Negate(s)) == -SumPositive(s)
    ensures SumSquares(Negate(s)) == SumSquares(s)
    decreases |s|
  {
    if |s| > 0 {
      var p := s[..|s| - 1];
      NegateSums(p);
      assert Negate(s)[..|s| - 1] == Negate(p);
      var x := s[|s| - 1];
      assert Product(-x, -x) == Product(x, x);
    }
  }

  /**
   * For whole-number series the swap only flips the sign: the residual of
   * the swapped roles is the negated residual of the intended roles.
   */
  lemma SwapNegates(pred: seq<real>, actual: seq<real>)
    requires |pred| == |actual| && Whole(pred) && Whole(actual)
    ensures ComputeResidual(actual, pred) == Ok(Negated(ComputeResidual(pred, actual).value))
  {
    CeilAllWhole(pred);
    CeilAllWhole(actual);
    assert Differences(CeilAll(actual), pred) == Negate(Differences(CeilAll(pred), actual));
    NegateSums(Differences(CeilAll(pred), actual));
  }

  /**
   * n_step_residual_non_overlapping with the roles swapped: the loop runs
   * over the predictions, n = len / 52560, and the bucket totals are summed
   * without rounding; the arrival totals are then rounded up by the
   * residual.
   */
  function NonOverlapResidual(arrivals: seq<real>, cleaned: seq<real>): (r: Result<Residual>)
    ensures var (pred, actual) := SwappedHalves(arrivals, cleaned);
      r.Ok? <==> |actual| == 0 || (|actual| >= BucketCount && |actual| % BucketCount == 0 && |pred| >= |actual|)
  {
    var (pred, actual) := SwappedHalves(arrivals, cleaned);
    var n := PeriodsPerBucket(|actual|);
    NonOverlapFits(actual, pred, n, Plain, |actual|);
    FitsWholeBuckets(actual, pred, |actual|);
    match NonOverlap(actual, pred, n, Plain, |actual|)
    case Err(e) => Err(e)
    case Ok(b) => ComputeResidual(b.second, b.first)
  }

  /**
   * A successful swapped non-overlapping residual compares, bucket by
   * bucket, the arrival totals (rounded up by the residual) with the
   * prediction totals.
   */
  lemma NonOverlapResidualBuckets(arrivals: seq<real>, cleaned: seq<real>)
    requires BucketCount <= |FirstHalf(cleaned)| <= |FirstHalf(arrivals)|
    requires NonOverlapResidual(arrivals, cleaned).Ok?
    ensures var actual := FirstHalf(cleaned);
      var pred := FirstHalf(arrivals);
      var n := PeriodsPerBucket(|actual|);
      NonOverlapResidual(arrivals, cleaned) == ComputeResidual(BucketTotals(pred, n, |actual|), BucketTotals(actual, n, |actual|))
  {
    var (pred, actual) := SwappedHalves(arrivals, cleaned);
    var n := PeriodsPerBucket(|actual|);
    var b := NonOverlap(actual, pred, n, Plain, |actual|).value;
    NonOverlapFirst(actual, pred, n, Plain, |actual|);
    NonOverlapSecond(actual, pred, n, Plain, |actual|);
    assert b.first == BucketTotals(actual, n, |actual|);
    assert b.second == BucketTotals(pred, n, |actual|);
  }

  /**
   * n_step_residual_sliding with the roles swapped: the arrivals' window
   * sum divided by n (a zero n raises ZeroDivisionError once the loop runs)
   * against the predictions' window sum.
   */
  function SlidingResidual(arrivals: seq<real>, cleaned: seq<real>): (r: Result<Residual>)
    ensures var actual := FirstHalf(cleaned);
      (r.Err? <==> 0 < |actual| < BucketCount) && (r.Err? ==> r.error == ZeroDivisionError)
    ensures r.Ok? ==> var actual := FirstHalf(cleaned);
      var pred := FirstHalf(arrivals);
      var n := PeriodsPerBucket(|actual|);
      (r.value.sse == 0.0 <==> forall i :: 0 <= i < |actual| ==>
        Ceil(Sum(Window(pred, i, n)) / n as real) as real == Sum(Window(actual, i, n)))
  {
    var (pred, actual) := SwappedHalves(arrivals, cleaned);
    var n := PeriodsPerBucket(|actual|);
    match Sliding(actual, pred, n, MeanOfSum)
    case Err(e) => Err(e)
    case Ok(sums) =>
      assert forall i :: 0 <= i < |actual| ==> sums.1[i] == Sum(Window(pred, i, n)) / n as real;
      ComputeResidual(sums.1, sums.0)
  }

  /** The three residuals of one window size k. */
  datatype Scores = Scores(simple: Residual, nonOverlap: Residual, sliding: Residual)

  /**
   * One pass of train's loop: the raw predictions must be as many as the
   * arrivals, then they are cleaned and scored with the three residuals.
   */
  function Evaluate(arrivals: seq<real>, predictions: seq<Option<real>>): (r: Result<Scores>)
    ensures |predictions| != |arrivals| ==> r == Err(AssertionError)
    ensures |predictions| == |arrivals| ==>
      (r.Ok? <==> NonOverlapResidual(arrivals, Clean(predictions)).Ok? && SlidingResidual(arrivals, Clean(predictions)).Ok?)
    ensures r.Ok? ==> Ok(r.value.simple) == SimpleResidual(arrivals, Clean(predictions))
  {
    if |predictions| != |arrivals| then Err(AssertionError)
    else
      var cleaned := Clean(predictions);
      match SimpleResidual(arrivals, cleaned)
      case Err(e) => Err(e)
      case Ok(simple) =>
        match NonOverlapResidual(arrivals, cleaned)
        case Err(e) => Err(e)
        case Ok(nonOverlap) =>
          match SlidingResidual(arrivals, cleaned)
          case Err(e) => Err(e)
          case Ok(sliding) => Ok(Scores(simple, nonOverlap, sliding))
  }
}

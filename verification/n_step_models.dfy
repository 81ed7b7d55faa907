/**
 * Training of an n-step predictor against a series of arrival counts: the
 * predictor is fed the arrivals one by one, its predictions are aligned with
 * the arrivals, and over the first half-year three residuals are computed
 * (period by period, per boot period in non-overlapping buckets, and per
 * sliding boot-period window).  Each parameter value yields one candidate and
 * the candidate with the least sum of squared errors wins, separately for
 * each residual.
 */
module NStepModels {
  import opened Wrappers
  import opened Numeric
  import opened Residual
  import opened Windows

  /**
   * The predictions of _get_predictions: one call with no observation, then
   * one per arrival, each returning the prediction and the predictor's next
   * state.  A failing call ends the run with its error.
   */
  function Feed<P>(step: (P, Option<real>) -> Result<(real, P)>, p: P, arrivals: seq<real>): (r: Result<(seq<real>, P)>)
    ensures r.Ok? ==> |r.value.0| == |arrivals| + 1
    decreases |arrivals|
  {
    if |arrivals| == 0 then
      match step(p, None)
      case Err(e) => Err(e)
      case Ok(out) => Ok(([out.0], out.1))
    else
      match Feed(step, p, arrivals[..|arrivals| - 1])
      case Err(e) => Err(e)
      case Ok(fed) =>
        match step(fed.1, Some(arrivals[|arrivals| - 1]))
        case Err(e) => Err(e)
        case Ok(out) => Ok((fed.0 + [out.0], out.1))
  }

  /**
   * The predictions are causal: feeding only the first m arrivals succeeds
   * whenever feeding all of them does, and yields the first m + 1
   * predictions.
   */
  lemma {:induction false} FeedPrefix<P>(step: (P, Option<real>) -> Result<(real, P)>, p: P, arrivals: seq<real>, m: nat)
    requires m <= |arrivals|
    ensures Feed(step, p, arrivals).Ok? ==>
      Feed(step, p, arrivals[..m]).Ok? && Feed(step, p, arrivals[..m]).value.0 == Feed(step, p, arrivals).value.0[..m + 1]
    decreases |arrivals|
  {
    if m == |arrivals| {
      assert arrivals[..m] == arrivals;
    } else {
      var shorter := arrivals[..|arrivals| - 1];
      FeedPrefix(step, p, shorter, m);
      assert shorter[..m] == arrivals[..m];
      if Feed(step, p, arrivals).Ok? {
        var all := Feed(step, p, arrivals).value.0;
        var fed := Feed(step, p, shorter).value.0;
        assert all[..|arrivals|] == fed;
        assert all[..m + 1] == fed[..m + 1];
      }
    }
  }

  /** A predictor whose calls never fail yields a prediction for every arrival. */
  lemma {:induction false} FeedTotal<P>(step: (P, Option<real>) -> Result<(real, P)>, p: P, arrivals: seq<real>)
    requires forall q: P, o: Option<real> :: step(q, o).Ok?
    ensures Feed(step, p, arrivals).Ok?
    decreases |arrivals|
  {
    if |arrivals| == 0 {
      assert step(p, None).Ok?;
    } else {
      var shorter := arrivals[..|arrivals| - 1];
      FeedTotal(step, p, shorter);
      match Feed(step, p, shorter)
      case Ok(fed) =>
        var (preds, q) := fed;
        assert step(q, Some(arrivals[|arrivals| - 1])).Ok?;
    }
  }

  /**
   * The aligned predictions of _train_one: the last prediction is deleted, so
   * prediction i is the one made before arrival i was observed, from the
   * arrivals before it only.
   */
  function AlignedPredictions<P>(step: (P, Option<real>) -> Result<(real, P)>, p: P, arrivals: seq<real>): (r: Result<seq<real>>)
    ensures r.Ok? <==> Feed(step, p, arrivals).Ok?
    ensures r.Err? ==> r.error == Feed(step, p, arrivals).error
    ensures r.Ok? ==> |r.value| == |arrivals|
  {
    match Feed(step, p, arrivals)
    case Err(e) => Err(e)
    case Ok(fed) => Ok(fed.0[..|fed.0| - 1])
  }

  /** Prediction i is the last prediction of the run fed with the first i arrivals. */
  lemma AlignedIsCausal<P>(step: (P, Option<real>) -> Result<(real, P)>, p: P, arrivals: seq<real>, i: nat)
    requires AlignedPredictions(step, p, arrivals).Ok? && i < |arrivals|
    ensures Feed(step, p, arrivals[..i]).Ok?
    ensures AlignedPredictions(step, p, arrivals).value[i] == Feed(step, p, arrivals[..i]).value.0[i]
  {
    FeedPrefix(step, p, arrivals, i);
  }

  /**
   * simple_residual: the first halves, each prediction rounded up, then
   * compared period by period with the arrivals.  The rounding is the one
   * _compute_residual does anyway, so it changes nothing.
   */
  function SimpleResidual(arrivals: seq<real>, predictions: seq<real>): (r: Result<Residual>)
    ensures r == ComputeResidual(FirstHalf(predictions), FirstHalf(arrivals))
  {
    var half := FirstHalf(predictions);
    CeilAllSettles(half);
    ComputeResidual(CeilAll(half), FirstHalf(arrivals))
  }

  /**
   * n_step_residual_non_overlapping: n = len / 52560 periods per bucket,
   * arrivals summed as they are and predictions rounded up as they are
   * added, then the residual of the bucket totals.
   */
  function NonOverlapResidual(arrivals: seq<real>, predictions: seq<real>): (r: Result<Residual>)
    ensures r.Err? <==> !Fits(FirstHalf(arrivals), FirstHalf(predictions), PeriodsPerBucket(|FirstHalf(arrivals)|), |FirstHalf(arrivals)|)
  {
    var a := FirstHalf(arrivals);
    var p := FirstHalf(predictions);
    var n := PeriodsPerBucket(|a|);
    NonOverlapFits(a, p, n, RoundUp, |a|);
    match NonOverlap(a, p, n, RoundUp, |a|)
    case Err(e) => Err(e)
    case Ok(b) => ComputeResidual(b.second, b.first)
  }

  /**
   * The non-overlapping residual succeeds exactly when the half-year has no
   * entries, or a whole number of buckets' worth of them (52560 buckets of
   * at least one period) and at least as many predictions: any remainder
   * spills into a 52561st bucket and raises IndexError.
   */
  lemma NonOverlapResidualOk(arrivals: seq<real>, predictions: seq<real>)
    ensures var len := |FirstHalf(arrivals)|;
      NonOverlapResidual(arrivals, predictions).Ok? <==>
        len == 0 || (len >= BucketCount && len % BucketCount == 0 && |FirstHalf(predictions)| >= len)
  {
    FitsWholeBuckets(FirstHalf(arrivals), FirstHalf(predictions), |FirstHalf(arrivals)|);
  }

  /**
   * A successful non-overlapping residual compares the rounded-up
   * prediction totals of the buckets with the arrival totals of the buckets.
   */
  lemma NonOverlapResidualBuckets(arrivals: seq<real>, predictions: seq<real>)
    requires BucketCount <= |FirstHalf(arrivals)| <= |FirstHalf(predictions)|
    requires NonOverlapResidual(arrivals, predictions).Ok?
    ensures var a := FirstHalf(arrivals);
      var p := FirstHalf(predictions);
      var n := PeriodsPerBucket(|a|);
      NonOverlapResidual(arrivals, predictions) == ComputeResidual(BucketCeilTotals(p, n, |a|), BucketTotals(a, n, |a|))
  {
    var a := FirstHalf(arrivals);
    var p := FirstHalf(predictions);
    var n := PeriodsPerBucket(|a|);
    var b := NonOverlap(a, p, n, RoundUp, |a|).value;
    NonOverlapFirst(a, p, n, RoundUp, |a|);
    NonOverlapSecond(a, p, n, RoundUp, |a|);
    assert b.first == BucketTotals(a, n, |a|);
    assert b.second == BucketCeilTotals(p, n, |a|);
  }

  /**
   * n_step_residual_sliding: for every position of the first half-year, the
   * arrivals of the boot-period window starting there against the rounded-up
   * predicted total of the same window.
   */
  function SlidingResidual(arrivals: seq<real>, predictions: seq<real>): (r: Result<Residual>)
    ensures r.Ok?
    ensures var a := FirstHalf(arrivals);
      var p := FirstHalf(predictions);
      var n := PeriodsPerBucket(|a|);
      (r.value.sse == 0.0 <==> forall i :: 0 <= i < |a| ==> Ceil(Sum(Window(p, i, n))) as real == Sum(Window(a, i, n)))
  {
    var a := FirstHalf(arrivals);
    var p := FirstHalf(predictions);
    var n := PeriodsPerBucket(|a|);
    var sums := Sliding(a, p, n, CeilOfSum).value;
    SlidingRounded(a, p, n);
    ComputeResidual(sums.1, sums.0)
  }

  /** The rounded window sums are whole numbers, so rounding them again changes nothing. */
  lemma SlidingRounded(a: seq<real>, p: seq<real>, n: nat)
    ensures var sums := Sliding(a, p, n, CeilOfSum).value;
      forall i :: 0 <= i < |a| ==> sums.1[i] == Ceil(Sum(Window(p, i, n))) as real && Ceil(sums.1[i]) as real == sums.1[i]
  {
    var sums := Sliding(a, p, n, CeilOfSum).value;
    forall i | 0 <= i < |a|
      ensures sums.1[i] == Ceil(Sum(Window(p, i, n))) as real && Ceil(sums.1[i]) as real == sums.1[i]
    {
      CeilWhole(Ceil(Sum(Window(p, i, n))));
    }
  }

  /**
   * Where the sliding windows start at a bucket boundary they cover exactly
   * the buckets' arrivals: the non-overlapping arrival totals are every n-th
   * sliding-window total.
   */
  lemma BucketsAreSampledWindows(arrivals: seq<real>, j: nat)
    requires |FirstHalf(arrivals)| >= BucketCount && j < BucketCount
    ensures var a := FirstHalf(arrivals);
      var n := PeriodsPerBucket(|a|);
      j * n < |a| && BucketTotals(a, n, |a|)[j] == Sliding(a, a, n, CeilOfSum).value.0[j * n]
  {
    var a := FirstHalf(arrivals);
    var n := PeriodsPerBucket(|a|);
    MulOrder(j, BucketCount, n);
    assert (j + 1) * n == j * n + n;
    WindowIsBucket(a, n, j, |a|);
  }

  /** The three residual kinds. */
  datatype Kind = Simple | NonOverlapping | SlidingWindow

  /** The result of _train_one for one parameter value. */
  datatype Candidate<Params> = Candidate(params: Params, simple: Residual, nonOverlap: Residual, sliding: Residual)
  {
    function Sse(kind: Kind): real {
      match kind
      case Simple => simple.sse
      case NonOverlapping => nonOverlap.sse
      case SlidingWindow => sliding.sse
    }

    function Of(kind: Kind): Residual {
      match kind
      case Simple => simple
      case NonOverlapping => nonOverlap
      case SlidingWindow => sliding
    }
  }

  /**
   * The position of the reduce in _find_min: it keeps the candidate so far
   * while its sse is strictly less than the next one's, and otherwise moves
   * to the next, so it ends on the last candidate of least sse.  reduce of
   * an empty list raises TypeError.
   */
  function Winner<Params>(cs: seq<Candidate<Params>>, kind: Kind): (r: Result<nat>)
    ensures r.Err? <==> |cs| == 0
    ensures r.Err? ==> r.error == TypeError
    ensures r.Ok? ==> r.value < |cs|
    ensures r.Ok? ==> forall j :: 0 <= j < |cs| ==> cs[r.value].Sse(kind) <= cs[j].Sse(kind)
    ensures r.Ok? ==> forall j :: r.value < j < |cs| ==> cs[r.value].Sse(kind) < cs[j].Sse(kind)
    decreases |cs|
  {
    if |cs| == 0 then Err(TypeError)
    else if |cs| == 1 then Ok(0)
    else
      var best := Winner(cs[..|cs| - 1], kind).value;
      if cs[best].Sse(kind) < cs[|cs| - 1].Sse(kind) then Ok(best) else Ok(|cs| - 1)
  }

  /** The two properties of Winner single out one position: the last one of least sse. */
  lemma LastMinimumUnique<Params>(cs: seq<Candidate<Params>>, kind: Kind, i: nat)
    requires i < |cs|
    requires forall j :: 0 <= j < |cs| ==> cs[i].Sse(kind) <= cs[j].Sse(kind)
    requires forall j :: i < j < |cs| ==> cs[i].Sse(kind) < cs[j].Sse(kind)
    ensures Winner(cs, kind) == Ok(i)
  {
  }

  /** The parameters and the residual that won for one kind. */
  datatype Choice<Params> = Choice(params: Params, residual: Residual)

  datatype Best<Params> = Best(simple: Choice<Params>, nonOverlap: Choice<Params>, sliding: Choice<Params>)
  {
    function ChoiceFor(kind: Kind): Choice<Params> {
      match kind
      case Simple => simple
      case NonOverlapping => nonOverlap
      case SlidingWindow => sliding
    }
  }

  /** The choice the reduce makes for one kind, from a non-empty list. */
  function Chosen<Params>(cs: seq<Candidate<Params>>, kind: Kind): (r: Choice<Params>)
    requires |cs| > 0
    ensures Winner(cs, kind).Ok? && r == Choice(cs[Winner(cs, kind).value].params, cs[Winner(cs, kind).value].Of(kind))
  {
    var w := Winner(cs, kind).value;
    Choice(cs[w].params, cs[w].Of(kind))
  }

  /** _find_min: the winner for each residual kind, with its residual of that kind only. */
  function FindMin<Params>(cs: seq<Candidate<Params>>): (r: Result<Best<Params>>)
    ensures r.Err? <==> |cs| == 0
    ensures r.Err? ==> r.error == TypeError
    ensures r.Ok? ==> forall kind: Kind :: r.value.ChoiceFor(kind) == Chosen(cs, kind)
  {
    if |cs| == 0 then Err(TypeError)
    else Ok(Best(Chosen(cs, Simple), Chosen(cs, NonOverlapping), Chosen(cs, SlidingWindow)))
  }

  /** No candidate has a smaller sse than the chosen one, for any kind. */
  lemma FindMinIsMinimal<Params>(cs: seq<Candidate<Params>>, kind: Kind, j: nat)
    requires FindMin(cs).Ok? && j < |cs|
    ensures FindMin(cs).value.ChoiceFor(kind).residual.sse <= cs[j].Sse(kind)
  {
  }

  /**
   * _train_one for one parameter value: the predictor is started in the
   * state the value gives, fed the arrivals, and its aligned predictions
   * scored with the three residuals.
   */
  function TrainOne<P, Params>(step: (P, Option<real>) -> Result<(real, P)>, start: Params -> P, params: Params, arrivals: seq<real>): (r: Result<Candidate<Params>>)
    ensures r.Ok? ==> r.value.params == params
  {
    match AlignedPredictions(step, start(params), arrivals)
    case Err(e) => Err(e)
    case Ok(predictions) =>
      match SimpleResidual(arrivals, predictions)
      case Err(e) => Err(e)
      case Ok(simple) =>
        match NonOverlapResidual(arrivals, predictions)
        case Err(e) => Err(e)
        case Ok(nonOverlap) => Ok(Candidate(params, simple, nonOverlap, SlidingResidual(arrivals, predictions).value))
  }

  /**
   * Training one value fails only when the predictor fails or the
   * non-overlapping buckets do not fit, and otherwise scores the aligned
   * predictions with each residual.
   */
  lemma TrainOneScores<P, Params>(step: (P, Option<real>) -> Result<(real, P)>, start: Params -> P, params: Params, arrivals: seq<real>)
    ensures var aligned := AlignedPredictions(step, start(params), arrivals);
      TrainOne(step, start, params, arrivals).Ok? <==> aligned.Ok? && NonOverlapResidual(arrivals, aligned.value).Ok?
    ensures var r := TrainOne(step, start, params, arrivals);
      r.Ok? ==> var predictions := AlignedPredictions(step, start(params), arrivals).value;
        Ok(r.value.simple) == SimpleResidual(arrivals, predictions) &&
        Ok(r.value.nonOverlap) == NonOverlapResidual(arrivals, predictions) &&
        Ok(r.value.sliding) == SlidingResidual(arrivals, predictions)
  {
    var aligned := AlignedPredictions(step, start(params), arrivals);
    if aligned.Ok? {
      assert |FirstHalf(aligned.value)| == |FirstHalf(arrivals)|;
    }
  }

  /** train's loop: every parameter value in order, the first failure ending the run. */
  function TrainAll<Params>(trainOne: Params -> Result<Candidate<Params>>, params: seq<Params>): (r: Result<seq<Candidate<Params>>>)
    ensures r.Ok? ==> |r.value| == |params|
    ensures r.Ok? ==> forall i :: 0 <= i < |params| ==> trainOne(params[i]) == Ok(r.value[i])
    decreases |params|
  {
    if |params| == 0 then Ok([])
    else
      match TrainAll(trainOne, params[..|params| - 1])
      case Err(e) => Err(e)
      case Ok(cs) =>
        match trainOne(params[|params| - 1])
        case Err(e) => Err(e)
        case Ok(c) => Ok(cs + [c])
  }

  /** The run fails exactly when some parameter value fails. */
  lemma {:induction false} TrainAllOk<Params>(trainOne: Params -> Result<Candidate<Params>>, params: seq<Params>)
    ensures TrainAll(trainOne, params).Ok? <==> forall i :: 0 <= i < |params| ==> trainOne(params[i]).Ok?
    decreases |params|
  {
    if |params| > 0 {
      var shorter := params[..|params| - 1];
      TrainAllOk(trainOne, shorter);
      assert forall i :: 0 <= i < |shorter| ==> shorter[i] == params[i];
    }
  }

  /** train: _train_one for every parameter value, then _find_min over the candidates. */
  function Train<P, Params>(step: (P, Option<real>) -> Result<(real, P)>, start: Params -> P, params: seq<Params>, arrivals: seq<real>): (r: Result<Best<Params>>)
    ensures var all := TrainAll(p => TrainOne(step, start, p, arrivals), params);
      (all.Ok? ==> r == FindMin(all.value)) && (all.Err? ==> r == Err(all.error))
    ensures (forall i :: 0 <= i < |params| ==> TrainOne(step, start, params[i], arrivals).Ok?) ==>
      (r.Ok? <==> |params| > 0)
  {
    var trainOne := p => TrainOne(step, start, p, arrivals);
    TrainAllOk(trainOne, params);
    match TrainAll(trainOne, params)
    case Err(e) => Err(e)
    case Ok(cs) => FindMin(cs)
  }
}

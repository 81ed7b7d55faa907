/**
 * The n-step moving-average predictor: it keeps the last k observed arrival
 * counts and forecasts n steps ahead by repeatedly appending the mean of the
 * k most recent values, returning the sum of the n forecasts.
 */
module NStepPredictor {
  import opened Wrappers
  import opened Numeric

  /** The window size k and the stored history. */
  datatype MovingAverage = MovingAverage(k: int, data: seq<real>)

  function NewMovingAverage(k: int): (p: MovingAverage)
    ensures p.k == k && p.data == []
  {
    MovingAverage(k, [])
  }

  /** The last k values of s, as Python's s[-k:] selects them (all of s when k is 0). */
  function LastK(s: seq<real>, k: int): (r: seq<real>)
    ensures 0 <= k <= |s| ==> |r| == (if k == 0 then |s| else k)
    ensures 0 < k <= |s| ==> r == s[|s| - k..]
  {
    s[PySliceStart(|s|, -k)..]
  }

  function Mean(w: seq<real>): real
    requires |w| > 0
  {
    Sum(w) / (|w| as real)
  }

  /**
   * The state update of predict_n_steps: append the observation if there is
   * one, then drop the oldest value once the history is longer than k.  The
   * first component is the history as it stood after the append, which the
   * forecast works on.  Popping from an empty list raises IndexError, and a
   * history that is still not of length k fails the assert.
   */
  function Record(p: MovingAverage, last: Option<real>): (r: Result<(seq<real>, MovingAverage)>)
    ensures p.k >= 0 && |p.data| <= p.k ==> r.Ok?
    ensures r.Ok? ==> r.value.0 == History(p, last)
    ensures r.Ok? ==> r.value.1.k == p.k
    ensures r.Ok? && p.k >= 0 ==> |r.value.1.data| <= p.k
    ensures r.Ok? && last.None? && |p.data| <= p.k ==> r.value.1 == p
    ensures r.Ok? && p.k > 0 ==> r.value.1.data == LastK(r.value.0, p.k)
  {
    var appended := History(p, last);
    if |appended| > p.k then
      if |appended| == 0 then Err(IndexError)
      else if |appended| - 1 != p.k then Err(AssertionError)
      else Ok((appended, p.(data := appended[1..])))
    else Ok((appended, p.(data := appended)))
  }

  /**
   * The reference forecast: n values, each the mean of the k values before
   * it in the history extended by the earlier forecasts.
   */
  function Forecasts(h: seq<real>, k: int, n: nat): (r: seq<real>)
    requires 1 <= k <= |h|
    ensures |r| == n
  {
    if n == 0 then []
    else
      var prev := Forecasts(h, k, n - 1);
      prev + [Mean((h + prev)[|h + prev| - k..])]
  }

  /** sum(s[-n:]): the last n values, or all of s when n is 0. */
  function TailSum(s: seq<real>, n: int): (r: real)
    ensures n == 0 ==> r == Sum(s)
    ensures 1 <= n <= |s| ==> r == Sum(s[|s| - n..])
  {
    assert n == 0 ==> s[PySliceStart(|s|, -n)..] == s;
    Sum(s[PySliceStart(|s|, -n)..])
  }

  /** The history the forecast works on: the stored values and the new observation, if any. */
  function History(p: MovingAverage, last: Option<real>): seq<real> {
    if last.Some? then p.data + [last.value] else p.data
  }

  /**
   * The forecast loop over the extended history h: for a window of at least
   * one value it yields 0 while fewer than k values exist, and otherwise
   * the sum of the n reference forecasts; one step ahead that is the mean
   * of the k most recent values.  A window of 0 takes the whole history,
   * whose mean divides by zero when it is empty.  With n = 0 the final slice
   * [-0:] keeps the whole history, so the result is its sum.
   */
  method ForecastTotal(h: seq<real>, k: int, n: int) returns (r: Result<real>)
    ensures k >= 1 ==> r.Ok?
    ensures k >= 1 && n >= 1 && |h| < k ==> r == Ok(0.0)
    ensures 1 <= k <= |h| && n >= 1 ==> r == Ok(Sum(Forecasts(h, k, n)))
    ensures 1 <= k <= |h| && n == 1 ==> r == Ok(Mean(LastK(h, k)))
    ensures n == 0 ==> r == Ok(Sum(h))
  {
    var early, copied := ForecastLoop(h, k, n);
    if early.Some? {
      return early.value;
    }
    TotalOfExtended(h, k, n, copied);
    r := Ok(TailSum(copied, n));
  }

  /** What the final sum over the extended history comes to. */
  lemma TotalOfExtended(h: seq<real>, k: int, n: int, copied: seq<real>)
    requires 1 <= k <= |h| ==> copied == h + Forecasts(h, k, if n < 0 then 0 else n)
    requires n <= 0 ==> copied == h
    ensures 1 <= k <= |h| && n >= 1 ==> TailSum(copied, n) == Sum(Forecasts(h, k, n))
    ensures 1 <= k <= |h| && n == 1 ==> TailSum(copied, n) == Mean(LastK(h, k))
    ensures n == 0 ==> TailSum(copied, n) == Sum(h)
  {
    if 1 <= k <= |h| && n >= 1 {
      TailIsForecasts(h, k, n);
      if n == 1 {
        OneForecast(h, k);
      }
    }
  }

  /**
   * The loop of predict_n_steps over a copy of the history: each pass
   * appends the mean of the last k values.  It stops early with 0 when the
   * window holds fewer than k values, and with ZeroDivisionError when the
   * window is empty; otherwise it hands back the extended history.
   */
  method ForecastLoop(h: seq<real>, k: int, n: int) returns (early: Option<Result<real>>, copied: seq<real>)
    ensures early.Some? ==> early.value == Ok(0.0) || early.value == Err(ZeroDivisionError)
    ensures k >= 1 ==> early.None? || early.value == Ok(0.0)
    ensures k >= 1 && n >= 1 && |h| < k ==> early == Some(Ok(0.0))
    ensures 1 <= k <= |h| ==> early.None? && copied == h + Forecasts(h, k, if n < 0 then 0 else n)
    ensures n <= 0 ==> early.None? && copied == h
  {
    copied := h;
    var i := 0;
    while i < n
      invariant 0 <= i && (n >= 0 ==> i <= n)
      invariant 1 <= k <= |h| ==> copied == h + Forecasts(h, k, i)
      invariant k >= 1 && |h| < k ==> i == 0 && copied == h
      invariant n <= 0 ==> i == 0
      invariant i == 0 ==> copied == h
    {
      var window := LastK(copied, k);
      if |window| < k {
        return Some(Ok(0.0)), copied;
      }
      if |window| == 0 {
        return Some(Err(ZeroDivisionError)), copied;
      }
      if 1 <= k <= |h| {
        ForecastStep(h, k, i);
      }
      copied := copied + [Mean(window)];
      i := i + 1;
    }
    assert i == (if n < 0 then 0 else n);
    early := None;
  }

  /**
   * predict_n_steps: the forecast total and the predictor's next state.
   * Only the state update changes the stored history; the forecast works
   * on a copy.
   */
  method PredictNSteps(p: MovingAverage, last: Option<real>, n: int) returns (r: Result<(real, MovingAverage)>)
    ensures Record(p, last).Err? ==> r.Err?
    ensures r.Ok? ==> Record(p, last).Ok? && r.value.1 == Record(p, last).value.1
    ensures p.k >= 1 && |p.data| <= p.k ==> r.Ok?
    ensures p.k >= 1 && |p.data| <= p.k && n >= 1 && |History(p, last)| < p.k ==> r.value.0 == 0.0
    ensures p.k >= 1 && |p.data| <= p.k && n >= 1 && |History(p, last)| >= p.k ==>
      r.value.0 == Sum(Forecasts(History(p, last), p.k, n))
  {
    var rec := Record(p, last);
    if rec.Err? {
      return rec.PropagateFailure();
    }
    var total := ForecastTotal(rec.value.0, p.k, n);
    if total.Err? {
      return total.PropagateFailure();
    }
    r := Ok((total.value, rec.value.1));
  }

  /** One more pass of the loop extends the history by the next reference forecast. */
  lemma ForecastStep(h: seq<real>, k: int, i: nat)
    requires 1 <= k <= |h|
    ensures h + Forecasts(h, k, i + 1) == (h + Forecasts(h, k, i)) + [Mean(LastK(h + Forecasts(h, k, i), k))]
  {
    var prev := Forecasts(h, k, i);
    assert LastK(h + prev, k) == (h + prev)[|h + prev| - k..];
    assert h + (prev + [Mean(LastK(h + prev, k))]) == (h + prev) + [Mean(LastK(h + prev, k))];
  }

  /** The last n values of the extended history are the n forecasts. */
  lemma TailIsForecasts(h: seq<real>, k: int, n: int)
    requires 1 <= k <= |h| && n >= 1
    ensures TailSum(h + Forecasts(h, k, n), n) == Sum(Forecasts(h, k, n))
  {
    var s := h + Forecasts(h, k, n);
    assert s[|s| - n..] == Forecasts(h, k, n);
  }

  lemma OneForecast(h: seq<real>, k: int)
    requires 1 <= k <= |h|
    ensures Sum(Forecasts(h, k, 1)) == Mean(LastK(h, k))
  {
    assert h + [] == h;
    SumCons(Mean(LastK(h, k)), []);
    assert [Mean(LastK(h, k))] + [] == [Mean(LastK(h, k))];
  }
}

/**
 * The AR(2) forecast stream: the first two values of a series are passed
 * through, and every later value x_t is replaced by phi1 * x_t + phi2 * x_(t-1),
 * both taken from the input series.  The mixed-calendar forecast concatenates
 * the streams of several series, each with its own coefficients.
 */
module Autoregressive {

  /** nextAutoregressivePoint */
  function NextPoint(phi1: real, phi2: real, x1: real, x2: real): real {
    phi1 * x1 + phi2 * x2
  }

  /**
   * The generator after its first two values, holding the previous input as
   * its state: each further input line yields one forecast.
   */
  function StreamRest(phi1: real, phi2: real, last: real, lines: seq<real>): (r: seq<real>)
    ensures |r| == |lines|
    ensures |lines| > 0 ==> r[0] == NextPoint(phi1, phi2, lines[0], last)
    ensures forall i :: 1 <= i < |lines| ==> r[i] == NextPoint(phi1, phi2, lines[i], lines[i - 1])
    decreases |lines|
  {
    if |lines| == 0 then []
    else [NextPoint(phi1, phi2, lines[0], last)] + StreamRest(phi1, phi2, lines[0], lines[1..])
  }

  /**
   * ARForecastStream over the lines of a file.  Reading past the end of the
   * file inside the generator ends it, so a file of fewer than two lines
   * yields just those lines.
   */
  function Stream(phi1: real, phi2: real, lines: seq<real>): (r: seq<real>)
    ensures |r| == |lines|
    ensures forall i :: 0 <= i < |lines| && i < 2 ==> r[i] == lines[i]
    ensures forall i :: 2 <= i < |lines| ==> r[i] == NextPoint(phi1, phi2, lines[i], lines[i - 1])
  {
    if |lines| < 2 then lines
    else lines[..2] + StreamRest(phi1, phi2, lines[1], lines[2..])
  }

  /** The academic calendar of the mixed forecast: summer, classes and exams, repeated. */
  const Calendar: seq<(real, real)> := [
    (0.2604, 0.1966), (0.3993, 0.3226), (0.2530, 0.2044),
    (0.2604, 0.1966), (0.3993, 0.3226), (0.2530, 0.2044),
    (0.2604, 0.1966)]

  /** The streams of the series, each with its coefficients, one after the other. */
  function Mixed(series: seq<seq<real>>, coefficients: seq<(real, real)>): (r: seq<real>)
    requires |coefficients| == |series|
    decreases |series|
  {
    if |series| == 0 then []
    else Stream(coefficients[0].0, coefficients[0].1, series[0]) + Mixed(series[1..], coefficients[1..])
  }

  function TotalLength(series: seq<seq<real>>): nat
    decreases |series|
  {
    if |series| == 0 then 0 else |series[0]| + TotalLength(series[1..])
  }

  lemma {:induction false} MixedAppend(a: seq<seq<real>>, ca: seq<(real, real)>, b: seq<seq<real>>, cb: seq<(real, real)>)
    requires |ca| == |a| && |cb| == |b|
    ensures Mixed(a + b, ca + cb) == Mixed(a, ca) + Mixed(b, cb)
    decreases |a|
  {
    if |a| == 0 {
      assert a + b == b && ca + cb == cb;
    } else {
      assert (a + b)[1..] == a[1..] + b && (ca + cb)[1..] == ca[1..] + cb;
      MixedAppend(a[1..], ca[1..], b, cb);
    }
  }

  /**
   * Each series' stream restarts inside the mixed stream: the values for
   * series k are exactly that series' own stream, so its first two values
   * are its own inputs, not forecasts carried over from the series before.
   */
  lemma MixedRestarts(series: seq<seq<real>>, coefficients: seq<(real, real)>, k: nat)
    requires |coefficients| == |series|
    requires k < |series|
    ensures Mixed(series, coefficients) ==
      Mixed(series[..k], coefficients[..k]) +
      Stream(coefficients[k].0, coefficients[k].1, series[k]) +
      Mixed(series[k + 1..], coefficients[k + 1..])
  {
    var tail, ctail := series[k..], coefficients[k..];
    assert series == series[..k] + tail;
    assert coefficients == coefficients[..k] + ctail;
    MixedAppend(series[..k], coefficients[..k], tail, ctail);
    assert tail[0] == series[k] && tail[1..] == series[k + 1..];
    assert ctail[0] == coefficients[k] && ctail[1..] == coefficients[k + 1..];
    AppendAssoc(Mixed(series[..k], coefficients[..k]), Stream(coefficients[k].0, coefficients[k].1, series[k]),
                Mixed(series[k + 1..], coefficients[k + 1..]));
  }

  lemma AppendAssoc(a: seq<real>, b: seq<real>, c: seq<real>)
    ensures a + (b + c) == (a + b) + c
  {
  }

  lemma {:induction false} MixedLength(series: seq<seq<real>>, coefficients: seq<(real, real)>)
    requires |coefficients| == |series|
    ensures |Mixed(series, coefficients)| == TotalLength(series)
    decreases |series|
  {
    if |series| > 0 {
      MixedLength(series[1..], coefficients[1..]);
    }
  }

  /** AR_mixed: the seven calendar periods' streams. */
  function MixedForecast(series: seq<seq<real>>): (r: seq<real>)
    requires |series| == |Calendar|
    ensures |r| == TotalLength(series)
  {
    MixedLength(series, Calendar);
    Mixed(series, Calendar)
  }
}

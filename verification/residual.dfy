/**
 * The residual of a series of arrival-count predictions against the counts
 * that arrived: each prediction is rounded up, the error is the rounded
 * prediction minus the count, and the residual reports the sum of the
 * positive errors (overestimate), the sum of the negative ones
 * (underestimate) and the sum of squared errors.
 */
module Residual {
  import opened Wrappers
  import opened Numeric

  datatype Residual = Residual(overestimate: real, underestimate: real, sse: real)

  /** math.ceil on every item; Python 2's ceil returns the integral value as a float. */
  function CeilAll(s: seq<real>): (r: seq<real>)
    ensures |r| == |s|
    ensures forall i :: 0 <= i < |s| ==> s[i] <= r[i] < s[i] + 1.0 && r[i] == Ceil(s[i]) as real
  {
    seq(|s|, i requires 0 <= i < |s| => Ceil(s[i]) as real)
  }

  /** Rounding up values that are already whole changes nothing. */
  lemma CeilAllSettles(s: seq<real>)
    ensures CeilAll(CeilAll(s)) == CeilAll(s)
  {
    var c := CeilAll(s);
    forall i | 0 <= i < |c|
      ensures CeilAll(c)[i] == c[i]
    {
      CeilWhole(Ceil(s[i]));
    }
  }

  lemma CeilWhole(k: int)
    ensures Ceil(k as real) == k
  {
  }

  /** map(operator.sub, a, b) on equal lengths. */
  function Differences(a: seq<real>, b: seq<real>): (r: seq<real>)
    requires |a| == |b|
    ensures |r| == |a|
    ensures forall i :: 0 <= i < |a| ==> r[i] == a[i] - b[i]
  {
    seq(|a|, i requires 0 <= i < |a| => a[i] - b[i])
  }

  /** sum(filter(lambda x: x > 0, s)) */
  function SumPositive(s: seq<real>): real
  {
    if |s| == 0 then 0.0 else SumPositive(s[..|s| - 1]) + (if s[|s| - 1] > 0.0 then s[|s| - 1] else 0.0)
  }

  /** sum(filter(lambda x: x < 0, s)) */
  function SumNegative(s: seq<real>): real
  {
    if |s| == 0 then 0.0 else SumNegative(s[..|s| - 1]) + (if s[|s| - 1] < 0.0 then s[|s| - 1] else 0.0)
  }

  /** sum(map(lambda x: pow(x, 2), s)) */
  function SumSquares(s: seq<real>): real
  {
    if |s| == 0 then 0.0 else SumSquares(s[..|s| - 1]) + Product(s[|s| - 1], s[|s| - 1])
  }

  function Product(a: real, b: real): real {
    a * b
  }

  lemma PositiveFactors(a: real, b: real)
    requires a > 0.0 && b > 0.0
    ensures Product(a, b) > 0.0
  {
  }

  lemma NegativeFactors(a: real, b: real)
    requires a < 0.0 && b < 0.0
    ensures Product(a, b) > 0.0
  {
    PositiveFactors(-a, -b);
    assert Product(-a, -b) == Product(a, b);
  }

  /** A square is never negative, and positive unless its root is zero. */
  lemma SquareSign(x: real)
    ensures Product(x, x) >= 0.0
    ensures x != 0.0 ==> Product(x, x) > 0.0
  {
    if x > 0.0 {
      PositiveFactors(x, x);
    } else if x < 0.0 {
      NegativeFactors(x, x);
    }
  }

  /**
   * The positive and the negative part split the total: the overestimate is
   * never negative, the underestimate never positive, and together they add
   * up to the sum of the errors.
   */
  lemma {:induction false} SplitSums(s: seq<real>)
    ensures SumPositive(s) >= 0.0 >= SumNegative(s)
    ensures SumPositive(s) + SumNegative(s) == Sum(s)
    decreases |s|
  {
    if |s| > 0 {
      SplitSums(s[..|s| - 1]);
    }
  }

  /** The sum of squares is zero exactly when every error is. */
  lemma {:induction false} SquaresZero(s: seq<real>)
    ensures SumSquares(s) >= 0.0
    ensures SumSquares(s) == 0.0 <==> forall i :: 0 <= i < |s| ==> s[i] == 0.0
    decreases |s|
  {
    if |s| > 0 {
      var p := s[..|s| - 1];
      var x := s[|s| - 1];
      SquaresZero(p);
      SquareSign(x);
      assert forall i :: 0 <= i < |p| ==> s[i] == p[i];
      if x != 0.0 {
        assert SumSquares(s) > 0.0;
      } else if SumSquares(p) != 0.0 {
        assert SumSquares(s) > 0.0;
      }
    }
  }

  /**
   * _compute_residual.  Python 2's map pads the shorter list with None, so
   * lists of different lengths end in a TypeError at the subtraction.
   */
  function ComputeResidual(pred: seq<real>, arrivals: seq<real>): (r: Result<Residual>)
    ensures r.Err? <==> |pred| != |arrivals|
    ensures r.Err? ==> r.error == TypeError
    ensures r.Ok? ==> r.value.overestimate >= 0.0 >= r.value.underestimate && r.value.sse >= 0.0
    ensures r.Ok? ==> r.value.overestimate + r.value.underestimate == Sum(CeilAll(pred)) - Sum(arrivals)
    ensures r.Ok? ==> (r.value.sse == 0.0 <==> forall i :: 0 <= i < |pred| ==> Ceil(pred[i]) as real == arrivals[i])
  {
    if |pred| != |arrivals| then Err(TypeError)
    else
      var error := Differences(CeilAll(pred), arrivals);
      SplitSums(error);
      SquaresZero(error);
      DifferencesSum(CeilAll(pred), arrivals);
      Ok(Residual(SumPositive(error), SumNegative(error), SumSquares(error)))
  }

  lemma {:induction false} DifferencesSum(a: seq<real>, b: seq<real>)
    requires |a| == |b|
    ensures Sum(Differences(a, b)) == Sum(a) - Sum(b)
    decreases |a|
  {
    if |a| > 0 {
      var n := |a| - 1;
      DifferencesSum(a[..n], b[..n]);
      assert Differences(a, b)[..n] == Differences(a[..n], b[..n]);
    }
  }

  /** Predictions that round up to the arrivals leave no residual at all. */
  lemma ExactPredictionsNoResidual(pred: seq<real>, arrivals: seq<real>)
    requires |pred| == |arrivals|
    requires forall i :: 0 <= i < |pred| ==> Ceil(pred[i]) as real == arrivals[i]
    ensures ComputeResidual(pred, arrivals) == Ok(Residual(0.0, 0.0, 0.0))
  {
    var error := Differences(CeilAll(pred), arrivals);
    assert forall i :: 0 <= i < |error| ==> error[i] == 0.0;
    NoErrorSums(error);
  }

  lemma {:induction false} NoErrorSums(s: seq<real>)
    requires forall i :: 0 <= i < |s| ==> s[i] == 0.0
    ensures SumPositive(s) == 0.0 && SumNegative(s) == 0.0 && SumSquares(s) == 0.0
    decreases |s|
  {
    if |s| > 0 {
      NoErrorSums(s[..|s| - 1]);
    }
  }

  /** The first half of a list, l[:len(l) / 2] with Python 2's floor division. */
  function FirstHalf<T>(l: seq<T>): (r: seq<T>)
    ensures |r| == |l| / 2 && |r| + |r| <= |l| <= |r| + |r| + 1
    ensures r == l[..|r|]
  {
    l[..|l| / 2]
  }
}

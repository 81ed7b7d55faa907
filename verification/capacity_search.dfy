/**
 * The capacity search of the provisioning-schedule tool: for offered
 * traffic E, gallop upward from ceil(E) in steps of 32 servers until the
 * recursive Erlang-B blocking is at most bp, then bisect down to the
 * boundary.  `FindCt` applies it to a series of arrival rates.
 */
module CapacitySearch {
  import opened Wrappers
  import opened Numeric
  import opened ErlangB

  /** The inputs on which both loops terminate. */
  predicate Findable(e: real, bp: real) {
    e >= 0.0 && bp >= 0.0 && (e > 0.0 ==> bp > 0.0)
  }

  /**
   * What the search returns: enough servers for blocking at most bp; none
   * for no traffic; the boundary for a threshold below 1; and, since the
   * bisection never moves left off 0 when every probability meets the
   * threshold, exactly one server for a threshold of 1 or more.
   */
  predicate CapacityFor(e: real, bp: real, r: int)
    requires e >= 0.0
  {
    r >= 0 && Blocking(e, r) <= bp &&
    (e == 0.0 ==> r == 0) &&
    (e > 0.0 && bp < 1.0 ==> r >= 1 && Blocking(e, r - 1) > bp) &&
    (e > 0.0 && bp >= 1.0 ==> r == 1)
  }

  /** The result is determined: at most one count of servers meets the description. */
  lemma CapacityForUnique(e: real, bp: real, r1: int, r2: int)
    requires e >= 0.0 && CapacityFor(e, bp, r1) && CapacityFor(e, bp, r2)
    ensures r1 == r2
  {
    if e > 0.0 && bp < 1.0 && r1 != r2 {
      var lo, hi := if r1 < r2 then r1 else r2, if r1 < r2 then r2 else r1;
      BlockingAntitone(e, lo, hi - 1);
      assert false;
    }
  }

  /** find_capacity */
  method FindCapacity(e: real, bp: real) returns (r: int)
    requires Findable(e, bp)
    ensures CapacityFor(e, bp, r)
    ensures e > 0.0 && bp < 1.0 ==> forall j :: 0 <= j < r ==> Blocking(e, j) > bp
  {
    var left := 0;
    var right := Ceil(e);
    var blocked := Blocking(e, right);
    var bound := if e > 0.0 then SearchBound(e, bp) else 0;
    while blocked > bp
      invariant 0 <= left <= right
      invariant blocked == Blocking(e, right)
      invariant e > 0.0 ==> left < right
      invariant e == 0.0 ==> right == 0
      invariant bp >= 1.0 ==> left == 0
      invariant e > 0.0 && bp < 1.0 ==> Blocking(e, left) > bp
      decreases bound - right
    {
      AboveThresholdBelowBound(e, bp, right);
      left := right;
      right := right + 32;
      blocked := Blocking(e, right);
    }
    while right - left > 1
      invariant 0 <= left <= right
      invariant Blocking(e, right) <= bp
      invariant e > 0.0 ==> left < right
      invariant e == 0.0 ==> right == 0
      invariant bp >= 1.0 ==> left == 0
      invariant e > 0.0 && bp < 1.0 ==> Blocking(e, left) > bp
      decreases right - left
    {
      var mid := (left + right) / 2;
      if Blocking(e, mid) > bp {
        left := mid;
      } else {
        right := mid;
      }
    }
    r := right;
    if e > 0.0 && bp < 1.0 {
      forall j | 0 <= j < r
        ensures Blocking(e, j) > bp
      {
        BlockingAntitone(e, j, r - 1);
      }
    }
  }

  /**
   * find_C_t: one capacity per arrival rate, in order, for traffic
   * rate / mu; dividing by a zero service rate raises ZeroDivisionError
   * as soon as there is a rate to divide.
   */
  method FindCt(lambdas: seq<real>, mu: real, bp: real) returns (r: Result<seq<int>>)
    requires mu != 0.0 ==> forall i :: 0 <= i < |lambdas| ==> Findable(lambdas[i] / mu, bp)
    ensures r.Err? <==> mu == 0.0 && |lambdas| > 0
    ensures r.Err? ==> r.error == ZeroDivisionError
    ensures r.Ok? ==> |r.value| == |lambdas|
    ensures r.Ok? ==> forall i :: 0 <= i < |lambdas| ==>
      lambdas[i] / mu >= 0.0 && CapacityFor(lambdas[i] / mu, bp, r.value[i])
  {
    if |lambdas| == 0 {
      return Ok([]);
    }
    if mu == 0.0 {
      return Err(ZeroDivisionError);
    }
    var caps: seq<int> := [];
    var i := 0;
    while i < |lambdas|
      invariant 0 <= i <= |lambdas| && |caps| == i
      invariant forall j :: 0 <= j < i ==> CapacityFor(lambdas[j] / mu, bp, caps[j])
    {
      var c := FindCapacity(lambdas[i] / mu, bp);
      caps := caps + [c];
      i := i + 1;
    }
    r := Ok(caps);
  }
}

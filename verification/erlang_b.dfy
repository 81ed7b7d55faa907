/**
 * The Erlang-B loss formula for an M/M/c/c system with offered traffic E
 * (in Erlangs) and c servers, in the two forms the simulator uses: the
 * closed form (E^c / c!) / sum_{k=0..c} E^k / k!, and the numerically stable
 * recursion s := (1 + s) * i / E for i = 1..c, B = 1 / (1 + s).
 *
 * Both are modelled over exact reals; floating-point rounding and overflow
 * of math.pow / math.factorial are not modelled.
 */
module ErlangB {
  import opened Wrappers

  /**
   * x * y and x / y as named functions.  The recursive definitions below
   * multiply and divide through them, so that an unfolded definition and a
   * lemma's statement about it share the same terms.
   */
  function Mul(x: real, y: real): real
  {
    x * y
  }

  function Div(x: real, y: real): real
    requires y != 0.0
  {
    x / y
  }

  function Pow(x: real, n: nat): (r: real)
    ensures x >= 0.0 ==> r >= 0.0
  {
    if n == 0 then 1.0 else Mul(Pow(x, n - 1), x)
  }

  /** The number n as a real, built by counting. */
  function Count(n: nat): (r: real)
    ensures r >= 0.0
    ensures n > 0 ==> r >= 1.0
  {
    if n == 0 then 0.0 else Count(n - 1) + 1.0
  }

  lemma {:induction false} CountIsCast(n: nat)
    ensures Count(n) == n as real
  {
    if n > 0 {
      CountIsCast(n - 1);
    }
  }

  /** n! (math.factorial), as the real it becomes in the division that uses it. */
  function Fact(n: nat): (r: real)
    ensures r >= 1.0
  {
    if n == 0 then 1.0 else Mul(Count(n), Fact(n - 1))
  }

  /** The k-th term E^k / k! of the Erlang-B sums, computed from the previous one. */
  function Term(e: real, k: nat): (r: real)
    ensures e >= 0.0 ==> r >= 0.0
    ensures e > 0.0 ==> r > 0.0
  {
    if k == 0 then 1.0 else Mul(Term(e, k - 1), Div(e, Count(k)))
  }

  /** Term(E, k) * k! == E^k: the term is math.pow(E, k) / math.factorial(k). */
  predicate TermClosedForm(e: real, k: nat)
  {
    Mul(Term(e, k), Fact(k)) == Pow(e, k)
  }

  lemma {:induction false} TermIsPowOverFact(e: real, k: nat)
    ensures TermClosedForm(e, k)
  {
    if k > 0 {
      TermIsPowOverFact(e, k - 1);
      ProductStep(Term(e, k - 1), Term(e, k), Pow(e, k - 1), Pow(e, k), Fact(k - 1), Fact(k), e, Count(k));
    }
  }

  lemma ProductStep(t0: real, t: real, p0: real, p: real, f0: real, f: real, e: real, k: real)
    requires k > 0.0
    requires Mul(t0, f0) == p0 && t == Mul(t0, Div(e, k))
    requires p == Mul(p0, e) && f == Mul(k, f0)
    ensures Mul(t, f) == p
  {
    calc {
      t * f;
      (t0 * (e / k)) * (k * f0);
      (t0 * f0) * ((e / k) * k);
      { assert (e / k) * k == e; }
      p0 * e;
    }
  }

  /** The denominator sum_{k=0..c} E^k / k!. */
  function Denominator(e: real, c: nat): (r: real)
    ensures e >= 0.0 ==> r >= 1.0
  {
    if c == 0 then Term(e, 0) else Denominator(e, c - 1) + Term(e, c)
  }

  lemma {:induction false} TermBelowDenominator(e: real, c: nat)
    requires e >= 0.0
    ensures Term(e, c) <= Denominator(e, c)
  {
    if c > 0 {
      assert Denominator(e, c - 1) >= 1.0;
    }
  }

  /**
   * ErlangBLossEquation: the closed form.  A negative number of servers makes
   * math.factorial raise ValueError; a zero denominator (possible only for
   * negative traffic) divides by zero.
   */
  function ErlangBClosed(e: real, c: int): (r: Result<real>)
    ensures c < 0 ==> r == Err(ValueError)
    ensures e >= 0.0 && c >= 0 ==> r.Ok? && 0.0 <= r.value <= 1.0
    ensures c == 0 ==> r == Ok(1.0)
    ensures e == 0.0 && c > 0 ==> r == Ok(0.0)
  {
    if c < 0 then Err(ValueError)
    else
      var d := Denominator(e, c);
      if d == 0.0 then Err(ZeroDivisionError)
      else
        if e >= 0.0 then
          TermBelowDenominator(e, c);
          Ok(Term(e, c) / d)
        else
          Ok(Term(e, c) / d)
  }

  /** A term is E^k divided by k!, the quotient the older copy of the closed form sums. */
  lemma TermIsQuotient(e: real, k: nat)
    ensures Div(Pow(e, k), Fact(k)) == Term(e, k)
  {
    TermIsPowOverFact(e, k);
  }

  /**
   * The older copy of ErlangBLossEquation, a loop that adds up
   * math.pow(E, k) / math.factorial(k) for k = 0..m before dividing E^m / m!
   * by the sum.  A negative m raises ValueError, as in the closed form.
   */
  method LegacyLossEquation(e: real, m: int) returns (r: Result<real>)
    ensures r == ErlangBClosed(e, m)
  {
    if m < 0 {
      return Err(ValueError);
    }
    var numerator := Div(Pow(e, m), Fact(m));
    var denominator := 0.0;
    var k := 0;
    while k < m + 1
      invariant 0 <= k <= m + 1
      invariant denominator == if k == 0 then 0.0 else Denominator(e, k - 1)
    {
      TermIsQuotient(e, k);
      denominator := denominator + Div(Pow(e, k), Fact(k));
      k := k + 1;
    }
    if denominator == 0.0 {
      return Err(ZeroDivisionError);
    }
    TermIsQuotient(e, m);
    return Ok(numerator / denominator);
  }

  /**
   * The accumulator of erlang_b_loss_recursive after the iterations
   * i = 1..c; Python's range(1, c + 1) is empty when c <= 0.
   */
  function Acc(e: real, c: int): (r: real)
    requires e != 0.0
    ensures e > 0.0 ==> r >= 0.0
    decreases c
  {
    if c <= 0 then 0.0 else Mul(1.0 + Acc(e, c - 1), Div(Count(c), e))
  }

  /**
   * erlang_b_loss_recursive: zero traffic blocks nobody; otherwise
   * 1 / (1 + s), which divides by zero only if the accumulator reaches -1
   * (possible only for negative traffic).
   */
  function ErlangBRecursive(e: real, c: int): (r: Result<real>)
    ensures e == 0.0 ==> r == Ok(0.0)
    ensures e > 0.0 ==> r.Ok? && 0.0 < r.value <= 1.0
    ensures e > 0.0 && c <= 0 ==> r == Ok(1.0)
  {
    if e == 0.0 then Ok(0.0)
    else if 1.0 + Acc(e, c) == 0.0 then Err(ZeroDivisionError)
    else
      if e > 0.0 then
        assert 1.0 + Acc(e, c) >= 1.0;
        Ok(1.0 / (1.0 + Acc(e, c)))
      else
        Ok(1.0 / (1.0 + Acc(e, c)))
  }

  /** The blocking probability for non-negative traffic, where the recursion never fails. */
  function Blocking(e: real, c: int): (r: real)
    requires e >= 0.0
    ensures 0.0 <= r <= 1.0
  {
    ErlangBRecursive(e, c).value
  }

  // ---------------------------------------------------------------------
  // The two forms agree

  /** (1 + s_c) * E^c / c! is the closed form's denominator. */
  predicate SeriesIdentity(e: real, c: nat)
    requires e != 0.0
  {
    Mul(1.0 + Acc(e, c), Term(e, c)) == Denominator(e, c)
  }

  lemma {:induction false} AccTimesTerm(e: real, c: nat)
    requires e > 0.0
    ensures SeriesIdentity(e, c)
  {
    if c > 0 {
      AccTimesTerm(e, c - 1);
      StepIdentity(Acc(e, c - 1), Acc(e, c), Term(e, c), Term(e, c - 1),
                   Denominator(e, c - 1), Denominator(e, c), Count(c), e);
    }
  }

  /** The algebra of one step of both recursions, over plain reals. */
  lemma StepIdentity(a: real, a1: real, t: real, t0: real, d0: real, d1: real, k: real, e: real)
    requires e > 0.0 && k > 0.0
    requires t == Mul(t0, Div(e, k))
    requires a1 == Mul(1.0 + a, Div(k, e))
    requires Mul(1.0 + a, t0) == d0 && d1 == d0 + t
    ensures Mul(1.0 + a1, t) == d1
  {
    calc {
      (1.0 + a1) * t;
      t + (1.0 + a) * ((k / e) * t);
      { assert (k / e) * t == (k / e) * (t0 * (e / k)); }
      t + (1.0 + a) * t0;
    }
  }

  lemma Cancel(t: real, s: real)
    requires t > 0.0 && s > 0.0
    ensures t / Mul(s, t) == 1.0 / s
  {
  }

  /** For positive traffic the closed form and the recursion compute the same probability. */
  lemma ClosedMatchesRecursive(e: real, c: nat)
    requires e > 0.0
    ensures ErlangBClosed(e, c) == ErlangBRecursive(e, c)
  {
    AccTimesTerm(e, c);
    Cancel(Term(e, c), 1.0 + Acc(e, c));
  }

  // ---------------------------------------------------------------------
  // Bounds and monotonicity

  /** s_c * E >= c: the last factor of the accumulator alone is c / E. */
  lemma AccAtLeast(e: real, c: nat)
    requires e > 0.0
    ensures Mul(Acc(e, c), e) >= Count(c)
  {
    if c > 0 {
      AtLeastAlgebra(Acc(e, c - 1), Acc(e, c), Count(c), e);
    }
  }

  lemma AtLeastAlgebra(a: real, a1: real, k: real, e: real)
    requires e > 0.0 && a >= 0.0 && k >= 0.0
    requires a1 == Mul(1.0 + a, Div(k, e))
    ensures Mul(a1, e) >= k
  {
    assert a1 * e == (1.0 + a) * k;
    assert a * k >= 0.0;
  }

  /** B(E, c) <= E / (E + c): at least c/(E+c) of the traffic is blocked away from c servers. */
  lemma BlockingAtMost(e: real, c: nat)
    requires e > 0.0
    ensures Blocking(e, c) * (e + c as real) <= e
  {
    AccAtLeast(e, c);
    CountIsCast(c);
    BoundAlgebra(Acc(e, c), Count(c), e);
  }

  lemma BoundAlgebra(a: real, k: real, e: real)
    requires e > 0.0 && a >= 0.0 && Mul(a, e) >= k
    ensures (1.0 / (1.0 + a)) * (e + k) <= e
  {
    var s := 1.0 + a;
    assert e + k <= s * e;
    assert (1.0 / s) * (e + k) <= (1.0 / s) * (s * e);
  }

  /** s_j * (E - j + 1) <= j: the accumulator stays small while j <= E. */
  predicate AccBelowCount(e: real, j: nat)
    requires e != 0.0
  {
    Mul(Acc(e, j), e - Count(j) + 1.0) <= Count(j)
  }

  lemma {:induction false} AccAtMost(e: real, j: nat)
    requires e > 0.0 && Count(j) <= e
    ensures AccBelowCount(e, j)
  {
    if j > 0 {
      AccAtMost(e, j - 1);
      AtMostAlgebra(Acc(e, j - 1), Acc(e, j), Count(j - 1), Count(j), e);
    }
  }

  lemma AtMostAlgebra(a: real, a1: real, k0: real, k: real, e: real)
    requires e > 0.0 && a >= 0.0 && k == k0 + 1.0 && k <= e
    requires Mul(a, e - k0 + 1.0) <= k0
    requires a1 == Mul(1.0 + a, Div(k, e))
    ensures Mul(a1, e - k + 1.0) <= k
  {
    ScaleLe(a, e - k0, e - k0 + 1.0);
    assert (1.0 + a) * (e - k0) <= e;
    assert a1 * (e - k0) == ((1.0 + a) * (e - k0)) * (k / e);
    ScaleLe(k / e, (1.0 + a) * (e - k0), e);
  }

  lemma ScaleLe(a: real, x: real, y: real)
    requires a >= 0.0 && x <= y
    ensures a * x <= a * y
  {
  }

  /** The accumulator grows strictly with every server. */
  lemma AccIncreasing(e: real, c: nat)
    requires e > 0.0 && c > 0
    ensures Acc(e, c) > Acc(e, c - 1)
  {
    if Count(c) <= e {
      AccAtMost(e, c - 1);
    }
    IncreaseAlgebra(Acc(e, c - 1), Acc(e, c), Count(c - 1), Count(c), e);
  }

  lemma IncreaseAlgebra(a: real, a1: real, k0: real, k: real, e: real)
    requires e > 0.0 && a >= 0.0 && k0 >= 0.0 && k == k0 + 1.0
    requires k <= e ==> Mul(a, e - k0 + 1.0) <= k0
    requires a1 == Mul(1.0 + a, Div(k, e))
    ensures a1 > a
  {
    if k <= e {
      ScaleLe(a, e - k, e - k + 2.0);
    } else {
      ScaleLe(a, e - k, 0.0);
    }
    GrowthAlgebra(a, a1, k, e);
  }

  lemma GrowthAlgebra(a: real, a1: real, k: real, e: real)
    requires e > 0.0 && a * (e - k) < k
    requires a1 == (1.0 + a) * (k / e)
    ensures a1 > a
  {
    assert (1.0 + a) * k > a * e;
    assert a1 == ((1.0 + a) * k) / e;
    DivLess(a * e, (1.0 + a) * k, e);
  }

  lemma DivLess(x: real, y: real, e: real)
    requires e > 0.0 && x < y
    ensures x / e < y / e
  {
  }

  lemma ReciprocalLess(x: real, y: real)
    requires 0.0 < x < y
    ensures 1.0 / y < 1.0 / x
  {
  }

  /** One more server strictly lowers the blocking probability. */
  lemma BlockingDecreasing(e: real, c: nat)
    requires e > 0.0 && c > 0
    ensures Blocking(e, c) < Blocking(e, c - 1)
  {
    AccIncreasing(e, c);
    ReciprocalLess(1.0 + Acc(e, c - 1), 1.0 + Acc(e, c));
  }

  /** Blocking never rises as servers are added. */
  lemma {:induction false} BlockingAntitone(e: real, i: nat, j: nat)
    requires e > 0.0 && i <= j
    ensures Blocking(e, j) <= Blocking(e, i)
    decreases j - i
  {
    if i < j {
      BlockingAntitone(e, i, j - 1);
      BlockingDecreasing(e, j);
    }
  }

  /**
   * Once c servers exceed E / bp, the blocking probability is below bp:
   * the bound that makes every capacity search terminate.
   */
  lemma BlockingBelow(e: real, bp: real, c: nat)
    requires e > 0.0 && bp > 0.0 && (c as real) * bp > e
    ensures Blocking(e, c) < bp
  {
    BlockingAtMost(e, c);
    ThresholdAlgebra(Blocking(e, c), bp, e, c as real);
  }

  lemma ThresholdAlgebra(b: real, bp: real, e: real, k: real)
    requires e > 0.0 && bp > 0.0 && k >= 0.0
    requires b * (e + k) <= e && k * bp > e
    ensures b < bp
  {
    assert bp * e > 0.0;
    assert (b - bp) * (e + k) < 0.0;
  }

  /** A count of servers past which blocking is surely below bp. */
  function SearchBound(e: real, bp: real): (r: nat)
    requires e >= 0.0 && bp > 0.0
    ensures r >= 1 && (r as real) * bp > e
  {
    var q := (e / bp).Floor;
    assert q as real > e / bp - 1.0;
    QuotientAlgebra(q as real, e, bp);
    q + 1
  }

  lemma QuotientAlgebra(q: real, e: real, bp: real)
    requires bp > 0.0 && q > e / bp - 1.0
    ensures (q + 1.0) * bp > e
  {
    var x := e / bp;
    assert x * bp == e;
    var y := q + 1.0;
    assert y > x;
    assert (y - x) * bp > 0.0;
    assert y * bp - x * bp > 0.0;
  }

  /** Blocking above bp means fewer servers than the bound. */
  lemma AboveThresholdBelowBound(e: real, bp: real, c: nat)
    requires e > 0.0 && bp > 0.0 && Blocking(e, c) > bp
    ensures c < SearchBound(e, bp)
  {
    var k := SearchBound(e, bp);
    if c >= k {
      BlockingAntitone(e, k, c);
      BlockingBelow(e, bp, k);
      assert false;
    }
  }
}

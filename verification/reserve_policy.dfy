/**
 * The reserve-capacity family of scaling policies.  Each policy fixes a
 * reserve R of application seats, lowers it by the departures the estimator
 * expects, raises it by the users waiting for a seat, and then starts or
 * stops just enough VMs that the free seats cover that reserve.  The four
 * policies differ only in where R comes from.
 */
module ReservePolicy {
  import opened Wrappers
  import opened Numeric
  import opened Scaler

  /** The seats to hold back once departures and waiting users are accounted for. */
  function Reserve(r: real, departures: real, waiting: nat): real {
    r - departures + waiting as real
  }

  /**
   * The reference description of a plan: with `density` seats per VM, start
   * the fewest VMs that lift the free seats to the reserve, or stop the most
   * VMs the surplus allows; never both.
   */
  ghost predicate Plans(free: int, reserved: real, density: int, d: Decision)
    requires density > 0
  {
    d.start >= 0 && d.stop >= 0 &&
    (free as real >= reserved ==> d.start == 0) &&
    (free as real < reserved ==>
      (free + d.start * density) as real >= reserved &&
      (free + (d.start - 1) * density) as real < reserved) &&
    (free as real <= reserved ==> d.stop == 0) &&
    (free as real > reserved ==>
      (free - d.stop * density) as real >= reserved &&
      (free - (d.stop + 1) * density) as real < reserved)
  }

  /**
   * The diff rule every reserve policy applies: a surplus of free seats over
   * the reserve stops floor(surplus / density) VMs, a shortfall starts
   * ceil(shortfall / density) VMs.  A zero density divides by zero unless the
   * free seats meet the reserve exactly.
   */
  function SeatRule(free: int, reserved: real, density: int): (r: Result<Decision>)
    ensures r.Err? <==> density == 0 && free as real != reserved
    ensures r.Err? ==> r.error == ZeroDivisionError
    ensures r.Ok? && density >= 0 ==> r.value.start >= 0 && r.value.stop >= 0
    ensures r.Ok? ==> r.value.start == 0 || r.value.stop == 0
    ensures r.Ok? && free as real == reserved ==> r.value == Decision(0, 0)
  {
    var diff := free as real - reserved;
    if diff != 0.0 && density == 0 then Err(ZeroDivisionError)
    else
      var stop := if diff > 0.0 then Floor(diff / density as real) else 0;
      var start := if diff < 0.0 then Ceil(Abs(diff / density as real)) else 0;
      Ok(Decision(start, stop))
  }

  function Abs(x: real): (r: real)
    ensures r >= 0.0 && (r == x || r == -x)
  {
    if x < 0.0 then -x else x
  }

  /** A shortfall over a positive density has the magnitude of its negation's quotient. */
  lemma NegQuotient(x: real, d: real)
    requires x < 0.0 && d > 0.0
    ensures Abs(x / d) == (-x) / d
  {
    var q := x / d;
    assert q * d == x;
    if q >= 0.0 {
      MulLe(0.0, q, d);
    }
    assert -q == (-x) / d;
  }

  lemma MulLe(a: real, b: real, c: real)
    requires a <= b && c > 0.0
    ensures a * c <= b * c
  {
  }

  lemma MulLt(a: real, b: real, c: real)
    requires a < b && c > 0.0
    ensures a * c < b * c
  {
  }

  lemma IntMulReal(k: int, d: int)
    ensures (k * d) as real == k as real * d as real
  {
  }

  /** a <= x / d scales to a * d <= x. */
  lemma AtMostQuotient(a: real, x: real, d: real)
    requires d > 0.0 && a <= x / d
    ensures a * d <= x
  {
    MulLe(a, x / d, d);
    assert (x / d) * d == x;
  }

  /** x / d < a scales to x < a * d. */
  lemma BelowQuotient(a: real, x: real, d: real)
    requires d > 0.0 && x / d < a
    ensures x < a * d
  {
    MulLt(x / d, a, d);
    assert (x / d) * d == x;
  }

  /** a < x / d scales to a * d < x. */
  lemma UnderQuotient(a: real, x: real, d: real)
    requires d > 0.0 && a < x / d
    ensures a * d < x
  {
    MulLt(a, x / d, d);
    assert (x / d) * d == x;
  }

  /** floor(x / density) = k pins x between k and k + 1 VMs' worth of seats. */
  lemma QuotientBounds(x: real, k: int, density: int)
    requires density > 0
    requires k as real <= x / density as real < k as real + 1.0
    ensures (k * density) as real <= x < ((k + 1) * density) as real
  {
    var dr := density as real;
    AtMostQuotient(k as real, x, dr);
    IntMulReal(k, density);
    assert (k * density) as real <= x;
    BelowQuotient((k + 1) as real, x, dr);
    IntMulReal(k + 1, density);
  }

  /** ceil(x / density) = k pins x between k - 1 and k VMs' worth of seats. */
  lemma QuotientBoundsUp(x: real, k: int, density: int)
    requires density > 0
    requires x / density as real <= k as real < x / density as real + 1.0
    ensures x <= (k * density) as real && ((k - 1) * density) as real < x
  {
    var dr := density as real;
    MulLe(x / dr, k as real, dr);
    assert (x / dr) * dr == x;
    IntMulReal(k, density);
    assert x <= (k * density) as real;
    var prev := (k - 1) as real;
    UnderQuotient(prev, x, dr);
    IntMulReal(k - 1, density);
  }

  /**
   * The rule meets its reference description: the planned starts bring the
   * free seats up to the reserve with no VM to spare, and the planned stops
   * of idle VMs keep the free seats at or above the reserve.
   */
  lemma SeatRulePlans(free: int, reserved: real, density: int)
    requires density > 0
    ensures SeatRule(free, reserved, density).Ok?
    ensures Plans(free, reserved, density, SeatRule(free, reserved, density).value)
  {
    var d := SeatRule(free, reserved, density).value;
    var diff := free as real - reserved;
    if diff > 0.0 {
      var k := d.stop;
      QuotientBounds(diff, k, density);
      assert (free - k * density) as real == free as real - (k * density) as real;
      assert (free - (k + 1) * density) as real == free as real - ((k + 1) * density) as real;
    }
    if diff < 0.0 {
      var k := d.start;
      NegQuotient(diff, density as real);
      QuotientBoundsUp(-diff, k, density);
      assert (free + k * density) as real == free as real + (k * density) as real;
      assert (free + (k - 1) * density) as real == free as real + ((k - 1) * density) as real;
    }
  }

  lemma MulMono(a: int, b: int, c: int)
    requires a <= b && c > 0
    ensures a * c <= b * c
  {
  }

  /** The reference description admits exactly one decision. */
  lemma PlansUnique(free: int, reserved: real, density: int, d: Decision, e: Decision)
    requires density > 0
    requires Plans(free, reserved, density, d) && Plans(free, reserved, density, e)
    ensures d == e
  {
    if free as real < reserved {
      if d.start < e.start {
        MulMono(d.start, e.start - 1, density);
      } else if e.start < d.start {
        MulMono(e.start, d.start - 1, density);
      }
    }
    if free as real > reserved {
      if d.stop < e.stop {
        MulMono(d.stop + 1, e.stop, density);
      } else if e.stop < d.stop {
        MulMono(e.stop + 1, d.stop, density);
      }
    }
  }

  // ---------------------------------------------------------------------
  // The four policies

  /** What a reserve policy reports for one tick: its decision and the R it observed. */
  datatype PolicyStep = PolicyStep(decision: Decision, observedR: real)

  /** ReservePolicy: R is fixed when the policy is built. */
  function FixedReserve(r: real, free: int, departures: real, waiting: nat, density: int): (o: Result<Decision>)
    ensures density > 0 ==> o.Ok? && Plans(free, Reserve(r, departures, waiting), density, o.value)
  {
    var reserved := Reserve(r, departures, waiting);
    if density > 0 then
      SeatRulePlans(free, reserved, density);
      SeatRule(free, reserved, density)
    else
      SeatRule(free, reserved, density)
  }

  /**
   * ARHMMReservePolicy: R is the hidden-Markov prediction for the next slot,
   * drawn outside the model and passed in; it is also what the policy records
   * on the prediction monitor.
   */
  function ArhmmReserve(prediction: real, free: int, departures: real, waiting: nat, density: int)
    : (o: Result<PolicyStep>)
    ensures o.Ok? ==> o.value.observedR == prediction
    ensures density > 0 ==> o.Ok? && Plans(free, Reserve(prediction, departures, waiting), density, o.value.decision)
  {
    var d :- FixedReserve(prediction, free, departures, waiting, density);
    Ok(PolicyStep(d, prediction))
  }

  /**
   * DataDrivenReservePolicy: R is the next line of the reserve-capacity file;
   * the policy consumes exactly one line per tick.  Once the file is
   * exhausted, next() raises StopIteration; raised inside the scaler's
   * generator, that ends the scaler process quietly while the rest of the
   * simulation runs on without scaling.
   */
  function DataDrivenReserve(file: seq<real>, free: int, departures: real, waiting: nat, density: int)
    : (o: Result<(PolicyStep, seq<real>)>)
    ensures file == [] ==> o == Err(StopIteration)
    ensures o.Ok? ==> |file| > 0 && o.value.1 == file[1..] && o.value.0.observedR == file[0]
    ensures file != [] && density > 0 ==>
      o.Ok? && Plans(free, Reserve(file[0], departures, waiting), density, o.value.0.decision)
  {
    if file == [] then Err(StopIteration)
    else
      var d :- FixedReserve(file[0], free, departures, waiting, density);
      Ok((PolicyStep(d, file[0]), file[1..]))
  }

  /**
   * The arrival-count window of TimeVaryReservePolicy: a deque bounded by
   * `maxLen` (None keeps everything).
   */
  datatype Window = Window(counts: seq<real>, maxLen: Option<nat>)

  function Push(w: Window, x: real): (r: Window)
    ensures r.maxLen == w.maxLen
    ensures w.maxLen.Some? ==> |r.counts| <= w.maxLen.value
    ensures w.maxLen.Some? && |w.counts| < w.maxLen.value ==> r.counts == w.counts + [x]
    ensures w.maxLen.None? ==> r.counts == w.counts + [x]
    ensures w.maxLen != Some(0) ==> |r.counts| > 0 && r.counts[|r.counts| - 1] == x
    ensures |r.counts| <= |w.counts| + 1 && r.counts == (w.counts + [x])[|w.counts| + 1 - |r.counts|..]
  {
    var all := w.counts + [x];
    match w.maxLen
    case None => Window(all, None)
    case Some(m) =>
      if |all| <= m then Window(all, w.maxLen)
      else Window(all[|all| - m..], w.maxLen)
  }

  /**
   * Pushing a stream of counts into a window keeps the most recent ones: the
   * window holds the last min(maxLen, total) counts ever seen.
   */
  lemma {:induction false} PushAllKeepsSuffix(w: Window, xs: seq<real>)
    requires w.maxLen.Some?
    requires |w.counts| <= w.maxLen.value
    ensures PushAll(w, xs).counts ==
      Suffix(w.counts + xs, Numeric.Min(w.maxLen.value, |w.counts + xs|))
    decreases |xs|
  {
    if |xs| == 0 {
      assert w.counts + xs == w.counts;
    } else {
      var n := |xs| - 1;
      var before := PushAll(w, xs[..n]);
      PushAllKeepsSuffix(w, xs[..n]);
      SnocSplit(w.counts, xs);
      PushStep(before, w.counts + xs[..n], xs[n]);
    }
  }

  /** One push keeps the window equal to the latest counts. */
  lemma PushStep(before: Window, a: seq<real>, x: real)
    requires before.maxLen.Some?
    requires before.counts == Suffix(a, Numeric.Min(before.maxLen.value, |a|))
    ensures Push(before, x).counts == Suffix(a + [x], Numeric.Min(before.maxLen.value, |a| + 1))
  {
    var m := before.maxLen.value;
    if |a| < m {
      SuffixSnoc(a, x, |a|);
    } else {
      SuffixSlide(a, x, m);
    }
  }

  lemma SnocSplit(p: seq<real>, xs: seq<real>)
    requires |xs| > 0
    ensures p + xs == (p + xs[..|xs| - 1]) + [xs[|xs| - 1]]
  {
  }

  lemma SuffixSnoc(a: seq<real>, x: real, k: nat)
    requires k <= |a|
    ensures Suffix(a, k) + [x] == Suffix(a + [x], k + 1)
  {
  }

  lemma SuffixSlide(a: seq<real>, x: real, m: nat)
    requires m <= |a|
    ensures |Suffix(a, m) + [x]| == m + 1
    ensures (Suffix(a, m) + [x])[1..] == Suffix(a + [x], m)
  {
  }

  /** The window after pushing every count of `xs` in order. */
  function PushAll(w: Window, xs: seq<real>): (r: Window)
    ensures r.maxLen == w.maxLen
    decreases |xs|
  {
    if |xs| == 0 then w else Push(PushAll(w, xs[..|xs| - 1]), xs[|xs| - 1])
  }

  /** The last `k` elements of `s`. */
  function Suffix(s: seq<real>, k: nat): seq<real>
    requires k <= |s|
  {
    s[|s| - k..]
  }

  /**
   * TimeVaryReservePolicy: read the next five-minute count, push it into the
   * window, take R as a percentile of the window (computed outside the model
   * by `percentile`), and apply the diff rule.  An exhausted counts file
   * raises StopIteration, which ends the scaler process quietly as for
   * DataDrivenReserve.
   */
  function TimeVaryReserve(w: Window, file: seq<real>, percentile: seq<real> -> real,
                           free: int, departures: real, waiting: nat, density: int)
    : (o: Result<(Decision, Window, seq<real>)>)
    ensures file == [] ==> o == Err(StopIteration)
    ensures o.Ok? ==> |file| > 0 && o.value.1 == Push(w, file[0]) && o.value.2 == file[1..]
    ensures file != [] && density > 0 ==>
      o.Ok? && Plans(free, Reserve(percentile(Push(w, file[0]).counts), departures, waiting), density, o.value.0)
  {
    if file == [] then Err(StopIteration)
    else
      var w1 := Push(w, file[0]);
      var d :- FixedReserve(percentile(w1.counts), free, departures, waiting, density);
      Ok((d, w1, file[1..]))
  }
}

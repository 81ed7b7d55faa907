/**
 * Grouping monitor observations by time (bp_by_time and wait_times_by_time):
 * the simulated span is cut into buckets of one interval each, every
 * observation goes to the bucket its time falls in, and each bucket reports
 * the mean of its values, or 0 when it is empty.
 */
module Statistics {
  import opened Wrappers
  import opened Numeric
  import opened Observations
  import Accounting

  const SecondsInAYear: int := 31536000

  /** int(math.ceil(span / interval)), the number of buckets; range() of a negative count is empty. */
  function BucketCount(span: int, interval: real): (r: nat)
    requires interval != 0.0
  {
    var n := Ceil(span as real / interval);
    if n < 0 then 0 else n
  }

  /** The buckets cover the span, and the last one starts inside it. */
  lemma BucketCountCovers(span: int, interval: real)
    requires interval > 0.0 && span > 0
    ensures var n := BucketCount(span, interval);
      (n - 1) as real * interval < span as real <= n as real * interval
  {
    var n := Ceil(span as real / interval);
    var q := span as real / interval;
    assert q * interval == span as real;
    assert q > 0.0;
    assert n >= 1 && BucketCount(span, interval) == n;
    ProductOrder(q, n as real, interval);
    ProductOrder((n - 1) as real, q, interval);
  }

  lemma ProductOrder(a: real, b: real, c: real)
    requires c > 0.0
    ensures a <= b ==> a * c <= b * c
    ensures a < b ==> a * c < b * c
  {
    assert (b - a) * c == b * c - a * c;
  }

  /** The bucket an observation at time t designates; Python lets a negative index count from the end. */
  function BucketOf(t: real, interval: real, n: nat): (r: Option<nat>)
    requires interval != 0.0
    ensures r.Some? ==> r.value < n
  {
    PyIndex(n, Floor(t / interval))
  }

  /** The buckets after the observations of m, in order, have been appended to them. */
  function Group(m: seq<Obs>, interval: real, n: nat): (r: Result<seq<seq<real>>>)
    requires interval != 0.0
    ensures r.Ok? ==> |r.value| == n
    ensures r.Err? ==> r.error == IndexError
    decreases |m|
  {
    if |m| == 0 then Ok(seq(n, _ => []))
    else
      var o := m[|m| - 1];
      match Group(m[..|m| - 1], interval, n)
      case Err(e) => Err(e)
      case Ok(buckets) =>
        match BucketOf(o.t, interval, n)
        case None => Err(IndexError)
        case Some(j) => Ok(buckets[j := buckets[j] + [o.v]])
  }

  /** The values, in order, of the observations of m that designate bucket j. */
  function Members(m: seq<Obs>, interval: real, n: nat, j: nat): seq<real>
    requires interval != 0.0
    decreases |m|
  {
    if |m| == 0 then []
    else
      var o := m[|m| - 1];
      Members(m[..|m| - 1], interval, n, j) + (if BucketOf(o.t, interval, n) == Some(j) then [o.v] else [])
  }

  predicate AllPlaced(m: seq<Obs>, interval: real, n: nat)
    requires interval != 0.0
  {
    forall i :: 0 <= i < |m| ==> BucketOf(m[i].t, interval, n).Some?
  }

  /**
   * Grouping fails exactly when some observation designates no bucket, and
   * otherwise bucket j holds exactly the values of the observations that
   * designate j, in their original order.
   */
  lemma {:induction false} GroupContents(m: seq<Obs>, interval: real, n: nat)
    requires interval != 0.0
    ensures Group(m, interval, n).Ok? <==> AllPlaced(m, interval, n)
    ensures Group(m, interval, n).Ok? ==>
      forall j :: 0 <= j < n ==> Group(m, interval, n).value[j] == Members(m, interval, n, j)
    decreases |m|
  {
    if |m| > 0 {
      var p := m[..|m| - 1];
      GroupContents(p, interval, n);
      assert forall i :: 0 <= i < |p| ==> p[i] == m[i];
    }
  }

  /** The mean of a bucket's values, 0 for an empty bucket. */
  function Mean(vs: seq<real>): (r: real)
    ensures |vs| == 0 ==> r == 0.0
    ensures |vs| > 0 ==> r * |vs| as real == Sum(vs)
  {
    if |vs| == 0 then 0.0 else Sum(vs) / |vs| as real
  }

  function Means(buckets: seq<seq<real>>): (r: seq<real>)
    ensures |r| == |buckets|
  {
    seq(|buckets|, j requires 0 <= j < |buckets| => Mean(buckets[j]))
  }

  /**
   * The per-interval means of a monitor over a span of `span` seconds; a zero
   * interval divides by zero and an observation outside the buckets raises
   * IndexError.
   */
  function ByTime(m: seq<Obs>, interval: real, span: int): (r: Result<seq<real>>)
    ensures interval == 0.0 ==> r == Err(ZeroDivisionError)
    ensures interval != 0.0 ==> (r.Ok? <==> AllPlaced(m, interval, BucketCount(span, interval)))
    ensures r.Ok? ==> interval != 0.0 && |r.value| == BucketCount(span, interval)
  {
    if interval == 0.0 then Err(ZeroDivisionError)
    else
      var n := BucketCount(span, interval);
      GroupContents(m, interval, n);
      match Group(m, interval, n)
      case Err(e) => Err(e)
      case Ok(buckets) => Ok(Means(buckets))
  }

  /** bp_by_time covers the whole year, one mean per bucket. */
  function BpByTime(m: seq<Obs>, interval: real): (r: Result<seq<real>>)
    ensures interval == 0.0 ==> r == Err(ZeroDivisionError)
    ensures interval != 0.0 ==> (r.Ok? <==> AllPlaced(m, interval, BucketCount(SecondsInAYear, interval)))
    ensures r.Ok? ==> |r.value| == BucketCount(SecondsInAYear, interval)
  {
    ByTime(m, interval, SecondsInAYear)
  }

  /** wait_times_by_time covers only the first half-year, one mean per bucket. */
  function WaitTimesByTime(m: seq<Obs>, interval: real): (r: Result<seq<real>>)
    ensures interval == 0.0 ==> r == Err(ZeroDivisionError)
    ensures interval != 0.0 ==> (r.Ok? <==> AllPlaced(m, interval, BucketCount(SecondsInAYear / 2, interval)))
    ensures r.Ok? ==> |r.value| == BucketCount(SecondsInAYear / 2, interval)
  {
    ByTime(m, interval, SecondsInAYear / 2)
  }

  /** Bucket j of a successful grouping reports the mean of the values of the observations in interval j. */
  lemma ByTimeMeans(m: seq<Obs>, interval: real, span: int, j: nat)
    requires ByTime(m, interval, span).Ok?
    requires j < |ByTime(m, interval, span).value|
    ensures ByTime(m, interval, span).value[j] == Mean(Members(m, interval, BucketCount(span, interval), j))
  {
    var n := BucketCount(span, interval);
    GroupContents(m, interval, n);
    var buckets := Group(m, interval, n).value;
    assert ByTime(m, interval, span).value == Means(buckets);
    assert buckets[j] == Members(m, interval, n, j);
  }

  /** Observations inside the span always find their bucket. */
  lemma {:induction false} InSpanPlaced(m: seq<Obs>, interval: real, span: int)
    requires interval > 0.0 && span > 0
    requires forall i :: 0 <= i < |m| ==> 0.0 <= m[i].t < span as real
    ensures ByTime(m, interval, span).Ok?
  {
    var n := BucketCount(span, interval);
    BucketCountCovers(span, interval);
    forall i | 0 <= i < |m|
      ensures BucketOf(m[i].t, interval, n).Some?
    {
      FloorBelowCount(m[i].t, interval, span as real, n);
    }
  }

  lemma FloorBelowCount(t: real, interval: real, span: real, n: nat)
    requires interval > 0.0 && 0.0 <= t < span <= n as real * interval
    ensures 0 <= Floor(t / interval) < n
  {
    var q := t / interval;
    assert q * interval == t;
  }

  /** An observation stamped at or after the last bucket's end raises IndexError. */
  lemma PastSpanFails(m: seq<Obs>, interval: real, span: int, i: nat)
    requires interval > 0.0
    requires i < |m| && m[i].t >= BucketCount(span, interval) as real * interval
    ensures ByTime(m, interval, span) == Err(IndexError)
  {
    var n := BucketCount(span, interval);
    var q := m[i].t / interval;
    assert q * interval == m[i].t;
    ProductOrder(q, n as real, interval);
    assert q >= n as real;
    assert !BucketOf(m[i].t, interval, n).Some?;
    GroupContents(m, interval, n);
  }

  /**
   * wait_times_by_time by the hour has 4380 buckets covering the first
   * half-year, so on times not shifted back by the half-year a wait at or
   * after 15768000 raises IndexError.
   */
  lemma HourlyWaitsSecondHalfFail(m: seq<Obs>, i: nat)
    requires i < |m| && m[i].t >= (SecondsInAYear / 2) as real
    ensures WaitTimesByTime(m, 3600.0) == Err(IndexError)
  {
    assert (SecondsInAYear / 2) as real / 3600.0 == 4380.0;
    assert BucketCount(SecondsInAYear / 2, 3600.0) == 4380;
    PastSpanFails(m, 3600.0, SecondsInAYear / 2, i);
  }

  /** Blocking indicators in [0, 1] give per-interval blocking probabilities in [0, 1]. */
  lemma MeansAreFractions(buckets: seq<seq<real>>)
    requires forall j, k :: 0 <= j < |buckets| && 0 <= k < |buckets[j]| ==> 0.0 <= buckets[j][k] <= 1.0
    ensures forall j :: 0 <= j < |buckets| ==> 0.0 <= Means(buckets)[j] <= 1.0
  {
    forall j | 0 <= j < |buckets|
      ensures 0.0 <= Means(buckets)[j] <= 1.0
    {
      var b := buckets[j];
      if |b| > 0 {
        SumBounds(b, 0.0, 1.0);
        MeanBounds(Mean(b), |b| as real, Sum(b));
      }
    }
  }

  lemma MeanBounds(mean: real, count: real, total: real)
    requires count >= 1.0 && 0.0 <= total <= count && mean * count == total
    ensures 0.0 <= mean <= 1.0
  {
  }

  /**
   * The simulator hands the wait statistics only the waits observed after
   * the half-year, shifted back by it.  In a run that ends within the year
   * the hourly grouping then fails only for a wait stamped exactly at the
   * end of the year, whose shifted time opens a 4381st bucket.
   */
  lemma SecondHalfHourlyWaits(m: seq<Obs>)
    requires forall i :: 0 <= i < |m| ==> m[i].t <= SecondsInAYear as real
    ensures WaitTimesByTime(Accounting.AfterHalfYear(m), 3600.0).Ok? <==>
      forall i :: 0 <= i < |m| ==> m[i].t != SecondsInAYear as real
  {
    var r := Accounting.AfterHalfYear(m);
    if forall i :: 0 <= i < |m| ==> m[i].t != SecondsInAYear as real {
      ShiftedWithinHalf(m, r);
      InSpanPlaced(r, 3600.0, SecondsInAYear / 2);
    } else {
      var i :| 0 <= i < |m| && m[i].t == SecondsInAYear as real;
      EndOfYearFails(m, r, i);
    }
  }

  /** Before the end of the year, every shifted time lies inside the first half-year. */
  lemma ShiftedWithinHalf(m: seq<Obs>, r: seq<Obs>)
    requires forall i :: 0 <= i < |m| ==> m[i].t < SecondsInAYear as real
    requires r == Accounting.AfterHalfYear(m)
    ensures forall j :: 0 <= j < |r| ==> 0.0 <= r[j].t < (SecondsInAYear / 2) as real
  {
    forall j | 0 <= j < |r|
      ensures 0.0 <= r[j].t < (SecondsInAYear / 2) as real
    {
      Accounting.AfterHalfYearMembers(m, r[j]);
      var i :| 0 <= i < |m| && m[i] == Obs(r[j].t + Accounting.HalfYear as real, r[j].v);
    }
  }

  /** A wait stamped at the end of the year is shifted onto the end of the hourly buckets. */
  lemma EndOfYearFails(m: seq<Obs>, r: seq<Obs>, i: nat)
    requires i < |m| && m[i].t == SecondsInAYear as real
    requires r == Accounting.AfterHalfYear(m)
    ensures WaitTimesByTime(r, 3600.0) == Err(IndexError)
  {
    var o := Obs(m[i].t - Accounting.HalfYear as real, m[i].v);
    assert Obs(o.t + Accounting.HalfYear as real, o.v) == m[i];
    Accounting.AfterHalfYearMembers(m, o);
    var j :| 0 <= j < |r| && r[j] == o;
    HourlyWaitsSecondHalfFail(r, j);
  }
}

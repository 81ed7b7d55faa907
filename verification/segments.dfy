/**
 * Cutting a year-long arrival trace by time: counting arrivals per period,
 * extracting the arrivals between two offsets, and splicing several such
 * ranges into one trace so that no time is lost at the seams.
 */
module Segments {
  import opened Wrappers
  import opened Numeric
  import opened Traces

  const SecondsInAYear: int := 31536000

  /** The period of an absolute time; Python lets a negative index count from the end. */
  function PeriodOf(t: int, period: int, n: nat): (r: Option<nat>)
    requires period != 0
    ensures r.Some? ==> r.value < n
  {
    PyIndex(n, FloorDiv(t, period))
  }

  /** The counters after the arrivals of s, starting at time `base`, have been counted. */
  function CountFrom(counts: seq<int>, s: seq<Arrival>, base: int, period: int): (r: Result<seq<int>>)
    requires period != 0
    ensures r.Ok? ==> |r.value| == |counts|
    ensures r.Err? ==> r.error == IndexError
    decreases |s|
  {
    if |s| == 0 then Ok(counts)
    else
      var t := base + s[0].inter;
      match PeriodOf(t, period, |counts|)
      case None => Err(IndexError)
      case Some(j) => CountFrom(counts[j := counts[j] + 1], s[1..], t, period)
  }

  /**
   * get_arrivals_per_time_period: 31536000 / period_seconds counters, and
   * each arrival adds one to the counter of the period its absolute time
   * falls in.
   */
  function ArrivalsPerPeriod(arrivals: seq<Arrival>, period: int): (r: Result<seq<int>>)
    ensures period == 0 ==> r == Err(ZeroDivisionError)
    ensures r.Ok? ==> period != 0 && |r.value| == Max(FloorDiv(SecondsInAYear, period), 0)
    ensures r.Err? ==> r.error == ZeroDivisionError || r.error == IndexError
  {
    if period == 0 then Err(ZeroDivisionError)
    else
      var n := FloorDiv(SecondsInAYear, period);
      CountFrom(seq(Max(n, 0), _ => 0), arrivals, 0, period)
  }

  /** The number of times `base`-relative arrival times of s fall in period j. */
  function Hits(s: seq<Arrival>, base: int, period: int, n: nat, j: nat): nat
    requires period != 0
    decreases |s|
  {
    if |s| == 0 then 0
    else
      var t := base + s[0].inter;
      (if PeriodOf(t, period, n) == Some(j) then 1 else 0) + Hits(s[1..], t, period, n, j)
  }

  predicate AllInYear(s: seq<Arrival>, base: int, period: int, n: nat)
    requires period != 0
    decreases |s|
  {
    |s| == 0 || (PeriodOf(base + s[0].inter, period, n).Some? && AllInYear(s[1..], base + s[0].inter, period, n))
  }

  function SumCounts(s: seq<int>): int
    decreases |s|
  {
    if |s| == 0 then 0 else s[0] + SumCounts(s[1..])
  }

  lemma {:induction false} SumCountsUpdate(s: seq<int>, j: nat, x: int)
    requires j < |s|
    ensures SumCounts(s[j := x]) == SumCounts(s) - s[j] + x
    decreases |s|
  {
    if j > 0 {
      SumCountsUpdate(s[1..], j - 1, x);
      assert s[j := x][1..] == s[1..][j - 1 := x];
    }
  }

  /**
   * Counting succeeds exactly when every arrival falls in some period; then
   * counter j grows by the number of arrivals in period j, so the counters
   * grow in total by the number of arrivals.
   */
  lemma {:induction false} CountFromCounts(counts: seq<int>, s: seq<Arrival>, base: int, period: int)
    requires period != 0
    ensures CountFrom(counts, s, base, period).Ok? <==> AllInYear(s, base, period, |counts|)
    ensures CountFrom(counts, s, base, period).Ok? ==>
      (forall j :: 0 <= j < |counts| ==>
        CountFrom(counts, s, base, period).value[j] == counts[j] + Hits(s, base, period, |counts|, j)) &&
      SumCounts(CountFrom(counts, s, base, period).value) == SumCounts(counts) + |s|
    decreases |s|
  {
    if |s| > 0 {
      var t := base + s[0].inter;
      match PeriodOf(t, period, |counts|)
      case None =>
      case Some(k) =>
        var next := counts[k := counts[k] + 1];
        CountFromCounts(next, s[1..], t, period);
        SumCountsUpdate(counts, k, counts[k] + 1);
    }
  }

  lemma {:induction false} SumCountsZero(n: nat)
    ensures SumCounts(seq(n, _ => 0)) == 0
  {
    if n > 0 {
      assert seq(n, _ => 0)[1..] == seq(n - 1, _ => 0);
      SumCountsZero(n - 1);
    }
  }

  /** With every arrival inside the year, the counters add up to the number of arrivals. */
  lemma ArrivalsPerPeriodTotal(arrivals: seq<Arrival>, period: int)
    requires period != 0
    requires AllInYear(arrivals, 0, period, Max(FloorDiv(SecondsInAYear, period), 0))
    ensures ArrivalsPerPeriod(arrivals, period).Ok?
    ensures SumCounts(ArrivalsPerPeriod(arrivals, period).value) == |arrivals|
  {
    var n := Max(FloorDiv(SecondsInAYear, period), 0);
    CountFromCounts(seq(n, _ => 0), arrivals, 0, period);
    SumCountsZero(n);
  }

  /** The result of get_arrivals_by_date_range. */
  datatype Segment = Segment(remaining: int, arrivals: seq<Arrival>)

  /**
   * The scan of get_arrivals_by_date_range from the current arrival, `t`
   * being the absolute time of the previous one: arrivals before `start` are
   * skipped; the first at or after `start` is kept with its interarrival
   * measured from `start`; later ones are kept as they are until one reaches
   * `end`, which stops the scan with the time left from the last kept
   * arrival to `end`.  `stopped` tells whether that happened.
   */
  function Scan(s: seq<Arrival>, t: int, found: bool, start: int, end: int): (r: (Segment, bool))
    ensures !r.1 ==> r.0.remaining == 0
    ensures !found && r.1 ==> |r.0.arrivals| >= 1
    decreases |s|
  {
    if |s| == 0 then (Segment(0, []), false)
    else
      var next := t + s[0].inter;
      if next < start then Scan(s[1..], next, found, start, end)
      else if !found then
        var rest := Scan(s[1..], next, true, start, end);
        (Segment(rest.0.remaining, [Arrival(next - start, s[0].service)] + rest.0.arrivals), rest.1)
      else if next >= end then (Segment(end - t, []), true)
      else
        var rest := Scan(s[1..], next, found, start, end);
        (Segment(rest.0.remaining, [s[0]] + rest.0.arrivals), rest.1)
  }

  /** The index of the first element at or above `bound`, or the length when there is none. */
  function FirstAtOrAfter(xs: seq<int>, bound: int): (j: nat)
    ensures j <= |xs|
    ensures forall i :: 0 <= i < j ==> xs[i] < bound
    ensures j < |xs| ==> xs[j] >= bound
    decreases |xs|
  {
    if |xs| == 0 || xs[0] >= bound then 0 else 1 + FirstAtOrAfter(xs[1..], bound)
  }

  /** The length of the run of elements below `bound` starting at index `from`. */
  function RunBelow(xs: seq<int>, from: nat, bound: int): (n: nat)
    requires from <= |xs|
    ensures from + n <= |xs|
    ensures forall i :: from <= i < from + n ==> xs[i] < bound
    ensures from + n < |xs| ==> xs[from + n] >= bound
    decreases |xs| - from
  {
    if from == |xs| || xs[from] >= bound then 0 else 1 + RunBelow(xs, from + 1, bound)
  }

  function ArrivalsByDateRange(arrivals: seq<Arrival>, start: int, end: int): (r: Segment)
    ensures |r.arrivals| <= |arrivals|
  {
    ScanLength(arrivals, 0, false, start, end);
    Scan(arrivals, 0, false, start, end).0
  }

  /**
   * The date range described by positions in the trace started at time 0:
   * with j the first arrival at or after `start`, the range is that arrival,
   * its interarrival measured from `start`, followed by the n arrivals after
   * it that come before `end`; the remaining time runs from the last of them
   * to `end` when a later arrival reaches `end`, and is 0 when the trace
   * runs out first.  Without an arrival at or after `start` the range is
   * empty.
   */
  function RangeByIndex(arrivals: seq<Arrival>, start: int, end: int): Segment {
    var abs := AbsTimes(arrivals, 0);
    RangeFrom(arrivals, abs, FirstAtOrAfter(abs, start), start, end)
  }

  /** RangeByIndex once the absolute times and the first arrival j at or after `start` are known. */
  function RangeFrom(arrivals: seq<Arrival>, abs: seq<int>, j: nat, start: int, end: int): Segment
    requires |abs| == |arrivals| && j <= |arrivals|
  {
    if j == |arrivals| then Segment(0, [])
    else
      var n := RunBelow(abs, j + 1, end);
      Segment(if j + 1 + n < |arrivals| then end - abs[j + n] else 0,
              [Arrival(abs[j] - start, arrivals[j].service)] + arrivals[j + 1..j + 1 + n])
  }

  /**
   * get_arrivals_by_date_range keeps exactly the range described by
   * positions; the empty case needs no clean trace.
   */
  lemma DateRangeContents(arrivals: seq<Arrival>, start: int, end: int)
    ensures FirstAtOrAfter(AbsTimes(arrivals, 0), start) == |arrivals| ==>
      ArrivalsByDateRange(arrivals, start, end) == Segment(0, [])
    ensures AllClean(arrivals) ==> ArrivalsByDateRange(arrivals, start, end) == RangeByIndex(arrivals, start, end)
  {
    var abs := AbsTimes(arrivals, 0);
    var j := FirstAtOrAfter(abs, start);
    assert RangeByIndex(arrivals, start, end) == RangeFrom(arrivals, abs, j, start, end);
    if j == |arrivals| {
      ScanNoneFound(arrivals, 0, start, end);
    } else if AllClean(arrivals) {
      DateRangeFound(arrivals, start, end, abs, j);
    }
  }

  /** DateRangeContents once the first kept arrival j is known. */
  lemma DateRangeFound(arrivals: seq<Arrival>, start: int, end: int, abs: seq<int>, j: nat)
    requires AllClean(arrivals) && abs == AbsTimes(arrivals, 0)
    requires j < |arrivals| && abs[j] >= start
    requires forall i :: 0 <= i < j ==> abs[i] < start
    ensures ArrivalsByDateRange(arrivals, start, end) == RangeFrom(arrivals, abs, j, start, end)
  {
    var n := RunBelow(abs, j + 1, end);
    TailScan(arrivals, start, end, abs, j, n);
    ScanSkipsTo(arrivals, 0, start, end, j);
    JoinRange(arrivals, start, end, abs, j, n,
      Scan(arrivals[j + 1..], abs[j], true, start, end), Scan(arrivals, 0, false, start, end));
  }

  /** The range is the first kept arrival followed by what the scan after it keeps. */
  lemma JoinRange(arrivals: seq<Arrival>, start: int, end: int, abs: seq<int>, j: nat, n: nat,
                  rest: (Segment, bool), whole: (Segment, bool))
    requires |abs| == |arrivals| && j < |arrivals| && n == RunBelow(abs, j + 1, end)
    requires rest.0.arrivals == arrivals[j + 1..j + 1 + n]
    requires j + 1 + n < |arrivals| ==> rest.0.remaining == end - abs[j + n]
    requires j + 1 + n == |arrivals| ==> rest.0.remaining == 0
    requires whole.0 == Segment(rest.0.remaining, [Arrival(abs[j] - start, arrivals[j].service)] + rest.0.arrivals)
    ensures whole.0 == RangeFrom(arrivals, abs, j, start, end)
  {
  }

  /** After the first kept arrival j, the scan keeps the n arrivals before `end` and stops at the next one. */
  lemma TailScan(arrivals: seq<Arrival>, start: int, end: int, abs: seq<int>, j: nat, n: nat)
    requires AllClean(arrivals) && abs == AbsTimes(arrivals, 0)
    requires j < |arrivals| && abs[j] >= start
    requires j + 1 + n <= |arrivals|
    requires forall i :: j + 1 <= i < j + 1 + n ==> abs[i] < end
    requires j + 1 + n < |arrivals| ==> abs[j + 1 + n] >= end
    ensures var rest := Scan(arrivals[j + 1..], abs[j], true, start, end);
      && rest.0.arrivals == arrivals[j + 1..j + 1 + n]
      && (rest.1 <==> j + 1 + n < |arrivals|)
      && (j + 1 + n < |arrivals| ==> rest.0.remaining == end - abs[j + n])
  {
    var tail := arrivals[j + 1..];
    AbsTimesFrom(arrivals, 0, j);
    assert AllClean(tail) by {
      forall i | 0 <= i < |tail|
        ensures IsClean(tail[i])
      {
        assert tail[i] == arrivals[j + 1 + i];
      }
    }
    var at := AbsTimes(tail, abs[j]);
    forall i | 0 <= i < n
      ensures at[i] < end
    {
      assert at[i] == abs[j + 1 + i];
    }
    if n < |tail| {
      assert at[n] == abs[j + 1 + n];
    }
    ScanKeepsUntilEnd(tail, abs[j], start, end, n);
    assert tail[..n] == arrivals[j + 1..j + 1 + n];
    if n < |tail| && n > 0 {
      assert at[n - 1] == abs[j + n];
    }
  }

  /** The absolute times after arrival j are those of the rest of the trace started at arrival j's time. */
  lemma {:induction false} AbsTimesFrom(s: seq<Arrival>, t: int, j: nat)
    requires j < |s|
    ensures AbsTimes(s[j + 1..], AbsTimes(s, t)[j]) == AbsTimes(s, t)[j + 1..]
    decreases j
  {
    var next := t + s[0].inter;
    assert AbsTimes(s, t) == [next] + AbsTimes(s[1..], next);
    if j > 0 {
      AbsTimesFrom(s[1..], next, j - 1);
      assert s[1..][j..] == s[j + 1..];
    }
  }

  /** With no arrival at or after `start`, the scan keeps nothing and never stops. */
  lemma {:induction false} ScanNoneFound(s: seq<Arrival>, t: int, start: int, end: int)
    requires forall i :: 0 <= i < |s| ==> AbsTimes(s, t)[i] < start
    ensures Scan(s, t, false, start, end) == (Segment(0, []), false)
    decreases |s|
  {
    if |s| > 0 {
      var next := t + s[0].inter;
      assert AbsTimes(s, t) == [next] + AbsTimes(s[1..], next);
      assert AbsTimes(s, t)[0] < start;
      forall i | 0 <= i < |s| - 1
        ensures AbsTimes(s[1..], next)[i] < start
      {
        assert AbsTimes(s[1..], next)[i] == AbsTimes(s, t)[i + 1];
      }
      ScanNoneFound(s[1..], next, start, end);
    }
  }

  /**
   * The arrivals before the first one at or after `start` (index j) are
   * skipped; that one is kept, measured from `start`, and the scan goes on
   * from the arrival after it.
   */
  lemma {:induction false} ScanSkipsTo(s: seq<Arrival>, t: int, start: int, end: int, j: nat)
    requires j < |s|
    requires AbsTimes(s, t)[j] >= start
    requires forall i :: 0 <= i < j ==> AbsTimes(s, t)[i] < start
    ensures var rest := Scan(s[j + 1..], AbsTimes(s, t)[j], true, start, end);
      Scan(s, t, false, start, end) ==
        (Segment(rest.0.remaining, [Arrival(AbsTimes(s, t)[j] - start, s[j].service)] + rest.0.arrivals), rest.1)
    decreases j
  {
    var next := t + s[0].inter;
    var abs := AbsTimes(s, t);
    assert abs == [next] + AbsTimes(s[1..], next);
    if j > 0 {
      assert abs[0] < start;
      forall i | 0 <= i < j - 1
        ensures AbsTimes(s[1..], next)[i] < start
      {
        assert AbsTimes(s[1..], next)[i] == abs[i + 1];
      }
      assert AbsTimes(s[1..], next)[j - 1] == abs[j];
      assert s[1..][j - 1] == s[j];
      assert s[1..][j..] == s[j + 1..];
      ScanSkipsTo(s[1..], next, start, end, j - 1);
    }
  }

  /**
   * Once the start has been found, a clean trace is kept as it is up to the
   * first arrival at or after `end` (index k), which stops the scan with the
   * time from the last kept arrival to `end`; with no such arrival the scan
   * keeps the whole trace and does not stop.
   */
  lemma {:induction false} ScanKeepsUntilEnd(s: seq<Arrival>, t: int, start: int, end: int, k: nat)
    requires t >= start && AllClean(s) && k <= |s|
    requires forall i :: 0 <= i < k ==> AbsTimes(s, t)[i] < end
    requires k < |s| ==> AbsTimes(s, t)[k] >= end
    ensures Scan(s, t, true, start, end).0.arrivals == s[..k]
    ensures Scan(s, t, true, start, end).1 <==> k < |s|
    ensures k < |s| ==> Scan(s, t, true, start, end).0.remaining == end - (if k == 0 then t else AbsTimes(s, t)[k - 1])
    decreases |s|
  {
    if |s| > 0 {
      var next := t + s[0].inter;
      var abs := AbsTimes(s, t);
      assert abs == [next] + AbsTimes(s[1..], next);
      assert IsClean(s[0]);
      if k > 0 {
        assert abs[0] < end;
        assert AllClean(s[1..]) by {
          forall i | 0 <= i < |s| - 1
            ensures IsClean(s[1..][i])
          {
            assert s[1..][i] == s[i + 1];
          }
        }
        forall i | 0 <= i < k - 1
          ensures AbsTimes(s[1..], next)[i] < end
        {
          assert AbsTimes(s[1..], next)[i] == abs[i + 1];
        }
        if k < |s| {
          assert AbsTimes(s[1..], next)[k - 1] == abs[k];
        }
        ScanKeepsUntilEnd(s[1..], next, start, end, k - 1);
        assert s[..k] == [s[0]] + s[1..][..k - 1];
        if k < |s| && k > 1 {
          assert AbsTimes(s[1..], next)[k - 2] == abs[k - 1];
        }
      }
    }
  }

  lemma {:induction false} ScanLength(s: seq<Arrival>, t: int, found: bool, start: int, end: int)
    ensures |Scan(s, t, found, start, end).0.arrivals| <= |s|
    decreases |s|
  {
    if |s| > 0 {
      ScanLength(s[1..], t + s[0].inter, found || t + s[0].inter >= start, start, end);
    }
  }

  /**
   * Arrivals before the start are dropped: the range opens with the first
   * arrival at or after `start`, its interarrival measured from `start`.
   */
  lemma {:induction false} ScanFirstKept(s: seq<Arrival>, t: int, start: int, end: int, k: nat)
    requires k < |s|
    requires AbsTimes(s, t)[k] >= start
    requires forall i :: 0 <= i < k ==> AbsTimes(s, t)[i] < start
    ensures |Scan(s, t, false, start, end).0.arrivals| >= 1
    ensures Scan(s, t, false, start, end).0.arrivals[0] == Arrival(AbsTimes(s, t)[k] - start, s[k].service)
    decreases |s|
  {
    var next := t + s[0].inter;
    var abs := AbsTimes(s, t);
    assert abs == [next] + AbsTimes(s[1..], next);
    if k > 0 {
      assert abs[0] < start;
      forall i | 0 <= i < k - 1
        ensures AbsTimes(s[1..], next)[i] < start
      {
        assert AbsTimes(s[1..], next)[i] == abs[i + 1];
      }
      assert AbsTimes(s[1..], next)[k - 1] == abs[k];
      assert s[1..][k - 1] == s[k];
      ScanFirstKept(s[1..], next, start, end, k - 1);
    }
  }

  function TotalTime(s: seq<Arrival>): int
    decreases |s|
  {
    if |s| == 0 then 0 else s[0].inter + TotalTime(s[1..])
  }

  /**
   * Once the start has been found (the previous arrival, at time t, was kept)
   * and with no negative interarrival, a scan that stops accounts for all the
   * time up to the end: its interarrivals plus the remaining time add up to
   * end - t.
   */
  lemma {:induction false} ScanAccountsAfterStart(s: seq<Arrival>, t: int, start: int, end: int)
    requires t >= start
    requires AllClean(s)
    requires Scan(s, t, true, start, end).1
    ensures TotalTime(Scan(s, t, true, start, end).0.arrivals) + Scan(s, t, true, start, end).0.remaining == end - t
    decreases |s|
  {
    var next := t + s[0].inter;
    if next < end {
      ScanAccountsAfterStart(s[1..], next, start, end);
    }
  }

  /**
   * A date range whose scan stops accounts for the whole range: the
   * interarrivals of the returned arrivals plus the remaining time add up to
   * end - start.
   */
  lemma {:induction false} ScanAccounts(s: seq<Arrival>, t: int, start: int, end: int)
    requires AllClean(s)
    requires Scan(s, t, false, start, end).1
    ensures TotalTime(Scan(s, t, false, start, end).0.arrivals) + Scan(s, t, false, start, end).0.remaining == end - start
    decreases |s|
  {
    var next := t + s[0].inter;
    if next < start {
      ScanAccounts(s[1..], next, start, end);
    } else {
      ScanAccountsAfterStart(s[1..], next, start, end);
    }
  }

  /** The range scan of a clean trace starting at time 0. */
  lemma DateRangeAccounts(arrivals: seq<Arrival>, start: int, end: int)
    requires AllClean(arrivals)
    requires Scan(arrivals, 0, false, start, end).1
    ensures TotalTime(ArrivalsByDateRange(arrivals, start, end).arrivals) + ArrivalsByDateRange(arrivals, start, end).remaining == end - start
  {
    ScanAccounts(arrivals, 0, start, end);
  }

  /**
   * get_traffic_for_multiple_dates from the current range on: each range's
   * arrivals are appended, the first of them lengthened by the previous
   * range's remaining time when that is non-zero (an empty range then raises
   * IndexError).  Returns the spliced arrivals and the last remaining time.
   */
  function Splice(arrivals: seq<Arrival>, ranges: seq<(int, int)>, carried: int): (r: Result<(seq<Arrival>, int)>)
    ensures r.Err? ==> r.error == IndexError
    decreases |ranges|
  {
    if |ranges| == 0 then Ok(([], carried))
    else
      var seg := ArrivalsByDateRange(arrivals, ranges[0].0, ranges[0].1);
      if carried != 0 && |seg.arrivals| == 0 then Err(IndexError)
      else
        var first := if carried != 0
          then [Arrival(seg.arrivals[0].inter + carried, seg.arrivals[0].service)] + seg.arrivals[1..]
          else seg.arrivals;
        match Splice(arrivals, ranges[1..], seg.remaining)
        case Err(e) => Err(e)
        case Ok(rest) => Ok((first + rest.0, rest.1))
  }

  /**
   * get_traffic_for_multiple_dates: the ranges spliced from no carried time;
   * the only failure is the IndexError of an empty range after a non-zero
   * remainder.
   */
  function TrafficForMultipleDates(arrivals: seq<Arrival>, ranges: seq<(int, int)>): (r: Result<seq<Arrival>>)
    ensures r.Err? ==> r.error == IndexError
    ensures |ranges| == 0 ==> r == Ok([])
  {
    match Splice(arrivals, ranges, 0)
    case Err(e) => Err(e)
    case Ok(out) => Ok(out.0)
  }

  lemma {:induction false} TotalTimeAppend(a: seq<Arrival>, b: seq<Arrival>)
    ensures TotalTime(a + b) == TotalTime(a) + TotalTime(b)
    decreases |a|
  {
    if |a| == 0 {
      assert a + b == b;
    } else {
      assert (a + b)[1..] == a[1..] + b;
      TotalTimeAppend(a[1..], b);
    }
  }

  /** Whether every range's scan stops at its end. */
  predicate AllStop(arrivals: seq<Arrival>, ranges: seq<(int, int)>) {
    forall k :: 0 <= k < |ranges| ==> Scan(arrivals, 0, false, ranges[k].0, ranges[k].1).1
  }

  function RangeLengths(ranges: seq<(int, int)>): int
    decreases |ranges|
  {
    if |ranges| == 0 then 0 else (ranges[0].1 - ranges[0].0) + RangeLengths(ranges[1..])
  }

  /**
   * All time is accounted for across the seams: when every range stops at
   * its end, the spliced interarrivals plus the last remaining time add up
   * to the total length of the ranges, plus the time carried in.
   */
  lemma {:induction false} SpliceAccounts(arrivals: seq<Arrival>, ranges: seq<(int, int)>, carried: int)
    requires AllClean(arrivals)
    requires AllStop(arrivals, ranges)
    requires Splice(arrivals, ranges, carried).Ok?
    ensures TotalTime(Splice(arrivals, ranges, carried).value.0) + Splice(arrivals, ranges, carried).value.1 ==
      RangeLengths(ranges) + carried
    decreases |ranges|
  {
    if |ranges| > 0 {
      var seg := ArrivalsByDateRange(arrivals, ranges[0].0, ranges[0].1);
      DateRangeAccounts(arrivals, ranges[0].0, ranges[0].1);
      var first := if carried != 0
        then [Arrival(seg.arrivals[0].inter + carried, seg.arrivals[0].service)] + seg.arrivals[1..]
        else seg.arrivals;
      if carried != 0 {
        assert seg.arrivals == [seg.arrivals[0]] + seg.arrivals[1..];
        assert TotalTime(first) == TotalTime(seg.arrivals) + carried;
      }
      assert AllStop(arrivals, ranges[1..]) by {
        forall k | 0 <= k < |ranges[1..]|
          ensures Scan(arrivals, 0, false, ranges[1..][k].0, ranges[1..][k].1).1
        {
          assert ranges[1..][k] == ranges[k + 1];
        }
      }
      SpliceAccounts(arrivals, ranges[1..], seg.remaining);
      var rest := Splice(arrivals, ranges[1..], seg.remaining).value;
      TotalTimeAppend(first, rest.0);
    }
  }
}

/**
 * The two ways the n-step residuals aggregate a per-period series into
 * boot-period totals of n periods each: non-overlapping buckets (entry i goes
 * to bucket i / n of a fixed list of 52560 buckets) and sliding windows
 * (entries i to i + n - 1 for every i).  Both residual scripts share the
 * shapes; they differ in where they round up or divide.
 */
module Windows {
  import opened Wrappers
  import opened Numeric

  /** The number of buckets: the five-minute periods of half a year. */
  const BucketCount: nat := 52560

  /** n = len(arrivals) / 52560, Python 2 floor division of a length. */
  function PeriodsPerBucket(len: nat): (r: nat)
    ensures r * BucketCount <= len < r * BucketCount + BucketCount
  {
    len / BucketCount
  }

  /** How the non-overlapping loop adds an entry of the second series into its bucket. */
  datatype Accumulation =
    | RoundUp  // pred_summed[index] = math.ceil(pred_summed[index] + pred[i])
    | Plain    // pred_summed[index] = pred_summed[index] + pred[i]

  /** The two bucket lists and the current bucket index after some entries. */
  datatype Buckets = Buckets(first: seq<real>, second: seq<real>, index: int)

  function Zeros(n: nat): (r: seq<real>)
    ensures |r| == n && forall i :: 0 <= i < n ==> r[i] == 0.0
  {
    seq(n, _ => 0.0)
  }

  /**
   * The non-overlapping loop over the first m entries: a new bucket starts
   * whenever i % n == 0, first[index] collects xs[i] and second[index]
   * collects ys[i].  n == 0 raises ZeroDivisionError at i % n, a bucket
   * index past the list and an ys shorter than xs raise IndexError.
   */
  function NonOverlap(xs: seq<real>, ys: seq<real>, n: nat, acc: Accumulation, m: nat): (r: Result<Buckets>)
    requires m <= |xs|
    ensures r.Ok? ==> |r.value.first| == BucketCount && |r.value.second| == BucketCount
    decreases m
  {
    if m == 0 then Ok(Buckets(Zeros(BucketCount), Zeros(BucketCount), -1))
    else
      match NonOverlap(xs, ys, n, acc, m - 1)
      case Err(e) => Err(e)
      case Ok(b) => Place(b, xs[m - 1], ys, m - 1, n, acc)
  }

  /** Iteration i of the loop: entry x of the first series and ys[i] of the second. */
  function Place(b: Buckets, x: real, ys: seq<real>, i: nat, n: nat, acc: Accumulation): (r: Result<Buckets>)
    requires |b.first| == BucketCount && |b.second| == BucketCount
    ensures r.Ok? ==> |r.value.first| == BucketCount && |r.value.second| == BucketCount
  {
    if n == 0 then Err(ZeroDivisionError)
    else
      var index := if i % n == 0 then b.index + 1 else b.index;
      match PyIndex(BucketCount, index)
      case None => Err(IndexError)
      case Some(j) =>
        if i >= |ys| then Err(IndexError)
        else
          var added := b.second[j] + ys[i];
          Ok(Buckets(b.first[j := b.first[j] + x],
                     b.second[j := if acc.RoundUp? then Ceil(added) as real else added],
                     index))
  }

  /** The reference total of bucket j: the entries among the first m whose position i has i / n == j. */
  function BucketTotal(xs: seq<real>, n: nat, m: nat, j: int): real
    requires m <= |xs| && n >= 1
  {
    if m == 0 then 0.0
    else BucketTotal(xs, n, m - 1, j) + (if (m - 1) / n == j then xs[m - 1] else 0.0)
  }

  /** The same total with every entry rounded up first. */
  function BucketCeilTotal(xs: seq<real>, n: nat, m: nat, j: int): int
    requires m <= |xs| && n >= 1
  {
    if m == 0 then 0
    else BucketCeilTotal(xs, n, m - 1, j) + (if (m - 1) / n == j then Ceil(xs[m - 1]) else 0)
  }

  /** The per-bucket totals of the first m entries, bucket j holding the entries at positions i with i / n == j. */
  function BucketTotals(xs: seq<real>, n: nat, m: nat): (r: seq<real>)
    requires n >= 1 && m <= |xs|
    ensures |r| == BucketCount
    ensures forall j :: 0 <= j < BucketCount ==> r[j] == BucketTotal(xs, n, m, j)
  {
    seq(BucketCount, j requires 0 <= j < BucketCount => BucketTotal(xs, n, m, j))
  }

  /** The same totals with every entry rounded up first. */
  function BucketCeilTotals(xs: seq<real>, n: nat, m: nat): (r: seq<real>)
    requires n >= 1 && m <= |xs|
    ensures |r| == BucketCount
    ensures forall j :: 0 <= j < BucketCount ==> r[j] == BucketCeilTotal(xs, n, m, j) as real
  {
    seq(BucketCount, j requires 0 <= j < BucketCount => BucketCeilTotal(xs, n, m, j) as real)
  }

  /** The loop runs to the end exactly when n is positive, the last entry's bucket exists and ys is long enough. */
  predicate Fits(xs: seq<real>, ys: seq<real>, n: nat, m: nat) {
    m == 0 || (n >= 1 && (m - 1) / n < BucketCount && m <= |ys|)
  }

  lemma BucketIndexStep(i: nat, n: nat)
    requires n >= 1
    ensures i == 0 ==> i % n == 0 && i / n == 0
    ensures i >= 1 ==> (i % n == 0 ==> i / n == (i - 1) / n + 1) && (i % n != 0 ==> i / n == (i - 1) / n)
  {
    if i >= 1 {
      DivStep(i, n);
    }
  }

  /**
   * The loop fails exactly when the inputs do not fit, and otherwise the
   * current index is the bucket of the last entry, (m - 1) / n.
   */
  lemma {:induction false} NonOverlapFits(xs: seq<real>, ys: seq<real>, n: nat, acc: Accumulation, m: nat)
    requires m <= |xs|
    ensures NonOverlap(xs, ys, n, acc, m).Ok? <==> Fits(xs, ys, n, m)
    ensures NonOverlap(xs, ys, n, acc, m).Ok? && m >= 1 ==> NonOverlap(xs, ys, n, acc, m).value.index == (m - 1) / n
    decreases m
  {
    if m > 0 {
      NonOverlapFits(xs, ys, n, acc, m - 1);
      if n >= 1 {
        BucketIndexStep(m - 1, n);
        FitsShrinks(xs, ys, n, m);
      }
    }
  }

  /** An iteration whose index lands on bucket j updates bucket j of each list and nothing else. */
  lemma PlaceAt(b: Buckets, x: real, ys: seq<real>, i: nat, n: nat, acc: Accumulation, j: nat)
    requires |b.first| == BucketCount && |b.second| == BucketCount
    requires n >= 1 && j < BucketCount && i < |ys|
    requires j == if i % n == 0 then b.index + 1 else b.index
    ensures Place(b, x, ys, i, n, acc) ==
      var added := b.second[j] + ys[i];
      Ok(Buckets(b.first[j := b.first[j] + x], b.second[j := if acc.RoundUp? then Ceil(added) as real else added], j))
  {
    assert PyIndex(BucketCount, j) == Some(j);
  }

  lemma IndexAfter(bi: int, i: nat, n: nat)
    requires n >= 1
    requires i == 0 ==> bi == -1
    requires i >= 1 ==> bi == (i - 1) / n
    ensures (if i % n == 0 then bi + 1 else bi) == i / n
  {
    BucketIndexStep(i, n);
  }

  lemma NonOverlapStep(xs: seq<real>, ys: seq<real>, n: nat, acc: Accumulation, m: nat)
    requires 1 <= m <= |xs| && n >= 1 && NonOverlap(xs, ys, n, acc, m).Ok?
    ensures NonOverlap(xs, ys, n, acc, m - 1).Ok?
    ensures (m - 1) / n < BucketCount && m - 1 < |ys|
    ensures var b := NonOverlap(xs, ys, n, acc, m - 1).value;
      var j := (m - 1) / n;
      var added := b.second[j] + ys[m - 1];
      NonOverlap(xs, ys, n, acc, m).value.first == b.first[j := b.first[j] + xs[m - 1]] &&
      NonOverlap(xs, ys, n, acc, m).value.second == b.second[j := if acc.RoundUp? then Ceil(added) as real else added]
  {
    var b := NonOverlap(xs, ys, n, acc, m - 1).value;
    NonOverlapFits(xs, ys, n, acc, m - 1);
    IndexAfter(b.index, m - 1, n);
    var j := (m - 1) / n;
    assert NonOverlap(xs, ys, n, acc, m) == Place(b, xs[m - 1], ys, m - 1, n, acc);
    DivNonNeg(m - 1, n);
    assert j < BucketCount && m - 1 < |ys|;
    PlaceAt(b, xs[m - 1], ys, m - 1, n, acc, j);
    var added := b.second[j] + ys[m - 1];
    var r := NonOverlap(xs, ys, n, acc, m).value;
    assert r == Buckets(b.first[j := b.first[j] + xs[m - 1]], b.second[j := if acc.RoundUp? then Ceil(added) as real else added], j);
  }

  /** Bucket j of the first list holds the entries of xs whose position divided by n is j. */
  lemma {:induction false} NonOverlapFirst(xs: seq<real>, ys: seq<real>, n: nat, acc: Accumulation, m: nat)
    requires m <= |xs| && n >= 1 && NonOverlap(xs, ys, n, acc, m).Ok?
    ensures forall j :: 0 <= j < BucketCount ==> NonOverlap(xs, ys, n, acc, m).value.first[j] == BucketTotal(xs, n, m, j)
    decreases m
  {
    if m > 0 {
      NonOverlapStep(xs, ys, n, acc, m);
      NonOverlapFirst(xs, ys, n, acc, m - 1);
    }
  }

  /**
   * Bucket j of the second list holds the entries of ys whose position
   * divided by n is j: summed as they are, or each rounded up when the loop
   * rounds up.
   */
  lemma {:induction false} NonOverlapSecond(xs: seq<real>, ys: seq<real>, n: nat, acc: Accumulation, m: nat)
    requires m <= |xs| && n >= 1 && NonOverlap(xs, ys, n, acc, m).Ok?
    ensures acc.Plain? ==> forall j :: 0 <= j < BucketCount ==>
      NonOverlap(xs, ys, n, acc, m).value.second[j] == BucketTotal(ys, n, m, j)
    ensures acc.RoundUp? ==> forall j :: 0 <= j < BucketCount ==>
      NonOverlap(xs, ys, n, acc, m).value.second[j] == BucketCeilTotal(ys, n, m, j) as real
    decreases m
  {
    if m > 0 {
      NonOverlapStep(xs, ys, n, acc, m);
      NonOverlapSecond(xs, ys, n, acc, m - 1);
      if acc.RoundUp? {
        CeilShift(BucketCeilTotal(ys, n, m - 1, (m - 1) / n), ys[m - 1]);
      }
    }
  }

  /** A quotient is below a bound exactly when the dividend is below the bound times the divisor. */
  lemma QuotientBelow(a: nat, n: nat, bound: nat)
    requires n >= 1
    ensures a / n < bound <==> a < bound * n
  {
    var q := a / n;
    assert a == q * n + a % n;
    MulOrder(q, bound, n);
    MulOrder(bound, q, n);
  }

  /**
   * With n = m / 52560 periods per bucket, the first m entries fit exactly
   * when there are none, or a whole number of buckets' worth of them and
   * ys is long enough: any remainder spills past the last bucket.
   */
  lemma FitsWholeBuckets(xs: seq<real>, ys: seq<real>, m: nat)
    ensures Fits(xs, ys, PeriodsPerBucket(m), m) <==>
      m == 0 || (m >= BucketCount && m % BucketCount == 0 && |ys| >= m)
  {
    var n := PeriodsPerBucket(m);
    if m >= 1 && n >= 1 {
      QuotientBelow(m - 1, n, BucketCount);
      assert m == n * BucketCount + m % BucketCount;
    }
  }

  /** A loop that fits over m entries also fits over fewer. */
  lemma FitsShrinks(xs: seq<real>, ys: seq<real>, n: nat, m: nat)
    requires n >= 1 && m >= 1
    ensures Fits(xs, ys, n, m) ==> Fits(xs, ys, n, m - 1)
  {
    if m >= 2 {
      DivMonotone(m - 2, m - 1, n);
    }
  }

  lemma DivMonotone(a: nat, b: nat, n: nat)
    requires a <= b && n >= 1
    ensures a / n <= b / n
  {
    MulOrder(b / n, a / n, n);
  }

  /** Adding a whole number commutes with rounding up. */
  lemma CeilShift(k: int, y: real)
    ensures Ceil(k as real + y) == k + Ceil(y)
  {
  }

  /** The slice s[i:i+n] of Python, which stops at the end of the list. */
  function Window(s: seq<real>, i: nat, n: nat): (r: seq<real>)
    ensures i + n <= |s| ==> r == s[i..i + n]
    ensures |r| <= n
  {
    var lo := if i <= |s| then i else |s|;
    var hi := if i + n <= |s| then i + n else |s|;
    s[lo..hi]
  }

  /** How the sliding loop turns a window of the second series into one value. */
  datatype WindowValue =
    | CeilOfSum  // math.ceil(sum(pred[i:n+i]))
    | MeanOfSum  // sum(pred[i:n+i]) / float(n)

  /**
   * The sliding loop: for every position i of xs, the sum of xs[i:n+i] and
   * the value of ys[i:n+i]; dividing by a zero n raises ZeroDivisionError.
   */
  function Sliding(xs: seq<real>, ys: seq<real>, n: nat, value: WindowValue): (r: Result<(seq<real>, seq<real>)>)
    ensures r.Err? <==> value.MeanOfSum? && n == 0 && |xs| > 0
    ensures r.Err? ==> r.error == ZeroDivisionError
    ensures r.Ok? ==> |r.value.0| == |xs| && |r.value.1| == |xs|
    ensures r.Ok? ==> forall i :: 0 <= i < |xs| ==> r.value.0[i] == Sum(Window(xs, i, n))
    ensures r.Ok? && value.CeilOfSum? ==> forall i :: 0 <= i < |xs| ==>
      Sum(Window(ys, i, n)) <= r.value.1[i] < Sum(Window(ys, i, n)) + 1.0
    ensures r.Ok? && value.MeanOfSum? ==> forall i :: 0 <= i < |xs| ==>
      r.value.1[i] * n as real == Sum(Window(ys, i, n))
  {
    if value.MeanOfSum? && n == 0 && |xs| > 0 then Err(ZeroDivisionError)
    else
      Ok((seq(|xs|, i requires 0 <= i < |xs| => Sum(Window(xs, i, n))),
          seq(|xs|, i requires 0 <= i < |xs| =>
            if value.CeilOfSum? then Ceil(Sum(Window(ys, i, n))) as real else Sum(Window(ys, i, n)) / n as real)))
  }

  /**
   * A window that starts at a bucket boundary and fits in the list sums
   * exactly the entries of that bucket: the sliding and the
   * non-overlapping aggregates agree there.
   */
  lemma {:induction false} WindowIsBucket(xs: seq<real>, n: nat, j: nat, m: nat)
    requires n >= 1 && (j + 1) * n <= m <= |xs|
    ensures BucketTotal(xs, n, m, j) == Sum(Window(xs, j * n, n))
    decreases m
  {
    if m == (j + 1) * n {
      BucketPrefix(xs, n, j, m);
    } else {
      WindowIsBucket(xs, n, j, m - 1);
      AfterBucket(m - 1, n, j);
    }
  }

  /** Positions at or past the end of bucket j belong to a later bucket. */
  lemma AfterBucket(i: nat, n: nat, j: nat)
    requires n >= 1 && i >= (j + 1) * n
    ensures i / n != j
  {
    DivMonotone((j + 1) * n, i, n);
    DivUnique((j + 1) * n, n, j + 1, 0);
  }

  /** Positions of bucket j: from j * n up to (j + 1) * n. */
  lemma InBucket(i: nat, n: nat, j: nat)
    requires n >= 1 && j * n <= i < (j + 1) * n
    ensures i / n == j
  {
    DivUnique(i, n, j, i - j * n);
  }

  /** Positions before bucket j belong to an earlier bucket. */
  lemma BeforeBucket(i: nat, n: nat, j: nat)
    requires n >= 1 && i < j * n
    ensures i / n < j
  {
    var q := i / n;
    MulOrder(j - 1, q, n);
    assert i >= q * n;
  }

  /** Summed up to the end of bucket j, the bucket total is the sum of its own entries. */
  lemma {:induction false} BucketPrefix(xs: seq<real>, n: nat, j: nat, m: nat)
    requires n >= 1 && j * n <= m <= (j + 1) * n && m <= |xs|
    ensures BucketTotal(xs, n, m, j) == Sum(xs[j * n..m])
    decreases m
  {
    if m == j * n {
      BucketBefore(xs, n, j, m);
    } else {
      BucketPrefix(xs, n, j, m - 1);
      InBucket(m - 1, n, j);
      assert xs[j * n..m] == xs[j * n..m - 1] + [xs[m - 1]];
      SumAppend(xs[j * n..m - 1], [xs[m - 1]]);
    }
  }

  /** Before bucket j starts, its total is still zero. */
  lemma {:induction false} BucketBefore(xs: seq<real>, n: nat, j: nat, m: nat)
    requires n >= 1 && m <= j * n && m <= |xs|
    ensures BucketTotal(xs, n, m, j) == 0.0
    decreases m
  {
    if m > 0 {
      BucketBefore(xs, n, j, m - 1);
      BeforeBucket(m - 1, n, j);
    }
  }
}

/**
 * Integer conversions and sums with Python's semantics, written out for
 * Dafny's unbounded integers and exact reals.
 */
module Numeric {

  import opened Wrappers

  /** math.floor */
  function Floor(x: real): (r: int)
    ensures r as real <= x < r as real + 1.0
  {
    x.Floor
  }

  /** math.ceil */
  function Ceil(x: real): (r: int)
    ensures x <= r as real < x + 1.0
  {
    -((-x).Floor)
  }

  /** Python's int() on a float: truncation toward zero. */
  function Trunc(x: real): (r: int)
    ensures 0.0 <= x ==> r as real <= x < r as real + 1.0
    ensures x < 0.0 ==> x <= r as real < x + 1.0 && r <= 0
  {
    if x >= 0.0 then x.Floor else -((-x).Floor)
  }

  /** Python 2 integer division, which floors. */
  function FloorDiv(a: int, b: int): (r: int)
    requires b != 0
    ensures b > 0 ==> r * b <= a < r * b + b
    ensures b < 0 ==> r * b >= a > r * b + b
  {
    if b > 0 then a / b
    else if a % b == 0 then a / b
    else a / b - 1
  }

  function Max(a: int, b: int): int {
    if a >= b then a else b
  }

  function Min(a: int, b: int): int {
    if a <= b then a else b
  }

  function Sum(s: seq<real>): real
  {
    if |s| == 0 then 0.0 else Sum(s[..|s| - 1]) + s[|s| - 1]
  }

  function SumInt(s: seq<int>): int
  {
    if |s| == 0 then 0 else SumInt(s[..|s| - 1]) + s[|s| - 1]
  }

  lemma {:induction false} SumAppend(a: seq<real>, b: seq<real>)
    ensures Sum(a + b) == Sum(a) + Sum(b)
    decreases |b|
  {
    if |b| == 0 {
      assert a + b == a;
    } else {
      assert (a + b)[..|a + b| - 1] == a + b[..|b| - 1];
      SumAppend(a, b[..|b| - 1]);
    }
  }

  lemma {:induction false} SumIntAppend(a: seq<int>, b: seq<int>)
    ensures SumInt(a + b) == SumInt(a) + SumInt(b)
    decreases |b|
  {
    if |b| == 0 {
      assert a + b == a;
    } else {
      assert (a + b)[..|a + b| - 1] == a + b[..|b| - 1];
      SumIntAppend(a, b[..|b| - 1]);
    }
  }

  lemma SumCons(x: real, s: seq<real>)
    ensures Sum([x] + s) == x + Sum(s)
  {
    SumAppend([x], s);
    assert [x][..0] == [];
  }

  lemma {:induction false} SumBounds(s: seq<real>, lo: real, hi: real)
    requires forall i :: 0 <= i < |s| ==> lo <= s[i] <= hi
    ensures |s| as real * lo <= Sum(s) <= |s| as real * hi
    decreases |s|
  {
    if |s| > 0 {
      var n := |s| - 1;
      SumBounds(s[..n], lo, hi);
      assert s[n] == s[|s| - 1];
      assert |s| as real * lo == n as real * lo + lo;
      assert |s| as real * hi == n as real * hi + hi;
    }
  }

  /**
   * The element s[i] designates in Python, where a negative index counts from
   * the end; None when Python raises IndexError.
   */
  function PyIndex(len: nat, i: int): (r: Option<nat>)
    ensures r.Some? <==> 0 <= i + len && i < len
    ensures r.Some? ==> r.value < len && (r.value - i) % len == 0
  {
    if 0 <= i < len then Some(i)
    else if 0 <= i + len && i < 0 then Some(len + i)
    else None
  }

  /** The start position Python uses for the slice s[start:]. */
  function PySliceStart(len: nat, start: int): (r: nat)
    ensures r <= len
    ensures 0 <= start <= len ==> r == start
    ensures 0 <= start + len && start < 0 ==> r == len + start
    ensures start + len < 0 ==> r == 0
    ensures start > len ==> r == len
  {
    if start >= 0 then (if start <= len then start else len)
    else if len + start >= 0 then len + start
    else 0
  }

  /** Floor division by a positive n, moving from i - 1 to i: the quotient grows exactly at multiples of n. */
  lemma DivStep(i: nat, n: nat)
    requires n >= 1 && i >= 1
    ensures i % n == 0 ==> i / n == (i - 1) / n + 1
    ensures i % n != 0 ==> i / n == (i - 1) / n
  {
    var q := (i - 1) / n;
    var r := (i - 1) % n;
    assert i - 1 == q * n + r && 0 <= r < n;
    if r == n - 1 {
      assert i == (q + 1) * n;
      DivUnique(i, n, q + 1, 0);
    } else {
      assert i == q * n + (r + 1);
      DivUnique(i, n, q, r + 1);
    }
  }

  /** Division of a natural number by a positive one is a natural number. */
  lemma DivNonNeg(a: nat, n: nat)
    requires n >= 1
    ensures a / n >= 0
  {
  }

  /** The quotient and remainder are the only ones with a remainder in [0, n). */
  lemma DivUnique(a: int, n: int, q: int, r: int)
    requires n >= 1 && 0 <= r < n && a == q * n + r
    ensures a / n == q && a % n == r
  {
    var q' := a / n;
    var r' := a % n;
    assert a == q' * n + r';
    MulOrder(q, q', n);
    MulOrder(q', q, n);
  }

  lemma MulOrder(x: int, y: int, n: int)
    requires n >= 1
    ensures x < y ==> x * n + n <= y * n
  {
    if x < y {
      var d := y - x;
      AtLeastOnce(d, n);
      assert y * n == x * n + d * n;
    }
  }

  lemma {:induction false} AtLeastOnce(d: int, n: int)
    requires d >= 1 && n >= 1
    ensures d * n >= n
    decreases d
  {
    if d > 1 {
      AtLeastOnce(d - 1, n);
      assert d * n == (d - 1) * n + n;
    }
  }
}

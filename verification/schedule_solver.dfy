/**
 * The greedy VM-reservation schedule solver.  A capacity curve gives the
 * seats needed in each five-minute slot.  Each pass walks the curve once,
 * takes one VM's worth of seats (`density`) off every slot it consumes, and
 * reserves one VM over each maximal run of consecutive consumed slots.
 * Cover passes consume every slot still above zero and repeat while some
 * slot needs more than one VM; a final under pass consumes only the slots
 * that still need a whole VM.
 */
module ScheduleSolver {
  import opened Wrappers

  const SlotSeconds: int := 300

  /** One VM reserved from slot `startIndex` through slot `endIndex`, inclusive. */
  datatype Reservation = Reservation(startIndex: int, endIndex: int, density: int)

  /** get_time_in_seconds: the reservation's start and stop times, in seconds. */
  function TimeInSeconds(v: Reservation): (r: (int, int))
    ensures r.0 == v.startIndex * SlotSeconds
    ensures r.1 - r.0 == (v.endIndex - v.startIndex + 1) * SlotSeconds
  {
    (v.startIndex * SlotSeconds, (v.endIndex + 1) * SlotSeconds)
  }

  // ---------------------------------------------------------------------
  // One pass

  /** A pass with threshold `t` consumes the slots whose remaining need is at least t. */
  predicate Consumed(req: seq<int>, t: int, k: int)
    requires 0 <= k < |req|
  {
    req[k] >= t
  }

  /** The curve after a pass: consumed slots lose `d` seats, the others keep theirs. */
  function Lowered(req: seq<int>, t: int, d: int): (r: seq<int>)
    ensures |r| == |req|
    ensures forall k :: 0 <= k < |req| ==> r[k] == (if req[k] >= t then req[k] - d else req[k])
  {
    seq(|req|, k requires 0 <= k < |req| => if req[k] >= t then req[k] - d else req[k])
  }

  /**
   * The reservations a pass appends, from slot i onward; `open` holds the
   * start of the run in progress.  A run closes at the first slot that is
   * not consumed, or at the end of the curve, and ends at the slot before.
   */
  function Scan(req: seq<int>, t: int, d: int, i: nat, open: Option<nat>): (r: seq<Reservation>)
    requires i <= |req| && (open.Some? ==> open.value < i)
    decreases |req| - i
  {
    if i == |req| then
      if open.Some? then [Reservation(open.value, i - 1, d)] else []
    else if req[i] >= t then
      Scan(req, t, d, i + 1, if open.Some? then open else Some(i))
    else if open.Some? then
      [Reservation(open.value, i - 1, d)] + Scan(req, t, d, i + 1, None)
    else
      Scan(req, t, d, i + 1, None)
  }

  /** How many reservations of a schedule cover slot k. */
  function CoverCount(s: seq<Reservation>, k: int): (r: nat)
    ensures r <= |s|
  {
    if |s| == 0 then 0
    else (if s[0].startIndex <= k <= s[0].endIndex then 1 else 0) + CoverCount(s[1..], k)
  }

  lemma {:induction false} CoverCountAppend(a: seq<Reservation>, b: seq<Reservation>, k: int)
    ensures CoverCount(a + b, k) == CoverCount(a, k) + CoverCount(b, k)
    decreases |a|
  {
    if |a| > 0 {
      assert (a + b)[0] == a[0];
      assert (a + b)[1..] == a[1..] + b;
      CoverCountAppend(a[1..], b, k);
    } else {
      assert a + b == b;
    }
  }

  /** Every reservation spans at least one slot inside the curve and carries the density. */
  predicate InRange(s: seq<Reservation>, n: int, d: int) {
    forall a :: 0 <= a < |s| ==>
      0 <= s[a].startIndex <= s[a].endIndex < n && s[a].density == d
  }

  /** Reservations come in slot order, with at least one unreserved slot between two of them. */
  predicate Separated(s: seq<Reservation>) {
    forall a, b :: 0 <= a < b < |s| ==> s[a].endIndex + 1 < s[b].startIndex
  }

  /** Whether slot k is in the run in progress or consumed at or after i. */
  predicate Claimed(req: seq<int>, t: int, i: nat, open: Option<nat>, k: int)
    requires 0 <= k < |req|
  {
    (i <= k && Consumed(req, t, k)) || (open.Some? && open.value <= k < i)
  }

  /** The scan reserves each claimed slot exactly once and no other slot. */
  lemma {:induction false} ScanCounts(req: seq<int>, t: int, d: int, i: nat, open: Option<nat>)
    requires i <= |req| && (open.Some? ==> open.value < i)
    ensures forall k :: 0 <= k < |req| ==>
      CoverCount(Scan(req, t, d, i, open), k) == if Claimed(req, t, i, open, k) then 1 else 0
    decreases |req| - i
  {
    var s := Scan(req, t, d, i, open);
    if i == |req| {
    } else if req[i] >= t {
      var open' := if open.Some? then open else Some(i);
      ScanCounts(req, t, d, i + 1, open');
    } else if open.Some? {
      var rest := Scan(req, t, d, i + 1, None);
      ScanCounts(req, t, d, i + 1, None);
      forall k | 0 <= k < |req|
        ensures CoverCount(s, k) == if Claimed(req, t, i, open, k) then 1 else 0
      {
        CoverCountAppend([Reservation(open.value, i - 1, d)], rest, k);
      }
    } else {
      ScanCounts(req, t, d, i + 1, None);
    }
  }

  /** The scan's reservations lie in the curve and start no earlier than the run in progress or slot i. */
  lemma {:induction false} ScanInRange(req: seq<int>, t: int, d: int, i: nat, open: Option<nat>)
    requires i <= |req| && (open.Some? ==> open.value < i)
    ensures InRange(Scan(req, t, d, i, open), |req|, d)
    ensures forall a :: 0 <= a < |Scan(req, t, d, i, open)| ==>
      Scan(req, t, d, i, open)[a].startIndex >= (if open.Some? then open.value else i)
    decreases |req| - i
  {
    if i == |req| {
    } else if req[i] >= t {
      ScanInRange(req, t, d, i + 1, if open.Some? then open else Some(i));
    } else if open.Some? {
      var rest := Scan(req, t, d, i + 1, None);
      ScanInRange(req, t, d, i + 1, None);
      assert Scan(req, t, d, i, open) == [Reservation(open.value, i - 1, d)] + rest;
    } else {
      ScanInRange(req, t, d, i + 1, None);
    }
  }

  /** The scan's reservations come in slot order with a gap between any two. */
  lemma {:induction false} ScanSeparated(req: seq<int>, t: int, d: int, i: nat, open: Option<nat>)
    requires i <= |req| && (open.Some? ==> open.value < i)
    ensures Separated(Scan(req, t, d, i, open))
    decreases |req| - i
  {
    if i == |req| {
    } else if req[i] >= t {
      ScanSeparated(req, t, d, i + 1, if open.Some? then open else Some(i));
    } else if open.Some? {
      var rest := Scan(req, t, d, i + 1, None);
      ScanSeparated(req, t, d, i + 1, None);
      ScanInRange(req, t, d, i + 1, None);
      SeparatedCons(Reservation(open.value, i - 1, d), rest);
    } else {
      ScanSeparated(req, t, d, i + 1, None);
    }
  }

  /** A reservation ending two slots before every later one keeps the schedule separated. */
  lemma SeparatedCons(x: Reservation, rest: seq<Reservation>)
    requires Separated(rest)
    requires forall a :: 0 <= a < |rest| ==> rest[a].startIndex >= x.endIndex + 2
    ensures Separated([x] + rest)
  {
    var s := [x] + rest;
    forall a, b | 0 <= a < b < |s|
      ensures s[a].endIndex + 1 < s[b].startIndex
    {
      assert s[b] == rest[b - 1];
      if a > 0 {
        assert s[a] == rest[a - 1];
      }
    }
  }

  /** A whole pass: the lowered curve and the reservations it appends. */
  datatype PassOutcome = PassOutcome(required: seq<int>, reserved: seq<Reservation>)

  /**
   * A pass with threshold t: the cover pass uses t = 1 (slots above zero;
   * the curve holds integers), the under pass t = density.
   */
  function Pass(req: seq<int>, t: int, d: int): (r: PassOutcome)
    ensures |r.required| == |req|
    ensures InRange(r.reserved, |req|, d) && Separated(r.reserved)
    ensures forall k :: 0 <= k < |req| ==>
      CoverCount(r.reserved, k) == (if req[k] >= t then 1 else 0) &&
      r.required[k] == req[k] - d * CoverCount(r.reserved, k)
  {
    ScanCounts(req, t, d, 0, None);
    ScanInRange(req, t, d, 0, None);
    ScanSeparated(req, t, d, 0, None);
    PassOutcome(Lowered(req, t, d), Scan(req, t, d, 0, None))
  }

  // ---------------------------------------------------------------------
  // The solver

  /** Python's max over a non-empty list. */
  function Max(s: seq<int>): (r: int)
    requires |s| > 0
    ensures forall k :: 0 <= k < |s| ==> s[k] <= r
    ensures exists k :: 0 <= k < |s| && s[k] == r
  {
    if |s| == 1 then s[0]
    else
      var m := Max(s[1..]);
      assert forall k :: 1 <= k < |s| ==> s[k] == s[1..][k - 1];
      if s[0] >= m then s[0] else m
  }

  /** A cover pass over a curve whose peak m exceeds d >= 1 brings every slot to at most m - d. */
  lemma CoverLowersPeak(req: seq<int>, d: int)
    requires |req| > 0 && d >= 1 && Max(req) > d
    ensures Max(Pass(req, 1, d).required) <= Max(req) - d
  {
    var p := Pass(req, 1, d).required;
    assert forall k :: 0 <= k < |p| ==> p[k] <= Max(req) - d;
  }

  /** The inputs on which the cover loop terminates: it only loops when density is positive. */
  predicate Solvable(curve: seq<int>, d: int) {
    |curve| == 0 || Max(curve) <= d || d >= 1
  }

  /** The loop of cover passes, while some slot needs more than one VM. */
  function CoverLoop(req: seq<int>, d: int): (r: PassOutcome)
    requires |req| > 0 && Solvable(req, d)
    ensures |r.required| == |req|
    decreases Max(req)
  {
    if Max(req) > d then
      var p := Pass(req, 1, d);
      CoverLowersPeak(req, d);
      var rest := CoverLoop(p.required, d);
      PassOutcome(rest.required, p.reserved + rest.reserved)
  else
      PassOutcome(req, [])
  }

  /**
   * What the solver keeps: each slot's remaining need is its original need
   * less one VM's worth per reservation covering it, every reservation
   * carries the density, and a slot that needed nothing is never reserved.
   */
  predicate Accounts(curve: seq<int>, d: int, r: PassOutcome) {
    |r.required| == |curve| && InRange(r.reserved, |curve|, d) &&
    forall k :: 0 <= k < |curve| ==>
      r.required[k] == curve[k] - d * CoverCount(r.reserved, k) &&
      (curve[k] <= 0 ==> CoverCount(r.reserved, k) == 0) &&
      (curve[k] > 0 ==> r.required[k] >= 1 - d)
  }

  /** Accounting carries over one more pass. */
  lemma PassAccounts(curve: seq<int>, d: int, mid: PassOutcome, t: int)
    requires d >= 1 && t >= 1 && Accounts(curve, d, mid)
    ensures Accounts(curve, d, PassOutcome(Pass(mid.required, t, d).required,
                                         mid.reserved + Pass(mid.required, t, d).reserved))
  {
    var p := Pass(mid.required, t, d);
    var s := mid.reserved + p.reserved;
    forall k | 0 <= k < |curve|
      ensures p.required[k] == curve[k] - d * CoverCount(s, k)
      ensures curve[k] <= 0 ==> CoverCount(s, k) == 0
      ensures curve[k] > 0 ==> p.required[k] >= 1 - d
    {
      CoverCountAppend(mid.reserved, p.reserved, k);
      Distribute(d, CoverCount(mid.reserved, k), CoverCount(p.reserved, k));
    }
  }

  lemma Distribute(d: int, a: int, b: int)
    ensures d * (a + b) == d * a + d * b
  {
  }

  lemma {:induction false} CoverLoopAccounts(curve: seq<int>, d: int, req: seq<int>, acc: PassOutcome)
    requires |req| > 0 && d >= 1 && Accounts(curve, d, acc) && acc.required == req
    ensures Accounts(curve, d, PassOutcome(CoverLoop(req, d).required, acc.reserved + CoverLoop(req, d).reserved))
    ensures forall k :: 0 <= k < |req| ==> CoverLoop(req, d).required[k] <= d
    decreases Max(req)
  {
    if Max(req) > d {
      var p := Pass(req, 1, d);
      CoverLowersPeak(req, d);
      PassAccounts(curve, d, acc, 1);
      var acc' := PassOutcome(p.required, acc.reserved + p.reserved);
      CoverLoopAccounts(curve, d, p.required, acc');
      var rest := CoverLoop(p.required, d);
      assert CoverLoop(req, d) == PassOutcome(rest.required, p.reserved + rest.reserved);
      Regroup(acc.reserved, p.reserved, rest.reserved);
    } else {
      assert CoverLoop(req, d) == PassOutcome(req, []);
      assert acc.reserved + [] == acc.reserved;
    }
  }

  lemma Regroup(a: seq<Reservation>, b: seq<Reservation>, c: seq<Reservation>)
    ensures (a + b) + c == a + (b + c)
  {
  }

  /**
   * solve: an empty curve makes max raise ValueError; otherwise cover passes
   * while the peak exceeds the density, then one under pass if any slot
   * still needs seats.  The caller's curve is a value and is not changed.
   */
  function Solve(curve: seq<int>, d: int): (r: Result<PassOutcome>)
    requires Solvable(curve, d)
    ensures r.Err? <==> |curve| == 0
    ensures r.Err? ==> r.error == ValueError
    ensures r.Ok? ==> |r.value.required| == |curve|
  {
    if |curve| == 0 then Err(ValueError)
    else
      var c := CoverLoop(curve, d);
      if Max(c.required) > 0 then
        var u := Pass(c.required, d, d);
        Ok(PassOutcome(u.required, c.reserved + u.reserved))
      else Ok(c)
  }

  /**
   * For a positive density the schedule accounts for every slot: each
   * reservation has the density and lies in the curve, slots needing
   * nothing get none, and every slot ends with less than one VM's worth
   * of need left uncovered and, if it needed seats, less than one VM's
   * worth of seats to spare.
   */
  lemma SolveCovers(curve: seq<int>, d: int)
    requires |curve| > 0 && d >= 1
    ensures Solve(curve, d).Ok?
    ensures Accounts(curve, d, Solve(curve, d).value)
    ensures forall k :: 0 <= k < |curve| ==> Solve(curve, d).value.required[k] < d
  {
    var c := CoverLoop(curve, d);
    CoverLoopFromStart(curve, d);
    if Max(c.required) > 0 {
      PassAccounts(curve, d, c, d);
    } else {
      assert forall k :: 0 <= k < |curve| ==> c.required[k] <= 0;
    }
  }

  /** The cover loop run on the whole curve accounts for it and leaves at most d per slot. */
  lemma CoverLoopFromStart(curve: seq<int>, d: int)
    requires |curve| > 0 && d >= 1
    ensures Accounts(curve, d, CoverLoop(curve, d))
    ensures forall k :: 0 <= k < |curve| ==> CoverLoop(curve, d).required[k] <= d
  {
    var acc := PassOutcome(curve, []);
    assert Accounts(curve, d, acc);
    CoverLoopAccounts(curve, d, curve, acc);
    var c := CoverLoop(curve, d);
    assert acc.reserved + c.reserved == c.reserved;
  }
}

/**
 * The transition table of the Markov model of an elastic cluster: a state
 * (n; s; q) holds n customers, s servers and q inactive servers.  Each row of
 * the table lists, for every state in enumeration order, the probability of
 * moving there in one period; the Poisson arrival and departure terms are
 * passed in as functions.
 */
module Markov {
  import opened Wrappers
  import opened Numeric

  /**
   * The module globals that bound the state space: MAX_CUSTOMERS,
   * MAX_SERVERS and MAX_Q, where a MAX_Q of None means MAX_SERVERS.
   */
  datatype Limits = Limits(customers: nat, servers: nat, queue: Option<nat>)

  /** The values the program sets. */
  const Globals: Limits := Limits(25, 25, Some(5))

  /** R, the number of servers kept in reserve above the customer count. */
  const Reserve: nat := 1

  datatype State = State(n: int, s: int, q: int)

  /** The bound of the q loop: MAX_Q, or MAX_SERVERS when MAX_Q is None. */
  function QBound(lim: Limits): (r: nat)
    ensures lim.queue.Some? ==> r == lim.queue.value
    ensures lim.queue.None? ==> r == lim.servers
  {
    match lim.queue
    case Some(b) => b
    case None => lim.servers
  }

  /** The states State.all enumerates. */
  predicate Valid(st: State, lim: Limits) {
    0 <= st.n <= lim.customers && 1 <= st.s <= lim.servers && 0 <= st.q <= QBound(lim)
  }

  /** The innermost loop: q from q0 up to the q bound. */
  function ForQ(lim: Limits, n: int, s: int, q0: nat): (r: seq<State>)
    decreases QBound(lim) + 1 - q0
  {
    if q0 > QBound(lim) then [] else [State(n, s, q0)] + ForQ(lim, n, s, q0 + 1)
  }

  /** The middle loop: s from s0 up to MAX_SERVERS. */
  function ForS(lim: Limits, n: int, s0: nat): (r: seq<State>)
    decreases lim.servers + 1 - s0
  {
    if s0 > lim.servers then [] else ForQ(lim, n, s0, 0) + ForS(lim, n, s0 + 1)
  }

  /** The outer loop: n from n0 up to MAX_CUSTOMERS. */
  function ForN(lim: Limits, n0: nat): (r: seq<State>)
    decreases lim.customers + 1 - n0
  {
    if n0 > lim.customers then [] else ForS(lim, n0, 1) + ForN(lim, n0 + 1)
  }

  /** State.all() under the given globals. */
  function AllStates(lim: Limits): (r: seq<State>)
  {
    ForN(lim, 0)
  }

  /** The nesting order: by n, then by s, then by q. */
  predicate Before(a: State, b: State) {
    a.n < b.n || (a.n == b.n && (a.s < b.s || (a.s == b.s && a.q < b.q)))
  }

  predicate Ascending(xs: seq<State>) {
    forall i, j :: 0 <= i < j < |xs| ==> Before(xs[i], xs[j])
  }

  /** Every state of a comes before every state of b. */
  predicate AllBefore(a: seq<State>, b: seq<State>) {
    forall i, j :: 0 <= i < |a| && 0 <= j < |b| ==> Before(a[i], b[j])
  }

  lemma AscendingConcat(a: seq<State>, b: seq<State>)
    requires Ascending(a) && Ascending(b)
    requires AllBefore(a, b)
    ensures Ascending(a + b)
  {
    forall i, j | 0 <= i < j < |a + b|
      ensures Before((a + b)[i], (a + b)[j])
    {
      if j < |a| {
      } else if i >= |a| {
        assert (a + b)[i] == b[i - |a|] && (a + b)[j] == b[j - |a|];
      } else {
        assert (a + b)[j] == b[j - |a|];
      }
    }
  }

  /** k blocks of w states each. */
  function Blocks(k: nat, w: nat): nat {
    if k == 0 then 0 else w + Blocks(k - 1, w)
  }

  lemma {:induction false} BlocksProduct(k: nat, w: nat)
    ensures Blocks(k, w) == k * w
    decreases k
  {
    if k > 0 {
      BlocksProduct(k - 1, w);
      assert k * w == w + (k - 1) * w;
    }
  }

  lemma {:induction false} ForQShape(lim: Limits, n: int, s: int, q0: nat)
    requires q0 <= QBound(lim) + 1
    ensures |ForQ(lim, n, s, q0)| == QBound(lim) + 1 - q0
    ensures forall st :: st in ForQ(lim, n, s, q0) <==> st.n == n && st.s == s && q0 <= st.q <= QBound(lim)
    ensures Ascending(ForQ(lim, n, s, q0))
    decreases QBound(lim) + 1 - q0
  {
    if q0 <= QBound(lim) {
      var rest := ForQ(lim, n, s, q0 + 1);
      ForQShape(lim, n, s, q0 + 1);
      AscendingConcat([State(n, s, q0)], rest);
    }
  }

  lemma {:induction false} ForSLength(lim: Limits, n: int, s0: nat)
    requires 1 <= s0 <= lim.servers + 1
    ensures |ForS(lim, n, s0)| == Blocks(lim.servers + 1 - s0, QBound(lim) + 1)
    decreases lim.servers + 1 - s0
  {
    if s0 <= lim.servers {
      ForQShape(lim, n, s0, 0);
      ForSLength(lim, n, s0 + 1);
    }
  }

  lemma {:induction false} ForSMembers(lim: Limits, n: int, s0: nat)
    requires 1 <= s0 <= lim.servers + 1
    ensures forall st :: st in ForS(lim, n, s0) <==> st.n == n && s0 <= st.s <= lim.servers && 0 <= st.q <= QBound(lim)
    decreases lim.servers + 1 - s0
  {
    if s0 <= lim.servers {
      ForQShape(lim, n, s0, 0);
      ForSMembers(lim, n, s0 + 1);
    }
  }

  lemma {:induction false} ForSAscending(lim: Limits, n: int, s0: nat)
    requires 1 <= s0 <= lim.servers + 1
    ensures Ascending(ForS(lim, n, s0))
    decreases lim.servers + 1 - s0
  {
    if s0 <= lim.servers {
      var head := ForQ(lim, n, s0, 0);
      var rest := ForS(lim, n, s0 + 1);
      ForQShape(lim, n, s0, 0);
      ForSMembers(lim, n, s0 + 1);
      ForSAscending(lim, n, s0 + 1);
      forall i, j | 0 <= i < |head| && 0 <= j < |rest|
        ensures Before(head[i], rest[j])
      {
        assert head[i] in head && rest[j] in rest;
      }
      AscendingConcat(head, rest);
    }
  }

  lemma {:induction false} ForNLength(lim: Limits, n0: nat)
    requires n0 <= lim.customers + 1
    ensures |ForN(lim, n0)| == Blocks(lim.customers + 1 - n0, Blocks(lim.servers, QBound(lim) + 1))
    decreases lim.customers + 1 - n0
  {
    if n0 <= lim.customers {
      ForSLength(lim, n0, 1);
      ForNLength(lim, n0 + 1);
    }
  }

  lemma {:induction false} ForNMembers(lim: Limits, n0: nat)
    requires n0 <= lim.customers + 1
    ensures forall st :: st in ForN(lim, n0) <==> n0 <= st.n && Valid(st, lim)
    decreases lim.customers + 1 - n0
  {
    if n0 <= lim.customers {
      ForSMembers(lim, n0, 1);
      ForNMembers(lim, n0 + 1);
    }
  }

  lemma {:induction false} ForNAscending(lim: Limits, n0: nat)
    requires n0 <= lim.customers + 1
    ensures Ascending(ForN(lim, n0))
    decreases lim.customers + 1 - n0
  {
    if n0 <= lim.customers {
      ForSAscending(lim, n0, 1);
      ForNAscending(lim, n0 + 1);
      CustomersBefore(lim, n0);
      AscendingConcat(ForS(lim, n0, 1), ForN(lim, n0 + 1));
    }
  }

  /** Every state of the block for n0 customers comes before every state with more customers. */
  lemma CustomersBefore(lim: Limits, n0: nat)
    requires n0 <= lim.customers
    ensures AllBefore(ForS(lim, n0, 1), ForN(lim, n0 + 1))
  {
    var head := ForS(lim, n0, 1);
    var rest := ForN(lim, n0 + 1);
    ForSMembers(lim, n0, 1);
    ForNMembers(lim, n0 + 1);
    forall i, j | 0 <= i < |head| && 0 <= j < |rest|
      ensures Before(head[i], rest[j])
    {
      assert head[i] in head && rest[j] in rest;
    }
  }

  /**
   * State.all yields (MAX_CUSTOMERS+1)·MAX_SERVERS·(MAX_Q+1) states: exactly
   * the valid ones, each once, in n, s, q nesting order.
   */
  lemma AllStatesOrder(lim: Limits)
    ensures |AllStates(lim)| == (lim.customers + 1) * (lim.servers * (QBound(lim) + 1))
    ensures forall st :: st in AllStates(lim) <==> Valid(st, lim)
    ensures Ascending(AllStates(lim))
  {
    ForNLength(lim, 0);
    ForNMembers(lim, 0);
    ForNAscending(lim, 0);
    BlocksProduct(lim.servers, QBound(lim) + 1);
    BlocksProduct(lim.customers + 1, Blocks(lim.servers, QBound(lim) + 1));
  }

  /** The customers in service: min(n, s). */
  function InService(st: State): (r: int)
    ensures r <= st.n && r <= st.s
    ensures r == st.n || r == st.s
  {
    if st.n >= st.s then st.s else st.n
  }

  /** The waiting customers of a state: max(n − s, 0). */
  function QueueLength(st: State): (r: nat)
    ensures r >= st.n - st.s
    ensures r == 0 || r == st.n - st.s
  {
    if st.n - st.s >= 0 then st.n - st.s else 0
  }

  /** The idle seats of a state: max(s − n, 0). */
  function UnusedSeats(st: State): (r: nat)
    ensures r >= st.s - st.n
    ensures r == 0 || r == st.s - st.n
  {
    if st.s - st.n >= 0 then st.s - st.n else 0
  }

  /**
   * The customers split into those in service and those waiting, the servers
   * into busy and idle ones, and a state never both queues and idles.
   */
  lemma StateBalance(st: State)
    ensures InService(st) + QueueLength(st) == st.n
    ensures InService(st) + UnusedSeats(st) == st.s
    ensures QueueLength(st) == 0 || UnusedSeats(st) == 0
  {
  }

  /** The utilization of a state, (s − unused seats) / s. */
  function StateUtilization(st: State): (r: real)
    requires st.s > 0
    ensures st.n >= 0 ==> 0.0 <= r <= 1.0
    ensures r * st.s as real == InService(st) as real
  {
    (st.s - UnusedSeats(st)) as real / st.s as real
  }

  /**
   * write_non_zero_value: over every number of departures d from 0 to the
   * customers in service, the probability of change_in_n + d arrivals times
   * that of d departures, leaving out the terms that need negative arrivals.
   */
  function NonZeroValue(changeInN: int, inService: int, arrivals: nat -> real, departures: (nat, nat) -> real): (r: Result<real>)
    ensures r.Err? <==> inService < 0
    ensures r.Err? ==> r.error == RuntimeError
  {
    if inService < 0 then Err(RuntimeError)
    else Ok(DepartureTerms(changeInN, inService, inService + 1, arrivals, departures))
  }

  /** The sum of the terms for departure counts below `upTo`. */
  function DepartureTerms(changeInN: int, inService: nat, upTo: nat, arrivals: nat -> real, departures: (nat, nat) -> real): real
  {
    if upTo == 0 then 0.0
    else
      var d := upTo - 1;
      DepartureTerms(changeInN, inService, d, arrivals, departures) +
        (if changeInN + d < 0 then 0.0 else arrivals(changeInN + d) * departures(d, inService))
  }

  ghost predicate Probabilities(arrivals: nat -> real, departures: (nat, nat) -> real) {
    (forall a :: arrivals(a) >= 0.0) && (forall d, c :: departures(d, c) >= 0.0)
  }

  lemma {:induction false} DepartureTermsShape(changeInN: int, inService: nat, upTo: nat, arrivals: nat -> real, departures: (nat, nat) -> real)
    ensures changeInN + upTo <= 0 ==> DepartureTerms(changeInN, inService, upTo, arrivals, departures) == 0.0
    ensures Probabilities(arrivals, departures) ==> DepartureTerms(changeInN, inService, upTo, arrivals, departures) >= 0.0
    decreases upTo
  {
    if upTo > 0 {
      DepartureTermsShape(changeInN, inService, upTo - 1, arrivals, departures);
    }
  }

  /**
   * A transition that would need more departures than there are customers in
   * service is impossible, and with probabilities as terms the value is never
   * negative.
   */
  lemma NonZeroValueShape(changeInN: int, inService: nat, arrivals: nat -> real, departures: (nat, nat) -> real)
    ensures changeInN + inService < 0 ==> NonZeroValue(changeInN, inService, arrivals, departures) == Ok(0.0)
    ensures Probabilities(arrivals, departures) ==> NonZeroValue(changeInN, inService, arrivals, departures).value >= 0.0
  {
    DepartureTermsShape(changeInN, inService, inService + 1, arrivals, departures);
  }

  /** The server count a row requires of the next state: one more than its customers. */
  function RequiredNextS(current: State): int {
    current.n + Reserve
  }

  /** The inactive servers a row requires of the next state: |min(n + R − s, 0)|. */
  function RequiredNextQ(current: State): (r: nat)
    ensures r == Max(current.s - RequiredNextS(current), 0)
  {
    var change := RequiredNextS(current) - current.s;
    if change < 0 then -change else 0
  }

  /**
   * One entry of a row: zero unless the next state has the required servers
   * and inactive servers, otherwise write_non_zero_value.
   */
  function Entry(current: State, next: State, arrivals: nat -> real, departures: (nat, nat) -> real): (r: Result<real>)
    ensures r.Err? <==> next.s == RequiredNextS(current) && next.q == RequiredNextQ(current) && InService(current) < 0
  {
    if next.s != RequiredNextS(current) || next.q != RequiredNextQ(current) then Ok(0.0)
    else NonZeroValue(next.n - current.n, InService(current), arrivals, departures)
  }

  /** The entries of a row for the next states `nexts`, in order; the first RuntimeError ends it. */
  function Entries(current: State, nexts: seq<State>, arrivals: nat -> real, departures: (nat, nat) -> real): (r: Result<seq<real>>)
    decreases |nexts|
  {
    if |nexts| == 0 then Ok([])
    else
      match Entries(current, nexts[..|nexts| - 1], arrivals, departures)
      case Err(e) => Err(e)
      case Ok(prefix) =>
        match Entry(current, nexts[|nexts| - 1], arrivals, departures)
        case Err(e) => Err(e)
        case Ok(v) => Ok(prefix + [v])
  }

  /** The entries are computed state by state: the row fails exactly when some entry does. */
  lemma {:induction false} EntriesPointwise(current: State, nexts: seq<State>, arrivals: nat -> real, departures: (nat, nat) -> real)
    ensures Entries(current, nexts, arrivals, departures).Ok? <==>
      forall k :: 0 <= k < |nexts| ==> Entry(current, nexts[k], arrivals, departures).Ok?
    ensures Entries(current, nexts, arrivals, departures).Ok? ==>
      |Entries(current, nexts, arrivals, departures).value| == |nexts| &&
      forall k :: 0 <= k < |nexts| ==>
        Entries(current, nexts, arrivals, departures).value[k] == Entry(current, nexts[k], arrivals, departures).value
    decreases |nexts|
  {
    if |nexts| > 0 {
      var p := nexts[..|nexts| - 1];
      EntriesPointwise(current, p, arrivals, departures);
      assert forall k :: 0 <= k < |p| ==> p[k] == nexts[k];
    }
  }

  /** write_row: one entry for every state of State.all, in enumeration order. */
  function Row(current: State, lim: Limits, arrivals: nat -> real, departures: (nat, nat) -> real): (r: Result<seq<real>>)
  {
    Entries(current, AllStates(lim), arrivals, departures)
  }

  /**
   * A row with a non-negative customer and server count is complete, one
   * entry per state; with probabilities as terms no entry is negative.
   */
  lemma RowComplete(current: State, lim: Limits, arrivals: nat -> real, departures: (nat, nat) -> real)
    requires current.n >= 0 && current.s >= 0
    ensures Row(current, lim, arrivals, departures).Ok?
    ensures |Row(current, lim, arrivals, departures).value| == |AllStates(lim)|
    ensures Probabilities(arrivals, departures) ==>
      forall k :: 0 <= k < |AllStates(lim)| ==> Row(current, lim, arrivals, departures).value[k] >= 0.0
  {
    var states := AllStates(lim);
    EntriesPointwise(current, states, arrivals, departures);
    forall k | 0 <= k < |states|
      ensures Entry(current, states[k], arrivals, departures).Ok?
      ensures Probabilities(arrivals, departures) ==> Entry(current, states[k], arrivals, departures).value >= 0.0
    {
      NonZeroValueShape(states[k].n - current.n, InService(current), arrivals, departures);
    }
  }

  /**
   * The sparsity rule: an entry can be non-zero only for a next state with
   * n + R servers and |min(n + R − s, 0)| inactive ones.
   */
  lemma RowSparsity(current: State, lim: Limits, arrivals: nat -> real, departures: (nat, nat) -> real, k: nat)
    requires Row(current, lim, arrivals, departures).Ok?
    requires k < |AllStates(lim)|
    ensures |Row(current, lim, arrivals, departures).value| == |AllStates(lim)|
    ensures var next := AllStates(lim)[k];
      Row(current, lim, arrivals, departures).value[k] != 0.0 ==>
        next.s == current.n + Reserve && next.q == Max(current.s - current.n - Reserve, 0)
  {
    EntriesPointwise(current, AllStates(lim), arrivals, departures);
  }

  /**
   * A state with MAX_CUSTOMERS customers would need MAX_CUSTOMERS + R servers,
   * which is more than any state has under the program's globals, so its row
   * is all zeros.
   */
  lemma FullStateRowZero(current: State, lim: Limits, arrivals: nat -> real, departures: (nat, nat) -> real)
    requires current.n == lim.customers && lim.servers < lim.customers + Reserve && current.s >= 0
    ensures Row(current, lim, arrivals, departures).Ok?
    ensures |Row(current, lim, arrivals, departures).value| == |AllStates(lim)|
    ensures forall k :: 0 <= k < |AllStates(lim)| ==> Row(current, lim, arrivals, departures).value[k] == 0.0
  {
    var states := AllStates(lim);
    RowComplete(current, lim, arrivals, departures);
    EntriesPointwise(current, states, arrivals, departures);
    AllStatesOrder(lim);
    forall k | 0 <= k < |states|
      ensures Row(current, lim, arrivals, departures).value[k] == 0.0
    {
      assert states[k] in states;
    }
  }

  /** The row of a state that has customers and servers to count, which always completes. */
  function CompleteRow(current: State, lim: Limits, arrivals: nat -> real, departures: (nat, nat) -> real): (r: seq<real>)
    requires current.n >= 0 && current.s >= 0
    ensures Row(current, lim, arrivals, departures) == Ok(r)
    ensures |r| == |AllStates(lim)|
  {
    RowComplete(current, lim, arrivals, departures);
    Row(current, lim, arrivals, departures).value
  }

  /** The table TableMaker.run builds: one row per state, in enumeration order, all of equal length. */
  function Table(lim: Limits, arrivals: nat -> real, departures: (nat, nat) -> real): (r: seq<seq<real>>)
    ensures |r| == |AllStates(lim)|
    ensures forall i :: 0 <= i < |r| ==> Row(AllStates(lim)[i], lim, arrivals, departures) == Ok(r[i])
    ensures forall i :: 0 <= i < |r| ==> |r[i]| == |AllStates(lim)|
  {
    var states := AllStates(lim);
    AllStatesOrder(lim);
    seq(|states|, i requires 0 <= i < |states| =>
      assert states[i] in states;
      CompleteRow(states[i], lim, arrivals, departures))
  }

  /** Every entry of a row times a factor. */
  function Scaled(row: seq<real>, factor: real): (r: seq<real>)
    ensures |r| == |row|
    ensures forall i :: 0 <= i < |row| ==> r[i] == row[i] * factor
  {
    seq(|row|, i requires 0 <= i < |row| => row[i] * factor)
  }

  /**
   * The row normalisation of write_matlab_code: every entry times 1/sum, or
   * times 0 when the sum is zero (the ZeroDivisionError is caught).
   */
  function Normalize(row: seq<real>): (r: seq<real>)
    ensures |r| == |row|
    ensures Sum(row) == 0.0 ==> forall i :: 0 <= i < |r| ==> r[i] == 0.0
    ensures Sum(row) != 0.0 ==> forall i :: 0 <= i < |r| ==> (r[i] == 0.0 <==> row[i] == 0.0)
  {
    Scaled(row, if Sum(row) == 0.0 then 0.0 else 1.0 / Sum(row))
  }

  lemma {:induction false} SumScaled(row: seq<real>, factor: real)
    ensures Sum(Scaled(row, factor)) == Sum(row) * factor
    decreases |row|
  {
    if |row| > 0 {
      var p := row[..|row| - 1];
      SumScaled(p, factor);
      assert forall i :: 0 <= i < |p| ==> Scaled(row, factor)[i] == Scaled(p, factor)[i];
      assert Scaled(row, factor)[..|row| - 1] == Scaled(p, factor);
    }
  }

  /** A row with a non-zero sum normalises to a distribution whose entries sum to one. */
  lemma NormalizedSumsToOne(row: seq<real>)
    requires Sum(row) != 0.0
    ensures Sum(Normalize(row)) == 1.0
  {
    SumScaled(row, 1.0 / Sum(row));
  }
}

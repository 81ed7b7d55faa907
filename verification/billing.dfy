/**
 * Billable-time and cost policies.  At the end of a run they record the VMs
 * and customers still in the system as if they left now, cut the lost service
 * times at now, and sum the monitors: strictly, or rounding every item up to
 * a whole billing period (the hour-minimum policies).
 */
module Billing {
  import opened Wrappers
  import opened Numeric
  import opened Observations
  import opened Cluster
  import opened Accounting

  /** The sum of math.ceil over the items. */
  function SumCeil(s: seq<real>): int
    decreases |s|
  {
    if |s| == 0 then 0 else SumCeil(s[..|s| - 1]) + Ceil(s[|s| - 1])
  }

  /** Rounding each item up never lowers the total, and adds less than one per item. */
  lemma {:induction false} SumCeilBounds(s: seq<real>)
    ensures Sum(s) <= SumCeil(s) as real <= Sum(s) + |s| as real
    ensures |s| > 0 ==> (SumCeil(s) as real) < Sum(s) + |s| as real
    decreases |s|
  {
    if |s| > 0 {
      SumCeilBounds(s[..|s| - 1]);
    }
  }

  /**
   * The provision lengths of the VMs still running, observed without a time
   * stamp, so SimPy stamps them with now.
   */
  function ElapsedNow(vms: seq<Vm>, now: real): (r: Result<seq<Obs>>)
    ensures r.Ok? <==> forall i :: 0 <= i < |vms| ==> vms[i].startTime.Some?
    ensures r.Err? ==> r.error == AttributeError
    ensures r.Ok? ==> |r.value| == |vms|
    ensures r.Ok? ==> forall i :: 0 <= i < |vms| ==> r.value[i] == Obs(now, now - vms[i].startTime.value)
    ensures r.Ok? ==> StampedAt(r.value, now)
  {
    match ProvisionRecords(vms, now)
    case Err(e) => Err(e)
    case Ok(recs) => Ok(seq(|recs|, i requires 0 <= i < |recs| => Obs(now, recs[i].v)))
  }

  /** Every observation carries the time stamp t. */
  predicate StampedAt(s: seq<Obs>, t: real) {
    forall i :: 0 <= i < |s| ==> s[i].t == t
  }

  /** The time each customer holding a seat has spent so far, stamped with now. */
  function CustomerRecords(active: seq<Vm>, now: real): (r: seq<Obs>)
    ensures |r| == SumOccupied(active)
    ensures forall i :: 0 <= i < |r| ==> r[i].t == now
    decreases |active|
  {
    if |active| == 0 then []
    else
      var q := active[|active| - 1].activeQ;
      CustomerRecords(active[..|active| - 1], now) +
        seq(|q|, k requires 0 <= k < |q| => Obs(now, now - q[k].arrivalTime))
  }

  /**
   * The observing and adjusting the end-of-run policies do before summing:
   * every running VM (active, booting, then shutting down), then every
   * customer of every active VM, then the lost service times cut at now.
   */
  function ObserveAndAdjust(rec: Records, c: ClusterState, now: real): (r: Result<Records>)
    ensures r.Ok? <==> ElapsedNow(c.active + c.booting + c.shuttingDown, now).Ok?
    ensures r.Ok? ==> r.value.lost == AdjustDurations(rec.lost, now)
    ensures r.Ok? ==> r.value.accepted == rec.accepted + CustomerRecords(c.active, now)
    ensures r.Ok? ==> |r.value.provision| == |rec.provision| + |c.active| + |c.booting| + |c.shuttingDown|
    ensures r.Ok? ==> forall i :: 0 <= i < |rec.provision| ==> r.value.provision[i] == rec.provision[i]
  {
    match ElapsedNow(c.active + c.booting + c.shuttingDown, now)
    case Err(e) => Err(e)
    case Ok(servers) =>
      Ok(Records(rec.accepted + CustomerRecords(c.active, now), AdjustDurations(rec.lost, now), rec.provision + servers))
  }

  /** The three hour-minimum totals: billable, lost billable and server cost time. */
  datatype HourTotals = HourTotals(billable: int, lostBillable: int, serverCost: int)

  /**
   * The hour-minimum sums: customers are billed by their rounded-up
   * durations, while the server cost rounds up the first component of each
   * provision record, its time stamp.
   */
  function HourTotalsOf(rec: Records): (r: HourTotals)
    ensures r.billable as real >= Sum(Values(rec.accepted))
    ensures r.lostBillable as real >= Sum(Values(rec.lost))
    ensures r.serverCost as real >= Sum(Times(rec.provision))
  {
    SumCeilBounds(Values(rec.accepted));
    SumCeilBounds(Values(rec.lost));
    SumCeilBounds(Times(rec.provision));
    HourTotals(SumCeil(Values(rec.accepted)), SumCeil(Values(rec.lost)), SumCeil(Times(rec.provision)))
  }

  /** The hour-minimum totals exceed the strict ones by less than one period per item. */
  lemma HourTotalsClose(rec: Records)
    ensures HourTotalsOf(rec).billable as real <= Sum(Values(rec.accepted)) + |rec.accepted| as real
    ensures HourTotalsOf(rec).lostBillable as real <= Sum(Values(rec.lost)) + |rec.lost| as real
  {
    SumCeilBounds(Values(rec.accepted));
    SumCeilBounds(Values(rec.lost));
  }

  /** The billable-time policies of both generations of the simulator. */
  datatype BillablePolicy =
    | NoMinimum        // NoMinimumBillablePolicy: observes, then sums strictly
    | HourMinimum      // HourMinimumBillablePolicy: observes, then rounds up
    | Strict           // the newer BillablePolicy: sums strictly without observing
    | HourMinimumOnly  // the newer HourMinimumBillablePolicy: rounds up without observing

  /**
   * run() of a billable-time policy.  The strict policies' server cost
   * computation calls an undefined name, so their run always ends in a
   * NameError once the observing, if any, has succeeded.
   */
  function BillableRun(p: BillablePolicy, rec: Records, c: ClusterState, now: real): (r: Result<HourTotals>)
    ensures p.Strict? ==> r == Err(NameError)
    ensures p.HourMinimumOnly? ==> r == Ok(HourTotalsOf(rec))
    ensures (p.NoMinimum? || p.HourMinimum?) && ObserveAndAdjust(rec, c, now).Err? ==> r == Err(AttributeError)
    ensures p.NoMinimum? && ObserveAndAdjust(rec, c, now).Ok? ==> r == Err(NameError)
    ensures p.HourMinimum? && ObserveAndAdjust(rec, c, now).Ok? ==>
      r == Ok(HourTotalsOf(ObserveAndAdjust(rec, c, now).value))
  {
    match p
    case Strict => Err(NameError)
    case HourMinimumOnly => Ok(HourTotalsOf(rec))
    case _ =>
      match ObserveAndAdjust(rec, c, now)
      case Err(e) => Err(e)
      case Ok(observed) => if p.NoMinimum? then Err(NameError) else Ok(HourTotalsOf(observed))
  }

  /**
   * The strict billable and lost billable sums of compute_billable_time and
   * compute_lost_billable_time.
   */
  function StrictBillable(rec: Records): (r: (real, real))
    ensures r.0 <= HourTotalsOf(rec).billable as real && r.1 <= HourTotalsOf(rec).lostBillable as real
  {
    (Sum(Values(rec.accepted)), Sum(Values(rec.lost)))
  }

  /** A number of billing periods at a rate per period. */
  function Price(periods: int, rate: real): real {
    periods as real * rate
  }

  /** The report of HourMinimumCostPolicy.run. */
  datatype CostReport = CostReport(profits: real, lostProfits: real, serverCosts: real, totalCosts: real)

  /**
   * HourMinimumCostPolicy.run: the hour-minimum sums priced at the profit
   * rate (customers) and the server cost rate (VMs).
   */
  function CostRun(rec: Records, c: ClusterState, now: real, serverRate: real, profitRate: real): (r: Result<CostReport>)
    ensures r.Ok? <==> ObserveAndAdjust(rec, c, now).Ok?
    ensures r.Err? ==> r.error == AttributeError
    ensures r.Ok? ==> r.value.totalCosts == r.value.lostProfits + r.value.serverCosts
  {
    match ObserveAndAdjust(rec, c, now)
    case Err(e) => Err(e)
    case Ok(observed) =>
      var h := HourTotalsOf(observed);
      var lost := Price(h.lostBillable, profitRate);
      var server := Price(h.serverCost, serverRate);
      Ok(CostReport(Price(h.billable, profitRate), lost, server, lost + server))
  }

  /** The cost report prices exactly the hour-minimum billable totals. */
  lemma CostPricesBillable(rec: Records, c: ClusterState, now: real, serverRate: real, profitRate: real)
    ensures CostRun(rec, c, now, serverRate, profitRate).Ok? <==> BillableRun(HourMinimum, rec, c, now).Ok?
    ensures CostRun(rec, c, now, serverRate, profitRate).Ok? ==>
      var h := BillableRun(HourMinimum, rec, c, now).value;
      var r := CostRun(rec, c, now, serverRate, profitRate).value;
      r.profits == Price(h.billable, profitRate) &&
      r.lostProfits == Price(h.lostBillable, profitRate) &&
      r.serverCosts == Price(h.serverCost, serverRate)
  {
    var o := ObserveAndAdjust(rec, c, now);
    if o.Ok? {
      assert BillableRun(HourMinimum, rec, c, now) == Ok(HourTotalsOf(o.value));
    }
  }

  lemma {:induction false} SumCeilAppend(a: seq<real>, b: seq<real>)
    ensures SumCeil(a + b) == SumCeil(a) + SumCeil(b)
    decreases |b|
  {
    if |b| == 0 {
      assert a + b == a;
    } else {
      assert (a + b)[..|a + b| - 1] == a + b[..|b| - 1];
      SumCeilAppend(a, b[..|b| - 1]);
    }
  }

  lemma {:induction false} SumCeilConstant(s: seq<real>, x: real)
    requires forall i :: 0 <= i < |s| ==> s[i] == x
    ensures SumCeil(s) == |s| * Ceil(x)
    decreases |s|
  {
    if |s| > 0 {
      SumCeilConstant(s[..|s| - 1], x);
    }
  }

  lemma TimesAppend(a: seq<Obs>, b: seq<Obs>)
    ensures Times(a + b) == Times(a) + Times(b)
  {
  }

  lemma StampedCost(before: seq<Obs>, added: seq<Obs>, now: real)
    requires StampedAt(added, now)
    ensures SumCeil(Times(before + added)) == SumCeil(Times(before)) + |added| * Ceil(now)
  {
    TimesAppend(before, added);
    SumCeilAppend(Times(before), Times(added));
    SumCeilConstant(Times(added), now);
  }

  /**
   * Because the server cost rounds up the time stamp rather than the length,
   * each VM still running at the end adds ceil(now) to the server cost time,
   * however long it ran.
   */
  lemma ServerCostCountsStamps(rec: Records, c: ClusterState, now: real, observed: Records)
    requires ObserveAndAdjust(rec, c, now) == Ok(observed)
    ensures HourTotalsOf(observed).serverCost ==
      SumCeil(Times(rec.provision)) + (|c.active| + |c.booting| + |c.shuttingDown|) * Ceil(now)
  {
    var servers := ServersObserved(rec, c, now, observed);
    StampedServers(rec.provision, observed, servers, |c.active|, |c.booting|, |c.shuttingDown|, now);
  }

  /** The provision records the observing appends: one per running VM, each stamped with now. */
  lemma ServersObserved(rec: Records, c: ClusterState, now: real, observed: Records) returns (servers: seq<Obs>)
    requires ObserveAndAdjust(rec, c, now) == Ok(observed)
    ensures observed.provision == rec.provision + servers
    ensures |servers| == |c.active| + |c.booting| + |c.shuttingDown|
    ensures StampedAt(servers, now)
  {
    servers := ElapsedNow(c.active + c.booting + c.shuttingDown, now).value;
  }

  lemma StampedServers(before: seq<Obs>, observed: Records, servers: seq<Obs>, active: nat, booting: nat, shuttingDown: nat, now: real)
    requires observed.provision == before + servers && |servers| == active + booting + shuttingDown
    requires StampedAt(servers, now)
    ensures HourTotalsOf(observed).serverCost == SumCeil(Times(before)) + (active + booting + shuttingDown) * Ceil(now)
  {
    StampedCost(before, servers, now);
  }
}

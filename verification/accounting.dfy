/**
 * End-of-run bookkeeping of the simulator: service times that would run past
 * the end of the simulation are cut at `now`, the VMs still running get their
 * provision length recorded, and before statistics are computed the first
 * half-year of observations is dropped and the rest shifted back to time 0.
 */
module Accounting {
  import opened Wrappers
  import opened Numeric
  import opened Observations
  import opened Cluster

  const SecondsInAYear: int := 31536000
  const HalfYear: int := 15768000

  /**
   * The end-of-run adjustment of a monitor of [start, duration] entries: an
   * entry that ends after `now` is cut so that it ends exactly at `now`.
   */
  function AdjustDurations(m: seq<Obs>, now: real): (r: seq<Obs>)
    ensures |r| == |m|
    ensures forall i :: 0 <= i < |m| ==> r[i].t == m[i].t && r[i].v <= m[i].v
    ensures forall i :: 0 <= i < |m| ==> r[i].t + r[i].v <= now
    ensures forall i :: 0 <= i < |m| ==> m[i].t + m[i].v <= now ==> r[i] == m[i]
    ensures forall i :: 0 <= i < |m| ==> m[i].t + m[i].v > now ==> r[i].t + r[i].v == now
  {
    seq(|m|, i requires 0 <= i < |m| =>
      if m[i].t + m[i].v > now then Obs(m[i].t, now - m[i].t) else m[i])
  }

  /** Adjusting again, at the same or a later time, changes nothing. */
  lemma AdjustSettles(m: seq<Obs>, now: real, later: real)
    requires now <= later
    ensures AdjustDurations(AdjustDurations(m, now), later) == AdjustDurations(m, now)
  {
    var a := AdjustDurations(m, now);
    assert forall i :: 0 <= i < |a| ==> a[i].t + a[i].v <= later;
  }

  /**
   * The provision-length records of the VMs still running, in iteration
   * order: the time since the VM started, stamped at its start time.  A VM
   * that never received a start time raises AttributeError.
   */
  function ProvisionRecords(vms: seq<Vm>, now: real): (r: Result<seq<Obs>>)
    ensures r.Ok? <==> forall i :: 0 <= i < |vms| ==> vms[i].startTime.Some?
    ensures r.Err? ==> r.error == AttributeError
    ensures r.Ok? ==> |r.value| == |vms|
    ensures r.Ok? ==> forall i :: 0 <= i < |vms| ==>
      r.value[i] == Obs(vms[i].startTime.value, now - vms[i].startTime.value)
    decreases |vms|
  {
    if |vms| == 0 then Ok([])
    else
      var v := vms[|vms| - 1];
      match ProvisionRecords(vms[..|vms| - 1], now)
      case Err(e) => Err(e)
      case Ok(prefix) =>
        if v.startTime.None? then Err(AttributeError)
        else Ok(prefix + [Obs(v.startTime.value, now - v.startTime.value)])
  }

  /** The monitors the end of the run touches. */
  datatype Records = Records(accepted: seq<Obs>, lost: seq<Obs>, provision: seq<Obs>)

  /** The cluster with its three buckets emptied. */
  function Emptied(c: ClusterState): (r: ClusterState)
    ensures r.booting == [] && r.active == [] && r.shuttingDown == []
    ensures r.density == c.density && r.totalProv == c.totalProv && r.totalDeleted == c.totalDeleted
  {
    c.(booting := [], active := [], shuttingDown := [])
  }

  /**
   * finalize_simulation: refuses to run past one year, then adjusts the
   * accepted and the lost service times and records every running VM
   * (active, then booting, then shutting down) before emptying the buckets.
   */
  function FinalizeSimulation(rec: Records, c: ClusterState, now: real): (r: Result<(Records, ClusterState)>)
    ensures now > SecondsInAYear as real ==> r == Err(PlainException)
    ensures now <= SecondsInAYear as real ==>
      (r.Ok? <==> ProvisionRecords(c.active + c.booting + c.shuttingDown, now).Ok?)
    ensures r.Ok? ==> r.value.1 == Emptied(c)
    ensures r.Ok? ==> r.value.0.accepted == AdjustDurations(rec.accepted, now)
    ensures r.Ok? ==> r.value.0.lost == AdjustDurations(rec.lost, now)
    ensures r.Ok? ==> |r.value.0.provision| == |rec.provision| + |c.booting| + |c.active| + |c.shuttingDown|
    ensures r.Ok? ==> r.value.0.provision[..|rec.provision|] == rec.provision
  {
    if now > SecondsInAYear as real then Err(PlainException)
    else
      match ProvisionRecords(c.active + c.booting + c.shuttingDown, now)
      case Err(e) => Err(e)
      case Ok(running) =>
        Ok((Records(AdjustDurations(rec.accepted, now), AdjustDurations(rec.lost, now), rec.provision + running),
            Emptied(c)))
  }

  /**
   * After finalizing, no accepted or lost service time reaches past `now`,
   * and every VM that was running has one record, with start time plus
   * length equal to `now`.
   */
  lemma FinalizedEndsByNow(rec: Records, c: ClusterState, now: real)
    requires FinalizeSimulation(rec, c, now).Ok?
    ensures var out := FinalizeSimulation(rec, c, now).value.0;
      (forall i :: 0 <= i < |out.accepted| ==> out.accepted[i].t + out.accepted[i].v <= now) &&
      (forall i :: 0 <= i < |out.lost| ==> out.lost[i].t + out.lost[i].v <= now) &&
      (forall i :: |rec.provision| <= i < |out.provision| ==> out.provision[i].t + out.provision[i].v == now)
  {
    var running := ProvisionRecords(c.active + c.booting + c.shuttingDown, now).value;
    var out := FinalizeSimulation(rec, c, now).value.0;
    assert out.provision == rec.provision + running;
    forall i | |rec.provision| <= i < |out.provision|
      ensures out.provision[i].t + out.provision[i].v == now
    {
      assert out.provision[i] == running[i - |rec.provision|];
    }
  }

  /**
   * get_mean_utilization: the accepted service time over the seat time of all
   * provisioned VMs; no provisioned seat time at all divides by zero.
   */
  function MeanUtilization(provision: seq<Obs>, accepted: seq<Obs>, density: int): (r: Result<real>)
    ensures r.Err? <==> Sum(Values(provision)) * density as real == 0.0
    ensures r.Err? ==> r.error == ZeroDivisionError
    ensures r.Ok? ==> r.value * (Sum(Values(provision)) * density as real) == Sum(Values(accepted))
  {
    var seatTime := Sum(Values(provision)) * density as real;
    if seatTime == 0.0 then Err(ZeroDivisionError)
    else Ok(Sum(Values(accepted)) / seatTime)
  }

  /** A utilization is a fraction when the seats were used no longer than they were provisioned. */
  lemma UtilizationIsFraction(provision: seq<Obs>, accepted: seq<Obs>, density: int)
    requires 0.0 <= Sum(Values(accepted)) <= Sum(Values(provision)) * density as real
    requires Sum(Values(provision)) * density as real > 0.0
    ensures MeanUtilization(provision, accepted, density).Ok?
    ensures 0.0 <= MeanUtilization(provision, accepted, density).value <= 1.0
  {
    var seat := Sum(Values(provision)) * density as real;
    var used := Sum(Values(accepted));
    var u := MeanUtilization(provision, accepted, density).value;
    assert u * seat == used;
    FractionBounds(u, seat, used);
  }

  lemma FractionBounds(u: real, seat: real, used: real)
    requires seat > 0.0 && 0.0 <= used <= seat && u * seat == used
    ensures 0.0 <= u <= 1.0
  {
  }

  /**
   * The half-year filter: observations stamped after the first half-year
   * are kept, in order, with the half-year subtracted from their time.
   */
  function AfterHalfYear(m: seq<Obs>): (r: seq<Obs>)
    ensures |r| <= |m|
    decreases |m|
  {
    if |m| == 0 then []
    else
      var o := m[|m| - 1];
      AfterHalfYear(m[..|m| - 1]) + (if o.t > HalfYear as real then [Obs(o.t - HalfYear as real, o.v)] else [])
  }

  /** An observation survives the filter exactly when it was stamped after the half-year, shifted back by it. */
  lemma {:induction false} AfterHalfYearMembers(m: seq<Obs>, o: Obs)
    ensures o in AfterHalfYear(m) <==> o.t > 0.0 && Obs(o.t + HalfYear as real, o.v) in m
    decreases |m|
  {
    if |m| > 0 {
      var p := m[..|m| - 1];
      AfterHalfYearMembers(p, o);
      assert m == p + [m[|m| - 1]];
    }
  }

  /** The filter works observation by observation, so it preserves order across a split. */
  lemma {:induction false} AfterHalfYearAppend(a: seq<Obs>, b: seq<Obs>)
    ensures AfterHalfYear(a + b) == AfterHalfYear(a) + AfterHalfYear(b)
    decreases |b|
  {
    if |b| == 0 {
      assert a + b == a;
    } else {
      assert (a + b)[..|a + b| - 1] == a + b[..|b| - 1];
      AfterHalfYearAppend(a, b[..|b| - 1]);
    }
  }
}

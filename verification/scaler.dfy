/**
 * The autoscaler's periodic tick: ask the policy for a (start, stop)
 * decision, start VMs (reclaiming shutting-down ones first), promote booted
 * VMs, stop idle unprotected VMs, retire VMs whose shutdown delay has
 * elapsed, then sample the cluster and sleep for the scale period.
 */
module Scaler {
  import opened Wrappers
  import opened Cluster
  import opened Observations

  /** What a policy asks for: how many VMs to start and how many to stop. */
  datatype Decision = Decision(start: int, stop: int)

  datatype ScalerConfig = ScalerConfig(scaleRate: real, startupDelay: real, shutdownDelay: real)

  /** The base class leaves the policy to subclasses and raises. */
  function BaseScalerLogic(): (r: Result<Decision>)
    ensures r == Err(NotImplemented)
  {
    Err(NotImplemented)
  }

  // ---------------------------------------------------------------------
  // Start phase

  /** One pass of the start loop: pop the newest shutting-down VM, or boot a new one. */
  function StartOne(c: ClusterState, now: real, startupDelay: real): ClusterState {
    if |c.shuttingDown| > 0 then
      var n := |c.shuttingDown| - 1;
      c.(shuttingDown := c.shuttingDown[..n], active := c.active + [c.shuttingDown[n]])
    else
      var vm := CreateVm(c).(readyTime := now + startupDelay, startTime := Some(now));
      c.(booting := c.booting + [vm], totalProv := c.totalProv + 1)
  }

  /** One pass of the start loop either reclaims the newest shutting-down VM or boots one. */
  lemma StartOneShape(c: ClusterState, now: real, startupDelay: real)
    ensures var c1 := StartOne(c, now, startupDelay);
      c1.density == c.density && c1.totalDeleted == c.totalDeleted &&
      |c.active| <= |c1.active| && c1.active[..|c.active|] == c.active &&
      |c.booting| <= |c1.booting| && c1.booting[..|c.booting|] == c.booting
    ensures var c1 := StartOne(c, now, startupDelay);
      |c.shuttingDown| > 0 ==>
        c1.shuttingDown == c.shuttingDown[..|c.shuttingDown| - 1] && |c1.active| == |c.active| + 1 &&
        c1.booting == c.booting && c1.totalProv == c.totalProv
    ensures var c1 := StartOne(c, now, startupDelay);
      |c.shuttingDown| == 0 ==>
        c1.shuttingDown == c.shuttingDown && c1.active == c.active &&
        |c1.booting| == |c.booting| + 1 && c1.totalProv == c.totalProv + 1
  {
  }

  /** How many of `count` starts are served by reclaiming shutting-down VMs. */
  function ReclaimCount(c: ClusterState, count: int): nat {
    if count <= 0 then 0
    else if count < |c.shuttingDown| then count
    else |c.shuttingDown|
  }

  function Starts(count: int): nat {
    if count <= 0 then 0 else count
  }

  /**
   * `count` passes of the start loop.  The newest shutting-down VMs come back
   * to active first (in pop order), and only when none are left are new VMs
   * booted, each timestamped now and ready after the startup delay.
   */
  function StartPhase(c: ClusterState, count: int, now: real, startupDelay: real): (r: ClusterState)
    ensures r.density == c.density && r.totalDeleted == c.totalDeleted
    ensures r.shuttingDown == c.shuttingDown[..|c.shuttingDown| - ReclaimCount(c, count)]
    ensures |r.active| == |c.active| + ReclaimCount(c, count)
    ensures r.active[..|c.active|] == c.active
    ensures |r.booting| == |c.booting| + Starts(count) - ReclaimCount(c, count)
    ensures r.booting[..|c.booting|] == c.booting
    ensures r.totalProv == c.totalProv + Starts(count) - ReclaimCount(c, count)
    decreases count
  {
    if count <= 0 then c
    else
      var c1 := StartOne(c, now, startupDelay);
      StartOneShape(c, now, startupDelay);
      var r := StartPhase(c1, count - 1, now, startupDelay);
      assert r.active[..|c.active|] == r.active[..|c1.active|][..|c.active|];
      assert r.booting[..|c.booting|] == r.booting[..|c1.booting|][..|c.booting|];
      r
  }

  /**
   * The VMs the start phase appends: reclaimed VMs come back to active newest
   * first, and booted VMs are idle, of full capacity, started now and ready
   * after the startup delay.
   */
  lemma StartPhaseNewVms(c: ClusterState, count: int, now: real, startupDelay: real)
    ensures forall i :: |c.active| <= i < |StartPhase(c, count, now, startupDelay).active| ==>
      StartPhase(c, count, now, startupDelay).active[i] == c.shuttingDown[|c.shuttingDown| - 1 - (i - |c.active|)]
    ensures forall i :: |c.booting| <= i < |StartPhase(c, count, now, startupDelay).booting| ==>
      NewlyBooted(StartPhase(c, count, now, startupDelay).booting[i], c.density, now, startupDelay)
  {
    StartPhaseReclaimed(c, count, now, startupDelay);
    StartPhaseBooted(c, count, now, startupDelay);
  }

  /** The VMs `r` has beyond the active list of `c` are the shutting-down VMs of `c`, newest first. */
  predicate AppendsReclaimed(c: ClusterState, r: ClusterState) {
    |r.active| <= |c.active| + |c.shuttingDown| &&
    forall i :: |c.active| <= i < |r.active| ==> r.active[i] == c.shuttingDown[|c.shuttingDown| - 1 - (i - |c.active|)]
  }

  /** The VMs appended to the active list are the shutting-down ones, newest first. */
  lemma {:induction false} StartPhaseReclaimed(c: ClusterState, count: int, now: real, startupDelay: real)
    ensures AppendsReclaimed(c, StartPhase(c, count, now, startupDelay))
    decreases count
  {
    if count > 0 && |c.shuttingDown| > 0 {
      StartPhaseReclaimed(StartOne(c, now, startupDelay), count - 1, now, startupDelay);
      ReclaimedPass(c, count, now, startupDelay);
    }
  }

  /** One reclaiming pass extends what the rest of the start loop appends. */
  lemma ReclaimedPass(c: ClusterState, count: int, now: real, startupDelay: real)
    requires count > 0 && |c.shuttingDown| > 0
    requires AppendsReclaimed(StartOne(c, now, startupDelay), StartPhase(StartOne(c, now, startupDelay), count - 1, now, startupDelay))
    ensures AppendsReclaimed(c, StartPhase(c, count, now, startupDelay))
  {
    var c1 := StartOne(c, now, startupDelay);
    var r := StartPhase(c1, count - 1, now, startupDelay);
    StartOneReclaims(c, now, startupDelay);
    ReclaimedStep(c.active, c.shuttingDown, c1.active, c1.shuttingDown, r.active);
    StartPhaseActive(c, count, now, startupDelay);
  }

  lemma StartPhaseActive(c: ClusterState, count: int, now: real, startupDelay: real)
    requires count > 0
    ensures StartPhase(c, count, now, startupDelay).active ==
      StartPhase(StartOne(c, now, startupDelay), count - 1, now, startupDelay).active
  {
  }

  /** With VMs shutting down, one pass of the start loop moves the newest of them back to active. */
  lemma StartOneReclaims(c: ClusterState, now: real, startupDelay: real)
    requires |c.shuttingDown| > 0
    ensures var c1 := StartOne(c, now, startupDelay);
      c1.active == c.active + [c.shuttingDown[|c.shuttingDown| - 1]] &&
      c1.shuttingDown == c.shuttingDown[..|c.shuttingDown| - 1]
  {
  }

  lemma ReclaimedStep(active: seq<Vm>, sd: seq<Vm>, active1: seq<Vm>, sd1: seq<Vm>, after: seq<Vm>)
    requires |sd| > 0 && active1 == active + [sd[|sd| - 1]] && sd1 == sd[..|sd| - 1]
    requires |active1| <= |after| <= |active1| + |sd1| && after[..|active1|] == active1
    requires forall i :: |active1| <= i < |after| ==> after[i] == sd1[|sd1| - 1 - (i - |active1|)]
    ensures forall i :: |active| <= i < |after| ==> after[i] == sd[|sd| - 1 - (i - |active|)]
  {
    assert after[|active|] == active1[|active|];
  }

  /** The VMs appended to the booting list are all newly booted. */
  lemma {:induction false} StartPhaseBooted(c: ClusterState, count: int, now: real, startupDelay: real)
    ensures forall i :: |c.booting| <= i < |StartPhase(c, count, now, startupDelay).booting| ==>
      NewlyBooted(StartPhase(c, count, now, startupDelay).booting[i], c.density, now, startupDelay)
    decreases count
  {
    if count > 0 {
      var c1 := StartOne(c, now, startupDelay);
      var r := StartPhase(c1, count - 1, now, startupDelay);
      StartPhaseBooted(c1, count - 1, now, startupDelay);
      StartOneBoots(c, now, startupDelay);
      BootedStep(c.booting, c1.booting, r.booting, c.density, now, startupDelay);
    }
  }

  /** One pass of the start loop boots at most one VM, and that one is newly booted. */
  lemma StartOneBoots(c: ClusterState, now: real, startupDelay: real)
    ensures var c1 := StartOne(c, now, startupDelay);
      c1.density == c.density && c1.booting[..|c.booting|] == c.booting &&
      (|c1.booting| == |c.booting| ||
       (|c1.booting| == |c.booting| + 1 && NewlyBooted(c1.booting[|c.booting|], c.density, now, startupDelay)))
  {
  }

  lemma BootedStep(before: seq<Vm>, mid: seq<Vm>, after: seq<Vm>, density: nat, now: real, startupDelay: real)
    requires |before| <= |mid| <= |before| + 1 && |mid| <= |after| && after[..|mid|] == mid && mid[..|before|] == before
    requires |mid| == |before| || NewlyBooted(mid[|before|], density, now, startupDelay)
    requires forall i :: |mid| <= i < |after| ==> NewlyBooted(after[i], density, now, startupDelay)
    ensures forall i :: |before| <= i < |after| ==> NewlyBooted(after[i], density, now, startupDelay)
  {
    if |mid| > |before| {
      assert after[|before|] == mid[|before|];
    }
  }

  /** A VM booted by the start phase at `now`. */
  predicate NewlyBooted(v: Vm, density: nat, now: real, startupDelay: real) {
    v.startTime == Some(now) && v.readyTime == now + startupDelay && v.activeQ == [] && v.capacity == density
  }

  /** The start phase adds exactly max(count, 0) VMs to the seat capacity. */
  lemma StartPhaseCapacity(c: ClusterState, count: int, now: real, startupDelay: real)
    ensures Capacity(StartPhase(c, count, now, startupDelay)) == Capacity(c) + Starts(count) * c.density
  {
    CapacityFromCounts(c, StartPhase(c, count, now, startupDelay), Starts(count));
  }

  lemma StartOneKeepsWellFormed(c: ClusterState, now: real, startupDelay: real)
    requires WellFormed(c)
    ensures WellFormed(StartOne(c, now, startupDelay))
  {
    if |c.shuttingDown| > 0 {
      ReclaimKeepsWellFormed(c);
    } else {
      BootKeepsWellFormed(c, now, startupDelay);
    }
  }

  lemma ReclaimKeepsWellFormed(c: ClusterState)
    requires WellFormed(c) && |c.shuttingDown| > 0
    ensures var n := |c.shuttingDown| - 1;
      WellFormed(c.(shuttingDown := c.shuttingDown[..n], active := c.active + [c.shuttingDown[n]]))
  {
    var n := |c.shuttingDown| - 1;
    var v := c.shuttingDown[n];
    var c1 := c.(shuttingDown := c.shuttingDown[..n], active := c.active + [v]);
    RanksOfAll(c);
    RanksOfAll(c1);
    assert c.shuttingDown == c.shuttingDown[..n] + [v];
    RanksAppend(c.shuttingDown[..n], [v]);
    RanksAppend(c.active, [v]);
    MoveLastToMiddle(Ranks(c.booting), Ranks(c.active), Ranks(c.shuttingDown[..n]), v.rank);
    assert forall x :: x in AllVms(c1) ==> x in AllVms(c);
    KeepsWellFormed(c, c1);
  }

  lemma BootKeepsWellFormed(c: ClusterState, now: real, startupDelay: real)
    requires WellFormed(c)
    ensures var vm := CreateVm(c).(readyTime := now + startupDelay, startTime := Some(now));
      WellFormed(c.(booting := c.booting + [vm], totalProv := c.totalProv + 1))
  {
    CreatedVmIsFresh(c);
    AddBootingKeepsWellFormed(c, CreateVm(c).(readyTime := now + startupDelay, startTime := Some(now)));
  }

  /** Appending a well-formed VM with an unused rank to the booting list keeps the invariant. */
  lemma AddBootingKeepsWellFormed(c: ClusterState, v: Vm)
    requires WellFormed(c) && v.rank !in Ranks(AllVms(c)) && GoodVm(v, c.density)
    ensures WellFormed(c.(booting := c.booting + [v], totalProv := c.totalProv + 1))
  {
    var c1 := c.(booting := c.booting + [v], totalProv := c.totalProv + 1);
    RanksOfAll(c);
    RanksOfAll(c1);
    RanksAppend(c.booting, [v]);
    MultisetInsertMiddle([], Ranks(c.booting), v.rank, Ranks(c.active) + Ranks(c.shuttingDown));
    assert forall x :: x in AllVms(c1) ==> x in AllVms(c) || x == v;
    AddKeepsWellFormed(c, c1, v);
  }

  lemma MoveLastToMiddle(a: seq<int>, b: seq<int>, c: seq<int>, x: int)
    ensures multiset(a + (b + [x]) + c) == multiset(a + b + (c + [x]))
  {
  }

  lemma {:induction false} StartPhaseKeepsWellFormed(c: ClusterState, count: int, now: real, startupDelay: real)
    requires WellFormed(c)
    ensures WellFormed(StartPhase(c, count, now, startupDelay))
    decreases count
  {
    if count > 0 {
      StartOneKeepsWellFormed(c, now, startupDelay);
      StartPhaseKeepsWellFormed(StartOne(c, now, startupDelay), count - 1, now, startupDelay);
    }
  }

  // ---------------------------------------------------------------------
  // Promotion

  /** Split the booting VMs into those ready at `now` and the rest, keeping order. */
  function SplitReady(booting: seq<Vm>, now: real): (r: (seq<Vm>, seq<Vm>))
    ensures |r.0| + |r.1| == |booting|
  {
    if |booting| == 0 then ([], [])
    else
      var n := |booting| - 1;
      var v := booting[n];
      var p := SplitReady(booting[..n], now);
      if now >= v.readyTime then (p.0 + [v], p.1) else (p.0, p.1 + [v])
  }

  /**
   * The split is a partition by readiness: the ready part holds exactly the
   * booting VMs whose ready time has come, the rest exactly the others.
   */
  lemma {:induction false} SplitReadyMembers(booting: seq<Vm>, now: real)
    ensures forall v :: v in SplitReady(booting, now).0 <==> v in booting && now >= v.readyTime
    ensures forall v :: v in SplitReady(booting, now).1 <==> v in booting && now < v.readyTime
    decreases |booting|
  {
    if |booting| > 0 {
      var n := |booting| - 1;
      SplitReadyMembers(booting[..n], now);
      assert booting == booting[..n] + [booting[n]];
    }
  }

  /**
   * The split is the order-preserving filter of the list comprehension: it
   * works VM by VM, so splitting a concatenation concatenates the splits,
   * and a single VM lands in the ready part exactly when it is ready.
   */
  lemma {:induction false} SplitReadyIsFilter(a: seq<Vm>, b: seq<Vm>, v: Vm, now: real)
    ensures SplitReady(a + b, now).0 == SplitReady(a, now).0 + SplitReady(b, now).0
    ensures SplitReady(a + b, now).1 == SplitReady(a, now).1 + SplitReady(b, now).1
    ensures SplitReady([v], now) == if now >= v.readyTime then ([v], []) else ([], [v])
    decreases |b|
  {
    SplitReadyOne(v, now);
    if |b| == 0 {
      assert a + b == a;
    } else {
      var n := |b| - 1;
      assert (a + b)[..|a + b| - 1] == a + b[..n];
      assert (a + b)[|a + b| - 1] == b[n];
      SplitReadyIsFilter(a, b[..n], v, now);
      var p, q := SplitReady(a, now), SplitReady(b[..n], now);
      if now >= b[n].readyTime {
        assert SplitReady(a + b, now).0 == (p.0 + q.0) + [b[n]];
        assert SplitReady(b, now).0 == q.0 + [b[n]];
      } else {
        assert SplitReady(a + b, now).1 == (p.1 + q.1) + [b[n]];
        assert SplitReady(b, now).1 == q.1 + [b[n]];
      }
    }
  }

  lemma SplitReadyOne(v: Vm, now: real)
    ensures SplitReady([v], now) == if now >= v.readyTime then ([v], []) else ([], [v])
  {
    assert [v][..0] == [];
    assert [] + [v] == [v];
  }

  /** The split neither loses nor duplicates a rank. */
  lemma {:induction false} SplitReadyRanks(booting: seq<Vm>, now: real)
    ensures var r := SplitReady(booting, now);
      multiset(Ranks(r.0)) + multiset(Ranks(r.1)) == multiset(Ranks(booting))
    decreases |booting|
  {
    if |booting| > 0 {
      var n := |booting| - 1;
      var v := booting[n];
      var p := SplitReady(booting[..n], now);
      SplitReadyRanks(booting[..n], now);
      assert booting == booting[..n] + [v];
      RanksAppend(booting[..n], [v]);
      if now >= v.readyTime {
        RanksAppend(p.0, [v]);
      } else {
        RanksAppend(p.1, [v]);
      }
    }
  }

  /** Booting VMs whose ready time has come move, in order, to the end of active. */
  function Promote(c: ClusterState, now: real): (r: ClusterState)
    ensures |c.active| <= |r.active| && r.active[..|c.active|] == c.active
    ensures r.active[|c.active|..] == SplitReady(c.booting, now).0
    ensures r.booting == SplitReady(c.booting, now).1
    ensures |r.booting| + |r.active| == |c.booting| + |c.active|
    ensures r.shuttingDown == c.shuttingDown && r.density == c.density
    ensures r.totalProv == c.totalProv && r.totalDeleted == c.totalDeleted
    ensures forall v :: v in r.booting ==> now < v.readyTime
  {
    var s := SplitReady(c.booting, now);
    SplitReadyMembers(c.booting, now);
    assert (c.active + s.0)[..|c.active|] == c.active;
    assert (c.active + s.0)[|c.active|..] == s.0;
    c.(booting := s.1, active := c.active + s.0)
  }

  lemma PromoteKeepsWellFormed(c: ClusterState, now: real)
    requires WellFormed(c)
    ensures WellFormed(Promote(c, now))
  {
    var s := SplitReady(c.booting, now);
    SplitReadyMembers(c.booting, now);
    SplitReadyRanks(c.booting, now);
    var r := Promote(c, now);
    RanksOfAll(c);
    RanksOfAll(r);
    RanksAppend(c.active, s.0);
    assert forall x :: x in AllVms(r) ==> x in AllVms(c);
    KeepsWellFormed(c, r);
  }

  // ---------------------------------------------------------------------
  // Stop phase

  /** An active VM with the flag saying whether it was started or promoted this tick. */
  datatype Slot = Slot(vm: Vm, protected: bool)

  /** Active VMs from position `firstNew` on were appended during this tick. */
  function Tag(vms: seq<Vm>, firstNew: nat): (r: seq<Slot>)
    ensures |r| == |vms|
    ensures forall i :: 0 <= i < |vms| ==> r[i] == Slot(vms[i], i >= firstNew)
  {
    seq(|vms|, i requires 0 <= i < |vms| => Slot(vms[i], i >= firstNew))
  }

  function Untag(slots: seq<Slot>): (r: seq<Vm>)
    ensures |r| == |slots|
  {
    seq(|slots|, i requires 0 <= i < |slots| => slots[i].vm)
  }

  lemma UntagAppend(a: seq<Slot>, b: seq<Slot>)
    ensures Untag(a + b) == Untag(a) + Untag(b)
  {
  }

  lemma UntagTag(vms: seq<Vm>, firstNew: nat)
    ensures Untag(Tag(vms, firstNew)) == vms
  {
  }

  datatype StopOutcome = StopOutcome(remaining: seq<Slot>, stopped: seq<Vm>)

  /** Ranks of the VMs in a list of slots. */
  function SlotRanks(slots: seq<Slot>): seq<int> {
    Ranks(Untag(slots))
  }

  lemma RemoveAtRanks(slots: seq<Slot>, i: nat)
    requires i < |slots|
    ensures multiset(SlotRanks(slots[..i] + slots[i + 1..])) + multiset{slots[i].vm.rank} == multiset(SlotRanks(slots))
  {
    var u := Untag(slots);
    assert Untag(slots[..i] + slots[i + 1..]) == u[..i] + u[i + 1..];
    RanksRemoveAt(u, i);
  }

  /**
   * The stop loop iterates over the active list while removing from it, so
   * after each removal the VM that slides into the freed position is never
   * examined.  `i` is the loop's position; the VM examined there is stopped
   * when it has no users, is not protected and stops remain.
   */
  function StopScan(slots: seq<Slot>, i: nat, budget: int, powerOff: real): (r: StopOutcome)
    requires i <= |slots| + 1
    ensures |r.remaining| + |r.stopped| == |slots|
    ensures |r.stopped| <= Starts(budget)
    ensures 2 * |r.stopped| <= |slots| + 1 - i
    decreases |slots| + 1 - i
  {
    if i >= |slots| then StopOutcome(slots, [])
    else
      var s := slots[i];
      if s.vm.activeQ == [] && !s.protected && budget > 0 then
        var r := StopScan(slots[..i] + slots[i + 1..], i + 1, budget - 1, powerOff);
        StopOutcome(r.remaining, [s.vm.(powerOffTime := powerOff)] + r.stopped)
      else
        StopScan(slots, i + 1, budget, powerOff)
  }

  /** The VMs left active all come from the list. */
  lemma {:induction false} StopScanSubset(slots: seq<Slot>, i: nat, budget: int, powerOff: real)
    requires i <= |slots| + 1
    ensures forall s :: s in StopScan(slots, i, budget, powerOff).remaining ==> s in slots
    decreases |slots| + 1 - i
  {
    if i < |slots| {
      var s := slots[i];
      if s.vm.activeQ == [] && !s.protected && budget > 0 {
        var rest := slots[..i] + slots[i + 1..];
        StopScanSubset(rest, i + 1, budget - 1, powerOff);
        RemoveAtMembers(slots, i);
      } else {
        StopScanSubset(slots, i + 1, budget, powerOff);
      }
    }
  }

  /** Busy or protected VMs are never stopped. */
  lemma {:induction false} StopScanKeeps(slots: seq<Slot>, i: nat, budget: int, powerOff: real)
    requires i <= |slots| + 1
    ensures forall s :: s in slots && (s.protected || s.vm.activeQ != []) ==>
      s in StopScan(slots, i, budget, powerOff).remaining
    decreases |slots| + 1 - i
  {
    if i < |slots| {
      var s := slots[i];
      if s.vm.activeQ == [] && !s.protected && budget > 0 {
        var rest := slots[..i] + slots[i + 1..];
        StopScanKeeps(rest, i + 1, budget - 1, powerOff);
        RemoveAtMembers(slots, i);
      } else {
        StopScanKeeps(slots, i + 1, budget, powerOff);
      }
    }
  }

  /** Removing position i keeps every other element and adds none. */
  lemma RemoveAtMembers(slots: seq<Slot>, i: nat)
    requires i < |slots|
    ensures forall t :: t in slots[..i] + slots[i + 1..] ==> t in slots
    ensures forall t :: t in slots && t != slots[i] ==> t in slots[..i] + slots[i + 1..]
  {
    assert slots == slots[..i] + [slots[i]] + slots[i + 1..];
  }

  /** Each stopped VM is an idle, unprotected VM of the list, now carrying the power-off time. */
  lemma {:induction false} StopScanStopped(slots: seq<Slot>, i: nat, budget: int, powerOff: real)
    requires i <= |slots| + 1
    ensures forall v :: v in StopScan(slots, i, budget, powerOff).stopped ==>
      (v.activeQ == [] && v.powerOffTime == powerOff &&
       exists s :: s in slots && !s.protected && v == s.vm.(powerOffTime := powerOff))
    decreases |slots| + 1 - i
  {
    if i < |slots| {
      var s := slots[i];
      if s.vm.activeQ == [] && !s.protected && budget > 0 {
        var rest := slots[..i] + slots[i + 1..];
        StopScanStopped(rest, i + 1, budget - 1, powerOff);
        var r := StopScan(rest, i + 1, budget - 1, powerOff);
        var v := s.vm.(powerOffTime := powerOff);
        assert StopScan(slots, i, budget, powerOff).stopped == [v] + r.stopped;
        forall w | w in [v] + r.stopped
          ensures w.activeQ == [] && w.powerOffTime == powerOff &&
            exists t :: t in slots && !t.protected && w == t.vm.(powerOffTime := powerOff)
        {
          if w == v {
            assert s in slots;
          } else {
            assert w in r.stopped;
            var t :| t in rest && !t.protected && w == t.vm.(powerOffTime := powerOff);
            assert t in slots;
          }
        }
      } else {
        StopScanStopped(slots, i + 1, budget, powerOff);
      }
    }
  }

  /** The ranks of a stop outcome, active and stopped together, are those of the slots it came from. */
  predicate RanksKept(o: StopOutcome, slots: seq<Slot>) {
    multiset(SlotRanks(o.remaining)) + multiset(Ranks(o.stopped)) == multiset(SlotRanks(slots))
  }

  /** The stop scan neither duplicates nor loses a VM: it only moves some to the stopped list. */
  lemma {:induction false} StopScanRanks(slots: seq<Slot>, i: nat, budget: int, powerOff: real, out: StopOutcome)
    requires i <= |slots| + 1 && out == StopScan(slots, i, budget, powerOff)
    ensures RanksKept(out, slots)
    decreases |slots| + 1 - i
  {
    if i < |slots| {
      var s := slots[i];
      if s.vm.activeQ == [] && !s.protected && budget > 0 {
        var rest := slots[..i] + slots[i + 1..];
        var r := StopScan(rest, i + 1, budget - 1, powerOff);
        StopScanRanks(rest, i + 1, budget - 1, powerOff, r);
        StopBalanceStep(slots, i, budget, powerOff, rest, r, out);
      } else {
        StopScanRanks(slots, i + 1, budget, powerOff, out);
      }
    }
  }

  /** One stop keeps the ranks balanced when the scan over the rest does. */
  lemma StopBalanceStep(slots: seq<Slot>, i: nat, budget: int, powerOff: real, rest: seq<Slot>, r: StopOutcome, out: StopOutcome)
    requires i < |slots| && slots[i].vm.activeQ == [] && !slots[i].protected && budget > 0
    requires rest == slots[..i] + slots[i + 1..] && r == StopScan(rest, i + 1, budget - 1, powerOff)
    requires RanksKept(r, rest)
    requires out == StopScan(slots, i, budget, powerOff)
    ensures RanksKept(out, slots)
  {
    var v := slots[i].vm.(powerOffTime := powerOff);
    StopScanStep(slots, i, budget, powerOff, v);
    RemoveAtRanks(slots, i);
    RanksOfStop(out.remaining, out.stopped, r, v, rest, slots);
  }

  /** The ranks balance after one stop, given that they balance for the scan over the rest. */
  lemma RanksOfStop(remaining: seq<Slot>, stopped: seq<Vm>, r: StopOutcome, v: Vm, rest: seq<Slot>, slots: seq<Slot>)
    requires remaining == r.remaining && stopped == [v] + r.stopped
    requires multiset(SlotRanks(r.remaining)) + multiset(Ranks(r.stopped)) == multiset(SlotRanks(rest))
    requires multiset(SlotRanks(rest)) + multiset{v.rank} == multiset(SlotRanks(slots))
    ensures multiset(SlotRanks(remaining)) + multiset(Ranks(stopped)) == multiset(SlotRanks(slots))
  {
    RanksAppend([v], r.stopped);
    assert Ranks([v]) == [v.rank];
    RegroupRemoved(SlotRanks(r.remaining), Ranks(r.stopped), SlotRanks(rest), SlotRanks(slots), v.rank);
  }

  /** One stop: the VM at i leaves with its power-off time and the scan goes on over the rest. */
  lemma StopScanStep(slots: seq<Slot>, i: nat, budget: int, powerOff: real, v: Vm)
    requires i < |slots| && slots[i].vm.activeQ == [] && !slots[i].protected && budget > 0
    requires v == slots[i].vm.(powerOffTime := powerOff)
    ensures var r := StopScan(slots[..i] + slots[i + 1..], i + 1, budget - 1, powerOff);
      StopScan(slots, i, budget, powerOff).remaining == r.remaining
    ensures var r := StopScan(slots[..i] + slots[i + 1..], i + 1, budget - 1, powerOff);
      StopScan(slots, i, budget, powerOff).stopped == [v] + r.stopped
  {
  }

  lemma RegroupRemoved(kept: seq<int>, gone: seq<int>, rest: seq<int>, all: seq<int>, x: int)
    requires multiset(kept) + multiset(gone) == multiset(rest)
    requires multiset(rest) + multiset{x} == multiset(all)
    ensures multiset(kept) + multiset([x] + gone) == multiset(all)
  {
    assert multiset([x] + gone) == multiset{x} + multiset(gone);
  }

  // ---------------------------------------------------------------------
  // Retire phase

  datatype RetireOutcome = RetireOutcome(remaining: seq<Vm>, provisionLengths: seq<Obs>)

  /**
   * The retire loop, with the same skip-after-removal iteration.  A due VM
   * is recorded as (start time, time since start); a due VM that never got a
   * start time raises AttributeError.
   */
  function RetireScan(sd: seq<Vm>, i: nat, now: real): (r: Result<RetireOutcome>)
    requires i <= |sd| + 1
    ensures r.Err? ==> r.error == AttributeError
    ensures r.Ok? ==> |r.value.remaining| + |r.value.provisionLengths| == |sd|
    ensures r.Ok? ==> 2 * |r.value.provisionLengths| <= |sd| + 1 - i
    ensures r.Ok? ==> forall v :: v in r.value.remaining ==> v in sd
    ensures r.Ok? ==> forall v :: v in sd && now < v.powerOffTime ==> v in r.value.remaining
    decreases |sd| + 1 - i
  {
    if i >= |sd| then Ok(RetireOutcome(sd, []))
    else
      var v := sd[i];
      if now >= v.powerOffTime then
        if v.startTime.None? then Err(AttributeError)
        else
          var rest := sd[..i] + sd[i + 1..];
          var r := RetireScan(rest, i + 1, now);
          if r.Err? then r
          else
            assert forall x :: x in rest ==> x in sd;
            assert forall x :: x in sd && x != v ==> x in rest;
            var o := Obs(v.startTime.value, now - v.startTime.value);
            Ok(RetireOutcome(r.value.remaining, [o] + r.value.provisionLengths))
      else
        RetireScan(sd, i + 1, now)
  }

  /** The retire scan only ever drops VMs, so the ranks left are a sub-multiset. */
  lemma {:induction false} RetireScanRanks(sd: seq<Vm>, i: nat, now: real)
    requires i <= |sd| + 1
    requires RetireScan(sd, i, now).Ok?
    ensures multiset(Ranks(RetireScan(sd, i, now).value.remaining)) <= multiset(Ranks(sd))
    decreases |sd| + 1 - i
  {
    if i < |sd| {
      if now >= sd[i].powerOffTime {
        var rest := sd[..i] + sd[i + 1..];
        RetireScanRanks(rest, i + 1, now);
        RanksRemoveAt(sd, i);
      } else {
        RetireScanRanks(sd, i + 1, now);
      }
    }
  }

  /**
   * What the retire scan records and why it fails: each observation is the
   * provisioning length `now - start` of a due VM, and a failure comes from a
   * due VM that never received a start time.
   */
  lemma {:induction false} RetireScanRecords(sd: seq<Vm>, i: nat, now: real)
    requires i <= |sd| + 1
    ensures RetireScan(sd, i, now).Err? ==>
      exists v :: v in sd && now >= v.powerOffTime && v.startTime.None?
    ensures RetireScan(sd, i, now).Ok? ==> forall o :: o in RetireScan(sd, i, now).value.provisionLengths ==>
      exists v :: v in sd && now >= v.powerOffTime && v.startTime == Some(o.t) && o.v == now - o.t
    decreases |sd| + 1 - i
  {
    if i < |sd| {
      var v := sd[i];
      if now >= v.powerOffTime {
        if v.startTime.Some? {
          var rest := sd[..i] + sd[i + 1..];
          RetireScanRecords(rest, i + 1, now);
          assert forall x :: x in rest ==> x in sd;
        }
      } else {
        RetireScanRecords(sd, i + 1, now);
      }
    }
  }

  // ---------------------------------------------------------------------
  // The whole tick

  /** What the tick records on the cluster monitors. */
  datatype ClusterSample = ClusterSample(active: nat, booting: nat, shuttingDown: nat, occupancy: int)

  datatype TickOutcome = TickOutcome(
    cluster: ClusterState,
    stoppedCount: nat,            // passed to scaling_complete
    provisionLengths: seq<Obs>,   // observations for mServerProvisionLength
    sample: ClusterSample,
    sleep: real)                  // how long the scaler holds before the next tick

  /** The cluster after the start and promotion phases. */
  function Grown(c: ClusterState, d: Decision, now: real, cfg: ScalerConfig): ClusterState {
    Promote(StartPhase(c, d.start, now, cfg.startupDelay), now)
  }

  /** The stop scan over the active VMs of `g`, those from `firstNew` on being protected. */
  function StopOf(g: ClusterState, firstNew: nat, budget: int, powerOff: real): StopOutcome {
    StopScan(Tag(g.active, firstNew), 0, budget, powerOff)
  }

  /** The stopped VMs leave the active list for the end of the shutting-down list. */
  function ApplyStop(g: ClusterState, s: StopOutcome): ClusterState {
    g.(active := Untag(s.remaining), shuttingDown := g.shuttingDown + s.stopped)
  }

  /** The stop phase applied to the grown cluster. */
  function StopPhase(c: ClusterState, d: Decision, now: real, cfg: ScalerConfig): StopOutcome {
    StopOf(Grown(c, d, now, cfg), |c.active|, d.stop, now + cfg.shutdownDelay)
  }

  function Stopped(c: ClusterState, d: Decision, now: real, cfg: ScalerConfig): ClusterState {
    ApplyStop(Grown(c, d, now, cfg), StopPhase(c, d, now, cfg))
  }

  /** The cluster after retiring: the retired VMs leave and are counted as deleted. */
  function Retired(st: ClusterState, ret: RetireOutcome): ClusterState {
    st.(shuttingDown := ret.remaining, totalDeleted := st.totalDeleted + |ret.provisionLengths|)
  }

  function Sample(c: ClusterState): ClusterSample {
    ClusterSample(|c.active|, |c.booting|, |c.shuttingDown|, Capacity(c) - FreeSeats(c))
  }

  /**
   * One scaler tick for the decision `d` the policy returned.  Fails only
   * when a VM that never received a start time is due for retirement.
   */
  function Tick(c: ClusterState, d: Decision, now: real, cfg: ScalerConfig): (r: Result<TickOutcome>)
    ensures r.Err? ==> r.error == AttributeError
    ensures r.Ok? ==> r.value.sleep == cfg.scaleRate
    ensures r.Ok? ==> r.value.stoppedCount <= Starts(d.stop)
    ensures r.Ok? ==> 2 * r.value.stoppedCount <= |Grown(c, d, now, cfg).active| + 1
    ensures r.Ok? ==> r.value.cluster.totalDeleted == c.totalDeleted + |r.value.provisionLengths|
    ensures r.Ok? ==> r.value.sample.active == |r.value.cluster.active|
    ensures r.Ok? ==> r.value.sample.booting == |r.value.cluster.booting|
    ensures r.Ok? ==> r.value.sample.shuttingDown == |r.value.cluster.shuttingDown|
  {
    var st := Stopped(c, d, now, cfg);
    var ret :- RetireScan(st.shuttingDown, 0, now);
    var final := Retired(st, ret);
    Ok(TickOutcome(final, |StopPhase(c, d, now, cfg).stopped|, ret.provisionLengths, Sample(final), cfg.scaleRate))
  }

  /**
   * Seat capacity after a tick is the capacity before, plus `density` seats
   * per start requested, minus `density` per VM stopped; the provisioning
   * counter grows by the VMs that had to be booted.
   */
  lemma TickCapacity(c: ClusterState, d: Decision, now: real, cfg: ScalerConfig)
    requires Tick(c, d, now, cfg).Ok?
    ensures Capacity(Tick(c, d, now, cfg).value.cluster) + Tick(c, d, now, cfg).value.stoppedCount * c.density
      == Capacity(c) + Starts(d.start) * c.density
    ensures Tick(c, d, now, cfg).value.cluster.totalProv == c.totalProv + Starts(d.start) - ReclaimCount(c, d.start)
  {
    TickIs(c, d, now, cfg);
    StoppedCapacity(c, d, now, cfg);
    var st := Stopped(c, d, now, cfg);
    RetiredCapacity(st, RetireScan(st.shuttingDown, 0, now).value);
  }

  /** The outcome of a successful tick in terms of its phases. */
  lemma TickIs(c: ClusterState, d: Decision, now: real, cfg: ScalerConfig)
    requires Tick(c, d, now, cfg).Ok?
    ensures RetireScan(Stopped(c, d, now, cfg).shuttingDown, 0, now).Ok?
    ensures Tick(c, d, now, cfg).value.cluster ==
      Retired(Stopped(c, d, now, cfg), RetireScan(Stopped(c, d, now, cfg).shuttingDown, 0, now).value)
    ensures Tick(c, d, now, cfg).value.stoppedCount == |StopPhase(c, d, now, cfg).stopped|
  {
  }

  lemma RetiredCapacity(st: ClusterState, ret: RetireOutcome)
    ensures Capacity(Retired(st, ret)) == Capacity(st)
    ensures Retired(st, ret).totalProv == st.totalProv
  {
  }

  /** Capacity accounting for the start, promotion and stop phases together. */
  lemma StoppedCapacity(c: ClusterState, d: Decision, now: real, cfg: ScalerConfig)
    ensures Capacity(Stopped(c, d, now, cfg)) + |StopPhase(c, d, now, cfg).stopped| * c.density
      == Capacity(c) + Starts(d.start) * c.density
    ensures Stopped(c, d, now, cfg).totalProv == c.totalProv + Starts(d.start) - ReclaimCount(c, d.start)
    ensures Stopped(c, d, now, cfg).density == c.density
  {
    GrownCapacity(c, d, now, cfg);
    var g := Grown(c, d, now, cfg);
    StoppedIs(c, d, now, cfg);
    StopCapacity(g, StopPhase(c, d, now, cfg), Stopped(c, d, now, cfg), |c.active|, d.stop, now + cfg.shutdownDelay);
  }

  lemma GrownCapacity(c: ClusterState, d: Decision, now: real, cfg: ScalerConfig)
    ensures Capacity(Grown(c, d, now, cfg)) == Capacity(c) + Starts(d.start) * c.density
    ensures Grown(c, d, now, cfg).totalProv == c.totalProv + Starts(d.start) - ReclaimCount(c, d.start)
    ensures Grown(c, d, now, cfg).density == c.density
  {
    var started := StartPhase(c, d.start, now, cfg.startupDelay);
    CapacityFromCounts(c, started, Starts(d.start));
    CapacityFromCounts(started, Promote(started, now), 0);
  }

  /** Every VM the stop scan removes takes `density` seats out of the capacity. */
  lemma StopCapacity(g: ClusterState, s: StopOutcome, st: ClusterState, firstNew: nat, budget: int, powerOff: real)
    requires s == StopOf(g, firstNew, budget, powerOff) && st == ApplyStop(g, s)
    ensures Capacity(st) + |s.stopped| * g.density == Capacity(g)
    ensures st.totalProv == g.totalProv && st.density == g.density
  {
    CapacityFromCounts(st, g, |s.stopped|);
  }

  /** Busy VMs that were active, and VMs started or promoted in the tick, end it active. */
  lemma TickKeepsBusyAndNew(c: ClusterState, d: Decision, now: real, cfg: ScalerConfig)
    requires Tick(c, d, now, cfg).Ok?
    ensures forall v :: v in c.active && v.activeQ != [] ==> v in Tick(c, d, now, cfg).value.cluster.active
    ensures forall i :: |c.active| <= i < |Grown(c, d, now, cfg).active| ==>
      Grown(c, d, now, cfg).active[i] in Tick(c, d, now, cfg).value.cluster.active
  {
    assert Tick(c, d, now, cfg).value.cluster.active == Stopped(c, d, now, cfg).active;
    StopKeepsBusyAndNew(c, d, now, cfg);
  }

  lemma StopKeepsBusyAndNew(c: ClusterState, d: Decision, now: real, cfg: ScalerConfig)
    ensures forall v :: v in c.active && v.activeQ != [] ==> v in Stopped(c, d, now, cfg).active
    ensures forall i :: |c.active| <= i < |Grown(c, d, now, cfg).active| ==>
      Grown(c, d, now, cfg).active[i] in Stopped(c, d, now, cfg).active
  {
    GrownExtends(c, d, now, cfg);
    StoppedActive(c, d, now, cfg);
    StopPreserves(c.active, Grown(c, d, now, cfg), d.stop, now + cfg.shutdownDelay, Stopped(c, d, now, cfg).active);
  }

  /** The stop scan over a list that extends `prefix` keeps the busy VMs of `prefix` and everything after it. */
  lemma StopPreserves(prefix: seq<Vm>, g: ClusterState, budget: int, powerOff: real, u: seq<Vm>)
    requires |prefix| <= |g.active| && g.active[..|prefix|] == prefix
    requires u == Untag(StopOf(g, |prefix|, budget, powerOff).remaining)
    ensures forall v :: v in prefix && v.activeQ != [] ==> v in u
    ensures forall i :: |prefix| <= i < |g.active| ==> g.active[i] in u
  {
    StopKeepsAt(g, |prefix|, budget, powerOff, u);
    KeptFromPrefix(prefix, g.active, u);
  }

  /** Growing only appends to the active list. */
  lemma GrownExtends(c: ClusterState, d: Decision, now: real, cfg: ScalerConfig)
    ensures |c.active| <= |Grown(c, d, now, cfg).active|
    ensures Grown(c, d, now, cfg).active[..|c.active|] == c.active
  {
    var g := Grown(c, d, now, cfg);
    var started := StartPhase(c, d.start, now, cfg.startupDelay);
    assert g.active[..|started.active|] == started.active;
    assert started.active[..|c.active|] == c.active;
  }

  /** What survives of a list that extends `prefix` covers its busy VMs and everything past it. */
  lemma KeptFromPrefix(prefix: seq<Vm>, grown: seq<Vm>, u: seq<Vm>)
    requires |prefix| <= |grown| && grown[..|prefix|] == prefix
    requires forall i :: 0 <= i < |grown| && (i >= |prefix| || grown[i].activeQ != []) ==> grown[i] in u
    ensures forall v :: v in prefix && v.activeQ != [] ==> v in u
    ensures forall i :: |prefix| <= i < |grown| ==> grown[i] in u
  {
    forall v | v in prefix && v.activeQ != []
      ensures v in u
    {
      var i :| 0 <= i < |prefix| && prefix[i] == v;
      assert grown[i] == v;
    }
  }

  /** The stop scan keeps the busy VMs and those from `firstNew` on in the active list. */
  lemma StopKeepsAt(g: ClusterState, firstNew: nat, budget: int, powerOff: real, u: seq<Vm>)
    requires u == Untag(StopOf(g, firstNew, budget, powerOff).remaining)
    ensures forall i :: 0 <= i < |g.active| && (i >= firstNew || g.active[i].activeQ != []) ==> g.active[i] in u
  {
    var slots := Tag(g.active, firstNew);
    var s := StopOf(g, firstNew, budget, powerOff);
    StopScanKeeps(slots, 0, budget, powerOff);
    forall i | 0 <= i < |g.active| && (i >= firstNew || g.active[i].activeQ != [])
      ensures g.active[i] in u
    {
      assert slots[i] in slots;
      var j :| 0 <= j < |s.remaining| && s.remaining[j] == slots[i];
      assert u[j] == g.active[i];
    }
  }

  /** A tick keeps ranks unique and every VM well formed. */
  lemma TickKeepsWellFormed(c: ClusterState, d: Decision, now: real, cfg: ScalerConfig)
    requires WellFormed(c)
    requires Tick(c, d, now, cfg).Ok?
    ensures WellFormed(Tick(c, d, now, cfg).value.cluster)
  {
    var st := Stopped(c, d, now, cfg);
    StoppedOfWellFormed(c, d, now, cfg);
    var ret := RetireScan(st.shuttingDown, 0, now).value;
    assert Tick(c, d, now, cfg).value.cluster == Retired(st, ret);
    RetiredKeepsWellFormed(st, ret, now);
  }

  lemma StoppedOfWellFormed(c: ClusterState, d: Decision, now: real, cfg: ScalerConfig)
    requires WellFormed(c)
    ensures WellFormed(Stopped(c, d, now, cfg))
  {
    GrownKeepsWellFormed(c, d, now, cfg);
    GrownStoppedWellFormed(c, d, now, cfg);
  }

  lemma GrownStoppedWellFormed(c: ClusterState, d: Decision, now: real, cfg: ScalerConfig)
    requires WellFormed(Grown(c, d, now, cfg))
    ensures WellFormed(Stopped(c, d, now, cfg))
  {
    var g := Grown(c, d, now, cfg);
    StoppedIs(c, d, now, cfg);
    StoppedKeepsWellFormed(g, Stopped(c, d, now, cfg), |c.active|, d.stop, now + cfg.shutdownDelay);
  }

  /** The active list after the stop phase is what the stop scan over the grown cluster leaves. */
  lemma StoppedActive(c: ClusterState, d: Decision, now: real, cfg: ScalerConfig)
    ensures Stopped(c, d, now, cfg).active ==
      Untag(StopOf(Grown(c, d, now, cfg), |c.active|, d.stop, now + cfg.shutdownDelay).remaining)
  {
  }

  lemma StoppedIs(c: ClusterState, d: Decision, now: real, cfg: ScalerConfig)
    ensures StopPhase(c, d, now, cfg) == StopOf(Grown(c, d, now, cfg), |c.active|, d.stop, now + cfg.shutdownDelay)
    ensures Stopped(c, d, now, cfg) == ApplyStop(Grown(c, d, now, cfg), StopPhase(c, d, now, cfg))
  {
  }

  lemma GrownKeepsWellFormed(c: ClusterState, d: Decision, now: real, cfg: ScalerConfig)
    requires WellFormed(c)
    ensures WellFormed(Grown(c, d, now, cfg))
  {
    StartPhaseKeepsWellFormed(c, d.start, now, cfg.startupDelay);
    PromoteKeepsWellFormed(StartPhase(c, d.start, now, cfg.startupDelay), now);
  }

  lemma RetiredKeepsWellFormed(st: ClusterState, ret: RetireOutcome, now: real)
    requires WellFormed(st)
    requires RetireScan(st.shuttingDown, 0, now) == Ok(ret)
    ensures WellFormed(Retired(st, ret))
  {
    var final := Retired(st, ret);
    RetireScanRanks(st.shuttingDown, 0, now);
    RanksOfAll(st);
    RanksOfAll(final);
    assert forall x :: x in AllVms(final) ==> x in AllVms(st);
    SubMiddle(Ranks(st.booting) + Ranks(st.active), Ranks(ret.remaining), Ranks(st.shuttingDown));
    KeepsWellFormed(st, final);
  }

  lemma SubMiddle(a: seq<int>, b: seq<int>, c: seq<int>)
    requires multiset(b) <= multiset(c)
    ensures multiset(a + b) <= multiset(a + c)
  {
  }

  lemma StoppedKeepsWellFormed(g: ClusterState, st: ClusterState, firstNew: nat, budget: int, powerOff: real)
    requires WellFormed(g)
    requires st == ApplyStop(g, StopOf(g, firstNew, budget, powerOff))
    ensures WellFormed(st)
  {
    StoppedRanks(g, firstNew, budget, powerOff);
    StoppedGood(g, firstNew, budget, powerOff);
    KeepsWellFormed(g, st);
  }

  lemma StoppedRanks(g: ClusterState, firstNew: nat, budget: int, powerOff: real)
    ensures multiset(Ranks(AllVms(ApplyStop(g, StopOf(g, firstNew, budget, powerOff))))) == multiset(Ranks(AllVms(g)))
  {
    var slots := Tag(g.active, firstNew);
    var s := StopOf(g, firstNew, budget, powerOff);
    UntagTag(g.active, firstNew);
    StopScanRanks(slots, 0, budget, powerOff, s);
    StopRegroup(g.booting, g.active, g.shuttingDown, slots, s.remaining, s.stopped);
  }

  /** Moving the stopped VMs from active to the end of shutting-down keeps the ranks. */
  lemma StopRegroup(b: seq<Vm>, a: seq<Vm>, sd: seq<Vm>, slots: seq<Slot>, rem: seq<Slot>, stopped: seq<Vm>)
    requires Untag(slots) == a
    requires multiset(SlotRanks(rem)) + multiset(Ranks(stopped)) == multiset(SlotRanks(slots))
    ensures multiset(Ranks(b + Untag(rem) + (sd + stopped))) == multiset(Ranks(b + a + sd))
  {
    RanksAppend(b + Untag(rem), sd + stopped);
    RanksAppend(b, Untag(rem));
    RanksAppend(sd, stopped);
    RanksAppend(b + a, sd);
    RanksAppend(b, a);
    StopRanksRegroup(Ranks(b), SlotRanks(rem), Ranks(stopped), Ranks(a), Ranks(sd));
  }

  lemma StoppedGood(g: ClusterState, firstNew: nat, budget: int, powerOff: real)
    requires AllGood(AllVms(g), g.density)
    ensures AllGood(AllVms(ApplyStop(g, StopOf(g, firstNew, budget, powerOff))), g.density)
  {
    var slots := Tag(g.active, firstNew);
    var s := StopOf(g, firstNew, budget, powerOff);
    var st := ApplyStop(g, s);
    StopScanStopped(slots, 0, budget, powerOff);
    StopScanSubset(slots, 0, budget, powerOff);
    forall x | x in AllVms(st)
      ensures GoodVm(x, g.density)
    {
      if x in s.stopped {
        var t :| t in slots && !t.protected && x == t.vm.(powerOffTime := powerOff);
        var k :| 0 <= k < |slots| && slots[k] == t;
        assert g.active[k] in AllVms(g);
      } else if x in Untag(s.remaining) {
        var k :| 0 <= k < |s.remaining| && Untag(s.remaining)[k] == x;
        assert s.remaining[k] in slots;
        var m :| 0 <= m < |slots| && slots[m] == s.remaining[k];
        assert g.active[m] in AllVms(g);
      } else {
        assert x in AllVms(g);
      }
    }
  }

  lemma StopRanksRegroup(b: seq<int>, rem: seq<int>, stp: seq<int>, act: seq<int>, sd: seq<int>)
    requires multiset(rem) + multiset(stp) == multiset(act)
    ensures multiset(b + rem + (sd + stp)) == multiset(b + act + sd)
  {
  }

  /**
   * The occupancy sample is the number of seats in use on booting and
   * active VMs.
   */
  lemma TickOccupancy(c: ClusterState, d: Decision, now: real, cfg: ScalerConfig)
    requires WellFormed(c)
    requires Tick(c, d, now, cfg).Ok?
    ensures var o := Tick(c, d, now, cfg).value;
      o.sample.occupancy == SumOccupied(o.cluster.booting + o.cluster.active)
  {
    TickKeepsWellFormed(c, d, now, cfg);
    SeatAccounting(Tick(c, d, now, cfg).value.cluster);
  }

  /**
   * The skip after a removal: with two idle unprotected VMs and two stops
   * requested, only the first VM is stopped.
   */
  lemma StopScanSkipsNeighbour(a: Vm, b: Vm, powerOff: real)
    requires a.activeQ == [] && b.activeQ == []
    ensures |StopScan([Slot(a, false), Slot(b, false)], 0, 2, powerOff).stopped| == 1
  {
    var slots := [Slot(a, false), Slot(b, false)];
    assert slots[..0] + slots[1..] == [Slot(b, false)];
  }
}

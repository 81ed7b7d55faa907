/**
 * The elastic cluster: three buckets of VMs (booting, active, shutting down),
 * the waterfall placement rule, the seat counters and the rank allocator.
 */
module Cluster {
  import opened Wrappers

  /** A user holding a seat: its id and the time it arrived. */
  datatype Occupant = Occupant(id: nat, arrivalTime: real)

  /**
   * A VM is a SimPy Resource with `capacity` seats, a placement `rank`, the
   * users currently holding its seats, and the timestamps the scaler attaches.
   * `startTime` is None for the VMs the cluster is constructed with: nothing
   * ever sets that attribute on them.
   */
  datatype Vm = Vm(rank: int, capacity: nat, activeQ: seq<Occupant>,
                   startTime: Option<real>, readyTime: real, powerOffTime: real)
  {
    /** SimPy's Resource.n: the number of free seats. */
    function Free(): int {
      capacity - |activeQ|
    }
  }

  datatype ClusterState = ClusterState(
    booting: seq<Vm>,
    active: seq<Vm>,
    shuttingDown: seq<Vm>,
    density: nat,
    totalProv: nat,     // class-level counter of VMs ever provisioned
    totalDeleted: nat)  // class-level counter of VMs ever retired

  /** Every VM of the cluster, in the order the rank allocator sees them. */
  function AllVms(c: ClusterState): seq<Vm> {
    c.booting + c.active + c.shuttingDown
  }

  function Ranks(vms: seq<Vm>): (r: seq<int>)
    ensures |r| == |vms|
  {
    seq(|vms|, i requires 0 <= i < |vms| => vms[i].rank)
  }

  lemma RanksAppend(a: seq<Vm>, b: seq<Vm>)
    ensures Ranks(a + b) == Ranks(a) + Ranks(b)
  {
  }

  /** Removing the element at position i takes its rank out of the ranks. */
  lemma RanksRemoveAt(vms: seq<Vm>, i: nat)
    requires i < |vms|
    ensures multiset(Ranks(vms[..i] + vms[i + 1..])) + multiset{vms[i].rank} == multiset(Ranks(vms))
  {
    var r := Ranks(vms);
    assert Ranks(vms[..i] + vms[i + 1..]) == r[..i] + r[i + 1..];
    MultisetRemoveAt(r, i);
  }

  lemma MultisetRemoveAt(s: seq<int>, i: nat)
    requires i < |s|
    ensures multiset(s[..i] + s[i + 1..]) + multiset{s[i]} == multiset(s)
  {
    assert s == s[..i] + [s[i]] + s[i + 1..];
  }

  predicate Distinct(s: seq<int>) {
    forall i, j :: 0 <= i < j < |s| ==> s[i] != s[j]
  }

  /** A VM as the cluster keeps it: a non-negative rank, `density` seats, no overbooking. */
  predicate GoodVm(v: Vm, density: nat) {
    v.rank >= 0 && v.capacity == density && |v.activeQ| <= v.capacity
  }

  predicate AllGood(vms: seq<Vm>, density: nat) {
    forall v :: v in vms ==> GoodVm(v, density)
  }

  /** The cluster invariant: ranks are unique and every VM is well formed. */
  predicate WellFormed(c: ClusterState) {
    Distinct(Ranks(AllVms(c))) && AllGood(AllVms(c), c.density)
  }

  // ---------------------------------------------------------------------
  // Multiset facts about distinct sequences

  lemma DuplicateCount(t: seq<int>, i: nat, j: nat)
    requires i < j < |t| && t[i] == t[j]
    ensures multiset(t)[t[i]] >= 2
  {
    assert t == t[..j] + [t[j]] + t[j + 1..];
    assert t[i] in t[..j];
  }

  lemma {:induction false} DistinctCount(s: seq<int>, x: int)
    requires Distinct(s)
    ensures multiset(s)[x] <= 1
    decreases |s|
  {
    if |s| > 0 {
      var n := |s| - 1;
      assert s == s[..n] + [s[n]];
      DistinctCount(s[..n], x);
      if x == s[n] {
        assert x !in s[..n];
      }
    }
  }

  /** A sub-multiset of a sequence without duplicates has none either. */
  lemma DistinctSubMultiset(s: seq<int>, t: seq<int>)
    requires Distinct(s) && multiset(t) <= multiset(s)
    ensures Distinct(t)
  {
    forall i, j | 0 <= i < j < |t|
      ensures t[i] != t[j]
    {
      if t[i] == t[j] {
        DuplicateCount(t, i, j);
        DistinctCount(s, t[i]);
      }
    }
  }

  // ---------------------------------------------------------------------
  // Rank allocation

  predicate Sorted(s: seq<int>) {
    forall i, j :: 0 <= i < j < |s| ==> s[i] <= s[j]
  }

  function Insert(x: int, s: seq<int>): (r: seq<int>)
    ensures |r| == |s| + 1
  {
    if |s| == 0 then [x]
    else if x <= s[0] then [x] + s
    else [s[0]] + Insert(x, s[1..])
  }

  /** Python's sorted() on the ranks (an insertion sort). */
  function Sort(s: seq<int>): (r: seq<int>)
    ensures |r| == |s|
  {
    if |s| == 0 then [] else Insert(s[|s| - 1], Sort(s[..|s| - 1]))
  }

  lemma {:induction false} InsertMultiset(x: int, s: seq<int>)
    ensures multiset(Insert(x, s)) == multiset(s) + multiset{x}
    decreases |s|
  {
    if |s| > 0 && x > s[0] {
      assert s == [s[0]] + s[1..];
      InsertMultiset(x, s[1..]);
    }
  }

  /** Inserting a value no smaller than a lower bound keeps every entry above that bound. */
  lemma {:induction false} InsertAbove(x: int, s: seq<int>, lo: int)
    requires lo <= x && forall i :: 0 <= i < |s| ==> lo <= s[i]
    ensures forall i :: 0 <= i < |Insert(x, s)| ==> lo <= Insert(x, s)[i]
    decreases |s|
  {
    if |s| > 0 && x > s[0] {
      InsertAbove(x, s[1..], lo);
    }
  }

  lemma {:induction false} InsertKeepsSorted(x: int, s: seq<int>)
    requires Sorted(s)
    ensures Sorted(Insert(x, s))
    decreases |s|
  {
    if |s| > 0 && x > s[0] {
      InsertKeepsSorted(x, s[1..]);
      InsertAbove(x, s[1..], s[0]);
    }
  }

  lemma InsertSorted(x: int, s: seq<int>)
    requires Sorted(s)
    ensures Sorted(Insert(x, s)) && multiset(Insert(x, s)) == multiset(s) + multiset{x}
  {
    InsertKeepsSorted(x, s);
    InsertMultiset(x, s);
  }

  lemma {:induction false} SortSorted(s: seq<int>)
    ensures Sorted(Sort(s)) && multiset(Sort(s)) == multiset(s)
    decreases |s|
  {
    if |s| > 0 {
      assert s == s[..|s| - 1] + [s[|s| - 1]];
      SortSorted(s[..|s| - 1]);
      InsertSorted(s[|s| - 1], Sort(s[..|s| - 1]));
    }
  }

  /** The first position i (from `from`) whose entry differs from i, else |s|. */
  function FirstGap(s: seq<int>, from: nat): (r: nat)
    requires from <= |s|
    ensures from <= r <= |s|
    ensures forall j :: from <= j < r ==> s[j] == j
    ensures r < |s| ==> s[r] != r
    decreases |s| - from
  {
    if from == |s| then |s|
    else if s[from] != from then from
    else FirstGap(s, from + 1)
  }

  /** The rank handed to the next VM: scan the sorted ranks for the first gap. */
  function NextPriority(c: ClusterState): (r: nat)
    ensures r <= |AllVms(c)|
  {
    FirstGap(Sort(Ranks(AllVms(c))), 0)
  }

  lemma SortedDistinctIncreasing(t: seq<int>)
    requires Sorted(t) && Distinct(t)
    ensures forall i, j :: 0 <= i < j < |t| ==> t[i] < t[j]
  {
  }

  /**
   * With unique non-negative ranks, the allocator returns the least
   * non-negative integer that no VM of the cluster uses.
   */
  lemma NextPriorityIsLeastUnused(c: ClusterState)
    requires Distinct(Ranks(AllVms(c)))
    requires forall v :: v in AllVms(c) ==> v.rank >= 0
    ensures NextPriority(c) !in Ranks(AllVms(c))
    ensures forall j :: 0 <= j < NextPriority(c) ==> j in Ranks(AllVms(c))
  {
    var ranks := Ranks(AllVms(c));
    var t := Sort(ranks);
    var r := NextPriority(c);
    SortSorted(ranks);
    DistinctSubMultiset(ranks, t);
    SortedDistinctIncreasing(t);
    forall m | 0 <= m < |t|
      ensures t[m] >= 0
    {
      assert t[m] in multiset(ranks);
      var k :| 0 <= k < |ranks| && ranks[k] == t[m];
      assert AllVms(c)[k] in AllVms(c);
    }
    forall m | 0 <= m < |t|
      ensures t[m] != r
    {
      if m < r {
        assert t[m] == m;
      } else if m == r {
      } else {
        if r > 0 {
          assert t[r - 1] == r - 1;
        }
        assert t[r] > r - 1 && t[r] != r;
        assert t[m] > t[r];
      }
    }
    assert r !in t;
    assert r !in multiset(t);
    forall j | 0 <= j < r
      ensures j in ranks
    {
      assert t[j] == j;
      assert j in multiset(t);
    }
  }

  // ---------------------------------------------------------------------
  // Construction

  /** A fresh VM: `density` seats, no users, the next free rank. */
  function CreateVm(c: ClusterState): Vm {
    Vm(NextPriority(c), c.density, [], None, 0.0, 0.0)
  }

  /**
   * In a well-formed cluster the created VM is well formed and its rank is
   * used by no VM of the cluster, so adding it keeps ranks unique.
   */
  lemma CreatedVmIsFresh(c: ClusterState)
    requires WellFormed(c)
    ensures CreateVm(c).rank !in Ranks(AllVms(c))
    ensures GoodVm(CreateVm(c), c.density)
  {
    NextPriorityIsLeastUnused(c);
  }

  /**
   * A cluster built with `initialCapacity` active VMs.  The provisioning
   * counter is shared by every cluster of the run, so its current value is
   * an input.
   */
  function NewCluster(density: nat, initialCapacity: nat, totalProv: nat, totalDeleted: nat): (c: ClusterState)
    ensures c.booting == [] && c.shuttingDown == [] && |c.active| == initialCapacity
    ensures c.density == density && c.totalDeleted == totalDeleted
    ensures c.totalProv == totalProv + initialCapacity
  {
    if initialCapacity == 0 then ClusterState([], [], [], density, totalProv, totalDeleted)
    else
      var c := NewCluster(density, initialCapacity - 1, totalProv, totalDeleted);
      c.(active := c.active + [CreateVm(c)], totalProv := c.totalProv + 1)
  }

  lemma DistinctAppend(s: seq<int>, x: int)
    requires Distinct(s) && x !in s
    ensures Distinct(s + [x])
  {
  }

  /** In a cluster whose only VMs are active with ranks 0..k-1, the next rank is k. */
  lemma NextPriorityAfterPrefix(p: ClusterState, k: nat)
    requires p.booting == [] && p.shuttingDown == [] && |p.active| == k
    requires RankedByPosition(p.active)
    requires WellFormed(p)
    ensures CreateVm(p).rank == k
  {
    var ranks := Ranks(AllVms(p));
    assert AllVms(p) == p.active;
    assert forall i :: 0 <= i < k ==> ranks[i] == i;
    var r := CreateVm(p).rank;
    NextPriorityIsLeastUnused(p);
    assert r !in ranks;
    forall i | 0 <= i < k
      ensures i in ranks
    {
      assert ranks[i] == i;
    }
    assert k < r ==> k in ranks;
  }

  /** The active VMs are empty and ranked by their position: 0, 1, ..., k-1. */
  predicate RankedByPosition(vms: seq<Vm>) {
    forall i :: 0 <= i < |vms| ==> vms[i].rank == i && vms[i].activeQ == []
  }

  /**
   * The VMs of a new cluster get the ranks 0, 1, ..., k-1 in order, are
   * empty and the cluster satisfies the invariant.
   */
  lemma {:induction false} NewClusterRanks(density: nat, k: nat, totalProv: nat, totalDeleted: nat)
    ensures WellFormed(NewCluster(density, k, totalProv, totalDeleted))
    ensures RankedByPosition(NewCluster(density, k, totalProv, totalDeleted).active)
  {
    if k > 0 {
      var p := NewCluster(density, k - 1, totalProv, totalDeleted);
      NewClusterRanks(density, k - 1, totalProv, totalDeleted);
      AppendFreshKeepsWellFormed(p);
      AppendFreshKeepsRanking(p);
    }
  }

  lemma AppendFreshKeepsRanking(p: ClusterState)
    requires WellFormed(p) && p.booting == [] && p.shuttingDown == []
    requires RankedByPosition(p.active)
    ensures RankedByPosition(p.active + [CreateVm(p)])
  {
    var v := CreateVm(p);
    NextPriorityAfterPrefix(p, |p.active|);
    assert v.rank == |p.active|;
    var a := p.active + [v];
    assert forall i :: 0 <= i < |p.active| ==> a[i] == p.active[i];
  }

  /** The rank sequence of the whole cluster, bucket by bucket. */
  lemma RanksOfAll(c: ClusterState)
    ensures Ranks(AllVms(c)) == Ranks(c.booting) + Ranks(c.active) + Ranks(c.shuttingDown)
  {
    RanksAppend(c.booting, c.active);
    RanksAppend(c.booting + c.active, c.shuttingDown);
  }

  /**
   * Moving, dropping or re-timing VMs keeps the invariant as long as no rank
   * is duplicated and every VM that remains was well formed.
   */
  lemma KeepsWellFormed(p: ClusterState, c: ClusterState)
    requires WellFormed(p) && c.density == p.density
    requires multiset(Ranks(AllVms(c))) <= multiset(Ranks(AllVms(p)))
    requires AllGood(AllVms(c), c.density)
    ensures WellFormed(c)
  {
    DistinctSubMultiset(Ranks(AllVms(p)), Ranks(AllVms(c)));
  }

  /** Adding a VM with a fresh rank keeps the invariant. */
  lemma AddKeepsWellFormed(p: ClusterState, c: ClusterState, v: Vm)
    requires WellFormed(p) && c.density == p.density
    requires v.rank !in Ranks(AllVms(p)) && GoodVm(v, p.density)
    requires multiset(Ranks(AllVms(c))) == multiset(Ranks(AllVms(p))) + multiset{v.rank}
    requires forall x :: x in AllVms(c) ==> x in AllVms(p) || x == v
    ensures WellFormed(c)
  {
    DistinctAppend(Ranks(AllVms(p)), v.rank);
    assert multiset(Ranks(AllVms(p)) + [v.rank]) == multiset(Ranks(AllVms(p))) + multiset{v.rank};
    DistinctSubMultiset(Ranks(AllVms(p)) + [v.rank], Ranks(AllVms(c)));
  }

  lemma MultisetInsertMiddle(a: seq<int>, b: seq<int>, x: int, c: seq<int>)
    ensures multiset(a + (b + [x]) + c) == multiset(a + b + c) + multiset{x}
  {
  }

  lemma AppendFreshKeepsWellFormed(p: ClusterState)
    requires WellFormed(p)
    ensures WellFormed(p.(active := p.active + [CreateVm(p)], totalProv := p.totalProv + 1))
  {
    var v := CreateVm(p);
    CreatedVmIsFresh(p);
    var c := p.(active := p.active + [v], totalProv := p.totalProv + 1);
    var rb, ra, rs := Ranks(p.booting), Ranks(p.active), Ranks(p.shuttingDown);
    RanksOfAll(p);
    RanksOfAll(c);
    RanksAppend(p.active, [v]);
    assert Ranks(AllVms(c)) == rb + (ra + [v.rank]) + rs;
    MultisetInsertMiddle(rb, ra, v.rank, rs);
    assert AllVms(c) == p.booting + (p.active + [v]) + p.shuttingDown;
    AddKeepsWellFormed(p, c, v);
  }

  // ---------------------------------------------------------------------
  // Placement and counters

  /**
   * `best` is the best candidate among active[..i]: a VM with a free seat of
   * the lowest rank, the first such, or None when none of them has a free seat.
   */
  predicate BestAmong(active: seq<Vm>, i: nat, best: Option<nat>)
    requires i <= |active|
  {
    (best.Some? ==> best.value < i && active[best.value].Free() > 0) &&
    (best.Some? ==> forall j :: 0 <= j < i && active[j].Free() > 0 ==> active[best.value].rank <= active[j].rank) &&
    (best.Some? ==> forall j :: 0 <= j < best.value && active[j].Free() > 0 ==> active[j].rank > active[best.value].rank) &&
    (best.None? ==> forall j :: 0 <= j < i ==> active[j].Free() <= 0)
  }

  /** The candidate after looking at active[i]: it replaces the best so far only when strictly better. */
  function Consider(active: seq<Vm>, i: nat, best: Option<nat>): Option<nat>
    requires i < |active| && (best.Some? ==> best.value < |active|)
  {
    if active[i].Free() > 0 && (best.None? || active[i].rank < active[best.value].rank) then Some(i) else best
  }

  lemma ConsiderKeepsBest(active: seq<Vm>, i: nat, best: Option<nat>)
    requires i < |active| && BestAmong(active, i, best)
    ensures BestAmong(active, i + 1, Consider(active, i, best))
  {
  }

  /** Index of the best candidate among active[..i] joined with the best so far. */
  function FindFrom(active: seq<Vm>, i: nat, best: Option<nat>): (r: Option<nat>)
    requires i <= |active| && BestAmong(active, i, best)
    ensures r.None? <==> forall j :: 0 <= j < |active| ==> active[j].Free() <= 0
    ensures r.Some? ==> r.value < |active| && active[r.value].Free() > 0
    ensures r.Some? ==> forall j :: 0 <= j < |active| && active[j].Free() > 0 ==> active[r.value].rank <= active[j].rank
    ensures r.Some? ==> forall j :: 0 <= j < r.value && active[j].Free() > 0 ==> active[j].rank > active[r.value].rank
    decreases |active| - i
  {
    if i == |active| then best
    else
      ConsiderKeepsBest(active, i, best);
      FindFrom(active, i + 1, Consider(active, i, best))
  }

  /**
   * Waterfall placement: the active VM with a free seat and the lowest rank;
   * among equal ranks the one listed first (sorted() is stable).  None when
   * no active VM has a free seat.
   */
  function FindServer(c: ClusterState): (r: Option<nat>)
    ensures r.None? <==> forall j :: 0 <= j < |c.active| ==> c.active[j].Free() <= 0
    ensures r.Some? ==> r.value < |c.active| && c.active[r.value].Free() > 0
    ensures r.Some? ==> forall j :: 0 <= j < |c.active| && c.active[j].Free() > 0 ==> c.active[r.value].rank <= c.active[j].rank
    ensures r.Some? ==> forall j :: 0 <= j < r.value && c.active[j].Free() > 0 ==> c.active[j].rank > c.active[r.value].rank
  {
    FindFrom(c.active, 0, None)
  }

  /** Seat capacity: booting and active VMs count, shutting-down VMs do not. */
  function Capacity(c: ClusterState): int {
    (|c.booting| + |c.active|) * c.density
  }

  /** Capacity moves by `density` seats per VM added to booting or active. */
  lemma CapacityFromCounts(c: ClusterState, r: ClusterState, added: int)
    requires r.density == c.density
    requires |r.booting| + |r.active| == |c.booting| + |c.active| + added
    ensures Capacity(r) == Capacity(c) + added * c.density
  {
    var x := |c.booting| + |c.active|;
    assert Capacity(r) == (x + added) * c.density;
    assert (x + added) * c.density == x * c.density + added * c.density;
  }

  function SumFree(vms: seq<Vm>): int {
    if |vms| == 0 then 0 else SumFree(vms[..|vms| - 1]) + vms[|vms| - 1].Free()
  }

  function SumCapacity(vms: seq<Vm>): int {
    if |vms| == 0 then 0 else SumCapacity(vms[..|vms| - 1]) + vms[|vms| - 1].capacity
  }

  function SumOccupied(vms: seq<Vm>): int {
    if |vms| == 0 then 0 else SumOccupied(vms[..|vms| - 1]) + |vms[|vms| - 1].activeQ|
  }

  /** The number of uncommitted seats over booting and active VMs. */
  function FreeSeats(c: ClusterState): int {
    SumFree(c.booting + c.active)
  }

  lemma {:induction false} SumFreeSplit(vms: seq<Vm>)
    ensures SumFree(vms) == SumCapacity(vms) - SumOccupied(vms)
    decreases |vms|
  {
    if |vms| > 0 {
      SumFreeSplit(vms[..|vms| - 1]);
    }
  }

  lemma {:induction false} SumCapacityGood(vms: seq<Vm>, density: nat)
    requires AllGood(vms, density)
    ensures SumCapacity(vms) == |vms| * density
    ensures 0 <= SumOccupied(vms) <= SumCapacity(vms)
    decreases |vms|
  {
    if |vms| > 0 {
      var n := |vms| - 1;
      assert vms[n] in vms;
      SumCapacityGood(vms[..n], density);
    }
  }

  /**
   * Capacity is the sum of the seats of the booting and active VMs, the free
   * seats are that capacity minus the seats in use, and so 0 <= n <= capacity.
   */
  lemma SeatAccounting(c: ClusterState)
    requires WellFormed(c)
    ensures Capacity(c) == SumCapacity(c.booting + c.active)
    ensures FreeSeats(c) == Capacity(c) - SumOccupied(c.booting + c.active)
    ensures 0 <= FreeSeats(c) <= Capacity(c)
  {
    var vms := c.booting + c.active;
    assert forall v :: v in vms ==> v in AllVms(c);
    SumCapacityGood(vms, c.density);
    SumFreeSplit(vms);
  }
}

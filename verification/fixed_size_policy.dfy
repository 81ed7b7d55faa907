/**
 * The fixed-size policies: the first tick asks for the configured number of
 * VMs, and every later tick asks for nothing.  `LegacyFixedSize` is the older
 * copy of the same policy, whose target is called `cluster_vms`.
 */
module FixedSizePolicy {
  import opened Scaler

  /** The policy's call state: the target size and whether it has been asked before. */
  datatype FixedSize = FixedSize(numVms: int, called: bool)

  function NewFixedSize(numVms: int): (p: FixedSize)
    ensures !p.called && p.numVms == numVms
  {
    FixedSize(numVms, false)
  }

  /** One call of scaler_logic: the decision and the policy's next state. */
  function Step(p: FixedSize): (r: (Decision, FixedSize))
    ensures r.0.stop == 0
    ensures !p.called ==> r.0.start == p.numVms
    ensures p.called ==> r.0 == Decision(0, 0)
    ensures r.1 == p.(called := true)
  {
    if !p.called then (Decision(p.numVms, 0), p.(called := true))
    else (Decision(0, 0), p)
  }

  /** The decisions of `k` consecutive calls. */
  function Run(p: FixedSize, k: nat): (r: seq<Decision>)
    ensures |r| == k
    decreases k
  {
    if k == 0 then [] else [Step(p).0] + Run(Step(p).1, k - 1)
  }

  function TotalStarts(ds: seq<Decision>): int
  {
    if |ds| == 0 then 0 else ds[0].start + TotalStarts(ds[1..])
  }

  /**
   * Over any positive number of ticks a fresh policy asks for exactly its
   * target number of VMs, all on the first tick, and never stops one.
   */
  lemma {:induction false} RunStartsOnce(numVms: int, k: nat)
    requires k > 0
    ensures Run(NewFixedSize(numVms), k)[0] == Decision(numVms, 0)
    ensures forall i :: 1 <= i < k ==> Run(NewFixedSize(numVms), k)[i] == Decision(0, 0)
    ensures TotalStarts(Run(NewFixedSize(numVms), k)) == numVms
  {
    var q := FixedSize(numVms, true);
    CalledStaysIdle(q, k - 1);
    assert Run(NewFixedSize(numVms), k) == [Decision(numVms, 0)] + Run(q, k - 1);
  }

  /** Once called, the policy only ever returns (0, 0) and keeps its flag set. */
  lemma {:induction false} CalledStaysIdle(p: FixedSize, k: nat)
    requires p.called
    ensures forall i :: 0 <= i < k ==> Run(p, k)[i] == Decision(0, 0)
    ensures TotalStarts(Run(p, k)) == 0
    decreases k
  {
    if k > 0 {
      CalledStaysIdle(p, k - 1);
      assert Step(p).1 == p;
    }
  }

  // The legacy copy of the policy.

  datatype LegacyFixedSize = LegacyFixedSize(clusterVms: int, called: bool)

  function LegacyStep(p: LegacyFixedSize): (r: (Decision, LegacyFixedSize))
    ensures r.0.stop == 0
    ensures !p.called ==> r.0.start == p.clusterVms
    ensures p.called ==> r.0 == Decision(0, 0)
    ensures r.1 == p.(called := true)
  {
    if !p.called then (Decision(p.clusterVms, 0), p.(called := true))
    else (Decision(0, 0), p)
  }

  /** The legacy policy decides exactly as the current one. */
  lemma LegacyAgrees(n: int, called: bool)
    ensures LegacyStep(LegacyFixedSize(n, called)).0 == Step(FixedSize(n, called)).0
    ensures LegacyStep(LegacyFixedSize(n, called)).1.called == Step(FixedSize(n, called)).1.called
  {
  }
}

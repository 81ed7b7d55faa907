/**
 * The Erlang-B policies.  The fixed policy sizes the cluster once, on its
 * first call, to the fewest VMs whose seats keep the closed-form blocking
 * probability below `worst_bp`.  The data-driven policy follows a capacity
 * plan, one entry per tick, after an initial lag; the plan builder that
 * uses the recursive form with a memo is modelled as `PlanFrom`.
 */
module ErlangPolicy {
  import opened Wrappers
  import opened Cluster
  import opened Scaler
  import opened ErlangB

  /** Which of the two Erlang-B formulations a search evaluates. */
  datatype Form = ClosedForm | RecursiveForm

  /** The blocking probability with `c` seats, in the chosen form. */
  function BlockingOf(form: Form, e: real, c: nat): (r: real)
    requires e >= 0.0
    ensures 0.0 <= r <= 1.0
  {
    match form
    case ClosedForm => ErlangBClosed(e, c).value
    case RecursiveForm => Blocking(e, c)
  }

  /** In either form, more than E / bp seats block less than bp of the traffic. */
  lemma BlockingOfBelow(form: Form, e: real, bp: real, c: nat)
    requires e >= 0.0 && bp > 0.0 && c >= 1 && (c as real) * bp > e
    ensures BlockingOf(form, e, c) < bp
  {
    if e > 0.0 {
      ClosedMatchesRecursive(e, c);
      BlockingBelow(e, bp, c);
    }
  }

  // ---------------------------------------------------------------------
  // The search for the fewest VMs

  /**
   * The first k in [k0, bound] whose k * density seats block less than bp;
   * `bound` is one such k, so the search stops there at the latest.
   */
  function LeastServers(form: Form, e: real, density: nat, bp: real, k: nat, bound: nat): (r: nat)
    requires e >= 0.0 && k <= bound
    requires BlockingOf(form, e, bound * density) < bp
    ensures k <= r <= bound
    ensures BlockingOf(form, e, r * density) < bp
    ensures forall j :: k <= j < r ==> BlockingOf(form, e, j * density) >= bp
    decreases bound - k
  {
    if BlockingOf(form, e, k * density) < bp then k
    else LeastServers(form, e, density, bp, k + 1, bound)
  }

  /**
   * The inputs for which the search loop of the source terminates: for a
   * threshold above 1 the loop never runs; otherwise it needs a positive
   * threshold and VMs with at least one seat.
   */
  predicate Searchable(e: real, density: int, bp: real) {
    e >= 0.0 && (bp > 1.0 || (bp > 0.0 && density > 0))
  }

  lemma SeatsAtLeastServers(k: nat, density: nat)
    requires density >= 1
    ensures k * density >= k
  {
  }

  /**
   * The number of VMs the search loop settles on: -1 when the threshold
   * exceeds 1 (the loop body never runs), and otherwise the fewest VMs whose
   * seats block less than the threshold.
   */
  function ServersToStart(form: Form, e: real, density: int, bp: real): (r: int)
    requires Searchable(e, density, bp)
    ensures bp > 1.0 ==> r == -1
    ensures bp <= 1.0 ==> r >= 0 && BlockingOf(form, e, r * density) < bp
    ensures bp <= 1.0 ==> forall j :: 0 <= j < r ==> BlockingOf(form, e, j * density) >= bp
  {
    if bp > 1.0 then -1
    else
      var bound := SearchBound(e, bp);
      SeatsAtLeastServers(bound, density);
      BlockingOfBelow(form, e, bp, bound * density);
      LeastServers(form, e, density, bp, 0, bound)
  }

  /** For a threshold of at most 1, no other count of VMs has both properties. */
  lemma ServersToStartUnique(form: Form, e: real, density: int, bp: real, k: nat)
    requires Searchable(e, density, bp) && bp <= 1.0
    requires BlockingOf(form, e, k * density) < bp
    requires forall j :: 0 <= j < k ==> BlockingOf(form, e, j * density) >= bp
    ensures ServersToStart(form, e, density, bp) == k
  {
  }

  /** With no traffic, the closed form still needs one VM, the recursive form none. */
  lemma NoTrafficServers(density: int, bp: real)
    requires 0.0 < bp <= 1.0 && density > 0
    ensures ServersToStart(ClosedForm, 0.0, density, bp) == 1
    ensures ServersToStart(RecursiveForm, 0.0, density, bp) == 0
  {
    var k := ServersToStart(ClosedForm, 0.0, density, bp);
    assert BlockingOf(ClosedForm, 0.0, 0 * density) == 1.0;
    assert BlockingOf(ClosedForm, 0.0, 1 * density) == 0.0;
    ServersToStartUnique(ClosedForm, 0.0, density, bp, 1);
    ServersToStartUnique(RecursiveForm, 0.0, density, bp, 0);
  }

  // ---------------------------------------------------------------------
  // The fixed policy

  /** The offered traffic E = lamda / mu, and whether the policy has been asked before. */
  datatype ErlangFixed = ErlangFixed(traffic: real, worstBp: real, called: bool)

  /** The constructor: dividing by a zero service rate raises ZeroDivisionError. */
  function NewErlangFixed(lamda: real, mu: real, worstBp: real): (r: Result<ErlangFixed>)
    ensures mu == 0.0 <==> r.Err?
    ensures r.Err? ==> r.error == ZeroDivisionError
    ensures r.Ok? ==> r.value.traffic * mu == lamda && r.value.worstBp == worstBp && !r.value.called
  {
    if mu == 0.0 then Err(ZeroDivisionError)
    else Ok(ErlangFixed(lamda / mu, worstBp, false))
  }

  /**
   * One call of scaler_logic.  The first call starts the fewest VMs that keep
   * closed-form blocking below worst_bp (or -1 when worst_bp exceeds 1);
   * every later call asks for nothing.  The policy never stops a VM.
   */
  function FixedStep(p: ErlangFixed, density: int): (r: (Decision, ErlangFixed))
    requires !p.called ==> Searchable(p.traffic, density, p.worstBp)
    ensures r.0.stop == 0 && r.1 == p.(called := true)
    ensures p.called ==> r.0 == Decision(0, 0)
    ensures !p.called && p.worstBp > 1.0 ==> r.0.start == -1
    ensures !p.called && p.worstBp <= 1.0 ==>
      r.0.start >= 0 && BlockingOf(ClosedForm, p.traffic, r.0.start * density) < p.worstBp
    ensures !p.called && p.worstBp <= 1.0 ==>
      forall j :: 0 <= j < r.0.start ==> BlockingOf(ClosedForm, p.traffic, j * density) >= p.worstBp
  {
    if !p.called then
      (Decision(ServersToStart(ClosedForm, p.traffic, density, p.worstBp), 0), p.(called := true))
    else (Decision(0, 0), p)
  }

  /** The decisions of `k` consecutive calls against a cluster of fixed density. */
  function FixedRun(p: ErlangFixed, density: int, k: nat): (r: seq<Decision>)
    requires !p.called ==> Searchable(p.traffic, density, p.worstBp)
    ensures |r| == k
    decreases k
  {
    if k == 0 then [] else [FixedStep(p, density).0] + FixedRun(FixedStep(p, density).1, density, k - 1)
  }

  /** After the first call, the policy only ever returns (0, 0). */
  lemma {:induction false} FixedRunStartsOnce(p: ErlangFixed, density: int, k: nat)
    requires !p.called && Searchable(p.traffic, density, p.worstBp) && k > 0
    ensures FixedRun(p, density, k)[0] == Decision(ServersToStart(ClosedForm, p.traffic, density, p.worstBp), 0)
    ensures forall i :: 1 <= i < k ==> FixedRun(p, density, k)[i] == Decision(0, 0)
  {
    FixedCalledIdle(p.(called := true), density, k - 1);
  }

  lemma {:induction false} FixedCalledIdle(p: ErlangFixed, density: int, k: nat)
    requires p.called
    ensures forall i :: 0 <= i < k ==> FixedRun(p, density, k)[i] == Decision(0, 0)
    decreases k
  {
    if k > 0 {
      FixedCalledIdle(p, density, k - 1);
      assert FixedStep(p, density).1 == p;
    }
  }

  /**
   * scaler_logic of the older copy of the fixed policy, with its search loop
   * written out: from -1 VMs and a blocking probability of 1, add a VM while
   * the closed-form blocking of the VMs' seats is still at least worst_bp.
   * It decides exactly as FixedStep.
   */
  method LegacyScalerLogic(p: ErlangFixed, density: int) returns (d: Decision, next: ErlangFixed)
    requires !p.called ==> Searchable(p.traffic, density, p.worstBp)
    ensures (d, next) == FixedStep(p, density)
  {
    if p.called {
      return Decision(0, 0), p;
    }
    var e := p.traffic;
    var bound := if p.worstBp > 1.0 then 0 else SearchBound(e, p.worstBp);
    if p.worstBp <= 1.0 {
      SeatsAtLeastServers(bound, density);
      BlockingOfBelow(ClosedForm, e, p.worstBp, bound * density);
    }
    var servers := -1;
    var bp := 1.0;
    while bp >= p.worstBp
      invariant -1 <= servers <= bound
      invariant servers == -1 ==> bp == 1.0
      invariant p.worstBp > 1.0 ==> servers == -1
      invariant servers >= 0 ==> bp == BlockingOf(ClosedForm, e, servers * density)
      invariant forall j :: 0 <= j < servers ==> BlockingOf(ClosedForm, e, j * density) >= p.worstBp
      decreases bound - servers
    {
      servers := servers + 1;
      var seats := servers * density;
      var loss := LegacyLossEquation(e, seats);
      bp := loss.value;
    }
    if p.worstBp <= 1.0 {
      assert servers >= 0 && BlockingOf(ClosedForm, e, servers * density) < p.worstBp;
      ServersToStartUnique(ClosedForm, e, density, p.worstBp, servers);
    } else {
      assert servers == -1;
    }
    assert ServersToStart(ClosedForm, e, density, p.worstBp) == servers;
    return Decision(servers, 0), p.(called := true);
  }

  // ---------------------------------------------------------------------
  // The capacity plan built with the recursive form

  /** The constants the plan builder reads: the scaling period, mu, the density and worst_bp. */
  datatype PlanConfig = PlanConfig(scaleRate: real, mu: real, density: int, worstBp: real)

  /**
   * The plan entry for one predicted user count, computed afresh: -1 when
   * worst_bp exceeds 1 (the loop never runs, so nothing is divided);
   * otherwise the offered traffic (count / scale_rate) / mu divides by zero
   * when either is zero.
   */
  predicate EntrySearchable(pred: real, cfg: PlanConfig) {
    cfg.worstBp > 1.0 || cfg.scaleRate == 0.0 || cfg.mu == 0.0 ||
    Searchable(pred / cfg.scaleRate / cfg.mu, cfg.density, cfg.worstBp)
  }

  function PlanEntry(pred: real, cfg: PlanConfig): (r: Result<int>)
    requires EntrySearchable(pred, cfg)
    ensures r.Err? <==> cfg.worstBp <= 1.0 && (cfg.scaleRate == 0.0 || cfg.mu == 0.0)
    ensures r.Err? ==> r.error == ZeroDivisionError
    ensures cfg.worstBp > 1.0 ==> r == Ok(-1)
    ensures r.Ok? && cfg.worstBp <= 1.0 ==>
      r.value >= 0 && BlockingOf(RecursiveForm, pred / cfg.scaleRate / cfg.mu, r.value * cfg.density) < cfg.worstBp
    ensures r.Ok? && cfg.worstBp <= 1.0 ==>
      forall j :: 0 <= j < r.value ==>
        BlockingOf(RecursiveForm, pred / cfg.scaleRate / cfg.mu, j * cfg.density) >= cfg.worstBp
  {
    if cfg.worstBp > 1.0 then Ok(-1)
    else if cfg.scaleRate == 0.0 || cfg.mu == 0.0 then Err(ZeroDivisionError)
    else Ok(ServersToStart(RecursiveForm, pred / cfg.scaleRate / cfg.mu, cfg.density, cfg.worstBp))
  }

  /** A memo agrees with the fresh computation on every key it holds. */
  predicate MemoSound(memo: map<real, int>, cfg: PlanConfig) {
    forall q :: q in memo ==> EntrySearchable(q, cfg) && PlanEntry(q, cfg) == Ok(memo[q])
  }

  /**
   * The memoised loop of parse_pred_user_count_erlang_B over the remaining
   * predictions: a remembered count reuses its entry, a new one is computed
   * and remembered.  The first failing entry aborts the whole plan.
   */
  function PlanFrom(preds: seq<real>, memo: map<real, int>, cfg: PlanConfig): (r: Result<seq<int>>)
    requires forall i :: 0 <= i < |preds| ==> EntrySearchable(preds[i], cfg)
    ensures r.Ok? ==> |r.value| == |preds|
    decreases |preds|
  {
    if |preds| == 0 then Ok([])
    else
      var p := preds[0];
      var k :- if p in memo then Ok(memo[p]) else PlanEntry(p, cfg);
      var rest :- PlanFrom(preds[1..], memo[p := k], cfg);
      Ok([k] + rest)
  }

  /** parse_pred_user_count_erlang_B starts with an empty memo. */
  function ParsePlan(preds: seq<real>, cfg: PlanConfig): (r: Result<seq<int>>)
    requires forall i :: 0 <= i < |preds| ==> EntrySearchable(preds[i], cfg)
    ensures r.Ok? ==> |r.value| == |preds|
  {
    PlanFrom(preds, map[], cfg)
  }

  /** The reference: every entry computed afresh, failing if any one fails. */
  function Unmemoised(preds: seq<real>, cfg: PlanConfig): (r: Result<seq<int>>)
    requires forall i :: 0 <= i < |preds| ==> EntrySearchable(preds[i], cfg)
    ensures r.Ok? <==> forall i :: 0 <= i < |preds| ==> PlanEntry(preds[i], cfg).Ok?
    ensures r.Ok? ==> |r.value| == |preds|
    ensures r.Ok? ==> forall i :: 0 <= i < |preds| ==> PlanEntry(preds[i], cfg) == Ok(r.value[i])
    decreases |preds|
  {
    if |preds| == 0 then Ok([])
    else
      assert forall i :: 1 <= i < |preds| ==> preds[i] == preds[1..][i - 1];
      match PlanEntry(preds[0], cfg)
      case Err(err) => Err(err)
      case Ok(k) =>
        match Unmemoised(preds[1..], cfg)
        case Err(err) => Err(err)
        case Ok(rest) => Ok([k] + rest)
  }

  /** The memo never changes the plan: a sound memo stays sound and every entry is the fresh one. */
  lemma {:induction false} MemoTransparent(preds: seq<real>, memo: map<real, int>, cfg: PlanConfig)
    requires forall i :: 0 <= i < |preds| ==> EntrySearchable(preds[i], cfg)
    requires MemoSound(memo, cfg)
    ensures PlanFrom(preds, memo, cfg) == Unmemoised(preds, cfg)
    decreases |preds|
  {
    if |preds| > 0 {
      var p := preds[0];
      var e := PlanEntry(p, cfg);
      if e.Ok? {
        assert MemoSound(memo[p := e.value], cfg);
        MemoTransparent(preds[1..], memo[p := e.value], cfg);
      }
    }
  }

  /** Each entry of a built plan is the fewest VMs for its prediction. */
  lemma PlanIsFresh(preds: seq<real>, cfg: PlanConfig)
    requires forall i :: 0 <= i < |preds| ==> EntrySearchable(preds[i], cfg)
    ensures ParsePlan(preds, cfg) == Unmemoised(preds, cfg)
  {
    MemoTransparent(preds, map[], cfg);
  }

  // ---------------------------------------------------------------------
  // The data-driven policy

  /**
   * The policy's state: the ticks of lag still to wait, the next plan slot,
   * and the capacity plan (built elsewhere; the model takes it as given).
   */
  datatype ErlangData = ErlangData(lag: int, slot: nat, plan: seq<int>)

  function NewErlangData(lag: int, plan: seq<int>): (p: ErlangData)
    ensures p.slot == 0 && p.lag == lag && p.plan == plan
  {
    ErlangData(lag, 0, plan)
  }

  /** The VMs the policy counts as current: booting and active, not shutting down. */
  function CurrentServers(c: ClusterState): nat {
    |c.booting| + |c.active|
  }

  /**
   * One call of scaler_logic: (0, 0) while lagging; otherwise move the
   * booting-plus-active count to the next plan entry, failing once the
   * plan is used up.
   */
  function DataStep(p: ErlangData, c: ClusterState): (r: Result<(Decision, ErlangData)>)
    ensures p.lag > 0 ==> r == Ok((Decision(0, 0), p.(lag := p.lag - 1)))
    ensures p.lag <= 0 ==> (r.Err? <==> p.slot >= |p.plan|)
    ensures r.Err? ==> r.error == ProvisioningDataFileEmpty
    ensures p.lag <= 0 && r.Ok? ==>
      var d := r.value.0;
      d.start >= 0 && d.stop >= 0 && (d.start == 0 || d.stop == 0) &&
      CurrentServers(c) + d.start - d.stop == p.plan[p.slot] &&
      r.value.1 == p.(slot := p.slot + 1)
  {
    if p.lag > 0 then Ok((Decision(0, 0), p.(lag := p.lag - 1)))
    else if p.slot >= |p.plan| then Err(ProvisioningDataFileEmpty)
    else
      var required := p.plan[p.slot];
      var current := CurrentServers(c);
      var start := if required - current > 0 then required - current else 0;
      var stop := if current - required > 0 then current - required else 0;
      Ok((Decision(start, stop), p.(slot := p.slot + 1)))
  }
}

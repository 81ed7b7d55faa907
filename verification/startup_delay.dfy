/**
 * Start-up delay functions for new VMs: a constant delay, a check that
 * refuses a negative delay, and a truncation that redraws a random delay
 * until it is positive.  The random draws are passed in as a sequence.
 */
module StartupDelay {
  import opened Wrappers

  /** fixed_startup_delay: a function of no arguments that always returns the delay. */
  function FixedStartupDelay(delay: real): (f: () -> real)
    ensures f() == delay
  {
    () => delay
  }

  /**
   * raise_exception_if_negative_startup_value applied to one value: a
   * negative delay raises NegativeStartupTimeException, any other (0
   * included) is returned unchanged.
   */
  function CheckStartup(delay: real): (r: Result<real>)
    ensures r.Ok? <==> delay >= 0.0
    ensures r.Ok? ==> r.value == delay
    ensures r.Err? ==> r.error == NegativeStartupTime
  {
    if delay < 0.0 then Err(NegativeStartupTime) else Ok(delay)
  }

  /**
   * truncate_at_zero over a sequence of draws: the first positive draw and
   * how many draws it took; None when the given draws run out first (the
   * source would keep drawing).
   */
  function TruncateAtZero(draws: seq<real>): (r: Option<(real, nat)>)
    ensures r.Some? ==> 1 <= r.value.1 <= |draws| && r.value.0 == draws[r.value.1 - 1]
    ensures r.Some? ==> r.value.0 > 0.0
    ensures r.Some? ==> forall i :: 0 <= i < r.value.1 - 1 ==> draws[i] <= 0.0
    ensures r.None? <==> forall i :: 0 <= i < |draws| ==> draws[i] <= 0.0
    decreases |draws|
  {
    if |draws| == 0 then None
    else if draws[0] > 0.0 then Some((draws[0], 1))
    else
      match TruncateAtZero(draws[1..])
      case None => None
      case Some(found) => Some((found.0, found.1 + 1))
  }

  /**
   * normal_distribution_startup_delay: normal draws truncated at zero, so
   * the delay is the first positive draw.
   */
  function NormalStartupDelay(normalDraws: seq<real>): (r: Option<real>)
    ensures r.Some? ==> r.value > 0.0
    ensures r.Some? ==>
      exists k :: 0 <= k < |normalDraws| && r.value == normalDraws[k] && forall i :: 0 <= i < k ==> normalDraws[i] <= 0.0
    ensures r.None? <==> forall i :: 0 <= i < |normalDraws| ==> normalDraws[i] <= 0.0
  {
    match TruncateAtZero(normalDraws)
    case None => None
    case Some(found) => Some(found.0)
  }

  /** A truncated delay always passes the negative-delay check. */
  lemma TruncatedPassesCheck(normalDraws: seq<real>)
    requires NormalStartupDelay(normalDraws).Some?
    ensures CheckStartup(NormalStartupDelay(normalDraws).value) == Ok(NormalStartupDelay(normalDraws).value)
  {
  }
}

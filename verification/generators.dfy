/**
 * The arrival generators.  Both generators draw (interarrival, service)
 * pairs, from the exponential distribution or from a data file; the model
 * takes the pairs as an input sequence.  For each pair the generator waits
 * the interarrival time, rejects a negative service time, numbers the user
 * 1, 2, 3, ... and counts it towards the users seen since the last scale
 * event.
 */
module Generators {
  import opened Wrappers

  /**
   * user_count_since_last_scale and last_scale_time; both are None until the
   * scaler first resets them.
   */
  datatype ScaleCounters = ScaleCounters(count: Option<int>, lastScaleTime: Option<real>)

  function NewCounters(): ScaleCounters {
    ScaleCounters(None, None)
  }

  /** reset_scale_counters */
  function Reset(now: real): (g: ScaleCounters)
    ensures g.count == Some(0) && g.lastScaleTime == Some(now)
  {
    ScaleCounters(Some(0), Some(now))
  }

  /** get_time_since_last_scale_event: None - now raises TypeError; negative time, RuntimeError. */
  function TimeSinceLastScale(g: ScaleCounters, now: real): (r: Result<real>)
    ensures g.lastScaleTime.None? ==> r == Err(TypeError)
    ensures g.lastScaleTime.Some? ==> (r.Ok? <==> g.lastScaleTime.value <= now)
    ensures r.Err? && g.lastScaleTime.Some? ==> r.error == RuntimeError
    ensures r.Ok? ==> r.value >= 0.0 && g.lastScaleTime.value + r.value == now
  {
    if g.lastScaleTime.None? then Err(TypeError)
    else
      var since := now - g.lastScaleTime.value;
      if since < 0.0 then Err(RuntimeError) else Ok(since)
  }

  /** get_time_until_next_scale_event: the rest of the scaling period, never negative. */
  function TimeUntilNextScale(g: ScaleCounters, now: real, scaleRate: real): (r: Result<real>)
    ensures TimeSinceLastScale(g, now).Err? ==> r == TimeSinceLastScale(g, now)
    ensures TimeSinceLastScale(g, now).Ok? ==>
      (r.Ok? <==> now <= g.lastScaleTime.value + scaleRate)
    ensures r.Err? && TimeSinceLastScale(g, now).Ok? ==> r.error == RuntimeError
    ensures r.Ok? ==> r.value >= 0.0 && now + r.value == g.lastScaleTime.value + scaleRate
  {
    var since :- TimeSinceLastScale(g, now);
    var until := scaleRate - since;
    if until < 0.0 then Err(RuntimeError) else Ok(until)
  }

  /** Within a scaling period after a reset, elapsed and remaining time add up to the period. */
  lemma ResetTimes(t0: real, now: real, scaleRate: real)
    requires t0 <= now <= t0 + scaleRate
    ensures TimeSinceLastScale(Reset(t0), now) == Ok(now - t0)
    ensures TimeUntilNextScale(Reset(t0), now, scaleRate) == Ok(scaleRate - (now - t0))
  {
  }

  /** One user created by a generator. */
  datatype Created = Created(num: nat, time: real, service: real)

  datatype Generated = Generated(users: seq<Created>, counters: ScaleCounters, now: real)

  /**
   * The generator loop over the remaining draws: hold, reject a negative
   * service time with a bare Exception, number the user and count it
   * (counting before the first reset adds 1 to None: TypeError).
   */
  function Generate(draws: seq<(real, real)>, now: real, num: nat, g: ScaleCounters): (r: Result<Generated>)
    decreases |draws|
  {
    if |draws| == 0 then Ok(Generated([], g, now))
    else
      var t := now + draws[0].0;
      if draws[0].1 < 0.0 then Err(PlainException)
      else if g.count.None? then Err(TypeError)
      else
        var rest :- Generate(draws[1..], t, num + 1, g.(count := Some(g.count.value + 1)));
        Ok(Generated([Created(num, t, draws[0].1)] + rest.users, rest.counters, rest.now))
  }

  predicate NoNegativeService(draws: seq<(real, real)>) {
    forall i :: 0 <= i < |draws| ==> draws[i].1 >= 0.0
  }

  /** From counted state, the generator fails exactly when a draw has a negative service time. */
  lemma {:induction false} GenerateFails(draws: seq<(real, real)>, now: real, num: nat, c: int, t: Option<real>)
    ensures Generate(draws, now, num, ScaleCounters(Some(c), t)).Ok? <==> NoNegativeService(draws)
    ensures Generate(draws, now, num, ScaleCounters(Some(c), t)).Err? ==>
      Generate(draws, now, num, ScaleCounters(Some(c), t)).error == PlainException
    decreases |draws|
  {
    if |draws| > 0 {
      var tail := draws[1..];
      GenerateFails(tail, now + draws[0].0, num + 1, c + 1, t);
      assert forall i :: 0 <= i < |tail| ==> tail[i] == draws[i + 1];
    }
  }

  /**
   * A successful run creates one user per draw: user i is numbered num + i,
   * keeps its service time and arrives one interarrival after the user
   * before it (the first one after the start time); the clock ends at the
   * last arrival and the counter has grown by one per user.
   */
  lemma GenerateCreates(draws: seq<(real, real)>, now: real, num: nat, c: int, t: Option<real>, out: Generated)
    requires Generate(draws, now, num, ScaleCounters(Some(c), t)) == Ok(out)
    ensures |out.users| == |draws|
    ensures out.counters == ScaleCounters(Some(c + |draws|), t)
    ensures forall i :: 0 <= i < |draws| ==> out.users[i].num == num + i && out.users[i].service == draws[i].1
    ensures |draws| > 0 ==> out.users[0].time == now + draws[0].0
    ensures forall i :: 0 < i < |draws| ==> out.users[i].time == out.users[i - 1].time + draws[i].0
    ensures out.now == if |draws| == 0 then now else out.users[|draws| - 1].time
  {
    GenerateCounts(draws, now, num, c, t, out);
    GenerateTimes(draws, now, num, c, t, out);
  }

  /** One user per draw, numbered in order with its service time; the counter grows by one per user. */
  lemma {:induction false} GenerateCounts(draws: seq<(real, real)>, now: real, num: nat, c: int, t: Option<real>, out: Generated)
    requires Generate(draws, now, num, ScaleCounters(Some(c), t)) == Ok(out)
    ensures |out.users| == |draws|
    ensures out.counters == ScaleCounters(Some(c + |draws|), t)
    ensures forall i :: 0 <= i < |draws| ==> out.users[i].num == num + i && out.users[i].service == draws[i].1
    decreases |draws|
  {
    if |draws| > 0 {
      var tail := draws[1..];
      var t1 := now + draws[0].0;
      var rest := Generate(tail, t1, num + 1, ScaleCounters(Some(c + 1), t));
      GenerateCounts(tail, t1, num + 1, c + 1, t, rest.value);
      assert out.users == [Created(num, t1, draws[0].1)] + rest.value.users;
    }
  }

  /** Each user arrives one interarrival after the one before it, and the clock ends at the last arrival. */
  lemma {:induction false} GenerateTimes(draws: seq<(real, real)>, now: real, num: nat, c: int, t: Option<real>, out: Generated)
    requires Generate(draws, now, num, ScaleCounters(Some(c), t)) == Ok(out)
    ensures |out.users| == |draws|
    ensures |draws| > 0 ==> out.users[0].time == now + draws[0].0
    ensures forall i :: 0 < i < |draws| ==> out.users[i].time == out.users[i - 1].time + draws[i].0
    ensures out.now == if |draws| == 0 then now else out.users[|draws| - 1].time
    decreases |draws|
  {
    if |draws| > 0 {
      var tail := draws[1..];
      var t1 := now + draws[0].0;
      var rest := Generate(tail, t1, num + 1, ScaleCounters(Some(c + 1), t));
      GenerateTimes(tail, t1, num + 1, c + 1, t, rest.value);
      assert out.users == [Created(num, t1, draws[0].1)] + rest.value.users;
    }
  }
}

/**
 * Arrival traces: a trace is a list of observations, each the interarrival
 * time before a customer arrives and that customer's service time, both
 * whole seconds.  The transforms clean a trace, rescale its service times,
 * and thin or thicken its arrivals; the random draws they make are passed in
 * as oracles.
 */
module Traces {
  import opened Wrappers
  import opened Numeric

  datatype Arrival = Arrival(inter: int, service: int)

  /** The absolute arrival times of a trace that starts at time `base`. */
  function AbsTimes(s: seq<Arrival>, base: int): (r: seq<int>)
    ensures |r| == |s|
    decreases |s|
  {
    if |s| == 0 then [] else [base + s[0].inter] + AbsTimes(s[1..], base + s[0].inter)
  }

  function Services(s: seq<Arrival>): (r: seq<int>)
    ensures |r| == |s|
    ensures forall i :: 0 <= i < |s| ==> r[i] == s[i].service
  {
    seq(|s|, i requires 0 <= i < |s| => s[i].service)
  }

  /** The elements of xs whose flag is set, in order. */
  function Select<T>(xs: seq<T>, keep: seq<bool>): (r: seq<T>)
    requires |keep| == |xs|
    ensures |r| <= |xs|
    decreases |xs|
  {
    if |xs| == 0 then []
    else (if keep[0] then [xs[0]] else []) + Select(xs[1..], keep[1..])
  }

  predicate IsClean(a: Arrival) {
    a.inter >= 0 && a.service >= 0
  }

  predicate AllClean(s: seq<Arrival>) {
    forall i :: 0 <= i < |s| ==> IsClean(s[i])
  }

  /** clean_data: the observations with a negative interarrival or service time are skipped. */
  function Clean(data: seq<Arrival>): (r: seq<Arrival>)
    ensures AllClean(r)
    ensures |r| <= |data|
    decreases |data|
  {
    if |data| == 0 then []
    else (if IsClean(data[0]) then [data[0]] else []) + Clean(data[1..])
  }

  /** An observation survives cleaning exactly when it is in the trace and clean. */
  lemma {:induction false} CleanMembers(data: seq<Arrival>, a: Arrival)
    ensures a in Clean(data) <==> a in data && IsClean(a)
    decreases |data|
  {
    if |data| > 0 {
      CleanMembers(data[1..], a);
      assert data == [data[0]] + data[1..];
    }
  }

  /** Cleaning a clean trace changes nothing, so cleaning twice is cleaning once. */
  lemma {:induction false} CleanKeepsClean(data: seq<Arrival>)
    requires AllClean(data)
    ensures Clean(data) == data
    decreases |data|
  {
    if |data| > 0 {
      CleanKeepsClean(data[1..]);
      assert data == [data[0]] + data[1..];
    }
  }

  /** int(service * scale) */
  function ScaledService(service: int, scale: real): int {
    Trunc(service as real * scale)
  }

  /** transform_service_data: every service time becomes int(service * scale); interarrivals stay. */
  function TransformService(data: seq<Arrival>, scale: real): (r: seq<Arrival>)
    ensures |r| == |data|
    ensures forall i :: 0 <= i < |data| ==> r[i].inter == data[i].inter
    ensures forall i :: 0 <= i < |data| ==> r[i].service == ScaledService(data[i].service, scale)
  {
    seq(|data|, i requires 0 <= i < |data| => Arrival(data[i].inter, ScaledService(data[i].service, scale)))
  }

  /** Scaling by 1 is the identity, and a non-negative scale keeps a clean trace clean. */
  lemma TransformServiceScales(data: seq<Arrival>, scale: real)
    ensures TransformService(data, 1.0) == data
    ensures scale >= 0.0 && AllClean(data) ==> AllClean(TransformService(data, scale))
  {
    TransformByOne(data);
    if scale >= 0.0 && AllClean(data) {
      ScaleKeepsClean(data, scale);
    }
  }

  lemma TransformByOne(data: seq<Arrival>)
    ensures TransformService(data, 1.0) == data
  {
    var t := TransformService(data, 1.0);
    forall i | 0 <= i < |data|
      ensures t[i] == data[i]
    {
      TimesOne(data[i].service as real);
    }
  }

  lemma TimesOne(x: real)
    ensures x * 1.0 == x
  {
  }

  lemma ScaleKeepsClean(data: seq<Arrival>, scale: real)
    requires scale >= 0.0 && AllClean(data)
    ensures AllClean(TransformService(data, scale))
  {
    var t := TransformService(data, scale);
    forall i | 0 <= i < |data|
      ensures IsClean(t[i])
    {
      assert IsClean(data[i]);
      ProductNonNegative(data[i].service as real, scale);
    }
  }

  lemma ProductNonNegative(a: real, b: real)
    requires a >= 0.0 && b >= 0.0
    ensures a * b >= 0.0
  {
  }

  /**
   * thin_arrival_data from the current position: `carry` is the time the
   * dropped observations just before have added to this one's interarrival;
   * keep[i] is whether the i-th random draw kept the i-th observation.
   */
  function ThinFrom(data: seq<Arrival>, keep: seq<bool>, carry: int): (r: seq<Arrival>)
    requires |keep| == |data|
    ensures |r| <= |data|
    decreases |data|
  {
    if |data| == 0 then []
    else
      var cur := data[0].inter + carry;
      if keep[0] then [Arrival(cur, data[0].service)] + ThinFrom(data[1..], keep[1..], 0)
      else ThinFrom(data[1..], keep[1..], cur)
  }

  function Thin(data: seq<Arrival>, keep: seq<bool>): (r: seq<Arrival>)
    requires |keep| == |data|
  {
    ThinFrom(data, keep, 0)
  }

  /**
   * The kept observations come out in their original order, each still
   * arriving at its original absolute time.
   */
  lemma {:induction false} ThinFromKeepsTimes(data: seq<Arrival>, keep: seq<bool>, carry: int, base: int)
    requires |keep| == |data|
    ensures AbsTimes(ThinFrom(data, keep, carry), base) == Select(AbsTimes(data, base + carry), keep)
    decreases |data|
  {
    if |data| > 0 {
      var cur := data[0].inter + carry;
      var times := AbsTimes(data, base + carry);
      assert times == [base + cur] + AbsTimes(data[1..], base + cur);
      assert times[1..] == AbsTimes(data[1..], base + cur);
      if keep[0] {
        ThinFromKeepsTimes(data[1..], keep[1..], 0, base + cur);
        var rest := ThinFrom(data[1..], keep[1..], 0);
        var kept := [Arrival(cur, data[0].service)] + rest;
        assert ThinFrom(data, keep, carry) == kept;
        assert kept[1..] == rest;
        assert AbsTimes(kept, base) == [base + cur] + AbsTimes(rest, base + cur);
      } else {
        ThinFromKeepsTimes(data[1..], keep[1..], cur, base);
        assert ThinFrom(data, keep, carry) == ThinFrom(data[1..], keep[1..], cur);
      }
    }
  }

  lemma {:induction false} ThinFromKeepsServices(data: seq<Arrival>, keep: seq<bool>, carry: int)
    requires |keep| == |data|
    ensures Services(ThinFrom(data, keep, carry)) == Select(Services(data), keep)
    decreases |data|
  {
    if |data| > 0 {
      var cur := data[0].inter + carry;
      assert Services(data)[1..] == Services(data[1..]);
      if keep[0] {
        ThinFromKeepsServices(data[1..], keep[1..], 0);
        var rest := ThinFrom(data[1..], keep[1..], 0);
        var kept := [Arrival(cur, data[0].service)] + rest;
        assert ThinFrom(data, keep, carry) == kept;
        assert Services(kept) == [data[0].service] + Services(rest);
      } else {
        ThinFromKeepsServices(data[1..], keep[1..], cur);
        assert ThinFrom(data, keep, carry) == ThinFrom(data[1..], keep[1..], cur);
      }
    }
  }

  lemma ThinKeepsTimes(data: seq<Arrival>, keep: seq<bool>)
    requires |keep| == |data|
    ensures AbsTimes(Thin(data, keep), 0) == Select(AbsTimes(data, 0), keep)
    ensures Services(Thin(data, keep)) == Select(Services(data), keep)
  {
    ThinFromKeepsTimes(data, keep, 0, 0);
    ThinFromKeepsServices(data, keep, 0);
  }

  /** randint(0, n) returns a whole number between 0 and n. */
  ghost predicate RandintInRange(randint: (nat, int) -> int) {
    forall i: nat, n: int :: 0 <= n ==> 0 <= randint(i, n) <= n
  }

  /** random.choice picks a position of the trace. */
  ghost predicate ChoiceInRange(choice: nat -> nat, len: nat) {
    len == 0 || forall i: nat :: choice(i) < len
  }

  /**
   * add_arrival_data from position i: `cur` is the current interarrival of
   * observation i (already lowered if an arrival was inserted before it) and
   * `prev` that of observation i - 1.  coin(i) is whether the i-th draw adds
   * an arrival after observation i; the new arrival's interarrival is
   * randint(i, bound), with bound the next interarrival (or, after the last
   * observation, the one before it, which for a one-element trace is itself),
   * and its service time is that of observation choice(i).  A negative bound
   * makes randint raise ValueError.
   */
  function AddFrom(data: seq<Arrival>, i: nat, cur: int, prev: int,
                   coin: nat -> bool, randint: (nat, int) -> int, choice: nat -> nat): (r: Result<seq<Arrival>>)
    requires i <= |data|
    requires RandintInRange(randint) && ChoiceInRange(choice, |data|)
    ensures r.Err? ==> r.error == ValueError
    decreases |data| - i
  {
    if i == |data| then Ok([])
    else
      var obs := Arrival(cur, data[i].service);
      var nextCur := if i + 1 < |data| then data[i + 1].inter else 0;
      if !coin(i) then
        match AddFrom(data, i + 1, nextCur, cur, coin, randint, choice)
        case Err(e) => Err(e)
        case Ok(rest) => Ok([obs] + rest)
      else
        var bound := if i + 1 < |data| then data[i + 1].inter else if i >= 1 then prev else cur;
        if bound < 0 then Err(ValueError)
        else
          var offset := randint(i, bound);
          var added := Arrival(offset, data[choice(i)].service);
          var lowered := if i + 1 < |data| then data[i + 1].inter - offset else 0;
          match AddFrom(data, i + 1, lowered, cur, coin, randint, choice)
          case Err(e) => Err(e)
          case Ok(rest) => Ok([obs, added] + rest)
  }

  function Add(data: seq<Arrival>, coin: nat -> bool, randint: (nat, int) -> int, choice: nat -> nat): (r: Result<seq<Arrival>>)
    requires RandintInRange(randint) && ChoiceInRange(choice, |data|)
  {
    if |data| == 0 then Ok([]) else AddFrom(data, 0, data[0].inter, 0, coin, randint, choice)
  }

  /** Which positions of the thickened trace hold an original observation. */
  function Origins(len: nat, i: nat, coin: nat -> bool): (r: seq<bool>)
    requires i <= len
    decreases len - i
  {
    if i == len then [] else [true] + (if coin(i) then [false] else []) + Origins(len, i + 1, coin)
  }

  /**
   * Thinning a thickened trace back to its original observations gives the
   * original trace: each inserted arrival only split the gap before the next
   * one, so every original observation keeps its absolute arrival time.
   */
  lemma {:induction false} AddFromThinsBack(data: seq<Arrival>, i: nat, cur: int, prev: int, carry: int,
                                            coin: nat -> bool, randint: (nat, int) -> int, choice: nat -> nat)
    requires i < |data|
    requires RandintInRange(randint) && ChoiceInRange(choice, |data|)
    requires cur + carry == data[i].inter
    requires AddFrom(data, i, cur, prev, coin, randint, choice).Ok?
    ensures |Origins(|data|, i, coin)| == |AddFrom(data, i, cur, prev, coin, randint, choice).value|
    ensures ThinFrom(AddFrom(data, i, cur, prev, coin, randint, choice).value, Origins(|data|, i, coin), carry) == data[i..]
    decreases |data| - i, 1
  {
    if !coin(i) {
      KeptThinsBack(data, i, cur, prev, carry, coin, randint, choice);
    } else {
      InsertedThinsBack(data, i, cur, prev, carry, coin, randint, choice);
    }
  }

  /** The step of AddFromThinsBack where no arrival is inserted after observation i. */
  lemma {:induction false} KeptThinsBack(data: seq<Arrival>, i: nat, cur: int, prev: int, carry: int,
                                         coin: nat -> bool, randint: (nat, int) -> int, choice: nat -> nat)
    requires i < |data| && !coin(i)
    requires RandintInRange(randint) && ChoiceInRange(choice, |data|)
    requires cur + carry == data[i].inter
    requires AddFrom(data, i, cur, prev, coin, randint, choice).Ok?
    ensures |Origins(|data|, i, coin)| == |AddFrom(data, i, cur, prev, coin, randint, choice).value|
    ensures ThinFrom(AddFrom(data, i, cur, prev, coin, randint, choice).value, Origins(|data|, i, coin), carry) == data[i..]
    decreases |data| - i, 0
  {
    var out := AddFrom(data, i, cur, prev, coin, randint, choice).value;
    var mask := Origins(|data|, i, coin);
    var obs := Arrival(cur, data[i].service);
    var nextCur := if i + 1 < |data| then data[i + 1].inter else 0;
    assert data[i..] == [data[i]] + data[i + 1..];
    var rest := AddFrom(data, i + 1, nextCur, cur, coin, randint, choice).value;
    assert out == [obs] + rest;
    assert mask == [true] + Origins(|data|, i + 1, coin);
    if i + 1 < |data| {
      AddFromThinsBack(data, i + 1, nextCur, cur, 0, coin, randint, choice);
    }
    assert out[1..] == rest;
    assert mask[1..] == Origins(|data|, i + 1, coin);
  }

  /** The step of AddFromThinsBack where an arrival is inserted after observation i. */
  lemma {:induction false} InsertedThinsBack(data: seq<Arrival>, i: nat, cur: int, prev: int, carry: int,
                                             coin: nat -> bool, randint: (nat, int) -> int, choice: nat -> nat)
    requires i < |data| && coin(i)
    requires RandintInRange(randint) && ChoiceInRange(choice, |data|)
    requires cur + carry == data[i].inter
    requires AddFrom(data, i, cur, prev, coin, randint, choice).Ok?
    ensures |Origins(|data|, i, coin)| == |AddFrom(data, i, cur, prev, coin, randint, choice).value|
    ensures ThinFrom(AddFrom(data, i, cur, prev, coin, randint, choice).value, Origins(|data|, i, coin), carry) == data[i..]
    decreases |data| - i, 0
  {
    var out := AddFrom(data, i, cur, prev, coin, randint, choice).value;
    var mask := Origins(|data|, i, coin);
    var obs := Arrival(cur, data[i].service);
    assert data[i..] == [data[i]] + data[i + 1..];
    var bound := if i + 1 < |data| then data[i + 1].inter else if i >= 1 then prev else cur;
    var offset := randint(i, bound);
    var added := Arrival(offset, data[choice(i)].service);
    var lowered := if i + 1 < |data| then data[i + 1].inter - offset else 0;
    var rest := AddFrom(data, i + 1, lowered, cur, coin, randint, choice).value;
    assert out == [obs, added] + rest;
    assert mask == [true, false] + Origins(|data|, i + 1, coin);
    if i + 1 < |data| {
      AddFromThinsBack(data, i + 1, lowered, cur, offset, coin, randint, choice);
    }
    assert out[1..][1..] == rest;
    assert mask[1..][1..] == Origins(|data|, i + 1, coin);
  }

  /** Thinning away exactly the inserted arrivals undoes add_arrival_data. */
  lemma AddThinsBack(data: seq<Arrival>, coin: nat -> bool, randint: (nat, int) -> int, choice: nat -> nat)
    requires RandintInRange(randint) && ChoiceInRange(choice, |data|)
    requires Add(data, coin, randint, choice).Ok?
    ensures |Origins(|data|, 0, coin)| == |Add(data, coin, randint, choice).value|
    ensures Thin(Add(data, coin, randint, choice).value, Origins(|data|, 0, coin)) == data
  {
    if |data| > 0 {
      AddFromThinsBack(data, 0, data[0].inter, 0, 0, coin, randint, choice);
    }
  }

  /**
   * On a clean trace add_arrival_data never fails and never produces a
   * negative interarrival, so the check whose exception is built but never
   * raised could not fire anyway.
   */
  lemma {:induction false} AddFromKeepsClean(data: seq<Arrival>, i: nat, cur: int, prev: int,
                                             coin: nat -> bool, randint: (nat, int) -> int, choice: nat -> nat)
    requires i <= |data|
    requires RandintInRange(randint) && ChoiceInRange(choice, |data|)
    requires AllClean(data) && cur >= 0 && prev >= 0
    ensures AddFrom(data, i, cur, prev, coin, randint, choice).Ok?
    ensures AllClean(AddFrom(data, i, cur, prev, coin, randint, choice).value)
    decreases |data| - i
  {
    if i < |data| {
      var nextCur := if i + 1 < |data| then data[i + 1].inter else 0;
      if !coin(i) {
        AddFromKeepsClean(data, i + 1, nextCur, cur, coin, randint, choice);
      } else {
        var bound := if i + 1 < |data| then data[i + 1].inter else if i >= 1 then prev else cur;
        var offset := randint(i, bound);
        var lowered := if i + 1 < |data| then data[i + 1].inter - offset else 0;
        AddFromKeepsClean(data, i + 1, lowered, cur, coin, randint, choice);
      }
    }
  }

  lemma AddKeepsClean(data: seq<Arrival>, coin: nat -> bool, randint: (nat, int) -> int, choice: nat -> nat)
    requires RandintInRange(randint) && ChoiceInRange(choice, |data|)
    requires AllClean(data)
    ensures Add(data, coin, randint, choice).Ok?
    ensures AllClean(Add(data, coin, randint, choice).value)
  {
    if |data| > 0 {
      AddFromKeepsClean(data, 0, data[0].inter, 0, coin, randint, choice);
    }
  }

  /** transform_arrival_data: thicken for a scale above 1, thin otherwise. */
  function TransformArrivals(data: seq<Arrival>, scale: real, keep: seq<bool>,
                             coin: nat -> bool, randint: (nat, int) -> int, choice: nat -> nat): (r: Result<seq<Arrival>>)
    requires |keep| == |data|
    requires RandintInRange(randint) && ChoiceInRange(choice, |data|)
    ensures scale <= 1.0 ==> r.Ok? && |r.value| <= |data|
    ensures scale > 1.0 ==> r == Add(data, coin, randint, choice)
  {
    if scale > 1.0 then Add(data, coin, randint, choice) else Ok(Thin(data, keep))
  }

  lemma {:induction false} ThinFromKeepsClean(data: seq<Arrival>, keep: seq<bool>, carry: int)
    requires |keep| == |data| && AllClean(data) && carry >= 0
    ensures AllClean(ThinFrom(data, keep, carry))
    decreases |data|
  {
    if |data| > 0 {
      var cur := data[0].inter + carry;
      if keep[0] {
        ThinFromKeepsClean(data[1..], keep[1..], 0);
      } else {
        ThinFromKeepsClean(data[1..], keep[1..], cur);
      }
    }
  }

  /** A clean trace stays clean under either transform. */
  lemma TransformKeepsClean(data: seq<Arrival>, scale: real, keep: seq<bool>,
                            coin: nat -> bool, randint: (nat, int) -> int, choice: nat -> nat)
    requires |keep| == |data|
    requires RandintInRange(randint) && ChoiceInRange(choice, |data|)
    requires AllClean(data)
    ensures TransformArrivals(data, scale, keep, coin, randint, choice).Ok?
    ensures AllClean(TransformArrivals(data, scale, keep, coin, randint, choice).value)
  {
    if scale > 1.0 {
      AddKeepsClean(data, coin, randint, choice);
    } else {
      ThinFromKeepsClean(data, keep, 0);
    }
  }
}

/**
 * A SimPy Monitor is a list of [time, value] pairs; `observe(v, t)` appends one.
 */
module Observations {

  datatype Obs = Obs(t: real, v: real)

  function Values(m: seq<Obs>): (r: seq<real>)
    ensures |r| == |m|
    ensures forall i :: 0 <= i < |m| ==> r[i] == m[i].v
  {
    seq(|m|, i requires 0 <= i < |m| => m[i].v)
  }

  function Times(m: seq<Obs>): (r: seq<real>)
    ensures |r| == |m|
    ensures forall i :: 0 <= i < |m| ==> r[i] == m[i].t
  {
    seq(|m|, i requires 0 <= i < |m| => m[i].t)
  }
}

/** Counting values in consecutive half-open intervals, shared by histograms and time buckets. */
module Intervals {
  import opened Common

  function CountIn(xs: seq<real>, lo: real, hi: real): (c: nat)
    ensures c <= |xs|
  {
    if xs == [] then 0 else CountIn(xs[..|xs| - 1], lo, hi) + (if lo <= xs[|xs| - 1] < hi then 1 else 0)
  }

  function CountBelow(xs: seq<real>, hi: real): (c: nat)
    ensures c <= |xs|
  {
    if xs == [] then 0 else CountBelow(xs[..|xs| - 1], hi) + (if xs[|xs| - 1] < hi then 1 else 0)
  }

  lemma {:induction false} CountSplits(xs: seq<real>, lo: real, hi: real)
    requires lo <= hi
    ensures CountIn(xs, lo, hi) == CountBelow(xs, hi) - CountBelow(xs, lo)
  {
    if xs == [] {
    } else {
      CountSplits(xs[..|xs| - 1], lo, hi);
    }
  }

  lemma {:induction false} AllBelow(xs: seq<real>, b: real)
    requires forall i :: 0 <= i < |xs| ==> xs[i] < b
    ensures CountBelow(xs, b) == |xs|
  {
    if xs == [] {
    } else {
      AllBelow(xs[..|xs| - 1], b);
    }
  }

  lemma {:induction false} NoneBelow(xs: seq<real>, b: real)
    requires forall i :: 0 <= i < |xs| ==> xs[i] >= b
    ensures CountBelow(xs, b) == 0
  {
    if xs == [] {
    } else {
      NoneBelow(xs[..|xs| - 1], b);
    }
  }

  lemma {:induction false} SomeNotBelow(xs: seq<real>, b: real, i: nat)
    requires i < |xs| && xs[i] >= b
    ensures CountBelow(xs, b) < |xs|
  {
    var n := |xs| - 1;
    if i < n {
      SomeNotBelow(xs[..n], b, i);
    }
  }

  /** The counts of the first `k` intervals. */
  function Total(xs: seq<real>, bounds: seq<real>, k: nat): nat
    requires k < |bounds|
  {
    if k == 0 then 0 else Total(xs, bounds, k - 1) + CountIn(xs, bounds[k - 1], bounds[k])
  }

  /** Counts over consecutive intervals telescope. */
  lemma {:induction false} Telescope(xs: seq<real>, bounds: seq<real>, k: nat)
    requires k < |bounds| && NonDecreasing(bounds)
    ensures Total(xs, bounds, k) == CountBelow(xs, bounds[k]) - CountBelow(xs, bounds[0])
  {
    if k == 0 {
    } else {
      Telescope(xs, bounds, k - 1);
      CountSplits(xs, bounds[k - 1], bounds[k]);
    }
  }

  /** A value between the first and the last bound lies in one interval, and in one only. */
  lemma {:induction false} OneInterval(x: real, bounds: seq<real>, k: nat) returns (i: nat)
    requires 0 < k < |bounds| && NonDecreasing(bounds)
    requires bounds[0] <= x < bounds[k]
    ensures i < k && bounds[i] <= x < bounds[i + 1]
    ensures forall j :: 0 <= j < |bounds| - 1 && bounds[j] <= x < bounds[j + 1] ==> j == i
  {
    if bounds[k - 1] <= x {
      i := k - 1;
    } else {
      i := OneInterval(x, bounds, k - 1);
    }
  }
}

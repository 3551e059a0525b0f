/** Sums of counts, and how they move with one entry. */
module Sums {
  function Sum(xs: seq<nat>): nat {
    if xs == [] then 0 else Sum(xs[..|xs| - 1]) + xs[|xs| - 1]
  }

  lemma {:induction false} SumSet(xs: seq<nat>, at: nat, x: nat)
    requires at < |xs|
    ensures Sum(xs[at := x]) + xs[at] == Sum(xs) + x
    decreases |xs|
  {
    var n := |xs| - 1;
    if at == n {
      assert xs[at := x][..n] == xs[..n];
    } else {
      SumSet(xs[..n], at, x);
      assert xs[at := x][..n] == xs[..n][at := x];
    }
  }

  lemma {:induction false} SumShift(xs: seq<nat>, ys: seq<nat>, d: nat)
    requires |ys| == |xs| && forall j | 0 <= j < |xs| :: ys[j] == xs[j] + d
    ensures Sum(ys) == Sum(xs) + |xs| * d
    decreases |xs|
  {
    if xs != [] {
      SumShift(xs[..|xs| - 1], ys[..|xs| - 1], d);
    }
  }

  /** Every entry but one raised by the same amount. */
  lemma {:induction false} SumSpread(xs: seq<nat>, ys: seq<nat>, at: nat, d: nat)
    requires |ys| == |xs| && at < |xs| && ys[at] == xs[at]
    requires forall j | 0 <= j < |xs| && j != at :: ys[j] == xs[j] + d
    ensures Sum(ys) == Sum(xs) + (|xs| - 1) * d
    decreases |xs|
  {
    var n := |xs| - 1;
    if at == n {
      SumShift(xs[..n], ys[..n], d);
    } else {
      SumSpread(xs[..n], ys[..n], at, d);
      assert (n - 1) * d + d == n * d;
    }
  }

  lemma {:induction false} SumAtMost(xs: seq<nat>, most: nat)
    requires forall i | 0 <= i < |xs| :: xs[i] <= most
    ensures Sum(xs) <= |xs| * most
    decreases |xs|
  {
    if xs != [] {
      SumAtMost(xs[..|xs| - 1], most);
      assert |xs| * most == (|xs| - 1) * most + most;
    }
  }
}

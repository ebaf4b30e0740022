/** Sums of finite sequences of natural numbers: the arithmetic behind every
    token count and every termination measure in this project. */
module Sums {

  function Sum(xs: seq<nat>): nat {
    if |xs| == 0 then 0 else Sum(xs[..|xs| - 1]) + xs[|xs| - 1]
  }

  /** Replacing one element moves the sum by the difference. */
  lemma {:induction false} SumUpdate(xs: seq<nat>, i: nat, x: nat)
    requires i < |xs|
    ensures Sum(xs[i := x]) + xs[i] == Sum(xs) + x
  {
    var n := |xs| - 1;
    var ys := xs[i := x];
    if i == n {
      assert ys[..n] == xs[..n];
    } else {
      assert ys[..n] == xs[..n][i := x];
      SumUpdate(xs[..n], i, x);
    }
  }

  lemma ElementWithinSum(xs: seq<nat>, i: nat)
    requires i < |xs|
    ensures xs[i] <= Sum(xs)
  {
    SumUpdate(xs, i, 0);
  }

  lemma {:induction false} SumAtLeast(xs: seq<nat>, m: nat)
    requires forall i | 0 <= i < |xs| :: m <= xs[i]
    ensures |xs| * m <= Sum(xs)
  {
    if |xs| > 0 {
      SumAtLeast(xs[..|xs| - 1], m);
      assert |xs| * m == (|xs| - 1) * m + m;
    }
  }

  lemma {:induction false} SumAtMost(xs: seq<nat>, m: nat)
    requires forall i | 0 <= i < |xs| :: xs[i] <= m
    ensures Sum(xs) <= |xs| * m
  {
    if |xs| > 0 {
      SumAtMost(xs[..|xs| - 1], m);
      assert |xs| * m == (|xs| - 1) * m + m;
    }
  }

  /** A sum that reaches its upper bound reaches it in every element. */
  lemma {:induction false} SumSaturated(xs: seq<nat>, m: nat)
    requires forall i | 0 <= i < |xs| :: xs[i] <= m
    requires |xs| * m <= Sum(xs)
    ensures forall i | 0 <= i < |xs| :: xs[i] == m
  {
    forall i | 0 <= i < |xs| ensures xs[i] == m {
      SumUpdate(xs, i, m);
      SumAtMost(xs[i := m], m);
    }
  }

  /** Pointwise addition adds the sums. */
  lemma {:induction false} SumPlus(xs: seq<nat>, ys: seq<nat>, zs: seq<nat>)
    requires |xs| == |ys| == |zs|
    requires forall i | 0 <= i < |xs| :: zs[i] == xs[i] + ys[i]
    ensures Sum(zs) == Sum(xs) + Sum(ys)
  {
    if |xs| > 0 {
      var n := |xs| - 1;
      SumPlus(xs[..n], ys[..n], zs[..n]);
    }
  }
}

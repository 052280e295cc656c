/** Finite sums over sequences, with the few facts the models need. */
module Sums {

  function Sum(xs: seq<int>): int {
    if |xs| == 0 then 0 else Sum(xs[..|xs| - 1]) + xs[|xs| - 1]
  }

  function RSum(xs: seq<real>): real {
    if |xs| == 0 then 0.0 else RSum(xs[..|xs| - 1]) + xs[|xs| - 1]
  }

  lemma {:induction false} SumPointwise(a: seq<int>, b: seq<int>, c: seq<int>)
    requires |a| == |b| == |c|
    requires forall i :: 0 <= i < |a| ==> a[i] + b[i] == c[i]
    ensures Sum(a) + Sum(b) == Sum(c)
  {
    if |a| > 0 {
      SumPointwise(a[..|a| - 1], b[..|a| - 1], c[..|a| - 1]);
    }
  }

  lemma {:induction false} SumAtLeast(a: seq<int>, i: nat)
    requires i < |a| && forall j :: 0 <= j < |a| ==> a[j] >= 0
    ensures Sum(a) >= a[i] >= 0
    ensures Sum(a[..|a| - 1]) >= 0
  {
    if |a| == 1 {
    } else {
      SumAtLeast(a[..|a| - 1], if i < |a| - 1 then i else 0);
    }
  }

  lemma {:induction false} SumUpdate(a: seq<int>, i: nat, x: int)
    requires i < |a|
    ensures Sum(a[i := x]) == Sum(a) - a[i] + x
  {
    var n := |a| - 1;
    if i == n {
      assert a[i := x][..n] == a[..n];
    } else {
      assert a[i := x][..n] == a[..n][i := x];
      SumUpdate(a[..n], i, x);
    }
  }

  lemma {:induction false} SumZero(a: seq<int>)
    requires forall i :: 0 <= i < |a| ==> a[i] == 0
    ensures Sum(a) == 0
  {
    if |a| > 0 {
      SumZero(a[..|a| - 1]);
    }
  }

  lemma SumSnoc(a: seq<int>, n: nat)
    requires n < |a|
    ensures Sum(a[..n + 1]) == Sum(a[..n]) + a[n]
  {
    assert a[..n + 1][..n] == a[..n];
  }

  lemma {:induction false} RSumUpdate(a: seq<real>, i: nat, x: real)
    requires i < |a|
    ensures RSum(a[i := x]) == RSum(a) - a[i] + x
  {
    var n := |a| - 1;
    if i == n {
      assert a[i := x][..n] == a[..n];
    } else {
      assert a[i := x][..n] == a[..n][i := x];
      RSumUpdate(a[..n], i, x);
    }
  }

  lemma RSumSnoc(a: seq<real>, n: nat)
    requires n < |a|
    ensures RSum(a[..n + 1]) == RSum(a[..n]) + a[n]
  {
    assert a[..n + 1][..n] == a[..n];
  }

  lemma {:induction false} RSumPointwise(a: seq<real>, b: seq<real>, c: seq<real>)
    requires |a| == |b| == |c|
    requires forall i :: 0 <= i < |a| ==> a[i] + b[i] == c[i]
    ensures RSum(a) + RSum(b) == RSum(c)
  {
    if |a| > 0 {
      RSumPointwise(a[..|a| - 1], b[..|a| - 1], c[..|a| - 1]);
    }
  }

  lemma {:induction false} RSumZero(q: seq<real>)
    requires forall k :: 0 <= k < |q| ==> q[k] == 0.0
    ensures RSum(q) == 0.0
  {
    if |q| > 0 {
      RSumZero(q[..|q| - 1]);
    }
  }

  lemma {:induction false} RSumNonNegative(a: seq<real>)
    requires forall i :: 0 <= i < |a| ==> a[i] >= 0.0
    ensures RSum(a) >= 0.0
    ensures forall i :: 0 <= i <= |a| ==> RSum(a[..i]) <= RSum(a)
  {
    if |a| > 0 {
      var n := |a| - 1;
      RSumNonNegative(a[..n]);
      forall i | 0 <= i <= |a| ensures RSum(a[..i]) <= RSum(a) {
        if i <= n { assert a[..n][..i] == a[..i]; } else { assert a[..i] == a; }
      }
    }
  }
}

/** Totals over a sequence of contributions, and how they move with one element. */
module Tally {

  function Total<X>(xs: seq<X>, f: X -> multiset<nat>): multiset<nat> {
    if xs == [] then multiset{} else Total(xs[..|xs| - 1], f) + f(xs[|xs| - 1])
  }

  lemma TotalAppend<X>(xs: seq<X>, x: X, f: X -> multiset<nat>)
    ensures Total(xs + [x], f) == Total(xs, f) + f(x)
  {
  }

  lemma {:induction false} TotalUpdate<X>(xs: seq<X>, i: nat, x: X, f: X -> multiset<nat>)
    requires i < |xs|
    ensures Total(xs[i := x], f) + f(xs[i]) == Total(xs, f) + f(x)
  {
    var n := |xs| - 1;
    if i == n {
      assert xs[i := x][..n] == xs[..n];
    } else {
      TotalUpdate(xs[..n], i, x, f);
      assert xs[i := x][..n] == xs[..n][i := x];
      calc {
        Total(xs[i := x], f) + f(xs[i]);
        (Total(xs[..n][i := x], f) + f(xs[i])) + f(xs[n]);
        (Total(xs[..n], f) + f(x)) + f(xs[n]);
        Total(xs, f) + f(x);
      }
    }
  }

  lemma {:induction false} TotalRemove<X>(xs: seq<X>, i: nat, f: X -> multiset<nat>)
    requires i < |xs|
    ensures Total(xs, f) == Total(xs[..i] + xs[i + 1..], f) + f(xs[i])
  {
    var n := |xs| - 1;
    if i == n {
      assert xs[..i] + xs[i + 1..] == xs[..n];
    } else {
      TotalRemove(xs[..n], i, f);
      assert (xs[..i] + xs[i + 1..])[..n - 1] == xs[..n][..i] + xs[..n][i + 1..];
    }
  }

  lemma TotalCountsBoth<X>(xs: seq<X>, i: nat, j: nat, f: X -> multiset<nat>, v: nat)
    requires i < |xs| && j < |xs| && i != j
    ensures Total(xs, f)[v] >= f(xs[i])[v] + f(xs[j])[v]
  {
    TotalRemove(xs, i, f);
    var rest := xs[..i] + xs[i + 1..];
    var j' := if j < i then j else j - 1;
    assert rest[j'] == xs[j];
    TotalRemove(rest, j', f);
  }

  lemma {:induction false} TotalSplits<X>(xs: seq<X>, f: X -> multiset<nat>, g: X -> multiset<nat>, h: X -> multiset<nat>)
    requires forall i :: 0 <= i < |xs| ==> f(xs[i]) == g(xs[i]) + h(xs[i])
    ensures Total(xs, f) == Total(xs, g) + Total(xs, h)
  {
    if xs == [] {
    } else {
      TotalSplits(xs[..|xs| - 1], f, g, h);
    }
  }

  // ----- Weights -----

  function Weight<X>(xs: seq<X>, w: X -> nat): nat {
    if xs == [] then 0 else Weight(xs[..|xs| - 1], w) + w(xs[|xs| - 1])
  }

  lemma WeightAppend<X>(xs: seq<X>, x: X, w: X -> nat)
    ensures Weight(xs + [x], w) == Weight(xs, w) + w(x)
  {
  }

  lemma {:induction false} WeightUpdate<X>(xs: seq<X>, i: nat, x: X, w: X -> nat)
    requires i < |xs|
    ensures Weight(xs[i := x], w) + w(xs[i]) == Weight(xs, w) + w(x)
  {
    var n := |xs| - 1;
    if i == n {
      assert xs[i := x][..n] == xs[..n];
    } else {
      WeightUpdate(xs[..n], i, x, w);
      assert xs[i := x][..n] == xs[..n][i := x];
    }
  }

  lemma {:induction false} WeightRemove<X>(xs: seq<X>, i: nat, w: X -> nat)
    requires i < |xs|
    ensures Weight(xs, w) == Weight(xs[..i] + xs[i + 1..], w) + w(xs[i])
  {
    var n := |xs| - 1;
    if i == n {
      assert xs[..i] + xs[i + 1..] == xs[..n];
    } else {
      WeightRemove(xs[..n], i, w);
      assert (xs[..i] + xs[i + 1..])[..n - 1] == xs[..n][..i] + xs[..n][i + 1..];
    }
  }

  // ----- One element changes -----

  lemma TotalUpdateSize<X>(xs: seq<X>, i: nat, x: X, f: X -> multiset<nat>)
    requires i < |xs|
    ensures |Total(xs[i := x], f)| + |f(xs[i])| == |Total(xs, f)| + |f(x)|
  {
    TotalUpdate(xs, i, x, f);
    assert |Total(xs[i := x], f) + f(xs[i])| == |Total(xs, f) + f(x)|;
  }

  lemma TotalUpdateSame<X>(xs: seq<X>, i: nat, x: X, f: X -> multiset<nat>)
    requires i < |xs| && f(x) == f(xs[i])
    ensures Total(xs[i := x], f) == Total(xs, f)
  {
    TotalUpdate(xs, i, x, f);
    CancelRight(Total(xs[i := x], f), Total(xs, f), f(x));
  }

  lemma TotalUpdateDrop<X>(xs: seq<X>, i: nat, x: X, f: X -> multiset<nat>)
    requires i < |xs| && f(x) == multiset{}
    ensures Total(xs[i := x], f) + f(xs[i]) == Total(xs, f)
  {
    TotalUpdate(xs, i, x, f);
    assert Total(xs, f) + multiset{} == Total(xs, f);
  }

  lemma CancelRight(a: multiset<nat>, b: multiset<nat>, c: multiset<nat>)
    requires a + c == b + c
    ensures a == b
  {
    forall v
      ensures a[v] == b[v]
    {
      assert (a + c)[v] == (b + c)[v];
    }
  }

  /** Moving `m` from the second heap to the first leaves the sum unchanged. */
  lemma Transfer(a: multiset<nat>, b: multiset<nat>, m: multiset<nat>)
    ensures (a + m) + b == a + (b + m)
    ensures a + (m + b) == (a + m) + b
  {
  }
}

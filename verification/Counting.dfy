/** Counting over sequences and summing over index ranges: the arithmetic behind every
    "how many emails / deliveries / tokens" statement of the project. */
module Counting {

  datatype Option<+T> = None | Some(value: T)

  function One(b: bool): nat { if b then 1 else 0 }

  /** The number of elements of xs that satisfy p. */
  function Count<T>(xs: seq<T>, p: T -> bool): nat {
    if xs == [] then 0
    else Count(xs[..|xs| - 1], p) + if p(xs[|xs| - 1]) then 1 else 0
  }

  lemma CountSnoc<T>(xs: seq<T>, x: T, p: T -> bool)
    ensures Count(xs + [x], p) == Count(xs, p) + if p(x) then 1 else 0
  {
    assert (xs + [x])[..|xs|] == xs;
  }

  lemma {:induction false} CountUpdate<T>(xs: seq<T>, i: nat, x: T, p: T -> bool)
    requires i < |xs|
    ensures Count(xs[i := x], p) + (if p(xs[i]) then 1 else 0) == Count(xs, p) + (if p(x) then 1 else 0)
  {
    var n := |xs| - 1;
    if i == n {
      assert xs[i := x][..n] == xs[..n];
    } else {
      assert xs[i := x][..n] == xs[..n][i := x];
      CountUpdate(xs[..n], i, x, p);
    }
  }

  lemma {:induction false} CountSplit<T>(xs: seq<T>, ys: seq<T>, p: T -> bool)
    ensures Count(xs + ys, p) == Count(xs, p) + Count(ys, p)
  {
    if ys == [] {
      assert xs + ys == xs;
    } else {
      var n := |ys| - 1;
      assert (xs + ys)[..|xs + ys| - 1] == xs + ys[..n];
      CountSplit(xs, ys[..n], p);
    }
  }

  lemma {:induction false} CountPositive<T>(xs: seq<T>, i: nat, p: T -> bool)
    requires i < |xs| && p(xs[i])
    ensures Count(xs, p) >= 1
  {
    if i < |xs| - 1 {
      CountPositive(xs[..|xs| - 1], i, p);
    }
  }

  lemma {:induction false} CountZero<T>(xs: seq<T>, p: T -> bool)
    requires forall i :: 0 <= i < |xs| ==> !p(xs[i])
    ensures Count(xs, p) == 0
  {
    if xs != [] {
      CountZero(xs[..|xs| - 1], p);
    }
  }

  lemma {:induction false} CountAtMostOne<T>(xs: seq<T>, p: T -> bool)
    requires forall i, j :: 0 <= i < j < |xs| ==> !(p(xs[i]) && p(xs[j]))
    ensures Count(xs, p) <= 1
  {
    if xs != [] {
      var n := |xs| - 1;
      if p(xs[n]) {
        CountZero(xs[..n], p);
      } else {
        CountAtMostOne(xs[..n], p);
      }
    }
  }

  /** f(0) + ... + f(n - 1). */
  function Total(n: nat, f: nat -> nat): nat {
    if n == 0 then 0 else Total(n - 1, f) + f(n - 1)
  }

  lemma {:induction false} TotalMono(n: nat, f: nat -> nat, g: nat -> nat)
    requires forall i: nat :: i < n ==> g(i) <= f(i)
    ensures Total(n, g) <= Total(n, f)
  {
    if n > 0 {
      TotalMono(n - 1, f, g);
    }
  }

  /** Going from f to g, only index k may increase: the total moves by at most that much. */
  lemma {:induction false} TotalShift(n: nat, f: nat -> nat, g: nat -> nat, k: nat)
    requires k < n
    requires forall i: nat :: i < n && i != k ==> g(i) <= f(i)
    ensures Total(n, g) + f(k) <= Total(n, f) + g(k)
  {
    if k == n - 1 {
      TotalMono(n - 1, f, g);
    } else {
      TotalShift(n - 1, f, g, k);
    }
  }
}

/** Finite sums of reals over index ranges, added in index order. */
module Sums {

  /** The sum f(0) + f(1) + ... + f(n - 1). */
  function Sum(n: nat, f: nat -> real): real
    decreases n
  {
    if n == 0 then 0.0 else Sum(n - 1, f) + f(n - 1)
  }

  /** The sum of the elements of a sequence, in order. */
  function SeqSum(a: seq<real>): real
    decreases |a|
  {
    if |a| == 0 then 0.0 else SeqSum(a[..|a| - 1]) + a[|a| - 1]
  }

  lemma {:induction false} SumOfZeros(n: nat, f: nat -> real)
    requires forall q: nat :: q < n ==> f(q) == 0.0
    ensures Sum(n, f) == 0.0
  {
    if n > 0 {
      SumOfZeros(n - 1, f);
    }
  }

  lemma {:induction false} SumOfSums(n: nat, f: nat -> real, g: nat -> real, h: nat -> real)
    requires forall q: nat :: q < n ==> h(q) == f(q) + g(q)
    ensures Sum(n, h) == Sum(n, f) + Sum(n, g)
  {
    if n > 0 {
      SumOfSums(n - 1, f, g, h);
    }
  }

  lemma {:induction false} SumCongruent(n: nat, f: nat -> real, g: nat -> real)
    requires forall q: nat :: q < n ==> f(q) == g(q)
    ensures Sum(n, f) == Sum(n, g)
  {
    if n > 0 {
      SumCongruent(n - 1, f, g);
    }
  }

  /** A function that is zero everywhere but at k sums to its value at k. */
  lemma {:induction false} SumOfPoint(n: nat, k: nat, v: real, f: nat -> real)
    requires k < n
    requires forall q: nat :: q < n ==> f(q) == (if q == k then v else 0.0)
    ensures Sum(n, f) == v
  {
    if k == n - 1 {
      SumOfZeros(n - 1, f);
    } else {
      SumOfPoint(n - 1, k, v, f);
    }
  }

  lemma {:induction false} SeqSumIsSum(a: seq<real>, f: nat -> real)
    requires forall q: nat :: q < |a| ==> f(q) == a[q]
    ensures SeqSum(a) == Sum(|a|, f)
  {
    if |a| > 0 {
      SeqSumIsSum(a[..|a| - 1], f);
    }
  }
}

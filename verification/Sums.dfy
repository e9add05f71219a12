/** Finite sums over 0..n of a weight function. */
module Sums {
  function Sum(n: nat, w: nat -> int): int {
    if n == 0 then 0 else Sum(n - 1, w) + w(n - 1)
  }

  /** Changing the weight of one index changes the sum by the difference. */
  lemma {:induction false} SumChange(n: nat, w: nat -> int, w': nat -> int, i: nat)
    requires i < n
    requires forall j: nat :: j < n && j != i ==> w'(j) == w(j)
    ensures Sum(n, w') == Sum(n, w) + w'(i) - w(i)
  {
    if i == n - 1 { SumSame(n - 1, w, w'); } else { SumChange(n - 1, w, w', i); }
  }

  lemma {:induction false} SumSame(n: nat, w: nat -> int, w': nat -> int)
    requires forall j: nat :: j < n ==> w'(j) == w(j)
    ensures Sum(n, w') == Sum(n, w)
  {
    if n > 0 { SumSame(n - 1, w, w'); }
  }

  /** A sum of non-negative weights is non-negative, and zero only if every weight is. */
  lemma {:induction false} SumNonNeg(n: nat, w: nat -> int)
    requires forall j: nat :: j < n ==> w(j) >= 0
    ensures Sum(n, w) >= 0
    ensures Sum(n, w) == 0 <==> forall j: nat :: j < n ==> w(j) == 0
  {
    if n > 0 { SumNonNeg(n - 1, w); }
  }

  lemma {:induction false} SumBound(n: nat, w: nat -> int, c: int)
    requires forall j: nat :: j < n ==> w(j) <= c
    ensures Sum(n, w) <= n * c
  {
    if n > 0 { SumBound(n - 1, w, c); assert n * c == (n - 1) * c + c; }
  }

  /** The same when one of the weights is zero. */
  lemma {:induction false} SumBoundBut(n: nat, w: nat -> int, c: int, i: nat)
    requires i < n && w(i) == 0
    requires forall j: nat :: j < n ==> w(j) <= c
    ensures Sum(n, w) <= (n - 1) * c
  {
    if i == n - 1 {
      SumBound(n - 1, w, c);
    } else {
      SumBoundBut(n - 1, w, c, i);
      assert (n - 1) * c == (n - 2) * c + c;
    }
  }
}

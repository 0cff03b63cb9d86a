/** Finite sums of integer terms, the common shape of the caches the program maintains. A term is a function of its
    position. */
module Sums {

  /** f(0) + ... + f(n - 1). */
  ghost function Sum(n: nat, f: nat -> int): int {
    if n == 0 then 0 else Sum(n - 1, f) + f(n - 1)
  }

  /** Changing one term below n changes the sum by that difference. */
  lemma {:induction false} SumChange(n: nat, f: nat -> int, g: nat -> int, k: nat)
    requires k < n
    requires forall j: nat :: j < n && j != k ==> f(j) == g(j)
    ensures Sum(n, g) == Sum(n, f) + g(k) - f(k)
  {
    if k == n - 1 {
      SumSame(n - 1, f, g);
    } else {
      SumChange(n - 1, f, g, k);
    }
  }

  lemma {:induction false} SumSame(n: nat, f: nat -> int, g: nat -> int)
    requires forall j: nat :: j < n ==> f(j) == g(j)
    ensures Sum(n, f) == Sum(n, g)
  {
    if n != 0 {
      SumSame(n - 1, f, g);
    }
  }

  lemma {:induction false} SumBelow(n: nat, f: nat -> int, g: nat -> int)
    requires forall j: nat :: j < n ==> f(j) <= g(j)
    ensures Sum(n, f) <= Sum(n, g)
  {
    if n != 0 {
      SumBelow(n - 1, f, g);
    }
  }

  lemma {:induction false} SumZero(n: nat, f: nat -> int)
    requires forall j: nat :: j < n ==> f(j) == 0
    ensures Sum(n, f) == 0
  {
    if n != 0 {
      SumZero(n - 1, f);
    }
  }

  /** A sum with a single term that can be non-zero is that term. */
  lemma {:induction false} SumSingle(n: nat, f: nat -> int, k: nat)
    requires k < n
    requires forall j: nat :: j < n && j != k ==> f(j) == 0
    ensures Sum(n, f) == f(k)
  {
    if k == n - 1 {
      SumZero(n - 1, f);
    } else {
      SumSingle(n - 1, f, k);
    }
  }

  lemma {:induction false} SumPlus(n: nat, f: nat -> int, g: nat -> int, h: nat -> int)
    requires forall j: nat :: j < n ==> h(j) == f(j) + g(j)
    ensures Sum(n, h) == Sum(n, f) + Sum(n, g)
  {
    if n != 0 {
      SumPlus(n - 1, f, g, h);
    }
  }
}

/** Repeating a step function. */
module Iteration {
  function Iterate<T>(f: T -> T, x: T, n: nat): T
    decreases n
  {
    if n == 0 then x else f(Iterate(f, x, n - 1))
  }

  lemma {:induction false} IterateAdds<T>(f: T -> T, x: T, i: nat, n: nat)
    ensures Iterate(f, x, i + n) == Iterate(f, Iterate(f, x, i), n)
    decreases n
  {
    if n > 0 { IterateAdds(f, x, i, n - 1); }
  }

  lemma {:induction false} SameTail<T>(f: T -> T, x: T, i: nat, j: nat, n: nat)
    requires Iterate(f, x, i) == Iterate(f, x, j)
    ensures Iterate(f, x, i + n) == Iterate(f, x, j + n)
    decreases n
  {
    if n > 0 { SameTail(f, x, i, j, n - 1); }
  }

  /** A fixed point is never left. */
  lemma {:induction false} FixedPointStays<T>(f: T -> T, x: T, m: nat, n: nat)
    requires m <= n && f(Iterate(f, x, m)) == Iterate(f, x, m)
    ensures Iterate(f, x, n) == Iterate(f, x, m)
    decreases n
  {
    if m < n { FixedPointStays(f, x, m, n - 1); }
  }

  /** A state that recurs is the fixed point, if one is ever reached. */
  lemma {:induction false} RecurrentIsFixed<T>(f: T -> T, x: T, i: nat, d: nat, m: nat)
    requires d > 0 && Iterate(f, x, i) == Iterate(f, x, i + d)
    requires f(Iterate(f, x, m)) == Iterate(f, x, m)
    ensures Iterate(f, x, i) == Iterate(f, x, m)
    decreases if i < m then m - i else 0
  {
    if i >= m {
      FixedPointStays(f, x, m, i);
    } else {
      SameTail(f, x, i, i + d, d);
      RecurrentIsFixed(f, x, i + d, d, m);
    }
  }

  /** There is at most one fixed point to reach, and no other state recurs on the way. */
  lemma {:induction false} FixedPointIsFinal<T>(f: T -> T, x: T, n: nat, i: nat, j: nat)
    requires f(Iterate(f, x, n)) == Iterate(f, x, n)
    ensures f(Iterate(f, x, i)) == Iterate(f, x, i) ==> Iterate(f, x, i) == Iterate(f, x, n)
    ensures i < j && Iterate(f, x, i) == Iterate(f, x, j) ==> Iterate(f, x, i) == Iterate(f, x, n)
  {
    if f(Iterate(f, x, i)) == Iterate(f, x, i) {
      if i <= n { FixedPointStays(f, x, i, n); } else { FixedPointStays(f, x, n, i); }
    }
    if i < j && Iterate(f, x, i) == Iterate(f, x, j) {
      RecurrentIsFixed(f, x, i, j - i, n);
    }
  }
}

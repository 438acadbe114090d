/** Why the interpolation of FMU outputs is a Taylor polynomial: an output that moves along a polynomial whose
    derivatives the FMU reports is interpolated exactly (`update_fn` in `src/blocks/fmu.rs`). */
module TaylorExact {
  import opened FmuTaylor

  /** `c(k) + dt (c(k + 1) + dt (... + dt c(n)))` */
  function Horner(c: nat -> real, dt: real, k: nat, n: nat): real
    requires k <= n
    decreases n - k
  {
    if k == n then c(n) else c(k) + dt * Horner(c, dt, k + 1, n)
  }

  /** The coefficients of the derivative of a polynomial. */
  function Derived(c: nat -> real): nat -> real {
    (k: nat) => (k + 1) as real * c(k + 1)
  }

  /** Its derivative of order `order`, where the argument is 0. */
  function DerivativeAtZero(c: nat -> real, order: nat): real {
    if order == 0 then c(0) else DerivativeAtZero(Derived(c), order - 1)
  }

  /** `(k + 1) (k + 2) ... (k + n)` */
  function Rising(k: nat, n: nat): real {
    if n == 0 then 1.0 else Rising(k, n - 1) * (k + n) as real
  }

  lemma {:induction false} RisingFromOne(k: nat, n: nat)
    ensures (k + 1) as real * Rising(k + 1, n) == Rising(k, n + 1)
    decreases n
  {
    if n > 0 {
      RisingFromOne(k, n - 1);
      var a, b, f := (k + 1) as real, Rising(k + 1, n - 1), (k + 1 + n) as real;
      assert Rising(k + 1, n) == b * f && Rising(k, n + 1) == Rising(k, n) * f;
      Regroups(a, b, f);
    } else {
      assert Rising(k, 1) == Rising(k, 0) * (k + 1) as real;
    }
  }

  lemma {:induction false} Regroups(a: real, b: real, f: real)
    ensures a * (b * f) == (a * b) * f
  {
  }

  lemma {:induction false} RisingIsFactorial(n: nat)
    ensures Rising(0, n) == Factorial(n)
    decreases n
  {
    if n > 0 { RisingIsFactorial(n - 1); }
  }

  /** Coefficient `i` of the `k`-th derivative of `c`. */
  function Differentiated(c: nat -> real, k: nat, i: nat): real {
    Rising(i, k) * c(i + k)
  }

  lemma {:induction false} OnceMore(c: nat -> real, k: nat, i: nat, j: nat)
    requires j == i + 1
    ensures j as real * Differentiated(c, k, j) == Differentiated(c, k + 1, i)
  {
    RisingFromOne(i, k);
    Regroups(j as real, Rising(j, k), c(j + k));
    assert j + k == i + (k + 1);
  }

  /** If `f` is the `k`-th derivative of `c`, its `n`-th is the `k + n`-th. */
  lemma {:induction false} DerivativeIsCoefficient(c: nat -> real, k: nat, f: nat -> real, n: nat)
    requires forall i: nat {:trigger f(i)} :: f(i) == Differentiated(c, k, i)
    ensures DerivativeAtZero(f, n) == Differentiated(c, k + n, 0)
    decreases n
  {
    if n > 0 {
      var g := Derived(f);
      forall i: nat ensures g(i) == Differentiated(c, k + 1, i) {
        var j := i + 1;
        OnceMore(c, k, i, j);
        assert f(j) == Differentiated(c, k, j);
      }
      DerivativeIsCoefficient(c, k + 1, g, n - 1);
    }
  }

  lemma {:induction false} DerivativeIsFactorial(c: nat -> real, n: nat)
    ensures DerivativeAtZero(c, n) == Factorial(n) * c(n)
  {
    forall i: nat ensures c(i) == Differentiated(c, 0, i) {
      assert i + 0 == i;
    }
    DerivativeIsCoefficient(c, 0, c, n);
    RisingIsFactorial(n);
  }

  /** A value times a power, under a name of its own. */
  function Raised(h: real, p: real): real {
    h * p
  }

  /** The powers, summed. */
  function PowerSum(c: nat -> real, dt: real, n: nat): real {
    if n == 0 then c(0) else PowerSum(c, dt, n - 1) + Raised(c(n), Power(dt, n))
  }

  lemma {:induction false} HornerStep(a: real, dt: real, h: real, p: real, q: real, next: real)
    requires next == a + dt * h && q == p * dt
    ensures Raised(next, p) == Raised(a, p) + Raised(h, q)
  {
    assert (a + dt * h) * p == a * p + h * (p * dt);
  }

  function Before(c: nat -> real, dt: real, k: nat): real {
    if k == 0 then 0.0 else PowerSum(c, dt, k - 1)
  }

  lemma {:induction false} HornerIsPowerSum(c: nat -> real, dt: real, k: nat, n: nat)
    requires k <= n
    ensures PowerSum(c, dt, n) == Before(c, dt, k) + Raised(Horner(c, dt, k, n), Power(dt, k))
    decreases n - k
  {
    if k < n {
      var m := k + 1;
      HornerIsPowerSum(c, dt, m, n);
      HornerStep(c(k), dt, Horner(c, dt, m, n), Power(dt, k), Power(dt, m), Horner(c, dt, k, n));
      assert Before(c, dt, m) == Before(c, dt, k) + Raised(c(k), Power(dt, k));
    }
  }

  lemma {:induction false} TermIsPower(d: Derivatives, dt: real, order: nat, v: OutputVar, k: nat, a: real)
    requires d.Element(order, v, k) == Factorial(order) * a
    ensures TaylorTerm(d, dt, order, v, k) == Raised(a, Power(dt, order))
  {
    FactorialIsPositive(order);
    FractionCancels(Factorial(order), a, Power(dt, order));
  }

  lemma {:induction false} FractionCancels(f: real, a: real, p: real)
    requires f > 0.0
    ensures (f * a) * (p / f) == a * p
  {
    assert (f * a) * (p / f) == a * (f * (p / f));
    assert f * (p / f) == p;
  }

  /** Element `k` of `v` moves along the polynomial `c`, and the FMU reports its derivatives. */
  ghost predicate Moves(d: Derivatives, v: OutputVar, k: nat, c: nat -> real, n: nat) {
    forall order: nat {:trigger d.Element(order, v, k)} | 1 <= order <= n ::
      d.Element(order, v, k) == DerivativeAtZero(c, order)
  }

  lemma {:induction false} SeriesIsPowerSum(
      d: Derivatives, dt: real, v: OutputVar, k: nat, c: nat -> real, n: nat)
    requires Moves(d, v, k, c, n) && n <= v.order
    ensures c(0) + Series(d, dt, v, k, n) == PowerSum(c, dt, n)
    decreases n
  {
    if n > 0 {
      SeriesIsPowerSum(d, dt, v, k, c, n - 1);
      assert d.Element(n, v, k) == DerivativeAtZero(c, n);
      DerivativeIsFactorial(c, n);
      TermIsPower(d, dt, n, v, k, c(n));
    }
  }

  /** An output that moves along a polynomial of the order it declares is interpolated exactly: what was read plus the
      terms added is the polynomial's value `dt` later. */
  lemma {:induction false} PolynomialsAreInterpolatedExactly(
      d: Derivatives, dt: real, v: OutputVar, k: nat, c: nat -> real, n: nat)
    requires Moves(d, v, k, c, n) && n <= v.order
    ensures c(0) + Series(d, dt, v, k, n) == Horner(c, dt, 0, n)
  {
    SeriesIsPowerSum(d, dt, v, k, c, n);
    HornerIsPowerSum(c, dt, 0, n);
  }
}

/** How often the loop of the emitted fixed-step `<name>_run` turns (`emit_fixed` in `src/codegen/solver.rs`): while
    more than half a step is left. */
module StepCount {
  predicate Continues(time: real, tEnd: real, dt: real) { time < tEnd - 0.5 * dt }

  function TimeAfter(t0: real, dt: real, k: nat): real { t0 + k as real * dt }

  /** The loop runs exactly `n` times. */
  ghost predicate LoopCount(t0: real, tEnd: real, dt: real, n: nat) {
    && (forall k: nat {:trigger TimeAfter(t0, dt, k)} | k < n :: Continues(TimeAfter(t0, dt, k), tEnd, dt))
    && !Continues(TimeAfter(t0, dt, n), tEnd, dt)
  }

  lemma {:induction false} TimeGrows(t0: real, dt: real, k: nat, n: nat)
    requires dt > 0.0 && k <= n
    ensures TimeAfter(t0, dt, k) <= TimeAfter(t0, dt, n)
    ensures TimeAfter(t0, dt, k + 1) == TimeAfter(t0, dt, k) + dt
  {
    var a, b := k as real, n as real;
    Scales(a, b, dt);
    assert (k + 1) as real == a + 1.0;
    assert (a + 1.0) * dt == a * dt + dt;
  }

  lemma {:induction false} Scales(a: real, b: real, dt: real)
    requires dt > 0.0 && a <= b
    ensures a * dt <= b * dt
  {
    assert (b - a) * dt >= 0.0;
    assert (b - a) * dt == b * dt - a * dt;
  }

  lemma {:induction false} QuotientTimes(d: real, dt: real)
    requires dt > 0.0
    ensures d / dt * dt == d
  {
  }

  /** For every target and every positive step there is such a number. */
  lemma {:induction false} SomeLoopCount(t0: real, tEnd: real, dt: real) returns (n: nat)
    requires dt > 0.0
    ensures LoopCount(t0, tEnd, dt, n)
  {
    var q := (tEnd - 0.5 * dt - t0) / dt;
    QuotientTimes(tEnd - 0.5 * dt - t0, dt);
    n := if q <= 0.0 then 0 else -((-q).Floor);
    var m := n as real;
    Scales(q, m, dt);
    forall k: nat | k < n ensures Continues(TimeAfter(t0, dt, k), tEnd, dt) {
      var a := k as real;
      assert a < q;
      assert (q - a) * dt > 0.0;
      assert (q - a) * dt == q * dt - a * dt;
    }
  }

  lemma {:induction false} LoopCountIsUnique(t0: real, tEnd: real, dt: real, m: nat, n: nat)
    requires LoopCount(t0, tEnd, dt, m) && LoopCount(t0, tEnd, dt, n)
    ensures m == n
  {
    assert m < n ==> Continues(TimeAfter(t0, dt, m), tEnd, dt);
    assert n < m ==> Continues(TimeAfter(t0, dt, n), tEnd, dt);
  }

  /** A run to `t0 + n dt` takes exactly `n` steps: the half step of slack settles the last one. */
  lemma {:induction false} WholeStepsCount(t0: real, dt: real, n: nat)
    requires dt > 0.0
    ensures LoopCount(t0, TimeAfter(t0, dt, n), dt, n)
  {
    forall k: nat | k < n ensures Continues(TimeAfter(t0, dt, k), TimeAfter(t0, dt, n), dt) {
      TimeGrows(t0, dt, k + 1, n);
      TimeGrows(t0, dt, k, n);
    }
  }
}

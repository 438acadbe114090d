/** The step control of the emitted adaptive loop in plain arithmetic: when a trial is accepted, how long the next step
    is, and how long the loop goes on (`emit_adaptive` in `src/codegen/solver.rs`). */
module ErrorControl {
  import opened Ir
  import opened LuSolve
  import opened StepModel
  import opened FixedStep
  import opened StageMeaning
  import opened AdaptiveLoop

  /** The estimated error of state `i`: the step times the slopes weighted by the embedded row. */
  function Estimated(c: Control, ks: seq<Row>, dt: real, i: nat): real
    requires |ks| <= |c.tr| && forall j | 0 <= j < |ks| :: i < |ks[j]|
  {
    dt * SlopeSum(c.tr, ks, |ks|, i)
  }

  /** What the error of state `i` may be: the absolute tolerance plus the relative tolerance times the state. */
  function Allowed(c: Control, x: real): real {
    c.atol + c.rtol * RealAbs(x)
  }

  /** No state's error is above its tolerance. */
  ghost predicate WithinTolerance(c: Control, x: Row, ks: seq<Row>, dt: real, n: nat)
    requires n <= |x| && |ks| <= |c.tr| && Slopes(ks, |x|)
  {
    forall i {:trigger x[i]} | 0 <= i < n :: RealAbs(Estimated(c, ks, dt, i)) <= Allowed(c, x[i])
  }

  /** `e` is the error of state `i` in units of its tolerance. */
  ghost predicate IsErrorOf(c: Control, x: Row, ks: seq<Row>, dt: real, i: nat, e: real)
    requires i < |x| && |ks| <= |c.tr| && Slopes(ks, |x|)
  {
    e * Allowed(c, x[i]) == RealAbs(Estimated(c, ks, dt, i))
  }

  /** The largest of the errors, or the least value there is if none is larger. */
  ghost predicate IsNorm(c: Control, x: Row, ks: seq<Row>, dt: real, n: nat, err: real)
    requires n <= |x| && |ks| <= |c.tr| && Slopes(ks, |x|)
  {
    && err >= 0.0000000000000001
    && (forall i: nat, e: real {:trigger IsErrorOf(c, x, ks, dt, i, e)} | i < n ::
          IsErrorOf(c, x, ks, dt, i, e) ==> e <= err)
    && (err == 0.0000000000000001 || exists i: nat {:trigger IsErrorOf(c, x, ks, dt, i, err)} ::
          i < n && IsErrorOf(c, x, ks, dt, i, err))
  }

  lemma {:induction false} AllowedIsPositive(c: Control, x: real)
    requires c.atol > 0.0 && c.rtol >= 0.0
    ensures Allowed(c, x) > 0.0
  {
    assert c.rtol * RealAbs(x) >= 0.0;
  }

  lemma {:induction false} SameQuotient(a: real, b: real, q: real, e: real)
    requires b > 0.0 && q == a / b
    ensures e * b == a <==> e == q
  {
    assert q * b == a;
    if e != q { assert (e - q) * b != 0.0; }
  }

  lemma {:induction false} ShareAtMostOne(a: real, b: real, q: real)
    requires b > 0.0 && q * b == a
    ensures q <= 1.0 <==> a <= b
  {
    if q <= 1.0 { assert (1.0 - q) * b >= 0.0; } else { assert (q - 1.0) * b > 0.0; }
  }

  lemma {:induction false} ScaledIsQuotient(c: Control, x: real, dt: real, e: real, est: real, tol: real)
    requires c.atol > 0.0 && c.rtol >= 0.0 && est == dt * e && tol == Allowed(c, x)
    ensures tol > 0.0 && Scaled(c, x, dt, e) == RealAbs(est) / tol
  {
    AllowedIsPositive(c, x);
  }

  lemma {:induction false} ScaledIsError(
      c: Control, x: Row, ks: seq<Row>, dt: real, i: nat, s: real, est: real, tol: real)
    requires c.atol > 0.0 && c.rtol >= 0.0 && i < |x| && |ks| <= |c.tr| && Slopes(ks, |x|)
    requires s == Scaled(c, x[i], dt, WeightedSlope(c.tr, ks, |ks|, i))
    requires est == Estimated(c, ks, dt, i) && tol == Allowed(c, x[i])
    ensures forall e {:trigger IsErrorOf(c, x, ks, dt, i, e)} :: IsErrorOf(c, x, ks, dt, i, e) <==> e == s
  {
    WeightedIsSum(c.tr, ks, |ks|, i);
    ScaledIsQuotient(c, x[i], dt, WeightedSlope(c.tr, ks, |ks|, i), est, tol);
    forall e {:trigger IsErrorOf(c, x, ks, dt, i, e)} ensures IsErrorOf(c, x, ks, dt, i, e) <==> e == s {
      SameQuotient(RealAbs(est), tol, s, e);
    }
  }

  lemma {:induction false} NormGrows(
      c: Control, x: Row, ks: seq<Row>, dt: real, k: nat, before: real, s: real, err: real)
    requires k < |x| && |ks| <= |c.tr| && Slopes(ks, |x|) && IsNorm(c, x, ks, dt, k, before)
    requires forall e {:trigger IsErrorOf(c, x, ks, dt, k, e)} :: IsErrorOf(c, x, ks, dt, k, e) <==> e == s
    requires err == if s > before then s else before
    ensures IsNorm(c, x, ks, dt, k + 1, err)
  {
    assert IsErrorOf(c, x, ks, dt, k, s);
  }

  lemma {:induction false} ErrorGrows(c: Control, x: Row, ks: seq<Row>, dt: real, n: nat, before: real, s: real)
    requires c.atol > 0.0 && c.rtol >= 0.0 && 0 < n <= |x| && |ks| <= |c.tr| && Slopes(ks, |x|)
    requires before == ErrorTo(c, x, ks, dt, n - 1)
    requires s == Scaled(c, x[n - 1], dt, WeightedSlope(c.tr, ks, |ks|, n - 1))
    ensures ErrorTo(c, x, ks, dt, n) == if s > before then s else before
  {
  }

  lemma {:induction false} ErrorIsNorm(c: Control, x: Row, ks: seq<Row>, dt: real, n: nat, err: real)
    requires c.atol > 0.0 && c.rtol >= 0.0 && n <= |x| && |ks| <= |c.tr| && Slopes(ks, |x|)
    requires err == ErrorTo(c, x, ks, dt, n)
    ensures IsNorm(c, x, ks, dt, n, err)
    decreases n
  {
    if n > 0 {
      var k := n - 1;
      var before := ErrorTo(c, x, ks, dt, k);
      ErrorIsNorm(c, x, ks, dt, k, before);
      var s := Scaled(c, x[k], dt, WeightedSlope(c.tr, ks, |ks|, k));
      ErrorGrows(c, x, ks, dt, n, before, s);
      ScaledIsError(c, x, ks, dt, k, s, Estimated(c, ks, dt, k), Allowed(c, x[k]));
      NormGrows(c, x, ks, dt, k, before, s, err);
    }
  }

  lemma {:induction false} OneErrorAtMostOne(
      c: Control, x: Row, ks: seq<Row>, dt: real, i: nat, e: real, est: real, tol: real)
    requires c.atol > 0.0 && c.rtol >= 0.0 && i < |x| && |ks| <= |c.tr| && Slopes(ks, |x|)
    requires est == Estimated(c, ks, dt, i) && tol == Allowed(c, x[i]) && IsErrorOf(c, x, ks, dt, i, e)
    ensures e <= 1.0 <==> RealAbs(est) <= tol
  {
    AllowedIsPositive(c, x[i]);
    ShareAtMostOne(RealAbs(est), tol, e);
  }

  lemma {:induction false} SomeError(c: Control, x: Row, ks: seq<Row>, dt: real, i: nat, est: real, tol: real)
    returns (e: real)
    requires c.atol > 0.0 && c.rtol >= 0.0 && i < |x| && |ks| <= |c.tr| && Slopes(ks, |x|)
    requires est == Estimated(c, ks, dt, i) && tol == Allowed(c, x[i])
    ensures IsErrorOf(c, x, ks, dt, i, e)
  {
    AllowedIsPositive(c, x[i]);
    e := RealAbs(est) / tol;
    SameQuotient(RealAbs(est), tol, e, e);
  }

  lemma {:induction false} NormAtMostOne(c: Control, x: Row, ks: seq<Row>, dt: real, n: nat, err: real)
    requires c.atol > 0.0 && c.rtol >= 0.0 && n <= |x| && |ks| <= |c.tr| && Slopes(ks, |x|)
    requires IsNorm(c, x, ks, dt, n, err)
    ensures err <= 1.0 <==> WithinTolerance(c, x, ks, dt, n)
  {
    if err <= 1.0 {
      forall i: nat | i < n ensures RealAbs(Estimated(c, ks, dt, i)) <= Allowed(c, x[i]) {
        var e := SomeError(c, x, ks, dt, i, Estimated(c, ks, dt, i), Allowed(c, x[i]));
        OneErrorAtMostOne(c, x, ks, dt, i, e, Estimated(c, ks, dt, i), Allowed(c, x[i]));
      }
    } else {
      var i: nat :| i < n && IsErrorOf(c, x, ks, dt, i, err);
      OneErrorAtMostOne(c, x, ks, dt, i, err, Estimated(c, ks, dt, i), Allowed(c, x[i]));
    }
  }

  /** A trial above the least step is accepted exactly if the estimated error of every state is within its tolerance;
      one at the least step always is. */
  lemma {:induction false} AcceptedIff(code: Code, c: Control, s: Turn, tEnd: real, hh: real)
    requires CodeOk(code) && ControlOk(code, c)
    requires hh == if s.m.world.time + s.h >= tEnd then tEnd - s.m.world.time else s.h
    ensures var (after, ks) := StagesTo(code, s.m, hh, |code.tableau.a|);
            Accepts(code, c, s, tEnd) <==>
            hh <= 0.0000000000000001 || WithinTolerance(c, after.world.x, ks, hh, |after.world.x|)
  {
    var (after, ks) := StagesTo(code, s.m, hh, |code.tableau.a|);
    assert hh == Tried(s, tEnd);
    var err := ErrorOf(code, c, s.m, hh);
    ErrorIsNorm(c, after.world.x, ks, hh, |after.world.x|, err);
    NormAtMostOne(c, after.world.x, ks, hh, |after.world.x|, err);
  }

  /** The next step: nine tenths of this one over the root of the error, between a tenth and ten times this one. */
  lemma {:induction false} NextStep(c: Control, hh: real, err: real, r: real)
    requires r == c.root(err) && r > 0.0 && hh > 0.0
    ensures 0.09 <= r <= 9.0 ==> Resized(c, hh, err) * r == 0.9 * hh
    ensures r > 9.0 ==> Resized(c, hh, err) == 0.1 * hh
    ensures r < 0.09 ==> Resized(c, hh, err) == 10.0 * hh
  {
    var f := 0.9 / r;
    assert f * r == 0.9;
    if r > 9.0 { Compares(f, 0.1, r); }
    if r < 0.09 { Compares(10.0, f, r); }
    if 0.09 <= r <= 9.0 {
      NotBelow(f, 0.1, r);
      NotBelow(10.0, f, r);
      assert hh * f * r == hh * (f * r);
    }
  }

  lemma {:induction false} Compares(a: real, b: real, r: real)
    requires r > 0.0 && a * r < b * r
    ensures a < b
  {
    assert (b - a) * r > 0.0;
  }

  lemma {:induction false} NotBelow(a: real, b: real, r: real)
    requires r > 0.0 && a * r >= b * r
    ensures a >= b
  {
    assert (a - b) * r >= 0.0;
  }

  /** The loop goes on while more is left than its allowance. */
  lemma {:induction false} GoesWhileMoreIsLeft(time: real, tEnd: real)
    ensures Goes(time, tEnd) <==> tEnd - time > 0.0000000000000001 * RealAbs(tEnd) + 0.0000000000000001
  {
  }
}

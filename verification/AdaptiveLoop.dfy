/** The emitted adaptive integrator: one trial step with its error norm, and the accept/reject loop of
    `<name>_run` (`emit_adaptive` in `src/codegen/solver.rs`). A rejected trial leaves no trace, so
    a run is the stage kernel driven over its accepted steps only. */
module AdaptiveLoop {
  import opened LuSolve
  import opened StepModel
  import opened FixedStep

  const BETA := 0.9
  const SCALE_MIN := 0.1
  const SCALE_MAX := 10.0
  const TOLERANCE := 0.0000000000000001
  const TIMESTEP_MIN := 0.0000000000000001

  /** Tolerances, the weights of the embedded error estimate, and the root `err^(1/p)` of the controller. */
  datatype Control = Control(atol: real, rtol: real, tr: seq<real>, root: real -> real)

  /** The tolerances are positive, every stage has a weight, and roots of numbers above 1 are not below 1. */
  ghost predicate ControlOk(code: Code, c: Control) {
    && c.atol > 0.0 && c.rtol >= 0.0 && |c.tr| == |code.tableau.a|
    && (forall v: real {:trigger c.root(v)} :: v > 0.0 ==> c.root(v) > 0.0)
    && (forall v: real {:trigger c.root(v)} :: v > 1.0 ==> c.root(v) >= 1.0)
  }

  function Abs(v: real): real {
    if v < 0.0 then -v else v
  }

  // ---------------------------------------------------------------------------------------
  // One trial
  // ---------------------------------------------------------------------------------------

  function Scaled(c: Control, x: real, dt: real, e: real): (r: real)
    requires c.atol > 0.0 && c.rtol >= 0.0
  {
    assert c.rtol * Abs(x) >= 0.0;
    Abs(dt * e) / (c.atol + c.rtol * Abs(x))
  }

  /** The error norm over the first `n` states, no less than the tolerance. */
  function ErrorTo(c: Control, x: seq<real>, ks: seq<Row>, dt: real, n: nat): (err: real)
    requires c.atol > 0.0 && c.rtol >= 0.0 && n <= |x| && |ks| <= |c.tr| && Slopes(ks, |x|)
    ensures err >= TOLERANCE
  {
    if n == 0 then TOLERANCE
    else
      var before := ErrorTo(c, x, ks, dt, n - 1);
      var e := Scaled(c, x[n - 1], dt, WeightedSlope(c.tr, ks, |ks|, n - 1));
      if e > before then e else before
  }

  ghost function ErrorOf(code: Code, c: Control, m: Snapshot, dt: real): (err: real)
    requires CodeOk(code) && ControlOk(code, c)
    ensures err > 0.0
  {
    var (after, ks) := StagesTo(code, m, dt, |code.tableau.a|);
    ErrorTo(c, after.world.x, ks, dt, |after.world.x|)
  }

  function Factor(c: Control, err: real): real
    requires c.root(err) > 0.0
  {
    var fac := BETA / c.root(err);
    if fac < SCALE_MIN then SCALE_MIN else if fac > SCALE_MAX then SCALE_MAX else fac
  }

  /** A step whose error is too large is retried with a smaller one. */
  lemma {:induction false} FactorBounds(c: Control, err: real)
    requires c.root(err) > 0.0
    ensures SCALE_MIN <= Factor(c, err) <= SCALE_MAX
    ensures c.root(err) >= 1.0 ==> Factor(c, err) <= BETA
  {
    var r := c.root(err);
    if r >= 1.0 { assert BETA / r * r == BETA; }
  }

  // ---------------------------------------------------------------------------------------
  // One turn of the loop
  // ---------------------------------------------------------------------------------------

  /** The instance and the step size to try next. */
  datatype Turn = Turn(m: Snapshot, h: real)

  predicate Clamped(s: Turn, tEnd: real) { s.m.world.time + s.h >= tEnd }

  /** The step that is tried: cut to the end. */
  function Tried(s: Turn, tEnd: real): real {
    if Clamped(s, tEnd) then tEnd - s.m.world.time else s.h
  }

  predicate Stands(err: real, hh: real) { err <= 1.0 || hh <= TIMESTEP_MIN }

  ghost predicate Accepts(code: Code, c: Control, s: Turn, tEnd: real)
    requires CodeOk(code) && ControlOk(code, c)
  {
    Stands(ErrorOf(code, c, s.m, Tried(s, tEnd)), Tried(s, tEnd))
  }

  function Restored(trial: Snapshot, m: Snapshot): Snapshot {
    trial.(world := trial.world.(x := m.world.x, time := m.world.time))
  }

  function Resized(c: Control, hh: real, err: real): real
    requires c.root(err) > 0.0
  {
    hh * Factor(c, err)
  }

  ghost function Attempted(code: Code, c: Control, s: Turn, tEnd: real): Turn
    requires CodeOk(code) && ControlOk(code, c)
  {
    var hh := Tried(s, tEnd);
    var next := Resized(c, hh, ErrorOf(code, c, s.m, hh));
    if Accepts(code, c, s, tEnd) then Turn(Advance(code, s.m, hh), if Clamped(s, tEnd) then s.h else next)
    else Turn(Restored(Kernel(code, s.m, hh), s.m), next)
  }

  predicate Goes(time: real, tEnd: real) {
    tEnd - time > TOLERANCE * (if tEnd > 0.0 then tEnd else -tEnd) + TIMESTEP_MIN
  }

  lemma {:induction false} GoesBelowEnd(time: real, tEnd: real)
    requires Goes(time, tEnd)
    ensures time < tEnd
  {
  }

  lemma {:induction false} Shrinks(hh: real, fac: real, bound: real)
    requires hh > 0.0 && 0.0 < fac <= bound
    ensures 0.0 < hh * fac <= hh * bound
  {
  }

  /** What a turn comes to: an accepted trial, or a rejected one. */
  ghost predicate Accepted(code: Code, s: Turn, r: Turn, tEnd: real, hh: real)
    requires CodeOk(code)
  {
    && r.m == Advance(code, s.m, hh) && r.m.world.time == s.m.world.time + hh <= tEnd
    && (r.m.world.time == tEnd <==> Clamped(s, tEnd))
  }

  predicate Rejected(code: Code, s: Turn, r: Turn, hh: real) {
    Comparable(code, s.m, r.m) && hh > TIMESTEP_MIN && r.h <= hh * BETA
  }

  lemma {:induction false} AdvanceTakesTheStep(code: Code, m: Snapshot, hh: real)
    requires CodeOk(code)
    ensures Advance(code, m, hh).world.time == m.world.time + hh
  {
  }

  lemma {:induction false} AcceptedTurn(code: Code, c: Control, s: Turn, tEnd: real, hh: real, err: real)
    requires CodeOk(code) && ControlOk(code, c) && s.h > 0.0 && Goes(s.m.world.time, tEnd)
    requires hh == Tried(s, tEnd) && err == ErrorOf(code, c, s.m, hh) && Accepts(code, c, s, tEnd)
    ensures Accepted(code, s, Attempted(code, c, s, tEnd), tEnd, hh) && Attempted(code, c, s, tEnd).h > 0.0
  {
    GoesBelowEnd(s.m.world.time, tEnd);
    assert c.root(err) > 0.0;
    FactorBounds(c, err);
    Shrinks(hh, Factor(c, err), SCALE_MAX);
    AdvanceTakesTheStep(code, s.m, hh);
  }

  lemma {:induction false} RejectedIs(
      code: Code, c: Control, s: Turn, tEnd: real, hh: real, err: real, r: Turn)
    requires CodeOk(code) && ControlOk(code, c) && r == Attempted(code, c, s, tEnd)
    requires hh == Tried(s, tEnd) && err == ErrorOf(code, c, s.m, hh) && !Accepts(code, c, s, tEnd)
    ensures r.m == Restored(Kernel(code, s.m, hh), s.m) && r.h == Resized(c, hh, err)
  {
  }

  lemma {:induction false} RejectedSize(c: Control, hh: real, err: real, fac: real, size: real, bound: real)
    requires hh > 0.0 && c.root(err) >= 1.0 && fac == Factor(c, err) && size == hh * fac && bound == hh * BETA
    ensures 0.0 < size <= bound
  {
    FactorBounds(c, err);
    Shrinks(hh, fac, BETA);
    assert size <= hh * BETA;
  }

  lemma {:induction false} RejectedTurn(code: Code, c: Control, s: Turn, tEnd: real, hh: real, err: real)
    requires CodeOk(code) && ControlOk(code, c) && s.h > 0.0 && Goes(s.m.world.time, tEnd)
    requires hh == Tried(s, tEnd) && err == ErrorOf(code, c, s.m, hh) && !Accepts(code, c, s, tEnd)
    ensures Rejected(code, s, Attempted(code, c, s, tEnd), hh) && Attempted(code, c, s, tEnd).h > 0.0
  {
    GoesBelowEnd(s.m.world.time, tEnd);
    assert !Stands(err, hh) && c.root(err) >= 1.0;
    RejectedIs(code, c, s, tEnd, hh, err, Attempted(code, c, s, tEnd));
    RejectedSize(c, hh, err, Factor(c, err), Resized(c, hh, err), hh * BETA);
    TrialKeepsTheRest(code, s.m, hh);
  }

  /** A turn is all or nothing. An accepted trial is one advance by the tried step, which never passes the end and
      reaches it exactly when the step was cut; a rejected one leaves the instance as it was but for the signals,
      which the next trial overwrites, and the next step is smaller by a tenth at least. */
  lemma {:induction false} TurnIsAllOrNothing(code: Code, c: Control, s: Turn, tEnd: real)
    requires CodeOk(code) && ControlOk(code, c) && s.h > 0.0 && Goes(s.m.world.time, tEnd)
    ensures var r, hh := Attempted(code, c, s, tEnd), Tried(s, tEnd);
            && r.h > 0.0 && 0.0 < hh <= s.h
            && if Accepts(code, c, s, tEnd) then Accepted(code, s, r, tEnd, hh) else Rejected(code, s, r, hh)
  {
    GoesBelowEnd(s.m.world.time, tEnd);
    var hh := Tried(s, tEnd);
    if Accepts(code, c, s, tEnd) {
      AcceptedTurn(code, c, s, tEnd, hh, ErrorOf(code, c, s.m, hh));
    } else {
      RejectedTurn(code, c, s, tEnd, hh, ErrorOf(code, c, s.m, hh));
    }
  }

  lemma {:induction false} TrialKeepsTheRest(code: Code, m: Snapshot, hh: real)
    requires CodeOk(code)
    ensures Comparable(code, m, Restored(Kernel(code, m, hh), m))
  {
  }

  /** The retry behaves as a first attempt with the smaller step would. */
  lemma {:induction false} RetryIsAFirstAttempt(code: Code, c: Control, s: Turn, tEnd: real, h: real)
    requires CodeOk(code) && ControlOk(code, c) && s.h > 0.0 && Goes(s.m.world.time, tEnd)
    requires !Accepts(code, c, s, tEnd)
    ensures Kernel(code, Attempted(code, c, s, tEnd).m, h) == Kernel(code, s.m, h)
  {
    TurnIsAllOrNothing(code, c, s, tEnd);
    KernelIgnoresSignals(code, s.m, Attempted(code, c, s, tEnd).m, h);
  }

  // ---------------------------------------------------------------------------------------
  // The whole loop
  // ---------------------------------------------------------------------------------------

  ghost function Turns(code: Code, c: Control, s: Turn, tEnd: real, n: nat): Turn
    requires CodeOk(code) && ControlOk(code, c)
  {
    if n == 0 then s else Attempted(code, c, Turns(code, c, s, tEnd, n - 1), tEnd)
  }

  ghost predicate GoesOn(code: Code, c: Control, s: Turn, tEnd: real, n: nat)
    requires CodeOk(code) && ControlOk(code, c)
  {
    forall k: nat {:trigger Turns(code, c, s, tEnd, k)} | k < n :: Goes(Turns(code, c, s, tEnd, k).m.world.time, tEnd)
  }

  /** The loop turns exactly `n` times. */
  ghost predicate TakesTurns(code: Code, c: Control, s: Turn, tEnd: real, n: nat)
    requires CodeOk(code) && ControlOk(code, c)
  {
    GoesOn(code, c, s, tEnd, n) && !Goes(Turns(code, c, s, tEnd, n).m.world.time, tEnd)
  }

  /** One pass of kernel and events for each of the given steps. */
  ghost function AdvanceBy(code: Code, m: Snapshot, hs: seq<real>): Snapshot
    requires CodeOk(code)
  {
    if hs == [] then m else Advance(code, AdvanceBy(code, m, hs[..|hs| - 1]), hs[|hs| - 1])
  }

  function SumOf(hs: seq<real>): real {
    if hs == [] then 0.0 else SumOf(hs[..|hs| - 1]) + hs[|hs| - 1]
  }

  ghost predicate Positive(hs: seq<real>) {
    forall i | 0 <= i < |hs| :: hs[i] > 0.0
  }

  lemma {:induction false} OneMoreAdvance(code: Code, m: Snapshot, hs: seq<real>, h: real)
    requires CodeOk(code) && Positive(hs) && h > 0.0
    ensures Positive(hs + [h]) && SumOf(hs + [h]) == SumOf(hs) + h
    ensures AdvanceBy(code, m, hs + [h]) == Advance(code, AdvanceBy(code, m, hs), h)
  {
    assert (hs + [h])[..|hs|] == hs;
  }

  /** However trials are rejected on the way, the loop has done its accepted steps and nothing else: up to signals,
      which are refreshed before they are used, the instance is where the kernel takes it over those steps alone,
      their sum has passed, and the end is not. */
  lemma {:induction false} LoopIsItsAcceptedSteps(code: Code, c: Control, s: Turn, tEnd: real, n: nat)
    returns (hs: seq<real>)
    requires CodeOk(code) && ControlOk(code, c) && s.h > 0.0 && GoesOn(code, c, s, tEnd, n)
    ensures |hs| <= n && Positive(hs) && Turns(code, c, s, tEnd, n).h > 0.0
    ensures Comparable(code, AdvanceBy(code, s.m, hs), Turns(code, c, s, tEnd, n).m)
    ensures Turns(code, c, s, tEnd, n).m.world.time == s.m.world.time + SumOf(hs)
    ensures n > 0 ==> Turns(code, c, s, tEnd, n).m.world.time <= tEnd
    decreases n
  {
    if n == 0 {
      hs := [];
    } else {
      hs := LoopIsItsAcceptedSteps(code, c, s, tEnd, n - 1);
      var before := Turns(code, c, s, tEnd, n - 1);
      assert Goes(before.m.world.time, tEnd);
      TurnIsAllOrNothing(code, c, before, tEnd);
      GoesBelowEnd(before.m.world.time, tEnd);
      if Accepts(code, c, before, tEnd) {
        var hh := Tried(before, tEnd);
        AdvanceIgnoresSignals(code, AdvanceBy(code, s.m, hs), before.m, hh);
        OneMoreAdvance(code, s.m, hs, hh);
        hs := hs + [hh];
      }
    }
  }

  /** A loop that ends stops at its end or within its allowance before it. */
  lemma {:induction false} LoopLands(code: Code, c: Control, s: Turn, tEnd: real, n: nat)
    requires CodeOk(code) && ControlOk(code, c) && s.h > 0.0 && TakesTurns(code, c, s, tEnd, n)
    ensures var t := Turns(code, c, s, tEnd, n).m.world.time;
            tEnd - TOLERANCE * Abs(tEnd) - TIMESTEP_MIN <= t && (s.m.world.time <= tEnd ==> t <= tEnd)
  {
    var hs := LoopIsItsAcceptedSteps(code, c, s, tEnd, n);
  }

  // ---------------------------------------------------------------------------------------
  // Streaks of rejected trials
  // ---------------------------------------------------------------------------------------

  ghost predicate AllRejected(code: Code, c: Control, s: Turn, tEnd: real, n: nat)
    requires CodeOk(code) && ControlOk(code, c)
  {
    forall k: nat {:trigger Turns(code, c, s, tEnd, k)} | k < n :: !Accepts(code, c, Turns(code, c, s, tEnd, k), tEnd)
  }

  /** A step cut by a tenth `k` times over. */
  function Shrunk(h: real, k: nat): real {
    if k == 0 then h else Shrunk(h, k - 1) * BETA
  }

  lemma {:induction false} ShrunkIsSmall(h: real, k: nat)
    requires h > 0.0
    ensures 0.0 < Shrunk(h, k) && Shrunk(h, k) * (9 + k) as real <= 9.0 * h
    decreases k
  {
    if k > 0 {
      ShrunkIsSmall(h, k - 1);
      var a, r := Shrunk(h, k - 1), (8 + k) as real;
      assert a * r <= 9.0 * h;
      assert (9 + k) as real == r + 1.0;
      TenthLess(a, r);
    }
  }

  lemma {:induction false} TenthLess(a: real, r: real)
    requires a > 0.0 && r >= 9.0
    ensures a * BETA * (r + 1.0) <= a * r
  {
    var d := r - BETA * (r + 1.0);
    assert a * d >= 0.0;
    assert a * d == a * r - a * BETA * (r + 1.0);
  }

  /** Trials rejected in a row leave the instance as it was and shrink the step geometrically ... */
  lemma {:induction false} StreakShrinks(code: Code, c: Control, s: Turn, tEnd: real, n: nat)
    requires CodeOk(code) && ControlOk(code, c) && s.h > 0.0
    requires GoesOn(code, c, s, tEnd, n) && AllRejected(code, c, s, tEnd, n)
    ensures Comparable(code, s.m, Turns(code, c, s, tEnd, n).m)
    ensures 0.0 < Turns(code, c, s, tEnd, n).h <= Shrunk(s.h, n)
    ensures n > 0 ==> Shrunk(s.h, n - 1) > TIMESTEP_MIN
    decreases n
  {
    if n > 0 {
      StreakShrinks(code, c, s, tEnd, n - 1);
      var before := Turns(code, c, s, tEnd, n - 1);
      assert Goes(before.m.world.time, tEnd) && !Accepts(code, c, before, tEnd);
      TurnIsAllOrNothing(code, c, before, tEnd);
      Reduces(Tried(before, tEnd), Shrunk(s.h, n - 1));
    }
  }

  lemma {:induction false} Reduces(a: real, b: real)
    requires a <= b
    ensures a * BETA <= b * BETA
  {
  }

  /** ... so no streak is longer than the first step allows. */
  lemma {:induction false} StreaksAreFinite(code: Code, c: Control, s: Turn, tEnd: real, n: nat)
    requires CodeOk(code) && ControlOk(code, c) && s.h > 0.0 && n > 0
    requires GoesOn(code, c, s, tEnd, n) && AllRejected(code, c, s, tEnd, n)
    ensures TIMESTEP_MIN * (8 + n) as real < 9.0 * s.h
  {
    StreakShrinks(code, c, s, tEnd, n);
    ShrunkIsSmall(s.h, n - 1);
    var a, r := Shrunk(s.h, n - 1), (8 + n) as real;
    MoreThanTheLeast(a, r);
  }

  lemma {:induction false} MoreThanTheLeast(a: real, r: real)
    requires a > TIMESTEP_MIN && r > 0.0
    ensures TIMESTEP_MIN * r < a * r
  {
    assert (a - TIMESTEP_MIN) * r > 0.0;
  }

  // ---------------------------------------------------------------------------------------
  // The emitted routines
  // ---------------------------------------------------------------------------------------

  /** The error norm, element by element. */
  method ErrorNorm(c: Control, x: Row, ks: seq<Row>, dt: real) returns (err: real)
    requires c.atol > 0.0 && c.rtol >= 0.0 && |ks| <= |c.tr| && Slopes(ks, |x|)
    ensures err == ErrorTo(c, x, ks, dt, |x|)
  {
    err := TOLERANCE;
    for i := 0 to |x|
      invariant err == ErrorTo(c, x, ks, dt, i)
    {
      var e := 0.0;
      for s := 0 to |ks|
        invariant e == WeightedSlope(c.tr, ks, s, i)
      {
        e := Accumulated(e, c.tr[s], ks[s][i]);
      }
      var se := Scaled(c, x[i], dt, e);
      if se > err {
        err := se;
      }
    }
  }

  /** `fs_trial_step` */
  method TrialStep(m: Instance, c: Control, dt: real) returns (err: real)
    requires CodeOk(m.code) && ControlOk(m.code, c)
    modifies m
    ensures m.State() == Kernel(m.code, old(m.State()), dt)
    ensures err == ErrorOf(m.code, c, old(m.State()), dt)
  {
    var ks := m.StageLoop(dt);
    err := ErrorNorm(c, m.x, ks, dt);
  }

  /** What a turn leaves, from the step it tried and the error it found. */
  lemma {:induction false} AttemptIs(code: Code, c: Control, s: Turn, tEnd: real, hh: real, err: real, r: Turn)
    requires CodeOk(code) && ControlOk(code, c) && hh == Tried(s, tEnd) && err == ErrorOf(code, c, s.m, hh)
    requires r.m == if Stands(err, hh) then Advance(code, s.m, hh) else Restored(Kernel(code, s.m, hh), s.m)
    requires r.h == if Stands(err, hh) && Clamped(s, tEnd) then s.h else Resized(c, hh, err)
    ensures r == Attempted(code, c, s, tEnd)
  {
    assert Accepts(code, c, s, tEnd) == Stands(err, hh);
  }

  /** One pass of the accept/reject loop. */
  method TakeTurn(m: Instance, c: Control, h: real, tEnd: real) returns (next: real)
    requires CodeOk(m.code) && ControlOk(m.code, c)
    modifies m
    ensures Turn(m.State(), next) == Attempted(m.code, c, Turn(old(m.State()), h), tEnd)
  {
    ghost var s := Turn(m.State(), h);
    var clamped, hh := false, h;
    if m.time + hh >= tEnd {
      hh, clamped := tEnd - m.time, true;
    }
    assert hh == Tried(s, tEnd) && clamped == Clamped(s, tEnd);
    var x0, t0 := m.x, m.time;
    var err := TrialStep(m, c, hh);
    next := h;
    if Stands(err, hh) {
      if m.code.hasEvents {
        m.HandleAll(hh);
      }
      if !clamped {
        next := Resized(c, hh, err);
      }
    } else {
      m.Restore(x0, t0);
      next := Resized(c, hh, err);
    }
    AttemptIs(m.code, c, s, tEnd, hh, err, Turn(m.State(), next));
  }

  /** `<name>_run`; `carried` is the step size kept from an earlier run, 0 if there was none. The loop need not end,
      so its caller says after how many turns it does. */
  method Run(m: Instance, c: Control, carried: real, tEnd: real, dt: real, ghost n: nat) returns (kept: real)
    requires CodeOk(m.code) && ControlOk(m.code, c)
    requires var start := Turn(Started(m.code, m.State(), dt), if carried > 0.0 then carried else dt);
             TakesTurns(m.code, c, start, tEnd, n)
    modifies m
    ensures var start := Turn(Started(m.code, old(m.State()), dt), if carried > 0.0 then carried else dt);
            var end := Turns(m.code, c, start, tEnd, n);
            m.State() == Refresh(m.code, end.m) && kept == end.h
  {
    if m.code.hasEvents {
      m.HandleAll(dt);
      m.started := true;
    }
    kept := dt;
    if carried > 0.0 {
      kept := carried;
    }
    kept := Loop(m, c, kept, tEnd, n);
    if m.code.hasSig {
      m.Outputs();
    }
  }

  lemma {:induction false} TurnsGo(code: Code, c: Control, s: Turn, tEnd: real, n: nat, k: nat, now: Turn)
    requires CodeOk(code) && ControlOk(code, c) && TakesTurns(code, c, s, tEnd, n)
    requires k <= n && now == Turns(code, c, s, tEnd, k)
    ensures k < n <==> Goes(now.m.world.time, tEnd)
  {
  }

  /** The accept/reject loop. */
  method Loop(m: Instance, c: Control, h: real, tEnd: real, ghost n: nat) returns (next: real)
    requires CodeOk(m.code) && ControlOk(m.code, c) && TakesTurns(m.code, c, Turn(m.State(), h), tEnd, n)
    modifies m
    ensures Turn(m.State(), next) == Turns(m.code, c, Turn(old(m.State()), h), tEnd, n)
  {
    ghost var start := Turn(m.State(), h);
    next := h;
    ghost var k: nat := 0;
    TurnsGo(m.code, c, start, tEnd, n, k, start);
    while Goes(m.time, tEnd)
      invariant k <= n && Turn(m.State(), next) == Turns(m.code, c, start, tEnd, k)
      invariant k < n <==> Goes(m.time, tEnd)
      decreases n - k
    {
      next := TakeTurn(m, c, next, tEnd);
      k := k + 1;
      TurnsGo(m.code, c, start, tEnd, n, k, Turn(m.State(), next));
    }
  }
}

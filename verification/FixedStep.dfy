/** The emitted fixed-step integrator: the Butcher stage kernel, explicit or with a stage solve, `<name>_step` and
    `<name>_run` (`emit_fixed`, `stage_loop` and `stage_loop_implicit` in `src/codegen/solver.rs`,
    `src/codegen/templates/model_struct.c.jinja`), and why N single steps equal one run. */
module FixedStep {
  import opened Wrappers
  import opened Ir
  import opened LuSolve
  import opened StepModel
  import opened ImplicitStage
  import opened StepCount

  // ---------------------------------------------------------------------------------------
  // What each routine does to an instance
  // ---------------------------------------------------------------------------------------

  function StageTime(t0: real, c: real, dt: real): real { t0 + c * dt }

  function Accumulated(acc: real, a: real, k: real): real { acc + a * k }

  function NewState(x0: real, dt: real, acc: real): real { x0 + dt * acc }

  /** `acc` after the first `n` stages. */
  function WeightedSlope(row: seq<real>, ks: seq<Row>, n: nat, i: nat): real
    requires n <= |row| && n <= |ks| && forall j | 0 <= j < n :: i < |ks[j]|
  {
    if n == 0 then 0.0 else Accumulated(WeightedSlope(row, ks, n - 1, i), row[n - 1], ks[n - 1][i])
  }

  ghost predicate Slopes(ks: seq<Row>, n: nat) {
    forall j {:trigger ks[j]} | 0 <= j < |ks| :: |ks[j]| == n
  }

  /** The states after the slopes so far, weighted by one row of the tableau. */
  function Combined(row: Row, x0: Row, dt: real, ks: seq<Row>): (x: Row)
    requires |ks| <= |row| && Slopes(ks, |x0|)
    ensures |x| == |x0|
    ensures forall i | 0 <= i < |x0| :: x[i] == NewState(x0[i], dt, WeightedSlope(row, ks, |ks|, i))
  {
    seq(|x0|, i requires 0 <= i < |x0| => NewState(x0[i], dt, WeightedSlope(row, ks, |ks|, i)))
  }

  /** The step of the stage solve: `dt` times the diagonal coefficient. */
  function Diagonal(t: Tableau, dt: real, s: nat): real
    requires s < |t.a| && s < |t.a[s]|
  {
    dt * t.a[s][s]
  }

  /** The slope of stage `s`, and the instance that finding it leaves. An explicit stage takes the derivative where it
      is, an implicit one solves for it. */
  ghost function StageSlope(code: Code, m: Snapshot, x0: Row, dt: real, ks: seq<Row>, s: nat): (r: Newton)
    requires CodeOk(code) && s < |code.tableau.a| && |ks| == s && Slopes(ks, |x0|) && |x0| == |m.world.x|
    ensures |r.k| == |x0| && OnlyMoved(code, m, r.m)
  {
    var t := code.tableau;
    assert |t.a[s]| == |t.a|;
    if t.implicit then Solved(code, m, Combined(t.a[s], x0, dt, ks), Diagonal(t, dt, s), t.a[s][s] == 0.0)
    else
      var here := Derived(code, m);
      Newton(here.m, here.slope, Within)
  }

  /** The instance and the slopes after the first `s` stages of a step from `m`. */
  ghost function StagesTo(code: Code, m: Snapshot, dt: real, s: nat): (r: (Snapshot, seq<Row>))
    requires CodeOk(code) && s <= |code.tableau.a|
    ensures |r.1| == s && Slopes(r.1, |m.world.x|) && |r.0.world.x| == |m.world.x|
    ensures r.0.world.p == m.world.p && r.0.world.u == m.world.u && r.0.world.mem == m.world.mem
    ensures r.0.counters == m.counters && r.0.started == m.started && (!code.hasSig ==> r.0.sig == m.sig)
  {
    if s == 0 then (m, [])
    else
      var (before, ks) := StagesTo(code, m, dt, s - 1);
      var solved := StageSlope(code, AtStage(code, before, m.world.time, dt, s - 1), m.world.x, dt, ks, s - 1);
      var all := ks + [solved.k];
      assert |code.tableau.a[s - 1]| == |code.tableau.a|;
      (Placed(solved.m, Combined(code.tableau.a[s - 1], m.world.x, dt, all)), all)
  }

  /** The clock at stage `s` of a step from `t0`. */
  function AtStage(code: Code, m: Snapshot, t0: real, dt: real, s: nat): Snapshot
    requires s < |code.tableau.c|
  {
    m.(world := m.world.(time := StageTime(t0, code.tableau.c[s], dt)))
  }

  ghost function Kernel(code: Code, m: Snapshot, dt: real): Snapshot
    requires CodeOk(code)
  {
    var after := StagesTo(code, m, dt, |code.tableau.a|).0;
    after.(world := after.world.(time := m.world.time + dt))
  }

  function HandleEvents(code: Code, m: Snapshot, dt: real): Snapshot {
    var refreshed := if code.needSig then Refresh(code, m) else m;
    var h := code.events(refreshed.world, refreshed.sig, refreshed.counters, dt);
    Snapshot(refreshed.world.(x := h.x, mem := h.mem), refreshed.sig, h.counters, refreshed.started)
  }

  /** Events at the current time, if the model has any. */
  function Events(code: Code, m: Snapshot, dt: real): Snapshot {
    if code.hasEvents then HandleEvents(code, m, dt) else m
  }

  /** The initial events, once. */
  function Started(code: Code, m: Snapshot, dt: real): Snapshot {
    if code.hasEvents then HandleEvents(code, m, dt).(started := true) else m
  }

  function Begun(code: Code, m: Snapshot, dt: real): Snapshot {
    if m.started then m else Started(code, m, dt)
  }

  ghost function Advance(code: Code, m: Snapshot, dt: real): Snapshot
    requires CodeOk(code)
  {
    Events(code, Kernel(code, m, dt), dt)
  }

  ghost function StepOf(code: Code, m: Snapshot, dt: real): Snapshot
    requires CodeOk(code)
  {
    Refresh(code, Advance(code, Begun(code, m, dt), dt))
  }

  ghost function AdvanceN(code: Code, m: Snapshot, dt: real, n: nat): Snapshot
    requires CodeOk(code)
  {
    if n == 0 then m else Advance(code, AdvanceN(code, m, dt, n - 1), dt)
  }

  ghost function StepN(code: Code, m: Snapshot, dt: real, n: nat): Snapshot
    requires CodeOk(code)
  {
    if n == 0 then m else StepOf(code, StepN(code, m, dt, n - 1), dt)
  }

  /** A run whose loop body is executed `n` times. */
  ghost function RunOf(code: Code, m: Snapshot, dt: real, n: nat): Snapshot
    requires CodeOk(code)
  {
    Refresh(code, AdvanceN(code, Started(code, m, dt), dt, n))
  }

  // ---------------------------------------------------------------------------------------
  // Signals do not matter
  // ---------------------------------------------------------------------------------------

  lemma {:induction false} StageIgnoresSignals(
      code: Code, m1: Snapshot, m2: Snapshot, x0: Row, dt: real, ks: seq<Row>, s: nat)
    requires CodeOk(code) && s < |code.tableau.a| && |ks| == s && Slopes(ks, |x0|) && |x0| == |m1.world.x|
    requires Comparable(code, m1, m2)
    ensures StageSlope(code, m1, x0, dt, ks, s) == StageSlope(code, m2, x0, dt, ks, s)
  {
    var t := code.tableau;
    assert |t.a[s]| == |t.a|;
    if t.implicit {
      SolvedIgnoresSignals(
        code, m1, m2, Combined(t.a[s], x0, dt, ks), Diagonal(t, dt, s), t.a[s][s] == 0.0);
    } else {
      DerivedIgnoresSignals(code, m1, m2);
    }
  }

  lemma {:induction false} StagesIgnoreSignals(code: Code, m1: Snapshot, m2: Snapshot, dt: real, s: nat)
    requires CodeOk(code) && Comparable(code, m1, m2) && s <= |code.tableau.a|
    ensures Comparable(code, StagesTo(code, m1, dt, s).0, StagesTo(code, m2, dt, s).0)
    ensures StagesTo(code, m1, dt, s).1 == StagesTo(code, m2, dt, s).1
    ensures s > 0 ==> StagesTo(code, m1, dt, s).0 == StagesTo(code, m2, dt, s).0
    decreases s
  {
    if s > 0 {
      StagesIgnoreSignals(code, m1, m2, dt, s - 1);
      var (b1, ks) := StagesTo(code, m1, dt, s - 1);
      var (b2, _) := StagesTo(code, m2, dt, s - 1);
      var t0, c := m1.world.time, s - 1;
      StageIgnoresSignals(code, AtStage(code, b1, t0, dt, c), AtStage(code, b2, t0, dt, c), m1.world.x, dt, ks, c);
    }
  }

  /** The kernel overwrites the signals before it uses them. */
  lemma {:induction false} KernelIgnoresSignals(code: Code, m1: Snapshot, m2: Snapshot, dt: real)
    requires CodeOk(code) && Comparable(code, m1, m2)
    ensures Kernel(code, m1, dt) == Kernel(code, m2, dt)
  {
    StagesIgnoreSignals(code, m1, m2, dt, |code.tableau.a|);
  }

  lemma {:induction false} AdvanceIgnoresSignals(code: Code, m1: Snapshot, m2: Snapshot, dt: real)
    requires CodeOk(code) && Comparable(code, m1, m2)
    ensures Advance(code, m1, dt) == Advance(code, m2, dt)
  {
    KernelIgnoresSignals(code, m1, m2, dt);
  }

  lemma {:induction false} AdvanceKeepsStarted(code: Code, m: Snapshot, dt: real, n: nat)
    requires CodeOk(code)
    ensures AdvanceN(code, m, dt, n).started == m.started
    decreases n
  {
    if n > 0 { AdvanceKeepsStarted(code, m, dt, n - 1); }
  }

  /** A single step after an output refresh is one pass of the run's loop. */
  lemma {:induction false} StepForgetsRefresh(code: Code, a: Snapshot, dt: real)
    requires CodeOk(code) && (code.hasEvents ==> a.started)
    ensures StepOf(code, Refresh(code, a), dt) == Refresh(code, Advance(code, a, dt))
  {
    var before := Refresh(code, a);
    assert Begun(code, before, dt) == before;
    AdvanceIgnoresSignals(code, before, a, dt);
  }

  lemma {:induction false} FirstStepIsAnAdvance(code: Code, m: Snapshot, dt: real)
    requires CodeOk(code) && !m.started
    ensures StepN(code, m, dt, 1) == Refresh(code, AdvanceN(code, Started(code, m, dt), dt, 1))
  {
    var s := Started(code, m, dt);
    assert StepN(code, m, dt, 0) == m && AdvanceN(code, s, dt, 0) == s && Begun(code, m, dt) == s;
    assert StepN(code, m, dt, 1) == StepOf(code, m, dt) && AdvanceN(code, s, dt, 1) == Advance(code, s, dt);
  }

  lemma {:induction false} OneMoreStep(code: Code, m: Snapshot, dt: real, s: Snapshot, a: Snapshot, n: nat)
    requires CodeOk(code) && n > 0 && a == AdvanceN(code, s, dt, n - 1) && (code.hasEvents ==> a.started)
    requires StepN(code, m, dt, n - 1) == Refresh(code, a)
    ensures StepN(code, m, dt, n) == Refresh(code, AdvanceN(code, s, dt, n))
  {
    StepForgetsRefresh(code, a, dt);
    assert StepN(code, m, dt, n) == StepOf(code, Refresh(code, a), dt);
    assert AdvanceN(code, s, dt, n) == Advance(code, a, dt);
  }

  lemma {:induction false} StepsFollow(code: Code, m: Snapshot, dt: real, s: Snapshot, n: nat)
    requires CodeOk(code) && n >= 1 && (code.hasEvents ==> s.started)
    requires StepN(code, m, dt, 1) == Refresh(code, AdvanceN(code, s, dt, 1))
    ensures StepN(code, m, dt, n) == Refresh(code, AdvanceN(code, s, dt, n))
    decreases n
  {
    if n > 1 {
      var k := n - 1;
      StepsFollow(code, m, dt, s, k);
      AdvanceKeepsStarted(code, s, dt, k);
      OneMoreStep(code, m, dt, s, AdvanceN(code, s, dt, k), n);
    }
  }

  /** After the first step, each single step is one pass of the run's loop with an output refresh at
      the end, and the refresh is forgotten by the next step. */
  lemma {:induction false} StepsAreAdvances(code: Code, m: Snapshot, dt: real, n: nat)
    requires CodeOk(code) && n >= 1 && !m.started
    ensures StepN(code, m, dt, n) == Refresh(code, AdvanceN(code, Started(code, m, dt), dt, n))
  {
    FirstStepIsAnAdvance(code, m, dt);
    StepsFollow(code, m, dt, Started(code, m, dt), n);
  }

  // ---------------------------------------------------------------------------------------
  // What an implicit stage has solved
  // ---------------------------------------------------------------------------------------

  lemma {:induction false} SlopesBefore(row: Row, ks: seq<Row>, k: Row, n: nat, i: nat)
    requires n <= |ks| <= |row| && i < |k| && Slopes(ks, |k|)
    ensures WeightedSlope(row, ks + [k], n, i) == WeightedSlope(row, ks, n, i)
    decreases n
  {
    if n > 0 { SlopesBefore(row, ks, k, n - 1, i); }
  }

  lemma {:induction false} ShiftedState(x0: real, dt: real, acc: real, a: real, k: real, h: real)
    requires h == dt * a
    ensures NewState(x0, dt, Accumulated(acc, a, k)) == Shifted(NewState(x0, dt, acc), h, k)
  {
    assert dt * (acc + a * k) == dt * acc + dt * a * k;
  }

  /** The states that a stage leaves are the point at which its slope was tried. */
  lemma {:induction false} StageLeavesItsPoint(row: Row, x0: Row, dt: real, ks: seq<Row>, k: Row, h: real)
    requires |ks| < |row| && Slopes(ks, |x0|) && |k| == |x0| && h == dt * row[|ks|]
    ensures Combined(row, x0, dt, ks + [k]) == Point(Combined(row, x0, dt, ks), h, k)
  {
    var s := |ks|;
    forall i | 0 <= i < |x0|
      ensures Combined(row, x0, dt, ks + [k])[i] == Point(Combined(row, x0, dt, ks), h, k)[i]
    {
      SlopesBefore(row, ks, k, s, i);
      assert WeightedSlope(row, ks + [k], s + 1, i) == Accumulated(WeightedSlope(row, ks, s, i), row[s], k[i]);
      ShiftedState(x0[i], dt, WeightedSlope(row, ks, s, i), row[s], k[i], h);
    }
  }

  /** How stage `s` of a step ended. */
  ghost function StageEnd(code: Code, m: Snapshot, dt: real, s: nat): End
    requires CodeOk(code) && s < |code.tableau.a|
  {
    var (before, ks) := StagesTo(code, m, dt, s);
    StageSlope(code, AtStage(code, before, m.world.time, dt, s), m.world.x, dt, ks, s).end
  }

  /** The slope is the derivative at a point, to a tolerance. */
  ghost predicate Matches(code: Code, m: Snapshot, x: Row, k: Row, tol: real)
    requires CodeOk(code) && |x| == |k|
  {
    forall i | 0 <= i < |k| :: RealAbs(k[i] - Derived(code, Placed(m, x)).slope[i]) <= tol
  }

  function StageTolerance(code: Code, coefficient: real): real {
    if coefficient == 0.0 then 0.0 else NewtonTolerance(code.atol)
  }

  lemma {:induction false} SolvedMatches(code: Code, m: Snapshot, base: Row, h: real, a: real)
    requires CodeOk(code) && |base| == |m.world.x| && (a == 0.0 ==> h == 0.0)
    requires Solved(code, m, base, h, a == 0.0).end.Within?
    ensures var k := Solved(code, m, base, h, a == 0.0).k;
            Matches(code, m, Point(base, h, k), k, StageTolerance(code, a))
  {
    var k := Solved(code, m, base, h, a == 0.0).k;
    if a == 0.0 {
      assert Point(base, h, k) == base;
    } else {
      StageIsSolved(code, m, base, h);
    }
  }

  /** An implicit stage that ended within the tolerance has a slope that is the derivative, at the time and in the
      states the stage leaves, to that tolerance; one without a diagonal coefficient has it exactly. */
  lemma {:induction false} StageHolds(code: Code, m: Snapshot, dt: real, s: nat)
    requires CodeOk(code) && code.tableau.implicit && s < |code.tableau.a| && StageEnd(code, m, dt, s).Within?
    ensures var (after, ks) := StagesTo(code, m, dt, s + 1);
            && after.world.time == m.world.time + code.tableau.c[s] * dt
            && Matches(code, after, after.world.x, ks[s], StageTolerance(code, code.tableau.a[s][s]))
  {
    var (before, ks) := StagesTo(code, m, dt, s);
    var (after, all) := StagesTo(code, m, dt, s + 1);
    var at := AtStage(code, before, m.world.time, dt, s);
    var row, x0 := code.tableau.a[s], m.world.x;
    assert |row| == |code.tableau.a|;
    var base, h := Combined(row, x0, dt, ks), Diagonal(code.tableau, dt, s);
    var r := Solved(code, at, base, h, row[s] == 0.0);
    assert all == ks + [r.k] && after == Placed(r.m, Combined(row, x0, dt, all));
    StageLeavesItsPoint(row, x0, dt, ks, r.k, h);
    SolvedMatches(code, at, base, h, row[s]);
    DerivedOfMoved(code, at, after, after.world.x);
  }

  // ---------------------------------------------------------------------------------------
  // Steps and runs
  // ---------------------------------------------------------------------------------------

  lemma {:induction false} AdvanceTime(code: Code, m: Snapshot, dt: real, n: nat)
    requires CodeOk(code) && dt > 0.0
    ensures AdvanceN(code, m, dt, n).world.time == TimeAfter(m.world.time, dt, n)
    decreases n
  {
    if n > 0 {
      AdvanceTime(code, m, dt, n - 1);
      TimeGrows(m.world.time, dt, n - 1, n);
      var before := AdvanceN(code, m, dt, n - 1);
      assert AdvanceN(code, m, dt, n) == Advance(code, before, dt);
      assert Kernel(code, before, dt).world.time == before.world.time + dt;
    }
  }

  /** N calls of `<name>_step(dt)` on a fresh instance leave it exactly as one call of
      `<name>_run(t0 + N dt, dt)`, whose loop turns exactly N times. */
  lemma {:induction false} StepsEqualRun(code: Code, m: Snapshot, dt: real, n: nat)
    requires CodeOk(code) && dt > 0.0 && n >= 1 && !m.started
    ensures LoopCount(m.world.time, TimeAfter(m.world.time, dt, n), dt, n)
    ensures StepN(code, m, dt, n) == RunOf(code, m, dt, n)
  {
    WholeStepsCount(m.world.time, dt, n);
    StepsAreAdvances(code, m, dt, n);
  }

  // ---------------------------------------------------------------------------------------
  // The emitted routines
  // ---------------------------------------------------------------------------------------

  class Instance {
    const code: Code
    var time: real
    var x: seq<real>
    var sig: seq<real>
    var mem: seq<real>
    var p: seq<real>
    var u: seq<real>
    var counters: seq<int>
    var started: bool

    ghost function State(): Snapshot
      reads this
    {
      Snapshot(World(time, x, mem, p, u), sig, counters, started)
    }

    constructor (code: Code, m: Snapshot)
      ensures this.code == code && State() == m
    {
      this.code := code;
      time, x, mem, p, u := m.world.time, m.world.x, m.world.mem, m.world.p, m.world.u;
      sig, counters, started := m.sig, m.counters, m.started;
    }

    /** `<name>_outputs` */
    method Outputs()
      modifies this
      ensures State() == old(State()).(sig := code.outputs(old(State()).world))
    {
      sig := code.outputs(World(time, x, mem, p, u));
    }

    /** `<name>_deriv`: refreshes the signals first. */
    method Deriv() returns (dxdt: Row)
      modifies this
      ensures Evaluated(State(), dxdt) == Derived(code, old(State()))
    {
      if code.hasSig {
        Outputs();
      }
      dxdt := code.deriv(World(time, x, mem, p, u), sig);
    }

    /** The states of one stage, element by element. */
    static method Combine(row: Row, x0: Row, dt: real, ks: seq<Row>) returns (next: Row)
      requires |ks| <= |row| && Slopes(ks, |x0|)
      ensures next == Combined(row, x0, dt, ks)
    {
      next := [];
      for i := 0 to |x0|
        invariant |next| == i
        invariant forall q | 0 <= q < i :: next[q] == NewState(x0[q], dt, WeightedSlope(row, ks, |ks|, q))
      {
        var acc := 0.0;
        for j := 0 to |ks|
          invariant acc == WeightedSlope(row, ks, j, i)
        {
          acc := Accumulated(acc, row[j], ks[j][i]);
        }
        next := next + [NewState(x0[i], dt, acc)];
      }
    }

    /** The derivative at other states. */
    method DerivAt(z: Row) returns (dxdt: Row)
      modifies this
      ensures Evaluated(State(), dxdt) == Derived(code, Placed(old(State()), z))
    {
      x := z;
      dxdt := Deriv();
    }

    /** `fs_jacobian` */
    method Differentiate() returns (columns: Matrix)
      requires CodeOk(code)
      modifies this
      ensures Differenced(State(), columns) == Jacobian(code, old(State()))
    {
      var f0 := Deriv();
      ghost var m := State();
      columns := [];
      for j := 0 to |x|
        invariant Differenced(State(), columns) == ColumnsTo(code, m, f0, j)
      {
        var xs := x;
        var f1 := DerivAt(Nudged(xs, j));
        x := xs;
        columns := columns + [Differences(f1, f0, Width(xs[j]))];
      }
    }

    /** `I - h J` and the negative residual, handed to the dense solve. */
    static method SolveFor(p: Prims, h: real, columns: Matrix, r: Row) returns (d: Option<Row>)
      requires ExactField(p) && |columns| == |r| && forall j {:trigger columns[j]} | 0 <= j < |r| :: |columns[j]| == |r|
      ensures d == NewtonStep(p, h, columns, r)
    {
      var n := |r|;
      var amat := new real[n, n]((i: nat, j: nat) requires i < n && j < n => Entry(i, j, h, columns[j][i]));
      var b := new real[n](i requires 0 <= i < n => -r[i]);
      assert b[..] == Negated(r);
      assert Rows(amat) == NewtonMatrix(h, columns, n) by {
        forall i | 0 <= i < n ensures Rows(amat)[i] == NewtonRow(h, columns, n, i) {
        }
      }
      var singular := LuSolve.Solve(p, amat, b);
      d := if singular then None else Some(b[..]);
    }

    /** One pass of Newton's method. */
    method NewtonPass(base: Row, h: real, k: Row) returns (next: Row, end: End)
      requires CodeOk(code) && ExactField(code.prims) && |k| == |base| == |x|
      modifies this
      ensures Newton(State(), next, end) == Pass(code, base, h, Newton(old(State()), k, Going))
    {
      var fz := DerivAt(Point(base, h, k));
      var resid := Minus(k, fz);
      if Worst(resid, |resid|) <= NewtonTolerance(code.atol) {
        return k, Within;
      }
      var columns := Differentiate();
      var d := SolveFor(code.prims, h, columns, resid);
      if d.None? {
        return k, Singular;
      }
      return Plus(k, d.value), Going;
    }

    /** The slope of an implicit stage. */
    method SolveStage(base: Row, h: real, explicit: bool) returns (k: Row, ghost end: End)
      requires CodeOk(code) && ExactField(code.prims) && |base| == |x|
      modifies this
      ensures Newton(State(), k, end) == Solved(code, old(State()), base, h, explicit)
    {
      k := DerivAt(base);
      end := Within;
      if !explicit {
        ghost var s := Newton(State(), k, Going);
        k, end := Iterate(base, h, k, MAX_PASSES);
      }
    }

    /** Newton's method for the slope of a stage. */
    method Iterate(base: Row, h: real, k0: Row, limit: nat) returns (k: Row, end: End)
      requires CodeOk(code) && ExactField(code.prims) && |k0| == |base| == |x|
      modifies this
      ensures Newton(State(), k, end) == Passes(code, base, h, Newton(old(State()), k0, Going), limit)
    {
      ghost var s := Newton(State(), k0, Going);
      k, end := k0, Going;
      for it := 0 to limit
        invariant end.Going? && NewtonOk(code, base, Newton(State(), k, end))
        invariant Reached(code, base, h, s, it, Newton(State(), k, end))
      {
        ghost var before := Newton(State(), k, end);
        k, end := NewtonPass(base, h, k);
        ReachedNext(code, base, h, s, it, before, Newton(State(), k, end));
        if !end.Going? {
          ReachedEnd(code, base, h, s, it + 1, limit, Newton(State(), k, end));
          return;
        }
      }
    }

    /** The slope of stage `s`. */
    method FindSlope(x0: Row, dt: real, ks: seq<Row>, s: nat) returns (k: Row)
      requires CodeOk(code) && s < |code.tableau.a| && |ks| == s && Slopes(ks, |x0|) && |x0| == |x|
      modifies this
      ensures State() == StageSlope(code, old(State()), x0, dt, ks, s).m
      ensures k == StageSlope(code, old(State()), x0, dt, ks, s).k
    {
      assert |code.tableau.a[s]| == |code.tableau.a|;
      if code.tableau.implicit {
        var base := Combine(code.tableau.a[s], x0, dt, ks);
        ghost var end: End;
        k, end := SolveStage(base, Diagonal(code.tableau, dt, s), code.tableau.a[s][s] == 0.0);
      } else {
        k := Deriv();
      }
    }

    /** `fs_stages_step` */
    method StagesStep(dt: real)
      requires CodeOk(code)
      modifies this
      ensures State() == Kernel(code, old(State()), dt)
    {
      var ks := StageLoop(dt);
    }

    /** Puts a saved state and time back. */
    method Restore(x0: seq<real>, t0: real)
      modifies this
      ensures State() == old(State()).(world := old(State()).world.(x := x0, time := t0))
    {
      x, time := x0, t0;
    }

    /** One more stage. */
    method Stage(t0: real, x0: Row, dt: real, ks: seq<Row>, s: nat, ghost m: Snapshot) returns (all: seq<Row>)
      requires CodeOk(code) && s < |code.tableau.a| && t0 == m.world.time && x0 == m.world.x
      requires (State(), ks) == StagesTo(code, m, dt, s)
      modifies this
      ensures (State(), all) == StagesTo(code, m, dt, s + 1)
    {
      assert |code.tableau.a[s]| == |code.tableau.a|;
      ghost var before := State();
      time := StageTime(t0, code.tableau.c[s], dt);
      assert State() == AtStage(code, before, t0, dt, s);
      var k := FindSlope(x0, dt, ks, s);
      all := ks + [k];
      x := Combine(code.tableau.a[s], x0, dt, all);
    }

    /** The stages of one step, and their slopes. */
    method StageLoop(dt: real) returns (ks: seq<Row>)
      requires CodeOk(code)
      modifies this
      ensures State() == Kernel(code, old(State()), dt)
      ensures ks == StagesTo(code, old(State()), dt, |code.tableau.a|).1
    {
      ghost var m := State();
      var t0, x0 := time, x;
      ks := [];
      for s := 0 to |code.tableau.a|
        invariant (State(), ks) == StagesTo(code, m, dt, s)
      {
        ks := Stage(t0, x0, dt, ks, s, m);
      }
      time := t0 + dt;
    }

    /** `<name>_handle_events` */
    method HandleAll(dt: real)
      modifies this
      ensures State() == HandleEvents(code, old(State()), dt)
    {
      if code.needSig && code.hasSig {
        Outputs();
      }
      var h := code.events(World(time, x, mem, p, u), sig, counters, dt);
      x, mem, counters := h.x, h.mem, h.counters;
    }

    /** The stages, then the events. */
    method TakeStep(dt: real)
      requires CodeOk(code)
      modifies this
      ensures State() == Advance(code, old(State()), dt)
    {
      StagesStep(dt);
      if code.hasEvents {
        HandleAll(dt);
      }
    }

    /** `<name>_step` */
    method Step(dt: real)
      requires CodeOk(code)
      modifies this
      ensures State() == StepOf(code, old(State()), dt)
    {
      if code.hasEvents && !started {
        HandleAll(dt);
        started := true;
      }
      TakeStep(dt);
      if code.hasSig {
        Outputs();
      }
    }

    /** `<name>_run`; `n` is the number of times its loop turns. */
    method Run(tEnd: real, dt: real) returns (ghost n: nat)
      requires CodeOk(code) && dt > 0.0
      modifies this
      ensures LoopCount(old(time), tEnd, dt, n) && State() == RunOf(code, old(State()), dt, n)
    {
      ghost var t0 := time;
      n := SomeLoopCount(t0, tEnd, dt);
      if code.hasEvents {
        HandleAll(dt);
        started := true;
      }
      ghost var m := State();
      ghost var k: nat := 0;
      AdvanceTime(code, m, dt, 0);
      while time < tEnd - 0.5 * dt
        invariant k <= n && State() == AdvanceN(code, m, dt, k) && time == TimeAfter(t0, dt, k)
        decreases n - k
      {
        assert Continues(TimeAfter(t0, dt, k), tEnd, dt);
        TakeStep(dt);
        k := k + 1;
        AdvanceTime(code, m, dt, k);
      }
      assert k < n ==> Continues(TimeAfter(t0, dt, k), tEnd, dt);
      if code.hasSig {
        Outputs();
      }
    }
  }

  /** The two drivers, called as a client would: N steps on one instance, one run on the other. */
  method DriveBoth(code: Code, m: Snapshot, dt: real, n: nat) returns (stepped: Instance, run: Instance)
    requires CodeOk(code) && dt > 0.0 && n >= 1 && !m.started
    ensures fresh(stepped) && fresh(run) && stepped.State() == run.State()
  {
    stepped := new Instance(code, m);
    for k := 0 to n
      invariant stepped.code == code && stepped.State() == StepN(code, m, dt, k)
    {
      stepped.Step(dt);
    }
    run := new Instance(code, m);
    ghost var turns := run.Run(TimeAfter(m.world.time, dt, n), dt);
    WholeStepsCount(m.world.time, dt, n);
    LoopCountIsUnique(m.world.time, TimeAfter(m.world.time, dt, n), dt, turns, n);
    StepsEqualRun(code, m, dt, n);
  }
}

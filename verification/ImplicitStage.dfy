/** One stage of an implicit tableau (`implicit_helpers` and `stage_loop_implicit` in `src/codegen/solver.rs`): Newton's
    method for the slope `k = f(base + h k)`, with a forward-difference Jacobian and the dense solve. */
module ImplicitStage {
  import opened Wrappers
  import opened Ir
  import opened LuSolve
  import opened StepModel

  const MAX_PASSES := 25

  /** The relative width of the differences. */
  const EPS := 0.0000001

  function Larger(a: real, b: real): real {
    if a > b then a else b
  }

  /** A stage converges well inside the local error. */
  function NewtonTolerance(atol: real): (tol: real)
    ensures tol > 0.0
  {
    Larger(atol * 0.001, 0.00000000000001)
  }

  // ---------------------------------------------------------------------------------------
  // The Jacobian
  // ---------------------------------------------------------------------------------------

  function Width(x: real): (h: real)
    ensures h > 0.0
  {
    EPS * Larger(RealAbs(x), 1.0)
  }

  function Nudged(x: Row, j: nat): (r: Row)
    requires j < |x|
    ensures |r| == |x|
  {
    x[j := x[j] + Width(x[j])]
  }

  function Quotient(a: real, b: real, h: real): real
    requires h != 0.0
  {
    (a - b) / h
  }

  function Differences(f1: Row, f0: Row, h: real): (r: Row)
    requires |f1| == |f0| && h != 0.0
    ensures |r| == |f0| && forall i | 0 <= i < |r| :: r[i] == Quotient(f1[i], f0[i], h)
  {
    seq(|f0|, i requires 0 <= i < |f0| => Quotient(f1[i], f0[i], h))
  }

  datatype Differenced = Differenced(m: Snapshot, columns: Matrix)

  /** The first `n` columns; each state is nudged and put back. */
  ghost function ColumnsTo(code: Code, m: Snapshot, f0: Row, n: nat): (r: Differenced)
    requires CodeOk(code) && n <= |m.world.x| == |f0|
    ensures OnlyMoved(code, m, r.m) && r.m.world == m.world
    ensures |r.columns| == n && forall j {:trigger r.columns[j]} | 0 <= j < n :: |r.columns[j]| == |f0|
  {
    if n == 0 then Differenced(m, [])
    else
      var before := ColumnsTo(code, m, f0, n - 1);
      var x := m.world.x;
      var there := Derived(code, Placed(before.m, Nudged(x, n - 1)));
      Differenced(there.m.(world := m.world), before.columns + [Differences(there.slope, f0, Width(x[n - 1]))])
  }

  /** `fs_jacobian`, by columns. */
  ghost function Jacobian(code: Code, m: Snapshot): (r: Differenced)
    requires CodeOk(code)
    ensures OnlyMoved(code, m, r.m) && r.m.world == m.world
    ensures |r.columns| == |m.world.x|
    ensures forall j {:trigger r.columns[j]} | 0 <= j < |r.columns| :: |r.columns[j]| == |m.world.x|
  {
    var here := Derived(code, m);
    ColumnsTo(code, here.m, here.slope, |m.world.x|)
  }

  // ---------------------------------------------------------------------------------------
  // One pass of Newton's method
  // ---------------------------------------------------------------------------------------

  function Shifted(b: real, h: real, k: real): real {
    b + h * k
  }

  /** The states at which slope `k` is tried. */
  function Point(base: Row, h: real, k: Row): (z: Row)
    requires |k| == |base|
    ensures |z| == |base| && forall i | 0 <= i < |z| :: z[i] == Shifted(base[i], h, k[i])
  {
    seq(|base|, i requires 0 <= i < |base| => Shifted(base[i], h, k[i]))
  }

  function Minus(a: Row, b: Row): (r: Row)
    requires |a| == |b|
    ensures |r| == |a| && forall i | 0 <= i < |r| :: r[i] == a[i] - b[i]
  {
    seq(|a|, i requires 0 <= i < |a| => a[i] - b[i])
  }

  function Plus(a: Row, b: Row): (r: Row)
    requires |a| == |b|
    ensures |r| == |a| && forall i | 0 <= i < |r| :: r[i] == a[i] + b[i]
  {
    seq(|a|, i requires 0 <= i < |a| => a[i] + b[i])
  }

  function Negated(a: Row): (r: Row)
    ensures |r| == |a| && forall i | 0 <= i < |r| :: r[i] == -a[i]
  {
    seq(|a|, i requires 0 <= i < |a| => -a[i])
  }

  /** The largest magnitude among the first `n` elements. */
  function Worst(r: Row, n: nat): (w: real)
    requires n <= |r|
    ensures w >= 0.0 && forall i | 0 <= i < n :: RealAbs(r[i]) <= w
    ensures (forall i | 0 <= i < n :: r[i] == 0.0) ==> w == 0.0
  {
    if n == 0 then 0.0 else Larger(RealAbs(r[n - 1]), Worst(r, n - 1))
  }

  /** An entry of the identity less `h` times the Jacobian. */
  function Entry(i: nat, j: nat, h: real, g: real): real {
    (if i == j then 1.0 else 0.0) - h * g
  }

  function NewtonRow(h: real, columns: Matrix, n: nat, i: nat): (r: Row)
    requires i < n && |columns| == n && forall j {:trigger columns[j]} | 0 <= j < n :: |columns[j]| == n
    ensures |r| == n && forall j | 0 <= j < n :: r[j] == Entry(i, j, h, columns[j][i])
  {
    seq(n, j requires 0 <= j < n => Entry(i, j, h, columns[j][i]))
  }

  function NewtonMatrix(h: real, columns: Matrix, n: nat): (r: Matrix)
    requires |columns| == n && forall j {:trigger columns[j]} | 0 <= j < n :: |columns[j]| == n
    ensures Square(r, n) && forall i {:trigger r[i]} | 0 <= i < n :: r[i] == NewtonRow(h, columns, n, i)
  {
    seq(n, i requires 0 <= i < n => NewtonRow(h, columns, n, i))
  }

  /** What the solve returns for the residual `r`. */
  ghost function NewtonStep(p: Prims, h: real, columns: Matrix, r: Row): (d: Option<Row>)
    requires |columns| == |r| && forall j {:trigger columns[j]} | 0 <= j < |r| :: |columns[j]| == |r|
    ensures d.Some? ==> |d.value| == |r|
  {
    SolutionOf(p, System(NewtonMatrix(h, columns, |r|), Negated(r)), |r|)
  }

  /** How a pass ends the iteration, if it does. */
  datatype End = Going | Within | Singular

  datatype Newton = Newton(m: Snapshot, k: Row, end: End)

  ghost predicate NewtonOk(code: Code, base: Row, s: Newton) {
    CodeOk(code) && |s.k| == |base| == |s.m.world.x|
  }

  ghost function Pass(code: Code, base: Row, h: real, s: Newton): (r: Newton)
    requires NewtonOk(code, base, s)
    ensures NewtonOk(code, base, r) && OnlyMoved(code, s.m, r.m)
    ensures r.m.world.x == Point(base, h, s.k)
  {
    var here := Derived(code, Placed(s.m, Point(base, h, s.k)));
    var residual := Minus(s.k, here.slope);
    if Worst(residual, |residual|) <= NewtonTolerance(code.atol) then Newton(here.m, s.k, Within)
    else
      var jac := Jacobian(code, here.m);
      var d := NewtonStep(code.prims, h, jac.columns, residual);
      if d.None? then Newton(jac.m, s.k, Singular) else Newton(jac.m, Plus(s.k, d.value), Going)
  }

  /** Up to `n` passes. */
  ghost function Passes(code: Code, base: Row, h: real, s: Newton, n: nat): (r: Newton)
    requires NewtonOk(code, base, s)
    ensures NewtonOk(code, base, r) && OnlyMoved(code, s.m, r.m)
  {
    if n == 0 then s
    else
      var before := Passes(code, base, h, s, n - 1);
      if before.end.Going? then Pass(code, base, h, before) else before
  }

  lemma {:induction false} PassesEnd(code: Code, base: Row, h: real, s: Newton, m: nat, n: nat)
    requires NewtonOk(code, base, s) && m <= n && !Passes(code, base, h, s, m).end.Going?
    ensures Passes(code, base, h, s, n) == Passes(code, base, h, s, m)
    decreases n
  {
    if m < n { PassesEnd(code, base, h, s, m, n - 1); }
  }

  /** Where `n` passes lead. */
  ghost predicate Reached(code: Code, base: Row, h: real, s: Newton, n: nat, r: Newton) {
    NewtonOk(code, base, s) && r == Passes(code, base, h, s, n)
  }

  lemma {:induction false} ReachedNext(code: Code, base: Row, h: real, s: Newton, n: nat, r: Newton, next: Newton)
    requires Reached(code, base, h, s, n, r) && r.end.Going? && next == Pass(code, base, h, r)
    ensures NewtonOk(code, base, next) && Reached(code, base, h, s, n + 1, next)
  {
  }

  lemma {:induction false} ReachedEnd(code: Code, base: Row, h: real, s: Newton, n: nat, limit: nat, r: Newton)
    requires Reached(code, base, h, s, n, r) && !r.end.Going? && n <= limit
    ensures Reached(code, base, h, s, limit, r)
  {
    PassesEnd(code, base, h, s, n, limit);
  }

  /** The slope of a stage and the instance it leaves; `h` is the step times the diagonal coefficient. A stage without
      one takes the derivative as it is. */
  ghost function Solved(code: Code, m: Snapshot, base: Row, h: real, explicit: bool): (r: Newton)
    requires CodeOk(code) && |base| == |m.world.x|
    ensures NewtonOk(code, base, r) && OnlyMoved(code, m, r.m)
  {
    var here := Derived(code, Placed(m, base));
    var s := Newton(here.m, here.slope, Going);
    if explicit then s.(end := Within) else Passes(code, base, h, s, MAX_PASSES)
  }

  /** The stage solve overwrites the signals before it uses them. */
  lemma {:induction false} SolvedIgnoresSignals(
      code: Code, m1: Snapshot, m2: Snapshot, base: Row, h: real, explicit: bool)
    requires CodeOk(code) && Comparable(code, m1, m2) && |base| == |m1.world.x|
    ensures Solved(code, m1, base, h, explicit) == Solved(code, m2, base, h, explicit)
  {
    DerivedIgnoresSignals(code, Placed(m1, base), Placed(m2, base));
  }

  // ---------------------------------------------------------------------------------------
  // What the iteration achieves
  // ---------------------------------------------------------------------------------------

  /** The slope is the derivative at its own point, up to `tol`. */
  ghost predicate StageEquation(code: Code, m: Snapshot, base: Row, h: real, k: Row, tol: real)
    requires CodeOk(code) && |k| == |base| == |m.world.x|
  {
    forall i | 0 <= i < |k| :: RealAbs(k[i] - Derived(code, Placed(m, Point(base, h, k))).slope[i]) <= tol
  }

  lemma {:induction false} PassWithin(code: Code, base: Row, h: real, s: Newton)
    requires NewtonOk(code, base, s) && Pass(code, base, h, s).end.Within?
    ensures Pass(code, base, h, s).k == s.k
    ensures StageEquation(code, s.m, base, h, s.k, NewtonTolerance(code.atol))
  {
    var here := Derived(code, Placed(s.m, Point(base, h, s.k)));
    var residual := Minus(s.k, here.slope);
    assert Worst(residual, |residual|) <= NewtonTolerance(code.atol);
  }

  /** An iteration that ends within its tolerance has solved the equation of the stage to that tolerance. */
  lemma {:induction false} WithinIsSolved(code: Code, base: Row, h: real, s: Newton, n: nat)
    requires NewtonOk(code, base, s) && s.end.Going?
    ensures var r := Passes(code, base, h, s, n);
            r.end.Within? ==> StageEquation(code, s.m, base, h, r.k, NewtonTolerance(code.atol))
                              && r.m.world.x == Point(base, h, r.k)
    decreases n
  {
    if n > 0 {
      WithinIsSolved(code, base, h, s, n - 1);
      var before := Passes(code, base, h, s, n - 1);
      if before.end.Going? && Pass(code, base, h, before).end.Within? {
        PassWithin(code, base, h, before);
        DerivedOfMoved(code, s.m, before.m, Point(base, h, before.k));
      }
    }
  }

  /** A pass that goes on has moved the slope by the one and only Newton step: what `I - h J` takes to the negative
      residual. */
  lemma {:induction false} PassIsTheNewtonStep(code: Code, base: Row, h: real, s: Newton) returns (d: Row)
    requires NewtonOk(code, base, s) && ExactField(code.prims) && Pass(code, base, h, s).end.Going?
    ensures |d| == |base| && Pass(code, base, h, s).k == Plus(s.k, d)
    ensures var here := Derived(code, Placed(s.m, Point(base, h, s.k)));
            var M := NewtonMatrix(h, Jacobian(code, here.m).columns, |base|);
            forall z: Row {:trigger Solves(code.prims, M, Negated(Minus(s.k, here.slope)), z)} | |z| == |base| ::
              Solves(code.prims, M, Negated(Minus(s.k, here.slope)), z) <==> z == d
  {
    var here := Derived(code, Placed(s.m, Point(base, h, s.k)));
    var residual := Minus(s.k, here.slope);
    var M := NewtonMatrix(h, Jacobian(code, here.m).columns, |base|);
    SolutionIsExact(code.prims, System(M, Negated(residual)), |base|);
    d := SolutionOf(code.prims, System(M, Negated(residual)), |base|).value;
  }

  /** A stage whose iteration ends within the tolerance satisfies its equation to that tolerance, at the states it is
      left with. */
  lemma {:induction false} StageIsSolved(code: Code, m: Snapshot, base: Row, h: real)
    requires CodeOk(code) && |base| == |m.world.x|
    ensures var r := Solved(code, m, base, h, false);
            r.end.Within? ==>
              StageEquation(code, m, base, h, r.k, NewtonTolerance(code.atol)) && r.m.world.x == Point(base, h, r.k)
  {
    var here := Derived(code, Placed(m, base));
    var s := Newton(here.m, here.slope, Going);
    WithinIsSolved(code, base, h, s, MAX_PASSES);
    var r := Solved(code, m, base, h, false);
    DerivedOfMoved(code, m, here.m, Point(base, h, r.k));
  }
}

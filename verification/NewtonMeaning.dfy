/** Newton's method for the slope of an implicit stage in plain arithmetic: the differences that make up its Jacobian,
    the system each pass solves, when it ends, and how many passes there are (`implicit_helpers` and
    `stage_loop_implicit` in `src/codegen/solver.rs`). */
module NewtonMeaning {
  import opened Wrappers
  import opened Ir
  import opened LuSolve
  import opened StepModel
  import opened ImplicitStage
  import opened StageMeaning

  /** The derivative in the states `z`, with the signals refreshed there. */
  ghost function SlopeAt(code: Code, m: Snapshot, z: Row): (f: Row)
    requires CodeOk(code)
    ensures |f| == |z|
  {
    var w := m.world.(x := z);
    code.deriv(w, CurrentSignals(code, w, m.sig))
  }

  lemma {:induction false} DerivedAtPoint(code: Code, m: Snapshot, r: Snapshot, z: Row)
    requires CodeOk(code) && OnlyMoved(code, m, r)
    ensures Derived(code, Placed(r, z)).slope == SlopeAt(code, m, z)
  {
    DerivedOfMoved(code, m, r, z);
  }

  // ---------------------------------------------------------------------------------------
  // The Jacobian
  // ---------------------------------------------------------------------------------------

  /** A ten-millionth of the state, or of 1 if that is larger. */
  ghost predicate IsSpacing(x: real, h: real) {
    && h > 0.0
    && (RealAbs(x) > 1.0 ==> h == 0.0000001 * RealAbs(x)) && (RealAbs(x) <= 1.0 ==> h == 0.0000001)
  }

  /** Column `j` is the difference of the slopes at two points, over their distance `h` along state `j`. */
  ghost predicate IsColumn(code: Code, m: Snapshot, column: Row, j: nat, h: real)
    requires CodeOk(code)
  {
    var x := m.world.x;
    && j < |x| && |column| == |x| && IsSpacing(x[j], h)
    && var there, here := SlopeAt(code, m, x[j := x[j] + h]), SlopeAt(code, m, x);
       forall i {:trigger column[i]} | 0 <= i < |x| :: column[i] * h == there[i] - here[i]
  }

  lemma {:induction false} WidthIsSpacing(x: real)
    ensures IsSpacing(x, Width(x))
  {
    assert RealAbs(x) <= 1.0 ==> EPS * 1.0 == 0.0000001;
  }

  lemma {:induction false} QuotientTimes(a: real, b: real, h: real)
    requires h > 0.0
    ensures Quotient(a, b, h) * h == a - b
  {
  }

  lemma {:induction false} ColumnIsDifferences(code: Code, m: Snapshot, j: nat, there: Row, f0: Row, column: Row)
    requires CodeOk(code) && j < |m.world.x| == |f0| && f0 == SlopeAt(code, m, m.world.x)
    requires there == SlopeAt(code, m, Nudged(m.world.x, j))
    requires column == Differences(there, f0, Width(m.world.x[j]))
    ensures IsColumn(code, m, column, j, Width(m.world.x[j]))
  {
    var x, h := m.world.x, Width(m.world.x[j]);
    WidthIsSpacing(x[j]);
    forall i | 0 <= i < |x| ensures column[i] * h == there[i] - f0[i] {
      QuotientTimes(there[i], f0[i], h);
    }
  }

  /** Every column made is one of differences. */
  lemma {:induction false} ColumnsAreDifferences(code: Code, m: Snapshot, at: Snapshot, f0: Row, n: nat, j: nat)
    requires CodeOk(code) && j < n <= |m.world.x| == |f0| && OnlyMoved(code, m, at) && at.world == m.world
    requires f0 == SlopeAt(code, m, m.world.x)
    ensures IsColumn(code, m, ColumnsTo(code, at, f0, n).columns[j], j, Width(m.world.x[j]))
    decreases n
  {
    var before := ColumnsTo(code, at, f0, n - 1);
    if j < n - 1 {
      ColumnsAreDifferences(code, m, at, f0, n - 1, j);
      assert ColumnsTo(code, at, f0, n).columns[j] == before.columns[j];
    } else {
      var there := Derived(code, Placed(before.m, Nudged(m.world.x, j))).slope;
      DerivedAtPoint(code, m, before.m, Nudged(m.world.x, j));
      ColumnIsDifferences(code, m, j, there, f0, ColumnsTo(code, at, f0, n).columns[j]);
    }
  }

  /** The Jacobian is made of forward differences of the slope, one state at a time. */
  lemma {:induction false} JacobianIsDifferences(code: Code, m: Snapshot, j: nat) returns (h: real)
    requires CodeOk(code) && j < |m.world.x|
    ensures IsColumn(code, m, Jacobian(code, m).columns[j], j, h)
  {
    h := Width(m.world.x[j]);
    var here := Derived(code, m);
    assert Placed(m, m.world.x) == m;
    ColumnsAreDifferences(code, m, here.m, here.slope, |m.world.x|, j);
  }

  // ---------------------------------------------------------------------------------------
  // One pass
  // ---------------------------------------------------------------------------------------

  /** The states at which the slope `k` is tried. */
  ghost predicate IsPoint(base: Row, h: real, k: Row, z: Row) {
    |z| == |k| == |base| && forall i {:trigger z[i]} | 0 <= i < |z| :: z[i] == base[i] + h * k[i]
  }

  /** The slope differs from the derivative at its point by a thousandth of the absolute tolerance at most, or by no
      more than 1e-14. */
  ghost predicate CloseEnough(code: Code, k: Row, f: Row) {
    |k| == |f| && forall i {:trigger k[i]} | 0 <= i < |k| ::
      RealAbs(k[i] - f[i]) <= 0.001 * code.atol || RealAbs(k[i] - f[i]) <= 0.00000000000001
  }

  lemma {:induction false} WorstIsLargest(r: Row, n: nat, tol: real)
    requires n <= |r| && tol > 0.0
    ensures Worst(r, n) <= tol <==> forall i {:trigger r[i]} | 0 <= i < n :: RealAbs(r[i]) <= tol
    decreases n
  {
    if n > 0 { WorstIsLargest(r, n - 1, tol); }
  }

  lemma {:induction false} WithinIsClose(code: Code, k: Row, f: Row)
    requires |k| == |f|
    ensures Worst(Minus(k, f), |k|) <= NewtonTolerance(code.atol) <==> CloseEnough(code, k, f)
  {
    var r, tol := Minus(k, f), NewtonTolerance(code.atol);
    WorstIsLargest(r, |k|, tol);
    forall i {:trigger r[i]} | 0 <= i < |k|
      ensures RealAbs(r[i]) <= tol <==>
              RealAbs(k[i] - f[i]) <= 0.001 * code.atol || RealAbs(k[i] - f[i]) <= 0.00000000000001
    {
    }
    if Worst(r, |k|) <= tol {
      forall i {:trigger k[i]} | 0 <= i < |k|
        ensures RealAbs(k[i] - f[i]) <= 0.001 * code.atol || RealAbs(k[i] - f[i]) <= 0.00000000000001
      {
        assert RealAbs(r[i]) <= tol;
      }
    }
    if CloseEnough(code, k, f) {
      forall i {:trigger r[i]} | 0 <= i < |k| ensures RealAbs(r[i]) <= tol {
        assert RealAbs(k[i] - f[i]) <= 0.001 * code.atol || RealAbs(k[i] - f[i]) <= 0.00000000000001;
      }
    }
  }

  /** `M` is the identity less `h` times the Jacobian with the given columns. */
  ghost predicate IsNewtonMatrix(h: real, columns: Matrix, M: Matrix, n: nat) {
    && Square(M, n) && |columns| == n && (forall j {:trigger columns[j]} | 0 <= j < n :: |columns[j]| == n)
    && forall i, j {:trigger M[i][j]} | 0 <= i < n && 0 <= j < n ::
         M[i][j] == (if i == j then 1.0 else 0.0) - h * columns[j][i]
  }

  /** The only correction that the system of a pass has as its solution. */
  ghost predicate IsCorrection(p: Prims, M: Matrix, k: Row, f: Row, d: Row)
    requires Square(M, |k|) && |f| == |k|
  {
    && |d| == |k|
    && var v := seq(|k|, i requires 0 <= i < |k| => f[i] - k[i]);
       forall z: Row {:trigger Solves(p, M, v, z)} | |z| == |k| :: Solves(p, M, v, z) <==> z == d
  }

  ghost predicate Corrected(k: Row, d: Row, next: Row) {
    |next| == |k| == |d| && forall i {:trigger next[i]} | 0 <= i < |k| :: next[i] == k[i] + d[i]
  }

  /** One pass on the slope `k`, tried at `z`, where the slope is `f` and `M` the matrix of the system. */
  ghost predicate PassMeans(
      code: Code, base: Row, h: real, s: Newton, r: Newton, z: Row, M: Matrix, d: Row)
    requires CodeOk(code) && |s.k| == |base| && Square(M, |s.k|) && |z| == |base|
  {
    var f := SlopeAt(code, s.m, z);
    && IsPoint(base, h, s.k, z) && r.m.world == s.m.world.(x := z)
    && IsNewtonMatrix(h, Jacobian(code, s.m.(world := s.m.world.(x := z))).columns, M, |base|)
    && (r.end.Within? <==> CloseEnough(code, s.k, f))
    && (r.end.Going? ==> IsCorrection(code.prims, M, s.k, f, d) && Corrected(s.k, d, r.k))
    && (!r.end.Going? ==> r.k == s.k)
  }

  lemma {:induction false} JacobianOfMoved(code: Code, m: Snapshot, r: Snapshot)
    requires CodeOk(code) && Comparable(code, m, r)
    ensures Jacobian(code, m) == Jacobian(code, r)
  {
    DerivedIgnoresSignals(code, m, r);
  }

  lemma {:induction false} MatrixIs(h: real, columns: Matrix, n: nat)
    requires |columns| == n && forall j {:trigger columns[j]} | 0 <= j < n :: |columns[j]| == n
    ensures IsNewtonMatrix(h, columns, NewtonMatrix(h, columns, n), n)
  {
    var M := NewtonMatrix(h, columns, n);
    forall i, j | 0 <= i < n && 0 <= j < n
      ensures M[i][j] == (if i == j then 1.0 else 0.0) - h * columns[j][i]
    {
      assert M[i] == NewtonRow(h, columns, n, i);
    }
  }

  lemma {:induction false} PassEnds(code: Code, base: Row, h: real, s: Newton, r: Newton, z: Row, f: Row)
    requires NewtonOk(code, base, s) && r == Pass(code, base, h, s)
    requires z == Point(base, h, s.k) && f == SlopeAt(code, s.m, z)
    ensures r.m.world == s.m.world.(x := z) && (r.end.Within? <==> CloseEnough(code, s.k, f))
    ensures !r.end.Going? ==> r.k == s.k
  {
    DerivedAtPoint(code, s.m, s.m, z);
    WithinIsClose(code, s.k, f);
  }

  lemma {:induction false} CorrectionIs(p: Prims, M: Matrix, k: Row, f: Row, d: Row)
    requires Square(M, |k|) && |f| == |k| == |d|
    requires forall z: Row {:trigger Solves(p, M, Negated(Minus(k, f)), z)} | |z| == |k| ::
               Solves(p, M, Negated(Minus(k, f)), z) <==> z == d
    ensures IsCorrection(p, M, k, f, d)
  {
    var v := seq(|k|, i requires 0 <= i < |k| => f[i] - k[i]);
    assert Negated(Minus(k, f)) == v;
  }

  lemma {:induction false} PassCorrects(
      code: Code, base: Row, h: real, s: Newton, r: Newton, z: Row, f: Row, M: Matrix, at: Snapshot)
    returns (d: Row)
    requires NewtonOk(code, base, s) && ExactField(code.prims) && r == Pass(code, base, h, s) && r.end.Going?
    requires z == Point(base, h, s.k) && f == SlopeAt(code, s.m, z) && at == Placed(s.m, z)
    requires M == NewtonMatrix(h, Jacobian(code, at).columns, |base|)
    ensures IsCorrection(code.prims, M, s.k, f, d) && Corrected(s.k, d, r.k)
  {
    DerivedAtPoint(code, s.m, s.m, z);
    JacobianOfMoved(code, at, Derived(code, at).m);
    d := PassIsTheNewtonStep(code, base, h, s);
    CorrectionIs(code.prims, M, s.k, f, d);
  }

  /** Every pass is a step of Newton's method: it ends if the slope is close enough to the derivative at its point, and
      otherwise corrects the slope by the one solution of `(I - h J) d = f - k`, if there is one. */
  lemma {:induction false} PassIsNewton(code: Code, base: Row, h: real, s: Newton, r: Newton)
    returns (z: Row, M: Matrix, d: Row)
    requires NewtonOk(code, base, s) && ExactField(code.prims) && r == Pass(code, base, h, s)
    ensures |z| == |base| && Square(M, |base|) && PassMeans(code, base, h, s, r, z, M, d)
  {
    z := Point(base, h, s.k);
    var at, f := Placed(s.m, z), SlopeAt(code, s.m, z);
    PassEnds(code, base, h, s, r, z, f);
    M := NewtonMatrix(h, Jacobian(code, at).columns, |base|);
    MatrixIs(h, Jacobian(code, at).columns, |base|);
    d := s.k;
    if r.end.Going? { d := PassCorrects(code, base, h, s, r, z, f, M, at); }
  }

  // ---------------------------------------------------------------------------------------
  // The iteration
  // ---------------------------------------------------------------------------------------

  /** A pass takes up what the one before left. */
  ghost predicate Follows(code: Code, base: Row, h: real, before: Newton, after: Newton) {
    NewtonOk(code, base, before) && before.end.Going? && after == Pass(code, base, h, before)
  }

  /** The passes on the slope of a stage, from `s` to `r`: as many as allowed, unless one ends the iteration. */
  ghost predicate Iterated(
      code: Code, base: Row, h: real, s: Newton, r: Newton, trail: seq<Newton>, most: nat)
  {
    && 0 < |trail| <= most + 1 && trail[0] == s && trail[|trail| - 1] == r
    && (forall n: nat {:trigger trail[n]} | n < |trail| - 1 :: Follows(code, base, h, trail[n], trail[n + 1]))
    && (r.end.Going? ==> |trail| == most + 1)
  }

  lemma {:induction false} OneMorePass(
      code: Code, base: Row, h: real, s: Newton, before: Newton, r: Newton, trail: seq<Newton>, most: nat)
    requires Iterated(code, base, h, s, before, trail, most) && Follows(code, base, h, before, r)
    ensures Iterated(code, base, h, s, r, trail + [r], most + 1)
  {
    var all := trail + [r];
    forall n: nat | n < |all| - 1 ensures Follows(code, base, h, all[n], all[n + 1]) {
      if n < |trail| - 1 { assert all[n] == trail[n] && all[n + 1] == trail[n + 1]; }
    }
  }

  lemma {:induction false} PassesIterate(code: Code, base: Row, h: real, s: Newton, n: nat, r: Newton)
    returns (trail: seq<Newton>)
    requires NewtonOk(code, base, s) && s.end.Going? && r == Passes(code, base, h, s, n)
    ensures Iterated(code, base, h, s, r, trail, n)
    decreases n
  {
    if n == 0 {
      trail := [s];
    } else {
      var before := Passes(code, base, h, s, n - 1);
      trail := PassesIterate(code, base, h, s, n - 1, before);
      if before.end.Going? {
        OneMorePass(code, base, h, s, before, r, trail, n - 1);
        trail := trail + [r];
      }
    }
  }

  /** The slope of a stage with a diagonal coefficient: it is first taken where the stage starts, and then corrected by
      at most 25 passes. */
  lemma {:induction false} SlopeIsIterated(code: Code, m: Snapshot, base: Row, h: real, r: Newton)
    returns (trail: seq<Newton>)
    requires CodeOk(code) && |base| == |m.world.x| && r == Solved(code, m, base, h, false)
    ensures |trail| > 0 && Iterated(code, base, h, trail[0], r, trail, 25)
    ensures trail[0].k == SlopeAt(code, m, base) && trail[0].m.world == m.world.(x := base)
  {
    var here := Derived(code, Placed(m, base));
    DerivedAtPoint(code, m, m, base);
    trail := PassesIterate(code, base, h, Newton(here.m, here.slope, Going), MAX_PASSES, r);
  }
}

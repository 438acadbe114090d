/** For a model that is affine in its states the forward differences are its matrix and one Newton step solves a stage
    exactly, so the iteration never needs a third pass. */
module AffineStage {
  import opened Ir
  import opened Products
  import opened LuSolve
  import opened StepModel
  import opened ImplicitStage

  /** The derivative of an instance at states `x`. */
  ghost function Slope(code: Code, m: Snapshot, x: Row): (f: Row)
    requires CodeOk(code)
    ensures |f| == |x|
  {
    Derived(code, Placed(m, x)).slope
  }

  /** Between `x` and `y` the derivative changes as the matrix says. */
  ghost predicate Linear(code: Code, m: Snapshot, G: Matrix, x: Row, y: Row)
    requires CodeOk(code) && |x| == |y| && Square(G, |x|)
  {
    forall i {:trigger G[i]} | 0 <= i < |x| ::
      Slope(code, m, x)[i] - Slope(code, m, y)[i] == RowDot(code.prims, G[i], Minus(x, y), 0)
  }

  ghost predicate Affine(code: Code, m: Snapshot, G: Matrix)
    requires CodeOk(code)
  {
    && Square(G, |m.world.x|)
    && forall x: Row, y: Row {:trigger Linear(code, m, G, x, y)} | |x| == |y| == |m.world.x| :: Linear(code, m, G, x, y)
  }

  // ---------------------------------------------------------------------------------------
  // The differences are the matrix
  // ---------------------------------------------------------------------------------------

  lemma {:induction false} DotOfNudge(p: Prims, row: Row, x: Row, j: nat, k: nat)
    requires Multiplies(p) && |row| == |x| && j < |x| && k <= |x|
    ensures RowDot(p, row, Minus(Nudged(x, j), x), k) == if k <= j then Prod(p, row[j], Width(x[j])) else 0.0
    decreases |x| - k
  {
    if k < |x| {
      DotOfNudge(p, row, x, j, k + 1);
      TimesZero(p, row[k]);
    }
  }

  lemma {:induction false} QuotientOfProduct(p: Prims, g: real, h: real, a: real, b: real)
    requires Multiplies(p) && h != 0.0 && a - b == Prod(p, g, h)
    ensures Quotient(a, b, h) == g
  {
    assert Multiplied(g, h);
    QuotientCancels(g, h, a - b);
  }

  lemma {:induction false} QuotientCancels(g: real, h: real, d: real)
    requires h != 0.0 && d == g * h
    ensures d / h == g
  {
  }

  /** Column `j` of the Jacobian is column `j` of the matrix. */
  ghost predicate ColumnsOf(columns: Matrix, G: Matrix, n: nat)
    requires Square(G, n) && |columns| <= n
  {
    forall j {:trigger columns[j]} | 0 <= j < |columns| ::
      |columns[j]| == n && forall i {:trigger G[i]} | 0 <= i < n :: columns[j][i] == G[i][j]
  }

  lemma {:induction false} OneColumnIsExact(code: Code, m: Snapshot, G: Matrix, at: Snapshot, j: nat)
    requires CodeOk(code) && Affine(code, m, G) && Multiplies(code.prims) && OnlyMoved(code, m, at)
    requires j < |m.world.x|
    ensures var x := m.world.x;
            var there := Derived(code, Placed(at, Nudged(x, j))).slope;
            forall i {:trigger G[i]} | 0 <= i < |x| ::
              Differences(there, Slope(code, m, x), Width(x[j]))[i] == G[i][j]
  {
    var x := m.world.x;
    var there := Derived(code, Placed(at, Nudged(x, j))).slope;
    DerivedOfMoved(code, m, at, Nudged(x, j));
    assert Linear(code, m, G, Nudged(x, j), x);
    forall i | 0 <= i < |x| ensures Differences(there, Slope(code, m, x), Width(x[j]))[i] == G[i][j] {
      DotOfNudge(code.prims, G[i], x, j, 0);
      QuotientOfProduct(code.prims, G[i][j], Width(x[j]), there[i], Slope(code, m, x)[i]);
    }
  }

  lemma {:induction false} ColumnsAreExact(code: Code, m: Snapshot, G: Matrix, at: Snapshot, n: nat)
    requires CodeOk(code) && Affine(code, m, G) && Multiplies(code.prims) && OnlyMoved(code, m, at)
    requires at.world == m.world && n <= |m.world.x|
    ensures ColumnsOf(ColumnsTo(code, at, Slope(code, m, m.world.x), n).columns, G, |m.world.x|)
    decreases n
  {
    if n > 0 {
      ColumnsAreExact(code, m, G, at, n - 1);
      OneColumnIsExact(code, m, G, ColumnsTo(code, at, Slope(code, m, m.world.x), n - 1).m, n - 1);
    }
  }

  /** The forward differences are exact. */
  lemma {:induction false} JacobianIsExact(code: Code, m: Snapshot, G: Matrix)
    requires CodeOk(code) && Affine(code, m, G) && Multiplies(code.prims)
    ensures ColumnsOf(Jacobian(code, m).columns, G, |m.world.x|)
  {
    assert Placed(m, m.world.x) == m;
    ColumnsAreExact(code, m, G, Derived(code, m).m, |m.world.x|);
  }

  /** Affine here is affine wherever the states have been moved to. */
  lemma {:induction false} AffineOfMoved(code: Code, m: Snapshot, at: Snapshot, G: Matrix)
    requires CodeOk(code) && Affine(code, m, G) && OnlyMoved(code, m, at)
    ensures Affine(code, at, G)
  {
    forall x: Row, y: Row | |x| == |y| == |at.world.x| ensures Linear(code, at, G, x, y) {
      DerivedOfMoved(code, m, at, x);
      DerivedOfMoved(code, m, at, y);
      assert Linear(code, m, G, x, y);
    }
  }

  // ---------------------------------------------------------------------------------------
  // One Newton step is enough
  // ---------------------------------------------------------------------------------------

  lemma {:induction false} EntryTimes(p: Prims, i: nat, j: nat, h: real, g: real, d: real)
    requires Multiplies(p)
    ensures Prod(p, Entry(i, j, h, g), d) == (if i == j then d else 0.0) - h * Prod(p, g, d)
  {
    assert Multiplied(Entry(i, j, h, g), d) && Multiplied(g, d);
    var delta := if i == j then 1.0 else 0.0;
    EntryTimesReal(delta, h, g, d);
  }

  lemma {:induction false} EntryTimesReal(delta: real, h: real, g: real, d: real)
    ensures (delta - h * g) * d == delta * d - h * (g * d)
  {
  }

  lemma {:induction false} Spreads(h: real, a: real, b: real)
    ensures h * (a + b) == h * a + h * b
  {
  }

  /** `I - h G` applied to `d`. */
  lemma {:induction false} DotOfNewtonRow(p: Prims, row: Row, h: real, g: Row, d: Row, i: nat, k: nat)
    requires Multiplies(p) && |row| == |g| == |d| && i < |d| && k <= |d|
    requires forall j | 0 <= j < |d| :: row[j] == Entry(i, j, h, g[j])
    ensures RowDot(p, row, d, k) == (if k <= i then d[i] else 0.0) - h * RowDot(p, g, d, k)
    decreases |d| - k
  {
    if k < |d| {
      DotOfNewtonRow(p, row, h, g, d, i, k + 1);
      EntryTimes(p, i, k, h, g[k], d[k]);
      Spreads(h, Prod(p, g[k], d[k]), RowDot(p, g, d, k + 1));
    }
  }

  lemma {:induction false} ShiftTimes(p: Prims, g: real, b: real, h: real, k: real, d: real)
    requires Multiplies(p)
    ensures Prod(p, g, Shifted(b, h, k + d) - Shifted(b, h, k)) == h * Prod(p, g, d)
  {
    var s := Shifted(b, h, k + d) - Shifted(b, h, k);
    Spreads(h, k, d);
    assert s == h * d;
    assert Multiplied(g, s) && Multiplied(g, d);
    Reorders(g, h, d);
  }

  lemma {:induction false} Reorders(g: real, h: real, d: real)
    ensures g * (h * d) == h * (g * d)
  {
  }

  /** Moving the slope by `d` moves the point by `h d`. */
  lemma {:induction false} DotOfMove(p: Prims, g: Row, base: Row, h: real, k: Row, d: Row, t: nat)
    requires Multiplies(p) && |g| == |base| == |k| == |d| && t <= |g|
    ensures RowDot(p, g, Minus(Point(base, h, Plus(k, d)), Point(base, h, k)), t) == h * RowDot(p, g, d, t)
    decreases |g| - t
  {
    if t < |g| {
      DotOfMove(p, g, base, h, k, d, t + 1);
      ShiftTimes(p, g[t], base[t], h, k[t], d[t]);
      Spreads(h, Prod(p, g[t], d[t]), RowDot(p, g, d, t + 1));
    }
  }

  /** One row: what `I - h G` takes to the negative residual makes the slope match the derivative. */
  lemma {:induction false} RowIsExact(
      p: Prims, row: Row, h: real, g: Row, base: Row, k: Row, d: Row, i: nat, before: real, after: real)
    requires Multiplies(p) && |row| == |g| == |base| == |k| == |d| && i < |d|
    requires forall j | 0 <= j < |d| :: row[j] == Entry(i, j, h, g[j])
    requires RowDot(p, row, d, 0) == -(k[i] - before)
    requires after - before == RowDot(p, g, Minus(Point(base, h, Plus(k, d)), Point(base, h, k)), 0)
    ensures after == k[i] + d[i]
  {
    DotOfMove(p, g, base, h, k, d, 0);
    DotOfNewtonRow(p, row, h, g, d, i, 0);
  }

  lemma {:induction false} RowsAreExact(
      p: Prims, h: real, columns: Matrix, G: Matrix, base: Row, k: Row, d: Row, before: Row, after: Row)
    requires Multiplies(p) && |base| == |k| == |d| == |before| == |after| == |columns| && Square(G, |base|)
    requires ColumnsOf(columns, G, |base|)
    requires Solves(p, NewtonMatrix(h, columns, |base|), Negated(Minus(k, before)), d)
    requires forall i {:trigger G[i]} | 0 <= i < |base| ::
               after[i] - before[i] == RowDot(p, G[i], Minus(Point(base, h, Plus(k, d)), Point(base, h, k)), 0)
    ensures forall i | 0 <= i < |base| :: after[i] == Plus(k, d)[i]
  {
    var M := NewtonMatrix(h, columns, |base|);
    forall i | 0 <= i < |base| ensures after[i] == Plus(k, d)[i] {
      RowIsNewtonRow(h, columns, G, |base|, i);
      assert RowDot(p, M[i], d, 0) == Negated(Minus(k, before))[i];
      assert after[i] - before[i] == RowDot(p, G[i], Minus(Point(base, h, Plus(k, d)), Point(base, h, k)), 0);
      RowIsExact(p, M[i], h, G[i], base, k, d, i, before[i], after[i]);
    }
  }

  /** After one Newton step the slope is exactly the derivative at its own point. */
  lemma {:induction false} AffineStepIsExact(code: Code, base: Row, h: real, s: Newton, G: Matrix)
    requires NewtonOk(code, base, s) && ExactField(code.prims) && Affine(code, s.m, G)
    requires Pass(code, base, h, s).end.Going?
    ensures StageEquation(code, s.m, base, h, Pass(code, base, h, s).k, 0.0)
  {
    var d := PassIsTheNewtonStep(code, base, h, s);
    var here := Derived(code, Placed(s.m, Point(base, h, s.k)));
    var columns := Jacobian(code, here.m).columns;
    AffineOfMoved(code, s.m, here.m, G);
    JacobianIsExact(code, here.m, G);
    var after := Slope(code, s.m, Point(base, h, Plus(s.k, d)));
    assert Linear(code, s.m, G, Point(base, h, Plus(s.k, d)), Point(base, h, s.k));
    assert Solves(code.prims, NewtonMatrix(h, columns, |base|), Negated(Minus(s.k, here.slope)), d);
    RowsAreExact(code.prims, h, columns, G, base, s.k, d, here.slope, after);
  }

  lemma {:induction false} RowIsNewtonRow(h: real, columns: Matrix, G: Matrix, n: nat, i: nat)
    requires Square(G, n) && |columns| == n && ColumnsOf(columns, G, n) && i < n
    ensures forall j | 0 <= j < n :: NewtonMatrix(h, columns, n)[i][j] == Entry(i, j, h, G[i][j])
  {
    assert NewtonMatrix(h, columns, n)[i] == NewtonRow(h, columns, n, i);
    forall j | 0 <= j < n ensures columns[j][i] == G[i][j] {
      assert |columns[j]| == n && |G[i]| == n;
    }
  }

  /** The iteration of an affine stage is over after two passes at the latest. */
  lemma {:induction false} AffineStageIsOver(code: Code, base: Row, h: real, s: Newton, G: Matrix)
    requires NewtonOk(code, base, s) && s.end.Going? && ExactField(code.prims) && Affine(code, s.m, G)
    ensures !Passes(code, base, h, s, 2).end.Going?
  {
    var first := Passes(code, base, h, s, 1);
    assert Passes(code, base, h, s, 0) == s && first == Pass(code, base, h, s);
    if first.end.Going? {
      AffineStepIsExact(code, base, h, s, G);
      ExactIsWithin(code, base, h, s.m, first);
    }
  }

  lemma {:induction false} ExactIsWithin(code: Code, base: Row, h: real, m: Snapshot, s: Newton)
    requires NewtonOk(code, base, s) && OnlyMoved(code, m, s.m) && StageEquation(code, m, base, h, s.k, 0.0)
    ensures Pass(code, base, h, s).end.Within?
  {
    DerivedOfMoved(code, m, s.m, Point(base, h, s.k));
    var residual := Minus(s.k, Derived(code, Placed(s.m, Point(base, h, s.k))).slope);
    forall i | 0 <= i < |residual| ensures residual[i] == 0.0 {
      assert RealAbs(s.k[i] - Derived(code, Placed(m, Point(base, h, s.k))).slope[i]) <= 0.0;
    }
  }

  /** A stage of an affine model is solved to the tolerance, unless some column of `I - h G` has no pivot; the bound on
      the passes never matters. */
  lemma {:induction false} AffineStageIsSolved(code: Code, m: Snapshot, base: Row, h: real, G: Matrix)
    requires CodeOk(code) && |base| == |m.world.x| && ExactField(code.prims) && Affine(code, m, G)
    ensures var r := Solved(code, m, base, h, false);
            && !r.end.Going?
            && (r.end.Within? ==>
                  StageEquation(code, m, base, h, r.k, NewtonTolerance(code.atol))
                  && r.m.world.x == Point(base, h, r.k))
  {
    var here := Derived(code, Placed(m, base));
    var s := Newton(here.m, here.slope, Going);
    AffineOfMoved(code, m, here.m, G);
    AffineStageIsOver(code, base, h, s, G);
    PassesEnd(code, base, h, s, 2, MAX_PASSES);
    StageIsSolved(code, m, base, h);
  }
}

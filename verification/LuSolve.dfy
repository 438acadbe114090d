/** The emitted dense solver `fs_lu_solve` (`src/codegen/solver.rs`): Gaussian elimination with
    partial pivoting in place, then back substitution in place, over the reals. */
module LuSolve {
  import opened Wrappers
  import opened Ir
  import opened Products

  type Row = seq<real>
  type Matrix = seq<seq<real>>

  /** `constants::TOLERANCE` */
  const TOLERANCE: real := 0.0000000000000001

  /** Subtraction, multiplication and division are those of the reals. */
  ghost predicate ExactField(p: Prims) {
    && Multiplies(p)
    && (forall a, b {:trigger p.bin(Sub, a, b)} :: p.bin(Sub, a, b) == a - b)
    && (forall a, b {:trigger p.bin(Div, a, b)} | b != 0.0 :: Prod(p, p.bin(Div, a, b), b) == a)
  }

  ghost predicate Square(M: Matrix, n: nat) {
    |M| == n && forall i {:trigger M[i]} | 0 <= i < n :: |M[i]| == n
  }

  /** The dot product of `row` and `z` from element `k` on. */
  function RowDot(p: Prims, row: Row, z: Row, k: nat): real
    requires |row| == |z| && k <= |row|
    decreases |row| - k
  {
    if k == |row| then 0.0 else Prod(p, row[k], z[k]) + RowDot(p, row, z, k + 1)
  }

  /** `z` solves `M z = v`. */
  ghost predicate Solves(p: Prims, M: Matrix, v: Row, z: Row)
    requires Square(M, |v|) && |z| == |v|
  {
    forall i {:trigger M[i]} | 0 <= i < |M| :: RowDot(p, M[i], z, 0) == v[i]
  }

  /** Both systems have the same solutions. */
  ghost predicate SameSolutions(p: Prims, M: Matrix, v: Row, N: Matrix, w: Row)
    requires |v| == |w| && Square(M, |v|) && Square(N, |v|)
  {
    forall z: Row {:trigger Solves(p, N, w, z)} | |z| == |v| :: Solves(p, M, v, z) <==> Solves(p, N, w, z)
  }

  /** Column `j` is finished for every `j < c`: a non-zero pivot and nothing below it. */
  ghost predicate Upper(M: Matrix, n: nat, c: nat)
    requires Square(M, n) && c <= n
  {
    && (forall j {:trigger M[j][j]} | 0 <= j < c :: M[j][j] != 0.0)
    && (forall i, j {:trigger M[i][j]} | 0 <= j < c && j < i < n :: M[i][j] == 0.0)
  }

  // ---------------------------------------------------------------------------------------
  // Row operations keep the solutions
  // ---------------------------------------------------------------------------------------

  function Swapped<T>(xs: seq<T>, i: nat, j: nat): (ys: seq<T>)
    requires i < |xs| && j < |xs|
    ensures |ys| == |xs|
    ensures forall k | 0 <= k < |xs| :: ys[k] == if k == i then xs[j] else if k == j then xs[i] else xs[k]
  {
    xs[i := xs[j]][j := xs[i]]
  }

  lemma {:induction false} SwapKeepsSolutions(p: Prims, M: Matrix, v: Row, i: nat, j: nat)
    requires Square(M, |v|) && i < |v| && j < |v|
    ensures Square(Swapped(M, i, j), |v|) && SameSolutions(p, M, v, Swapped(M, i, j), Swapped(v, i, j))
  {
    var N, w := Swapped(M, i, j), Swapped(v, i, j);
    forall z: Row | |z| == |v| ensures Solves(p, M, v, z) <==> Solves(p, N, w, z) {
      if Solves(p, M, v, z) {
        forall k | 0 <= k < |N| ensures RowDot(p, N[k], z, 0) == w[k] {
          assert RowDot(p, M[k], z, 0) == v[k] && RowDot(p, M[i], z, 0) == v[i] && RowDot(p, M[j], z, 0) == v[j];
        }
      }
      if Solves(p, N, w, z) {
        forall k | 0 <= k < |M| ensures RowDot(p, M[k], z, 0) == v[k] {
          assert RowDot(p, N[k], z, 0) == w[k] && RowDot(p, N[i], z, 0) == w[i] && RowDot(p, N[j], z, 0) == w[j];
        }
      }
    }
  }

  /** `row - f * pivot`, from column `c` on. */
  function RowMinus(p: Prims, row: Row, f: real, pivot: Row, c: nat): (r: Row)
    requires |row| == |pivot|
    ensures |r| == |row|
    ensures forall j | 0 <= j < |row| :: r[j] == if j < c then row[j] else row[j] - Prod(p, f, pivot[j])
  {
    seq(|row|, j requires 0 <= j < |row| => if j < c then row[j] else row[j] - Prod(p, f, pivot[j]))
  }

  lemma {:induction false} DotOfMinus(p: Prims, row: Row, f: real, pivot: Row, c: nat, z: Row, k: nat)
    requires Multiplies(p) && |row| == |pivot| == |z| && k <= |row|
    requires forall j | 0 <= j < c && j < |pivot| :: pivot[j] == 0.0
    ensures RowDot(p, RowMinus(p, row, f, pivot, c), z, k) == RowDot(p, row, z, k) - Prod(p, f, RowDot(p, pivot, z, k))
    decreases |row| - k
  {
    if k == |row| {
      TimesZero(p, f);
    } else {
      DotOfMinus(p, row, f, pivot, c, z, k + 1);
      var a, b, x, rest := row[k], pivot[k], z[k], RowDot(p, pivot, z, k + 1);
      LeftDistributes(p, f, Prod(p, b, x), rest);
      Associates(p, f, b, x);
      TimesZero(p, f);
      TimesZero(p, x);
      MinusDistributes(p, a, Prod(p, f, b), x);
    }
  }

  lemma {:induction false} MinusDistributes(p: Prims, a: real, b: real, x: real)
    requires Multiplies(p)
    ensures Prod(p, a - b, x) == Prod(p, a, x) - Prod(p, b, x)
  {
    RightDistributes(p, a - b, b, x);
  }

  lemma {:induction false} RowOpKeepsSolutions(p: Prims, M: Matrix, v: Row, r: nat, f: real, c: nat)
    requires Multiplies(p) && Square(M, |v|) && c < |v| && r < |v| && r != c
    requires forall j | 0 <= j < c :: M[c][j] == 0.0
    ensures Square(M[r := RowMinus(p, M[r], f, M[c], c)], |v|)
    ensures SameSolutions(p, M, v, M[r := RowMinus(p, M[r], f, M[c], c)], v[r := v[r] - Prod(p, f, v[c])])
  {
    var N, w := M[r := RowMinus(p, M[r], f, M[c], c)], v[r := v[r] - Prod(p, f, v[c])];
    forall z: Row | |z| == |v| ensures Solves(p, M, v, z) <==> Solves(p, N, w, z) {
      DotOfMinus(p, M[r], f, M[c], c, z, 0);
      if Solves(p, M, v, z) {
        forall k | 0 <= k < |N| ensures RowDot(p, N[k], z, 0) == w[k] {
          assert RowDot(p, M[k], z, 0) == v[k] && RowDot(p, M[c], z, 0) == v[c];
        }
      }
      if Solves(p, N, w, z) {
        forall k | 0 <= k < |M| ensures RowDot(p, M[k], z, 0) == v[k] {
          assert RowDot(p, N[k], z, 0) == w[k] && RowDot(p, N[c], z, 0) == w[c];
          assert N[c] == M[c];
        }
      }
    }
  }

  lemma {:induction false} SameSolutionsChain(p: Prims, M: Matrix, v: Row, N: Matrix, w: Row, Q: Matrix, u: Row)
    requires |v| == |w| == |u| && Square(M, |v|) && Square(N, |v|) && Square(Q, |v|)
    requires SameSolutions(p, M, v, N, w) && SameSolutions(p, N, w, Q, u)
    ensures SameSolutions(p, M, v, Q, u)
  {
    forall z: Row | |z| == |v| ensures Solves(p, M, v, z) <==> Solves(p, Q, u, z) {
      assert Solves(p, M, v, z) <==> Solves(p, N, w, z);
    }
  }

  // ---------------------------------------------------------------------------------------
  // Triangular systems
  // ---------------------------------------------------------------------------------------

  /** Leading zeros do not contribute. */
  lemma {:induction false} SkipZeros(p: Prims, row: Row, z: Row, k: nat, i: nat)
    requires Multiplies(p) && |row| == |z| && k <= i <= |row| && forall j | k <= j < i :: row[j] == 0.0
    ensures RowDot(p, row, z, k) == RowDot(p, row, z, i)
    decreases i - k
  {
    if k < i {
      TimesZero(p, z[k]);
      SkipZeros(p, row, z, k + 1, i);
    }
  }

  lemma {:induction false} DotIgnoresHead(p: Prims, row: Row, x: Row, z: Row, k: nat)
    requires |row| == |x| == |z| && k <= |row| && forall j | k <= j < |row| :: x[j] == z[j]
    ensures RowDot(p, row, x, k) == RowDot(p, row, z, k)
    decreases |row| - k
  {
    if k < |row| { DotIgnoresHead(p, row, x, z, k + 1); }
  }

  /** The tail of `x` from `i` on is what the triangular rows from `i` on demand. */
  ghost predicate TailSolved(p: Prims, M: Matrix, v: Row, x: Row, i: nat)
    requires Square(M, |v|) && |x| == |v| && i <= |v|
  {
    forall k {:trigger M[k]} | i <= k < |v| :: RowDot(p, M[k], x, k) == v[k]
  }

  lemma {:induction false} Cancels(p: Prims, d: real, a: real, b: real)
    requires Multiplies(p) && d != 0.0 && Prod(p, d, a) == Prod(p, d, b)
    ensures a == b
  {
    assert Multiplied(d, a) && Multiplied(d, b);
    CancelsReal(d, a, b);
  }

  lemma {:induction false} CancelsReal(d: real, a: real, b: real)
    requires d != 0.0 && d * a == d * b
    ensures a == b
  {
    assert d * (a - b) == 0.0;
  }

  /** A triangular system has one solution. */
  lemma {:induction false} TriangularIsUnique(p: Prims, M: Matrix, v: Row, x: Row, z: Row, i: nat)
    requires Multiplies(p) && Square(M, |v|) && |x| == |z| == |v| && i <= |v| && Upper(M, |v|, |v|)
    requires TailSolved(p, M, v, x, i) && Solves(p, M, v, z)
    ensures forall k | i <= k < |v| :: z[k] == x[k]
    decreases |v| - i
  {
    if i < |v| {
      TriangularIsUnique(p, M, v, x, z, i + 1);
      var row, d := M[i], M[i][i];
      assert RowDot(p, row, z, 0) == v[i] && RowDot(p, row, x, i) == v[i];
      SkipZeros(p, row, z, 0, i);
      DotIgnoresHead(p, row, x, z, i + 1);
      Cancels(p, d, x[i], z[i]);
    }
  }

  lemma {:induction false} TailSolvedIsSolved(p: Prims, M: Matrix, v: Row, x: Row)
    requires Multiplies(p) && Square(M, |v|) && |x| == |v| && Upper(M, |v|, |v|) && TailSolved(p, M, v, x, 0)
    ensures Solves(p, M, v, x)
  {
    forall i | 0 <= i < |M| ensures RowDot(p, M[i], x, 0) == v[i] {
      SkipZeros(p, M[i], x, 0, i);
    }
  }

  // ---------------------------------------------------------------------------------------
  // What elimination computes
  // ---------------------------------------------------------------------------------------

  datatype System = System(M: Matrix, v: Row)

  ghost predicate Sized(s: System, n: nat) {
    |s.v| == n && Square(s.M, n)
  }

  /** The row with the largest entry in column `c`, the first of them, from row `c` on and before row `r`. */
  ghost function PivotRow(M: Matrix, n: nat, c: nat, r: nat): (piv: nat)
    requires Square(M, n) && c < r <= n
    ensures c <= piv < r && forall q {:trigger M[q]} | c <= q < r :: RealAbs(M[q][c]) <= RealAbs(M[piv][c])
  {
    if r == c + 1 then c
    else
      var best := PivotRow(M, n, c, r - 1);
      if RealAbs(M[r - 1][c]) > RealAbs(M[best][c]) then r - 1 else best
  }

  /** Column `c`'s pivot is brought to the diagonal, unless all candidates are tiny. */
  ghost function Pivoted(s: System, n: nat, c: nat): (r: Option<System>)
    requires Sized(s, n) && c < n
    ensures r.Some? ==> Sized(r.value, n)
  {
    var piv := PivotRow(s.M, n, c, n);
    if RealAbs(s.M[piv][c]) <= TOLERANCE then None
    else Some(System(Swapped(s.M, c, piv), Swapped(s.v, c, piv)))
  }

  /** Row `r` less the multiple of row `c` that clears its column `c`. */
  ghost function RowCleared(p: Prims, s: System, n: nat, c: nat, r: nat): (t: System)
    requires Sized(s, n) && c < r < n
    ensures Sized(t, n) && t.M[c] == s.M[c]
  {
    var f := p.bin(Div, s.M[r][c], s.M[c][c]);
    System(s.M[r := RowMinus(p, s.M[r], f, s.M[c], c)], s.v[r := s.v[r] - Prod(p, f, s.v[c])])
  }

  /** Column `c` cleared between its pivot and row `r`. */
  ghost function ClearedTo(p: Prims, s: System, n: nat, c: nat, r: nat): (t: System)
    requires Sized(s, n) && c < r <= n
    ensures Sized(t, n) && t.M[c] == s.M[c]
    decreases r
  {
    if r == c + 1 then s else RowCleared(p, ClearedTo(p, s, n, c, r - 1), n, c, r - 1)
  }

  /** The system after `c` columns. */
  ghost function Eliminated(p: Prims, s: System, n: nat, c: nat): (r: Option<System>)
    requires Sized(s, n) && c <= n
    ensures r.Some? ==> Sized(r.value, n)
  {
    if c == 0 then Some(s) else NextColumn(p, Eliminated(p, s, n, c - 1), n, c - 1)
  }

  ghost function NextColumn(p: Prims, before: Option<System>, n: nat, c: nat): (r: Option<System>)
    requires (before.Some? ==> Sized(before.value, n)) && c < n
    ensures r.Some? ==> Sized(r.value, n)
  {
    if before.Some? then ColumnDone(p, before.value, n, c) else None
  }

  ghost function ColumnDone(p: Prims, s: System, n: nat, c: nat): (r: Option<System>)
    requires Sized(s, n) && c < n
    ensures r.Some? ==> Sized(r.value, n)
  {
    match Pivoted(s, n, c)
    case None => None
    case Some(pivoted) => Some(ClearedTo(p, pivoted, n, c, n))
  }

  /** The elements from `i` on, substituted backwards. */
  ghost function BackFrom(p: Prims, s: System, n: nat, i: nat): (x: Row)
    requires Sized(s, n) && i <= n
    ensures |x| == n && forall k | 0 <= k < i :: x[k] == s.v[k]
    decreases n - i
  {
    if i == n then s.v else Substituted(p, s, n, i, BackFrom(p, s, n, i + 1))
  }

  ghost function Substituted(p: Prims, s: System, n: nat, i: nat, y: Row): (x: Row)
    requires Sized(s, n) && i < n && |y| == n
    ensures |x| == n
  {
    y[i := p.bin(Div, y[i] - RowDot(p, s.M[i], y, i + 1), s.M[i][i])]
  }

  /** What the kernel returns: the solution, or nothing if some column has no pivot. */
  ghost function SolutionOf(p: Prims, s: System, n: nat): (x: Option<Row>)
    requires Sized(s, n)
    ensures x.Some? ==> |x.value| == n
  {
    match Eliminated(p, s, n, n)
    case None => None
    case Some(t) => Some(BackFrom(p, t, n, 0))
  }

  /** The system has been reduced up to column `c`, without changing its solutions. */
  ghost predicate Reduced(p: Prims, M0: Matrix, v0: Row, M: Matrix, v: Row, c: nat) {
    && |v| == |v0| && Square(M0, |v|) && Square(M, |v|) && c <= |v|
    && SameSolutions(p, M0, v0, M, v) && Upper(M, |v|, c)
  }

  /** ... and column `c` itself has its pivot, and zeros below it up to row `r`. */
  ghost predicate Clearing(p: Prims, M0: Matrix, v0: Row, M: Matrix, v: Row, c: nat, r: nat) {
    && Reduced(p, M0, v0, M, v, c) && c < r <= |v| && M[c][c] != 0.0
    && forall q {:trigger M[q][c]} | c < q < r :: M[q][c] == 0.0
  }

  lemma {:induction false} NotReducedYet(p: Prims, M: Matrix, v: Row)
    requires Square(M, |v|)
    ensures Reduced(p, M, v, M, v, 0)
  {
  }

  lemma {:induction false} SwapKeepsReduced(p: Prims, M0: Matrix, v0: Row, M: Matrix, v: Row, c: nat, piv: nat)
    requires Reduced(p, M0, v0, M, v, c) && c <= piv < |v|
    ensures Reduced(p, M0, v0, Swapped(M, c, piv), Swapped(v, c, piv), c)
  {
    var N := Swapped(M, c, piv);
    SwapKeepsSolutions(p, M, v, c, piv);
    SameSolutionsChain(p, M0, v0, M, v, N, Swapped(v, c, piv));
    forall j | 0 <= j < c ensures N[j][j] != 0.0 {
      assert M[j][j] != 0.0 && N[j] == M[j];
    }
    forall i, j | 0 <= j < c && j < i < |v| ensures N[i][j] == 0.0 {
      assert M[i][j] == 0.0 && M[c][j] == 0.0 && M[piv][j] == 0.0;
    }
  }

  lemma {:induction false} SwapWithItself(M: Matrix, v: Row, c: nat)
    requires c < |v| == |M|
    ensures Swapped(M, c, c) == M && Swapped(v, c, c) == v
  {
  }

  lemma {:induction false} ClearOne(p: Prims, M0: Matrix, v0: Row, M: Matrix, v: Row, c: nat, r: nat, f: real)
    requires Multiplies(p) && Clearing(p, M0, v0, M, v, c, r) && r < |v|
    requires RowMinus(p, M[r], f, M[c], c)[c] == 0.0
    ensures Clearing(p, M0, v0, M[r := RowMinus(p, M[r], f, M[c], c)], v[r := v[r] - Prod(p, f, v[c])], c, r + 1)
  {
    var N := M[r := RowMinus(p, M[r], f, M[c], c)];
    var w := v[r := v[r] - Prod(p, f, v[c])];
    forall j | 0 <= j < c ensures M[c][j] == 0.0 {
    }
    RowOpKeepsSolutions(p, M, v, r, f, c);
    SameSolutionsChain(p, M0, v0, M, v, N, w);
    forall j | 0 <= j < c ensures N[j][j] != 0.0 {
      assert N[j] == M[j] && M[j][j] != 0.0;
    }
    forall i, j | 0 <= j < c && j < i < |v| ensures N[i][j] == 0.0 {
      assert M[i][j] == 0.0;
    }
    forall q | c < q < r + 1 ensures N[q][c] == 0.0 {
      if q < r { assert M[q][c] == 0.0; }
    }
    assert N[c] == M[c];
  }

  lemma {:induction false} Cleared(p: Prims, M0: Matrix, v0: Row, M: Matrix, v: Row, c: nat)
    requires Clearing(p, M0, v0, M, v, c, |v|)
    ensures Reduced(p, M0, v0, M, v, c + 1)
  {
    forall i, j | 0 <= j < c + 1 && j < i < |v| ensures M[i][j] == 0.0 {
    }
    forall j | 0 <= j < c + 1 ensures M[j][j] != 0.0 {
    }
  }

  /** Every entry of column `c` from row `c` down is within the tolerance. */
  ghost predicate NoPivot(M: Matrix, n: nat, c: nat)
    requires Square(M, n) && c < n
  {
    forall r {:trigger M[r][c]} | c <= r < n :: RealAbs(M[r][c]) <= TOLERANCE
  }

  lemma {:induction false} PivotKeepsReduced(p: Prims, M0: Matrix, v0: Row, s: System, n: nat, c: nat)
    requires Sized(s, n) && c < n && Reduced(p, M0, v0, s.M, s.v, c)
    ensures Pivoted(s, n, c).None? ==> NoPivot(s.M, n, c)
    ensures Pivoted(s, n, c).Some? ==>
              var t := Pivoted(s, n, c).value; Clearing(p, M0, v0, t.M, t.v, c, c + 1)
  {
    var piv := PivotRow(s.M, n, c, n);
    SwapKeepsReduced(p, M0, v0, s.M, s.v, c, piv);
  }

  lemma {:induction false} ClearingClears(p: Prims, M0: Matrix, v0: Row, s: System, n: nat, c: nat, r: nat)
    requires ExactField(p) && Sized(s, n) && c < r <= n && Clearing(p, M0, v0, s.M, s.v, c, c + 1)
    ensures var t := ClearedTo(p, s, n, c, r); Clearing(p, M0, v0, t.M, t.v, c, r)
    decreases r
  {
    if r > c + 1 {
      ClearingClears(p, M0, v0, s, n, c, r - 1);
      var t := ClearedTo(p, s, n, c, r - 1);
      var f := p.bin(Div, t.M[r - 1][c], t.M[c][c]);
      assert Prod(p, f, t.M[c][c]) == t.M[r - 1][c];
      ClearOne(p, M0, v0, t.M, t.v, c, r - 1, f);
    }
  }

  lemma {:induction false} EliminationReduces(p: Prims, s: System, n: nat, c: nat)
    requires ExactField(p) && Sized(s, n) && c <= n
    ensures var t := Eliminated(p, s, n, c); t.Some? ==> Reduced(p, s.M, s.v, t.value.M, t.value.v, c)
    decreases c
  {
    if c == 0 {
      NotReducedYet(p, s.M, s.v);
    } else {
      EliminationReduces(p, s, n, c - 1);
      var t := Eliminated(p, s, n, c - 1);
      if t.Some? { ColumnReduces(p, s.M, s.v, t.value, n, c - 1); }
    }
  }

  lemma {:induction false} ColumnReduces(p: Prims, M0: Matrix, v0: Row, s: System, n: nat, c: nat)
    requires ExactField(p) && Sized(s, n) && c < n && Reduced(p, M0, v0, s.M, s.v, c)
    ensures var t := ColumnDone(p, s, n, c);
            if t.None? then NoPivot(s.M, n, c) else Reduced(p, M0, v0, t.value.M, t.value.v, c + 1)
  {
    PivotKeepsReduced(p, M0, v0, s, n, c);
    var pivoted := Pivoted(s, n, c);
    if pivoted.Some? {
      ClearingClears(p, M0, v0, pivoted.value, n, c, n);
      var t := ClearedTo(p, pivoted.value, n, c, n);
      Cleared(p, M0, v0, t.M, t.v, c);
    }
  }

  lemma {:induction false} QuotientSolves(p: Prims, d: real, acc: real)
    requires ExactField(p) && d != 0.0
    ensures Prod(p, d, p.bin(Div, acc, d)) == acc
  {
    Commutes(p, d, p.bin(Div, acc, d));
  }

  lemma {:induction false} TailGrows(p: Prims, M: Matrix, v: Row, x: Row, y: Row, i: nat)
    requires Square(M, |v|) && |x| == |y| == |v| && i < |v| && TailSolved(p, M, v, x, i + 1)
    requires (forall k | 0 <= k < |v| && k != i :: y[k] == x[k]) && RowDot(p, M[i], y, i) == v[i]
    ensures TailSolved(p, M, v, y, i)
  {
    forall k | i <= k < |v| ensures RowDot(p, M[k], y, k) == v[k] {
      if k > i {
        assert RowDot(p, M[k], x, k) == v[k];
        DotIgnoresHead(p, M[k], x, y, k);
      }
    }
  }

  lemma {:induction false} SubstitutionSolves(p: Prims, s: System, n: nat, i: nat)
    requires ExactField(p) && Sized(s, n) && i <= n && Upper(s.M, n, n)
    ensures TailSolved(p, s.M, s.v, BackFrom(p, s, n, i), i)
    decreases n - i
  {
    if i < n {
      SubstitutionSolves(p, s, n, i + 1);
      var y := BackFrom(p, s, n, i + 1);
      var x := Substituted(p, s, n, i, y);
      assert s.M[i][i] != 0.0;
      QuotientSolves(p, s.M[i][i], y[i] - RowDot(p, s.M[i], y, i + 1));
      DotIgnoresHead(p, s.M[i], y, x, i + 1);
      TailGrows(p, s.M, s.v, y, x, i);
    }
  }

  lemma {:induction false} TriangularSolved(p: Prims, M0: Matrix, v0: Row, M: Matrix, v: Row, x: Row)
    requires Multiplies(p) && |x| == |v| && Reduced(p, M0, v0, M, v, |v|) && TailSolved(p, M, v, x, 0)
    ensures forall z: Row {:trigger Solves(p, M0, v0, z)} | |z| == |v| :: Solves(p, M0, v0, z) <==> z == x
  {
    TailSolvedIsSolved(p, M, v, x);
    forall z: Row | |z| == |v| ensures Solves(p, M0, v0, z) <==> z == x {
      assert Solves(p, M0, v0, z) <==> Solves(p, M, v, z);
      if Solves(p, M, v, z) { TriangularIsUnique(p, M, v, x, z, 0); }
    }
  }

  /** What the kernel returns is the one and only solution; if it returns none, some equivalent, partly reduced
      system has a column without a pivot. */
  lemma {:induction false} SolutionIsExact(p: Prims, s: System, n: nat)
    requires ExactField(p) && Sized(s, n)
    ensures SolutionOf(p, s, n).Some? ==>
              forall z: Row {:trigger Solves(p, s.M, s.v, z)} | |z| == n ::
                Solves(p, s.M, s.v, z) <==> z == SolutionOf(p, s, n).value
    ensures SolutionOf(p, s, n).None? ==>
              exists M: Matrix, v: Row, c: nat :: c < n && Reduced(p, s.M, s.v, M, v, c) && NoPivot(M, n, c)
  {
    var t := Eliminated(p, s, n, n);
    if t.Some? {
      EliminationReduces(p, s, n, n);
      SubstitutionSolves(p, t.value, n, 0);
      TriangularSolved(p, s.M, s.v, t.value.M, t.value.v, BackFrom(p, t.value, n, 0));
    } else {
      var c := StuckAt(p, s, n, n);
    }
  }

  /** The column at which elimination stops. */
  lemma {:induction false} StuckAt(p: Prims, s: System, n: nat, m: nat) returns (c: nat)
    requires ExactField(p) && Sized(s, n) && m <= n && Eliminated(p, s, n, m).None?
    ensures c < m && Eliminated(p, s, n, c).Some? && ColumnDone(p, Eliminated(p, s, n, c).value, n, c).None?
    ensures var t := Eliminated(p, s, n, c).value; Reduced(p, s.M, s.v, t.M, t.v, c) && NoPivot(t.M, n, c)
    decreases m
  {
    if Eliminated(p, s, n, m - 1).None? {
      c := StuckAt(p, s, n, m - 1);
    } else {
      c := m - 1;
      EliminationReduces(p, s, n, c);
      ColumnReduces(p, s.M, s.v, Eliminated(p, s, n, c).value, n, c);
    }
  }

  /** The next column of a system that got as far as this one: without a pivot the kernel returns nothing. */
  lemma {:induction false} ColumnStands(p: Prims, s: System, n: nat, c: nat, t: System)
    requires ExactField(p) && Sized(s, n) && c < n && Eliminated(p, s, n, c) == Some(t)
    ensures Eliminated(p, s, n, c + 1) == ColumnDone(p, t, n, c) && Reduced(p, s.M, s.v, t.M, t.v, c)
    ensures Pivoted(t, n, c).None? ==> NoPivot(t.M, n, c) && SolutionOf(p, s, n).None?
  {
    EliminationReduces(p, s, n, c);
    ColumnReduces(p, s.M, s.v, t, n, c);
    if Pivoted(t, n, c).None? { StuckStays(p, s, n, c + 1, n); }
  }

  /** Once stuck, always stuck. */
  lemma {:induction false} StuckStays(p: Prims, s: System, n: nat, c: nat, m: nat)
    requires Sized(s, n) && c <= m <= n && Eliminated(p, s, n, c).None?
    ensures Eliminated(p, s, n, m).None?
    decreases m
  {
    if c < m { StuckStays(p, s, n, c, m - 1); }
  }

  // ---------------------------------------------------------------------------------------
  // The kernel
  // ---------------------------------------------------------------------------------------

  ghost function RowOf(A: array2<real>, i: nat): (r: Row)
    requires i < A.Length0
    reads A
    ensures |r| == A.Length1 && forall j | 0 <= j < A.Length1 :: r[j] == A[i, j]
  {
    seq(A.Length1, j requires 0 <= j < A.Length1 reads A => A[i, j])
  }

  ghost function Rows(A: array2<real>): (M: Matrix)
    reads A
    ensures |M| == A.Length0 && forall i {:trigger M[i]} | 0 <= i < A.Length0 :: M[i] == RowOf(A, i)
  {
    seq(A.Length0, i requires 0 <= i < A.Length0 reads A => RowOf(A, i))
  }

  /** The system that the arrays hold. */
  ghost function Held(A: array2<real>, b: array<real>): (s: System)
    requires A.Length0 == A.Length1 == b.Length
    reads A, b
    ensures Sized(s, b.Length)
  {
    System(Rows(A), b[..])
  }

  method FindPivot(A: array2<real>, c: nat) returns (piv: nat, best: real)
    requires c < A.Length0 == A.Length1
    ensures piv == PivotRow(Rows(A), A.Length0, c, A.Length0) && best == RealAbs(A[piv, c])
  {
    piv, best := c, RealAbs(A[c, c]);
    for r := c + 1 to A.Length0
      invariant piv == PivotRow(Rows(A), A.Length0, c, r) && best == RealAbs(A[piv, c])
    {
      var v := RealAbs(A[r, c]);
      if v > best {
        best, piv := v, r;
      }
    }
  }

  method SwapRows(A: array2<real>, b: array<real>, c: nat, piv: nat)
    requires c < A.Length0 == A.Length1 == b.Length && piv < b.Length && c != piv
    modifies A, b
    ensures Rows(A) == Swapped(old(Rows(A)), c, piv) && b[..] == Swapped(old(b[..]), c, piv)
  {
    var n := A.Length0;
    for j := 0 to n
      invariant forall i, k | 0 <= i < n && 0 <= k < n ::
        A[i, k] == if k >= j || (i != c && i != piv) then old(A[i, k])
                   else if i == c then old(A[piv, k])
                   else old(A[c, k])
      invariant b[..] == old(b[..])
    {
      var t := A[c, j];
      A[c, j] := A[piv, j];
      A[piv, j] := t;
    }
    var t := b[c];
    b[c] := b[piv];
    b[piv] := t;
    ghost var M, N := old(Rows(A)), Rows(A);
    forall i | 0 <= i < n ensures N[i] == Swapped(M, c, piv)[i] {
      forall k | 0 <= k < n ensures N[i][k] == Swapped(M, c, piv)[i][k] {
        assert M[i] == old(RowOf(A, i)) && M[c] == old(RowOf(A, c)) && M[piv] == old(RowOf(A, piv));
      }
    }
  }

  /** Clears column `c` of row `r` with the pivot row `c`. */
  method EliminateRow(p: Prims, A: array2<real>, b: array<real>, c: nat, r: nat)
    requires ExactField(p) && c < r < A.Length0 == A.Length1 == b.Length
    requires A[c, c] != 0.0
    modifies A, b
    ensures Held(A, b) == RowCleared(p, old(Held(A, b)), b.Length, c, r)
  {
    var n := A.Length0;
    var g := p.bin(Div, A[r, c], A[c, c]);
    ghost var M := Rows(A);
    if g == 0.0 {
      SkippedRow(p, M[r], M[c], c, b[r], b[c]);
      assert M == M[r := RowMinus(p, M[r], g, M[c], c)];
      assert b[..] == old(b[..])[r := old(b[r]) - Prod(p, g, old(b[c]))];
      return;
    }
    for j := c to n
      invariant forall i, k | 0 <= i < n && 0 <= k < n ::
        A[i, k] == if i == r && c <= k < j then old(A[r, k]) - Prod(p, g, old(A[c, k])) else old(A[i, k])
      invariant b[..] == old(b[..])
    {
      A[r, j] := p.bin(Sub, A[r, j], p.bin(BinOp.Mul, g, A[c, j]));
    }
    b[r] := p.bin(Sub, b[r], p.bin(BinOp.Mul, g, b[c]));
    ghost var N := Rows(A);
    forall i | 0 <= i < n ensures N[i] == M[r := RowMinus(p, M[r], g, M[c], c)][i] {
      assert M[i] == old(RowOf(A, i)) && M[c] == old(RowOf(A, c)) && M[r] == old(RowOf(A, r));
    }
  }

  lemma {:induction false} SkippedRow(p: Prims, row: Row, pivot: Row, c: nat, y: real, x: real)
    requires Multiplies(p) && |row| == |pivot|
    ensures RowMinus(p, row, 0.0, pivot, c) == row && y - Prod(p, 0.0, x) == y
  {
    TimesZero(p, x);
    forall j | 0 <= j < |row| ensures RowMinus(p, row, 0.0, pivot, c)[j] == row[j] {
      TimesZero(p, pivot[j]);
    }
  }

  /** Clears column `c` below the pivot. */
  method EliminateColumn(p: Prims, A: array2<real>, b: array<real>, c: nat)
    requires ExactField(p) && c < A.Length0 == A.Length1 == b.Length && A[c, c] != 0.0
    modifies A, b
    ensures Held(A, b) == ClearedTo(p, old(Held(A, b)), b.Length, c, b.Length)
  {
    for r := c + 1 to A.Length0
      invariant Held(A, b) == ClearedTo(p, old(Held(A, b)), b.Length, c, r)
    {
      assert Held(A, b).M[c] == old(Held(A, b).M[c]);
      assert A[c, c] == old(A[c, c]);
      EliminateRow(p, A, b, c, r);
    }
  }

  /** Picks the pivot of column `c` and brings it to the diagonal, unless all candidates are tiny. */
  method Pivot(A: array2<real>, b: array<real>, c: nat) returns (ok: bool)
    requires c < A.Length0 == A.Length1 == b.Length
    modifies A, b
    ensures ok <==> Pivoted(old(Held(A, b)), b.Length, c).Some?
    ensures Held(A, b) == if ok then Pivoted(old(Held(A, b)), b.Length, c).value else old(Held(A, b))
    ensures ok ==> A[c, c] != 0.0
  {
    var piv, best := FindPivot(A, c);
    ghost var M, v := Rows(A), b[..];
    assert M[piv][c] == A[piv, c];
    if best <= TOLERANCE {
      return false;
    }
    if piv != c {
      SwapRows(A, b, c, piv);
    } else {
      SwapWithItself(M, v, c);
    }
    assert Rows(A)[c][c] == M[piv][c];
    ok := true;
  }

  method BackSubstituteRow(p: Prims, A: array2<real>, b: array<real>, i: nat)
    requires ExactField(p) && i < A.Length0 == A.Length1 == b.Length && A[i, i] != 0.0
    modifies b
    ensures b[..] == Substituted(p, old(Held(A, b)), b.Length, i, old(b[..]))
  {
    var acc := b[i];
    ghost var row, x := RowOf(A, i), b[..];
    for j := i + 1 to b.Length
      invariant b[..] == x && row == RowOf(A, i)
      invariant acc == x[i] - (RowDot(p, row, x, i + 1) - RowDot(p, row, x, j))
    {
      acc := p.bin(Sub, acc, p.bin(BinOp.Mul, A[i, j], b[j]));
    }
    assert RowDot(p, row, x, b.Length) == 0.0;
    b[i] := p.bin(Div, acc, A[i, i]);
  }

  method BackSubstitute(p: Prims, A: array2<real>, b: array<real>)
    requires ExactField(p) && A.Length0 == A.Length1 == b.Length && Upper(Rows(A), b.Length, b.Length)
    modifies b
    ensures b[..] == BackFrom(p, old(Held(A, b)), b.Length, 0)
  {
    ghost var s := Held(A, b);
    var i: nat := b.Length;
    while i > 0
      invariant i <= b.Length && s.M == Rows(A)
      invariant b[..] == BackFrom(p, s, b.Length, i)
    {
      i := i - 1;
      assert s.M[i][i] == A[i, i];
      BackSubstituteRow(p, A, b, i);
    }
  }

  /** Solves `A z = b` in place. On success `b` holds the one and only solution of the system that was passed in; on
      failure some equivalent, partly reduced system has a column without a pivot. */
  method Solve(p: Prims, A: array2<real>, b: array<real>) returns (singular: bool)
    requires ExactField(p) && A.Length0 == A.Length1 == b.Length
    modifies A, b
    ensures singular <==> SolutionOf(p, old(Held(A, b)), b.Length).None?
    ensures !singular ==> b[..] == SolutionOf(p, old(Held(A, b)), b.Length).value
    ensures !singular ==> forall z: Row {:trigger Solves(p, old(Rows(A)), old(b[..]), z)} | |z| == b.Length ::
              Solves(p, old(Rows(A)), old(b[..]), z) <==> z == b[..]
    ensures singular ==>
              (exists c: nat :: c < b.Length
                && Reduced(p, old(Rows(A)), old(b[..]), Rows(A), b[..], c) && NoPivot(Rows(A), b.Length, c))
  {
    ghost var s, n := Held(A, b), b.Length;
    SolutionIsExact(p, s, n);
    for c := 0 to b.Length
      invariant Eliminated(p, s, n, c) == Some(Held(A, b))
    {
      ColumnStands(p, s, n, c, Held(A, b));
      var ok := Pivot(A, b, c);
      if !ok {
        return true;
      }
      EliminateColumn(p, A, b, c);
    }
    EliminationReduces(p, s, n, n);
    BackSubstitute(p, A, b);
    singular := false;
  }
}

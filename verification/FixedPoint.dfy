/** The Q-format backend: int32 arithmetic with explicit scaling (the fixed-point arms of `CTarget` in
    `src/codegen/mod.rs`) and the integer stage kernel (`stage_loop` in `src/codegen/solver.rs`).
    Values are raw integers; one tick is `2^-frac`. */
module FixedPoint {
  import opened Ir

  const TWO_31: int := 0x8000_0000
  const TWO_32: int := 0x1_0000_0000

  predicate InRange(x: int) { -TWO_31 <= x < TWO_31 }

  /** The truncating cast to int32. */
  function Wrap(x: int): (r: int)
    ensures InRange(r) && (r == x <==> InRange(x))
  {
    (x + TWO_31) % TWO_32 - TWO_31
  }

  function Pow2(n: nat): (r: int)
    ensures r >= 1
  {
    if n == 0 then 1 else 2 * Pow2(n - 1)
  }

  /** `x >> frac`: rounds towards minus infinity. */
  function Shr(x: int, frac: nat): int { x / Pow2(frac) }

  lemma {:induction false} ShrBounds(x: int, frac: nat)
    ensures 0 <= x - Pow2(frac) * Shr(x, frac) < Pow2(frac)
  {
    DivBounds(x, Pow2(frac));
  }

  lemma {:induction false} DivBounds(x: int, s: int)
    requires s > 0
    ensures 0 <= x - s * (x / s) < s
  {
    assert x == s * (x / s) + x % s;
  }

  lemma {:induction false} Distributes(s: int, a: int, b: int)
    ensures s * (a + b) == s * a + s * b
  {
  }

  /** C's division truncates towards zero. */
  function TruncDiv(a: int, b: int): int
    requires b != 0
  {
    if a >= 0 then a / b else -((-a) / b)
  }

  function TruncMod(a: int, b: int): int
    requires b != 0
  {
    a - TruncDiv(a, b) * b
  }

  // ---------------------------------------------------------------------------------------
  // The operators
  // ---------------------------------------------------------------------------------------

  datatype QBin = QAdd | QSub | QMul | QDiv | QMod | QMin | QMax

  /** `binary`, fixed-point arm. */
  function Binary(op: QBin, frac: nat, a: int, b: int): int
    requires (op == QDiv || op == QMod) ==> b != 0
  {
    match op
    case QAdd => Wrap(a + b)
    case QSub => Wrap(a - b)
    case QMul => Wrap(Shr(a * b, frac))
    case QDiv => Wrap(TruncDiv(a * Pow2(frac), b))
    case QMod => Wrap(TruncMod(a, b))
    case QMin => if a < b then a else b
    case QMax => if a > b then a else b
  }

  /** `fma`, fixed-point arm. */
  function Fma(frac: nat, a: int, b: int, c: int): int { Wrap(Shr(a * b, frac) + c) }

  /** Without wrap a product is at most one tick below the exact one. */
  lemma {:induction false} ProductBound(frac: nat, a: int, b: int)
    requires InRange(Shr(a * b, frac))
    ensures 0 <= a * b - Pow2(frac) * Binary(QMul, frac, a, b) < Pow2(frac)
  {
    ShrBounds(a * b, frac);
  }

  lemma {:induction false} EuclidBounds(a: int, b: int)
    requires a >= 0 && b != 0
    ensures 0 <= a - (a / b) * b < (if b > 0 then b else -b)
  {
    assert a == (a / b) * b + a % b;
  }

  /** A quotient errs by less than one tick, towards zero: the remainder keeps the dividend's sign. */
  lemma {:induction false} QuotientBound(frac: nat, a: int, b: int)
    requires b != 0 && InRange(TruncDiv(a * Pow2(frac), b))
    ensures var rest := a * Pow2(frac) - Binary(QDiv, frac, a, b) * b;
            && (a >= 0 ==> 0 <= rest < (if b > 0 then b else -b))
            && (a < 0 ==> 0 <= -rest < (if b > 0 then b else -b))
  {
    var n := a * Pow2(frac);
    SignOfProduct(a, Pow2(frac));
    if a >= 0 {
      EuclidBounds(n, b);
    } else {
      EuclidBounds(-n, b);
      NegatedProduct((-n) / b, b);
    }
  }

  lemma {:induction false} SignOfProduct(a: int, s: int)
    requires s > 0
    ensures a >= 0 ==> a * s >= 0
    ensures a < 0 ==> a * s < 0
  {
  }

  lemma {:induction false} NegatedProduct(q: int, b: int)
    ensures (-q) * b == -(q * b)
  {
  }

  lemma {:induction false} WrapIsModular(x: int, y: int)
    requires InRange(y) && (x - y) % TWO_32 == 0
    ensures Wrap(x) == y
  {
    assert (x + TWO_31) % TWO_32 == (y + TWO_31 + (x - y)) % TWO_32;
  }

  lemma {:induction false} WrapDiffersByWords(x: int)
    ensures (Wrap(x) - x) % TWO_32 == 0
  {
    var k := (x + TWO_31) / TWO_32;
    assert x + TWO_31 == k * TWO_32 + (x + TWO_31) % TWO_32;
    assert Wrap(x) - x == (-k) * TWO_32;
  }

  /** Sums and differences are exact where they fit, and undo each other where they wrap. */
  lemma {:induction false} SumsAndDifferences(frac: nat, a: int, b: int)
    requires InRange(a) && InRange(b)
    ensures InRange(a + b) ==> Binary(QAdd, frac, a, b) == a + b
    ensures InRange(a - b) ==> Binary(QSub, frac, a, b) == a - b
    ensures Binary(QSub, frac, Binary(QAdd, frac, a, b), b) == a
    ensures Binary(QAdd, frac, Binary(QSub, frac, a, b), b) == a
  {
    WrapDiffersByWords(a + b);
    WrapDiffersByWords(a - b);
    WrapIsModular(Wrap(a + b) - b, a);
    WrapIsModular(Wrap(a - b) + b, a);
  }

  /** A remainder is what a multiple of the divisor leaves, smaller than the divisor and on the dividend's side. */
  lemma {:induction false} RemainderBound(frac: nat, a: int, b: int) returns (q: int)
    requires b != 0 && InRange(a) && InRange(b)
    ensures var r := Binary(QMod, frac, a, b);
            && a == q * b + r
            && (a >= 0 ==> 0 <= r < (if b > 0 then b else -b))
            && (a < 0 ==> 0 <= -r < (if b > 0 then b else -b))
  {
    q := TruncDiv(a, b);
    if a >= 0 {
      EuclidBounds(a, b);
    } else {
      EuclidBounds(-a, b);
      NegatedProduct((-a) / b, b);
    }
  }

  lemma {:induction false} LesserAndGreater(frac: nat, a: int, b: int)
    ensures var r := Binary(QMin, frac, a, b); r <= a && r <= b && (r == a || r == b)
    ensures var r := Binary(QMax, frac, a, b); r >= a && r >= b && (r == a || r == b)
  {
  }

  /** Without wrap a fused product and sum is at most one tick below the exact one. */
  lemma {:induction false} FmaBound(frac: nat, a: int, b: int, c: int)
    requires InRange(Shr(a * b, frac) + c)
    ensures 0 <= a * b - Pow2(frac) * (Fma(frac, a, b, c) - c) < Pow2(frac)
  {
    ShrBounds(a * b, frac);
    assert Fma(frac, a, b, c) - c == Shr(a * b, frac);
  }

  // ---------------------------------------------------------------------------------------
  // Rounding by masks
  // ---------------------------------------------------------------------------------------

  /** `x & ~(2^frac - 1)` on two's complement. */
  function ClearFraction(x: int, frac: nat): int { Pow2(frac) * Shr(x, frac) }

  datatype QUn = QNeg | QAbs | QSign | QFloor | QCeil | QRound | QTrunc

  /** What a rounding operator gives before the cast to int32. */
  function Unwrapped(op: QUn, frac: nat, a: int): int
    requires frac > 0
  {
    match op
    case QFloor => ClearFraction(a, frac)
    case QCeil => ClearFraction(a + (Pow2(frac) - 1), frac)
    case QRound => if a < 0 then -ClearFraction(-a + Pow2(frac - 1), frac) else ClearFraction(a + Pow2(frac - 1), frac)
    case QTrunc => if a < 0 then -ClearFraction(-a, frac) else ClearFraction(a, frac)
    case _ => a
  }

  /** `unary`, fixed-point arm.  Negation and absolute value are not cast, so they are exact
      wherever C defines them, that is, except at the lowest int32. */
  function Unary(op: QUn, frac: nat, a: int): int
    requires frac > 0
  {
    match op
    case QNeg => -a
    case QAbs => if a < 0 then -a else a
    case QSign => if a > 0 then Pow2(frac) else if a < 0 then -Pow2(frac) else a
    case _ => Wrap(Unwrapped(op, frac, a))
  }

  /** A number and its negative cancel; a magnitude is one of them and not negative; a number is its magnitude times
      its sign, which is one, minus one or zero in the format. */
  lemma {:induction false} SignsAndMagnitudes(frac: nat, a: int)
    requires frac > 0
    ensures a + Unary(QNeg, frac, a) == 0
    ensures Unary(QAbs, frac, a) >= 0 && (Unary(QAbs, frac, a) == a || Unary(QAbs, frac, a) == -a)
    ensures Unary(QSign, frac, a) * Unary(QAbs, frac, a) == Pow2(frac) * a
  {
    if a < 0 { SignFlips(Pow2(frac), a); }
  }

  lemma {:induction false} SignFlips(s: int, a: int)
    ensures (-s) * (-a) == s * a
  {
  }

  /** A whole number in Q format. */
  predicate IsWhole(x: int, frac: nat) { x % Pow2(frac) == 0 }

  lemma {:induction false} ClearedIsWhole(x: int, frac: nat)
    ensures IsWhole(ClearFraction(x, frac), frac) && IsWhole(-ClearFraction(x, frac), frac)
    ensures x - Pow2(frac) < ClearFraction(x, frac) <= x
  {
    ShrBounds(x, frac);
    MultipleIsWhole(Pow2(frac), Shr(x, frac));
  }

  lemma {:induction false} MultipleIsWhole(s: int, q: int)
    requires s > 0
    ensures (s * q) % s == 0 && (-(s * q)) % s == 0
  {
    DivBounds(s * q, s);
    DivBounds(-(s * q), s);
    Exact(s, q);
    Exact(s, -q);
    assert -(s * q) == s * (-q);
  }

  lemma {:induction false} Exact(s: int, q: int)
    requires s > 0
    ensures (s * q) % s == 0
  {
    var r := (s * q) % s;
    assert s * q == s * ((s * q) / s) + r;
    SmallMultiple(s, q - (s * q) / s, r);
  }

  lemma {:induction false} MultipleIsFar(s: int, k: int)
    requires s > 0
    ensures k >= 1 ==> s * k >= s
    ensures k <= -1 ==> s * k <= -s
  {
  }

  lemma {:induction false} SmallMultiple(s: int, k: int, r: int)
    requires s > 0 && 0 <= r < s && s * k == r
    ensures r == 0
  {
    MultipleIsFar(s, k);
  }

  lemma {:induction false} HalfOfPow2(frac: nat)
    requires frac > 0
    ensures Pow2(frac) == 2 * Pow2(frac - 1)
  {
  }

  lemma {:induction false} PowersMultiply(m: nat, n: nat)
    ensures Pow2(m) * Pow2(n) == Pow2(m + n)
  {
    if m > 0 { PowersMultiply(m - 1, n); }
  }

  lemma {:induction false} ByteIs256()
    ensures Pow2(8) == 256 && Pow2(7) == 128
  {
    assert Pow2(4) == 16;
  }

  lemma {:induction false} WordIsPow2()
    ensures Pow2(31) == TWO_31
  {
    PowersMultiply(8, 8);
    PowersMultiply(16, 8);
    PowersMultiply(24, 7);
    ByteIs256();
  }

  lemma {:induction false} WordIsWhole(frac: nat)
    requires frac <= 31
    ensures Pow2(frac) * Pow2(31 - frac) == TWO_31
  {
    PowersMultiply(frac, 31 - frac);
    WordIsPow2();
  }

  lemma {:induction false} WholeBelow(s: int, q: int, k: int)
    requires s > 0
    ensures s * q < s * k ==> s * q <= s * k - s
    ensures s * q > -(s * k) - s ==> s * q >= -(s * k)
  {
    MultipleIsFar(s, k - q);
    MultipleIsFar(s, q + k);
    assert s * (k - q) == s * k - s * q && s * (q + k) == s * q + s * k;
  }

  /** Clearing the fraction of a number keeps it on its side of the ends of int32. */
  lemma {:induction false} ClearedAtTheEnds(x: int, frac: nat)
    requires frac <= 31
    ensures x < TWO_31 ==> ClearFraction(x, frac) <= TWO_31 - Pow2(frac)
    ensures x >= TWO_31 ==> ClearFraction(x, frac) >= TWO_31
    ensures x >= -TWO_31 ==> ClearFraction(x, frac) >= -TWO_31
    ensures x < TWO_31 + Pow2(frac) ==> ClearFraction(x, frac) <= TWO_31
  {
    WordIsWhole(frac);
    ShrBounds(x, frac);
    MultipleAtTheEnds(Pow2(frac), Shr(x, frac), Pow2(31 - frac), x);
  }

  lemma {:induction false} MultipleAtTheEnds(s: int, q: int, k: int, x: int)
    requires s > 0 && s * q <= x < s * q + s
    ensures x < s * k ==> s * q <= s * k - s
    ensures x >= s * k ==> s * q >= s * k
    ensures x >= -(s * k) ==> s * q >= -(s * k)
    ensures x < s * k + s ==> s * q <= s * k
  {
    WholeBelow(s, q, k);
    WholeBelow(s, q, k + 1);
    WholeBelow(s, q, k - 1);
    assert s * (k + 1) == s * k + s && s * (k - 1) == s * k - s;
  }

  /** `r` is the whole number that the operator should give. */
  ghost predicate Rounds(op: QUn, frac: nat, a: int, r: int) {
    && IsWhole(r, frac)
    && (op == QFloor ==> r <= a < r + Pow2(frac))
    && (op == QCeil ==> r - Pow2(frac) < a <= r)
    && (op == QTrunc ==> if a >= 0 then r <= a < r + Pow2(frac) else r - Pow2(frac) < a <= r)
    && (op == QRound ==> if a >= 0 then 2 * r - Pow2(frac) <= 2 * a < 2 * r + Pow2(frac)
                         else 2 * r - Pow2(frac) < 2 * a <= 2 * r + Pow2(frac))
  }

  /** Whether that number is an int32: always for floor and truncation; not for the last unit below the top with
      ceiling, and not for the last half unit with rounding. */
  predicate Rounded(op: QUn, frac: nat, a: int)
    requires frac > 0
  {
    match op
    case QCeil => a <= TWO_31 - Pow2(frac)
    case QRound => a < TWO_31 - Pow2(frac - 1)
    case _ => true
  }

  lemma {:induction false} WrapSettles(op: QUn, frac: nat, a: int, c: int)
    requires Rounds(op, frac, a, c) && 0 < frac <= 30 && InRange(a) && -TWO_31 <= c <= TWO_31
    requires op == QFloor || op == QCeil || op == QRound || op == QTrunc
    ensures Rounds(op, frac, a, Wrap(c)) <==> c < TWO_31
  {
    if c == TWO_31 {
      assert Wrap(c) == -TWO_31;
      UnitFits(frac);
    }
  }

  lemma {:induction false} UnitFits(frac: nat)
    requires frac <= 30
    ensures Pow2(frac) < TWO_31
  {
    PowersGrow(frac, 30);
    WordIsPow2();
    assert Pow2(31) == 2 * Pow2(30);
  }

  lemma {:induction false} PowersGrow(m: nat, n: nat)
    requires m <= n
    ensures Pow2(m) <= Pow2(n)
    decreases n
  {
    if m < n { PowersGrow(m, n - 1); }
  }

  lemma {:induction false} UnwrappedRounds(op: QUn, frac: nat, a: int)
    requires 0 < frac <= 30 && InRange(a) && (op == QFloor || op == QCeil || op == QRound || op == QTrunc)
    ensures Rounds(op, frac, a, Unwrapped(op, frac, a))
  {
    HalfOfPow2(frac);
    match op
    case QFloor => ClearedIsWhole(a, frac);
    case QCeil => ClearedIsWhole(a + (Pow2(frac) - 1), frac);
    case QRound => ClearedIsWhole(if a < 0 then -a + Pow2(frac - 1) else a + Pow2(frac - 1), frac);
    case QTrunc => ClearedIsWhole(if a < 0 then -a else a, frac);
  }

  /** Which number has its fraction cleared. */
  function Cleared(op: QUn, frac: nat, a: int): int
    requires frac > 0
  {
    match op
    case QCeil => a + (Pow2(frac) - 1)
    case QRound => if a < 0 then -a + Pow2(frac - 1) else a + Pow2(frac - 1)
    case QTrunc => if a < 0 then -a else a
    case _ => a
  }

  lemma {:induction false} UnwrappedIsCleared(op: QUn, frac: nat, a: int, c: int)
    requires frac > 0 && (op == QFloor || op == QCeil || op == QRound || op == QTrunc)
    requires c == ClearFraction(Cleared(op, frac, a), frac)
    ensures Unwrapped(op, frac, a) == if a < 0 && (op == QRound || op == QTrunc) then -c else c
  {
  }

  /** Where the cleared number lies, by the operator's condition. */
  lemma {:induction false} ClearedAtTheTop(op: QUn, frac: nat, a: int, x: int)
    requires 0 < frac <= 30 && InRange(a) && (op == QFloor || op == QCeil || op == QRound || op == QTrunc)
    requires x == Cleared(op, frac, a)
    ensures -TWO_31 <= x < TWO_31 + Pow2(frac)
    ensures a >= 0 || op == QFloor || op == QCeil ==> (x < TWO_31 <==> Rounded(op, frac, a))
    ensures a < 0 && (op == QRound || op == QTrunc) ==> x >= 0 && Rounded(op, frac, a)
  {
    HalfOfPow2(frac);
    UnitFits(frac);
  }

  lemma {:induction false} UnwrappedFits(op: QUn, frac: nat, a: int)
    requires 0 < frac <= 30 && InRange(a) && (op == QFloor || op == QCeil || op == QRound || op == QTrunc)
    ensures -TWO_31 <= Unwrapped(op, frac, a) <= TWO_31
    ensures Unwrapped(op, frac, a) < TWO_31 <==> Rounded(op, frac, a)
  {
    var x := Cleared(op, frac, a);
    ClearedAtTheTop(op, frac, a, x);
    var c := ClearedWithin(x, frac);
    UnwrappedIsCleared(op, frac, a, c);
  }

  /** `ClearedAtTheEnds` about a number standing for the cleared one. */
  lemma {:induction false} ClearedWithin(x: int, frac: nat) returns (c: int)
    requires frac <= 31 && -TWO_31 <= x < TWO_31 + Pow2(frac)
    ensures c == ClearFraction(x, frac) && -TWO_31 <= c <= TWO_31 && (c < TWO_31 <==> x < TWO_31)
    ensures x >= 0 ==> c >= 0
  {
    c := ClearFraction(x, frac);
    ClearedAtTheEnds(x, frac);
    ClearedIsWhole(x, frac);
    ClearedIsNotNegative(x, frac);
  }

  lemma {:induction false} ClearedIsNotNegative(x: int, frac: nat)
    ensures x >= 0 ==> ClearFraction(x, frac) >= 0
  {
    ShrBounds(x, frac);
    MultipleAtTheEnds(Pow2(frac), Shr(x, frac), 0, x);
  }

  /** Floor, ceiling, truncation and rounding (half away from zero) of any int32 yield the whole number they should
      exactly if that is an int32. */
  lemma {:induction false} RoundingIsRight(op: QUn, frac: nat, a: int)
    requires 0 < frac <= 30 && InRange(a) && (op == QFloor || op == QCeil || op == QRound || op == QTrunc)
    ensures Rounds(op, frac, a, Unary(op, frac, a)) <==> Rounded(op, frac, a)
  {
    UnwrappedRounds(op, frac, a);
    UnwrappedFits(op, frac, a);
    WrapSettles(op, frac, a, Unwrapped(op, frac, a));
  }

  /** Where the whole number is not an int32 the result is the lowest int32; the highest int32 is such an input in
      every format. */
  lemma {:induction false} RoundingUpWraps(op: QUn, frac: nat, a: int)
    requires 0 < frac <= 30 && InRange(a) && (op == QCeil || op == QRound) && !Rounded(op, frac, a)
    ensures Unary(op, frac, a) == -TWO_31
    ensures !Rounded(op, frac, TWO_31 - 1)
  {
    UnwrappedFits(op, frac, a);
    HalfOfPow2(frac);
  }

  // ---------------------------------------------------------------------------------------
  // Reductions: unrolled and in a counted loop
  // ---------------------------------------------------------------------------------------

  function FoldOp(op: ReduceOp): QBin {
    match op
    case Sum => QAdd
    case Product => QMul
    case Least => QMin
    case Greatest => QMax
  }

  function Identity(op: ReduceOp, frac: nat): int {
    match op
    case Sum => 0
    case Product => Pow2(frac)
    case Least => TWO_31 - 1
    case Greatest => -TWO_31
  }

  function Fold(op: ReduceOp, frac: nat, init: int, xs: seq<int>): int {
    if xs == [] then init
    else Binary(FoldOp(op), frac, Fold(op, frac, init, xs[..|xs| - 1]), xs[|xs| - 1])
  }

  /** `reduce`: starts from the first operand. */
  function Unrolled(op: ReduceOp, frac: nat, xs: seq<int>): int {
    if xs == [] then Identity(op, frac) else Fold(op, frac, xs[0], xs[1..])
  }

  /** `reduce_block`: a counted loop that starts from the identity. */
  method ReduceBlock(op: ReduceOp, frac: nat, xs: array<int>) returns (v: int)
    requires forall i | 0 <= i < xs.Length :: InRange(xs[i])
    ensures v == Unrolled(op, frac, xs[..])
  {
    v := Identity(op, frac);
    for i := 0 to xs.Length
      invariant v == Fold(op, frac, Identity(op, frac), xs[..i])
    {
      assert xs[..i + 1][..i] == xs[..i];
      v := Binary(FoldOp(op), frac, v, xs[i]);
    }
    assert xs[..xs.Length] == xs[..];
    ReductionFormsAgree(op, frac, xs[..]);
  }

  lemma {:induction false} IdentityIsNeutral(op: ReduceOp, frac: nat, x: int)
    requires InRange(x)
    ensures Binary(FoldOp(op), frac, Identity(op, frac), x) == x
  {
    if op == Product {
      DivBounds(Pow2(frac) * x, Pow2(frac));
      Exact(Pow2(frac), x);
      QuotientOfMultiple(Pow2(frac), x);
    }
  }

  lemma {:induction false} QuotientOfMultiple(s: int, x: int)
    requires s > 0
    ensures (s * x) / s == x
  {
    Exact(s, x);
    var q := (s * x) / s;
    assert s * x == s * q;
    assert s * (x - q) == 0;
  }

  lemma {:induction false} FoldFrom(op: ReduceOp, frac: nat, init: int, xs: seq<int>)
    requires xs != []
    ensures Fold(op, frac, init, xs) == Fold(op, frac, Binary(FoldOp(op), frac, init, xs[0]), xs[1..])
  {
    if |xs| == 1 {
      assert xs[..0] == [] && xs[1..] == [];
    } else {
      var n := |xs| - 1;
      FoldFrom(op, frac, init, xs[..n]);
      assert xs[..n][1..] == xs[1..][..n - 1] && xs[1..][n - 1] == xs[n];
    }
  }

  /** The vectorised loop and the unrolled expression give the same result, wrap included. */
  lemma {:induction false} ReductionFormsAgree(op: ReduceOp, frac: nat, xs: seq<int>)
    requires forall i | 0 <= i < |xs| :: InRange(xs[i])
    ensures Fold(op, frac, Identity(op, frac), xs) == Unrolled(op, frac, xs)
  {
    if xs != [] {
      FoldFrom(op, frac, Identity(op, frac), xs);
      IdentityIsNeutral(op, frac, xs[0]);
    }
  }

  // ---------------------------------------------------------------------------------------
  // Dot products
  // ---------------------------------------------------------------------------------------

  /** `dot`: the first `n` terms folded with `fma`. */
  function Dot(frac: nat, xs: seq<int>, ys: seq<int>, n: nat): int
    requires n <= |xs| && n <= |ys|
  {
    if n == 0 then 0 else Fma(frac, xs[n - 1], ys[n - 1], Dot(frac, xs, ys, n - 1))
  }

  /** The exact dot product, scaled by `2^(2 frac)`. */
  function ExactDot(xs: seq<int>, ys: seq<int>, n: nat): int
    requires n <= |xs| && n <= |ys|
  {
    if n == 0 then 0 else ExactDot(xs, ys, n - 1) + xs[n - 1] * ys[n - 1]
  }

  /** No partial sum leaves int32. */
  ghost predicate DotFits(frac: nat, xs: seq<int>, ys: seq<int>, n: nat)
    requires n <= |xs| && n <= |ys|
  {
    n > 0 ==> DotFits(frac, xs, ys, n - 1) && InRange(Shr(xs[n - 1] * ys[n - 1], frac) + Dot(frac, xs, ys, n - 1))
  }

  /** `dot_block` */
  method DotBlock(frac: nat, xs: array<int>, ys: array<int>) returns (v: int)
    requires xs.Length == ys.Length
    ensures v == Dot(frac, xs[..], ys[..], xs.Length)
  {
    v := 0;
    for i := 0 to xs.Length
      invariant v == Dot(frac, xs[..], ys[..], i)
    {
      v := Fma(frac, xs[i], ys[i], v);
    }
  }

  /** Without wrap, an `n`-term dot product lies within `n` ticks below the exact value: each term
      loses less than one tick, and never gains. */
  lemma {:induction false} DotBound(frac: nat, xs: seq<int>, ys: seq<int>, n: nat)
    requires n <= |xs| && n <= |ys| && DotFits(frac, xs, ys, n)
    ensures 0 <= ExactDot(xs, ys, n) - Pow2(frac) * Dot(frac, xs, ys, n) <= n * (Pow2(frac) - 1)
  {
    if n > 0 {
      DotBound(frac, xs, ys, n - 1);
      var term, before := xs[n - 1] * ys[n - 1], Dot(frac, xs, ys, n - 1);
      var shifted := Shr(term, frac);
      ShrBounds(term, frac);
      Distributes(Pow2(frac), shifted, before);
      assert Dot(frac, xs, ys, n) == shifted + before;
      assert n * (Pow2(frac) - 1) == (n - 1) * (Pow2(frac) - 1) + (Pow2(frac) - 1);
    }
  }

  /** ... in ticks, as real numbers. */
  lemma {:induction false} DotBoundInTicks(frac: nat, xs: seq<int>, ys: seq<int>, n: nat)
    requires n <= |xs| && n <= |ys| && DotFits(frac, xs, ys, n)
    ensures var exact := ExactDot(xs, ys, n) as real / Pow2(frac) as real;
            Dot(frac, xs, ys, n) as real <= exact <= Dot(frac, xs, ys, n) as real + n as real
  {
    DotBound(frac, xs, ys, n);
    var s, r, e := Pow2(frac), Dot(frac, xs, ys, n), ExactDot(xs, ys, n);
    NotMoreThan(n, s);
    QuotientBetween(s, e, r, n);
  }

  lemma {:induction false} NotMoreThan(n: nat, s: int)
    requires s >= 1
    ensures n * (s - 1) <= s * n
  {
  }

  lemma {:induction false} QuotientBetween(s: int, e: int, r: int, n: int)
    requires s >= 1 && s * r <= e <= s * r + s * n
    ensures r as real <= e as real / s as real <= r as real + n as real
  {
    var q := e as real / s as real;
    assert q * (s as real) == e as real;
    RealProduct(s, r);
    RealProduct(s, n);
    RealSign(r as real - q, s as real);
    RealSign(q - (r as real + n as real), s as real);
  }

  lemma {:induction false} RealSign(a: real, b: real)
    requires b > 0.0
    ensures a > 0.0 ==> a * b > 0.0
  {
  }

  lemma {:induction false} RealProduct(a: int, b: int)
    ensures (a * b) as real == (a as real) * (b as real)
  {
  }

  // ---------------------------------------------------------------------------------------
  // The stage update
  // ---------------------------------------------------------------------------------------

  /** The accumulator after `n` terms, kept in the wide type. */
  function StageSum(frac: nat, as_: seq<int>, ks: seq<int>, n: nat): int
    requires n <= |as_| && n <= |ks|
  {
    if n == 0 then 0 else StageSum(frac, as_, ks, n - 1) + Shr(as_[n - 1] * ks[n - 1], frac)
  }

  function StageUpdate(frac: nat, x0: int, dt: int, as_: seq<int>, ks: seq<int>, n: nat): int
    requires n <= |as_| && n <= |ks|
  {
    Wrap(x0 + Shr(dt * StageSum(frac, as_, ks, n), frac))
  }

  /** The emitted inner loop of one state element of one stage. */
  method StageElement(frac: nat, x0: int, dt: int, as_: array<int>, ks: array<int>, n: nat) returns (x: int)
    requires n <= as_.Length && n <= ks.Length
    ensures x == StageUpdate(frac, x0, dt, as_[..], ks[..], n)
  {
    var acc := 0;
    for j := 0 to n
      invariant acc == StageSum(frac, as_[..], ks[..], j)
    {
      acc := acc + Shr(as_[j] * ks[j], frac);
    }
    x := Wrap(x0 + Shr(dt * acc, frac));
  }

  lemma {:induction false} StageSumBound(frac: nat, as_: seq<int>, ks: seq<int>, n: nat)
    requires n <= |as_| && n <= |ks|
    ensures 0 <= ExactDot(as_, ks, n) - Pow2(frac) * StageSum(frac, as_, ks, n) <= n * (Pow2(frac) - 1)
  {
    if n > 0 {
      StageSumBound(frac, as_, ks, n - 1);
      var term, before := as_[n - 1] * ks[n - 1], StageSum(frac, as_, ks, n - 1);
      ShrBounds(term, frac);
      Distributes(Pow2(frac), before, Shr(term, frac));
      assert n * (Pow2(frac) - 1) == (n - 1) * (Pow2(frac) - 1) + (Pow2(frac) - 1);
    }
  }

  lemma {:induction false} Monotone(dt: int, a: int, b: int)
    requires dt >= 0 && a <= b
    ensures dt * a <= dt * b
  {
  }

  lemma {:induction false} Regroup(s: int, dt: int, exact: int, acc: int, q: int)
    ensures dt * exact - s * (s * q) == dt * (exact - s * acc) + s * (dt * acc - s * q)
  {
    assert dt * (exact - s * acc) == dt * exact - dt * (s * acc);
    assert s * (dt * acc - s * q) == s * (dt * acc) - s * (s * q);
    assert dt * (s * acc) == s * (dt * acc);
  }

  /** How far the update lies below the exact one, scaled by `2^(2 frac)` ticks. */
  function Below(frac: nat, x0: int, dt: int, as_: seq<int>, ks: seq<int>, n: nat): int
    requires n <= |as_| && n <= |ks|
  {
    Pow2(frac) * (Pow2(frac) * x0) + dt * ExactDot(as_, ks, n)
    - Pow2(frac) * (Pow2(frac) * StageUpdate(frac, x0, dt, as_, ks, n))
  }

  /** With `dt >= 0` and no wrap, the `n`-term stage update lies below the exact Butcher update by at
      most `dt * n / 2^frac + 1` ticks (here scaled by `2^(2 frac)`), and never above it. */
  lemma {:induction false} StageBound(frac: nat, x0: int, dt: int, as_: seq<int>, ks: seq<int>, n: nat)
    requires n <= |as_| && n <= |ks| && dt >= 0
    requires InRange(x0 + Shr(dt * StageSum(frac, as_, ks, n), frac))
    ensures 0 <= Below(frac, x0, dt, as_, ks, n)
    ensures Below(frac, x0, dt, as_, ks, n) <= dt * (n * (Pow2(frac) - 1)) + Pow2(frac) * (Pow2(frac) - 1)
  {
    var s, acc, exact := Pow2(frac), StageSum(frac, as_, ks, n), ExactDot(as_, ks, n);
    var q := Shr(dt * acc, frac);
    StageSumBound(frac, as_, ks, n);
    ShrBounds(dt * acc, frac);
    Monotone(dt, 0, exact - s * acc);
    Monotone(dt, exact - s * acc, n * (s - 1));
    Monotone(s, 0, dt * acc - s * q);
    Monotone(s, dt * acc - s * q, s - 1);
    Regroup(s, dt, exact, acc, q);
    Distributes(s, x0, q);
    Distributes(s, s * x0, s * q);
  }

  /** With a negative step the bound is the other way round: at most `-dt * n / 2^frac` ticks above. */
  lemma {:induction false} NegativeStageBound(frac: nat, x0: int, dt: int, as_: seq<int>, ks: seq<int>, n: nat)
    requires n <= |as_| && n <= |ks| && dt < 0
    requires InRange(x0 + Shr(dt * StageSum(frac, as_, ks, n), frac))
    ensures dt * (n * (Pow2(frac) - 1)) <= Below(frac, x0, dt, as_, ks, n) <= Pow2(frac) * (Pow2(frac) - 1)
  {
    var s, acc, exact := Pow2(frac), StageSum(frac, as_, ks, n), ExactDot(as_, ks, n);
    var q := Shr(dt * acc, frac);
    StageSumBound(frac, as_, ks, n);
    ShrBounds(dt * acc, frac);
    Reversed(dt, 0, exact - s * acc);
    Reversed(dt, exact - s * acc, n * (s - 1));
    Monotone(s, 0, dt * acc - s * q);
    Monotone(s, dt * acc - s * q, s - 1);
    Regroup(s, dt, exact, acc, q);
    Distributes(s, x0, q);
    Distributes(s, s * x0, s * q);
  }

  lemma {:induction false} Reversed(dt: int, a: int, b: int)
    requires dt <= 0 && a <= b
    ensures dt * b <= dt * a
  {
  }

  ghost predicate AllInRange(xs: seq<int>) {
    forall i | 0 <= i < |xs| :: InRange(xs[i])
  }

  /** With this step no update of int32 values that does not wrap lies above the exact one. */
  ghost predicate NeverAbove(frac: nat, dt: int) {
    forall x0: int, as_: seq<int>, ks: seq<int>, n: nat {:trigger Below(frac, x0, dt, as_, ks, n)}
      | n <= |as_| && n <= |ks| && InRange(x0) && AllInRange(as_) && AllInRange(ks)
        && InRange(x0 + Shr(dt * StageSum(frac, as_, ks, n), frac)) ::
      0 <= Below(frac, x0, dt, as_, ks, n)
  }

  lemma {:induction false} SmallShift(x: int, frac: nat)
    requires 0 <= x < Pow2(frac)
    ensures Shr(x, frac) == 0
  {
    ShrBounds(x, frac);
    MultipleIsFar(Pow2(frac), Shr(x, frac));
  }

  /** Whatever the negative step, one term of a tick times a tick is rounded down to nothing, and the update misses
      the negative slope. */
  lemma {:induction false} NegativeStepOvershoots(frac: nat, dt: int, x0: int)
    requires frac > 0 && dt < 0 && InRange(x0)
    ensures StageSum(frac, [1], [1], 1) == 0 && Below(frac, x0, dt, [1], [1], 1) == dt
  {
    assert Pow2(frac) == 2 * Pow2(frac - 1);
    SmallShift(1, frac);
    assert StageSum(frac, [1], [1], 1) == StageSum(frac, [1], [1], 0) + Shr(1, frac);
    assert ExactDot([1], [1], 1) == ExactDot([1], [1], 0) + 1;
    SmallShift(0, frac);
    assert StageUpdate(frac, x0, dt, [1], [1], 1) == x0;
  }

  /** Updates never lie above the exact ones exactly if the step is not negative, or the format has no fractional
      bits, where the update is exact. */
  lemma {:induction false} NeverAboveIsForwards(frac: nat, dt: int)
    ensures NeverAbove(frac, dt) <==> dt >= 0 || frac == 0
  {
    if dt >= 0 || frac == 0 {
      forall x0: int, as_: seq<int>, ks: seq<int>, n: nat {:trigger Below(frac, x0, dt, as_, ks, n)}
        | n <= |as_| && n <= |ks| && InRange(x0 + Shr(dt * StageSum(frac, as_, ks, n), frac))
        ensures 0 <= Below(frac, x0, dt, as_, ks, n)
      {
        if dt >= 0 { StageBound(frac, x0, dt, as_, ks, n); } else { NegativeStageBound(frac, x0, dt, as_, ks, n); }
      }
    } else {
      NegativeStepOvershoots(frac, dt, 0);
      assert AllInRange([1]);
      assert Below(frac, 0, dt, [1], [1], 1) < 0;
    }
  }

  // ---------------------------------------------------------------------------------------
  // What a reduction comes to
  // ---------------------------------------------------------------------------------------

  function TotalOf(xs: seq<int>): int {
    if xs == [] then 0 else TotalOf(xs[..|xs| - 1]) + xs[|xs| - 1]
  }

  lemma {:induction false} WrapAbsorbs(a: int, x: int)
    ensures Wrap(Wrap(a) + x) == Wrap(a + x)
  {
    WrapDiffersByWords(a);
    WrapDiffersByWords(a + x);
    WrapIsModular(Wrap(a) + x, Wrap(a + x));
  }

  lemma {:induction false} FoldedSum(frac: nat, xs: seq<int>)
    ensures Fold(Sum, frac, 0, xs) == Wrap(TotalOf(xs))
    decreases |xs|
  {
    if xs != [] {
      FoldedSum(frac, xs[..|xs| - 1]);
      WrapAbsorbs(TotalOf(xs[..|xs| - 1]), xs[|xs| - 1]);
    }
  }

  ghost predicate Bounds(least: bool, r: int, xs: seq<int>) {
    forall i {:trigger xs[i]} | 0 <= i < |xs| :: if least then r <= xs[i] else r >= xs[i]
  }

  lemma {:induction false} FoldedExtreme(op: ReduceOp, frac: nat, init: int, xs: seq<int>)
    requires op == Least || op == Greatest
    ensures var r := Fold(op, frac, init, xs);
            && Bounds(op == Least, r, xs) && (r == init || r in xs)
            && (if op == Least then r <= init else r >= init)
    decreases |xs|
  {
    if xs != [] { FoldedExtreme(op, frac, init, xs[..|xs| - 1]); }
  }

  /** A reduction gives the wrapped sum, the least or the greatest of its operands; over none it gives a value that
      changes nothing, 0, one, the highest or the lowest int32. */
  lemma {:induction false} ReductionMeans(frac: nat, xs: seq<int>)
    requires frac <= 30 && forall i | 0 <= i < |xs| :: InRange(xs[i])
    ensures Unrolled(Sum, frac, xs) == Wrap(TotalOf(xs))
    ensures xs != [] ==> var r := Unrolled(Least, frac, xs); r in xs && Bounds(true, r, xs)
    ensures xs != [] ==> var r := Unrolled(Greatest, frac, xs); r in xs && Bounds(false, r, xs)
    ensures Unrolled(Product, frac, []) == Pow2(frac) && InRange(Pow2(frac))
    ensures forall x {:trigger InRange(x)} | InRange(x) ::
              Unrolled(Greatest, frac, []) <= x <= Unrolled(Least, frac, [])
    ensures InRange(Unrolled(Greatest, frac, [])) && InRange(Unrolled(Least, frac, []))
  {
    UnitFits(frac);
    FoldedSum(frac, xs);
    ReductionFormsAgree(Sum, frac, xs);
    if xs != [] {
      FoldedExtreme(Least, frac, xs[0], xs[1..]);
      FoldedExtreme(Greatest, frac, xs[0], xs[1..]);
      assert xs == [xs[0]] + xs[1..];
    }
  }
}

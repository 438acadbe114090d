/** Forward-mode differentiation of the emitted model (`tangent_*` and `build_struct_jvp` in
    `src/codegen/system.rs`): for models built from ring operations the emitted tangent is the exact
    first-order coefficient of the model along the seed. */
module Jvp {
  import opened Ir
  import opened OpSemantics
  import opened Polynomial
  import opened Products
  import opened SystemPlan
  import opened AlgebraicPass
  import opened NetworkSolution

  /** Directions for the states, external inputs and parameters. */
  datatype Seeds = Seeds(x: nat -> real, u: nat -> real, p: nat -> real)

  /** Ring operations, and reductions as repeated ring operations. */
  ghost predicate ExactRing(p: Prims) {
    && Multiplies(p)
    && (forall a, b {:trigger p.bin(Add, a, b)} :: p.bin(Add, a, b) == a + b)
    && (forall a, b {:trigger p.bin(Sub, a, b)} :: p.bin(Sub, a, b) == a - b)
    && (forall a {:trigger p.un(Neg, a)} :: p.un(Neg, a) == -a)
    && (forall a, b, c {:trigger p.fma(a, b, c)} :: p.fma(a, b, c) == Prod(p, a, b) + c)
    && (forall xs {:trigger p.reduce(Sum, xs)} :: p.reduce(Sum, xs) == SumOf(xs))
    && (forall xs {:trigger p.reduce(Product, xs)} :: p.reduce(Product, xs) == ProductOf(p, xs))
    && (forall xs, ys {:trigger p.dot(xs, ys)} | |xs| == |ys| :: p.dot(xs, ys) == DotOf(p, xs, ys))
  }

  /** The ops the theorem covers. */
  predicate RingOp(op: Op) {
    match op
    case Binary(o, _, _) => o == Add || o == Sub || o == BinOp.Mul
    case Unary(o, _) => o == Neg
    case Fma(_, _, _) => true
    case Reduce(o, _) => o == Sum || o == Product
    case Dot(xs, ys) => |xs| == |ys|
    case _ => IsLeaf(op)
  }

  ghost predicate RingOps(ops: seq<Op>) {
    forall l {:trigger ops[l]} | 0 <= l < |ops| :: RingOp(ops[l])
  }

  function WiredTangent(seeds: Seeds, dsig: seq<real>, w: Wired): real {
    match w
    case FromExternal(e) => seeds.u(e)
    case FromSignal(s) => SigAt(dsig, s)
    case Zero => 0.0
  }

  /** `tangent_binary`, for ring operations. */
  function TangentBinary(p: Prims, o: BinOp, va: real, vb: real, da: real, db: real): real
    requires o == Add || o == Sub || o == BinOp.Mul
  {
    match o
    case Add => p.bin(Add, da, db)
    case Sub => p.bin(Sub, da, db)
    case Mul => p.bin(Add, p.bin(BinOp.Mul, va, db), p.bin(BinOp.Mul, vb, da))
  }

  /** `tangent_expr`, for compute ops. */
  function TangentCompute(p: Prims, op: Op, vals: seq<real>, dvals: seq<real>): real
    requires RingOp(op) && !IsLeaf(op) && |vals| == |dvals|
    requires forall k | 0 <= k < |LocalOperands(op)| :: LocalOperands(op)[k] < |vals|
  {
    var ids := LocalOperands(op);
    match op
    case Binary(o, _, _) => TangentBinary(p, o, vals[ids[0]], vals[ids[1]], dvals[ids[0]], dvals[ids[1]])
    case Unary(_, _) => p.un(Neg, dvals[ids[0]])
    case Fma(_, _, _) =>
      p.bin(Add, p.bin(Add, p.bin(BinOp.Mul, vals[ids[0]], dvals[ids[1]]),
        p.bin(BinOp.Mul, vals[ids[1]], dvals[ids[0]])),
            dvals[ids[2]])
    case Reduce(o, args) =>
      if o == Sum then p.reduce(Sum, Operands(dvals, ids))
      else if args == [] then 0.0
      else p.reduce(Sum, ProductTerms(p, Operands(vals, ids), Operands(dvals, ids)))
    case Dot(xs, ys) =>
      var n := |xs|;
      p.reduce(Sum, DotTerms(p, Operands(vals, ids[..n]), Operands(dvals, ids[..n]),
                             Operands(vals, ids[n..]), Operands(dvals, ids[n..])))
  }

  /** `tangent_expr`: the tangent of one op from the values and tangents of the ops before it. */
  function TangentOf(
      plan: Plan, bases: Bases, p: Prims, seeds: Seeds, dsig: seq<real>, i: nat, op: Op, vals: seq<real>,
      dvals: seq<real>): real
    requires i < |plan.blocks| == |plan.inputSrc| == |plan.extInput| == |plan.stateOff|
    requires RingOp(op) && |vals| == |dvals| && forall k | 0 <= k < |LocalOperands(op)| :: LocalOperands(op)[k] < |vals|
  {
    match op
    case Const(_) => 0.0
    case Time => 0.0
    case Memory(_, _) => 0.0
    case Param(id) => seeds.p(ParamBase(bases, i) + id)
    case State(id) => seeds.x(StateBase(plan, i) + id)
    case Input(port, elem) => WiredTangent(seeds, dsig, InputWire(plan, i, port, elem))
    case op => TangentCompute(p, op, vals, dvals)
  }

  // ---------------------------------------------------------------------------------------
  // Exact expansions
  // ---------------------------------------------------------------------------------------

  function Picked(polys: seq<Poly>, ids: seq<nat>): (fs: seq<Poly>)
    requires forall k | 0 <= k < |ids| :: ids[k] < |polys|
    ensures |fs| == |ids| && forall k | 0 <= k < |ids| :: fs[k] == polys[ids[k]]
  {
    seq(|ids|, k requires 0 <= k < |ids| => polys[ids[k]])
  }

  /** The expansion of a compute op. */
  function ComputePoly(p: Prims, op: Op, polys: seq<Poly>): Poly
    requires RingOp(op) && !IsLeaf(op) && forall k | 0 <= k < |LocalOperands(op)| :: LocalOperands(op)[k] < |polys|
  {
    var ids := LocalOperands(op);
    match op
    case Binary(o, _, _) =>
      if o == Add then Plus(polys[ids[0]], polys[ids[1]])
      else if o == Sub then Plus(polys[ids[0]], Scaled(p, -1.0, polys[ids[1]]))
      else Times(p, polys[ids[0]], polys[ids[1]])
    case Unary(_, _) => Scaled(p, -1.0, polys[ids[0]])
    case Fma(_, _, _) => Plus(Times(p, polys[ids[0]], polys[ids[1]]), polys[ids[2]])
    case Reduce(o, _) => if o == Sum then PolySum(Picked(polys, ids)) else PolyProduct(p, Picked(polys, ids))
    case Dot(xs, _) => PolyDot(p, Picked(polys, ids[..|xs|]), Picked(polys, ids[|xs|..]))
  }

  /** The expansion of one op from the expansions of the ops before it and of the signals. */
  function OpPoly(
      plan: Plan, bases: Bases, m: Machine, seeds: Seeds, sigs: seq<Poly>, i: nat, op: Op, polys: seq<Poly>): Poly
    requires i < |plan.blocks| == |plan.inputSrc| == |plan.extInput| == |plan.stateOff|
    requires RingOp(op) && forall k | 0 <= k < |LocalOperands(op)| :: LocalOperands(op)[k] < |polys|
  {
    match op
    case Const(c) => [c]
    case Time => [m.time]
    case Memory(slot, offset) => [m.mem(SlotBase(bases, i, slot) + offset)]
    case Param(id) => [m.p(ParamBase(bases, i) + id), seeds.p(ParamBase(bases, i) + id)]
    case State(id) => [m.x(StateBase(plan, i) + id), seeds.x(StateBase(plan, i) + id)]
    case Input(port, elem) =>
      (match InputWire(plan, i, port, elem)
       case FromExternal(e) => [m.u(e), seeds.u(e)]
       case FromSignal(s) => if s < |sigs| then sigs[s] else []
       case Zero => [])
    case op => ComputePoly(m.prims, op, polys)
  }

  function Along(a: real, h: real, b: real): real { a + h * b }

  /** The machine moved by `h` along the seeds. */
  function Moved(m: Machine, seeds: Seeds, h: real): Machine {
    m.(x := (k: nat) => Along(m.x(k), h, seeds.x(k)),
       u := (k: nat) => Along(m.u(k), h, seeds.u(k)),
       p := (k: nat) => Along(m.p(k), h, seeds.p(k)))
  }

  lemma {:induction false} LineAt(p: Prims, a: real, b: real, h: real)
    requires Multiplies(p)
    ensures At(p, [a, b], h) == Along(a, h, b) && At(p, [a], h) == a
  {
    TimesZero(p, h);
    assert [a, b][1..] == [b] && [b][1..] == [] && [a][1..] == [];
    assert At(p, [b], h) == b;
    assert Multiplied(h, b);
  }

  lemma {:induction false} MinusAt(p: Prims, f: Poly, h: real)
    requires Multiplies(p)
    ensures At(p, Scaled(p, -1.0, f), h) == -At(p, f, h)
    ensures Coef(Scaled(p, -1.0, f), 1) == -Coef(f, 1)
  {
    ScaledAt(p, -1.0, f, h);
    ScaledCoef(p, -1.0, f, 1);
    assert Multiplied(-1.0, At(p, f, h)) && Multiplied(-1.0, Coef(f, 1));
  }

  /** The signal an input op reads, if it reads one. */
  predicate Reads(plan: Plan, i: nat, op: Op, s: nat)
    requires i < |plan.blocks| == |plan.inputSrc| == |plan.extInput|
  {
    op.Input? && InputWire(plan, i, op.port, op.elem) == FromSignal(s)
  }

  lemma {:induction false} PickedAt(p: Prims, polys: seq<Poly>, ids: seq<nat>, vals: seq<real>, h: real)
    requires |polys| == |vals| && forall k | 0 <= k < |ids| :: ids[k] < |polys|
    requires forall l {:trigger vals[l]} | 0 <= l < |vals| :: vals[l] == At(p, polys[l], h)
    ensures AllAt(p, Picked(polys, ids), h) == Operands(vals, ids)
  {
  }

  lemma {:induction false} PickedCoefs(polys: seq<Poly>, ids: seq<nat>, vals: seq<real>, c: nat)
    requires |polys| == |vals| && forall k | 0 <= k < |ids| :: ids[k] < |polys|
    requires forall l {:trigger vals[l]} | 0 <= l < |vals| :: vals[l] == Coef(polys[l], c)
    ensures Coefs(Picked(polys, ids), c) == Operands(vals, ids)
  {
  }

  lemma {:induction false} SplitOperands(vals: seq<real>, xs: seq<nat>, ys: seq<nat>)
    requires forall k | 0 <= k < |xs + ys| :: (xs + ys)[k] < |vals|
    ensures (forall k | 0 <= k < |xs| :: xs[k] < |vals|) && (forall k | 0 <= k < |ys| :: ys[k] < |vals|)
    ensures Operands(vals, xs + ys)[..|xs|] == Operands(vals, xs)
    ensures Operands(vals, xs + ys)[|xs|..] == Operands(vals, ys)
    ensures (xs + ys)[..|xs|] == xs && (xs + ys)[|xs|..] == ys
  {
    assert forall k | 0 <= k < |xs| :: (xs + ys)[k] == xs[k];
    assert forall k | 0 <= k < |ys| :: (xs + ys)[|xs| + k] == ys[k];
  }

  ghost predicate LeafArgs(plan: Plan, i: nat, op: Op, n: nat) {
    && PlanShape(plan) && i < |plan.blocks| && SsaOp(op, n) && RingOp(op)
  }

  /** Leaf reads move along their seeds. */
  lemma {:induction false} LeafPolyAt(
      plan: Plan, bases: Bases, m: Machine, seeds: Seeds, sigs: seq<Poly>, sig: seq<real>, i: nat, op: Op,
      polys: seq<Poly>, vals: seq<real>, h: real)
    requires LeafArgs(plan, i, op, |polys|) && |polys| == |vals| && ExactRing(m.prims) && IsLeaf(op)
    requires forall s: nat | Reads(plan, i, op, s) :: s < |sigs| == |sig| && sig[s] == At(m.prims, sigs[s], h)
    ensures At(m.prims, OpPoly(plan, bases, m, seeds, sigs, i, op, polys), h) ==
            OpValue(plan, bases, Moved(m, seeds, h), sig, i, op, vals)
  {
    var p := m.prims;
    match op
    case Const(c) => LineAt(p, c, 0.0, h);
    case Time => LineAt(p, m.time, 0.0, h);
    case Memory(slot, offset) =>
      var k := SlotBase(bases, i, slot) + offset;
      LineAt(p, m.mem(k), 0.0, h);
    case Param(id) =>
      var k := ParamBase(bases, i) + id;
      LineAt(p, m.p(k), seeds.p(k), h);
      assert Moved(m, seeds, h).p(k) == Along(m.p(k), h, seeds.p(k));
    case State(id) =>
      var k := StateBase(plan, i) + id;
      LineAt(p, m.x(k), seeds.x(k), h);
      assert Moved(m, seeds, h).x(k) == Along(m.x(k), h, seeds.x(k));
    case Input(port, elem) =>
      match InputWire(plan, i, port, elem)
      case FromExternal(e) =>
        LineAt(p, m.u(e), seeds.u(e), h);
        assert Moved(m, seeds, h).u(e) == Along(m.u(e), h, seeds.u(e));
      case FromSignal(s) => assert Reads(plan, i, op, s);
      case Zero =>
  }

  /** The expansion of an op evaluates to the op's value on the moved machine. */
  lemma {:induction false} OpPolyAt(
      plan: Plan, bases: Bases, m: Machine, seeds: Seeds, sigs: seq<Poly>, sig: seq<real>, i: nat, op: Op,
      polys: seq<Poly>, vals: seq<real>, h: real)
    requires LeafArgs(plan, i, op, |polys|) && |polys| == |vals| && ExactRing(m.prims)
    requires forall l {:trigger vals[l]} | 0 <= l < |vals| :: vals[l] == At(m.prims, polys[l], h)
    requires forall s: nat | Reads(plan, i, op, s) :: s < |sigs| == |sig| && sig[s] == At(m.prims, sigs[s], h)
    ensures At(m.prims, OpPoly(plan, bases, m, seeds, sigs, i, op, polys), h) ==
            OpValue(plan, bases, Moved(m, seeds, h), sig, i, op, vals)
  {
    if IsLeaf(op) {
      LeafPolyAt(plan, bases, m, seeds, sigs, sig, i, op, polys, vals, h);
    } else {
      ComputePolyAt(m.prims, op, polys, vals, h);
    }
  }

  lemma {:induction false} ComputePolyAt(p: Prims, op: Op, polys: seq<Poly>, vals: seq<real>, h: real)
    requires RingOp(op) && !IsLeaf(op) && ExactRing(p) && |polys| == |vals|
    requires forall k | 0 <= k < |LocalOperands(op)| :: LocalOperands(op)[k] < |polys|
    requires forall l {:trigger vals[l]} | 0 <= l < |vals| :: vals[l] == At(p, polys[l], h)
    ensures At(p, ComputePoly(p, op, polys), h) == Compute(p, op, Operands(vals, LocalOperands(op)))
  {
    var ids := LocalOperands(op);
    PickedAt(p, polys, ids, vals, h);
    match op
    case Binary(o, _, _) =>
      var f, g := polys[ids[0]], polys[ids[1]];
      if o == Add { PlusAt(p, f, g, h); }
      else if o == Sub { MinusAt(p, g, h); PlusAt(p, f, Scaled(p, -1.0, g), h); }
      else { TimesAt(p, f, g, h); }
    case Unary(_, _) => MinusAt(p, polys[ids[0]], h);
    case Fma(_, _, _) =>
      var f, g := polys[ids[0]], polys[ids[1]];
      TimesAt(p, f, g, h);
      PlusAt(p, Times(p, f, g), polys[ids[2]], h);
    case Reduce(o, args) =>
      if o == Sum { PolySumAt(p, Picked(polys, ids), h); } else { PolyProductAt(p, Picked(polys, ids), h); }
    case Dot(xs, ys) =>
      SplitOperands(vals, xs, ys);
      PickedAt(p, polys, xs, vals, h);
      PickedAt(p, polys, ys, vals, h);
      PolyDotAt(p, Picked(polys, xs), Picked(polys, ys), h);
  }

  /** The first-order coefficient of an op's expansion is its emitted tangent. */
  lemma {:induction false} OpPolyTangent(
      plan: Plan, bases: Bases, m: Machine, seeds: Seeds, sigs: seq<Poly>, dsig: seq<real>, i: nat, op: Op,
      polys: seq<Poly>, vals: seq<real>, dvals: seq<real>)
    requires LeafArgs(plan, i, op, |polys|) && |polys| == |vals| == |dvals| && ExactRing(m.prims)
    requires forall l {:trigger vals[l]} | 0 <= l < |vals| :: vals[l] == Coef(polys[l], 0)
    requires forall l {:trigger dvals[l]} | 0 <= l < |dvals| :: dvals[l] == Coef(polys[l], 1)
    requires forall s: nat | Reads(plan, i, op, s) :: s < |sigs| == |dsig| && dsig[s] == Coef(sigs[s], 1)
    ensures Coef(OpPoly(plan, bases, m, seeds, sigs, i, op, polys), 1) ==
            TangentOf(plan, bases, m.prims, seeds, dsig, i, op, vals, dvals)
  {
    if IsLeaf(op) {
      if op.Input? && InputWire(plan, i, op.port, op.elem).FromSignal? {
        assert Reads(plan, i, op, InputWire(plan, i, op.port, op.elem).sig);
      }
    } else {
      ComputePolyTangent(m.prims, op, polys, vals, dvals);
    }
  }

  lemma {:induction false} BinaryTangent(p: Prims, o: BinOp, f: Poly, g: Poly)
    requires ExactRing(p) && (o == Add || o == Sub || o == BinOp.Mul)
    ensures Coef(if o == Add then Plus(f, g)
                 else if o == Sub then Plus(f, Scaled(p, -1.0, g))
                 else Times(p, f, g), 1) ==
            TangentBinary(p, o, Coef(f, 0), Coef(g, 0), Coef(f, 1), Coef(g, 1))
  {
    if o == Add { PlusCoef(f, g, 1); }
    else if o == Sub { MinusAt(p, g, 0.0); PlusCoef(f, Scaled(p, -1.0, g), 1); }
    else { TimesCoefs(p, f, g); Commutes(p, Coef(f, 1), Coef(g, 0)); }
  }

  lemma {:induction false} FmaTangent(p: Prims, f: Poly, g: Poly, e: Poly)
    requires ExactRing(p)
    ensures Coef(Plus(Times(p, f, g), e), 1) ==
            p.bin(Add, p.bin(Add, p.bin(BinOp.Mul, Coef(f, 0), Coef(g, 1)), p.bin(BinOp.Mul, Coef(g, 0), Coef(f, 1))),
                  Coef(e, 1))
  {
    TimesCoefs(p, f, g);
    Commutes(p, Coef(f, 1), Coef(g, 0));
    PlusCoef(Times(p, f, g), e, 1);
  }

  lemma {:induction false} ComputePolyTangent(p: Prims, op: Op, polys: seq<Poly>, vals: seq<real>, dvals: seq<real>)
    requires RingOp(op) && !IsLeaf(op) && |polys| == |vals| == |dvals| && ExactRing(p)
    requires forall k | 0 <= k < |LocalOperands(op)| :: LocalOperands(op)[k] < |polys|
    requires forall l {:trigger vals[l]} | 0 <= l < |vals| :: vals[l] == Coef(polys[l], 0)
    requires forall l {:trigger dvals[l]} | 0 <= l < |dvals| :: dvals[l] == Coef(polys[l], 1)
    ensures Coef(ComputePoly(p, op, polys), 1) == TangentCompute(p, op, vals, dvals)
  {
    var ids := LocalOperands(op);
    match op
    case Binary(o, _, _) => BinaryTangent(p, o, polys[ids[0]], polys[ids[1]]);
    case Unary(_, _) => MinusAt(p, polys[ids[0]], 0.0);
    case Fma(_, _, _) => FmaTangent(p, polys[ids[0]], polys[ids[1]], polys[ids[2]]);
    case Reduce(o, args) => ReduceTangent(p, o, ids, polys, vals, dvals);
    case Dot(xs, ys) => DotTangent(p, xs, ys, polys, vals, dvals);
  }

  lemma {:induction false} ReduceTangent(
      p: Prims, o: ReduceOp, ids: seq<nat>, polys: seq<Poly>, vals: seq<real>, dvals: seq<real>)
    requires ExactRing(p) && |polys| == |vals| == |dvals| && (forall k | 0 <= k < |ids| :: ids[k] < |polys|)
    requires forall l {:trigger vals[l]} | 0 <= l < |vals| :: vals[l] == Coef(polys[l], 0)
    requires forall l {:trigger dvals[l]} | 0 <= l < |dvals| :: dvals[l] == Coef(polys[l], 1)
    ensures Coef(PolySum(Picked(polys, ids)), 1) == p.reduce(Sum, Operands(dvals, ids))
    ensures Coef(PolyProduct(p, Picked(polys, ids)), 1) ==
            if ids == [] then 0.0 else p.reduce(Sum, ProductTerms(p, Operands(vals, ids), Operands(dvals, ids)))
  {
    PickedCoefs(polys, ids, vals, 0);
    PickedCoefs(polys, ids, dvals, 1);
    PolySumTangent(Picked(polys, ids), 1);
    PolyProductTangent(p, Picked(polys, ids));
    if ids == [] {
      assert Picked(polys, ids) == [];
      assert ProductTerms(p, [], []) == [];
    }
  }

  lemma {:induction false} DotTangent(
      p: Prims, xs: seq<nat>, ys: seq<nat>, polys: seq<Poly>, vals: seq<real>, dvals: seq<real>)
    requires ExactRing(p) && |polys| == |vals| == |dvals| && |xs| == |ys|
    requires forall k | 0 <= k < |xs + ys| :: (xs + ys)[k] < |polys|
    requires forall l {:trigger vals[l]} | 0 <= l < |vals| :: vals[l] == Coef(polys[l], 0)
    requires forall l {:trigger dvals[l]} | 0 <= l < |dvals| :: dvals[l] == Coef(polys[l], 1)
    ensures (xs + ys)[..|xs|] == xs && (xs + ys)[|xs|..] == ys
    ensures (forall k | 0 <= k < |xs| :: xs[k] < |vals|) && (forall k | 0 <= k < |ys| :: ys[k] < |vals|)
    ensures Coef(PolyDot(p, Picked(polys, xs), Picked(polys, ys)), 1) ==
            p.reduce(Sum, DotTerms(p, Operands(vals, xs), Operands(dvals, xs), Operands(vals, ys), Operands(dvals, ys)))
  {
    SplitOperands(vals, xs, ys);
    PickedCoefs(polys, xs, vals, 0);
    PickedCoefs(polys, xs, dvals, 1);
    PickedCoefs(polys, ys, vals, 0);
    PickedCoefs(polys, ys, dvals, 1);
    PolyDotTangent(p, Picked(polys, xs), Picked(polys, ys));
  }

  // ---------------------------------------------------------------------------------------
  // Regions
  // ---------------------------------------------------------------------------------------

  ghost predicate RegionArgs(plan: Plan, i: nat, ops: seq<Op>, n: nat) {
    PlanShape(plan) && i < |plan.blocks| && SsaOps(ops) && RingOps(ops) && n <= |ops|
  }

  /** The tangents of the first `n` ops of a region. */
  ghost function RegionTangents(
      plan: Plan, bases: Bases, m: Machine, seeds: Seeds, sig: seq<real>, dsig: seq<real>, i: nat, ops: seq<Op>,
      n: nat):
    (dvals: seq<real>)
    requires RegionArgs(plan, i, ops, n)
    ensures |dvals| == n
  {
    if n == 0 then []
    else
      var before := RegionTangents(plan, bases, m, seeds, sig, dsig, i, ops, n - 1);
      var vals := RegionValues(plan, bases, m, sig, i, ops, n - 1);
      assert SsaOp(ops[n - 1], n - 1) && RingOp(ops[n - 1]);
      before + [TangentOf(plan, bases, m.prims, seeds, dsig, i, ops[n - 1], vals, before)]
  }

  ghost function RegionPolys(
      plan: Plan, bases: Bases, m: Machine, seeds: Seeds, sigs: seq<Poly>, i: nat, ops: seq<Op>, n: nat):
    (polys: seq<Poly>)
    requires RegionArgs(plan, i, ops, n)
    ensures |polys| == n
  {
    if n == 0 then []
    else
      var before := RegionPolys(plan, bases, m, seeds, sigs, i, ops, n - 1);
      assert SsaOp(ops[n - 1], n - 1) && RingOp(ops[n - 1]);
      before + [OpPoly(plan, bases, m, seeds, sigs, i, ops[n - 1], before)]
  }

  /** The signals that some op of the region reads. */
  ghost predicate RegionReads(plan: Plan, i: nat, ops: seq<Op>, s: nat)
    requires i < |plan.blocks| == |plan.inputSrc| == |plan.extInput|
  {
    exists l {:trigger ops[l]} :: 0 <= l < |ops| && Reads(plan, i, ops[l], s)
  }

  /** `sigs` expands the signals `sig`, seen at distance `h`, that the region reads. */
  ghost predicate ExpandsReads(p: Prims, plan: Plan, i: nat, ops: seq<Op>, sigs: seq<Poly>, sig: seq<real>, h: real)
    requires i < |plan.blocks| == |plan.inputSrc| == |plan.extInput|
  {
    |sigs| == |sig| && forall s: nat {:trigger RegionReads(plan, i, ops, s)} | RegionReads(plan, i, ops, s) ::
      s < |sigs| && sig[s] == At(p, sigs[s], h)
  }

  lemma {:induction false} RegionPolysAt(
      plan: Plan, bases: Bases, m: Machine, seeds: Seeds, sigs: seq<Poly>, sig: seq<real>, i: nat, ops: seq<Op>,
      n: nat, h: real)
    requires RegionArgs(plan, i, ops, n) && ExactRing(m.prims) && ExpandsReads(m.prims, plan, i, ops, sigs, sig, h)
    ensures forall l {:trigger RegionValues(plan, bases, Moved(m, seeds, h), sig, i, ops, n)[l]} | 0 <= l < n ::
              RegionValues(plan, bases, Moved(m, seeds, h), sig, i, ops, n)[l] ==
              At(m.prims, RegionPolys(plan, bases, m, seeds, sigs, i, ops, n)[l], h)
    decreases n
  {
    if n > 0 {
      RegionPolysAt(plan, bases, m, seeds, sigs, sig, i, ops, n - 1, h);
      var polys := RegionPolys(plan, bases, m, seeds, sigs, i, ops, n - 1);
      var vals := RegionValues(plan, bases, Moved(m, seeds, h), sig, i, ops, n - 1);
      var op := ops[n - 1];
      assert SsaOp(op, n - 1) && RingOp(op);
      forall s: nat | Reads(plan, i, op, s) ensures s < |sigs| == |sig| && sig[s] == At(m.prims, sigs[s], h) {
        assert RegionReads(plan, i, ops, s);
      }
      OpPolyAt(plan, bases, m, seeds, sigs, sig, i, op, polys, vals, h);
      assert RegionPolys(plan, bases, m, seeds, sigs, i, ops, n) ==
             polys + [OpPoly(plan, bases, m, seeds, sigs, i, op, polys)];
      assert RegionValues(plan, bases, Moved(m, seeds, h), sig, i, ops, n) ==
             vals + [OpValue(plan, bases, Moved(m, seeds, h), sig, i, op, vals)];
    }
  }

  ghost predicate TangentReads(plan: Plan, i: nat, ops: seq<Op>, sigs: seq<Poly>, dsig: seq<real>)
    requires i < |plan.blocks| == |plan.inputSrc| == |plan.extInput|
  {
    |sigs| == |dsig| && forall s: nat {:trigger RegionReads(plan, i, ops, s)} | RegionReads(plan, i, ops, s) ::
      s < |sigs| && dsig[s] == Coef(sigs[s], 1)
  }

  /** `vals` are the coefficients of order `c`. */
  ghost predicate HasCoefs(polys: seq<Poly>, vals: seq<real>, c: nat) {
    |polys| == |vals| && forall l {:trigger vals[l]} | 0 <= l < |vals| :: vals[l] == Coef(polys[l], c)
  }

  lemma {:induction false} HasCoefsSnoc(polys: seq<Poly>, vals: seq<real>, c: nat, f: Poly, v: real)
    ensures HasCoefs(polys + [f], vals + [v], c) <== HasCoefs(polys, vals, c) && v == Coef(f, c)
    ensures HasCoefs(polys + [f], vals + [v], c) && |polys| == |vals| ==> HasCoefs(polys, vals, c)
  {
    if HasCoefs(polys + [f], vals + [v], c) && |polys| == |vals| {
      forall l | 0 <= l < |vals| ensures vals[l] == Coef(polys[l], c) {
        assert (vals + [v])[l] == vals[l] && (polys + [f])[l] == polys[l];
      }
    }
  }

  lemma {:induction false} RegionPolysTangent(
      plan: Plan, bases: Bases, m: Machine, seeds: Seeds, sigs: seq<Poly>, sig: seq<real>, dsig: seq<real>,
      i: nat, ops: seq<Op>, n: nat)
    requires RegionArgs(plan, i, ops, n) && ExactRing(m.prims) && TangentReads(plan, i, ops, sigs, dsig)
    requires HasCoefs(RegionPolys(plan, bases, m, seeds, sigs, i, ops, n), RegionValues(plan, bases, m, sig, i, ops, n),
             0)
    ensures HasCoefs(RegionPolys(plan, bases, m, seeds, sigs, i, ops, n),
                     RegionTangents(plan, bases, m, seeds, sig, dsig, i, ops, n), 1)
    decreases n
  {
    if n > 0 {
      var polys := RegionPolys(plan, bases, m, seeds, sigs, i, ops, n - 1);
      var vals := RegionValues(plan, bases, m, sig, i, ops, n - 1);
      var dvals := RegionTangents(plan, bases, m, seeds, sig, dsig, i, ops, n - 1);
      var op := ops[n - 1];
      assert SsaOp(op, n - 1) && RingOp(op);
      var f, v := OpPoly(plan, bases, m, seeds, sigs, i, op, polys), OpValue(plan, bases, m, sig, i, op, vals);
      var d := TangentOf(plan, bases, m.prims, seeds, dsig, i, op, vals, dvals);
      assert RegionPolys(plan, bases, m, seeds, sigs, i, ops, n) == polys + [f];
      assert RegionValues(plan, bases, m, sig, i, ops, n) == vals + [v];
      assert RegionTangents(plan, bases, m, seeds, sig, dsig, i, ops, n) == dvals + [d];
      HasCoefsSnoc(polys, vals, 0, f, v);
      RegionPolysTangent(plan, bases, m, seeds, sigs, sig, dsig, i, ops, n - 1);
      OpTangentIn(plan, bases, m, seeds, sigs, dsig, i, ops, n - 1, polys, vals, dvals);
      HasCoefsSnoc(polys, dvals, 1, f, d);
    }
  }

  lemma {:induction false} OpTangentIn(
      plan: Plan, bases: Bases, m: Machine, seeds: Seeds, sigs: seq<Poly>, dsig: seq<real>, i: nat, ops: seq<Op>,
      l: nat, polys: seq<Poly>, vals: seq<real>, dvals: seq<real>)
    requires RegionArgs(plan, i, ops, |ops|) && l < |ops| && ExactRing(m.prims)
             && TangentReads(plan, i, ops, sigs, dsig)
    requires |polys| == l && HasCoefs(polys, vals, 0) && HasCoefs(polys, dvals, 1)
    ensures SsaOp(ops[l], l) && RingOp(ops[l])
    ensures Coef(OpPoly(plan, bases, m, seeds, sigs, i, ops[l], polys), 1) ==
            TangentOf(plan, bases, m.prims, seeds, dsig, i, ops[l], vals, dvals)
  {
    assert SsaOp(ops[l], l) && RingOp(ops[l]);
    forall s: nat | Reads(plan, i, ops[l], s) ensures s < |sigs| == |dsig| && dsig[s] == Coef(sigs[s], 1) {
      assert RegionReads(plan, i, ops, s);
    }
    OpPolyTangent(plan, bases, m, seeds, sigs, dsig, i, ops[l], polys, vals, dvals);
  }

  // ---------------------------------------------------------------------------------------
  // At distance zero nothing has moved
  // ---------------------------------------------------------------------------------------

  ghost predicate SameReads(m1: Machine, m2: Machine) {
    && m1.prims == m2.prims && m1.mem == m2.mem && m1.time == m2.time
    && (forall k: nat {:trigger m1.x(k)} {:trigger m2.x(k)} :: m1.x(k) == m2.x(k))
    && (forall k: nat {:trigger m1.u(k)} {:trigger m2.u(k)} :: m1.u(k) == m2.u(k))
    && (forall k: nat {:trigger m1.p(k)} {:trigger m2.p(k)} :: m1.p(k) == m2.p(k))
  }

  lemma {:induction false} NotMoved(m: Machine, seeds: Seeds)
    ensures SameReads(Moved(m, seeds, 0.0), m)
  {
    var m0 := Moved(m, seeds, 0.0);
    forall k: nat ensures m0.x(k) == m.x(k) && m0.u(k) == m.u(k) && m0.p(k) == m.p(k) {
      assert m0.x(k) == m.x(k) + 0.0 * seeds.x(k);
      assert m0.u(k) == m.u(k) + 0.0 * seeds.u(k);
      assert m0.p(k) == m.p(k) + 0.0 * seeds.p(k);
    }
  }

  lemma {:induction false} SameRegion(
      plan: Plan, bases: Bases, m1: Machine, m2: Machine, sig: seq<real>, i: nat, ops: seq<Op>, n: nat)
    requires PlanShape(plan) && i < |plan.blocks| && SsaOps(ops) && n <= |ops| && SameReads(m1, m2)
    ensures RegionValues(plan, bases, m1, sig, i, ops, n) == RegionValues(plan, bases, m2, sig, i, ops, n)
    decreases n
  {
    if n > 0 {
      SameRegion(plan, bases, m1, m2, sig, i, ops, n - 1);
      var vals := RegionValues(plan, bases, m1, sig, i, ops, n - 1);
      assert OpValue(plan, bases, m1, sig, i, ops[n - 1], vals) == OpValue(plan, bases, m2, sig, i, ops[n - 1], vals);
    }
  }

  lemma {:induction false} SamePass(plan: Plan, bases: Bases, m1: Machine, m2: Machine, sig: seq<real>, n: nat)
    requires PlanShape(plan) && BlocksOk(plan) && n <= |plan.topo| && SameReads(m1, m2)
    requires forall k | 0 <= k < |plan.topo| :: plan.topo[k] < |plan.blocks|
    ensures PassTo(plan, bases, m1, sig, n) == PassTo(plan, bases, m2, sig, n)
    decreases n
  {
    if n > 0 {
      SamePass(plan, bases, m1, m2, sig, n - 1);
      var before, i := PassTo(plan, bases, m1, sig, n - 1), plan.topo[n - 1];
      SameRegion(plan, bases, m1, m2, before, i, plan.blocks[i].alg.ops, |plan.blocks[i].alg.ops|);
    }
  }
}

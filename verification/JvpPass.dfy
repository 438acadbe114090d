/** The tangent passes of the emitted `model_jvp` over the whole network (`build_struct_jvp` in
    `src/codegen/system.rs`): `d_sig` and `d_dxdt` are the exact first-order coefficients. */
module JvpPass {
  import opened Wrappers
  import opened Ir
  import opened Polynomial
  import opened FlatWires
  import opened SystemPlan
  import opened AlgebraicPass
  import opened NetworkSolution
  import opened Jvp
  import T = TopoOrder

  /** What the theorem assumes: a schedulable network whose algebraic regions write all their outputs
      and consist of ring operations, interpreted exactly. */
  ghost predicate JvpArgs(plan: Plan, wires: seq<FlatWire>, exts: seq<ExtWire>, deps: T.Deps, p: Prims) {
    && Ordered(plan, wires, exts, deps) && WritesAll(plan) && ExactRing(p)
    && forall i {:trigger plan.blocks[i]} | 0 <= i < |plan.blocks| :: RingOps(plan.blocks[i].alg.ops)
  }

  ghost predicate TangentShape(plan: Plan) {
    && PlanShape(plan) && BlocksOk(plan) && (forall k | 0 <= k < |plan.topo| :: plan.topo[k] < |plan.blocks|)
    && forall i {:trigger plan.blocks[i]} | 0 <= i < |plan.blocks| :: RingOps(plan.blocks[i].alg.ops)
  }

  ghost function BlockTangents(
      plan: Plan, bases: Bases, m: Machine, seeds: Seeds, sig: seq<real>, dsig: seq<real>, i: nat): (dvals: seq<real>)
    requires TangentShape(plan) && i < |plan.blocks|
    ensures |dvals| == |plan.blocks[i].alg.ops|
  {
    RegionTangents(plan, bases, m, seeds, sig, dsig, i, plan.blocks[i].alg.ops, |plan.blocks[i].alg.ops|)
  }

  ghost function TangentStep(
      plan: Plan, bases: Bases, m: Machine, seeds: Seeds, sig: seq<real>, dsig: seq<real>, i: nat): (out: seq<real>)
    requires TangentShape(plan) && i < |plan.blocks|
    ensures |out| == |dsig|
  {
    if TakesPart(plan, i) then
      Written(plan.blocks[i], plan.outOff[i].value, |plan.blocks[i].alg.writes|,
              BlockTangents(plan, bases, m, seeds, sig, dsig, i), dsig)
    else dsig
  }

  /** `d_sig` after the first `n` blocks; the primal signals `sig` have been refreshed before. */
  ghost function TangentPassTo(
      plan: Plan, bases: Bases, m: Machine, seeds: Seeds, sig: seq<real>, dsig: seq<real>, n: nat): (out: seq<real>)
    requires TangentShape(plan) && n <= |plan.topo|
    ensures |out| == |dsig|
  {
    if n == 0 then dsig
    else
      TangentStep(plan, bases, m, seeds, sig, TangentPassTo(plan, bases, m, seeds, sig, dsig, n - 1), plan.topo[n - 1])
  }

  /** The network's signals with states, inputs and parameters moved by `h` along the seeds. */
  ghost function SolutionAt(
      plan: Plan, bases: Bases, m: Machine, seeds: Seeds, sig: seq<real>, h: real): (sol: seq<real>)
    requires TangentShape(plan)
    ensures |sol| == |sig|
  {
    PassTo(plan, bases, Moved(m, seeds, h), sig, |plan.topo|)
  }

  ghost function Primal(plan: Plan, bases: Bases, m: Machine, sig: seq<real>): (sol: seq<real>)
    requires TangentShape(plan)
    ensures |sol| == |sig|
  {
    PassTo(plan, bases, m, sig, |plan.topo|)
  }

  lemma {:induction false} PrimalIsAtZero(plan: Plan, bases: Bases, m: Machine, seeds: Seeds, sig: seq<real>)
    requires TangentShape(plan)
    ensures SolutionAt(plan, bases, m, seeds, sig, 0.0) == Primal(plan, bases, m, sig)
  {
    NotMoved(m, seeds);
    SamePass(plan, bases, Moved(m, seeds, 0.0), m, sig, |plan.topo|);
  }

  /** The polynomial `f` is signal `s` along the whole line, and `d` is its slope. */
  ghost predicate SignalOk(plan: Plan, bases: Bases, m: Machine, seeds: Seeds, sig: seq<real>, s: nat, f: Poly, d: real)
    requires TangentShape(plan)
  {
    && s < |sig|
    && (forall h: real {:trigger SolutionAt(plan, bases, m, seeds, sig, h)} ::
          SolutionAt(plan, bases, m, seeds, sig, h)[s] == At(m.prims, f, h))
    && Coef(f, 1) == d
  }

  /** Signals of the first `n` blocks of the order are expanded exactly. */
  ghost predicate ExpandedTo(
      plan: Plan, bases: Bases, m: Machine, seeds: Seeds, sig: seq<real>, dsig: seq<real>, n: nat, sigs: seq<Poly>)
    requires TangentShape(plan) && n <= |plan.topo|
  {
    && |sigs| == |sig| == |dsig|
    && forall k: nat, s: nat {:trigger Owns(plan.blocks, plan.topo[k], s)} |
         k < n && s < |sig| && Owns(plan.blocks, plan.topo[k], s) ::
         SignalOk(plan, bases, m, seeds, sig, s, sigs[s], dsig[s])
  }

  /** What a scheduled block reads has been expanded. */
  lemma {:induction false} ReadsAreExpanded(
      plan: Plan, bases: Bases, m: Machine, wires: seq<FlatWire>, exts: seq<ExtWire>, deps: T.Deps, seeds: Seeds,
      sig: seq<real>, dsig: seq<real>, n: nat, sigs: seq<Poly>, s: nat)
    requires JvpArgs(plan, wires, exts, deps, m.prims) && TangentShape(plan) && |sig| == plan.nSig
    requires n < |plan.topo| && ExpandedTo(plan, bases, m, seeds, sig, dsig, n, sigs)
    requires RegionReads(plan, plan.topo[n], plan.blocks[plan.topo[n]].alg.ops, s)
    ensures s < |sig| && SignalOk(plan, bases, m, seeds, sig, s, sigs[s], dsig[s])
  {
    var i := plan.topo[n];
    var ops := plan.blocks[i].alg.ops;
    var l :| 0 <= l < |ops| && Reads(plan, i, ops[l], s);
    assert T.HasFeedthrough(plan.blocks[i]);
    var j := SourceIsAwaited(plan, wires, exts, deps, i, ops[l].port, ops[l].elem);
    var k :| 0 <= k < n && plan.topo[k] == j;
    OwnedInRange(plan, j, s);
    assert Owns(plan.blocks, plan.topo[k], s);
  }

  lemma {:induction false} OwnedInRange(plan: Plan, j: nat, s: nat)
    requires j < |plan.blocks| && plan.nSig == SigStart(plan.blocks, |plan.blocks|) && Owns(plan.blocks, j, s)
    ensures s < plan.nSig
  {
    SigStartMonotone(plan.blocks, j, |plan.blocks|);
  }

  ghost function BlockPolys(
      plan: Plan, bases: Bases, m: Machine, seeds: Seeds, sigs: seq<Poly>, i: nat): (polys: seq<Poly>)
    requires TangentShape(plan) && i < |plan.blocks|
    ensures |polys| == |plan.blocks[i].alg.ops|
  {
    RegionPolys(plan, bases, m, seeds, sigs, i, plan.blocks[i].alg.ops, |plan.blocks[i].alg.ops|)
  }

  /** The values of a region of block `i` along the line. */
  lemma {:induction false} RegionAlongLine(
      plan: Plan, bases: Bases, m: Machine, seeds: Seeds, sig: seq<real>, dsig: seq<real>, i: nat, ops: seq<Op>,
      sigs: seq<Poly>, l: nat, h: real)
    requires TangentShape(plan) && RegionArgs(plan, i, ops, |ops|) && l < |ops| && ExactRing(m.prims)
    requires |sigs| == |sig| == |dsig|
    requires forall s: nat {:trigger RegionReads(plan, i, ops, s)} | RegionReads(plan, i, ops, s) ::
      s < |sig| && SignalOk(plan, bases, m, seeds, sig, s, sigs[s], dsig[s])
    ensures RegionValues(
              plan, bases, Moved(m, seeds, h), SolutionAt(plan, bases, m, seeds, sig, h), i, ops, |ops|)[l] ==
            At(m.prims, RegionPolys(plan, bases, m, seeds, sigs, i, ops, |ops|)[l], h)
  {
    var sol := SolutionAt(plan, bases, m, seeds, sig, h);
    assert ExpandsReads(m.prims, plan, i, ops, sigs, sol, h);
    RegionPolysAt(plan, bases, m, seeds, sigs, sol, i, ops, |ops|, h);
  }

  /** Their constant coefficients are the primal values. */
  lemma {:induction false} RegionPrimal(
      plan: Plan, bases: Bases, m: Machine, seeds: Seeds, sig: seq<real>, dsig: seq<real>, i: nat, ops: seq<Op>,
      sigs: seq<Poly>)
    requires TangentShape(plan) && RegionArgs(plan, i, ops, |ops|) && ExactRing(m.prims)
    requires |sigs| == |sig| == |dsig|
    requires forall s: nat {:trigger RegionReads(plan, i, ops, s)} | RegionReads(plan, i, ops, s) ::
      s < |sig| && SignalOk(plan, bases, m, seeds, sig, s, sigs[s], dsig[s])
    ensures HasCoefs(RegionPolys(plan, bases, m, seeds, sigs, i, ops, |ops|),
                     RegionValues(plan, bases, m, Primal(plan, bases, m, sig), i, ops, |ops|), 0)
  {
    var sol := Primal(plan, bases, m, sig);
    var polys := RegionPolys(plan, bases, m, seeds, sigs, i, ops, |ops|);
    var vals := RegionValues(plan, bases, m, sol, i, ops, |ops|);
    PrimalIsAtZero(plan, bases, m, seeds, sig);
    NotMoved(m, seeds);
    SameRegion(plan, bases, Moved(m, seeds, 0.0), m, sol, i, ops, |ops|);
    forall l | 0 <= l < |vals| ensures vals[l] == Coef(polys[l], 0) {
      RegionAlongLine(plan, bases, m, seeds, sig, dsig, i, ops, sigs, l, 0.0);
      AtZero(m.prims, polys[l]);
    }
  }

  /** Region tangents are first-order coefficients. */
  lemma {:induction false} RegionSlope(
      plan: Plan, bases: Bases, m: Machine, seeds: Seeds, sig: seq<real>, dsig: seq<real>, i: nat, ops: seq<Op>,
      sigs: seq<Poly>)
    requires TangentShape(plan) && RegionArgs(plan, i, ops, |ops|) && ExactRing(m.prims)
    requires |sigs| == |sig| == |dsig|
    requires forall s: nat {:trigger RegionReads(plan, i, ops, s)} | RegionReads(plan, i, ops, s) ::
      s < |sig| && SignalOk(plan, bases, m, seeds, sig, s, sigs[s], dsig[s])
    ensures HasCoefs(RegionPolys(plan, bases, m, seeds, sigs, i, ops, |ops|),
                     RegionTangents(plan, bases, m, seeds, Primal(plan, bases, m, sig), dsig, i, ops, |ops|), 1)
  {
    RegionPrimal(plan, bases, m, seeds, sig, dsig, i, ops, sigs);
    assert TangentReads(plan, i, ops, sigs, dsig);
    RegionPolysTangent(plan, bases, m, seeds, sigs, Primal(plan, bases, m, sig), dsig, i, ops, |ops|);
  }

  // ---------------------------------------------------------------------------------------
  // Block by block
  // ---------------------------------------------------------------------------------------

  /** The op that drives signal `s` of block `i`. */
  ghost function DriverOp(plan: Plan, i: nat, s: nat): nat
    requires WritesAll(plan) && BlocksOk(plan) && i < |plan.blocks| && Owns(plan.blocks, i, s)
    ensures DriverOp(plan, i, s) < |plan.blocks[i].alg.ops|
  {
    var b, k := plan.blocks[i], s - SigStart(plan.blocks, i);
    assert Writer(b, |b.alg.writes|, k).Some?;
    WriterInRange(b, |b.alg.writes|, k);
    Writer(b, |b.alg.writes|, k).value
  }

  lemma {:induction false} OwnersTakePart(
      plan: Plan, wires: seq<FlatWire>, exts: seq<ExtWire>, deps: T.Deps, i: nat, s: nat)
    requires Ordered(plan, wires, exts, deps) && WritesAll(plan) && i < |plan.blocks| && Owns(plan.blocks, i, s)
    ensures TakesPart(plan, i) && plan.outOff[i] == Some(SigStart(plan.blocks, i))
  {
    var b, k := plan.blocks[i], s - SigStart(plan.blocks, i);
    assert Writer(b, |b.alg.writes|, k).Some?;
  }

  /** In a solution, a signal holds its driver's value. */
  lemma {:induction false} SolvedSignal(
      plan: Plan, bases: Bases, m: Machine, wires: seq<FlatWire>, exts: seq<ExtWire>, deps: T.Deps, sol: seq<real>,
      i: nat, s: nat)
    requires Ordered(plan, wires, exts, deps) && WritesAll(plan) && i < |plan.blocks| && s < |sol|
             && Owns(plan.blocks, i, s)
    requires BlockSettled(plan, bases, m, sol, i)
    ensures sol[s] == BlockValues(plan, bases, m, sol, i)[DriverOp(plan, i, s)]
  {
    OwnersTakePart(plan, wires, exts, deps, i, s);
    assert BlockStep(plan, bases, m, sol, i)[s] == sol[s];
  }

  ghost function NextPolys(
      plan: Plan, bases: Bases, m: Machine, seeds: Seeds, sigs: seq<Poly>, i: nat): (next: seq<Poly>)
    requires TangentShape(plan) && WritesAll(plan) && i < |plan.blocks|
    ensures |next| == |sigs|
    ensures forall s: nat | s < |sigs| ::
              next[s] ==
              if Owns(plan.blocks, i, s) then BlockPolys(plan, bases, m, seeds, sigs, i)[DriverOp(plan, i, s)]
              else sigs[s]
  {
    seq(|sigs|, s requires 0 <= s < |sigs| =>
      if Owns(plan.blocks, i, s) then BlockPolys(plan, bases, m, seeds, sigs, i)[DriverOp(plan, i, s)] else sigs[s])
  }

  lemma {:induction false} TangentStepAt(
      plan: Plan, bases: Bases, m: Machine, wires: seq<FlatWire>, exts: seq<ExtWire>, deps: T.Deps, seeds: Seeds,
      sig: seq<real>, dsig: seq<real>, i: nat, s: nat)
    requires JvpArgs(plan, wires, exts, deps, m.prims) && TangentShape(plan) && i < |plan.blocks| && s < |dsig|
    ensures TangentStep(plan, bases, m, seeds, sig, dsig, i)[s] ==
            if Owns(plan.blocks, i, s) then BlockTangents(plan, bases, m, seeds, sig, dsig, i)[DriverOp(plan, i, s)]
            else dsig[s]
  {
    var b := plan.blocks[i];
    if Owns(plan.blocks, i, s) {
      OwnersTakePart(plan, wires, exts, deps, i, s);
    } else if TakesPart(plan, i) && s >= plan.outOff[i].value {
      if Writer(b, |b.alg.writes|, s - plan.outOff[i].value).Some? {
        WriterInRange(b, |b.alg.writes|, s - plan.outOff[i].value);
      }
    }
  }

  /** A signal of the block that runs next is expanded by the block's own expansion. */
  lemma {:induction false} OwnSignal(
      plan: Plan, bases: Bases, m: Machine, wires: seq<FlatWire>, exts: seq<ExtWire>, deps: T.Deps, seeds: Seeds,
      sig: seq<real>, dsig: seq<real>, n: nat, sigs: seq<Poly>, s: nat)
    requires JvpArgs(plan, wires, exts, deps, m.prims) && TangentShape(plan) && |sig| == plan.nSig
    requires n < |plan.topo| && ExpandedTo(plan, bases, m, seeds, sig, dsig, n, sigs)
    requires s < |sig| && Owns(plan.blocks, plan.topo[n], s)
    ensures SignalOk(plan, bases, m, seeds, sig, s,
                     BlockPolys(plan, bases, m, seeds, sigs, plan.topo[n])[DriverOp(plan, plan.topo[n], s)],
                     BlockTangents(plan, bases, m, seeds, Primal(plan, bases, m, sig), dsig, plan.topo[n])
                       [DriverOp(plan, plan.topo[n], s)])
  {
    var i := plan.topo[n];
    var ops, l := plan.blocks[i].alg.ops, DriverOp(plan, i, s);
    forall t: nat | RegionReads(plan, i, ops, t)
      ensures t < |sig| && SignalOk(plan, bases, m, seeds, sig, t, sigs[t], dsig[t])
    {
      ReadsAreExpanded(plan, bases, m, wires, exts, deps, seeds, sig, dsig, n, sigs, t);
    }
    forall h: real
      ensures SolutionAt(plan, bases, m, seeds, sig, h)[s] ==
              At(m.prims, BlockPolys(plan, bases, m, seeds, sigs, i)[l], h)
    {
      var mh := Moved(m, seeds, h);
      PassSolves(plan, bases, mh, wires, exts, deps, sig);
      var sol := SolutionAt(plan, bases, m, seeds, sig, h);
      assert BlockSettled(plan, bases, mh, sol, i);
      SolvedSignal(plan, bases, mh, wires, exts, deps, sol, i, s);
      RegionAlongLine(plan, bases, m, seeds, sig, dsig, i, ops, sigs, l, h);
    }
    RegionSlope(plan, bases, m, seeds, sig, dsig, i, ops, sigs);
    assert BlockTangents(plan, bases, m, seeds, Primal(plan, bases, m, sig), dsig, i)[l] ==
           Coef(BlockPolys(plan, bases, m, seeds, sigs, i)[l], 1);
  }

  lemma {:induction false} ExpandNext(
      plan: Plan, bases: Bases, m: Machine, wires: seq<FlatWire>, exts: seq<ExtWire>, deps: T.Deps, seeds: Seeds,
      sig: seq<real>, dsig: seq<real>, n: nat, sigs: seq<Poly>)
    requires JvpArgs(plan, wires, exts, deps, m.prims) && TangentShape(plan) && |sig| == plan.nSig
    requires n < |plan.topo| && ExpandedTo(plan, bases, m, seeds, sig, dsig, n, sigs)
    ensures ExpandedTo(plan, bases, m, seeds, sig,
                       TangentStep(plan, bases, m, seeds, Primal(plan, bases, m, sig), dsig, plan.topo[n]), n + 1,
                       NextPolys(plan, bases, m, seeds, sigs, plan.topo[n]))
  {
    var i := plan.topo[n];
    var next := NextPolys(plan, bases, m, seeds, sigs, i);
    var dnext := TangentStep(plan, bases, m, seeds, Primal(plan, bases, m, sig), dsig, i);
    forall k: nat, s: nat | k < n + 1 && s < |sig| && Owns(plan.blocks, plan.topo[k], s)
      ensures SignalOk(plan, bases, m, seeds, sig, s, next[s], dnext[s])
    {
      TangentStepAt(plan, bases, m, wires, exts, deps, seeds, Primal(plan, bases, m, sig), dsig, i, s);
      if k == n {
        OwnSignal(plan, bases, m, wires, exts, deps, seeds, sig, dsig, n, sigs, s);
      } else {
        LaterIsNotAwaited(plan.topo, deps, k, n);
        if Owns(plan.blocks, i, s) { OwnersDiffer(plan.blocks, i, plan.topo[k], s); }
        assert Owns(plan.blocks, plan.topo[k], s);
      }
    }
  }

  /** Expansions of the signals of the first `n` blocks, with `d_sig` as their slopes. */
  lemma {:induction false} PassExpands(
      plan: Plan, bases: Bases, m: Machine, wires: seq<FlatWire>, exts: seq<ExtWire>, deps: T.Deps, seeds: Seeds,
      sig: seq<real>, dsig: seq<real>, n: nat) returns (sigs: seq<Poly>)
    requires JvpArgs(plan, wires, exts, deps, m.prims) && TangentShape(plan) && |sig| == |dsig| == plan.nSig
    requires n <= |plan.topo|
    ensures ExpandedTo(plan, bases, m, seeds, sig,
                       TangentPassTo(plan, bases, m, seeds, Primal(plan, bases, m, sig), dsig, n), n, sigs)
    decreases n
  {
    var sol := Primal(plan, bases, m, sig);
    if n == 0 {
      sigs := seq(|sig|, _ => []);
      assert TangentPassTo(plan, bases, m, seeds, sol, dsig, 0) == dsig;
      NothingExpanded(plan, bases, m, seeds, sig, dsig, sigs);
    } else {
      var k: nat := n - 1;
      var before := PassExpands(plan, bases, m, wires, exts, deps, seeds, sig, dsig, k);
      var d := TangentPassTo(plan, bases, m, seeds, sol, dsig, k);
      var dnext := TangentStep(plan, bases, m, seeds, sol, d, plan.topo[k]);
      sigs := NextPolys(plan, bases, m, seeds, before, plan.topo[k]);
      assert ExpandedTo(plan, bases, m, seeds, sig, dnext, k + 1, sigs) by {
        ExpandNext(plan, bases, m, wires, exts, deps, seeds, sig, d, k, before);
      }
      assert TangentPassTo(plan, bases, m, seeds, sol, dsig, n) == dnext;
    }
  }

  lemma {:induction false} NothingExpanded(
      plan: Plan, bases: Bases, m: Machine, seeds: Seeds, sig: seq<real>, dsig: seq<real>, sigs: seq<Poly>)
    requires TangentShape(plan) && |sigs| == |sig| == |dsig|
    ensures ExpandedTo(plan, bases, m, seeds, sig, dsig, 0, sigs)
  {
  }

  // ---------------------------------------------------------------------------------------
  // The derivatives
  // ---------------------------------------------------------------------------------------

  /** The model's state derivative, read off op `src` of block `i`'s dynamic region, at distance `h`. */
  ghost function DerivAt(
      plan: Plan, bases: Bases, m: Machine, seeds: Seeds, sig: seq<real>, i: nat, src: nat, h: real): real
    requires TangentShape(plan) && i < |plan.blocks| && SsaOps(plan.blocks[i].dyn.ops) && src < |plan.blocks[i].dyn.ops|
  {
    var ops := plan.blocks[i].dyn.ops;
    RegionValues(plan, bases, Moved(m, seeds, h), SolutionAt(plan, bases, m, seeds, sig, h), i, ops, |ops|)[src]
  }

  /** The emitted `d_dxdt` entry. */
  ghost function DerivTangent(
      plan: Plan, bases: Bases, m: Machine, seeds: Seeds, sig: seq<real>, dsig: seq<real>, i: nat, src: nat): real
    requires TangentShape(plan) && i < |plan.blocks| && src < |plan.blocks[i].dyn.ops|
    requires SsaOps(plan.blocks[i].dyn.ops) && RingOps(plan.blocks[i].dyn.ops)
  {
    var ops, sol := plan.blocks[i].dyn.ops, Primal(plan, bases, m, sig);
    RegionTangents(plan, bases, m, seeds, sol, TangentPassTo(plan, bases, m, seeds, sol, dsig, |plan.topo|), i, ops,
      |ops|)[src]
  }

  /** Input elements of dynamic regions read existing signals. */
  lemma {:induction false} EverySignalIsExpanded(
      plan: Plan, bases: Bases, m: Machine, wires: seq<FlatWire>, exts: seq<ExtWire>, deps: T.Deps, seeds: Seeds,
      sig: seq<real>, dsig: seq<real>, sigs: seq<Poly>, i: nat, ops: seq<Op>, s: nat)
    requires JvpArgs(plan, wires, exts, deps, m.prims) && TangentShape(plan) && |sig| == plan.nSig && i < |plan.blocks|
    requires ExpandedTo(plan, bases, m, seeds, sig, dsig, |plan.topo|, sigs) && RegionReads(plan, i, ops, s)
    ensures s < |sig| && SignalOk(plan, bases, m, seeds, sig, s, sigs[s], dsig[s])
  {
    var l :| 0 <= l < |ops| && Reads(plan, i, ops[l], s);
    var flat := SizeSum(plan.blocks[i].inSizes, ops[l].port) + ops[l].elem;
    assert plan.inputSrc[i][flat] == SignalOf(plan.blocks, LastWire(wires, |wires|, i, flat));
    var src := LastWire(wires, |wires|, i, flat).value;
    LastWireIsAWire(wires, |wires|, i, flat);
    assert FlatWire(src, ElemRef(i, flat)) in wires && Owns(plan.blocks, src.block, s);
    OwnedInRange(plan, src.block, s);
    assert src.block in plan.topo;
    var k :| 0 <= k < |plan.topo| && plan.topo[k] == src.block;
    assert Owns(plan.blocks, plan.topo[k], s);
  }

  /** Forward differentiation is exact: along every seed, at every distance `h`, each state derivative
      equals its value plus `h` times the emitted tangent plus `h * h` times a polynomial in `h`. */
  lemma {:induction false} ForwardDifferentiationIsExact(
      plan: Plan, bases: Bases, m: Machine, wires: seq<FlatWire>, exts: seq<ExtWire>, deps: T.Deps, seeds: Seeds,
      sig: seq<real>, dsig: seq<real>, i: nat, src: nat) returns (rest: Poly)
    requires JvpArgs(plan, wires, exts, deps, m.prims) && TangentShape(plan) && |sig| == |dsig| == plan.nSig
    requires i < |plan.blocks| && src < |plan.blocks[i].dyn.ops|
    requires SsaOps(plan.blocks[i].dyn.ops) && RingOps(plan.blocks[i].dyn.ops)
    ensures forall h: real {:trigger DerivAt(plan, bases, m, seeds, sig, i, src, h)} ::
              DerivAt(plan, bases, m, seeds, sig, i, src, h) ==
              SecondOrder(h, DerivAt(plan, bases, m, seeds, sig, i, src, 0.0),
                          DerivTangent(plan, bases, m, seeds, sig, dsig, i, src), At(m.prims, rest, h))
  {
    var sol := Primal(plan, bases, m, sig);
    var d := TangentPassTo(plan, bases, m, seeds, sol, dsig, |plan.topo|);
    var sigs := PassExpands(plan, bases, m, wires, exts, deps, seeds, sig, dsig, |plan.topo|);
    var ops := plan.blocks[i].dyn.ops;
    forall s: nat | RegionReads(plan, i, ops, s)
      ensures s < |sig| && SignalOk(plan, bases, m, seeds, sig, s, sigs[s], d[s])
    {
      EverySignalIsExpanded(plan, bases, m, wires, exts, deps, seeds, sig, d, sigs, i, ops, s);
    }
    var polys := RegionPolys(plan, bases, m, seeds, sigs, i, ops, |ops|);
    var f := polys[src];
    RegionSlope(plan, bases, m, seeds, sig, d, i, ops, sigs);
    assert Coef(f, 1) == DerivTangent(plan, bases, m, seeds, sig, dsig, i, src);
    rest := Remainder(f);
    DerivAlongLine(plan, bases, m, seeds, sig, d, i, src, sigs, 0.0);
    AtZero(m.prims, f);
    forall h: real
      ensures DerivAt(plan, bases, m, seeds, sig, i, src, h) ==
              SecondOrder(h, Coef(f, 0), Coef(f, 1), At(m.prims, rest, h))
    {
      DerivAlongLine(plan, bases, m, seeds, sig, d, i, src, sigs, h);
      Expansion(m.prims, f, h);
    }
  }

  lemma {:induction false} DerivAlongLine(
      plan: Plan, bases: Bases, m: Machine, seeds: Seeds, sig: seq<real>, dsig: seq<real>, i: nat, src: nat,
      sigs: seq<Poly>, h: real)
    requires TangentShape(plan) && i < |plan.blocks| && ExactRing(m.prims) && |sigs| == |sig| == |dsig|
    requires SsaOps(plan.blocks[i].dyn.ops) && RingOps(plan.blocks[i].dyn.ops) && src < |plan.blocks[i].dyn.ops|
    requires forall s: nat {:trigger RegionReads(plan, i, plan.blocks[i].dyn.ops, s)} |
               RegionReads(plan, i, plan.blocks[i].dyn.ops, s) ::
               s < |sig| && SignalOk(plan, bases, m, seeds, sig, s, sigs[s], dsig[s])
    ensures DerivAt(plan, bases, m, seeds, sig, i, src, h) ==
            At(m.prims, RegionPolys(plan, bases, m, seeds, sigs, i, plan.blocks[i].dyn.ops,
              |plan.blocks[i].dyn.ops|)[src], h)
  {
    RegionAlongLine(plan, bases, m, seeds, sig, dsig, i, plan.blocks[i].dyn.ops, sigs, src, h);
  }

  // ---------------------------------------------------------------------------------------
  // The emitted pass
  // ---------------------------------------------------------------------------------------

  /** One region: each op's value and, next to it, its tangent. */
  method RunRegion(
      plan: Plan, bases: Bases, m: Machine, seeds: Seeds, sig: seq<real>, dsig: seq<real>, i: nat, ops: seq<Op>)
    returns (vals: seq<real>, dvals: seq<real>)
    requires RegionArgs(plan, i, ops, |ops|)
    ensures vals == RegionValues(plan, bases, m, sig, i, ops, |ops|)
    ensures dvals == RegionTangents(plan, bases, m, seeds, sig, dsig, i, ops, |ops|)
  {
    vals, dvals := [], [];
    for l := 0 to |ops|
      invariant vals == RegionValues(plan, bases, m, sig, i, ops, l)
      invariant dvals == RegionTangents(plan, bases, m, seeds, sig, dsig, i, ops, l)
    {
      assert SsaOp(ops[l], l) && RingOp(ops[l]);
      var v := OpValue(plan, bases, m, sig, i, ops[l], vals);
      var d := TangentOf(plan, bases, m.prims, seeds, dsig, i, ops[l], vals, dvals);
      vals, dvals := vals + [v], dvals + [d];
    }
  }

  /** The stores of a block's output tangents. */
  method StoreTangents(b: Block, base: nat, dvals: seq<real>, dsig: seq<real>) returns (out: seq<real>)
    requires WritesOk(b) && |dvals| == |b.alg.ops|
    ensures out == Written(b, base, |b.alg.writes|, dvals, dsig)
  {
    out := dsig;
    assert Written(b, base, 0, dvals, dsig) == dsig;
    for n := 0 to |b.alg.writes|
      invariant out == Written(b, base, n, dvals, dsig)
    {
      var w := b.alg.writes[n];
      assert w in b.alg.writes;
      WrittenSnoc(b, base, n, dvals, dsig);
      if w.Output? && Target(b, base, w) < |out| {
        out := out[Target(b, base, w) := dvals[w.src]];
      }
    }
  }

  /** The tangent pass of `model_jvp`, after the signals have been refreshed. */
  method RunTangentPass(plan: Plan, bases: Bases, m: Machine, seeds: Seeds, sig: seq<real>, dsig0: seq<real>)
    returns (dsig: seq<real>)
    requires TangentShape(plan)
    ensures dsig == TangentPassTo(plan, bases, m, seeds, sig, dsig0, |plan.topo|)
  {
    dsig := dsig0;
    for n := 0 to |plan.topo|
      invariant dsig == TangentPassTo(plan, bases, m, seeds, sig, dsig0, n)
    {
      var i := plan.topo[n];
      if TakesPart(plan, i) {
        var _, dvals := RunRegion(plan, bases, m, seeds, sig, dsig, i, plan.blocks[i].alg.ops);
        dsig := StoreTangents(plan.blocks[i], plan.outOff[i].value, dvals, dsig);
      }
    }
  }
}

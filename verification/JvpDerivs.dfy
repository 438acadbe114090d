/** The derivative loop of the emitted `model_jvp` (`build_struct_jvp` in `src/codegen/system.rs`): every state's
    entry of `d_dxdt` is the tangent of the last derivative its block writes for it. */
module JvpDerivs {
  import opened Wrappers
  import opened Ir
  import opened OpSemantics
  import opened Polynomial
  import opened FlatWires
  import opened SystemPlan
  import opened AlgebraicPass
  import opened Jvp
  import opened JvpPass
  import T = TopoOrder

  /** Derivative writes name states of the block and ops of its dynamic region. */
  ghost predicate DynOk(b: Block) {
    && SsaOps(b.dyn.ops) && RingOps(b.dyn.ops)
    && forall n {:trigger b.dyn.writes[n]} | 0 <= n < |b.dyn.writes| ::
         b.dyn.writes[n].src < |b.dyn.ops| && (b.dyn.writes[n].StateDeriv? ==> b.dyn.writes[n].id < |b.state|)
  }

  ghost predicate DynsOk(plan: Plan) {
    && OffsetsOk(plan.blocks, plan.outOff, plan.stateOff)
    && forall i {:trigger plan.blocks[i]} | 0 <= i < |plan.blocks| :: DynOk(plan.blocks[i])
  }

  lemma {:induction false} WrittenSrc(b: Block, n: nat, id: nat)
    requires DynOk(b) && n <= |b.dyn.writes| && LastDeriv(b.dyn.writes, n, id).Some?
    ensures LastDeriv(b.dyn.writes, n, id).value < |b.dyn.ops|
  {
    LastDerivIsWritten(b.dyn.writes, n, id);
  }

  // ---------------------------------------------------------------------------------------
  // One block
  // ---------------------------------------------------------------------------------------

  /** What entry `q` holds after the block's first `n` writes. */
  ghost function StoredAt(b: Block, base: nat, n: nat, dvals: seq<real>, was: seq<real>, q: nat): real
    requires DynOk(b) && |dvals| == |b.dyn.ops| && n <= |b.dyn.writes| && q < |was|
  {
    if q < base || LastDeriv(b.dyn.writes, n, q - base).None? then was[q]
    else
      WrittenSrc(b, n, q - base);
      dvals[LastDeriv(b.dyn.writes, n, q - base).value]
  }

  method StoreDerivs(b: Block, base: nat, dvals: seq<real>, was: seq<real>) returns (ddx: seq<real>)
    requires DynOk(b) && |dvals| == |b.dyn.ops| && base + |b.state| <= |was|
    ensures |ddx| == |was|
    ensures forall q: nat | q < |was| :: ddx[q] == StoredAt(b, base, |b.dyn.writes|, dvals, was, q)
  {
    ddx := was;
    for n := 0 to |b.dyn.writes|
      invariant |ddx| == |was| && forall q: nat | q < |was| :: ddx[q] == StoredAt(b, base, n, dvals, was, q)
    {
      var w := b.dyn.writes[n];
      if w.StateDeriv? {
        ddx := ddx[base + w.id := dvals[w.src]];
      }
    }
  }

  /** A block's writes stay within its own states. */
  lemma {:induction false} OtherEntriesStay(b: Block, base: nat, n: nat, dvals: seq<real>, was: seq<real>, q: nat)
    requires DynOk(b) && |dvals| == |b.dyn.ops| && n <= |b.dyn.writes| && q < |was|
    requires q < base || base + |b.state| <= q
    ensures StoredAt(b, base, n, dvals, was, q) == was[q]
  {
    if q >= base && LastDeriv(b.dyn.writes, n, q - base).Some? {
      LastDerivIsWritten(b.dyn.writes, n, q - base);
    }
  }

  // ---------------------------------------------------------------------------------------
  // All blocks
  // ---------------------------------------------------------------------------------------

  ghost predicate PassArgs(plan: Plan, was: seq<real>) {
    TangentShape(plan) && DynsOk(plan) && |was| == StateStart(plan.blocks, |plan.blocks|)
  }

  /** The entry of state `id` of block `i`: the tangent of its last derivative, or what was there. */
  ghost function Entry(
      plan: Plan, bases: Bases, m: Machine, seeds: Seeds, sig: seq<real>, dsig: seq<real>, i: nat, id: nat, was: real):
    real
    requires TangentShape(plan) && DynsOk(plan) && i < |plan.blocks|
  {
    var b := plan.blocks[i];
    match LastDeriv(b.dyn.writes, |b.dyn.writes|, id)
    case None => was
    case Some(src) =>
      WrittenSrc(b, |b.dyn.writes|, id);
      RegionTangents(plan, bases, m, seeds, sig, dsig, i, b.dyn.ops, |b.dyn.ops|)[src]
  }

  ghost predicate EntryHolds(
      plan: Plan, bases: Bases, m: Machine, seeds: Seeds, sig: seq<real>, dsig: seq<real>, was: seq<real>,
      ddx: seq<real>, i: nat, id: nat)
    requires TangentShape(plan) && DynsOk(plan) && i < |plan.blocks|
  {
    var q := StateStart(plan.blocks, i) + id;
    q < |ddx| == |was| && ddx[q] == Entry(plan, bases, m, seeds, sig, dsig, i, id, was[q])
  }

  /** The table after the first `n` blocks. */
  ghost predicate DerivedTo(
      plan: Plan, bases: Bases, m: Machine, seeds: Seeds, sig: seq<real>, dsig: seq<real>, was: seq<real>,
      ddx: seq<real>, n: nat)
    requires PassArgs(plan, was) && n <= |plan.blocks|
  {
    && |ddx| == |was|
    && (forall q: nat | StateStart(plan.blocks, n) <= q < |was| :: ddx[q] == was[q])
    && (forall i: nat, id: nat {:trigger EntryHolds(plan, bases, m, seeds, sig, dsig, was, ddx, i, id)}
          | i < n && Integrates(plan.blocks[i]) && id < |plan.blocks[i].state| ::
          EntryHolds(plan, bases, m, seeds, sig, dsig, was, ddx, i, id))
  }

  lemma {:induction false} DerivedSnoc(
      plan: Plan, bases: Bases, m: Machine, seeds: Seeds, sig: seq<real>, dsig: seq<real>, was: seq<real>,
      ddx: seq<real>, n: nat, next: seq<real>)
    requires PassArgs(plan, was) && n < |plan.blocks| && Integrates(plan.blocks[n])
    requires DerivedTo(plan, bases, m, seeds, sig, dsig, was, ddx, n) && |next| == |was|
    requires var b := plan.blocks[n];
             var dvals := RegionTangents(plan, bases, m, seeds, sig, dsig, n, b.dyn.ops, |b.dyn.ops|);
             forall q: nat | q < |was| ::
               next[q] == StoredAt(b, StateStart(plan.blocks, n), |b.dyn.writes|, dvals, ddx, q)
    ensures DerivedTo(plan, bases, m, seeds, sig, dsig, was, next, n + 1)
  {
    var b, base := plan.blocks[n], StateStart(plan.blocks, n);
    var dvals := RegionTangents(plan, bases, m, seeds, sig, dsig, n, b.dyn.ops, |b.dyn.ops|);
    forall q: nat | StateStart(plan.blocks, n + 1) <= q < |was| ensures next[q] == was[q] {
      OtherEntriesStay(b, base, |b.dyn.writes|, dvals, ddx, q);
    }
    StateStartFits(plan.blocks, n);
    forall i: nat, id: nat | i < n + 1 && Integrates(plan.blocks[i]) && id < |plan.blocks[i].state|
      ensures EntryHolds(plan, bases, m, seeds, sig, dsig, was, next, i, id)
    {
      if i < n {
        assert EntryHolds(plan, bases, m, seeds, sig, dsig, was, ddx, i, id);
        StateStartMonotone(plan.blocks, i, n);
        OtherEntriesStay(b, base, |b.dyn.writes|, dvals, ddx, StateStart(plan.blocks, i) + id);
      }
    }
  }

  lemma {:induction false} StateStartFits(blocks: seq<Block>, n: nat)
    requires n < |blocks| && Integrates(blocks[n])
    ensures StateStart(blocks, n) + |blocks[n].state| <= StateStart(blocks, |blocks|)
  {
    StateStartMonotone(blocks, n, |blocks|);
  }

  /** The loop over the dynamic regions. */
  method RunDerivPass(
      plan: Plan, bases: Bases, m: Machine, seeds: Seeds, sig: seq<real>, dsig: seq<real>, was: seq<real>)
    returns (ddx: seq<real>)
    requires PassArgs(plan, was)
    ensures DerivedTo(plan, bases, m, seeds, sig, dsig, was, ddx, |plan.blocks|)
  {
    ddx := was;
    for n := 0 to |plan.blocks|
      invariant DerivedTo(plan, bases, m, seeds, sig, dsig, was, ddx, n)
    {
      var b := plan.blocks[n];
      if plan.stateOff[n].Some? {
        StateStartFits(plan.blocks, n);
        ghost var before := ddx;
        if b.dyn.ops != [] || b.dyn.writes != [] {
          var _, dvals := RunRegion(plan, bases, m, seeds, sig, dsig, n, b.dyn.ops);
          ddx := StoreDerivs(b, plan.stateOff[n].value, dvals, ddx);
        }
        DerivedSnoc(plan, bases, m, seeds, sig, dsig, was, before, n, ddx);
      }
    }
  }

  /** The whole of `model_jvp`: `sig` are the refreshed signals. */
  method RunJvp(
      plan: Plan, bases: Bases, m: Machine, seeds: Seeds, sig: seq<real>, dsig0: seq<real>, was: seq<real>,
      ghost stale: seq<real>)
    returns (dsig: seq<real>, ddx: seq<real>)
    requires PassArgs(plan, was) && sig == Primal(plan, bases, m, stale)
    ensures dsig == TangentPassTo(plan, bases, m, seeds, sig, dsig0, |plan.topo|)
    ensures DerivedTo(plan, bases, m, seeds, sig, dsig, was, ddx, |plan.blocks|)
  {
    dsig := RunTangentPass(plan, bases, m, seeds, sig, dsig0);
    ddx := RunDerivPass(plan, bases, m, seeds, sig, dsig, was);
  }

  /** End to end: the entry `model_jvp` stores for a state with a derivative is the exact slope of that derivative
      along the seeds. */
  lemma {:induction false} StoredTangentsAreExact(
      plan: Plan, bases: Bases, m: Machine, wires: seq<FlatWire>, exts: seq<ExtWire>, deps: T.Deps, seeds: Seeds,
      stale: seq<real>, dsig0: seq<real>, was: seq<real>, ddx: seq<real>, i: nat, id: nat, src: nat)
    returns (rest: Poly)
    requires JvpArgs(plan, wires, exts, deps, m.prims) && PassArgs(plan, was) && |stale| == |dsig0| == plan.nSig
    requires i < |plan.blocks| && Integrates(plan.blocks[i]) && id < |plan.blocks[i].state|
    requires LastDeriv(plan.blocks[i].dyn.writes, |plan.blocks[i].dyn.writes|, id) == Some(src)
    requires var sig := Primal(plan, bases, m, stale);
             DerivedTo(plan, bases, m, seeds, sig, TangentPassTo(plan, bases, m, seeds, sig, dsig0, |plan.topo|),
                       was, ddx, |plan.blocks|)
    ensures src < |plan.blocks[i].dyn.ops| && StateStart(plan.blocks, i) + id < |ddx|
    ensures forall h: real {:trigger DerivAt(plan, bases, m, seeds, stale, i, src, h)} ::
              DerivAt(plan, bases, m, seeds, stale, i, src, h) ==
              SecondOrder(h, DerivAt(plan, bases, m, seeds, stale, i, src, 0.0), ddx[StateStart(plan.blocks, i) + id],
                          At(m.prims, rest, h))
  {
    var b := plan.blocks[i];
    WrittenSrc(b, |b.dyn.writes|, id);
    var sig := Primal(plan, bases, m, stale);
    var dsig := TangentPassTo(plan, bases, m, seeds, sig, dsig0, |plan.topo|);
    assert EntryHolds(plan, bases, m, seeds, sig, dsig, was, ddx, i, id);
    rest := ForwardDifferentiationIsExact(plan, bases, m, wires, exts, deps, seeds, stale, dsig0, i, src);
  }
}

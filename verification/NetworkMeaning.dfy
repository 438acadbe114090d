/** What the emitted algebraic pass and its tangents read and write, in terms of the blocks and wires alone, and the
    equations of the network that the pass therefore solves (`StructLeaves`, `TangentLeaves` and `build_struct_ctx` in
    `src/codegen/system.rs`). */
module NetworkMeaning {
  import opened Wrappers
  import opened Ir
  import opened Lut
  import opened OpSemantics
  import opened FlatWires
  import opened SystemPlan
  import opened AlgebraicPass
  import opened NetworkSolution
  import opened Jvp
  import O = OpMeaning
  import T = TopoOrder

  // ---------------------------------------------------------------------------------------
  // What a leaf op reads
  // ---------------------------------------------------------------------------------------

  /** What flat input element `e` of block `i` reads: the external input wired to it, if there is one; otherwise the
      signal of the element wired to it; otherwise 0. */
  function ElementRead(
      blocks: seq<Block>, wires: seq<FlatWire>, exts: seq<ExtWire>, u: nat -> real, sig: seq<real>, i: nat, e: nat)
    : real
  {
    match LastExt(exts, |exts|, i, e)
    case Some(x) => u(x)
    case None =>
      match LastWire(wires, |wires|, i, e)
      case None => 0.0
      case Some(src) =>
        if src.block < |blocks| && SigStart(blocks, src.block) + src.elem < |sig| then
          sig[SigStart(blocks, src.block) + src.elem]
        else 0.0
  }

  /** The ops of a block name existing elements: `port` and `elem` an input element, states and memory slots its own. */
  predicate LeafFits(b: Block, op: Op) {
    && (op.Input? ==> op.port < |b.inSizes| && SizeSum(b.inSizes, op.port) + op.elem < Total(b.inSizes))
    && (op.State? ==> Integrates(b))
    && (op.Memory? ==> op.slot < |b.memory|)
  }

  /** Parameters and memory are where the blocks' layout puts them. */
  ghost predicate BasesOk(blocks: seq<Block>, bases: Bases) {
    ParamsLaidOut(blocks, bases.paramOff) && MemoryLaidOut(blocks, bases.memOff)
  }

  ghost predicate ReadArgs(
      plan: Plan, bases: Bases, wires: seq<FlatWire>, exts: seq<ExtWire>, deps: T.Deps, i: nat, op: Op)
  {
    && PlanShape(plan) && PlanOk(plan, wires, exts, deps) && BasesOk(plan.blocks, bases)
    && i < |plan.blocks| && IsLeaf(op) && LeafFits(plan.blocks[i], op)
  }

  /** What a leaf op of block `i` stands for. */
  function LeafMeaning(
      blocks: seq<Block>, wires: seq<FlatWire>, exts: seq<ExtWire>, m: Machine, sig: seq<real>, i: nat, op: Op): real
    requires i < |blocks| && IsLeaf(op) && LeafFits(blocks[i], op)
  {
    match op
    case Const(c) => c
    case Time => m.time
    case Input(port, elem) =>
      ElementRead(blocks, wires, exts, m.u, sig, i, SizeSum(blocks[i].inSizes, port) + elem)
    case State(id) => m.x(StateStart(blocks, i) + id)
    case Param(id) => m.p(ParamStart(blocks, i) + id)
    case Memory(slot, offset) => m.mem(MemStart(blocks, i) + SlotStart(blocks[i].memory, slot) + offset)
    case _ => 0.0
  }

  /** An op reads what the blocks and wires say. */
  lemma {:induction false} LeafReads(
      plan: Plan, bases: Bases, wires: seq<FlatWire>, exts: seq<ExtWire>, deps: T.Deps, m: Machine, sig: seq<real>,
      i: nat, op: Op, vals: seq<real>)
    requires ReadArgs(plan, bases, wires, exts, deps, i, op) && SsaOp(op, |vals|)
    ensures OpValue(plan, bases, m, sig, i, op, vals) == LeafMeaning(plan.blocks, wires, exts, m, sig, i, op)
  {
    if op.Input? { PlanEntry(plan, wires, exts, deps, i, SizeSum(plan.blocks[i].inSizes, op.port) + op.elem); }
  }

  /** So does the statement emitted for it. */
  lemma {:induction false} EmittedLeafReads(
      plan: Plan, bases: Bases, wires: seq<FlatWire>, exts: seq<ExtWire>, deps: T.Deps, m: Machine, f: Frame, i: nat,
      op: Op, args: seq<nat>)
    requires ReadArgs(plan, bases, wires, exts, deps, i, op)
    ensures EvalRvalue(m, f, RvalueOf(plan, bases, i, op, args)) ==
            LeafMeaning(plan.blocks, wires, exts, m, f.sig, i, op)
  {
    if op.Input? { PlanEntry(plan, wires, exts, deps, i, SizeSum(plan.blocks[i].inSizes, op.port) + op.elem); }
  }

  lemma {:induction false} PlanEntry(
      plan: Plan, wires: seq<FlatWire>, exts: seq<ExtWire>, deps: T.Deps, i: nat, e: nat)
    requires PlanShape(plan) && PlanOk(plan, wires, exts, deps)
    requires i < |plan.blocks| && e < Total(plan.blocks[i].inSizes)
    ensures |plan.extInput[i]| == |plan.inputSrc[i]| == Total(plan.blocks[i].inSizes)
    ensures plan.extInput[i][e] == LastExt(exts, |exts|, i, e)
    ensures plan.inputSrc[i][e] == SignalOf(plan.blocks, LastWire(wires, |wires|, i, e))
  {
  }

  /** The tangent of a leaf op: the seed or signal tangent in place of what it reads, and 0 for what is not seeded. */
  function LeafSlope(
      blocks: seq<Block>, wires: seq<FlatWire>, exts: seq<ExtWire>, seeds: Seeds, dsig: seq<real>, i: nat, op: Op): real
    requires i < |blocks| && IsLeaf(op) && LeafFits(blocks[i], op)
  {
    match op
    case Input(port, elem) =>
      ElementRead(blocks, wires, exts, seeds.u, dsig, i, SizeSum(blocks[i].inSizes, port) + elem)
    case State(id) => seeds.x(StateStart(blocks, i) + id)
    case Param(id) => seeds.p(ParamStart(blocks, i) + id)
    case _ => 0.0
  }

  lemma {:induction false} TangentLeafReads(
      plan: Plan, bases: Bases, wires: seq<FlatWire>, exts: seq<ExtWire>, deps: T.Deps, p: Prims, seeds: Seeds,
      dsig: seq<real>, i: nat, op: Op, vals: seq<real>, dvals: seq<real>)
    requires ReadArgs(plan, bases, wires, exts, deps, i, op) && RingOp(op) && |vals| == |dvals|
    requires SsaOp(op, |vals|)
    ensures TangentOf(plan, bases, p, seeds, dsig, i, op, vals, dvals) ==
            LeafSlope(plan.blocks, wires, exts, seeds, dsig, i, op)
  {
    if op.Input? { PlanEntry(plan, wires, exts, deps, i, SizeSum(plan.blocks[i].inSizes, op.port) + op.elem); }
  }

  // ---------------------------------------------------------------------------------------
  // The equations of the network
  // ---------------------------------------------------------------------------------------

  /** What an op of block `i` stands for, given the values of the ops before it. */
  function OpMeaning(
      blocks: seq<Block>, wires: seq<FlatWire>, exts: seq<ExtWire>, m: Machine, sig: seq<real>, i: nat, op: Op,
      before: seq<real>): real
    requires i < |blocks| && LeafFits(blocks[i], op) && SsaOp(op, |before|)
  {
    if IsLeaf(op) then LeafMeaning(blocks, wires, exts, m, sig, i, op)
    else Compute(m.prims, op, Operands(before, LocalOperands(op)))
  }

  ghost predicate LeavesFit(b: Block, ops: seq<Op>) {
    forall l {:trigger ops[l]} | 0 <= l < |ops| :: SsaOp(ops[l], l) && LeafFits(b, ops[l])
  }

  /** Every op of a region has the value it stands for. */
  ghost predicate RegionSolved(
      blocks: seq<Block>, wires: seq<FlatWire>, exts: seq<ExtWire>, m: Machine, sig: seq<real>, i: nat, ops: seq<Op>,
      vals: seq<real>)
    requires i < |blocks| && LeavesFit(blocks[i], ops)
  {
    |vals| == |ops| && forall l {:trigger vals[l]} | 0 <= l < |ops| ::
      vals[l] == OpMeaning(blocks, wires, exts, m, sig, i, ops[l], vals[..l])
  }

  /** The element of the block's outputs that a write names, its ports laid end to end. */
  function WrittenElem(b: Block, w: Write): nat
    requires w.Output? && w.port < |b.outSizes|
  {
    SizeSum(b.outSizes, w.port) + w.elem
  }

  /** Write `n` of a block is an output write that no later one overrides. */
  ghost predicate WriteStands(b: Block, n: nat) {
    && n < |b.alg.writes| && b.alg.writes[n].Output? && b.alg.writes[n].port < |b.outSizes|
    && forall later {:trigger b.alg.writes[later]} | n < later < |b.alg.writes| ::
         b.alg.writes[later].Output? && b.alg.writes[later].port < |b.outSizes| ==>
           WrittenElem(b, b.alg.writes[later]) != WrittenElem(b, b.alg.writes[n])
  }

  /** The signal of every output element holds the value of the op written to it last. */
  ghost predicate OutputsCarry(blocks: seq<Block>, sig: seq<real>, i: nat, vals: seq<real>)
    requires i < |blocks|
  {
    forall n {:trigger blocks[i].alg.writes[n]} | 0 <= n < |blocks[i].alg.writes| && WriteStands(blocks[i], n) ::
      var w := blocks[i].alg.writes[n];
      var s := SigStart(blocks, i) + WrittenElem(blocks[i], w);
      s < |sig| && w.src < |vals| && sig[s] == vals[w.src]
  }

  ghost predicate NetworkFits(blocks: seq<Block>) {
    forall i {:trigger blocks[i]} | 0 <= i < |blocks| :: LeavesFit(blocks[i], blocks[i].alg.ops)
  }

  /** All equations of the network hold at once: every op of every algebraic region, and every output. */
  ghost predicate NetworkSolved(
      blocks: seq<Block>, wires: seq<FlatWire>, exts: seq<ExtWire>, m: Machine, sig: seq<real>, vals: seq<seq<real>>)
    requires NetworkFits(blocks)
  {
    |vals| == |blocks| && forall i {:trigger vals[i]} | 0 <= i < |blocks| ::
      RegionSolved(blocks, wires, exts, m, sig, i, blocks[i].alg.ops, vals[i]) && OutputsCarry(blocks, sig, i, vals[i])
  }

  ghost predicate MeaningArgs(plan: Plan, bases: Bases, wires: seq<FlatWire>, exts: seq<ExtWire>, deps: T.Deps) {
    Ordered(plan, wires, exts, deps) && BasesOk(plan.blocks, bases) && NetworkFits(plan.blocks)
  }

  lemma {:induction false} OpIsItsMeaning(
      plan: Plan, bases: Bases, wires: seq<FlatWire>, exts: seq<ExtWire>, deps: T.Deps, m: Machine, sig: seq<real>,
      i: nat, op: Op, before: seq<real>)
    requires PlanShape(plan) && PlanOk(plan, wires, exts, deps) && BasesOk(plan.blocks, bases)
    requires i < |plan.blocks| && LeafFits(plan.blocks[i], op) && SsaOp(op, |before|)
    ensures OpValue(plan, bases, m, sig, i, op, before) ==
            OpMeaning(plan.blocks, wires, exts, m, sig, i, op, before)
  {
    if IsLeaf(op) { LeafReads(plan, bases, wires, exts, deps, m, sig, i, op, before); }
  }

  /** The values the lowered region computes are the one solution of the region's equations. */
  lemma {:induction false} RegionIsItsMeaning(
      plan: Plan, bases: Bases, wires: seq<FlatWire>, exts: seq<ExtWire>, deps: T.Deps, m: Machine, sig: seq<real>,
      i: nat, ops: seq<Op>, n: nat, vals: seq<real>)
    requires PlanShape(plan) && PlanOk(plan, wires, exts, deps) && BasesOk(plan.blocks, bases)
    requires i < |plan.blocks| && LeavesFit(plan.blocks[i], ops) && n == |vals| <= |ops|
    ensures vals == RegionValues(plan, bases, m, sig, i, ops, n) <==>
            forall l {:trigger vals[l]} | 0 <= l < n ::
              vals[l] == OpMeaning(plan.blocks, wires, exts, m, sig, i, ops[l], vals[..l])
    decreases n
  {
    if n > 0 {
      var front := vals[..n - 1];
      assert vals == front + [vals[n - 1]];
      RegionIsItsMeaning(plan, bases, wires, exts, deps, m, sig, i, ops, n - 1, front);
      OpIsItsMeaning(plan, bases, wires, exts, deps, m, sig, i, ops[n - 1], front);
      forall l | 0 <= l < n - 1 ensures vals[..l] == front[..l] && vals[l] == front[l] {
      }
    }
  }

  // ---------------------------------------------------------------------------------------
  // The pass solves them
  // ---------------------------------------------------------------------------------------

  /** The last writer of an element is the write that stands. */
  lemma {:induction false} StandingWriter(b: Block, m: nat, n: nat)
    requires WritesOk(b) && WriteStands(b, n) && n < m <= |b.alg.writes|
    ensures Writer(b, m, WrittenElem(b, b.alg.writes[n])) == Some(b.alg.writes[n].src)
    decreases m
  {
    if n < m - 1 {
      assert b.alg.writes[m - 1] in b.alg.writes;
      StandingWriter(b, m - 1, n);
    }
  }

  lemma {:induction false} WriterStands(b: Block, m: nat, k: nat) returns (n: nat)
    requires WritesOk(b) && m <= |b.alg.writes| && Writer(b, m, k).Some?
    requires forall later {:trigger b.alg.writes[later]} | m <= later < |b.alg.writes| ::
               b.alg.writes[later].Output? && b.alg.writes[later].port < |b.outSizes| ==>
                 WrittenElem(b, b.alg.writes[later]) != k
    ensures WriteStands(b, n) && WrittenElem(b, b.alg.writes[n]) == k && Writer(b, m, k) == Some(b.alg.writes[n].src)
    decreases m
  {
    var w := b.alg.writes[m - 1];
    assert w in b.alg.writes;
    if w.Output? && WrittenElem(b, w) == k {
      n := m - 1;
    } else {
      n := WriterStands(b, m - 1, k);
    }
  }

  lemma {:induction false} SettledCarries(
      plan: Plan, bases: Bases, m: Machine, wires: seq<FlatWire>, exts: seq<ExtWire>, deps: T.Deps, sig: seq<real>,
      i: nat)
    requires Ordered(plan, wires, exts, deps) && i < |plan.blocks| && |sig| == plan.nSig
    requires BlockSettled(plan, bases, m, sig, i)
    ensures OutputsCarry(plan.blocks, sig, i, BlockValues(plan, bases, m, sig, i))
  {
    var b := plan.blocks[i];
    var vals := BlockValues(plan, bases, m, sig, i);
    forall n | 0 <= n < |b.alg.writes| && WriteStands(b, n)
      ensures var s := SigStart(plan.blocks, i) + WrittenElem(b, b.alg.writes[n]);
              s < |sig| && b.alg.writes[n].src < |vals| && sig[s] == vals[b.alg.writes[n].src]
    {
      assert b.alg.writes[n] in b.alg.writes;
      var k := WrittenElem(b, b.alg.writes[n]);
      StandingWriter(b, |b.alg.writes|, n);
      SigStartMonotone(plan.blocks, i, |plan.blocks|);
      assert plan.outOff[i] == Some(SigStart(plan.blocks, i)) && TakesPart(plan, i);
      assert BlockStep(plan, bases, m, sig, i)[SigStart(plan.blocks, i) + k] == sig[SigStart(plan.blocks, i) + k];
    }
  }

  lemma {:induction false} CarriesSettled(
      plan: Plan, bases: Bases, m: Machine, wires: seq<FlatWire>, exts: seq<ExtWire>, deps: T.Deps, sig: seq<real>,
      i: nat)
    requires Ordered(plan, wires, exts, deps) && i < |plan.blocks| && |sig| == plan.nSig
    requires OutputsCarry(plan.blocks, sig, i, BlockValues(plan, bases, m, sig, i))
    ensures BlockSettled(plan, bases, m, sig, i)
  {
    var b := plan.blocks[i];
    var next := BlockStep(plan, bases, m, sig, i);
    forall s | 0 <= s < |sig| ensures next[s] == sig[s] {
      if Owns(plan.blocks, i, s) && TakesPart(plan, i) {
        var k := s - SigStart(plan.blocks, i);
        if Writer(b, |b.alg.writes|, k).Some? {
          var n := WriterStands(b, |b.alg.writes|, k);
          assert b.alg.writes[n] == b.alg.writes[n];
        }
      } else {
        if !Owns(plan.blocks, i, s) { StepIsLocal(plan, bases, m, sig, i, s, wires, exts, deps); }
      }
    }
  }

  /** The values of all algebraic regions on these signals. */
  ghost function AllValues(plan: Plan, bases: Bases, m: Machine, sig: seq<real>): (vals: seq<seq<real>>)
    requires PlanShape(plan) && BlocksOk(plan)
    ensures |vals| == |plan.blocks|
    ensures forall i {:trigger vals[i]} | 0 <= i < |vals| :: vals[i] == BlockValues(plan, bases, m, sig, i)
  {
    seq(|plan.blocks|, i requires 0 <= i < |plan.blocks| => BlockValues(plan, bases, m, sig, i))
  }

  lemma {:induction false} BlockIsItsMeaning(
      plan: Plan, bases: Bases, wires: seq<FlatWire>, exts: seq<ExtWire>, deps: T.Deps, m: Machine, sig: seq<real>,
      i: nat, vals: seq<real>)
    requires MeaningArgs(plan, bases, wires, exts, deps) && i < |plan.blocks|
    ensures RegionSolved(plan.blocks, wires, exts, m, sig, i, plan.blocks[i].alg.ops, vals) <==>
            vals == BlockValues(plan, bases, m, sig, i)
  {
    if |vals| == |plan.blocks[i].alg.ops| {
      RegionIsItsMeaning(plan, bases, wires, exts, deps, m, sig, i, plan.blocks[i].alg.ops, |vals|, vals);
    }
  }

  /** Signals with all ops on them solve the network exactly if they solve every block. */
  lemma {:induction false} SolvedIsSettled(
      plan: Plan, bases: Bases, wires: seq<FlatWire>, exts: seq<ExtWire>, deps: T.Deps, m: Machine, sig: seq<real>,
      vals: seq<seq<real>>)
    requires MeaningArgs(plan, bases, wires, exts, deps) && |sig| == plan.nSig
    ensures NetworkSolved(plan.blocks, wires, exts, m, sig, vals) <==>
            Solves(plan, bases, m, sig) && vals == AllValues(plan, bases, m, sig)
  {
    var all := AllValues(plan, bases, m, sig);
    if NetworkSolved(plan.blocks, wires, exts, m, sig, vals) {
      forall i | 0 <= i < |plan.blocks| ensures vals[i] == all[i] && BlockSettled(plan, bases, m, sig, i) {
        BlockIsItsMeaning(plan, bases, wires, exts, deps, m, sig, i, vals[i]);
        CarriesSettled(plan, bases, m, wires, exts, deps, sig, i);
      }
    }
    if Solves(plan, bases, m, sig) && vals == all {
      forall i | 0 <= i < |plan.blocks|
        ensures RegionSolved(plan.blocks, wires, exts, m, sig, i, plan.blocks[i].alg.ops, vals[i])
        ensures OutputsCarry(plan.blocks, sig, i, vals[i])
      {
        BlockIsItsMeaning(plan, bases, wires, exts, deps, m, sig, i, vals[i]);
        assert BlockSettled(plan, bases, m, sig, i);
        SettledCarries(plan, bases, m, wires, exts, deps, sig, i);
      }
    }
  }

  /** Every element of every output is written by its block. */
  ghost predicate AllWritten(blocks: seq<Block>) {
    forall i: nat, k: nat {:trigger IsWritten(blocks, i, k)} | i < |blocks| && k < Total(blocks[i].outSizes) ::
      IsWritten(blocks, i, k)
  }

  ghost predicate IsWritten(blocks: seq<Block>, i: nat, k: nat)
    requires i < |blocks|
  {
    exists n {:trigger blocks[i].alg.writes[n]} :: 0 <= n < |blocks[i].alg.writes|
      && blocks[i].alg.writes[n].Output? && blocks[i].alg.writes[n].port < |blocks[i].outSizes|
      && WrittenElem(blocks[i], blocks[i].alg.writes[n]) == k
  }

  lemma {:induction false} WrittenHasWriter(b: Block, m: nat, n: nat)
    requires n < m <= |b.alg.writes| && b.alg.writes[n].Output? && b.alg.writes[n].port < |b.outSizes|
    ensures Writer(b, m, WrittenElem(b, b.alg.writes[n])).Some?
    decreases m
  {
    if n < m - 1 { WrittenHasWriter(b, m - 1, n); }
  }

  lemma {:induction false} AllHaveWriters(plan: Plan)
    requires AllWritten(plan.blocks)
    ensures WritesAll(plan)
  {
    forall i: nat, k: nat | i < |plan.blocks| && k < Total(plan.blocks[i].outSizes)
      ensures Writer(plan.blocks[i], |plan.blocks[i].alg.writes|, k).Some?
    {
      var b := plan.blocks[i];
      assert IsWritten(plan.blocks, i, k);
      var n :| 0 <= n < |b.alg.writes| && b.alg.writes[n].Output? && b.alg.writes[n].port < |b.outSizes|
        && WrittenElem(b, b.alg.writes[n]) == k;
      WrittenHasWriter(b, |b.alg.writes|, n);
    }
  }

  /** One ordered pass leaves the one and only solution of the network's equations, which are those of its blocks and
      wires alone, whatever the signals held before. */
  lemma {:induction false} PassSolvesTheNetwork(
      plan: Plan, bases: Bases, wires: seq<FlatWire>, exts: seq<ExtWire>, deps: T.Deps, m: Machine, before: seq<real>,
      sig: seq<real>)
    requires MeaningArgs(plan, bases, wires, exts, deps) && AllWritten(plan.blocks)
    requires |before| == |sig| == plan.nSig
    ensures (exists vals: seq<seq<real>> :: NetworkSolved(plan.blocks, wires, exts, m, sig, vals)) <==>
            sig == PassTo(plan, bases, m, before, |plan.topo|)
  {
    AllHaveWriters(plan);
    PassIsTheUniqueSolution(plan, bases, m, wires, exts, deps, before, sig);
    SolvedIsSettled(plan, bases, wires, exts, deps, m, sig, AllValues(plan, bases, m, sig));
    if vals: seq<seq<real>> :| NetworkSolved(plan.blocks, wires, exts, m, sig, vals) {
      SolvedIsSettled(plan, bases, wires, exts, deps, m, sig, vals);
    }
  }

  /** The emitted driver, fused or split into functions, does the same. */
  lemma {:induction false} DriverSolvesTheNetwork(
      plan: Plan, bases: Bases, wires: seq<FlatWire>, exts: seq<ExtWire>, deps: T.Deps, m: Machine, before: seq<real>,
      sig: seq<real>, hierarchical: bool)
    requires MeaningArgs(plan, bases, wires, exts, deps) && AllWritten(plan.blocks)
    requires |before| == |sig| == plan.nSig
    ensures (exists vals: seq<seq<real>> :: NetworkSolved(plan.blocks, wires, exts, m, sig, vals)) <==>
            sig == RunDriver(m, before, DriverOf(plan, bases, hierarchical))
  {
    PassSolvesTheNetwork(plan, bases, wires, exts, deps, m, before, sig);
    EmissionsAgree(plan, bases, m, before, hierarchical);
  }

  // ---------------------------------------------------------------------------------------
  // Which wire counts
  // ---------------------------------------------------------------------------------------

  ghost predicate Feeds(w: FlatWire, block: nat, elem: nat) {
    w.dst.block == block && w.dst.elem == elem
  }

  ghost predicate FeedsIn(w: ExtWire, block: nat, elem: nat) {
    w.block == block && w.elem == elem
  }

  /** Of several wires to an element the last counts, and without one there is none; so it is for external inputs. */
  lemma {:induction false} LastWireIs(wires: seq<FlatWire>, n: nat, block: nat, elem: nat)
    requires n <= |wires|
    ensures LastWire(wires, n, block, elem) == None <==>
            forall k {:trigger wires[k]} | 0 <= k < n :: !Feeds(wires[k], block, elem)
    ensures forall i {:trigger wires[i]}
              | 0 <= i < n && Feeds(wires[i], block, elem)
                && forall k | i < k < n :: !Feeds(wires[k], block, elem) ::
              LastWire(wires, n, block, elem) == Some(wires[i].src)
    decreases n
  {
    if n > 0 { LastWireIs(wires, n - 1, block, elem); }
  }

  lemma {:induction false} LastExtIs(exts: seq<ExtWire>, n: nat, block: nat, elem: nat)
    requires n <= |exts|
    ensures LastExt(exts, n, block, elem) == None <==>
            forall k {:trigger exts[k]} | 0 <= k < n :: !FeedsIn(exts[k], block, elem)
    ensures forall i {:trigger exts[i]}
              | 0 <= i < n && FeedsIn(exts[i], block, elem)
                && forall k | i < k < n :: !FeedsIn(exts[k], block, elem) ::
              LastExt(exts, n, block, elem) == Some(exts[i].ext)
    decreases n
  {
    if n > 0 { LastExtIs(exts, n - 1, block, elem); }
  }

  /** A wire between two blocks orders them exactly if the later one has an input among its algebraic ops. */
  lemma {:induction false} OrdersIff(w: FlatWire, blocks: seq<Block>)
    requires w.dst.block < |blocks|
    ensures var ops := blocks[w.dst.block].alg.ops;
            T.Orders(w, blocks) <==>
            w.src.block != w.dst.block
            && exists i: nat, port: nat, elem: nat {:trigger ops[i], Input(port, elem)} ::
                 i < |ops| && ops[i] == Input(port, elem)
  {
    var ops := blocks[w.dst.block].alg.ops;
    if T.HasFeedthrough(blocks[w.dst.block]) {
      var i :| 0 <= i < |ops| && ops[i].Input?;
      assert ops[i] == Input(ops[i].port, ops[i].elem);
    }
    if i: nat, port: nat, elem: nat :| i < |ops| && ops[i] == Input(port, elem) {
      assert ops[i].Input?;
    }
  }

  /** Every op that reads no leaf is what it makes of the values of the ops before it. */
  lemma {:induction false} OpMeaningComputes(
      blocks: seq<Block>, wires: seq<FlatWire>, exts: seq<ExtWire>, m: Machine, sig: seq<real>, i: nat, op: Op,
      before: seq<real>, at: nat -> real)
    requires i < |blocks| && LeafFits(blocks[i], op) && SsaOp(op, |before|) && !IsLeaf(op) && !op.Call?
    requires forall k: nat {:trigger at(k)} | k < |before| :: at(k) == before[k]
    ensures op.Lut1d? ==> Table(op.points, op.values)
    ensures O.Computes(m.prims, op, at, OpMeaning(blocks, wires, exts, m, sig, i, op, before))
  {
    var args := Operands(before, LocalOperands(op));
    assert args == O.Taken(at, LocalOperands(op));
    O.ComputesIff(m.prims, op, at, args, Compute(m.prims, op, args));
  }

  // ---------------------------------------------------------------------------------------
  // Where the blocks' elements are
  // ---------------------------------------------------------------------------------------

  /** The values of the first `n` parameters, laid end to end. */
  ghost function Flattened(params: seq<ParamValue>, n: nat): seq<real>
    requires n <= |params|
  {
    if n == 0 then []
    else Flattened(params, n - 1) + match params[n - 1] case Scalar(v) => [v] case Tensor(data) => data
  }

  lemma {:induction false} FlattenedCounts(params: seq<ParamValue>, n: nat)
    requires n <= |params|
    ensures |Flattened(params, n)| == ParamTotal(params, n)
    decreases n
  {
    if n > 0 { FlattenedCounts(params, n - 1); }
  }

  /** Signals, states, parameters and memory of a block follow those of the block before it: as many signals as its
      output ports have elements, as many states as it has unless it is a sink, as many parameters as its values have
      numbers, and its memory slots one after the other. */
  lemma {:induction false} BlocksFollow(blocks: seq<Block>, i: nat)
    requires i < |blocks|
    ensures SigStart(blocks, 0) == StateStart(blocks, 0) == ParamStart(blocks, 0) == MemStart(blocks, 0) == 0
    ensures var b := blocks[i];
            && SigStart(blocks, i + 1) - SigStart(blocks, i) == SizeSum(b.outSizes, |b.outSizes|)
            && StateStart(blocks, i + 1) - StateStart(blocks, i) == (if b.role.Sink? then 0 else |b.state|)
            && ParamStart(blocks, i + 1) - ParamStart(blocks, i) == |Flattened(b.params, |b.params|)|
            && MemStart(blocks, i + 1) - MemStart(blocks, i) == SlotStart(b.memory, |b.memory|)
            && SlotStart(b.memory, 0) == 0
            && forall s | 0 <= s < |b.memory| ::
                 SlotStart(b.memory, s + 1) - SlotStart(b.memory, s) == b.memory[s].size
  {
    FlattenedCounts(blocks[i].params, |blocks[i].params|);
  }

  /** An op cannot be lowered exactly if it reads an input port or a memory slot that its block does not have. */
  lemma {:induction false} LowerableIff(plan: Plan, bases: Bases, i: nat, op: Op)
    requires i < |plan.blocks|
    ensures Lowerable(plan, bases, i, op) <==>
            match op
            case Input(port, _) => port < |plan.blocks[i].inSizes|
            case Memory(slot, _) => i < |bases.memOff| && slot < |bases.memOff[i]|
            case _ => true
  {
  }

  /** The system stage refuses a block exactly if a call stands among its algebraic or its dynamic ops. */
  lemma {:induction false} OpaqueIff(b: Block)
    ensures BlockIsOpaque(b) <==> Call in b.alg.ops || Call in b.dyn.ops
  {
    if Call in b.alg.ops { assert exists i :: 0 <= i < |b.alg.ops| && b.alg.ops[i].Call?; }
    if Call in b.dyn.ops { assert exists i :: 0 <= i < |b.dyn.ops| && b.dyn.ops[i].Call?; }
  }
}

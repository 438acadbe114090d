/** The emitted algebraic pass: lowering regions to statements (`lower_struct_region`), fusing or
    splitting them into functions, and why one ordered pass solves the whole network
    (`src/codegen/system.rs`). */
module AlgebraicPass {
  import opened Wrappers
  import opened Ir
  import opened Lut
  import opened OpSemantics
  import opened FlatWires
  import opened SystemPlan

  /** Everything the generated code reads besides signals. */
  datatype Machine = Machine(
    prims: Prims,
    x: nat -> real,
    u: nat -> real,
    p: nat -> real,
    mem: nat -> real,
    time: real)

  /** Where each block's parameters and memory slots start. */
  datatype Bases = Bases(paramOff: seq<nat>, memOff: seq<seq<nat>>)

  // ---------------------------------------------------------------------------------------
  // What a region means
  // ---------------------------------------------------------------------------------------

  ghost predicate SsaOp(op: Op, l: nat) {
    && (forall k | 0 <= k < |LocalOperands(op)| :: LocalOperands(op)[k] < l)
    && (op.Lut1d? ==> Table(op.points, op.values))
    && !op.Call?
  }

  /** Each op reads only earlier ones. */
  ghost predicate SsaOps(ops: seq<Op>) {
    forall l {:trigger ops[l]} | 0 <= l < |ops| :: SsaOp(ops[l], l)
  }

  /** What an input element is wired to. */
  datatype Wired = FromExternal(ext: nat) | FromSignal(sig: nat) | Zero

  function InputWire(plan: Plan, i: nat, port: nat, elem: nat): Wired
    requires i < |plan.blocks| == |plan.inputSrc| == |plan.extInput|
  {
    if port >= |plan.blocks[i].inSizes| then Zero
    else
      var flat := SizeSum(plan.blocks[i].inSizes, port) + elem;
      if flat < |plan.extInput[i]| && plan.extInput[i][flat].Some? then FromExternal(plan.extInput[i][flat].value)
      else if flat < |plan.inputSrc[i]| && plan.inputSrc[i][flat].Some? then FromSignal(plan.inputSrc[i][flat].value)
      else Zero
  }

  function StateBase(plan: Plan, i: nat): nat
    requires i < |plan.stateOff|
  {
    plan.stateOff[i].UnwrapOr(0)
  }

  function ParamBase(bases: Bases, i: nat): nat { if i < |bases.paramOff| then bases.paramOff[i] else 0 }

  function SlotBase(bases: Bases, i: nat, slot: nat): nat {
    if i < |bases.memOff| && slot < |bases.memOff[i]| then bases.memOff[i][slot] else 0
  }

  function SigAt(sig: seq<real>, s: nat): real { if s < |sig| then sig[s] else 0.0 }

  function WiredValue(m: Machine, sig: seq<real>, w: Wired): real {
    match w
    case FromExternal(e) => m.u(e)
    case FromSignal(s) => SigAt(sig, s)
    case Zero => 0.0
  }

  ghost predicate PlanShape(plan: Plan) {
    |plan.outOff| == |plan.stateOff| == |plan.inputSrc| == |plan.extInput| == |plan.blocks|
  }

  function Operands(vals: seq<real>, ids: seq<nat>): (vs: seq<real>)
    requires forall k | 0 <= k < |ids| :: ids[k] < |vals|
    ensures |vs| == |ids| && forall k | 0 <= k < |ids| :: vs[k] == vals[ids[k]]
  {
    seq(|ids|, k requires 0 <= k < |ids| => vals[ids[k]])
  }

  /** The value of one op of block `i`, from the values of the ops before it. */
  function OpValue(plan: Plan, bases: Bases, m: Machine, sig: seq<real>, i: nat, op: Op, vals: seq<real>): real
    requires PlanShape(plan) && i < |plan.blocks| && SsaOp(op, |vals|)
  {
    match op
    case Const(c) => c
    case Time => m.time
    case Input(port, elem) => WiredValue(m, sig, InputWire(plan, i, port, elem))
    case Param(id) => m.p(ParamBase(bases, i) + id)
    case State(id) => m.x(StateBase(plan, i) + id)
    case Memory(slot, offset) => m.mem(SlotBase(bases, i, slot) + offset)
    case Call => 0.0
    case op => Compute(m.prims, op, Operands(vals, LocalOperands(op)))
  }

  /** The values of the first `n` ops of a region of block `i`. */
  ghost function RegionValues(
      plan: Plan, bases: Bases, m: Machine, sig: seq<real>, i: nat, ops: seq<Op>, n: nat): (vals: seq<real>)
    requires PlanShape(plan) && i < |plan.blocks| && SsaOps(ops) && n <= |ops|
    ensures |vals| == n
  {
    if n == 0 then []
    else
      var before := RegionValues(plan, bases, m, sig, i, ops, n - 1);
      before + [OpValue(plan, bases, m, sig, i, ops[n - 1], before)]
  }

  // ---------------------------------------------------------------------------------------
  // Emitted statements
  // ---------------------------------------------------------------------------------------

  datatype Rvalue =
    | RConst(v: real) | RTime | RSig(s: nat) | RExt(e: nat) | RState(k: nat) | RParam(k: nat) | RMem(k: nat)
    | RCompute(op: Op, args: seq<nat>)

  datatype Stmt = Temp(id: nat, rv: Rvalue) | StoreSig(s: nat, id: nat)

  /** Temporaries of the enclosing function, and the signal array. */
  datatype Frame = Frame(temps: map<nat, real>, sig: seq<real>)

  function TempAt(f: Frame, id: nat): real { if id in f.temps then f.temps[id] else 0.0 }

  function TempsAt(f: Frame, ids: seq<nat>): (vs: seq<real>)
    ensures |vs| == |ids| && forall k | 0 <= k < |ids| :: vs[k] == TempAt(f, ids[k])
  {
    seq(|ids|, k requires 0 <= k < |ids| => TempAt(f, ids[k]))
  }

  ghost predicate RvalueOk(rv: Rvalue) {
    rv.RCompute? ==> |rv.args| == |LocalOperands(rv.op)| && (rv.op.Lut1d? ==> Table(rv.op.points, rv.op.values))
  }

  ghost function EvalRvalue(m: Machine, f: Frame, rv: Rvalue): real {
    match rv
    case RConst(v) => v
    case RTime => m.time
    case RSig(s) => SigAt(f.sig, s)
    case RExt(e) => m.u(e)
    case RState(k) => m.x(k)
    case RParam(k) => m.p(k)
    case RMem(k) => m.mem(k)
    case RCompute(op, args) => if RvalueOk(rv) then Compute(m.prims, op, TempsAt(f, args)) else 0.0
  }

  ghost function Exec(m: Machine, f: Frame, s: Stmt): Frame {
    match s
    case Temp(id, rv) => f.(temps := f.temps[id := EvalRvalue(m, f, rv)])
    case StoreSig(k, id) => if k < |f.sig| then f.(sig := f.sig[k := TempAt(f, id)]) else f
  }

  ghost function ExecAll(m: Machine, f: Frame, body: seq<Stmt>): Frame {
    if body == [] then f else Exec(m, ExecAll(m, f, body[..|body| - 1]), body[|body| - 1])
  }

  lemma {:induction false} ExecSnoc(m: Machine, f: Frame, body: seq<Stmt>, s: Stmt)
    ensures ExecAll(m, f, body + [s]) == Exec(m, ExecAll(m, f, body), s)
  {
    assert (body + [s])[..|body|] == body;
  }

  lemma {:induction false} ExecJoin(m: Machine, f: Frame, xs: seq<Stmt>, ys: seq<Stmt>)
    ensures ExecAll(m, f, xs + ys) == ExecAll(m, ExecAll(m, f, xs), ys)
    decreases |ys|
  {
    if ys == [] {
      assert xs + ys == xs;
    } else {
      var init := ys[..|ys| - 1];
      assert (xs + ys)[..|xs + ys| - 1] == xs + init;
      ExecJoin(m, f, xs, init);
    }
  }

  // ---------------------------------------------------------------------------------------
  // Lowering
  // ---------------------------------------------------------------------------------------

  function WiredRvalue(w: Wired): Rvalue {
    match w
    case FromExternal(e) => RExt(e)
    case FromSignal(s) => RSig(s)
    case Zero => RConst(0.0)
  }

  /** Operand `k` becomes temporary `base + k`. */
  function Renumber(base: nat, ids: seq<nat>): (r: seq<nat>)
    ensures |r| == |ids| && forall k | 0 <= k < |ids| :: r[k] == base + ids[k]
  {
    seq(|ids|, k requires 0 <= k < |ids| => base + ids[k])
  }

  function RvalueOf(plan: Plan, bases: Bases, i: nat, op: Op, args: seq<nat>): Rvalue
    requires PlanShape(plan) && i < |plan.blocks|
  {
    match op
    case Const(c) => RConst(c)
    case Time => RTime
    case Input(port, elem) => WiredRvalue(InputWire(plan, i, port, elem))
    case Param(id) => RParam(ParamBase(bases, i) + id)
    case State(id) => RState(StateBase(plan, i) + id)
    case Memory(slot, offset) => RMem(SlotBase(bases, i, slot) + offset)
    case op => RCompute(op, args)
  }

  /** The first `n` ops of a region as statements whose temporaries start at `g`. */
  ghost function Lowered(plan: Plan, bases: Bases, i: nat, ops: seq<Op>, g: nat, n: nat): (body: seq<Stmt>)
    requires PlanShape(plan) && i < |plan.blocks| && n <= |ops|
    ensures |body| == n
  {
    if n == 0 then []
    else Lowered(plan, bases, i, ops, g, n - 1)
         + [Temp(g + n - 1, RvalueOf(plan, bases, i, ops[n - 1], Renumber(g, LocalOperands(ops[n - 1]))))]
  }

  /** Temporaries `g .. g + |vals|` hold `vals`; everything else is as before. */
  ghost predicate Holds(before: Frame, after: Frame, g: nat, vals: seq<real>) {
    && after.sig == before.sig
    && (forall l {:trigger vals[l]} | 0 <= l < |vals| :: TempAt(after, g + l) == vals[l])
    && (forall k: nat {:trigger TempAt(after, k)} | k < g :: TempAt(after, k) == TempAt(before, k))
  }

  lemma {:induction false} LoweredOpRuns(
      plan: Plan, bases: Bases, m: Machine, i: nat, op: Op, g: nat, before: Frame, after: Frame, vals: seq<real>)
    requires PlanShape(plan) && i < |plan.blocks| && SsaOp(op, |vals|) && Holds(before, after, g, vals)
    ensures EvalRvalue(m, after, RvalueOf(plan, bases, i, op, Renumber(g, LocalOperands(op)))) ==
            OpValue(plan, bases, m, before.sig, i, op, vals)
  {
    var ids := LocalOperands(op);
    if !IsLeaf(op) {
      var args := Renumber(g, ids);
      assert TempsAt(after, args) == Operands(vals, ids) by {
        forall k | 0 <= k < |ids| ensures TempAt(after, args[k]) == vals[ids[k]] {
          assert args[k] == g + ids[k];
        }
      }
    }
  }

  lemma {:induction false} HoldsSnoc(before: Frame, after: Frame, g: nat, vals: seq<real>, v: real)
    requires Holds(before, after, g, vals)
    ensures Holds(before, after.(temps := after.temps[g + |vals| := v]), g, vals + [v])
  {
    var next := after.(temps := after.temps[g + |vals| := v]);
    forall l | 0 <= l < |vals| + 1 ensures TempAt(next, g + l) == (vals + [v])[l] {
      if l < |vals| { assert TempAt(after, g + l) == vals[l]; }
    }
    forall k: nat | k < g ensures TempAt(next, k) == TempAt(before, k) {
      assert TempAt(after, k) == TempAt(before, k);
    }
  }

  lemma {:induction false} HoldsStep(
      m: Machine, f: Frame, body: seq<Stmt>, g: nat, vals: seq<real>, rv: Rvalue, v: real)
    requires Holds(f, ExecAll(m, f, body), g, vals) && EvalRvalue(m, ExecAll(m, f, body), rv) == v
    ensures Holds(f, ExecAll(m, f, body + [Temp(g + |vals|, rv)]), g, vals + [v])
  {
    ExecSnoc(m, f, body, Temp(g + |vals|, rv));
    HoldsSnoc(f, ExecAll(m, f, body), g, vals, v);
  }

  lemma {:induction false} HoldsNothing(m: Machine, f: Frame, g: nat)
    ensures Holds(f, ExecAll(m, f, []), g, [])
  {
  }

  /** Running the lowered region computes the region's values, wherever its numbering starts. */
  lemma {:induction false} LoweredRuns(
      plan: Plan, bases: Bases, m: Machine, i: nat, ops: seq<Op>, g: nat, n: nat, f: Frame)
    requires PlanShape(plan) && i < |plan.blocks| && SsaOps(ops) && n <= |ops|
    ensures Holds(f, ExecAll(m, f, Lowered(plan, bases, i, ops, g, n)), g,
                  RegionValues(plan, bases, m, f.sig, i, ops, n))
    decreases n
  {
    if n == 0 {
      HoldsNothing(m, f, g);
    } else {
      LoweredRuns(plan, bases, m, i, ops, g, n - 1, f);
      var body := Lowered(plan, bases, i, ops, g, n - 1);
      var vals := RegionValues(plan, bases, m, f.sig, i, ops, n - 1);
      var op := ops[n - 1];
      var rv, v := RvalueOf(plan, bases, i, op, Renumber(g, LocalOperands(op))),
        OpValue(plan, bases, m, f.sig, i, op, vals);
      LoweredOpRuns(plan, bases, m, i, op, g, f, ExecAll(m, f, body), vals);
      HoldsStep(m, f, body, g, vals, rv, v);
      assert Lowered(plan, bases, i, ops, g, n) == body + [Temp(g + |vals|, rv)];
      assert RegionValues(plan, bases, m, f.sig, i, ops, n) == vals + [v];
    }
  }

  // ---------------------------------------------------------------------------------------
  // Output writes
  // ---------------------------------------------------------------------------------------

  /** The signal an output write stores, relative to the block's first signal. */
  function OutIndex(b: Block, port: nat, elem: nat): nat {
    if port < |b.outSizes| then SizeSum(b.outSizes, port) + elem else elem
  }

  /** Output writes stay inside the block's own signals and name existing ops. */
  ghost predicate WritesOk(b: Block) {
    forall w {:trigger w in b.alg.writes} | w in b.alg.writes ::
      w.src < |b.alg.ops|
      && (w.Output? ==> w.port < |b.outSizes| && OutIndex(b, w.port, w.elem) < Total(b.outSizes))
  }

  /** The signal and the temporary of one output write. */
  function Target(b: Block, base: nat, w: Write): nat
    requires w.Output?
  {
    base + OutIndex(b, w.port, w.elem)
  }

  function TempOf(g: nat, local: nat): nat {
    g + local
  }

  function StoreOf(b: Block, base: nat, g: nat, w: Write): seq<Stmt> {
    if w.Output? then [StoreSig(Target(b, base, w), TempOf(g, w.src))] else []
  }

  /** The signals after one write. */
  function Stored(b: Block, base: nat, w: Write, vals: seq<real>, sig: seq<real>): seq<real>
    requires w.src < |vals|
  {
    if w.Output? && Target(b, base, w) < |sig| then sig[Target(b, base, w) := vals[w.src]] else sig
  }

  ghost function Stores(b: Block, base: nat, g: nat, n: nat): (body: seq<Stmt>)
    requires n <= |b.alg.writes|
  {
    if n == 0 then []
    else Stores(b, base, g, n - 1) + StoreOf(b, base, g, b.alg.writes[n - 1])
  }

  /** The op written last to the block's `k`-th signal, among the first `n` writes. */
  ghost function Writer(b: Block, n: nat, k: nat): Option<nat>
    requires n <= |b.alg.writes|
  {
    if n == 0 then None
    else
      var w := b.alg.writes[n - 1];
      if w.Output? && OutIndex(b, w.port, w.elem) == k then Some(w.src) else Writer(b, n - 1, k)
  }

  lemma {:induction false} WriterInRange(b: Block, n: nat, k: nat)
    requires n <= |b.alg.writes| && WritesOk(b) && Writer(b, n, k).Some?
    ensures Writer(b, n, k).value < |b.alg.ops| && k < Total(b.outSizes)
  {
    assert b.alg.writes[n - 1] in b.alg.writes;
    var w := b.alg.writes[n - 1];
    if !(w.Output? && OutIndex(b, w.port, w.elem) == k) { WriterInRange(b, n - 1, k); }
  }

  /** The signals after the block's writes: each written one holds its last writer's value. */
  ghost function Written(b: Block, base: nat, n: nat, vals: seq<real>, sig: seq<real>): (out: seq<real>)
    requires n <= |b.alg.writes|
    ensures |out| == |sig|
  {
    seq(|sig|, s requires 0 <= s < |sig| => WrittenAt(b, base, n, vals, sig, s))
  }

  ghost function WrittenAt(b: Block, base: nat, n: nat, vals: seq<real>, sig: seq<real>, s: nat): real
    requires n <= |b.alg.writes| && s < |sig|
  {
    if s < base then sig[s]
    else match Writer(b, n, s - base)
      case Some(src) => if src < |vals| then vals[src] else 0.0
      case None => sig[s]
  }

  /** One more write, to signal `k` of the block. */
  lemma {:induction false} WrittenSnoc(b: Block, base: nat, n: nat, vals: seq<real>, sig: seq<real>)
    requires n < |b.alg.writes| && b.alg.writes[n].src < |vals|
    ensures Written(b, base, n + 1, vals, sig) == Stored(b, base, b.alg.writes[n], vals, Written(b, base, n, vals, sig))
  {
    var w := b.alg.writes[n];
    forall s | 0 <= s < |sig|
      ensures WrittenAt(b, base, n + 1, vals, sig, s) ==
              if w.Output? && s == Target(b, base, w) then vals[w.src] else WrittenAt(b, base, n, vals, sig, s)
    {
    }
  }

  lemma {:induction false} StoreRuns(
      m: Machine, b: Block, base: nat, g: nat, w: Write, vals: seq<real>, f: Frame, before: seq<Stmt>, sig: seq<real>)
    requires ExecAll(m, f, before) == f.(sig := sig) && w.src < |vals| && TempAt(f, TempOf(g, w.src)) == vals[w.src]
    ensures ExecAll(m, f, before + StoreOf(b, base, g, w)) == f.(sig := Stored(b, base, w, vals, sig))
  {
    if w.Output? {
      ExecSnoc(m, f, before, StoreSig(Target(b, base, w), TempOf(g, w.src)));
    } else {
      assert before + [] == before;
    }
  }

  /** Temporaries from `g` on hold `vals`. */
  ghost predicate Computed(f: Frame, g: nat, vals: seq<real>) {
    forall l {:trigger vals[l]} | 0 <= l < |vals| :: TempAt(f, TempOf(g, l)) == vals[l]
  }

  lemma {:induction false} ComputedTemp(f: Frame, g: nat, vals: seq<real>, l: nat)
    requires Computed(f, g, vals) && l < |vals|
    ensures TempAt(f, TempOf(g, l)) == vals[l]
  {
  }

  lemma {:induction false} StoresGrow(b: Block, base: nat, g: nat, n: nat, before: seq<Stmt>)
    requires 0 < n <= |b.alg.writes| && before == Stores(b, base, g, n - 1)
    ensures Stores(b, base, g, n) == before + StoreOf(b, base, g, b.alg.writes[n - 1])
  {
  }

  lemma {:induction false} StoresRunTo(
      m: Machine, b: Block, base: nat, g: nat, n: nat, vals: seq<real>, f: Frame, body: seq<Stmt>, out: seq<real>)
    requires n <= |b.alg.writes| && WritesOk(b) && |vals| == |b.alg.ops| && Computed(f, g, vals)
    requires body == Stores(b, base, g, n) && out == Written(b, base, n, vals, f.sig)
    ensures ExecAll(m, f, body) == f.(sig := out)
    decreases n
  {
    if n == 0 {
      assert out == f.sig;
    } else {
      var w, before := b.alg.writes[n - 1], Stores(b, base, g, n - 1);
      var sig := Written(b, base, n - 1, vals, f.sig);
      StoresRunTo(m, b, base, g, n - 1, vals, f, before, sig);
      assert w in b.alg.writes;
      ComputedTemp(f, g, vals, w.src);
      StoresGrow(b, base, g, n, before);
      WrittenSnoc(b, base, n - 1, vals, f.sig);
      StoreRuns(m, b, base, g, w, vals, f, before, sig);
    }
  }

  lemma {:induction false} StoresRun(m: Machine, b: Block, base: nat, g: nat, n: nat, vals: seq<real>, f: Frame)
    requires n <= |b.alg.writes| && WritesOk(b) && |vals| == |b.alg.ops| && Computed(f, g, vals)
    ensures ExecAll(m, f, Stores(b, base, g, n)) == f.(sig := Written(b, base, n, vals, f.sig))
  {
    StoresRunTo(m, b, base, g, n, vals, f, Stores(b, base, g, n), Written(b, base, n, vals, f.sig));
  }

  // ---------------------------------------------------------------------------------------
  // One block, and the whole pass
  // ---------------------------------------------------------------------------------------

  /** Blocks with outputs and a non-empty algebraic region take part in the pass. */
  predicate TakesPart(plan: Plan, i: nat)
    requires i < |plan.blocks| == |plan.outOff|
  {
    plan.outOff[i].Some? && !(plan.blocks[i].alg.ops == [] && plan.blocks[i].alg.writes == [])
  }

  ghost predicate BlocksOk(plan: Plan) {
    forall i {:trigger plan.blocks[i]} | 0 <= i < |plan.blocks| ::
      SsaOps(plan.blocks[i].alg.ops) && WritesOk(plan.blocks[i])
  }

  ghost function BlockValues(plan: Plan, bases: Bases, m: Machine, sig: seq<real>, i: nat): (vals: seq<real>)
    requires PlanShape(plan) && BlocksOk(plan) && i < |plan.blocks|
    ensures |vals| == |plan.blocks[i].alg.ops|
  {
    RegionValues(plan, bases, m, sig, i, plan.blocks[i].alg.ops, |plan.blocks[i].alg.ops|)
  }

  /** The signals after block `i` has run. */
  ghost function BlockStep(plan: Plan, bases: Bases, m: Machine, sig: seq<real>, i: nat): (out: seq<real>)
    requires PlanShape(plan) && BlocksOk(plan) && i < |plan.blocks|
    ensures |out| == |sig|
  {
    if TakesPart(plan, i) then
      Written(plan.blocks[i], plan.outOff[i].value, |plan.blocks[i].alg.writes|, BlockValues(plan, bases, m, sig, i),
        sig)
    else sig
  }

  /** The signals after the first `n` blocks of the order. */
  ghost function PassTo(plan: Plan, bases: Bases, m: Machine, sig: seq<real>, n: nat): (out: seq<real>)
    requires PlanShape(plan) && BlocksOk(plan) && n <= |plan.topo|
    requires forall k | 0 <= k < |plan.topo| :: plan.topo[k] < |plan.blocks|
    ensures |out| == |sig|
  {
    if n == 0 then sig else BlockStep(plan, bases, m, PassTo(plan, bases, m, sig, n - 1), plan.topo[n - 1])
  }

  /** The statements of one block, its temporaries starting at `g`. */
  ghost function BlockBody(plan: Plan, bases: Bases, i: nat, g: nat): seq<Stmt>
    requires PlanShape(plan) && i < |plan.blocks|
  {
    var b := plan.blocks[i];
    if TakesPart(plan, i) then
      Lowered(plan, bases, i, b.alg.ops, g, |b.alg.ops|) + Stores(b, plan.outOff[i].value, g, |b.alg.writes|)
    else []
  }

  lemma {:induction false} BlockBodyRuns(plan: Plan, bases: Bases, m: Machine, i: nat, g: nat, f: Frame)
    requires PlanShape(plan) && BlocksOk(plan) && i < |plan.blocks|
    ensures ExecAll(m, f, BlockBody(plan, bases, i, g)).sig == BlockStep(plan, bases, m, f.sig, i)
  {
    var b := plan.blocks[i];
    if TakesPart(plan, i) {
      var lowered := Lowered(plan, bases, i, b.alg.ops, g, |b.alg.ops|);
      var stores := Stores(b, plan.outOff[i].value, g, |b.alg.writes|);
      LoweredRuns(plan, bases, m, i, b.alg.ops, g, |b.alg.ops|, f);
      var after := ExecAll(m, f, lowered);
      StoresRun(m, b, plan.outOff[i].value, g, |b.alg.writes|, BlockValues(plan, bases, m, f.sig, i), after);
      ExecJoin(m, f, lowered, stores);
    }
  }

  function Temps(plan: Plan, i: nat): nat
    requires i < |plan.blocks| == |plan.outOff|
  {
    if TakesPart(plan, i) then |plan.blocks[i].alg.ops| else 0
  }

  function TempsTo(plan: Plan, n: nat): nat
    requires n <= |plan.topo| && |plan.outOff| == |plan.blocks|
    requires forall k | 0 <= k < |plan.topo| :: plan.topo[k] < |plan.blocks|
  {
    if n == 0 then 0 else TempsTo(plan, n - 1) + Temps(plan, plan.topo[n - 1])
  }

  /** The fused driver body: one numbering through all blocks. */
  ghost function FusedBody(plan: Plan, bases: Bases, n: nat): seq<Stmt>
    requires PlanShape(plan) && n <= |plan.topo|
    requires forall k | 0 <= k < |plan.topo| :: plan.topo[k] < |plan.blocks|
  {
    if n == 0 then []
    else FusedBody(plan, bases, n - 1) + BlockBody(plan, bases, plan.topo[n - 1], TempsTo(plan, n - 1))
  }

  /** What `model_outputs` consists of: one body with a shared numbering, or one function per
      block, each with temporaries of its own, called in order. */
  datatype Driver = Fused(body: seq<Stmt>) | PerBlock(calls: seq<seq<Stmt>>)

  ghost function RunCalls(m: Machine, sig: seq<real>, calls: seq<seq<Stmt>>): seq<real> {
    if calls == [] then sig
    else ExecAll(m, Frame(map[], RunCalls(m, sig, calls[..|calls| - 1])), calls[|calls| - 1]).sig
  }

  ghost function RunDriver(m: Machine, sig: seq<real>, d: Driver): seq<real> {
    match d
    case Fused(body) => ExecAll(m, Frame(map[], sig), body).sig
    case PerBlock(calls) => RunCalls(m, sig, calls)
  }

  ghost function PerBlockCalls(plan: Plan, bases: Bases, n: nat): seq<seq<Stmt>>
    requires PlanShape(plan) && n <= |plan.topo|
    requires forall k | 0 <= k < |plan.topo| :: plan.topo[k] < |plan.blocks|
  {
    if n == 0 then []
    else
      PerBlockCalls(plan, bases, n - 1)
      + if TakesPart(plan, plan.topo[n - 1]) then [BlockBody(plan, bases, plan.topo[n - 1], 0)] else []
  }

  lemma {:induction false} FusedGrows(plan: Plan, bases: Bases, n: nat, before: seq<Stmt>, i: nat, g: nat)
    requires PlanShape(plan) && 0 < n <= |plan.topo|
    requires forall k | 0 <= k < |plan.topo| :: plan.topo[k] < |plan.blocks|
    requires before == FusedBody(plan, bases, n - 1) && i == plan.topo[n - 1] && g == TempsTo(plan, n - 1)
    ensures FusedBody(plan, bases, n) == before + BlockBody(plan, bases, i, g)
  {
  }

  lemma {:induction false} PassGrows(
      plan: Plan, bases: Bases, m: Machine, sig: seq<real>, n: nat, before: seq<real>, i: nat)
    requires PlanShape(plan) && BlocksOk(plan) && 0 < n <= |plan.topo|
    requires forall k | 0 <= k < |plan.topo| :: plan.topo[k] < |plan.blocks|
    requires before == PassTo(plan, bases, m, sig, n - 1) && i == plan.topo[n - 1]
    ensures PassTo(plan, bases, m, sig, n) == BlockStep(plan, bases, m, before, i)
  {
  }

  /** One more block behind a body that has run. */
  lemma {:induction false} BodyRunsOn(
      plan: Plan, bases: Bases, m: Machine, f: Frame, before: seq<Stmt>, sig: seq<real>, i: nat, g: nat,
      body: seq<Stmt>, out: seq<real>)
    requires PlanShape(plan) && BlocksOk(plan) && i < |plan.blocks| && ExecAll(m, f, before).sig == sig
    requires body == before + BlockBody(plan, bases, i, g) && out == BlockStep(plan, bases, m, sig, i)
    ensures ExecAll(m, f, body).sig == out
  {
    ExecJoin(m, f, before, BlockBody(plan, bases, i, g));
    BlockBodyRuns(plan, bases, m, i, g, ExecAll(m, f, before));
  }

  lemma {:induction false} NothingRuns(plan: Plan, bases: Bases, m: Machine, f: Frame)
    requires PlanShape(plan) && BlocksOk(plan)
    requires forall k | 0 <= k < |plan.topo| :: plan.topo[k] < |plan.blocks|
    ensures ExecAll(m, f, FusedBody(plan, bases, 0)).sig == PassTo(plan, bases, m, f.sig, 0)
  {
  }

  /** What one more block adds to a fused body and to the pass. */
  lemma {:induction false} FusedStep(plan: Plan, bases: Bases, m: Machine, f: Frame, k: nat, n: nat)
    requires PlanShape(plan) && BlocksOk(plan) && k < n <= |plan.topo| && n == k + 1
    requires forall j | 0 <= j < |plan.topo| :: plan.topo[j] < |plan.blocks|
    requires ExecAll(m, f, FusedBody(plan, bases, k)).sig == PassTo(plan, bases, m, f.sig, k)
    ensures ExecAll(m, f, FusedBody(plan, bases, n)).sig == PassTo(plan, bases, m, f.sig, n)
  {
    var i, g := plan.topo[k], TempsTo(plan, k);
    var before, sig := FusedBody(plan, bases, k), PassTo(plan, bases, m, f.sig, k);
    FusedGrows(plan, bases, n, before, i, g);
    PassGrows(plan, bases, m, f.sig, n, sig, i);
    BodyRunsOn(plan, bases, m, f, before, sig, i, g, FusedBody(plan, bases, n), PassTo(plan, bases, m, f.sig, n));
  }

  /** The fused body computes the signals of the block-by-block pass. */
  lemma {:induction false} FusedRuns(plan: Plan, bases: Bases, m: Machine, f: Frame, n: nat)
    requires PlanShape(plan) && BlocksOk(plan) && n <= |plan.topo|
    requires forall k | 0 <= k < |plan.topo| :: plan.topo[k] < |plan.blocks|
    ensures ExecAll(m, f, FusedBody(plan, bases, n)).sig == PassTo(plan, bases, m, f.sig, n)
    decreases n
  {
    if n == 0 {
      NothingRuns(plan, bases, m, f);
    } else {
      var k := n - 1;
      FusedRuns(plan, bases, m, f, k);
      FusedStep(plan, bases, m, f, k, n);
    }
  }

  lemma {:induction false} OneMoreCall(
      plan: Plan, bases: Bases, m: Machine, sig: seq<real>, i: nat, before: seq<seq<Stmt>>)
    requires PlanShape(plan) && BlocksOk(plan) && i < |plan.blocks|
    ensures var calls := before + if TakesPart(plan, i) then [BlockBody(plan, bases, i, 0)] else [];
            RunCalls(m, sig, calls) == BlockStep(plan, bases, m, RunCalls(m, sig, before), i)
  {
    if TakesPart(plan, i) {
      assert (before + [BlockBody(plan, bases, i, 0)])[..|before|] == before;
      BlockBodyRuns(plan, bases, m, i, 0, Frame(map[], RunCalls(m, sig, before)));
    } else {
      assert before + [] == before;
    }
  }

  /** ... and so do the per-block functions. */
  lemma {:induction false} PerBlockRuns(plan: Plan, bases: Bases, m: Machine, sig: seq<real>, n: nat)
    requires PlanShape(plan) && BlocksOk(plan) && n <= |plan.topo|
    requires forall k | 0 <= k < |plan.topo| :: plan.topo[k] < |plan.blocks|
    ensures RunCalls(m, sig, PerBlockCalls(plan, bases, n)) == PassTo(plan, bases, m, sig, n)
    decreases n
  {
    if n > 0 {
      PerBlockRuns(plan, bases, m, sig, n - 1);
      OneMoreCall(plan, bases, m, sig, plan.topo[n - 1], PerBlockCalls(plan, bases, n - 1));
    }
  }

  // ---------------------------------------------------------------------------------------
  // The emitter
  // ---------------------------------------------------------------------------------------

  datatype LowerError = PortOutOfRange | NoMemoryLayout

  predicate Lowerable(plan: Plan, bases: Bases, i: nat, op: Op)
    requires i < |plan.blocks|
  {
    && (op.Input? ==> op.port < |plan.blocks[i].inSizes|)
    && (op.Memory? ==> i < |bases.memOff| && op.slot < |bases.memOff[i]|)
  }

  /** Every op of a block's algebraic region can be lowered. */
  predicate BlockLowers(plan: Plan, bases: Bases, i: nat)
    requires i < |plan.blocks|
  {
    forall l | 0 <= l < |plan.blocks[i].alg.ops| :: Lowerable(plan, bases, i, plan.blocks[i].alg.ops[l])
  }

  function Refusal(plan: Plan, bases: Bases, i: nat, op: Op): (e: Option<LowerError>)
    requires i < |plan.blocks|
    ensures e.None? <==> Lowerable(plan, bases, i, op)
  {
    if op.Input? && op.port >= |plan.blocks[i].inSizes| then Some(PortOutOfRange)
    else if op.Memory? && (i >= |bases.memOff| || op.slot >= |bases.memOff[i]|) then Some(NoMemoryLayout)
    else None
  }

  /** Local operand ids through the local-to-global map. */
  function ThroughMap(l2g: seq<nat>, ids: seq<nat>): (r: seq<nat>)
    requires forall k | 0 <= k < |ids| :: ids[k] < |l2g|
    ensures |r| == |ids| && forall k | 0 <= k < |ids| :: r[k] == l2g[ids[k]]
  {
    seq(|ids|, k requires 0 <= k < |ids| => l2g[ids[k]])
  }

  ghost predicate Numbered(l2g: seq<nat>, g: nat) {
    forall l {:trigger l2g[l]} | 0 <= l < |l2g| :: l2g[l] == g + l
  }

  lemma {:induction false} ThroughMapRenumbers(l2g: seq<nat>, g: nat, ids: seq<nat>)
    requires Numbered(l2g, g) && forall k | 0 <= k < |ids| :: ids[k] < |l2g|
    ensures ThroughMap(l2g, ids) == Renumber(g, ids)
  {
  }

  /** Whether `body` and `l2g` are the lowering of the first `n` ops. */
  ghost predicate LoweredTo(
      plan: Plan, bases: Bases, i: nat, ops: seq<Op>, g: nat, n: nat, body: seq<Stmt>, l2g: seq<nat>)
    requires PlanShape(plan) && i < |plan.blocks| && n <= |ops|
  {
    body == Lowered(plan, bases, i, ops, g, n) && |l2g| == n && Numbered(l2g, g)
  }

  lemma {:induction false} LowerOne(
      plan: Plan, bases: Bases, i: nat, ops: seq<Op>, g: nat, n: nat, body: seq<Stmt>, l2g: seq<nat>)
    requires PlanShape(plan) && i < |plan.blocks| && n < |ops| && SsaOp(ops[n], n)
    requires LoweredTo(plan, bases, i, ops, g, n, body, l2g)
    ensures LoweredTo(plan, bases, i, ops, g, n + 1,
                      body + [Temp(g + n, RvalueOf(plan, bases, i, ops[n], ThroughMap(l2g, LocalOperands(ops[n]))))],
                      l2g + [g + n])
  {
    ThroughMapRenumbers(l2g, g, LocalOperands(ops[n]));
  }

  /** Op `l` is the first that cannot be lowered, and `e` says why. */
  ghost predicate RefusedFirst(plan: Plan, bases: Bases, i: nat, ops: seq<Op>, l: nat, e: LowerError)
    requires i < |plan.blocks|
  {
    && l < |ops| && !Lowerable(plan, bases, i, ops[l])
    && (forall k | 0 <= k < l :: Lowerable(plan, bases, i, ops[k]))
    && e == if ops[l].Input? then PortOutOfRange else NoMemoryLayout
  }

  /** `lower_struct_region`: one statement per op; `g` is the next free temporary. */
  method LowerRegion(plan: Plan, bases: Bases, i: nat, ops: seq<Op>, g: nat)
    returns (r: Result<(seq<Stmt>, seq<nat>, nat), LowerError>)
    requires PlanShape(plan) && i < |plan.blocks| && SsaOps(ops)
    ensures r.Ok? <==> forall l | 0 <= l < |ops| :: Lowerable(plan, bases, i, ops[l])
    ensures r.Err? ==> exists l: nat :: RefusedFirst(plan, bases, i, ops, l, r.error)
    ensures r.Ok? ==> LoweredTo(plan, bases, i, ops, g, |ops|, r.value.0, r.value.1) && r.value.2 == g + |ops|
  {
    var body: seq<Stmt>, l2g: seq<nat>, next := [], [], g;
    for local := 0 to |ops|
      invariant LoweredTo(plan, bases, i, ops, g, local, body, l2g) && next == g + local
      invariant forall l | 0 <= l < local :: Lowerable(plan, bases, i, ops[l])
    {
      var op := ops[local];
      assert SsaOp(op, local);
      var refused := Refusal(plan, bases, i, op);
      if refused.Some? {
        assert RefusedFirst(plan, bases, i, ops, local, refused.value);
        return Err(refused.value);
      }
      LowerOne(plan, bases, i, ops, g, local, body, l2g);
      body := body + [Temp(next, RvalueOf(plan, bases, i, op, ThroughMap(l2g, LocalOperands(op))))];
      l2g := l2g + [next];
      next := next + 1;
    }
    r := Ok((body, l2g, next));
  }

  /** The stores of a block's output writes. */
  method LowerStores(b: Block, base: nat, l2g: seq<nat>, ghost g: nat) returns (body: seq<Stmt>)
    requires WritesOk(b) && |l2g| == |b.alg.ops| && Numbered(l2g, g)
    ensures body == Stores(b, base, g, |b.alg.writes|)
  {
    body := [];
    for n := 0 to |b.alg.writes|
      invariant body == Stores(b, base, g, n)
    {
      var w := b.alg.writes[n];
      assert w in b.alg.writes;
      if w.Output? {
        body := body + [StoreSig(Target(b, base, w), l2g[w.src])];
      } else {
        assert body + [] == body;
      }
    }
  }

  ghost function DriverOf(plan: Plan, bases: Bases, hierarchical: bool): Driver
    requires PlanShape(plan) && forall k | 0 <= k < |plan.topo| :: plan.topo[k] < |plan.blocks|
  {
    if hierarchical then PerBlock(PerBlockCalls(plan, bases, |plan.topo|))
    else Fused(FusedBody(plan, bases, |plan.topo|))
  }

  /** Both emissions compute the same signals: those of the block-by-block pass. */
  lemma {:induction false} EmissionsAgree(plan: Plan, bases: Bases, m: Machine, sig: seq<real>, hierarchical: bool)
    requires PlanShape(plan) && BlocksOk(plan) && forall k | 0 <= k < |plan.topo| :: plan.topo[k] < |plan.blocks|
    ensures RunDriver(m, sig, DriverOf(plan, bases, hierarchical)) == PassTo(plan, bases, m, sig, |plan.topo|)
  {
    PerBlockRuns(plan, bases, m, sig, |plan.topo|);
    FusedRuns(plan, bases, m, Frame(map[], sig), |plan.topo|);
  }

  /** The body of one participating block, its temporaries from `start` on. */
  method EmitBlock(plan: Plan, bases: Bases, i: nat, start: nat) returns (r: Result<(seq<Stmt>, nat), LowerError>)
    requires PlanShape(plan) && BlocksOk(plan) && i < |plan.blocks| && TakesPart(plan, i)
    ensures r.Ok? <==> BlockLowers(plan, bases, i)
    ensures r.Ok? ==> r.value.0 == BlockBody(plan, bases, i, start) && r.value.1 == start + |plan.blocks[i].alg.ops|
  {
    var b := plan.blocks[i];
    var lowered :- LowerRegion(plan, bases, i, b.alg.ops, start);
    var stores := LowerStores(b, plan.outOff[i].value, lowered.1, start);
    r := Ok((lowered.0 + stores, lowered.2));
  }

  /** The participating blocks among the first `n` of the order can be lowered. */
  ghost predicate PrefixLowers(plan: Plan, bases: Bases, n: nat)
    requires PlanShape(plan) && n <= |plan.topo|
    requires forall k | 0 <= k < |plan.topo| :: plan.topo[k] < |plan.blocks|
  {
    n > 0 ==>
      PrefixLowers(plan, bases, n - 1)
      && (TakesPart(plan, plan.topo[n - 1]) ==> BlockLowers(plan, bases, plan.topo[n - 1]))
  }

  lemma {:induction false} RefusedPrefix(plan: Plan, bases: Bases, n: nat, m: nat)
    requires PlanShape(plan) && n <= m <= |plan.topo|
    requires forall k | 0 <= k < |plan.topo| :: plan.topo[k] < |plan.blocks|
    requires !PrefixLowers(plan, bases, n)
    ensures !PrefixLowers(plan, bases, m)
    decreases m
  {
    if n < m { RefusedPrefix(plan, bases, n, m - 1); }
  }

  /** `model_outputs`: every participating block in topological order. */
  method EmitOutputs(plan: Plan, bases: Bases, hierarchical: bool) returns (r: Result<Driver, LowerError>)
    requires PlanShape(plan) && BlocksOk(plan) && (forall k | 0 <= k < |plan.topo| :: plan.topo[k] < |plan.blocks|)
    ensures r.Ok? <==> PrefixLowers(plan, bases, |plan.topo|)
    ensures r.Ok? ==> r.value == DriverOf(plan, bases, hierarchical)
  {
    var body: seq<Stmt>, calls: seq<seq<Stmt>>, g := [], [], 0;
    for n := 0 to |plan.topo|
      invariant hierarchical ==> calls == PerBlockCalls(plan, bases, n)
      invariant !hierarchical ==> body == FusedBody(plan, bases, n) && g == TempsTo(plan, n)
      invariant PrefixLowers(plan, bases, n)
    {
      var i := plan.topo[n];
      if TakesPart(plan, i) {
        var emitted := EmitBlock(plan, bases, i, if hierarchical then 0 else g);
        if emitted.Err? {
          RefusedPrefix(plan, bases, n + 1, |plan.topo|);
          return Err(emitted.error);
        }
        if hierarchical {
          calls := calls + [emitted.value.0];
        } else {
          body, g := body + emitted.value.0, emitted.value.1;
        }
      } else {
        assert calls + [] == calls && body + [] == body;
      }
    }
    r := Ok(if hierarchical then PerBlock(calls) else Fused(body));
  }
}

/** The static compile pipeline (`compile` in `src/compile/mod.rs`) and its main theorem: the fused
    graph computes the derivatives of the nested diagram. */
module Compile {
  import opened Wrappers
  import opened Ir
  import opened Lut
  import opened Wiring
  import opened Hierarchy
  import opened Flatten
  import opened SsaGraph
  import opened OpSemantics
  import opened SpliceModel
  import opened FlatLayout
  import opened SpliceSpec
  import opened Splice

  // ---------------------------------------------------------------------------------------
  // The nested diagram's own equations
  // ---------------------------------------------------------------------------------------

  /** One evaluation point of a nested diagram; blocks are named by their paths. */
  datatype TreeWorld = TreeWorld(
    prims: Prims,
    state: (Path, nat) -> real,
    memory: (Path, nat, nat) -> real,
    param: (Path, nat) -> real,
    time: real)

  /** A value for every op of every region of every leaf. */
  type TreeValues = (Path, RegionId, nat) -> real

  function OperandValues(tv: TreeValues, p: Path, r: RegionId, ids: seq<nat>): (vs: seq<real>)
    ensures |vs| == |ids| && forall i | 0 <= i < |ids| :: vs[i] == tv(p, r, ids[i])
  {
    seq(|ids|, i requires 0 <= i < |ids| => tv(p, r, ids[i]))
  }

  /** What an op of the leaf at `p` evaluates to. */
  function TreeOpValue(tw: TreeWorld, sig: Signals, tv: TreeValues, p: Path, r: RegionId, op: Op): real
    requires op.Lut1d? ==> Table(op.points, op.values)
  {
    match op
    case Const(c) => c
    case Time => tw.time
    case Input(_, elem) => sig.input(p, elem)
    case Param(id) => tw.param(p, id)
    case State(id) => tw.state(p, id)
    case Memory(slot, offset) => tw.memory(p, slot, offset)
    case op => Compute(tw.prims, op, OperandValues(tv, p, r, LocalOperands(op)))
  }

  /** The op at `k` of the leaf at its place has its value. */
  ghost predicate OpSolved(
      root: Subsystem, places: seq<Path>, tw: TreeWorld, sig: Signals, tv: TreeValues, k: Key)
  {
    && k.block < |places| && IsLeafPath(root, places[k.block])
    && var p := places[k.block];
    && var ops := RegionOps(BlockAt(root, p), k.region);
    && k.local < |ops| && OpOk(BlockAt(root, p), ops, ops[k.local])
    && tv(p, k.region, k.local) == TreeOpValue(tw, sig, tv, p, k.region, ops[k.local])
  }

  /** Every output element written by one of these ops carries the op's value. */
  ghost predicate OutputsCarry(root: Subsystem, places: seq<Path>, keys: set<Key>, sig: Signals, tv: TreeValues) {
    forall b: nat, e: nat {:trigger sig.output(places[b], e)} | b < |places| && IsLeafPath(root, places[b]) ::
      var written := FindOutput(BlockAt(root, places[b]).alg.writes, 0, e);
      written.Some? && Key(b, Alg, written.value) in keys ==>
        sig.output(places[b], e) == tv(places[b], Alg, written.value)
  }

  /** The diagram is solved as far as these ops go: interfaces relay, undriven inputs and the root's inputs are 0,
      each of the ops has its value and the outputs they are written to carry it. Other ops may do as they like. */
  ghost predicate ConeSolved(
      root: Subsystem, places: seq<Path>, keys: set<Key>, tw: TreeWorld, sig: Signals, tv: TreeValues)
  {
    && Relays(root, sig, (e: nat) => 0.0)
    && OutputsCarry(root, places, keys, sig, tv)
    && forall k {:trigger OpSolved(root, places, tw, sig, tv, k)} | k in keys :: OpSolved(root, places, tw, sig, tv, k)
  }

  /** All leaves are solved: every op has its value and every written output carries its op's value. */
  ghost predicate TreeSolved(root: Subsystem, tw: TreeWorld, sig: Signals, tv: TreeValues) {
    && Relays(root, sig, (e: nat) => 0.0)
    && forall p {:trigger IsLeafPath(root, p)} | IsLeafPath(root, p) :: LeafSolved(root, tw, sig, tv, p)
  }

  ghost predicate LeafSolved(root: Subsystem, tw: TreeWorld, sig: Signals, tv: TreeValues, p: Path)
    requires IsLeafPath(root, p)
  {
    var b := BlockAt(root, p);
    && (forall r: RegionId, l: nat {:trigger RegionOps(b, r)[l]} | l < |RegionOps(b, r)| ::
          OpOk(b, RegionOps(b, r), RegionOps(b, r)[l])
          && tv(p, r, l) == TreeOpValue(tw, sig, tv, p, r, RegionOps(b, r)[l]))
    && (forall e: nat {:trigger FindOutput(b.alg.writes, 0, e)} | FindOutput(b.alg.writes, 0, e).Some? ::
          sig.output(p, e) == tv(p, Alg, FindOutput(b.alg.writes, 0, e).value))
  }

  // ---------------------------------------------------------------------------------------
  // Demands on the diagram
  // ---------------------------------------------------------------------------------------

  ghost predicate OneInputPort(b: Block) {
    forall r: RegionId, l: nat {:trigger RegionOps(b, r)[l]} | l < |RegionOps(b, r)| && RegionOps(b, r)[l].Input? ::
      RegionOps(b, r)[l].port == 0
  }

  ghost predicate LeafOk(b: Block) {
    && BlockOk(b) && OneInputPort(b)
    && forall s | 0 <= s < |b.memory| :: |b.memory[s].init| == b.memory[s].size
  }

  ghost predicate LeavesOk(root: Subsystem) {
    forall p {:trigger IsLeafPath(root, p)} | IsLeafPath(root, p) :: LeafOk(BlockAt(root, p))
  }

  lemma {:induction false} FlatLeavesOk(
      root: Subsystem, places: seq<Path>, leaves: seq<Block>, flat: seq<Connection>, saw: bool)
    requires Flattened(root, false, places, leaves, flat, saw) && LeavesOk(root)
    ensures Spliceable(leaves, flat, None)
    ensures forall b | 0 <= b < |leaves| :: LeafOk(leaves[b])
  {
    forall b | 0 <= b < |leaves| ensures LeafOk(leaves[b]) {
      assert IsLeafPath(root, places[b]);
    }
  }

  // ---------------------------------------------------------------------------------------
  // The pipeline
  // ---------------------------------------------------------------------------------------

  predicate HasCall(ops: seq<Op>) { exists i :: 0 <= i < |ops| && ops[i].Call? }

  /** A block whose derivative or output is opaque; what a sink does is not looked at. */
  predicate IsOpaque(b: Block) { b.role != Sink && HasCall(b.alg.ops + b.dyn.ops) }

  method ValidateFlat(blocks: seq<Block>) returns (ok: bool)
    ensures ok <==> forall b | 0 <= b < |blocks| :: !IsOpaque(blocks[b])
  {
    for b := 0 to |blocks|
      invariant forall c | 0 <= c < b :: !IsOpaque(blocks[c])
    {
      if IsOpaque(blocks[b]) {
        return false;
      }
    }
    ok := true;
  }

  /** The flat intermediate form, kept to explain a result. */
  datatype Flat = Flat(places: seq<Path>, leaves: seq<Block>, wires: seq<Connection>)

  /** `explained`: the result follows from a faithful flattening and a faithful splice of it. */
  ghost predicate Compiled(root: Subsystem, f: Flat, e: Evidence, out: Spliced) {
    && Flattened(root, false, f.places, f.leaves, f.wires, false)
    && e.m.blocks == f.leaves && Indexes(e.m.wiring, f.wires)
    && Faithful(e, None, [], out)
  }

  ghost predicate HasOpaqueLeaf(root: Subsystem) {
    exists p {:trigger IsLeafPath(root, p)} :: IsLeafPath(root, p) && IsOpaque(BlockAt(root, p))
  }

  lemma {:induction false} OpaqueLeaves(
      root: Subsystem, places: seq<Path>, leaves: seq<Block>, flat: seq<Connection>, saw: bool)
    requires Flattened(root, false, places, leaves, flat, saw)
    ensures HasOpaqueLeaf(root) <==> exists b :: 0 <= b < |leaves| && IsOpaque(leaves[b])
  {
    if p :| IsLeafPath(root, p) && IsOpaque(BlockAt(root, p)) {
      var b :| 0 <= b < |places| && places[b] == p;
      assert IsOpaque(leaves[b]);
    }
    if b :| 0 <= b < |leaves| && IsOpaque(leaves[b]) {
      assert IsLeafPath(root, places[b]);
    }
  }

  /** `schedule` is the acyclicity verdict on the flat graph (`acyclic` in `src/compile/flatten.rs`). */
  method Compile(root: Subsystem, schedule: (seq<Block>, seq<Connection>) -> bool)
    returns (r: Result<Spliced, CompileError>, ghost f: Flat, ghost e: Evidence)
    requires WellFormedTree(root) && OneDriverEach(root) && LeavesOk(root)
    ensures r.Ok? ==> Compiled(root, f, e, r.value)
    ensures exists saw: bool :: Flattened(root, false, f.places, f.leaves, f.wires, saw)
    ensures HasOpaqueLeaf(root) ==> r == Err(OpaqueBlock)
    ensures !HasOpaqueLeaf(root) && SomeTraceRevisits(root) ==> r == Err(AlgebraicLoop)
    ensures r.Err? ==>
              || (r.error == OpaqueBlock && HasOpaqueLeaf(root))
              || (r.error == AlgebraicLoop && (!schedule(f.leaves, f.wires) || SomeTraceRevisits(root)))
              || Explains(e, f.leaves, f.wires, None, r)
  {
    var leaves, wires, sawCycle, places := FlattenScopes(root, false);
    f := Flat(places, leaves, wires);
    e := Evidence(Model(leaves, map[], Layout([], [], [], 0, 0, None, 0)), [], map[], map[], []);
    assert Flattened(root, false, f.places, f.leaves, f.wires, sawCycle);
    OpaqueLeaves(root, places, leaves, wires, sawCycle);
    var ok := ValidateFlat(leaves);
    if !ok {
      return Err(OpaqueBlock), f, e;
    }
    if sawCycle || !schedule(leaves, wires) {
      return Err(AlgebraicLoop), f, e;
    }
    FlatLeavesOk(root, places, leaves, wires, sawCycle);
    r, e := Splice.Splice(leaves, wires, None);
  }

  // ---------------------------------------------------------------------------------------
  // Meaning
  // ---------------------------------------------------------------------------------------

  /** The flat view of a point of the nested diagram. */
  ghost function FlatWorld(tw: TreeWorld, places: seq<Path>): World {
    World(
      tw.prims,
      (b: nat, id: nat) => if b < |places| then tw.state(places[b], id) else 0.0,
      (b: nat, slot: nat, offset: nat) => if b < |places| then tw.memory(places[b], slot, offset) else 0.0,
      (b: nat, id: nat) => if b < |places| then tw.param(places[b], id) else 0.0,
      tw.time,
      (e: nat) => 0.0)
  }

  ghost function FlatValues(tv: TreeValues, places: seq<Path>): Valuation {
    (k: Key) => if k.block < |places| then tv(places[k.block], k.region, k.local) else 0.0
  }

  /** What a flat input element reads is what the nested diagram puts there. */
  lemma {:induction false} FlatInputIsTreeInput(
      root: Subsystem, f: Flat, e: Evidence, out: Spliced, keys: set<Key>, sig: Signals, tv: TreeValues, b: nat,
      elem: nat)
    requires WellFormedTree(root) && Compiled(root, f, e, out) && b < |f.places|
    requires Relays(root, sig, (x: nat) => 0.0) && OutputsCarry(root, f.places, keys, sig, tv)
    requires !FeedOf(e.m, b, 0, elem).NoSuchOutput?
    requires FeedOf(e.m, b, 0, elem).Driven? ==> FeedOf(e.m, b, 0, elem).key in keys
    ensures sig.input(f.places[b], elem) ==
            match FeedOf(e.m, b, 0, elem)
            case Driven(d) => FlatValues(tv, f.places)(d)
            case _ => 0.0
  {
    var places := f.places;
    FlatWiresCarryTheValues(root, false, places, f.leaves, f.wires, sig, (x: nat) => 0.0, b, elem);
    var wire := WireOf(f.wires, b, elem);
    assert wire == if (Child(b), 0, elem) in e.m.wiring then Some(e.m.wiring[(Child(b), 0, elem)]) else None;
    if wire.Some? {
      WireSource(root, f, wire.value, b, elem);
      var g := wire.value.block.idx;
      assert IsLeafPath(root, places[g]) && BlockAt(root, places[g]) == f.leaves[g];
      assert sig.output(places[g], wire.value.elem) == WireValue(sig, (x: nat) => 0.0, places, wire);
    }
  }

  /** A wire of the flattened diagram starts at output port 0 of a leaf. */
  lemma {:induction false} WireSource(root: Subsystem, f: Flat, src: InputSrc, b: nat, elem: nat)
    requires Flattened(root, false, f.places, f.leaves, f.wires, false)
    requires b < |f.places| && WireOf(f.wires, b, elem) == Some(src)
    ensures src.block.Child? && src.block.idx < |f.places| && src.port == 0
  {
    var from := LeafDriver(root, f.places[b], elem);
    assert WireTraces(root, f.places, false, from, WireOf(f.wires, b, elem));
    var m: nat :| !Walk(root, from, m).Goto? && Produces(f.places, false, Walk(root, from, m), Some(src));
  }

  /** A translated op is an op of some leaf of the diagram. */
  lemma {:induction false} TranslatedOpIsAtALeaf(root: Subsystem, f: Flat, e: Evidence, out: Spliced, k: Key)
    requires LeavesOk(root) && Compiled(root, f, e, out) && k in e.meaning.Keys
    ensures ValidKey(e.m, k) && OpInRange(e.m, k) && k.block < |f.places| && IsLeafPath(root, f.places[k.block])
    ensures BlockAt(root, f.places[k.block]) == e.m.blocks[k.block] && LeafOk(e.m.blocks[k.block])
  {
    TranslatedOpIsOk(e.m, e.order, e.meaning, k);
    var p := f.places[k.block];
    assert IsLeafPath(root, p) && LeafOk(BlockAt(root, p));
  }

  /** The equation of a translated op is the same in both views. */
  lemma {:induction false} FlatOpIsTreeOp(
      root: Subsystem, f: Flat, e: Evidence, out: Spliced, tw: TreeWorld, sig: Signals, tv: TreeValues, k: Key)
    requires WellFormedTree(root) && LeavesOk(root) && Compiled(root, f, e, out) && k in e.meaning.Keys
    requires Relays(root, sig, (x: nat) => 0.0) && OutputsCarry(root, f.places, e.meaning.Keys, sig, tv)
    ensures ValidKey(e.m, k) && OpInRange(e.m, k) && k.block < |f.places|
    ensures TreeOpValue(tw, sig, tv, f.places[k.block], k.region, OpAt(e.m, k)) ==
            OpValue(e.m, FlatWorld(tw, f.places), FlatValues(tv, f.places), k)
  {
    TranslatedOpIsOk(e.m, e.order, e.meaning, k);
    TranslatedOpIsAtALeaf(root, f, e, out, k);
    if OpAt(e.m, k).Input? {
      InputCarriesOver(root, f, e, out, tw, sig, tv, k);
    } else {
      OpCarriesOver(e.m, f.places, tw, sig, tv, k);
    }
  }

  lemma {:induction false} InputCarriesOver(
      root: Subsystem, f: Flat, e: Evidence, out: Spliced, tw: TreeWorld, sig: Signals, tv: TreeValues, k: Key)
    requires WellFormedTree(root) && Compiled(root, f, e, out) && k.block < |f.places|
    requires ValidKey(e.m, k) && OpAt(e.m, k).Input? && OneInputPort(e.m.blocks[k.block])
    requires !ReadsMissingOutput(e.m, k) && forall d | d in Deps(e.m, k) :: d in e.meaning.Keys
    requires Relays(root, sig, (x: nat) => 0.0) && OutputsCarry(root, f.places, e.meaning.Keys, sig, tv)
    ensures TreeOpValue(tw, sig, tv, f.places[k.block], k.region, OpAt(e.m, k)) ==
            OpValue(e.m, FlatWorld(tw, f.places), FlatValues(tv, f.places), k)
  {
    FlatInputIsTreeInput(root, f, e, out, e.meaning.Keys, sig, tv, k.block, OpAt(e.m, k).elem);
  }

  /** An op other than an input means the same in both views. */
  lemma {:induction false} OpCarriesOver(
      m: Model, places: seq<Path>, tw: TreeWorld, sig: Signals, tv: TreeValues, k: Key)
    requires WellFormedModel(m) && ValidKey(m, k) && OpInRange(m, k) && !ReadsMissingOutput(m, k) && !OpAt(m, k).Input?
    requires k.block < |places|
    ensures TreeOpValue(tw, sig, tv, places[k.block], k.region, OpAt(m, k)) ==
            OpValue(m, FlatWorld(tw, places), FlatValues(tv, places), k)
  {
    if !IsLeaf(OpAt(m, k)) {
      FlatOperands(tv, places, k, LocalOperands(OpAt(m, k)));
    }
  }

  lemma {:induction false} FlatOperands(tv: TreeValues, places: seq<Path>, k: Key, ids: seq<nat>)
    requires k.block < |places|
    ensures OperandValues(tv, places[k.block], k.region, ids) == ValuesAt(FlatValues(tv, places), SameRegion(k, ids))
  {
  }

  lemma {:induction false} TranslatedOpIsOk(m: Model, order: seq<Key>, meaning: map<Key, Expr>, k: Key)
    requires WellFormedModel(m) && Translated(m, order, meaning) && k in meaning
    ensures ValidKey(m, k) && OpInRange(m, k) && !ReadsMissingOutput(m, k)
    ensures forall d | d in Deps(m, k) :: d in meaning
  {
    assert k in order;
    var i :| 0 <= i < |order| && order[i] == k;
    assert EntryTranslated(m, order, meaning, i);
    assert forall d | d in Deps(m, order[i]) :: d in meaning;
    KeyOk(m, k);
  }

  /** Values that satisfy the nested diagram's equations of the translated ops satisfy the flat ones. */
  lemma {:induction false} TreeSolutionIsFlatSolution(
      root: Subsystem, f: Flat, e: Evidence, out: Spliced, tw: TreeWorld, sig: Signals, tv: TreeValues)
    requires WellFormedTree(root) && LeavesOk(root) && Compiled(root, f, e, out)
    requires ConeSolved(root, f.places, e.meaning.Keys, tw, sig, tv)
    ensures Solves(e.m, FlatWorld(tw, f.places), FlatValues(tv, f.places), e.meaning.Keys)
  {
    forall k | k in e.meaning.Keys
      ensures ValidKey(e.m, k) && OpInRange(e.m, k)
      ensures FlatValues(tv, f.places)(k) == OpValue(e.m, FlatWorld(tw, f.places), FlatValues(tv, f.places), k)
    {
      TranslatedOpIsAtALeaf(root, f, e, out, k);
      FlatOpIsTreeOp(root, f, e, out, tw, sig, tv, k);
      assert OpSolved(root, f.places, tw, sig, tv, k);
    }
  }

  /** Compilation preserves meaning: at every point of the nested diagram, whichever flat vectors
      hold that point, the fused node of each state evaluates to the derivative that the diagram's
      own equations give it. */
  lemma {:induction false} CompilationPreservesMeaning(
      root: Subsystem, f: Flat, e: Evidence, out: Spliced, tw: TreeWorld, sig: Signals, tv: TreeValues, env: Env,
      b: nat, id: nat)
    requires WellFormedTree(root) && LeavesOk(root) && Compiled(root, f, e, out)
    requires ConeSolved(root, f.places, e.meaning.Keys, tw, sig, tv)
    requires Interpretable(e.m, FlatWorld(tw, f.places))
    requires Packs(e.m, FlatWorld(tw, f.places), env)
    requires b < |f.leaves| && id < |f.leaves[b].state|
    ensures var writes := f.leaves[b].dyn.writes;
            LastDeriv(writes, |writes|, id).Some?
    ensures e.m.layout.stateOff[b] + id < |out.derivs| && out.derivs[e.m.layout.stateOff[b] + id] < |out.nodes|
    ensures var writes := f.leaves[b].dyn.writes;
            NodeAt(out.nodes, env, out.derivs[e.m.layout.stateOff[b] + id]) ==
            tv(f.places[b], Dyn, LastDeriv(writes, |writes|, id).value)
  {
    var w, v := FlatWorld(tw, f.places), FlatValues(tv, f.places);
    TreeSolutionIsFlatSolution(root, f, e, out, tw, sig, tv);
    DerivativesAreTheBlockEquations(e, None, [], out, w, env, v, b, id);
  }

  /** Every point of the nested diagram is held by some flat vectors, so the theorem above speaks of
      all of them. */
  lemma {:induction false} EveryPointIsHeld(root: Subsystem, f: Flat, e: Evidence, out: Spliced, tw: TreeWorld)
    returns (env: Env)
    requires Compiled(root, f, e, out) && LeavesOk(root)
    ensures Packs(e.m, FlatWorld(tw, f.places), env)
  {
    FlatLeavesOk(root, f.places, f.leaves, f.wires, false);
    env := EveryWorldPacks(e.m, None, FlatWorld(tw, f.places));
  }

  lemma {:induction false} WholeOutputsCarry(
      root: Subsystem, places: seq<Path>, keys: set<Key>, tw: TreeWorld, sig: Signals, tv: TreeValues)
    requires TreeSolved(root, tw, sig, tv)
    ensures OutputsCarry(root, places, keys, sig, tv)
  {
    forall b: nat, x: nat | b < |places| && IsLeafPath(root, places[b])
      && FindOutput(BlockAt(root, places[b]).alg.writes, 0, x).Some?
      ensures sig.output(places[b], x) ==
              tv(places[b], Alg, FindOutput(BlockAt(root, places[b]).alg.writes, 0, x).value)
    {
      assert LeafSolved(root, tw, sig, tv, places[b]);
    }
  }

  /** What solves the whole diagram solves the translated part of it. */
  lemma {:induction false} WholeSolutionIsConeSolution(
      root: Subsystem, f: Flat, e: Evidence, out: Spliced, tw: TreeWorld, sig: Signals, tv: TreeValues)
    requires LeavesOk(root) && Compiled(root, f, e, out) && TreeSolved(root, tw, sig, tv)
    ensures ConeSolved(root, f.places, e.meaning.Keys, tw, sig, tv)
  {
    WholeOutputsCarry(root, f.places, e.meaning.Keys, tw, sig, tv);
    forall k | k in e.meaning.Keys ensures OpSolved(root, f.places, tw, sig, tv, k) {
      TranslatedOpIsAtALeaf(root, f, e, out, k);
      assert LeafSolved(root, tw, sig, tv, f.places[k.block]);
    }
  }

  // ---------------------------------------------------------------------------------------
  // Every point has exactly one solution
  // ---------------------------------------------------------------------------------------

  /** The first index of a path among the places. */
  function PlaceOf(places: seq<Path>, p: Path): (b: nat)
    ensures b <= |places| && (b < |places| ==> places[b] == p) && forall c | 0 <= c < b :: places[c] != p
  {
    if places == [] then 0 else if places[0] == p then 0 else 1 + PlaceOf(places[1..], p)
  }

  ghost function PathValues(v: Valuation, places: seq<Path>): TreeValues {
    (p: Path, r: RegionId, l: nat) => v(Key(PlaceOf(places, p), r, l))
  }

  lemma {:induction false} PathValuesAreFlat(v: Valuation, places: seq<Path>, k: Key)
    requires k.block < |places| && forall b, c | 0 <= b < c < |places| :: places[b] != places[c]
    ensures FlatValues(PathValues(v, places), places)(k) == v(k)
  {
    assert PlaceOf(places, places[k.block]) == k.block;
    assert k == Key(k.block, k.region, k.local);
  }

  /** Each leaf puts out what its ops write. */
  ghost function WrittenOutputs(root: Subsystem, tv: TreeValues): (Path, nat) -> real {
    (p: Path, e: nat) =>
      if IsLeafPath(root, p) && FindOutput(BlockAt(root, p).alg.writes, 0, e).Some? then
        tv(p, Alg, FindOutput(BlockAt(root, p).alg.writes, 0, e).value)
      else 0.0
  }

  lemma {:induction false} WrittenOutputsCarry(
      root: Subsystem, places: seq<Path>, keys: set<Key>, sig: Signals, tv: TreeValues)
    requires WellFormedTree(root) && sig == RelaySignals(root, WrittenOutputs(root, tv), (x: nat) => 0.0)
    ensures Relays(root, sig, (x: nat) => 0.0) && OutputsCarry(root, places, keys, sig, tv)
  {
    RelaysHaveASolution(root, WrittenOutputs(root, tv), (x: nat) => 0.0);
    forall b: nat, e: nat | b < |places| && IsLeafPath(root, places[b])
      ensures sig.output(places[b], e) == WrittenOutputs(root, tv)(places[b], e)
    {
      var p := places[b];
      LeafIsNoScope(root, p[..|p| - 1], p[|p| - 1]);
      assert p[..|p| - 1] + [p[|p| - 1]] == p;
    }
  }

  /** At every point the translated part of the diagram has a solution. */
  lemma {:induction false} EveryPointIsSolved(root: Subsystem, f: Flat, e: Evidence, out: Spliced, tw: TreeWorld)
    returns (sig: Signals, tv: TreeValues)
    requires WellFormedTree(root) && LeavesOk(root) && Compiled(root, f, e, out)
    requires Interpretable(e.m, FlatWorld(tw, f.places))
    ensures ConeSolved(root, f.places, e.meaning.Keys, tw, sig, tv)
  {
    var env := EveryPointIsHeld(root, f, e, out, tw);
    var v: Valuation := (k: Key) => if k in e.meaning then Eval(e.meaning[k], env) else 0.0;
    tv := PathValues(v, f.places);
    sig := RelaySignals(root, WrittenOutputs(root, tv), (x: nat) => 0.0);
    WrittenOutputsCarry(root, f.places, e.meaning.Keys, sig, tv);
    forall k | k in e.meaning.Keys ensures k.block < |f.places| && FlatValues(tv, f.places)(k) == v(k) {
      TranslatedOpIsOk(e.m, e.order, e.meaning, k);
      PathValuesAreFlat(v, f.places, k);
    }
    TranslatedSolves(e.m, FlatWorld(tw, f.places), env, e.order, e.meaning, FlatValues(tv, f.places));
    forall k | k in e.meaning.Keys ensures OpSolved(root, f.places, tw, sig, tv, k) {
      TranslatedOpIsAtALeaf(root, f, e, out, k);
      FlatOpIsTreeOp(root, f, e, out, tw, sig, tv, k);
    }
  }

  /** Two solutions give every translated op the same value. */
  lemma {:induction false} TreeSolutionIsUnique(
      root: Subsystem, f: Flat, e: Evidence, out: Spliced, tw: TreeWorld, sig: Signals, tv: TreeValues, sig2: Signals,
      tv2: TreeValues, k: Key)
    requires WellFormedTree(root) && LeavesOk(root) && Compiled(root, f, e, out)
    requires Interpretable(e.m, FlatWorld(tw, f.places)) && k in e.meaning
    requires ConeSolved(root, f.places, e.meaning.Keys, tw, sig, tv)
    requires ConeSolved(root, f.places, e.meaning.Keys, tw, sig2, tv2)
    ensures k.block < |f.places|
    ensures tv(f.places[k.block], k.region, k.local) == tv2(f.places[k.block], k.region, k.local)
  {
    var w := FlatWorld(tw, f.places);
    var env := EveryPointIsHeld(root, f, e, out, tw);
    TreeSolutionIsFlatSolution(root, f, e, out, tw, sig, tv);
    TreeSolutionIsFlatSolution(root, f, e, out, tw, sig2, tv2);
    TranslatedOpIsOk(e.m, e.order, e.meaning, k);
    var i :| 0 <= i < |e.order| && e.order[i] == k;
    TranslatedIsUnique(e.m, w, env, e.order, e.meaning, FlatValues(tv, f.places), i);
    TranslatedIsUnique(e.m, w, env, e.order, e.meaning, FlatValues(tv2, f.places), i);
  }
}

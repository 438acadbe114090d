/** What a spliced model stands for in terms of the blocks' own ops, writes, connections and defaults (`splice` in
    `src/compile/splice.rs`): the equations it solves, and which value each of its derivatives, outputs and taps has. */
module SpliceMeaning {
  import opened Wrappers
  import opened Ir
  import opened Lut
  import opened Joins
  import opened Wiring
  import opened WireMeaning
  import opened FlatWires
  import opened SsaGraph
  import opened OpSemantics
  import opened OpMeaning
  import opened SpliceModel
  import opened FlatLayout
  import opened SpliceSpec
  import opened Splice
  import D = DiagramMeaning

  // ---------------------------------------------------------------------------------------
  // The equations
  // ---------------------------------------------------------------------------------------

  /** `x` is the value of output element `elem` of a port of block `p`: that of the op in its first write. */
  ghost predicate IsOutputOf(m: Model, v: Valuation, p: nat, port: nat, elem: nat, x: real) {
    p < |m.blocks|
    && forall n: nat {:trigger m.blocks[p].alg.writes[n]} | n < |m.blocks[p].alg.writes| ::
         var writes := m.blocks[p].alg.writes;
         WritesOutput(writes[n], port, elem)
         && (forall i: nat {:trigger writes[i]} | i < n :: !WritesOutput(writes[i], port, elem)) ==>
           x == v(Key(p, Alg, writes[n].src))
  }

  /** `x` is what reaches input element `elem` of a port of block `b`: the external input or the output that the first
      connection to address it brings, and 0 if none does. */
  ghost predicate Reaches(
      m: Model, conns: seq<Connection>, w: World, v: Valuation, b: nat, port: nat, elem: nat, x: real)
  {
    && (DrivenByNone(conns, Child(b), Some(port), elem) ==> x == 0.0)
    && forall c: nat, k: nat, j: nat {:trigger DrivesFirst(conns, Child(b), Some(port), elem, c, k, j)} ::
         DrivesFirst(conns, Child(b), Some(port), elem, c, k, j) ==>
           match conns[c].src.block
           case Iface => x == w.external(Paired(conns[c].src, j))
           case Child(p) => IsOutputOf(m, v, p, conns[c].src.port, Paired(conns[c].src, j), x)
  }

  /** The op at `k` has the value it should. */
  ghost predicate OpHolds(m: Model, conns: seq<Connection>, w: World, v: Valuation, k: Key, op: Op)
    requires op.Lut1d? ==> Table(op.points, op.values)
  {
    match op
    case Const(c) => v(k) == c
    case Time => v(k) == w.time
    case Input(port, elem) => Reaches(m, conns, w, v, k.block, port, elem, v(k))
    case Param(id) => v(k) == w.param(k.block, id)
    case State(id) => v(k) == w.state(k.block, id)
    case Memory(slot, offset) => v(k) == w.memory(k.block, slot, offset)
    case Call => true
    case _ => Computes(w.prims, op, (i: nat) => v(Key(k.block, k.region, i)), v(k))
  }

  lemma {:induction false} ProducerIsOutput(m: Model, v: Valuation, p: nat, port: nat, elem: nat, feed: Feed, x: real)
    requires p < |m.blocks| && feed == ProducerFeed(m.blocks, p, port, elem)
    requires feed.Driven? ==> x == v(feed.key)
    ensures IsOutputOf(m, v, p, port, elem, x)
  {
    FirstOutputIs(m.blocks[p].alg.writes, port, elem);
  }

  /** What a feed delivers is what reaches the element. */
  lemma {:induction false} FeedReaches(
      m: Model, conns: seq<Connection>, w: World, v: Valuation, b: nat, port: nat, elem: nat, x: real)
    requires WellFormedModel(m) && Indexes(m.wiring, conns)
    requires x == FeedValue(w, v, FeedOf(m, b, port, elem))
    ensures Reaches(m, conns, w, v, b, port, elem, x)
  {
    var to, key := Child(b), (Child(b), port, elem);
    assert FirstDriver(conns, to, Some(port), elem) == if key in m.wiring then Some(m.wiring[key]) else None;
    var c', k', j' := FirstDriverIs(conns, to, Some(port), elem);
    forall c: nat, k: nat, j: nat {:trigger DrivesFirst(conns, to, Some(port), elem, c, k, j)}
      | DrivesFirst(conns, to, Some(port), elem, c, k, j)
      ensures match conns[c].src.block
              case Iface => x == w.external(Paired(conns[c].src, j))
              case Child(p) => IsOutputOf(m, v, p, conns[c].src.port, Paired(conns[c].src, j), x)
    {
      FirstDriverIsUnique(conns, to, Some(port), elem, c, k, j);
      assert key in m.wiring && IsSource(conns[c].src, j, m.wiring[key]);
      var src := m.wiring[key];
      if src.block.Child? {
        ProducerIsOutput(m, v, src.block.idx, src.port, src.elem, FeedOf(m, b, port, elem), x);
      }
    }
  }

  /** Whatever satisfies the model's equations satisfies the blocks' own. */
  lemma {:induction false} SolutionMeans(
      m: Model, conns: seq<Connection>, w: World, v: Valuation, keys: set<Key>, k: Key)
    requires WellFormedModel(m) && Indexes(m.wiring, conns) && Solves(m, w, v, keys) && k in keys
    ensures ValidKey(m, k) && OpInRange(m, k)
    ensures D.HasOp(m.blocks[k.block], k.region, k.local, OpAt(m, k))
    ensures OpHolds(m, conns, w, v, k, OpAt(m, k))
  {
    var op := OpAt(m, k);
    D.HasOpIff(m.blocks[k.block], k.region, k.local, op);
    if op.Input? {
      FeedReaches(m, conns, w, v, k.block, op.port, op.elem, v(k));
    } else if !IsLeaf(op) && !op.Call? {
      var at := (i: nat) => v(Key(k.block, k.region, i));
      assert ValuesAt(v, SameRegion(k, LocalOperands(op))) == Taken(at, LocalOperands(op));
      ComputesIff(w.prims, op, at, Taken(at, LocalOperands(op)), v(k));
    }
  }

  // ---------------------------------------------------------------------------------------
  // What the results are
  // ---------------------------------------------------------------------------------------

  /** The derivative node of a state has the value of the op that the last derivative write for it names. */
  lemma {:induction false} DerivativeMeans(
      e: Evidence, nIn: Option<nat>, sources: seq<OutputSrc>, out: Spliced, w: World, env: Env, v: Valuation, b: nat,
      id: nat, n: nat)
    requires Faithful(e, nIn, sources, out) && Packs(e.m, w, env) && Interpretable(e.m, w)
    requires Solves(e.m, w, v, e.meaning.Keys) && b < |e.m.blocks| && id < |e.m.blocks[b].state|
    requires n < |e.m.blocks[b].dyn.writes| && DerivesState(e.m.blocks[b].dyn.writes[n], id)
    requires forall k | n < k < |e.m.blocks[b].dyn.writes| :: !DerivesState(e.m.blocks[b].dyn.writes[k], id)
    ensures e.m.layout.stateOff[b] + id < |out.derivs| && out.derivs[e.m.layout.stateOff[b] + id] < |out.nodes|
    ensures NodeAt(out.nodes, env, out.derivs[e.m.layout.stateOff[b] + id]) ==
            v(Key(b, Dyn, e.m.blocks[b].dyn.writes[n].src))
  {
    var writes := e.m.blocks[b].dyn.writes;
    DerivativesAreTheBlockEquations(e, nIn, sources, out, w, env, v, b, id);
    LastDerivIs(writes, |writes|, id);
    assert LastDeriv(writes, |writes|, id) == Some(writes[n].src);
  }

  /** What an interface output is connected to. */
  ghost predicate IsOutputValue(m: Model, w: World, v: Valuation, src: OutputSrc, x: real) {
    match src
    case Open => x == 0.0
    case PassThrough(e) => x == w.external(e)
    case LeafOutput(b, e) => IsOutputOf(m, v, b, 0, e, x)
  }

  /** The output nodes of a spliced model have the values of their sources. */
  lemma {:induction false} OutputMeans(
      e: Evidence, nIn: Option<nat>, sources: seq<OutputSrc>, out: Spliced, w: World, env: Env, v: Valuation, q: nat)
    requires Faithful(e, nIn, sources, out) && Packs(e.m, w, env) && Interpretable(e.m, w)
    requires Solves(e.m, w, v, e.meaning.Keys) && q < |sources|
    requires sources[q].PassThrough? ==> sources[q].elem < e.m.layout.nExternal
    ensures out.outputs[q] < |out.nodes|
    ensures IsOutputValue(e.m, w, v, sources[q], NodeAt(out.nodes, env, out.outputs[q]))
  {
    OutputsAreTheirSources(e, nIn, sources, out, w, env, v, q);
    assert NodeReads(e.m, e.memo, e.trees, OutputFeed(e.m.blocks, sources[q]), out.outputs[q]);
    if sources[q].LeafOutput? {
      var x := NodeAt(out.nodes, env, out.outputs[q]);
      ProducerIsOutput(e.m, v, sources[q].block, 0, sources[q].elem, OutputFeed(e.m.blocks, sources[q]), x);
    }
  }

  lemma {:induction false} WidthIsSum(sizes: seq<nat>)
    ensures InputWidth(sizes) == SizeSum(sizes, |sizes|)
    decreases |sizes|
  {
    if sizes != [] {
      WidthIsSum(sizes[..|sizes| - 1]);
      SumOfFront(sizes, |sizes| - 1);
    }
  }

  lemma {:induction false} SumOfFront(sizes: seq<nat>, n: nat)
    requires n < |sizes|
    ensures SizeSum(sizes[..|sizes| - 1], n) == SizeSum(sizes, n)
    decreases n
  {
    if n > 0 { SumOfFront(sizes, n - 1); }
  }

  /** Every input element of a sink is tapped, with the value that reaches it. */
  lemma {:induction false} TapMeans(
      e: Evidence, nIn: Option<nat>, sources: seq<OutputSrc>, out: Spliced, conns: seq<Connection>, w: World, env: Env,
      v: Valuation, b: nat, elem: nat)
    returns (q: nat)
    requires Faithful(e, nIn, sources, out) && Packs(e.m, w, env) && Interpretable(e.m, w)
    requires Indexes(e.m.wiring, conns) && Solves(e.m, w, v, e.meaning.Keys)
    requires b < |e.m.blocks| && e.m.blocks[b].role.Sink?
    requires elem < SizeSum(e.m.blocks[b].inSizes, |e.m.blocks[b].inSizes|)
    ensures q < |out.taps| && out.taps[q] < |out.nodes|
    ensures Reaches(e.m, conns, w, v, b, 0, elem, NodeAt(out.nodes, env, out.taps[q]))
  {
    WidthIsSum(e.m.blocks[b].inSizes);
    assert SinkElem(e.m.blocks, b, elem);
    q := TapsRecordTheSinks(e, nIn, sources, out, w, env, v, b, elem);
    FeedReaches(e.m, conns, w, v, b, 0, elem, NodeAt(out.nodes, env, out.taps[q]));
  }

  /** The states of block `b` start with its defaults, from `off` on. */
  ghost predicate StatesAt(b: Block, off: nat, x0: seq<real>) {
    forall id: nat {:trigger b.state[id]} | id < |b.state| :: off + id < |x0| && x0[off + id] == b.state[id]
  }

  ghost predicate ParamsAt(b: Block, off: nat, params: seq<real>) {
    forall id: nat {:trigger b.params[id]} | id < |b.params| && b.params[id].Scalar? ::
      off + id < |params| && params[off + id] == b.params[id].v
  }

  /** The memory slots of block `b` start with their contents. */
  ghost predicate MemoryAt(b: Block, offs: seq<nat>, m0: seq<real>) {
    |offs| == |b.memory|
    && forall s: nat, k: nat {:trigger b.memory[s].init[k]} | s < |b.memory| && k < |b.memory[s].init| ::
         offs[s] + k < |m0| && m0[offs[s] + k] == b.memory[s].init[k]
  }

  lemma {:induction false} StatesStart(blocks: seq<Block>, b: nat)
    requires b < |blocks|
    ensures StatesAt(blocks[b], Start(StateParts(blocks), b), Joined(StateParts(blocks)))
  {
    var parts := StateParts(blocks);
    forall id: nat | id < |blocks[b].state|
      ensures Start(parts, b) + id < |Joined(parts)| && Joined(parts)[Start(parts, b) + id] == blocks[b].state[id]
    {
      JoinedAt(parts, b, id);
    }
  }

  lemma {:induction false} ParamsStart(blocks: seq<Block>, b: nat)
    requires b < |blocks|
    ensures ParamsAt(blocks[b], Start(ParamParts(blocks), b), Joined(ParamParts(blocks)))
  {
    var parts := ParamParts(blocks);
    forall id: nat | id < |blocks[b].params| && blocks[b].params[id].Scalar?
      ensures Start(parts, b) + id < |Joined(parts)| && Joined(parts)[Start(parts, b) + id] == blocks[b].params[id].v
    {
      JoinedAt(parts, b, id);
    }
  }

  lemma {:induction false} MemoryStarts(blocks: seq<Block>, b: nat, offs: seq<nat>)
    requires b < |blocks| && MemOffsets(blocks, b, offs)
    ensures MemoryAt(blocks[b], offs, Joined(MemParts(blocks)))
  {
    var parts, slots := MemParts(blocks), SlotParts(blocks[b]);
    forall s: nat, k: nat | s < |blocks[b].memory| && k < |blocks[b].memory[s].init|
      ensures offs[s] + k < |Joined(parts)| && Joined(parts)[offs[s] + k] == blocks[b].memory[s].init[k]
    {
      JoinedAt(slots, s, k);
      JoinedAt(parts, b, Start(slots, s) + k);
    }
  }

  /** The vectors of a spliced model start from the blocks' own defaults, each at its place. */
  lemma {:induction false} DefaultsAreTheBlocks(
      e: Evidence, nIn: Option<nat>, sources: seq<OutputSrc>, out: Spliced, b: nat)
    requires Faithful(e, nIn, sources, out) && b < |e.m.blocks|
    ensures StatesAt(e.m.blocks[b], e.m.layout.stateOff[b], out.x0)
    ensures ParamsAt(e.m.blocks[b], e.m.layout.paramOff[b], out.params)
    ensures MemoryAt(e.m.blocks[b], e.m.layout.memOff[b], out.m0)
  {
    StatesStart(e.m.blocks, b);
    ParamsStart(e.m.blocks, b);
    MemoryStarts(e.m.blocks, b, e.m.layout.memOff[b]);
  }
}

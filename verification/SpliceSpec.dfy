/** What `splice` demands of its input and what its result stands for. */
module SpliceSpec {
  import opened Wrappers
  import opened Ir
  import opened Lut
  import opened Joins
  import opened Wiring
  import opened SsaGraph
  import opened OpSemantics
  import opened SpliceModel
  import opened FlatLayout

  // ---------------------------------------------------------------------------------------
  // Demands
  // ---------------------------------------------------------------------------------------

  ghost predicate OpOk(b: Block, ops: seq<Op>, op: Op) {
    && (forall i | 0 <= i < |LocalOperands(op)| :: LocalOperands(op)[i] < |ops|)
    && (op.State? ==> op.id < |b.state|)
    && (op.Param? ==> op.id < |b.params|)
    && (op.Memory? ==> op.slot < |b.memory| && op.offset < b.memory[op.slot].size)
    && (op.Lut1d? ==> Table(op.points, op.values))
  }

  ghost predicate WriteOk(b: Block, ops: seq<Op>, w: Write) {
    && w.src < |ops|
    && (w.StateDeriv? || w.StateWrite? ==> w.id < |b.state|)
    && (w.MemoryWrite? ==> w.slot < |b.memory| && w.offset < b.memory[w.slot].size)
  }

  /** Every index in the block's regions is in range. */
  ghost predicate BlockOk(b: Block) {
    && (forall r: RegionId, l: nat {:trigger RegionOps(b, r)[l]} | l < |RegionOps(b, r)| ::
          OpOk(b, RegionOps(b, r), RegionOps(b, r)[l]))
    && (forall w | w in b.alg.writes :: WriteOk(b, b.alg.ops, w))
    && (forall w | w in b.dyn.writes :: WriteOk(b, b.dyn.ops, w))
    && (forall k, w | 0 <= k < |b.events| && w in b.events[k].effect.writes :: WriteOk(b, b.events[k].effect.ops, w))
  }

  /** Connections come from existing blocks, or from existing external inputs. */
  ghost predicate SourceOk(n: nat, nIn: Option<nat>, src: PortRef) {
    match src.block
    case Child(i) => i < n
    case Iface => nIn.Some? && 0 < nIn.value && forall e | e in ElemsOr0(src.elems) :: e < nIn.value
  }

  ghost predicate Spliceable(blocks: seq<Block>, conns: seq<Connection>, nIn: Option<nat>) {
    && SlotsFilled(blocks)
    && (forall b {:trigger BlockOk(blocks[b])} | 0 <= b < |blocks| :: BlockOk(blocks[b]))
    && (forall c | c in conns :: SourceOk(|blocks|, nIn, c.src))
  }

  lemma {:induction false} BlockIsInRange(m: Model, nIn: Option<nat>, b: nat)
    requires LaidOut(m.blocks, nIn, m.layout) && b < |m.blocks| && BlockOk(m.blocks[b])
    ensures BlockInRange(m, b)
  {
    assert MemOffsets(m.blocks, b, m.layout.memOff[b]);
    forall r: RegionId, l: nat | ValidKey(m, Key(b, r, l)) ensures OpInRange(m, Key(b, r, l)) {
      assert OpOk(m.blocks[b], RegionOps(m.blocks[b], r), RegionOps(m.blocks[b], r)[l]);
    }
  }

  lemma {:induction false} SplicedModelIsWellFormed(m: Model, conns: seq<Connection>, nIn: Option<nat>)
    requires LaidOut(m.blocks, nIn, m.layout) && Spliceable(m.blocks, conns, nIn) && Indexes(m.wiring, conns)
    ensures WellFormedModel(m)
  {
    forall b | 0 <= b < |m.blocks| ensures BlockInRange(m, b) {
      assert BlockOk(m.blocks[b]);
      BlockIsInRange(m, nIn, b);
    }
    forall key | key in m.wiring
      ensures match m.wiring[key].block
              case Iface => m.layout.uBase.Some? && m.wiring[key].elem < m.layout.nExternal
              case Child(i) => i < |m.blocks|
    {
      assert FirstDriver(conns, key.0, Some(key.1), key.2) == Some(m.wiring[key]);
      FirstDriverReads(conns, key.0, Some(key.1), key.2);
      var c :| 0 <= c < |conns| && m.wiring[key].block == conns[c].src.block
        && m.wiring[key].elem in [0] + ElemsOr0(conns[c].src.elems);
      assert SourceOk(|m.blocks|, nIn, conns[c].src);
    }
  }

  // ---------------------------------------------------------------------------------------
  // Derivatives
  // ---------------------------------------------------------------------------------------

  /** The op whose value is the derivative of state `id` of block `b`. */
  function DerivKey(blocks: seq<Block>, b: nat, id: nat): Option<Key>
    requires b < |blocks|
  {
    match LastDeriv(blocks[b].dyn.writes, |blocks[b].dyn.writes|, id)
    case Some(src) => Some(Key(b, Dyn, src))
    case None => None
  }

  ghost predicate DerivHolds(m: Model, memo: map<Key, nat>, derivs: seq<nat>, b: nat, id: nat)
    requires b < |m.blocks| == |m.layout.stateOff|
  {
    var at := m.layout.stateOff[b] + id;
    && DerivKey(m.blocks, b, id).Some? && DerivKey(m.blocks, b, id).value in memo
    && at < |derivs| && derivs[at] == memo[DerivKey(m.blocks, b, id).value]
  }

  /** Every op a derivative write names was translated, also where a later write overrides it. */
  ghost predicate DerivOpsTranslated(m: Model, memo: map<Key, nat>) {
    forall b: nat, n: nat {:trigger m.blocks[b].dyn.writes[n]}
      | b < |m.blocks| && n < |m.blocks[b].dyn.writes| && m.blocks[b].dyn.writes[n].StateDeriv? ::
      Key(b, Dyn, m.blocks[b].dyn.writes[n].src) in memo
  }

  /** One derivative node per state, the one memoised for its last write. */
  ghost predicate DerivsHold(m: Model, memo: map<Key, nat>, derivs: seq<nat>)
    requires |m.blocks| == |m.layout.stateOff|
  {
    && |derivs| == m.layout.memBase && DerivOpsTranslated(m, memo)
    && forall b: nat, id: nat {:trigger DerivHolds(m, memo, derivs, b, id)}
         | b < |m.blocks| && id < |m.blocks[b].state| :: DerivHolds(m, memo, derivs, b, id)
  }

  // ---------------------------------------------------------------------------------------
  // Events
  // ---------------------------------------------------------------------------------------

  datatype WriteTarget = MemCell(i: nat) | StateCell(i: nat)

  datatype CompiledEvent = CompiledEvent(guard: Option<nat>, outputs: seq<nat>, targets: seq<WriteTarget>)

  /** The op that carries an event's guard value: the last of the guard region. */
  function GuardKey(blocks: seq<Block>, b: nat, k: nat): Option<Key>
    requires b < |blocks| && k < |blocks[b].events|
  {
    var ops := RegionOps(blocks[b], Guard(k));
    if ops == [] then None else Some(Key(b, Guard(k), |ops| - 1))
  }

  ghost predicate WriteHolds(m: Model, memo: map<Key, nat>, b: nat, k: nat, w: Write, node: nat, target: WriteTarget)
    requires b < |m.blocks| == |m.layout.stateOff| == |m.layout.memOff|
  {
    && Key(b, Effect(k), w.src) in memo && node == memo[Key(b, Effect(k), w.src)]
    && match w
       case MemoryWrite(slot, offset, _) =>
         slot < |m.layout.memOff[b]| && target == MemCell(m.layout.memOff[b][slot] + offset)
       case StateWrite(id, _) => target == StateCell(m.layout.stateOff[b] + id)
       case _ => false
  }

  ghost predicate EventHolds(m: Model, memo: map<Key, nat>, b: nat, k: nat, ev: CompiledEvent)
    requires b < |m.blocks| == |m.layout.stateOff| == |m.layout.memOff| && k < |m.blocks[b].events|
  {
    var writes := m.blocks[b].events[k].effect.writes;
    && (match GuardKey(m.blocks, b, k)
        case None => ev.guard == None
        case Some(key) => key in memo && ev.guard == Some(memo[key]))
    && |ev.outputs| == |ev.targets| == |writes|
    && forall j {:trigger writes[j]} | 0 <= j < |writes| ::
         WriteHolds(m, memo, b, k, writes[j], ev.outputs[j], ev.targets[j])
  }

  /** The events, block by block. */
  function EventParts(blocks: seq<Block>): (parts: seq<seq<(nat, nat)>>)
    ensures |parts| == |blocks| && forall b | 0 <= b < |parts| :: parts[b] == EventIds(b, |blocks[b].events|)
  {
    seq(|blocks|, b requires 0 <= b < |blocks| => EventIds(b, |blocks[b].events|))
  }

  function EventIds(b: nat, n: nat): (ids: seq<(nat, nat)>)
    ensures |ids| == n && forall k | 0 <= k < n :: ids[k] == (b, k)
  {
    seq(n, k requires 0 <= k < n => (b, k))
  }

  ghost predicate IdOk(blocks: seq<Block>, id: (nat, nat)) {
    id.0 < |blocks| && id.1 < |blocks[id.0].events|
  }

  ghost predicate EventsHold(m: Model, memo: map<Key, nat>, ids: seq<(nat, nat)>, events: seq<CompiledEvent>)
    requires |m.blocks| == |m.layout.stateOff| == |m.layout.memOff|
  {
    && |events| == |ids|
    && forall q {:trigger events[q]} | 0 <= q < |events| ::
         IdOk(m.blocks, ids[q]) && EventHolds(m, memo, ids[q].0, ids[q].1, events[q])
  }

  // ---------------------------------------------------------------------------------------
  // Taps and interface outputs
  // ---------------------------------------------------------------------------------------

  /** `node` stands for what an input element with this feed reads. */
  ghost predicate NodeReads(m: Model, memo: map<Key, nat>, trees: seq<Expr>, feed: Feed, node: nat) {
    && node < |trees|
    && match feed
       case Unconnected => trees[node] == XConst(0.0)
       case External(e) => m.layout.uBase.Some? && trees[node] == XInput(m.layout.uBase.value + e)
       case Driven(d) => d in memo && memo[d] < |trees| && trees[node] == trees[memo[d]]
       case NoSuchOutput => false
  }

  function InputWidth(sizes: seq<nat>): nat {
    if sizes == [] then 0 else InputWidth(sizes[..|sizes| - 1]) + sizes[|sizes| - 1]
  }

  /** Element `elem` of the sink `b` is recorded. */
  ghost predicate Tapped(m: Model, memo: map<Key, nat>, trees: seq<Expr>, taps: seq<nat>, b: nat, elem: nat) {
    exists q {:trigger taps[q]} :: 0 <= q < |taps| && NodeReads(m, memo, trees, FeedOf(m, b, 0, elem), taps[q])
  }

  ghost predicate SinkElem(blocks: seq<Block>, b: nat, elem: nat) {
    b < |blocks| && blocks[b].role == Sink && elem < InputWidth(blocks[b].inSizes)
  }

  /** `node` stands for some sink element. */
  ghost predicate FromSink(m: Model, memo: map<Key, nat>, trees: seq<Expr>, node: nat) {
    exists b: nat, elem: nat {:trigger SinkElem(m.blocks, b, elem)} ::
      SinkElem(m.blocks, b, elem) && NodeReads(m, memo, trees, FeedOf(m, b, 0, elem), node)
  }

  /** Exactly the sink elements are recorded, and no node twice. */
  ghost predicate TapsHold(m: Model, memo: map<Key, nat>, trees: seq<Expr>, taps: seq<nat>) {
    && (forall b: nat, elem: nat {:trigger SinkElem(m.blocks, b, elem)} | SinkElem(m.blocks, b, elem) ::
          Tapped(m, memo, trees, taps, b, elem))
    && (forall q {:trigger taps[q]} | 0 <= q < |taps| :: FromSink(m, memo, trees, taps[q]))
    && (forall i, j | 0 <= i < j < |taps| :: taps[i] != taps[j])
  }

  /** What feeds one interface output element: a leaf's output, an external input, or nothing. */
  datatype OutputSrc = LeafOutput(block: nat, elem: nat) | PassThrough(elem: nat) | Open

  function OutputFeed(blocks: seq<Block>, src: OutputSrc): Feed {
    match src
    case Open => Unconnected
    case PassThrough(e) => External(e)
    case LeafOutput(b, e) =>
      if b >= |blocks| then NoSuchOutput else ProducerFeed(blocks, b, 0, e)
  }

  datatype Spliced = Spliced(
    nodes: seq<Node>,
    x0: seq<real>,
    m0: seq<real>,
    params: seq<real>,
    derivs: seq<nat>,
    events: seq<CompiledEvent>,
    taps: seq<nat>,
    outputs: seq<nat>)

  datatype IfaceCfg = IfaceCfg(nIn: nat, outputs: seq<OutputSrc>)

  function Width(iface: Option<IfaceCfg>): Option<nat> {
    match iface
    case Some(c) => Some(c.nIn)
    case None => None
  }

  function OutputSources(iface: Option<IfaceCfg>): seq<OutputSrc> {
    match iface
    case Some(c) => c.outputs
    case None => []
  }

  /** The evidence behind a result: which ops were translated, in which order, to which trees. */
  datatype Evidence = Evidence(m: Model, order: seq<Key>, memo: map<Key, nat>, meaning: map<Key, Expr>,
    trees: seq<Expr>)

  ghost predicate Sound(e: Evidence, nodes: seq<Node>) {
    && WellFormedModel(e.m) && Unfolds(nodes, e.trees) && Translated(e.m, e.order, e.meaning)
    && e.memo.Keys == e.meaning.Keys
    && forall k | k in e.memo :: e.memo[k] < |e.trees| && e.trees[e.memo[k]] == e.meaning[k]
  }

  ghost predicate Faithful(e: Evidence, nIn: Option<nat>, sources: seq<OutputSrc>, out: Spliced) {
    && Sound(e, out.nodes)
    && LaidOut(e.m.blocks, nIn, e.m.layout)
    && out.x0 == Joined(StateParts(e.m.blocks)) && out.m0 == Joined(MemParts(e.m.blocks))
    && out.params == Joined(ParamParts(e.m.blocks))
    && DerivsHold(e.m, e.memo, out.derivs)
    && EventsHold(e.m, e.memo, Joined(EventParts(e.m.blocks)), out.events)
    && TapsHold(e.m, e.memo, e.trees, out.taps)
    && |out.outputs| == |sources|
    && forall q {:trigger out.outputs[q]} | 0 <= q < |sources| ::
         NodeReads(e.m, e.memo, e.trees, OutputFeed(e.m.blocks, sources[q]), out.outputs[q])
  }

  // ---------------------------------------------------------------------------------------
  // Everything stays true as the memo and the graph grow
  // ---------------------------------------------------------------------------------------

  ghost predicate Grown(memo: map<Key, nat>, trees: seq<Expr>, memo1: map<Key, nat>, trees1: seq<Expr>) {
    && trees <= trees1
    && (forall k | k in memo :: k in memo1 && memo1[k] == memo[k] && memo[k] < |trees|)
  }

  lemma {:induction false} DerivsStay(m: Model, memo: map<Key, nat>, more: map<Key, nat>, derivs: seq<nat>)
    requires |m.blocks| == |m.layout.stateOff| && DerivsHold(m, memo, derivs)
    requires forall k | k in memo :: k in more && more[k] == memo[k]
    ensures DerivsHold(m, more, derivs)
  {
    forall b: nat, id: nat | b < |m.blocks| && id < |m.blocks[b].state| ensures DerivHolds(m, more, derivs, b, id) {
      assert DerivHolds(m, memo, derivs, b, id);
    }
  }

  lemma {:induction false} EventStays(
      m: Model, memo: map<Key, nat>, more: map<Key, nat>, b: nat, k: nat, ev: CompiledEvent)
    requires b < |m.blocks| == |m.layout.stateOff| == |m.layout.memOff| && k < |m.blocks[b].events|
    requires EventHolds(m, memo, b, k, ev)
    requires forall x | x in memo :: x in more && more[x] == memo[x]
    ensures EventHolds(m, more, b, k, ev)
  {
    var writes := m.blocks[b].events[k].effect.writes;
    forall j | 0 <= j < |writes| ensures WriteHolds(m, more, b, k, writes[j], ev.outputs[j], ev.targets[j]) {
      assert WriteHolds(m, memo, b, k, writes[j], ev.outputs[j], ev.targets[j]);
    }
  }

  lemma {:induction false} EventsStay(
      m: Model, memo: map<Key, nat>, more: map<Key, nat>, ids: seq<(nat, nat)>, events: seq<CompiledEvent>)
    requires |m.blocks| == |m.layout.stateOff| == |m.layout.memOff| && EventsHold(m, memo, ids, events)
    requires forall x | x in memo :: x in more && more[x] == memo[x]
    ensures EventsHold(m, more, ids, events)
  {
    forall q | 0 <= q < |events|
      ensures IdOk(m.blocks, ids[q]) && EventHolds(m, more, ids[q].0, ids[q].1, events[q])
    {
      EventStays(m, memo, more, ids[q].0, ids[q].1, events[q]);
    }
  }

  lemma {:induction false} ReadStays(
      m: Model, memo: map<Key, nat>, trees: seq<Expr>, more: map<Key, nat>, trees1: seq<Expr>, feed: Feed, node: nat)
    requires Grown(memo, trees, more, trees1) && NodeReads(m, memo, trees, feed, node)
    ensures NodeReads(m, more, trees1, feed, node)
  {
  }
}

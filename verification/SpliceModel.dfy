/** What the splicer works on: a flat list of blocks, the resolved input wiring and the global
    vector layout (`src/compile/splice.rs`), and the block equations they stand for. */
module SpliceModel {
  import opened Wrappers
  import opened Ir
  import opened Lut
  import opened OpSemantics
  import opened Wiring
  import opened SsaGraph

  datatype CompileError = AlgebraicLoop | OpaqueBlock | Unsupported | NoState

  /** Which op region of a block a translation reads from. */
  datatype RegionId = Alg | Dyn | Guard(k: nat) | Effect(k: nat)

  /** One op of one region of one block. */
  datatype Key = Key(block: nat, region: RegionId, local: nat)

  /** Start indices in the flat vectors, block by block. */
  datatype Layout = Layout(
    stateOff: seq<nat>,
    paramOff: seq<nat>,
    memOff: seq<seq<nat>>,
    memBase: nat,
    tFlat: nat,
    uBase: Option<nat>,
    nExternal: nat)

  datatype Model = Model(blocks: seq<Block>, wiring: InputIndex, layout: Layout)

  function RegionOps(b: Block, r: RegionId): seq<Op> {
    match r
    case Alg => b.alg.ops
    case Dyn => b.dyn.ops
    case Guard(k) => if k < |b.events| && !b.events[k].kind.Schedule? then b.events[k].kind.guard.ops else []
    case Effect(k) => if k < |b.events| then b.events[k].effect.ops else []
  }

  predicate ValidKey(m: Model, k: Key) {
    k.block < |m.blocks| && k.local < |RegionOps(m.blocks[k.block], k.region)|
  }

  function OpAt(m: Model, k: Key): Op
    requires ValidKey(m, k)
  {
    RegionOps(m.blocks[k.block], k.region)[k.local]
  }

  /** The node an `alg` region writes to output `(port, elem)`: the first such write. */
  function FindOutput(writes: seq<Write>, port: nat, elem: nat): (r: Option<nat>)
    ensures r.Some? ==> Output(port, elem, r.value) in writes
  {
    if writes == [] then None
    else if writes[0].Output? && writes[0].port == port && writes[0].elem == elem then Some(writes[0].src)
    else FindOutput(writes[1..], port, elem)
  }

  /** What an input element reads. */
  datatype Feed = Unconnected | External(elem: nat) | Driven(key: Key) | NoSuchOutput

  /** An output element of block `b`. */
  function ProducerFeed(blocks: seq<Block>, b: nat, port: nat, elem: nat): Feed
    requires b < |blocks|
  {
    match FindOutput(blocks[b].alg.writes, port, elem)
    case Some(local) => Driven(Key(b, Alg, local))
    case None => NoSuchOutput
  }

  function FeedOf(m: Model, block: nat, port: nat, elem: nat): Feed {
    if (Child(block), port, elem) !in m.wiring then Unconnected
    else
      var src := m.wiring[(Child(block), port, elem)];
      match src.block
      case Iface => External(src.elem)
      case Child(i) =>
        if i >= |m.blocks| then NoSuchOutput else ProducerFeed(m.blocks, i, src.port, src.elem)
  }

  function SameRegion(k: Key, ids: seq<nat>): (r: seq<Key>)
    ensures |r| == |ids| && forall i | 0 <= i < |ids| :: r[i] == Key(k.block, k.region, ids[i])
  {
    seq(|ids|, i requires 0 <= i < |ids| => Key(k.block, k.region, ids[i]))
  }

  /** The ops whose values the op at `k` needs, across block boundaries. */
  function Deps(m: Model, k: Key): seq<Key>
    requires ValidKey(m, k)
  {
    var op := OpAt(m, k);
    if op.Input? then
      match FeedOf(m, k.block, op.port, op.elem)
      case Driven(key) => [key]
      case _ => []
    else SameRegion(k, LocalOperands(op))
  }

  /** Index ranges the source relies on; out-of-range indices make it panic. */
  ghost predicate OpInRange(m: Model, k: Key)
    requires ValidKey(m, k)
    requires |m.layout.stateOff| == |m.layout.paramOff| == |m.layout.memOff| == |m.blocks|
  {
    var b := m.blocks[k.block];
    var op := OpAt(m, k);
    && (forall i | 0 <= i < |LocalOperands(op)| :: LocalOperands(op)[i] < |RegionOps(b, k.region)|)
    && (op.State? ==> op.id < |b.state|)
    && (op.Param? ==> op.id < |b.params|)
    && (op.Memory? ==> op.slot < |b.memory| == |m.layout.memOff[k.block]| && op.offset < b.memory[op.slot].size)
    && (op.Lut1d? ==> Table(op.points, op.values))
  }

  ghost predicate BlockInRange(m: Model, b: nat)
    requires b < |m.blocks| == |m.layout.stateOff| == |m.layout.paramOff| == |m.layout.memOff|
  {
    && (forall r, l | ValidKey(m, Key(b, r, l)) :: OpInRange(m, Key(b, r, l)))
    && (forall w | w in m.blocks[b].alg.writes && w.Output? :: w.src < |m.blocks[b].alg.ops|)
  }

  ghost predicate WellFormedModel(m: Model) {
    && |m.layout.stateOff| == |m.layout.paramOff| == |m.layout.memOff| == |m.blocks|
    && (forall b {:trigger BlockInRange(m, b)} | 0 <= b < |m.blocks| :: BlockInRange(m, b))
    && (forall key | key in m.wiring ::
          match m.wiring[key].block
          case Iface => m.layout.uBase.Some? && m.wiring[key].elem < m.layout.nExternal
          case Child(i) => i < |m.blocks|)
  }

  lemma {:induction false} KeyOk(m: Model, k: Key)
    requires WellFormedModel(m) && ValidKey(m, k)
    ensures OpInRange(m, k)
  {
    assert BlockInRange(m, k.block);
    assert ValidKey(m, Key(k.block, k.region, k.local));
  }

  lemma {:induction false} FeedIsValid(m: Model, block: nat, port: nat, elem: nat, d: Key)
    requires WellFormedModel(m) && FeedOf(m, block, port, elem) == Driven(d)
    ensures ValidKey(m, d)
  {
    var src := m.wiring[(Child(block), port, elem)];
    assert BlockInRange(m, d.block);
    assert Output(src.port, src.elem, d.local) in m.blocks[d.block].alg.writes;
  }

  lemma {:induction false} DepsAreValid(m: Model, k: Key, d: Key)
    requires WellFormedModel(m) && ValidKey(m, k) && d in Deps(m, k)
    ensures ValidKey(m, d)
  {
    KeyOk(m, k);
    var op := OpAt(m, k);
    if op.Input? {
      FeedIsValid(m, k.block, op.port, op.elem, d);
    } else {
      var i :| 0 <= i < |LocalOperands(op)| && d == SameRegion(k, LocalOperands(op))[i];
    }
  }

  // ---------------------------------------------------------------------------------------
  // The block equations
  // ---------------------------------------------------------------------------------------

  /** One evaluation point: per-block states, memories and parameters, time and external inputs. */
  datatype World = World(
    prims: Prims,
    state: (nat, nat) -> real,
    memory: (nat, nat, nat) -> real,
    param: (nat, nat) -> real,
    time: real,
    external: nat -> real)

  /** A value for every op of every region of every block. */
  type Valuation = Key -> real

  function ValuesAt(v: Valuation, ks: seq<Key>): (r: seq<real>)
    ensures |r| == |ks| && forall i | 0 <= i < |ks| :: r[i] == v(ks[i])
  {
    seq(|ks|, i requires 0 <= i < |ks| => v(ks[i]))
  }

  /** The value the op at `k` takes when its operands have the values `v`.  Connections are
      followed, and an unconnected input reads 0. */
  function OpValue(m: Model, w: World, v: Valuation, k: Key): real
    requires ValidKey(m, k)
    requires OpAt(m, k).Lut1d? ==> Table(OpAt(m, k).points, OpAt(m, k).values)
  {
    match OpAt(m, k)
    case Const(c) => c
    case Time => w.time
    case Input(port, elem) =>
      (match FeedOf(m, k.block, port, elem)
       case External(e) => w.external(e)
       case Driven(key) => v(key)
       case _ => 0.0)
    case Param(id) => w.param(k.block, id)
    case State(id) => w.state(k.block, id)
    case Memory(slot, offset) => w.memory(k.block, slot, offset)
    case op => Compute(w.prims, op, ValuesAt(v, SameRegion(k, LocalOperands(op))))
  }

  /** `v` satisfies the equation of every op in `ks`. */
  ghost predicate Solves(m: Model, w: World, v: Valuation, ks: set<Key>)
    requires WellFormedModel(m)
  {
    forall k | k in ks :: ValidKey(m, k) && OpInRange(m, k) && v(k) == OpValue(m, w, v, k)
  }

  // ---------------------------------------------------------------------------------------
  // The same equations over expression trees
  // ---------------------------------------------------------------------------------------

  function TreesAt(trees: map<Key, Expr>, ks: seq<Key>): (r: seq<Expr>)
    requires forall i | 0 <= i < |ks| :: ks[i] in trees
    ensures |r| == |ks| && forall i | 0 <= i < |ks| :: r[i] == trees[ks[i]]
  {
    seq(|ks|, i requires 0 <= i < |ks| => trees[ks[i]])
  }

  ghost function ComputeTree(op: Op, args: seq<Expr>): Expr
    requires |args| == |LocalOperands(op)|
    requires op.Lut1d? ==> Table(op.points, op.values)
  {
    match op
    case Binary(o, _, _) => XBinary(o, args[0], args[1])
    case Unary(o, _) => XUnary(o, args[0])
    case Cmp(o, _, _) => XCmp(o, args[0], args[1])
    case Select(_, _, _) => XSelect(args[0], args[1], args[2])
    case Fma(_, _, _) => XFma(args[0], args[1], args[2])
    case Reduce(o, _) => XReduce(o, args)
    case Dot(xs, _) => XDot(args[..|xs|], args[|xs|..])
    case Lut1d(_, points, values, clamp) => LutTree(args[0], points, values, clamp)
    case _ => XConst(0.0)
  }

  lemma {:induction false} ComputeTreeValue(op: Op, args: seq<Expr>, env: Env)
    requires |args| == |LocalOperands(op)|
    requires op.Lut1d? ==> Table(op.points, op.values) && ExactArithmetic(env.prims)
    ensures Eval(ComputeTree(op, args), env) == Compute(env.prims, op, EvalAll(args, env))
  {
    var vs := EvalAll(args, env);
    match op
    case Dot(xs, _) =>
      assert EvalAll(args[..|xs|], env) == vs[..|xs|] && EvalAll(args[|xs|..], env) == vs[|xs|..];
    case Lut1d(_, points, values, clamp) => LutTreeValue(args[0], points, values, clamp, env);
    case _ =>
  }

  /** The tree of a leaf op over the flat vectors. */
  ghost function LeafTree(m: Model, k: Key, trees: map<Key, Expr>): Expr
    requires WellFormedModel(m) && ValidKey(m, k) && OpInRange(m, k) && IsLeaf(OpAt(m, k))
    requires forall d | d in Deps(m, k) :: d in trees
  {
    match OpAt(m, k)
    case Const(c) => XConst(c)
    case Time => XInput(m.layout.tFlat)
    case Param(id) => XParam(m.layout.paramOff[k.block] + id)
    case State(id) => XInput(m.layout.stateOff[k.block] + id)
    case Memory(slot, offset) => XInput(m.layout.memBase + m.layout.memOff[k.block][slot] + offset)
    case Input(port, elem) =>
      match FeedOf(m, k.block, port, elem)
      case External(e) => XInput((if m.layout.uBase.Some? then m.layout.uBase.value else 0) + e)
      case Driven(key) => trees[key]
      case _ => XConst(0.0)
  }

  /** The tree of the op at `k` over the flat vectors, given the trees of what it depends on. */
  ghost function OpTree(m: Model, k: Key, trees: map<Key, Expr>): Expr
    requires WellFormedModel(m) && ValidKey(m, k)
    requires forall d | d in Deps(m, k) :: d in trees
  {
    KeyOk(m, k);
    var op := OpAt(m, k);
    if IsLeaf(op) then LeafTree(m, k, trees)
    else
      var ks := SameRegion(k, LocalOperands(op));
      assert forall i | 0 <= i < |ks| :: ks[i] in Deps(m, k);
      ComputeTree(op, TreesAt(trees, ks))
  }

  /** Growing the map does not change the tree. */
  lemma {:induction false} OpTreeIsStable(m: Model, k: Key, trees: map<Key, Expr>, more: map<Key, Expr>)
    requires WellFormedModel(m) && ValidKey(m, k)
    requires forall d | d in Deps(m, k) :: d in trees && d in more && more[d] == trees[d]
    ensures OpTree(m, k, trees) == OpTree(m, k, more)
  {
    var op := OpAt(m, k);
    KeyOk(m, k);
    if !op.Input? {
      var ks := SameRegion(k, LocalOperands(op));
      assert forall i | 0 <= i < |ks| :: ks[i] in Deps(m, k);
      assert TreesAt(trees, ks) == TreesAt(more, ks);
    }
  }

  ghost predicate PacksBlock(m: Model, w: World, env: Env, b: nat)
    requires b < |m.blocks| == |m.layout.stateOff| == |m.layout.paramOff| == |m.layout.memOff|
  {
    && (forall id: nat | id < |m.blocks[b].state| :: env.inp(m.layout.stateOff[b] + id) == w.state(b, id))
    && (forall id: nat | id < |m.blocks[b].params| :: env.par(m.layout.paramOff[b] + id) == w.param(b, id))
    && (forall slot: nat, offset: nat
          | slot < |m.blocks[b].memory| == |m.layout.memOff[b]| && offset < m.blocks[b].memory[slot].size ::
          env.inp(m.layout.memBase + m.layout.memOff[b][slot] + offset) == w.memory(b, slot, offset))
  }

  /** The flat vectors hold the world's values at the layout's offsets. */
  ghost predicate Packs(m: Model, w: World, env: Env)
    requires |m.layout.stateOff| == |m.layout.paramOff| == |m.layout.memOff| == |m.blocks|
  {
    && env.prims == w.prims
    && env.inp(m.layout.tFlat) == w.time
    && (m.layout.uBase.Some? ==>
          forall e: nat | e < m.layout.nExternal :: env.inp(m.layout.uBase.value + e) == w.external(e))
    && forall b: nat {:trigger PacksBlock(m, w, env, b)} | b < |m.blocks| :: PacksBlock(m, w, env, b)
  }

  /** Exact reals are needed only where a lookup table is expanded into arithmetic. */
  ghost predicate Interpretable(m: Model, w: World) {
    || ExactArithmetic(w.prims)
    || forall k | ValidKey(m, k) :: !OpAt(m, k).Lut1d?
  }

  /** Evaluating the tree of one op is applying its equation to the values of its operands. */
  lemma {:induction false} OpTreeValue(m: Model, w: World, env: Env, k: Key, trees: map<Key, Expr>, v: Valuation)
    requires WellFormedModel(m) && ValidKey(m, k) && Packs(m, w, env) && Interpretable(m, w)
    requires forall d | d in Deps(m, k) :: d in trees && v(d) == Eval(trees[d], env)
    ensures OpInRange(m, k) && Eval(OpTree(m, k, trees), env) == OpValue(m, w, v, k)
  {
    KeyOk(m, k);
    assert PacksBlock(m, w, env, k.block);
    var op := OpAt(m, k);
    var ks := SameRegion(k, LocalOperands(op));
    if !IsLeaf(op) {
      assert forall i | 0 <= i < |ks| :: ks[i] in Deps(m, k);
      var args := TreesAt(trees, ks);
      assert EvalAll(args, env) == ValuesAt(v, ks);
      ComputeTreeValue(op, args, env);
    }
  }

  /** A post-order of translated ops: every op comes after everything it depends on, its tree is
      the tree of its equation, and it is neither opaque nor wired to a missing output. */
  ghost predicate EntryTranslated(m: Model, order: seq<Key>, trees: map<Key, Expr>, i: nat)
    requires WellFormedModel(m) && i < |order|
  {
    var k := order[i];
    && ValidKey(m, k) && !OpAt(m, k).Call? && !ReadsMissingOutput(m, k)
    && (forall d | d in Deps(m, k) :: d in order[..i] && d in trees)
    && k in trees && trees[k] == OpTree(m, k, trees)
  }

  ghost predicate Translated(m: Model, order: seq<Key>, trees: map<Key, Expr>)
    requires WellFormedModel(m)
  {
    && (forall k :: k in trees <==> k in order)
    && (forall i {:trigger EntryTranslated(m, order, trees, i)} | 0 <= i < |order| ::
          EntryTranslated(m, order, trees, i))
  }

  lemma {:induction false} EntryIsStable(
      m: Model, order: seq<Key>, trees: map<Key, Expr>, longer: seq<Key>, more: map<Key, Expr>, i: nat)
    requires WellFormedModel(m) && i < |order| && EntryTranslated(m, order, trees, i)
    requires order <= longer && forall k | k in trees :: k in more && more[k] == trees[k]
    ensures EntryTranslated(m, longer, more, i)
  {
    assert longer[..i] == order[..i];
    OpTreeIsStable(m, order[i], trees, more);
  }

  lemma {:induction false} DomainSnoc(order: seq<Key>, trees: map<Key, Expr>, k: Key, tree: Expr)
    requires forall x :: x in trees <==> x in order
    ensures forall x :: x in trees[k := tree] <==> x in order + [k]
  {
    forall x ensures x in order + [k] <==> x in order || x == k {
      if x == k { assert (order + [k])[|order|] == x; }
    }
  }

  lemma {:induction false} EntrySnoc(m: Model, order: seq<Key>, trees: map<Key, Expr>, k: Key, tree: Expr)
    requires WellFormedModel(m) && (forall x :: x in trees <==> x in order)
    requires ValidKey(m, k) && !OpAt(m, k).Call? && !ReadsMissingOutput(m, k) && k !in trees
    requires (forall d | d in Deps(m, k) :: d in trees) && tree == OpTree(m, k, trees)
    ensures EntryTranslated(m, order + [k], trees[k := tree], |order|)
  {
    OpTreeIsStable(m, k, trees, trees[k := tree]);
    assert (order + [k])[..|order|] == order;
  }

  /** Finishing one more op. */
  lemma {:induction false} TranslatedSnoc(m: Model, order: seq<Key>, trees: map<Key, Expr>, k: Key, tree: Expr)
    requires WellFormedModel(m) && Translated(m, order, trees)
    requires ValidKey(m, k) && !OpAt(m, k).Call? && !ReadsMissingOutput(m, k) && k !in trees
    requires (forall d | d in Deps(m, k) :: d in trees) && tree == OpTree(m, k, trees)
    ensures Translated(m, order + [k], trees[k := tree])
  {
    var more := trees[k := tree];
    var longer := order + [k];
    DomainSnoc(order, trees, k, tree);
    forall i | 0 <= i < |longer| ensures EntryTranslated(m, longer, more, i) {
      if i < |order| {
        assert EntryTranslated(m, order, trees, i);
        EntryIsStable(m, order, trees, longer, more, i);
      } else {
        EntrySnoc(m, order, trees, k, tree);
      }
    }
  }

  /** The translated trees, evaluated, solve the equations of all translated ops. */
  lemma {:induction false} TranslatedSolves(
      m: Model, w: World, env: Env, order: seq<Key>, trees: map<Key, Expr>, v: Valuation)
    requires WellFormedModel(m) && Translated(m, order, trees)
    requires Packs(m, w, env) && Interpretable(m, w)
    requires forall k | k in trees :: v(k) == Eval(trees[k], env)
    ensures Solves(m, w, v, trees.Keys)
  {
    forall k | k in trees.Keys
      ensures ValidKey(m, k) && OpInRange(m, k) && v(k) == OpValue(m, w, v, k)
    {
      var i :| 0 <= i < |order| && order[i] == k;
      assert EntryTranslated(m, order, trees, i);
      OpTreeValue(m, w, env, k, trees, v);
    }
  }

  /** ... and they are the only solution: any valuation that solves those equations agrees. */
  lemma {:induction false} TranslatedIsUnique(
      m: Model, w: World, env: Env, order: seq<Key>, trees: map<Key, Expr>, v: Valuation, i: nat)
    requires WellFormedModel(m) && Translated(m, order, trees)
    requires Packs(m, w, env) && Interpretable(m, w)
    requires Solves(m, w, v, trees.Keys) && i < |order|
    ensures v(order[i]) == Eval(trees[order[i]], env)
  {
    var k := order[i];
    assert EntryTranslated(m, order, trees, i);
    forall d | d in Deps(m, k) ensures d in trees && v(d) == Eval(trees[d], env) {
      var j :| 0 <= j < i && order[j] == d;
      TranslatedIsUnique(m, w, env, order, trees, v, j);
    }
    OpTreeValue(m, w, env, k, trees, v);
  }

  // ---------------------------------------------------------------------------------------
  // Dependency paths
  // ---------------------------------------------------------------------------------------

  ghost predicate IsPath(m: Model, p: seq<Key>)
    decreases |p|
  {
    p == [] ||
    (var n := |p| - 1;
     && IsPath(m, p[..n]) && ValidKey(m, p[n])
     && (n > 0 ==> ValidKey(m, p[n - 1]) && p[n] in Deps(m, p[n - 1])))
  }

  lemma {:induction false} PathStep(m: Model, p: seq<Key>, i: nat)
    requires IsPath(m, p) && i < |p|
    ensures ValidKey(m, p[i]) && (i + 1 < |p| ==> p[i + 1] in Deps(m, p[i]))
    decreases |p|
  {
    var init := p[..|p| - 1];
    if i + 1 < |p| {
      PathStep(m, init, i);
      assert init[i] == p[i];
      if i + 2 < |p| { assert init[i + 1] == p[i + 1]; }
    }
  }

  lemma {:induction false} SuffixIsPath(m: Model, p: seq<Key>, i: nat)
    requires IsPath(m, p) && i <= |p|
    ensures IsPath(m, p[i..])
    decreases |p|
  {
    if i < |p| {
      SuffixIsPath(m, p[..|p| - 1], i);
      assert p[i..][..|p| - i - 1] == p[..|p| - 1][i..];
    }
  }

  /** The last op of `p` is one on which compilation fails with error `e`. */
  ghost predicate FailsAt(m: Model, p: seq<Key>, e: CompileError) {
    && 0 < |p|
    && var k := p[|p| - 1];
       && ValidKey(m, k)
       && match e
          case AlgebraicLoop => k in p[..|p| - 1]
          case OpaqueBlock => OpAt(m, k).Call?
          case Unsupported => ReadsMissingOutput(m, k)
          case NoState => false
  }

  predicate ReadsMissingOutput(m: Model, k: Key)
    requires ValidKey(m, k)
  {
    var op := OpAt(m, k);
    op.Input? && FeedOf(m, k.block, op.port, op.elem).NoSuchOutput?
  }

  /** Some dependency path that begins with `prefix` ends in an op it has already visited
      (`AlgebraicLoop`), an opaque op (`OpaqueBlock`), or an input wired to an output that its block
      never writes (`Unsupported`). */
  ghost predicate Reaches(m: Model, prefix: seq<Key>, e: CompileError) {
    exists p: seq<Key> :: IsPath(m, p) && prefix <= p && FailsAt(m, p, e)
  }

  lemma {:induction false} PrefixReaches(m: Model, longer: seq<Key>, prefix: seq<Key>, e: CompileError)
    requires prefix <= longer && Reaches(m, longer, e)
    ensures Reaches(m, prefix, e)
  {
    var p: seq<Key> :| IsPath(m, p) && longer <= p && FailsAt(m, p, e);
    assert prefix <= p;
  }

  /** A translated op's dependencies were translated before it. */
  lemma {:induction false} DepsAreEarlier(m: Model, order: seq<Key>, trees: map<Key, Expr>, i: nat, d: Key)
    returns (j: nat)
    requires WellFormedModel(m) && Translated(m, order, trees) && i < |order| && ValidKey(m, order[i])
    requires d in Deps(m, order[i])
    ensures j < i && order[j] == d
  {
    assert EntryTranslated(m, order, trees, i);
    j :| 0 <= j < i && order[j] == d;
  }

  lemma {:induction false} NextOnPath(m: Model, p: seq<Key>, i: nat, before: Key, next: Key)
    requires IsPath(m, p) && i + 1 < |p| && p[i] == before && p[i + 1] == next
    ensures ValidKey(m, before) && next in Deps(m, before)
  {
    PathStep(m, p, i);
  }

  /** A path from a translated op visits ops that were translated earlier. */
  lemma {:induction false} PathDescends(
      m: Model, order: seq<Key>, trees: map<Key, Expr>, p: seq<Key>, n: nat, i: nat) returns (j: nat)
    requires WellFormedModel(m) && Translated(m, order, trees) && IsPath(m, p)
    requires n < |order| && i < |p| && p[0] == order[n]
    ensures j < |order| && order[j] == p[i] && (if i == 0 then j == n else j < n)
    decreases i
  {
    if i == 0 {
      j := n;
    } else {
      var h := PathDescends(m, order, trees, p, n, i - 1);
      var before, next := p[i - 1], p[i];
      NextOnPath(m, p, i - 1, before, next);
      j := DepsAreEarlier(m, order, trees, h, next);
    }
  }

  /** A translated op is on no dependency cycle. */
  lemma {:induction false} NoCycleThrough(m: Model, order: seq<Key>, trees: map<Key, Expr>, q: seq<Key>)
    requires WellFormedModel(m) && Translated(m, order, trees) && IsPath(m, q)
    requires 1 < |q| && q[0] in order
    ensures q[|q| - 1] != q[0]
  {
    if q[|q| - 1] == q[0] {
      var n := FirstIndex(order, q[0]);
      var j := PathDescends(m, order, trees, q, n, |q| - 1);
    }
  }

  /** Nothing on which compilation fails is reachable from a translated op: no dependency cycle, no
      opaque op, no missing output. */
  lemma {:induction false} TranslatedConeIsSound(
      m: Model, order: seq<Key>, trees: map<Key, Expr>, k: Key, e: CompileError)
    requires WellFormedModel(m) && Translated(m, order, trees) && k in order
    ensures !Reaches(m, [k], e)
  {
    forall p: seq<Key> | IsPath(m, p) && [k] <= p ensures !FailsAt(m, p, e) {
      assert p[0] == [k][0];
      var n :| 0 <= n < |order| && order[n] == k;
      PathEndIsSound(m, order, trees, p, n, e);
    }
  }

  lemma {:induction false} PathEndIsSound(
      m: Model, order: seq<Key>, trees: map<Key, Expr>, p: seq<Key>, n: nat, e: CompileError)
    requires WellFormedModel(m) && Translated(m, order, trees)
    requires IsPath(m, p) && p != [] && n < |order| && order[n] == p[0]
    ensures !FailsAt(m, p, e)
  {
    var last: nat := |p| - 1;
    var j := PathDescends(m, order, trees, p, n, last);
    EntryIsSound(m, order, trees, j);
    NeverRevisits(m, order, trees, p, n);
  }

  lemma {:induction false} EntryIsSound(m: Model, order: seq<Key>, trees: map<Key, Expr>, j: nat)
    requires WellFormedModel(m) && Translated(m, order, trees) && j < |order|
    ensures ValidKey(m, order[j]) && !OpAt(m, order[j]).Call? && !ReadsMissingOutput(m, order[j])
  {
    assert EntryTranslated(m, order, trees, j);
  }

  lemma {:induction false} NeverRevisits(m: Model, order: seq<Key>, trees: map<Key, Expr>, p: seq<Key>, n: nat)
    requires WellFormedModel(m) && Translated(m, order, trees)
    requires IsPath(m, p) && p != [] && n < |order| && order[n] == p[0]
    ensures p[|p| - 1] !in p[..|p| - 1]
  {
    forall i: nat | i < |p| - 1 ensures p[i] != p[|p| - 1] {
      var h := PathDescends(m, order, trees, p, n, i);
      SuffixIsPath(m, p, i);
      NoCycleThrough(m, order, trees, p[i..]);
    }
  }

  ghost function FirstIndex(order: seq<Key>, k: Key): (n: nat)
    requires k in order
    ensures n < |order| && order[n] == k && k !in order[..n]
  {
    if order[0] == k then 0 else
    var n := FirstIndex(order[1..], k);
    assert order[..n + 1] == [order[0]] + order[1..][..n];
    n + 1
  }
}

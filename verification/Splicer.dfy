/** The memoised depth-first translation of block regions into one shared graph
    (`Splicer` in `src/compile/splice.rs`). */
module Splicer {
  import opened Wrappers
  import opened Ir
  import opened Lut
  import opened SsaGraph
  import opened OpSemantics
  import opened SpliceModel
  import opened SpliceSpec

  /** The finite set of all ops. */
  ghost function Universe(m: Model): set<Key> {
    set b, r, l | 0 <= b < |m.blocks| && r in RegionIds(m.blocks[b]) && 0 <= l < |RegionOps(m.blocks[b], r)|
      :: Key(b, r, l)
  }

  ghost function RegionIds(b: Block): set<RegionId> {
    {Alg, Dyn} + (set k | 0 <= k < |b.events| :: Guard(k)) + (set k | 0 <= k < |b.events| :: Effect(k))
  }

  ghost predicate AllValid(m: Model, ks: set<Key>) {
    forall k | k in ks :: ValidKey(m, k)
  }

  /** No set of ops is larger than `n`: the bound on the recursion depth. */
  ghost predicate Bounds(m: Model, n: nat) {
    forall ks: set<Key> {:trigger AllValid(m, ks)} | AllValid(m, ks) :: |ks| <= n
  }

  lemma {:induction false} UniverseBounds(m: Model)
    ensures Bounds(m, |Universe(m)|)
  {
    forall ks: set<Key> | AllValid(m, ks) ensures |ks| <= |Universe(m)| {
      forall k | k in ks ensures k in Universe(m) {
        assert k.region in RegionIds(m.blocks[k.block]);
      }
      SubsetIsSmaller(ks, Universe(m));
    }
  }

  lemma {:induction false} SubsetIsSmaller(xs: set<Key>, ys: set<Key>)
    requires xs <= ys
    ensures |xs| <= |ys|
    decreases xs
  {
    if xs != {} {
      var x :| x in xs;
      SubsetIsSmaller(xs - {x}, ys - {x});
    }
  }

  /** The node of a compute op that is a node of its own. */
  function ComputeNode(op: Op, args: seq<nat>): Node
    requires !IsLeaf(op) && !op.Call? && !op.Lut1d? && |args| == |LocalOperands(op)|
  {
    match op
    case Binary(o, _, _) => NBinary(o, args[0], args[1])
    case Unary(o, _) => NUnary(o, args[0])
    case Cmp(o, _, _) => NCmp(o, args[0], args[1])
    case Select(_, _, _) => NSelect(args[0], args[1], args[2])
    case Fma(_, _, _) => NFma(args[0], args[1], args[2])
    case Reduce(o, _) => NReduce(o, args)
    case Dot(xs, _) => NDot(args[..|xs|], args[|xs|..])
  }

  lemma {:induction false} ComputeNodeTree(op: Op, args: seq<nat>, trees: seq<Expr>)
    requires !IsLeaf(op) && !op.Call? && !op.Lut1d? && |args| == |LocalOperands(op)|
    requires AllBelow(args, |trees|)
    ensures OperandsBelow(ComputeNode(op, args), |trees|)
    ensures NodeTree(ComputeNode(op, args), trees) == ComputeTree(op, Pick(trees, args))
  {
    if op.Dot? {
      var n := |op.xs|;
      assert Pick(trees, args[..n]) == Pick(trees, args)[..n];
      assert Pick(trees, args[n..]) == Pick(trees, args)[n..];
    }
  }

  /** Appends the node of a compute op over already translated operands. */
  method InsertCompute(g: Graph, op: Op, args: seq<nat>) returns (node: nat)
    requires g.Valid() && AllBelow(args, |g.trees|)
    requires !IsLeaf(op) && !op.Call? && |args| == |LocalOperands(op)|
    requires op.Lut1d? ==> Table(op.points, op.values)
    modifies g
    ensures g.Valid() && old(g.trees) <= g.trees
    ensures node < |g.trees| && g.trees[node] == ComputeTree(op, Pick(old(g.trees), args))
  {
    if op.Lut1d? {
      node := g.InsertLut(args[0], op.points, op.values, op.clamp);
    } else {
      ComputeNodeTree(op, args, g.trees);
      node := g.Insert(ComputeNode(op, args));
    }
  }

  /** The node of a leaf op other than an input. */
  function LeafNode(m: Model, k: Key): Node
    requires ValidKey(m, k) && IsLeaf(OpAt(m, k)) && !OpAt(m, k).Input?
    requires k.block < |m.layout.stateOff| == |m.layout.paramOff| == |m.layout.memOff|
    requires OpAt(m, k).Memory? ==> OpAt(m, k).slot < |m.layout.memOff[k.block]|
  {
    match OpAt(m, k)
    case Const(v) => NConst(v)
    case Time => NInput(m.layout.tFlat)
    case State(id) => NInput(m.layout.stateOff[k.block] + id)
    case Param(id) => NParam(m.layout.paramOff[k.block] + id)
    case Memory(slot, offset) => NInput(m.layout.memBase + m.layout.memOff[k.block][slot] + offset)
  }

  lemma {:induction false} LeafNodeTree(m: Model, k: Key, meaning: map<Key, Expr>, trees: seq<Expr>)
    requires WellFormedModel(m) && ValidKey(m, k) && IsLeaf(OpAt(m, k)) && !OpAt(m, k).Input?
    requires OpInRange(m, k)
    ensures OperandsBelow(LeafNode(m, k), |trees|) && Deps(m, k) == []
    ensures NodeTree(LeafNode(m, k), trees) == OpTree(m, k, meaning)
  {
  }

  /** `tree` is what an input element with this feed reads. */
  ghost predicate FeedsTree(m: Model, feed: Feed, meaning: map<Key, Expr>, tree: Expr) {
    match feed
    case Unconnected => tree == XConst(0.0)
    case External(e) => m.layout.uBase.Some? && tree == XInput(m.layout.uBase.value + e)
    case Driven(d) => d in meaning && tree == meaning[d]
    case NoSuchOutput => false
  }

  /** Why resolving an input element with this feed fails. */
  ghost predicate FeedFails(m: Model, feed: Feed, stack: seq<Key>, e: CompileError) {
    match feed
    case Driven(d) => Reaches(m, stack + [d], e)
    case NoSuchOutput => e == Unsupported
    case _ => false
  }

  lemma {:induction false} InputFails(m: Model, stack: seq<Key>, e: CompileError)
    requires IsPath(m, stack) && stack != []
    requires ValidKey(m, stack[|stack| - 1]) && OpAt(m, stack[|stack| - 1]).Input?
    requires var k := stack[|stack| - 1]; var op := OpAt(m, k);
             FeedFails(m, FeedOf(m, k.block, op.port, op.elem), stack, e)
    ensures Reaches(m, stack, e)
  {
    var k := stack[|stack| - 1];
    var op := OpAt(m, k);
    match FeedOf(m, k.block, op.port, op.elem)
    case Driven(d) => PrefixReaches(m, stack + [d], stack, e);
    case _ => MissingFound(m, stack);
  }

  lemma {:induction false} NoOperands(node: Node, trees: seq<Expr>)
    requires node.NConst? || node.NInput?
    ensures OperandsBelow(node, |trees|) && NodeTree(node, trees) == NodeTree(node, [])
  {
  }

  lemma {:induction false} InputTree(m: Model, k: Key, meaning: map<Key, Expr>, tree: Expr)
    requires WellFormedModel(m) && ValidKey(m, k) && OpAt(m, k).Input?
    requires FeedsTree(m, FeedOf(m, k.block, OpAt(m, k).port, OpAt(m, k).elem), meaning, tree)
    ensures !ReadsMissingOutput(m, k) && forall d | d in Deps(m, k) :: d in meaning
    ensures tree == OpTree(m, k, meaning)
  {
    KeyOk(m, k);
  }

  lemma {:induction false} GrownTransitive(
      memo: map<Key, nat>, trees: seq<Expr>, memo1: map<Key, nat>, trees1: seq<Expr>,
      memo2: map<Key, nat>, trees2: seq<Expr>)
    requires Grown(memo, trees, memo1, trees1) && Grown(memo1, trees1, memo2, trees2)
    ensures Grown(memo, trees, memo2, trees2)
  {
  }

  lemma {:induction false} GrownReflexive(memo: map<Key, nat>, meaning: map<Key, Expr>, trees: seq<Expr>)
    requires Agrees(memo, meaning, trees)
    ensures Grown(memo, trees, memo, trees)
  {
  }

  lemma {:induction false} GrownSnoc(
      memo: map<Key, nat>, trees: seq<Expr>, memo1: map<Key, nat>, trees1: seq<Expr>, k: Key, node: nat)
    requires Grown(memo, trees, memo1, trees1) && k !in memo
    ensures Grown(memo, trees, memo1[k := node], trees1)
  {
  }

  lemma {:induction false} PrefixTransitive(xs: seq<Expr>, ys: seq<Expr>, zs: seq<Expr>)
    requires xs <= ys <= zs
    ensures xs <= zs
  {
  }

  /** Every memoised node unfolds to the recorded tree. */
  ghost predicate Agrees(memo: map<Key, nat>, meaning: map<Key, Expr>, trees: seq<Expr>) {
    && memo.Keys == meaning.Keys
    && forall k | k in memo :: memo[k] < |trees| && trees[memo[k]] == meaning[k]
  }

  ghost predicate OnStack(m: Model, stack: seq<Key>, inProgress: set<Key>, memo: map<Key, nat>) {
    && IsPath(m, stack)
    && (forall k :: k in inProgress <==> k in stack)
    && |inProgress| == |stack|
    && (forall k | k in memo :: k !in inProgress)
  }

  ghost predicate AllDeps(m: Model, top: Key, ks: seq<Key>)
    requires ValidKey(m, top)
  {
    forall i | 0 <= i < |ks| :: ks[i] in Deps(m, top)
  }

  /** `nodes` are the memoised nodes of `ks`. */
  ghost predicate Holds(memo: map<Key, nat>, ks: seq<Key>, nodes: seq<nat>) {
    |ks| == |nodes| && forall i | 0 <= i < |ks| :: ks[i] in memo && memo[ks[i]] == nodes[i]
  }

  lemma {:induction false} HoldsSnoc(
      memo: map<Key, nat>, more: map<Key, nat>, ks: seq<Key>, i: nat, nodes: seq<nat>, node: nat)
    requires i < |ks| && Holds(memo, ks[..i], nodes)
    requires forall k | k in memo :: k in more && more[k] == memo[k]
    requires ks[i] in more && more[ks[i]] == node
    ensures Holds(more, ks[..i + 1], nodes + [node])
  {
    forall j | 0 <= j < i + 1 ensures ks[..i + 1][j] in more && more[ks[..i + 1][j]] == (nodes + [node])[j] {
      if j < i { assert ks[..i][j] in memo; }
    }
  }

  lemma {:induction false} AgreesSnoc(
      memo: map<Key, nat>, meaning: map<Key, Expr>, trees: seq<Expr>, k: Key, node: nat)
    requires Agrees(memo, meaning, trees) && node < |trees|
    ensures Agrees(memo[k := node], meaning[k := trees[node]], trees)
  {
  }

  lemma {:induction false} AgreesGrow(memo: map<Key, nat>, meaning: map<Key, Expr>, trees: seq<Expr>, more: seq<Expr>)
    requires Agrees(memo, meaning, trees) && trees <= more
    ensures Agrees(memo, meaning, more)
  {
  }

  /** The top of the stack is finished and memoised. */
  lemma {:induction false} PopStack(
      m: Model, stack: seq<Key>, inProgress: set<Key>, memo: map<Key, nat>, k: Key, node: nat)
    requires OnStack(m, stack, inProgress, memo) && stack != [] && stack[|stack| - 1] == k
    ensures OnStack(m, stack[..|stack| - 1], inProgress - {k}, memo[k := node])
  {
    var rest := stack[..|stack| - 1];
    assert stack == rest + [k];
    assert k in inProgress;
    if k in rest {
      assert inProgress == (set x | x in rest);
      SetOfSeqIsSmaller(rest);
    }
  }

  lemma {:induction false} SetOfSeqIsSmaller(s: seq<Key>)
    ensures |set x | x in s| <= |s|
  {
    if s != [] {
      var rest := s[..|s| - 1];
      SetOfSeqIsSmaller(rest);
      assert s == rest + [s[|s| - 1]];
      assert (set x | x in s) == (set x | x in rest) + {s[|s| - 1]};
    }
  }

  lemma {:induction false} PushStack(m: Model, stack: seq<Key>, inProgress: set<Key>, memo: map<Key, nat>, k: Key)
    requires OnStack(m, stack, inProgress, memo) && ValidKey(m, k) && k !in memo && k !in inProgress
    requires stack != [] ==> ValidKey(m, stack[|stack| - 1]) && k in Deps(m, stack[|stack| - 1])
    ensures OnStack(m, stack + [k], inProgress + {k}, memo)
    ensures AllValid(m, inProgress + {k})
  {
    PathSnoc(m, stack, k);
    PathIsValid(m, stack + [k]);
  }

  lemma {:induction false} PushThenPop(stack: seq<Key>, inProgress: set<Key>, k: Key)
    requires k !in inProgress
    ensures (stack + [k])[..|stack + [k]| - 1] == stack && inProgress + {k} - {k} == inProgress
    ensures (stack + [k])[|stack + [k]| - 1] == k
  {
  }

  lemma {:induction false} CycleFound(m: Model, stack: seq<Key>, k: Key)
    requires IsPath(m, stack) && ValidKey(m, k) && k in stack
    requires ValidKey(m, stack[|stack| - 1]) && k in Deps(m, stack[|stack| - 1])
    ensures Reaches(m, stack + [k], AlgebraicLoop)
  {
    PathSnoc(m, stack, k);
    var p := stack + [k];
    assert p[..|p| - 1] == stack && p[|p| - 1] == k;
    assert IsPath(m, p) && p <= p && FailsAt(m, p, AlgebraicLoop);
  }

  lemma {:induction false} CallFound(m: Model, stack: seq<Key>)
    requires IsPath(m, stack) && stack != []
    requires ValidKey(m, stack[|stack| - 1]) && OpAt(m, stack[|stack| - 1]).Call?
    ensures Reaches(m, stack, OpaqueBlock)
  {
    assert stack <= stack && FailsAt(m, stack, OpaqueBlock);
  }

  lemma {:induction false} MissingFound(m: Model, stack: seq<Key>)
    requires IsPath(m, stack) && stack != []
    requires ValidKey(m, stack[|stack| - 1]) && ReadsMissingOutput(m, stack[|stack| - 1])
    ensures Reaches(m, stack, Unsupported)
  {
    assert stack <= stack && FailsAt(m, stack, Unsupported);
  }

  /** The memo holds exactly the ops translated so far, each with the tree of its equation, and
      the recursion stack is what is in progress. */
  ghost predicate InStep(
      m: Model, order: seq<Key>, meaning: map<Key, Expr>, trees: seq<Expr>, memo: map<Key, nat>,
      stack: seq<Key>, inProgress: set<Key>)
    requires WellFormedModel(m)
  {
    && Agrees(memo, meaning, trees)
    && Translated(m, order, meaning)
    && OnStack(m, stack, inProgress, memo)
  }

  /** Finishing the op on top of the stack. */
  lemma {:induction false} StepEnds(
      m: Model, order: seq<Key>, meaning: map<Key, Expr>, trees: seq<Expr>, memo: map<Key, nat>,
      stack: seq<Key>, inProgress: set<Key>, k: Key, node: nat)
    requires WellFormedModel(m) && InStep(m, order, meaning, trees, memo, stack, inProgress)
    requires stack != [] && stack[|stack| - 1] == k && ValidKey(m, k)
    requires !OpAt(m, k).Call? && !ReadsMissingOutput(m, k)
    requires forall d | d in Deps(m, k) :: d in meaning
    requires node < |trees| && trees[node] == OpTree(m, k, meaning)
    ensures InStep(
        m, order + [k], meaning[k := trees[node]], trees, memo[k := node],
        stack[..|stack| - 1], inProgress - {k})
  {
    TranslatedSnoc(m, order, meaning, k, trees[node]);
    AgreesSnoc(memo, meaning, trees, k, node);
    PopStack(m, stack, inProgress, memo, k, node);
  }

  class Splicer {
    const m: Model
    const g: Graph
    var memo: map<Key, nat>
    var inProgress: set<Key>
    /** The recursion stack, outermost first. */
    ghost var stack: seq<Key>
    /** The keys of `memo`, in the order they were finished. */
    ghost var order: seq<Key>

    /** More than the deepest possible recursion. */
    ghost const budget: nat

    /** The tree of every memoised op. */
    ghost var meaning: map<Key, Expr>

    /** The in-progress set is the recursion stack and is disjoint from the memo; the memo holds
        exactly the ops translated so far, each with the tree of its equation. */
    ghost predicate Valid()
      reads this, g
    {
      && WellFormedModel(m) && g.Valid() && Bounds(m, budget)
      && InStep(m, order, meaning, g.trees, memo, stack, inProgress)
    }

    ghost predicate Later(memo0: map<Key, nat>, trees0: seq<Expr>)
      reads this, g
    {
      Grown(memo0, trees0, memo, g.trees)
    }

    constructor (m: Model)
      requires WellFormedModel(m)
      ensures Valid() && fresh(g) && this.m == m && stack == [] && memo == map[]
    {
      this.m := m;
      g := new Graph();
      memo, inProgress, stack, order, meaning := map[], {}, [], [], map[];
      budget := |Universe(m)|;
      UniverseBounds(m);
    }

    /** Inlines the op at `k` into the graph, through connections, unless it is memoised. */
    method Translate(k: Key) returns (r: Result<nat, CompileError>)
      requires Valid() && ValidKey(m, k)
      requires stack != [] ==> k in Deps(m, stack[|stack| - 1])
      modifies this, g
      ensures r.Ok? ==> Valid() && Later(old(memo), old(g.trees))
      ensures r.Ok? ==> stack == old(stack) && inProgress == old(inProgress)
      ensures r.Ok? ==> k in memo && memo[k] == r.value
      ensures r.Err? ==> Reaches(m, old(stack) + [k], r.error)
      decreases budget - |inProgress|, 1
    {
      if k in memo {
        return Ok(memo[k]);
      }
      if k in inProgress {
        CycleFound(m, stack, k);
        return Err(AlgebraicLoop);
      }
      r := TranslateNew(k);
    }

    /** Translates an op that is neither memoised nor in progress. */
    method TranslateNew(k: Key) returns (r: Result<nat, CompileError>)
      requires Valid() && ValidKey(m, k) && k !in memo && k !in inProgress
      requires stack != [] ==> k in Deps(m, stack[|stack| - 1])
      modifies this, g
      ensures r.Ok? ==> Valid() && Later(old(memo), old(g.trees))
      ensures r.Ok? ==> stack == old(stack) && inProgress == old(inProgress)
      ensures r.Ok? ==> k in memo && memo[k] == r.value
      ensures r.Err? ==> Reaches(m, old(stack) + [k], r.error)
      decreases budget - |inProgress|, 0
    {
      PushThenPop(stack, inProgress, k);
      Enter(k);
      r := TranslateOp(k);
      if r.Err? {
        return;
      }
      GrownSnoc(old(memo), old(g.trees), memo, g.trees, k, r.value);
      Leave(k, r.value);
    }

    /** Translates the op on top of the stack. */
    method TranslateOp(k: Key) returns (r: Result<nat, CompileError>)
      requires Valid() && ValidKey(m, k)
      requires stack != [] && stack[|stack| - 1] == k
      modifies this, g
      ensures r.Ok? ==> Valid() && Later(old(memo), old(g.trees))
      ensures r.Ok? ==> stack == old(stack) && inProgress == old(inProgress)
      ensures r.Ok? ==> !OpAt(m, k).Call? && !ReadsMissingOutput(m, k)
      ensures r.Ok? ==> (forall d | d in Deps(m, k) :: d in meaning)
      ensures r.Ok? ==> r.value < |g.trees| && g.trees[r.value] == OpTree(m, k, meaning)
      ensures r.Err? ==> Reaches(m, old(stack), r.error)
      decreases budget - |inProgress|, 4
    {
      if OpAt(m, k).Call? {
        CallFound(m, stack);
        return Err(OpaqueBlock);
      }
      if IsLeaf(OpAt(m, k)) {
        r := TranslateLeaf(k);
      } else {
        r := TranslateCompute(k);
      }
    }

    method Enter(k: Key)
      requires Valid() && ValidKey(m, k) && k !in memo && k !in inProgress
      requires stack != [] ==> k in Deps(m, stack[|stack| - 1])
      modifies this
      ensures Valid() && stack == old(stack) + [k] && inProgress == old(inProgress) + {k}
      ensures memo == old(memo) && meaning == old(meaning) && order == old(order)
      ensures |inProgress| == |old(inProgress)| + 1 <= budget
    {
      PushStack(m, stack, inProgress, memo, k);
      inProgress := inProgress + {k};
      stack := stack + [k];
    }

    method Leave(k: Key, node: nat)
      requires Valid() && stack != [] && stack[|stack| - 1] == k && ValidKey(m, k)
      requires !OpAt(m, k).Call? && !ReadsMissingOutput(m, k)
      requires forall d | d in Deps(m, k) :: d in meaning
      requires node < |g.trees| && g.trees[node] == OpTree(m, k, meaning)
      modifies this
      ensures Valid() && stack == old(stack[..|stack| - 1]) && inProgress == old(inProgress) - {k}
      ensures memo == old(memo)[k := node]
    {
      StepEnds(m, order, meaning, g.trees, memo, stack, inProgress, k, node);
      inProgress := inProgress - {k};
      stack := stack[..|stack| - 1];
      memo := memo[k := node];
      meaning := meaning[k := g.trees[node]];
      order := order + [k];
    }

    method TranslateCompute(k: Key) returns (r: Result<nat, CompileError>)
      requires Valid() && ValidKey(m, k) && !IsLeaf(OpAt(m, k)) && !OpAt(m, k).Call?
      requires stack != [] && stack[|stack| - 1] == k
      modifies this, g
      ensures r.Ok? ==> Valid() && Later(old(memo), old(g.trees))
      ensures r.Ok? ==> stack == old(stack) && inProgress == old(inProgress)
      ensures r.Ok? ==> (forall d | d in Deps(m, k) :: d in meaning)
      ensures r.Ok? ==> r.value < |g.trees| && g.trees[r.value] == OpTree(m, k, meaning)
      ensures r.Err? ==> Reaches(m, old(stack), r.error)
      decreases budget - |inProgress|, 3
    {
      KeyOk(m, k);
      var op := OpAt(m, k);
      var ks := SameRegion(k, LocalOperands(op));
      var args :- TranslateAll(k, ks);
      assert forall d | d in Deps(m, k) :: d in meaning;
      assert Pick(g.trees, args) == TreesAt(meaning, ks);
      ghost var gathered := g.trees;
      var node := InsertCompute(g, op, args);
      PrefixTransitive(old(g.trees), gathered, g.trees);
      AgreesGrow(memo, meaning, gathered, g.trees);
      r := Ok(node);
    }

    /** A leaf read: an input is resolved through the wiring, everything else maps straight across. */
    method TranslateLeaf(k: Key) returns (r: Result<nat, CompileError>)
      requires Valid() && ValidKey(m, k) && IsLeaf(OpAt(m, k))
      requires stack != [] && stack[|stack| - 1] == k
      modifies this, g
      ensures r.Ok? ==> Valid() && Later(old(memo), old(g.trees))
      ensures r.Ok? ==> stack == old(stack) && inProgress == old(inProgress)
      ensures r.Ok? ==> !ReadsMissingOutput(m, k)
      ensures r.Ok? ==> (forall d | d in Deps(m, k) :: d in meaning)
      ensures r.Ok? ==> r.value < |g.trees| && g.trees[r.value] == OpTree(m, k, meaning)
      ensures r.Err? ==> Reaches(m, old(stack), r.error)
      decreases budget - |inProgress|, 3
    {
      var op := OpAt(m, k);
      if op.Input? {
        r := ResolveInput(k.block, op.port, op.elem);
        if r.Ok? {
          InputTree(m, k, meaning, g.trees[r.value]);
        } else {
          InputFails(m, old(stack), r.error);
        }
      } else {
        KeyOk(m, k);
        ghost var was := g.trees;
        var node := g.Insert(LeafNode(m, k));
        AgreesGrow(memo, meaning, was, g.trees);
        LeafNodeTree(m, k, meaning, was);
        r := Ok(node);
      }
    }

    /** The node feeding an input element: an external input, the producing block's output op, or
        the constant 0 when nothing is connected. */
    method ResolveInput(block: nat, port: nat, elem: nat) returns (r: Result<nat, CompileError>)
      requires Valid()
      requires stack != [] ==>
          forall d | FeedOf(m, block, port, elem) == Driven(d) :: d in Deps(m, stack[|stack| - 1])
      modifies this, g
      ensures r.Ok? ==> Valid() && Later(old(memo), old(g.trees))
      ensures r.Ok? ==> stack == old(stack) && inProgress == old(inProgress)
      ensures r.Ok? ==> r.value < |g.trees|
      ensures r.Ok? ==> FeedsTree(m, FeedOf(m, block, port, elem), meaning, g.trees[r.value])
      ensures r.Err? ==> FeedFails(m, FeedOf(m, block, port, elem), old(stack), r.error)
      decreases budget - |inProgress|, 2, 1
    {
      if (Child(block), port, elem) !in m.wiring {
        r := InsertLeaf(NConst(0.0));
      } else {
        var src := m.wiring[(Child(block), port, elem)];
        if src.block.Iface? {
          r := InsertLeaf(NInput(m.layout.uBase.value + src.elem));
        } else {
          r := ResolveOutput(block, port, elem, src.block.idx, src.port, src.elem);
        }
      }
    }

    /** The node of an output element: its op in the producing block. */
    method ResolveOutput(ghost block: nat, ghost port: nat, ghost elem: nat, b: nat, outPort: nat, outElem: nat)
      returns (r: Result<nat, CompileError>)
      requires Valid() && b < |m.blocks|
      requires FeedOf(m, block, port, elem) == ProducerFeed(m.blocks, b, outPort, outElem)
      requires stack != [] ==>
          forall d | FeedOf(m, block, port, elem) == Driven(d) :: d in Deps(m, stack[|stack| - 1])
      modifies this, g
      ensures r.Ok? ==> Valid() && Later(old(memo), old(g.trees))
      ensures r.Ok? ==> stack == old(stack) && inProgress == old(inProgress)
      ensures r.Ok? ==> r.value < |g.trees|
      ensures r.Ok? ==> FeedsTree(m, FeedOf(m, block, port, elem), meaning, g.trees[r.value])
      ensures r.Err? ==> FeedFails(m, FeedOf(m, block, port, elem), old(stack), r.error)
      decreases budget - |inProgress|, 2, 0
    {
      var local := FindOutput(m.blocks[b].alg.writes, outPort, outElem);
      if local == None {
        return Err(Unsupported);
      }
      var d := Key(b, Alg, local.value);
      FeedIsValid(m, block, port, elem, d);
      r := Translate(d);
    }

    /** Appends a node without operands. */
    method InsertLeaf(node: Node) returns (r: Result<nat, CompileError>)
      requires Valid() && (node.NConst? || node.NInput?)
      modifies g
      ensures Valid() && Later(memo, old(g.trees))
      ensures r.Ok? && r.value < |g.trees| && g.trees[r.value] == NodeTree(node, [])
    {
      ghost var was := g.trees;
      NoOperands(node, was);
      var at := g.Insert(node);
      AgreesGrow(memo, meaning, was, g.trees);
      r := Ok(at);
    }

    /** Translates operands of the op on top of the stack, in order. */
    method TranslateAll(top: Key, ks: seq<Key>) returns (r: Result<seq<nat>, CompileError>)
      requires Valid() && stack != [] && top == stack[|stack| - 1] && ValidKey(m, top)
      requires AllDeps(m, top, ks)
      modifies this, g
      ensures r.Ok? ==> Valid() && Later(old(memo), old(g.trees))
      ensures r.Ok? ==> stack == old(stack) && inProgress == old(inProgress)
      ensures r.Ok? ==> Holds(memo, ks, r.value)
      ensures r.Err? ==> Reaches(m, old(stack), r.error)
      decreases budget - |inProgress|, 2, 1
    {
      var nodes: seq<nat> := [];
      GrownReflexive(memo, meaning, g.trees);
      for i := 0 to |ks|
        invariant Valid() && Later(old(memo), old(g.trees))
        invariant stack == old(stack) && inProgress == old(inProgress)
        invariant Holds(memo, ks[..i], nodes)
      {
        ghost var before, trees := memo, g.trees;
        nodes :- TranslateNext(top, ks, i, nodes);
        GrownTransitive(old(memo), old(g.trees), before, trees, memo, g.trees);
      }
      assert ks[..|ks|] == ks;
      r := Ok(nodes);
    }

    method TranslateNext(top: Key, ks: seq<Key>, i: nat, nodes: seq<nat>) returns (r: Result<seq<nat>, CompileError>)
      requires Valid() && stack != [] && top == stack[|stack| - 1] && ValidKey(m, top)
      requires AllDeps(m, top, ks) && i < |ks| && Holds(memo, ks[..i], nodes)
      modifies this, g
      ensures r.Ok? ==> Valid() && Later(old(memo), old(g.trees))
      ensures r.Ok? ==> stack == old(stack) && inProgress == old(inProgress)
      ensures r.Ok? ==> Holds(memo, ks[..i + 1], r.value)
      ensures r.Err? ==> Reaches(m, old(stack), r.error)
      decreases budget - |inProgress|, 2, 0
    {
      var d := ks[i];
      DepsAreValid(m, top, d);
      var t := Translate(d);
      if t.Err? {
        PrefixReaches(m, old(stack) + [d], old(stack), t.error);
        return Err(t.error);
      }
      HoldsSnoc(old(memo), memo, ks, i, nodes, t.value);
      r := Ok(nodes + [t.value]);
    }
  }

  lemma {:induction false} PathIsValid(m: Model, p: seq<Key>)
    requires IsPath(m, p)
    ensures forall k | k in p :: ValidKey(m, k)
  {
    forall k | k in p ensures ValidKey(m, k) {
      var i :| 0 <= i < |p| && p[i] == k;
      PathStep(m, p, i);
    }
  }

  lemma {:induction false} PathSnoc(m: Model, p: seq<Key>, k: Key)
    requires IsPath(m, p) && ValidKey(m, k)
    requires p != [] ==> ValidKey(m, p[|p| - 1]) && k in Deps(m, p[|p| - 1])
    ensures IsPath(m, p + [k])
  {
    assert (p + [k])[..|p|] == p;
  }
}

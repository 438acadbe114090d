/** The hash-consed SSA graph (`src/ssa/graph.rs`), append-only, with its interpreter, and the
    expansion of a lookup table into a select chain (`src/blocks/constructors/table.rs`). */
module SsaGraph {
  import opened Ir
  import opened Lut

  datatype Node =
    | NConst(v: real)
    | NInput(flat: nat)
    | NParam(idx: nat)
    | NBinary(bop: BinOp, a: nat, b: nat)
    | NUnary(uop: UnOp, a: nat)
    | NCmp(cop: CmpOp, a: nat, b: nat)
    | NSelect(c: nat, t: nat, e: nat)
    | NFma(a: nat, b: nat, c: nat)
    | NReduce(rop: ReduceOp, args: seq<nat>)
    | NDot(xs: seq<nat>, ys: seq<nat>)

  predicate AllBelow(xs: seq<nat>, n: nat) { forall i | 0 <= i < |xs| :: xs[i] < n }

  /** Every operand of `node` is one of the first `n` nodes. */
  predicate OperandsBelow(node: Node, n: nat) {
    match node
    case NConst(_) | NInput(_) | NParam(_) => true
    case NBinary(_, a, b) => a < n && b < n
    case NCmp(_, a, b) => a < n && b < n
    case NUnary(_, a) => a < n
    case NSelect(c, t, e) => c < n && t < n && e < n
    case NFma(a, b, c) => a < n && b < n && c < n
    case NReduce(_, args) => AllBelow(args, n)
    case NDot(xs, ys) => AllBelow(xs, n) && AllBelow(ys, n)
  }

  ghost predicate WellFormed(ns: seq<Node>) {
    forall i | 0 <= i < |ns| :: OperandsBelow(ns[i], i)
  }

  /** The expression tree a node stands for, with all sharing undone. */
  datatype Expr =
    | XConst(v: real)
    | XInput(flat: nat)
    | XParam(idx: nat)
    | XBinary(bop: BinOp, a: Expr, b: Expr)
    | XUnary(uop: UnOp, a: Expr)
    | XCmp(cop: CmpOp, a: Expr, b: Expr)
    | XSelect(c: Expr, t: Expr, e: Expr)
    | XFma(a: Expr, b: Expr, c: Expr)
    | XReduce(rop: ReduceOp, args: seq<Expr>)
    | XDot(xs: seq<Expr>, ys: seq<Expr>)

  function Pick(trees: seq<Expr>, ids: seq<nat>): (es: seq<Expr>)
    requires AllBelow(ids, |trees|)
    ensures |es| == |ids| && forall k | 0 <= k < |ids| :: es[k] == trees[ids[k]]
  {
    seq(|ids|, k requires 0 <= k < |ids| => trees[ids[k]])
  }

  /** The tree of `node`, given the trees of its operands. */
  function NodeTree(node: Node, trees: seq<Expr>): Expr
    requires OperandsBelow(node, |trees|)
  {
    match node
    case NConst(v) => XConst(v)
    case NInput(flat) => XInput(flat)
    case NParam(idx) => XParam(idx)
    case NBinary(op, a, b) => XBinary(op, trees[a], trees[b])
    case NUnary(op, a) => XUnary(op, trees[a])
    case NCmp(op, a, b) => XCmp(op, trees[a], trees[b])
    case NSelect(c, t, e) => XSelect(trees[c], trees[t], trees[e])
    case NFma(a, b, c) => XFma(trees[a], trees[b], trees[c])
    case NReduce(op, args) => XReduce(op, Pick(trees, args))
    case NDot(xs, ys) => XDot(Pick(trees, xs), Pick(trees, ys))
  }

  /** `trees[i]` is the unfolding of node `i`, for every node. */
  ghost predicate Unfolds(ns: seq<Node>, trees: seq<Expr>) {
    && WellFormed(ns) && |trees| == |ns|
    && forall i | 0 <= i < |ns| :: trees[i] == NodeTree(ns[i], trees[..i])
  }

  /** One call's inputs: the flat input space, the parameters, and the operator interpretation. */
  datatype Env = Env(prims: Prims, inp: nat -> real, par: nat -> real)

  /** `Graph::interpret`: the values of the first `n` nodes, in order. */
  function Interpret(ns: seq<Node>, env: Env, n: nat): (vs: seq<real>)
    requires WellFormed(ns) && n <= |ns|
    ensures |vs| == n
  {
    if n == 0 then [] else
    var vs := Interpret(ns, env, n - 1);
    vs + [NodeValue(ns[n - 1], vs, env)]
  }

  function NodeValue(node: Node, vs: seq<real>, env: Env): real
    requires OperandsBelow(node, |vs|)
  {
    match node
    case NConst(v) => v
    case NInput(flat) => env.inp(flat)
    case NParam(idx) => env.par(idx)
    case NBinary(op, a, b) => env.prims.bin(op, vs[a], vs[b])
    case NUnary(op, a) => env.prims.un(op, vs[a])
    case NCmp(op, a, b) => ApplyCmp(op, vs[a], vs[b])
    case NSelect(c, t, e) => ApplySelect(vs[c], vs[t], vs[e])
    case NFma(a, b, c) => env.prims.fma(vs[a], vs[b], vs[c])
    case NReduce(op, args) => env.prims.reduce(op, Gather(vs, args))
    case NDot(xs, ys) => env.prims.dot(Gather(vs, xs), Gather(vs, ys))
  }

  function Gather(vs: seq<real>, ids: seq<nat>): (r: seq<real>)
    requires AllBelow(ids, |vs|)
    ensures |r| == |ids| && forall k | 0 <= k < |ids| :: r[k] == vs[ids[k]]
  {
    seq(|ids|, k requires 0 <= k < |ids| => vs[ids[k]])
  }

  function Eval(e: Expr, env: Env): real {
    match e
    case XConst(v) => v
    case XInput(flat) => env.inp(flat)
    case XParam(idx) => env.par(idx)
    case XBinary(op, a, b) => env.prims.bin(op, Eval(a, env), Eval(b, env))
    case XUnary(op, a) => env.prims.un(op, Eval(a, env))
    case XCmp(op, a, b) => ApplyCmp(op, Eval(a, env), Eval(b, env))
    case XSelect(c, t, f) => ApplySelect(Eval(c, env), Eval(t, env), Eval(f, env))
    case XFma(a, b, c) => env.prims.fma(Eval(a, env), Eval(b, env), Eval(c, env))
    case XReduce(op, args) => env.prims.reduce(op, EvalAll(args, env))
    case XDot(xs, ys) => env.prims.dot(EvalAll(xs, env), EvalAll(ys, env))
  }

  function EvalAll(es: seq<Expr>, env: Env): (vs: seq<real>)
    ensures |vs| == |es| && forall k | 0 <= k < |es| :: vs[k] == Eval(es[k], env)
  {
    seq(|es|, k requires 0 <= k < |es| => Eval(es[k], env))
  }

  lemma {:induction false} GatherIsEvalAll(ids: seq<nat>, trees: seq<Expr>, env: Env)
    requires AllBelow(ids, |trees|)
    ensures Gather(EvalAll(trees, env), ids) == EvalAll(Pick(trees, ids), env)
  {
    assert forall k | 0 <= k < |ids| :: Pick(trees, ids)[k] == trees[ids[k]];
  }

  lemma {:induction false} NodeValueIsEval(node: Node, trees: seq<Expr>, env: Env)
    requires OperandsBelow(node, |trees|)
    ensures NodeValue(node, EvalAll(trees, env), env) == Eval(NodeTree(node, trees), env)
  {
    match node
    case NReduce(op, args) => GatherIsEvalAll(args, trees, env);
    case NDot(xs, ys) =>
      GatherIsEvalAll(xs, trees, env);
      GatherIsEvalAll(ys, trees, env);
    case _ =>
  }

  /** The interpreter computes the value of every node's expression tree. */
  lemma {:induction false} InterpretIsEval(ns: seq<Node>, trees: seq<Expr>, env: Env, n: nat)
    requires Unfolds(ns, trees) && n <= |ns|
    ensures Interpret(ns, env, n) == EvalAll(trees[..n], env)
  {
    if n > 0 {
      InterpretIsEval(ns, trees, env, n - 1);
      var vs := Interpret(ns, env, n - 1);
      var below := trees[..n - 1];
      NodeValueIsEval(ns[n - 1], below, env);
      assert trees[..n] == below + [trees[n - 1]];
    }
  }

  /** Hash consing shares maximally: if no two nodes are equal, identical subexpressions have the
      same id. */
  lemma {:induction false} SharingIsMaximal(ns: seq<Node>, trees: seq<Expr>, i: nat, j: nat)
    requires Unfolds(ns, trees) && i < |ns| && j < |ns|
    requires forall a, b | 0 <= a < b < |ns| :: ns[a] != ns[b]
    requires trees[i] == trees[j]
    ensures i == j
    decreases i
  {
    forall a: nat, b: nat | a < i && b < |ns| && trees[a] == trees[b] ensures a == b {
      SharingIsMaximal(ns, trees, a, b);
    }
    assert NodeTree(ns[i], trees[..i]) == NodeTree(ns[j], trees[..j]);
    match (ns[i], ns[j])
    case (NReduce(_, xs), NReduce(_, ys)) =>
      PickIsInjective(trees, i, j, xs, ys);
    case (NDot(xs, ys), NDot(us, vs)) =>
      PickIsInjective(trees, i, j, xs, us);
      PickIsInjective(trees, i, j, ys, vs);
    case _ =>
  }

  lemma {:induction false} PickIsInjective(trees: seq<Expr>, i: nat, j: nat, xs: seq<nat>, ys: seq<nat>)
    requires i <= |trees| && j <= |trees| && AllBelow(xs, i) && AllBelow(ys, j)
    requires forall a: nat, b: nat | a < i && b < |trees| && trees[a] == trees[b] :: a == b
    requires Pick(trees[..i], xs) == Pick(trees[..j], ys)
    ensures xs == ys
  {
    assert |xs| == |ys|;
    forall k | 0 <= k < |xs| ensures xs[k] == ys[k] {
      assert trees[..i][xs[k]] == Pick(trees[..i], xs)[k] == trees[..j][ys[k]];
      assert trees[xs[k]] == trees[ys[k]];
    }
  }

  // ---------------------------------------------------------------------------------------
  // The expansion of a lookup table
  // ---------------------------------------------------------------------------------------

  /** `v + ((x - p) * inv) * dv`, as `seg_to_graph` lays it out. */
  function LineTree(x: Expr, p: real, inv: real, v: real, dv: real): Expr {
    XBinary(Add, XConst(v), XBinary(Mul, XBinary(Mul, XBinary(Sub, x, XConst(p)), XConst(inv)), XConst(dv)))
  }

  /** The inverse segment widths, computed once per table. */
  function InverseWidths(points: seq<real>): (inv: seq<real>)
    requires 2 <= |points| && StrictlyIncreasing(points)
    ensures |inv| == |points| - 1
  {
    seq(|points| - 1, k requires 0 <= k < |points| - 1 => 1.0 / (points[k + 1] - points[k]))
  }

  function SegmentTree(x: Expr, points: seq<real>, values: seq<real>, k: nat): Expr
    requires Table(points, values) && k + 1 < |points|
  {
    LineTree(x, points[k], InverseWidths(points)[k], values[k], values[k + 1] - values[k])
  }

  lemma {:induction false} SegmentTreeIs(
      x: Expr, points: seq<real>, values: seq<real>, k: nat, p: real, inv: real, v: real, dv: real)
    requires Table(points, values) && k + 1 < |points|
    requires p == points[k] && inv == InverseWidths(points)[k] && v == values[k] && dv == values[k + 1] - v
    ensures SegmentTree(x, points, values, k) == LineTree(x, p, inv, v, dv)
  {
  }

  /** The select chain over segments `0..k`, highest breakpoint outermost. */
  function ChainTree(x: Expr, points: seq<real>, values: seq<real>, k: nat): Expr
    requires Table(points, values) && k + 1 < |points|
    decreases k
  {
    if k == 0 then SegmentTree(x, points, values, 0)
    else
      XSelect(XCmp(Ge, x, XConst(points[k])), SegmentTree(x, points, values, k),
              ChainTree(x, points, values, k - 1))
  }

  /** `x < points[0] ? values[0] : x > points[last] ? top : chain` */
  function ClampTree(x: Expr, lo: real, hi: real, bottom: real, top: Expr, chain: Expr): Expr {
    XSelect(XCmp(Lt, x, XConst(lo)), XConst(bottom), XSelect(XCmp(Gt, x, XConst(hi)), top, chain))
  }

  function LutTree(x: Expr, points: seq<real>, values: seq<real>, clamp: bool): Expr
    requires Table(points, values)
  {
    var last := |points| - 1;
    var chain := ChainTree(x, points, values, last - 1);
    if !clamp then chain
    else
      var top := XBinary(Add, XConst(values[last - 1]), XConst(values[last] - values[last - 1]));
      ClampTree(x, points[0], points[last], values[0], top, chain)
  }

  lemma {:induction false} ClampedLutTree(
      x: Expr, points: seq<real>, values: seq<real>, lo: real, hi: real, bottom: real, v: real, dv: real)
    requires Table(points, values)
    requires lo == points[0] && hi == points[|points| - 1] && bottom == values[0]
    requires v == values[|points| - 2] && dv == values[|points| - 1] - v
    ensures LutTree(x, points, values, true) ==
            ClampTree(x, lo, hi, bottom, XBinary(Add, XConst(v), XConst(dv)),
                      ChainTree(x, points, values, |points| - 2))
  {
  }

  lemma {:induction false} Cancel(a: real, b: real, d: real)
    requires d != 0.0 && a * d == b * d
    ensures a == b
  {
    assert (a - b) * d == 0.0;
  }

  lemma {:induction false} TimesInverse(u: real, d: real)
    requires d != 0.0
    ensures u * (1.0 / d) == u / d
  {
    var inv := 1.0 / d;
    assert inv * d == 1.0;
    assert u * inv * d == u * (inv * d) == u;
    assert u / d * d == u;
    Cancel(u * inv, u / d, d);
  }

  lemma {:induction false} LineTreeValue(x: Expr, p: real, inv: real, v: real, dv: real, env: Env)
    requires ExactArithmetic(env.prims)
    ensures Eval(LineTree(x, p, inv, v, dv), env) == v + ((Eval(x, env) - p) * inv) * dv
  {
    var dx := XBinary(Sub, x, XConst(p));
    assert Eval(dx, env) == Eval(x, env) - p;
    var rawT := XBinary(Mul, dx, XConst(inv));
    assert Eval(rawT, env) == Eval(dx, env) * inv;
    assert Eval(XBinary(Mul, rawT, XConst(dv)), env) == Eval(rawT, env) * dv;
  }

  lemma {:induction false} SegmentTreeValue(x: Expr, points: seq<real>, values: seq<real>, k: nat, env: Env)
    requires ExactArithmetic(env.prims)
    requires Table(points, values) && k + 1 < |points|
    ensures Eval(SegmentTree(x, points, values, k), env) == Line(points, values, k, Eval(x, env))
  {
    var p, inv, v, dv := points[k], InverseWidths(points)[k], values[k], values[k + 1] - values[k];
    var d, u := points[k + 1] - p, Eval(x, env) - p;
    SegmentTreeIs(x, points, values, k, p, inv, v, dv);
    LineTreeValue(x, p, inv, v, dv, env);
    assert inv == 1.0 / d;
    TimesInverse(u, d);
    assert u * inv * dv == u / d * dv;
  }

  lemma {:induction false} GuardValue(op: CmpOp, x: Expr, bound: real, t: Expr, e: Expr, env: Env)
    ensures Eval(XSelect(XCmp(op, x, XConst(bound)), t, e), env) ==
            if ApplyCmp(op, Eval(x, env), bound) != 0.0 then Eval(t, env) else Eval(e, env)
  {
    assert Eval(XCmp(op, x, XConst(bound)), env) == ApplyCmp(op, Eval(x, env), bound);
  }

  lemma {:induction false} ChainTreeValue(
      x: Expr, points: seq<real>, values: seq<real>, k: nat, env: Env)
    requires ExactArithmetic(env.prims)
    requires Table(points, values) && k + 1 < |points|
    ensures Eval(ChainTree(x, points, values, k), env) ==
            Line(points, values, SegmentUpTo(points, Eval(x, env), k), Eval(x, env))
    decreases k
  {
    SegmentTreeValue(x, points, values, k, env);
    if k > 0 {
      ChainTreeValue(x, points, values, k - 1, env);
      GuardValue(Ge, x, points[k], SegmentTree(x, points, values, k),
                 ChainTree(x, points, values, k - 1), env);
    }
  }

  lemma {:induction false} ClampTreeValue(x: Expr, lo: real, hi: real, bottom: real, top: Expr, chain: Expr, env: Env)
    ensures Eval(ClampTree(x, lo, hi, bottom, top, chain), env) ==
            if Eval(x, env) < lo then bottom
            else if Eval(x, env) > hi then Eval(top, env) else Eval(chain, env)
  {
    var inner := XSelect(XCmp(Gt, x, XConst(hi)), top, chain);
    GuardValue(Gt, x, hi, top, chain, env);
    GuardValue(Lt, x, lo, XConst(bottom), inner, env);
  }

  /** The expanded table computes the reference interpreter's lookup. */
  lemma {:induction false} LutTreeValue(x: Expr, points: seq<real>, values: seq<real>, clamp: bool, env: Env)
    requires ExactArithmetic(env.prims)
    requires Table(points, values)
    ensures Eval(LutTree(x, points, values, clamp), env) == Lookup(points, values, clamp, Eval(x, env))
  {
    var last := |points| - 1;
    var chain := ChainTree(x, points, values, last - 1);
    ChainTreeValue(x, points, values, last - 1, env);
    if clamp {
      var lo, hi, bottom := points[0], points[last], values[0];
      var v, dv := values[last - 1], values[last] - values[last - 1];
      ClampedLutTree(x, points, values, lo, hi, bottom, v, dv);
      ClampTreeValue(x, lo, hi, bottom, XBinary(Add, XConst(v), XConst(dv)), chain, env);
      assert Eval(XBinary(Add, XConst(v), XConst(dv)), env) == v + dv;
    }
  }

  // ---------------------------------------------------------------------------------------
  // The graph object
  // ---------------------------------------------------------------------------------------

  class Graph {
    var nodes: seq<Node>
    var dedup: map<Node, nat>
    /** The unfolding of every node. */
    ghost var trees: seq<Expr>

    /** `dedup` is the exact inverse of the node list, and `trees` is its unfolding. */
    ghost predicate Valid()
      reads this
    {
      && Unfolds(nodes, trees)
      && (forall i | 0 <= i < |nodes| :: nodes[i] in dedup && dedup[nodes[i]] == i)
      && (forall n | n in dedup :: dedup[n] < |nodes| && nodes[dedup[n]] == n)
    }

    constructor ()
      ensures Valid() && trees == []
    {
      nodes, dedup := [], map[];
      trees := [];
    }

    /** `Graph::add`: returns the id of an identical node if there is one, else appends it. */
    method Insert(node: Node) returns (id: nat)
      requires Valid() && OperandsBelow(node, |trees|)
      modifies this
      ensures Valid() && old(trees) <= trees
      ensures id < |trees| && trees[id] == NodeTree(node, old(trees))
      ensures |nodes| <= |old(nodes)| + 1
    {
      if node in dedup {
        id := dedup[node];
        PickIgnoresTail(node, trees, id);
        return;
      }
      id := |nodes|;
      dedup := dedup[node := id];
      nodes := nodes + [node];
      trees := trees + [NodeTree(node, trees)];
      assert trees[..id] == old(trees);
      forall i | 0 <= i < id ensures trees[i] == NodeTree(nodes[i], trees[..i]) {
        assert trees[..i] == old(trees)[..i];
      }
    }

    static lemma {:induction false} PickIgnoresTail(node: Node, trees: seq<Expr>, n: nat)
      requires n <= |trees| && OperandsBelow(node, n) && OperandsBelow(node, |trees|)
      ensures NodeTree(node, trees[..n]) == NodeTree(node, trees)
    {
      match node
      case NReduce(_, args) => assert Pick(trees[..n], args) == Pick(trees, args);
      case NDot(xs, ys) =>
        assert Pick(trees[..n], xs) == Pick(trees, xs) && Pick(trees[..n], ys) == Pick(trees, ys);
      case _ =>
    }

    method InsertScaled(x: nat, p: real, inv: real) returns (r: nat)
      requires Valid() && x < |trees|
      modifies this
      ensures Valid() && old(trees) <= trees && r < |trees|
      ensures trees[r] == XBinary(Mul, XBinary(Sub, old(trees[x]), XConst(p)), XConst(inv))
    {
      var pNode := Insert(NConst(p));
      var invNode := Insert(NConst(inv));
      var dx := Insert(NBinary(Sub, x, pNode));
      r := Insert(NBinary(Mul, dx, invNode));
    }

    method InsertLine(x: nat, p: real, inv: real, v: real, dv: real) returns (s: nat)
      requires Valid() && x < |trees|
      modifies this
      ensures Valid() && old(trees) <= trees && s < |trees|
      ensures trees[s] == LineTree(old(trees[x]), p, inv, v, dv)
    {
      var rawT := InsertScaled(x, p, inv);
      var vNode := Insert(NConst(v));
      var dvNode := Insert(NConst(dv));
      var term := Insert(NBinary(Mul, rawT, dvNode));
      s := Insert(NBinary(Add, vNode, term));
    }

    /** `seg_to_graph` */
    method InsertSegment(x: nat, points: seq<real>, values: seq<real>, k: nat) returns (s: nat)
      requires Valid() && x < |trees|
      requires Table(points, values) && k + 1 < |points|
      modifies this
      ensures Valid() && old(trees) <= trees && s < |trees|
      ensures trees[s] == SegmentTree(old(trees[x]), points, values, k)
    {
      var p, inv := points[k], InverseWidths(points)[k];
      var v, dv := values[k], values[k + 1] - values[k];
      s := InsertLine(x, p, inv, v, dv);
      SegmentTreeIs(old(trees[x]), points, values, k, p, inv, v, dv);
    }

    method InsertClamp(chain: nat, x: nat, lo: real, hi: real, bottom: real, v: real, dv: real)
      returns (y: nat)
      requires Valid() && x < |trees| && chain < |trees|
      modifies this
      ensures Valid() && old(trees) <= trees && y < |trees|
      ensures trees[y] == ClampTree(old(trees[x]), lo, hi, bottom,
                                    XBinary(Add, XConst(v), XConst(dv)), old(trees[chain]))
    {
      var inner := InsertHigh(chain, x, hi, v, dv);
      y := InsertLow(inner, x, lo, bottom);
    }

    /** `x < lo ? bottom : inner` */
    method InsertLow(inner: nat, x: nat, lo: real, bottom: real) returns (y: nat)
      requires Valid() && x < |trees| && inner < |trees|
      modifies this
      ensures Valid() && old(trees) <= trees && y < |trees|
      ensures trees[y] == XSelect(XCmp(Lt, old(trees[x]), XConst(lo)), XConst(bottom), old(trees[inner]))
    {
      var bound := Insert(NConst(lo));
      var bottomNode := Insert(NConst(bottom));
      var cond := Insert(NCmp(Lt, x, bound));
      y := Insert(NSelect(cond, bottomNode, inner));
    }

    method InsertSum(v: real, dv: real) returns (s: nat)
      requires Valid()
      modifies this
      ensures Valid() && old(trees) <= trees && s < |trees|
      ensures trees[s] == XBinary(Add, XConst(v), XConst(dv))
    {
      var vNode := Insert(NConst(v));
      var dvNode := Insert(NConst(dv));
      s := Insert(NBinary(Add, vNode, dvNode));
    }

    /** `x > hi ? v + dv : chain` */
    method InsertHigh(chain: nat, x: nat, hi: real, v: real, dv: real) returns (y: nat)
      requires Valid() && x < |trees| && chain < |trees|
      modifies this
      ensures Valid() && old(trees) <= trees && y < |trees|
      ensures trees[y] ==
              XSelect(XCmp(Gt, old(trees[x]), XConst(hi)),
                      XBinary(Add, XConst(v), XConst(dv)), old(trees[chain]))
    {
      var bound := Insert(NConst(hi));
      var top := InsertSum(v, dv);
      var cond := Insert(NCmp(Gt, x, bound));
      y := Insert(NSelect(cond, top, chain));
    }

    /** Adds the select for segment `k` on top of the chain over segments `0..k - 1`. */
    method ExtendChain(chain: nat, x: nat, points: seq<real>, values: seq<real>, k: nat) returns (y: nat)
      requires Valid() && x < |trees| && chain < |trees|
      requires Table(points, values) && 0 < k < |points| - 1
      modifies this
      ensures Valid() && old(trees) <= trees && y < |trees|
      ensures trees[y] == XSelect(XCmp(Ge, old(trees[x]), XConst(points[k])),
                                  SegmentTree(old(trees[x]), points, values, k), old(trees[chain]))
    {
      var bound := Insert(NConst(points[k]));
      var cond := Insert(NCmp(Ge, x, bound));
      var segment := InsertSegment(x, points, values, k);
      y := Insert(NSelect(cond, segment, chain));
    }

    /** `lut1d_to_graph`: expands a table lookup on node `x` into a select chain. */
    method InsertLut(x: nat, points: seq<real>, values: seq<real>, clamp: bool) returns (y: nat)
      requires Valid() && x < |trees| && Table(points, values)
      modifies this
      ensures Valid() && old(trees) <= trees
      ensures y < |trees| && trees[y] == LutTree(old(trees[x]), points, values, clamp)
    {
      var n := |points|;
      ghost var tree := trees[x];
      y := InsertSegment(x, points, values, 0);
      for j := 1 to n - 1
        invariant Valid() && old(trees) <= trees && y < |trees| && trees[x] == tree
        invariant trees[y] == ChainTree(tree, points, values, j - 1)
      {
        y := ExtendChain(y, x, points, values, j);
      }
      if clamp {
        var lo, hi, bottom := points[0], points[n - 1], values[0];
        var v, dv := values[n - 2], values[n - 1] - values[n - 2];
        y := InsertClamp(y, x, lo, hi, bottom, v, dv);
        ClampedLutTree(tree, points, values, lo, hi, bottom, v, dv);
      }
    }
  }
}

/** The equations of a nested diagram written out in terms of its own lists of children, connections, ops and writes,
    and the main theorem about compilation in those terms (`src/ir/schema.rs`, `src/compile/mod.rs`). */
module DiagramMeaning {
  import opened Wrappers
  import opened Ir
  import opened Lut
  import opened Wiring
  import opened WireMeaning
  import opened Hierarchy
  import opened ScopeTree
  import opened Flatten
  import opened SsaGraph
  import opened OpSemantics
  import opened OpMeaning
  import opened SpliceModel
  import opened FlatLayout
  import opened SpliceSpec
  import opened Splice
  import opened Compile

  // ---------------------------------------------------------------------------------------
  // Scopes and what their connections carry
  // ---------------------------------------------------------------------------------------

  /** The subsystem at the end of a path, followed from the root down. */
  ghost function Descend(s: Subsystem, p: Path): Option<Subsystem>
    decreases |p|
  {
    if p == [] then Some(s)
    else if p[0] < |s.children| && s.children[p[0]].Sub? then Descend(s.children[p[0]].sub, p[1..])
    else None
  }

  lemma {:induction false} DescendFurther(s: Subsystem, p: Path, i: nat)
    ensures Descend(s, p + [i]) ==
            match Descend(s, p)
            case Some(at) => if i < |at.children| && at.children[i].Sub? then Some(at.children[i].sub) else None
            case None => None
    decreases |p|
  {
    if p == [] {
      assert (p + [i])[1..] == [];
      if i < |s.children| && s.children[i].Sub? { assert Descend(s.children[i].sub, []) == Some(s.children[i].sub); }
    } else {
      assert (p + [i])[1..] == p[1..] + [i];
      if p[0] < |s.children| && s.children[p[0]].Sub? { DescendFurther(s.children[p[0]].sub, p[1..], i); }
    }
  }

  lemma {:induction false} ScopeIsDescended(root: Subsystem, p: Path)
    ensures ScopeAt(root, p) == Descend(root, p)
    decreases |p|
  {
    if p != [] {
      var front, i := p[..|p| - 1], p[|p| - 1];
      assert p == front + [i];
      ScopeIsDescended(root, front);
      DescendFurther(root, front, i);
    }
  }

  /** The value on the producing side of a connection: the scope's own input, or a child's output. */
  ghost function FromSource(sig: Signals, scope: Path, block: Ref, elem: nat): real {
    match block
    case Iface => sig.input(scope, elem)
    case Child(i) => sig.output(scope + [i], elem)
  }

  /** `value` is what the connections of a scope carry to an element: that of the source paired with the first place
      that addresses the element, and 0 if none does. */
  ghost predicate Carries(sig: Signals, scope: Path, conns: seq<Connection>, to: Ref, elem: nat, value: real) {
    && (DrivenByNone(conns, to, None, elem) ==> value == 0.0)
    && forall c: nat, k: nat, j: nat {:trigger DrivesFirst(conns, to, None, elem, c, k, j)} ::
         DrivesFirst(conns, to, None, elem, c, k, j) ==>
           value == FromSource(sig, scope, conns[c].src.block, Paired(conns[c].src, j))
  }

  lemma {:induction false} DriverCarries(
      root: Subsystem, sig: Signals, scope: Path, conns: seq<Connection>, to: Ref, elem: nat, value: real)
    requires IsScope(root, scope) && conns == ScopeAt(root, scope).value.connections
    ensures Carries(sig, scope, conns, to, elem, value) <==> value == DriverValue(root, sig, scope, to, elem)
  {
    var c, k, j := FirstDriverIs(conns, to, None, elem);
    var d := FirstDriver(conns, to, None, elem);
    forall c': nat, k': nat, j': nat {:trigger DrivesFirst(conns, to, None, elem, c', k', j')}
      | DrivesFirst(conns, to, None, elem, c', k', j')
      ensures d.Some? && FromSource(sig, scope, conns[c'].src.block, Paired(conns[c'].src, j')) ==
                         DriverValue(root, sig, scope, to, elem)
    {
      FirstDriverIsUnique(conns, to, None, elem, c', k', j');
    }
  }

  /** Subsystems are relays: every input of a child and every output of a subsystem carries what the connections of its
      scope bring; the root's inputs are given. */
  ghost predicate Relayed(root: Subsystem, sig: Signals, external: nat -> real) {
    && (forall e: nat {:trigger sig.input([], e)} :: sig.input([], e) == external(e))
    && (forall scope: Path, i: nat, e: nat {:trigger sig.input(scope + [i], e)} ::
          var s := Descend(root, scope);
          s.Some? && i < |s.value.children| ==>
            Carries(sig, scope, s.value.connections, Child(i), e, sig.input(scope + [i], e)))
    && (forall scope: Path, e: nat {:trigger sig.output(scope, e)} ::
          var s := Descend(root, scope);
          scope != [] && s.Some? ==> Carries(sig, scope, s.value.connections, Iface, e, sig.output(scope, e)))
  }

  lemma {:induction false} ChildCarries(root: Subsystem, sig: Signals, scope: Path, i: nat, e: nat)
    ensures IsChild(root, scope, i) <==> Descend(root, scope).Some? && i < |Descend(root, scope).value.children|
    ensures IsChild(root, scope, i) ==>
              (Carries(sig, scope, Descend(root, scope).value.connections, Child(i), e, sig.input(scope + [i], e)) <==>
               sig.input(scope + [i], e) == DriverValue(root, sig, scope, Child(i), e))
  {
    ScopeIsDescended(root, scope);
    if IsScope(root, scope) {
      DriverCarries(root, sig, scope, ScopeAt(root, scope).value.connections, Child(i), e, sig.input(scope + [i], e));
    }
  }

  lemma {:induction false} ScopeCarries(root: Subsystem, sig: Signals, scope: Path, e: nat)
    ensures IsScope(root, scope) <==> Descend(root, scope).Some?
    ensures IsScope(root, scope) ==>
              (Carries(sig, scope, Descend(root, scope).value.connections, Iface, e, sig.output(scope, e)) <==>
               sig.output(scope, e) == DriverValue(root, sig, scope, Iface, e))
  {
    ScopeIsDescended(root, scope);
    if IsScope(root, scope) {
      DriverCarries(root, sig, scope, ScopeAt(root, scope).value.connections, Iface, e, sig.output(scope, e));
    }
  }

  lemma {:induction false} RelaysAreRelayed(root: Subsystem, sig: Signals, external: nat -> real)
    requires Relays(root, sig, external)
    ensures Relayed(root, sig, external)
  {
    forall scope: Path, i: nat, e: nat {:trigger sig.input(scope + [i], e)}
      ensures var s := Descend(root, scope);
              s.Some? && i < |s.value.children| ==>
                Carries(sig, scope, s.value.connections, Child(i), e, sig.input(scope + [i], e))
    {
      ChildCarries(root, sig, scope, i, e);
    }
    forall scope: Path, e: nat {:trigger sig.output(scope, e)}
      ensures var s := Descend(root, scope);
              scope != [] && s.Some? ==> Carries(sig, scope, s.value.connections, Iface, e, sig.output(scope, e))
    {
      ScopeCarries(root, sig, scope, e);
    }
  }

  /** The relay equations are these and no others. */
  lemma {:induction false} RelaysMeans(root: Subsystem, sig: Signals, external: nat -> real)
    ensures Relays(root, sig, external) <==> Relayed(root, sig, external)
  {
    if Relays(root, sig, external) { RelaysAreRelayed(root, sig, external); }
    if Relayed(root, sig, external) {
      forall scope: Path, i: nat, e: nat {:trigger sig.input(scope + [i], e)} | IsChild(root, scope, i)
        ensures sig.input(scope + [i], e) == DriverValue(root, sig, scope, Child(i), e)
      {
        ChildCarries(root, sig, scope, i, e);
      }
      forall scope: Path, e: nat {:trigger sig.output(scope, e)} | scope != [] && IsScope(root, scope)
        ensures sig.output(scope, e) == DriverValue(root, sig, scope, Iface, e)
      {
        ScopeCarries(root, sig, scope, e);
      }
    }
  }

  // ---------------------------------------------------------------------------------------
  // Leaves
  // ---------------------------------------------------------------------------------------

  /** The block at the end of a path, if there is one. */
  ghost predicate IsBlockAt(root: Subsystem, p: Path, b: Block) {
    && p != []
    && var s, i := Descend(root, p[..|p| - 1]), p[|p| - 1];
       s.Some? && i < |s.value.children| && s.value.children[i] == Leaf(b)
  }

  lemma {:induction false} BlockIsAt(root: Subsystem, p: Path, b: Block)
    ensures IsBlockAt(root, p, b) <==> IsLeafPath(root, p) && BlockAt(root, p) == b
  {
    if p != [] { ScopeIsDescended(root, p[..|p| - 1]); }
  }

  /** The ops of a region: the algebraic part, the dynamic part, the guard of an event that has one, or its effect. */
  ghost predicate HasOp(b: Block, r: RegionId, l: nat, op: Op) {
    match r
    case Alg => l < |b.alg.ops| && b.alg.ops[l] == op
    case Dyn => l < |b.dyn.ops| && b.dyn.ops[l] == op
    case Effect(k) => k < |b.events| && l < |b.events[k].effect.ops| && b.events[k].effect.ops[l] == op
    case Guard(k) =>
      k < |b.events|
      && match b.events[k].kind
         case ZeroCross(g) => l < |g.ops| && g.ops[l] == op
         case Condition(g) => l < |g.ops| && g.ops[l] == op
         case Schedule => false
  }

  lemma {:induction false} HasOpIff(b: Block, r: RegionId, l: nat, op: Op)
    ensures HasOp(b, r, l, op) <==> l < |RegionOps(b, r)| && RegionOps(b, r)[l] == op
  {
  }

  /** Op `l` of region `r` of the leaf at `p` has the value it should: a leaf op that of what it reads, any other what
      it makes of the values of its operands. */
  ghost predicate OpHolds(tw: TreeWorld, sig: Signals, tv: TreeValues, p: Path, r: RegionId, l: nat, op: Op)
    requires op.Lut1d? ==> Table(op.points, op.values)
  {
    match op
    case Const(c) => tv(p, r, l) == c
    case Time => tv(p, r, l) == tw.time
    case Input(_, elem) => tv(p, r, l) == sig.input(p, elem)
    case Param(id) => tv(p, r, l) == tw.param(p, id)
    case State(id) => tv(p, r, l) == tw.state(p, id)
    case Memory(slot, offset) => tv(p, r, l) == tw.memory(p, slot, offset)
    case Call => tv(p, r, l) == 0.0
    case _ => Computes(tw.prims, op, (i: nat) => tv(p, r, i), tv(p, r, l))
  }

  lemma {:induction false} OpHoldsIff(
      tw: TreeWorld, sig: Signals, tv: TreeValues, p: Path, r: RegionId, l: nat, op: Op)
    requires op.Lut1d? ==> Table(op.points, op.values)
    ensures OpHolds(tw, sig, tv, p, r, l, op) <==> tv(p, r, l) == TreeOpValue(tw, sig, tv, p, r, op)
  {
    if !IsLeaf(op) && !op.Call? {
      var at := (i: nat) => tv(p, r, i);
      assert OperandValues(tv, p, r, LocalOperands(op)) == Taken(at, LocalOperands(op));
      ComputesIff(tw.prims, op, at, Taken(at, LocalOperands(op)), tv(p, r, l));
    }
  }

  /** Every output element carries the value of the op in its first write. */
  ghost predicate OutputsHold(sig: Signals, tv: TreeValues, p: Path, b: Block) {
    forall n: nat {:trigger b.alg.writes[n]} | n < |b.alg.writes| && b.alg.writes[n].Output? ::
      var w := b.alg.writes[n];
      w.port == 0 && (forall k: nat {:trigger b.alg.writes[k]} | k < n :: !WritesOutput(b.alg.writes[k], 0, w.elem)) ==>
        sig.output(p, w.elem) == tv(p, Alg, w.src)
  }

  /** The leaf at `p` is solved. */
  ghost predicate LeafHolds(tw: TreeWorld, sig: Signals, tv: TreeValues, p: Path, b: Block) {
    && OutputsHold(sig, tv, p, b)
    && forall r: RegionId, l: nat, op: Op {:trigger HasOp(b, r, l, op)} ::
         HasOp(b, r, l, op) ==>
           (op.Lut1d? ==> Table(op.points, op.values)) && OpHolds(tw, sig, tv, p, r, l, op)
  }

  lemma {:induction false} OutputsHoldIff(sig: Signals, tv: TreeValues, p: Path, b: Block)
    requires OutputsHold(sig, tv, p, b)
    ensures forall e: nat {:trigger FindOutput(b.alg.writes, 0, e)} | FindOutput(b.alg.writes, 0, e).Some? ::
              sig.output(p, e) == tv(p, Alg, FindOutput(b.alg.writes, 0, e).value)
  {
    forall e: nat {:trigger FindOutput(b.alg.writes, 0, e)} | FindOutput(b.alg.writes, 0, e).Some?
      ensures sig.output(p, e) == tv(p, Alg, FindOutput(b.alg.writes, 0, e).value)
    {
      var n := FirstWrite(b.alg.writes, 0, e);
      assert b.alg.writes[n].Output?;
    }
  }

  lemma {:induction false} FirstWrite(writes: seq<Write>, port: nat, elem: nat) returns (n: nat)
    requires FindOutput(writes, port, elem).Some?
    ensures n < |writes| && WritesOutput(writes[n], port, elem)
    ensures FindOutput(writes, port, elem) == Some(writes[n].src)
    ensures forall k: nat {:trigger writes[k]} | k < n :: !WritesOutput(writes[k], port, elem)
    decreases |writes|
  {
    if WritesOutput(writes[0], port, elem) {
      n := 0;
    } else {
      n := FirstWrite(writes[1..], port, elem);
      assert writes[1..][n] == writes[n + 1];
      forall k: nat {:trigger writes[k]} | k < n + 1 ensures !WritesOutput(writes[k], port, elem) {
        if k > 0 { assert writes[k] == writes[1..][k - 1]; }
      }
      n := n + 1;
    }
  }

  // ---------------------------------------------------------------------------------------
  // The main theorem
  // ---------------------------------------------------------------------------------------

  /** The whole diagram is solved, with nothing given from outside. */
  ghost predicate DiagramHolds(root: Subsystem, tw: TreeWorld, sig: Signals, tv: TreeValues) {
    && Relayed(root, sig, (e: nat) => 0.0)
    && forall p: Path, b: Block {:trigger IsBlockAt(root, p, b)} ::
         IsBlockAt(root, p, b) ==> LeafHolds(tw, sig, tv, p, b)
  }

  lemma {:induction false} LeafIsSolved(
      root: Subsystem, tw: TreeWorld, sig: Signals, tv: TreeValues, p: Path, b: Block)
    requires IsLeafPath(root, p) && BlockAt(root, p) == b && BlockOk(b) && LeafHolds(tw, sig, tv, p, b)
    ensures LeafSolved(root, tw, sig, tv, p)
  {
    OutputsHoldIff(sig, tv, p, b);
    forall r: RegionId, l: nat {:trigger RegionOps(b, r)[l]} | l < |RegionOps(b, r)|
      ensures OpOk(b, RegionOps(b, r), RegionOps(b, r)[l])
      ensures tv(p, r, l) == TreeOpValue(tw, sig, tv, p, r, RegionOps(b, r)[l])
    {
      var op := RegionOps(b, r)[l];
      HasOpIff(b, r, l, op);
      assert HasOp(b, r, l, op);
      OpHoldsIff(tw, sig, tv, p, r, l, op);
    }
  }

  lemma {:induction false} DiagramIsSolved(root: Subsystem, tw: TreeWorld, sig: Signals, tv: TreeValues)
    requires LeavesOk(root) && DiagramHolds(root, tw, sig, tv)
    ensures TreeSolved(root, tw, sig, tv)
  {
    RelaysMeans(root, sig, (e: nat) => 0.0);
    forall p {:trigger IsLeafPath(root, p)} | IsLeafPath(root, p) ensures LeafSolved(root, tw, sig, tv, p) {
      var b := BlockAt(root, p);
      assert LeafOk(b);
      BlockIsAt(root, p, b);
      assert IsBlockAt(root, p, b);
      LeafIsSolved(root, tw, sig, tv, p, b);
    }
  }

  /** Compilation preserves meaning, in the diagram's own terms: whatever solves the diagram, and whichever flat vectors
      hold the point, the fused node of a state evaluates to the value of the op that its leaf's last derivative write
      names, and there is such a write. */
  lemma {:induction false} CompiledDiagramMeans(
      root: Subsystem, f: Flat, e: Evidence, out: Spliced, tw: TreeWorld, sig: Signals, tv: TreeValues, env: Env,
      b: nat, id: nat)
    returns (n: nat)
    requires WellFormedTree(root) && LeavesOk(root) && Compiled(root, f, e, out)
    requires DiagramHolds(root, tw, sig, tv)
    requires Interpretable(e.m, FlatWorld(tw, f.places)) && Packs(e.m, FlatWorld(tw, f.places), env)
    requires b < |f.leaves| && id < |f.leaves[b].state|
    ensures b < |f.places| && IsBlockAt(root, f.places[b], f.leaves[b])
    ensures n < |f.leaves[b].dyn.writes| && DerivesState(f.leaves[b].dyn.writes[n], id)
    ensures forall k | n < k < |f.leaves[b].dyn.writes| :: !DerivesState(f.leaves[b].dyn.writes[k], id)
    ensures e.m.layout.stateOff[b] + id < |out.derivs| && out.derivs[e.m.layout.stateOff[b] + id] < |out.nodes|
    ensures NodeAt(out.nodes, env, out.derivs[e.m.layout.stateOff[b] + id]) ==
            tv(f.places[b], Dyn, f.leaves[b].dyn.writes[n].src)
  {
    DiagramIsSolved(root, tw, sig, tv);
    WholeSolutionIsConeSolution(root, f, e, out, tw, sig, tv);
    CompilationPreservesMeaning(root, f, e, out, tw, sig, tv, env, b, id);
    assert IsLeafPath(root, f.places[b]);
    BlockIsAt(root, f.places[b], f.leaves[b]);
    n := LastWrite(f.leaves[b].dyn.writes, |f.leaves[b].dyn.writes|, id);
  }

  lemma {:induction false} LastWrite(writes: seq<Write>, m: nat, id: nat) returns (n: nat)
    requires m <= |writes| && LastDeriv(writes, m, id).Some?
    ensures n < m && DerivesState(writes[n], id) && LastDeriv(writes, m, id) == Some(writes[n].src)
    ensures forall k {:trigger writes[k]} | n < k < m :: !DerivesState(writes[k], id)
    decreases m
  {
    if DerivesState(writes[m - 1], id) {
      n := m - 1;
    } else {
      n := LastWrite(writes, m - 1, id);
    }
  }

  // ---------------------------------------------------------------------------------------
  // Opaque blocks
  // ---------------------------------------------------------------------------------------

  /** A block is opaque exactly if it is no sink and a call stands among its algebraic or its dynamic ops. */
  lemma {:induction false} OpaqueIff(b: Block)
    ensures IsOpaque(b) <==>
            !b.role.Sink? && ((exists i {:trigger b.alg.ops[i]} :: 0 <= i < |b.alg.ops| && b.alg.ops[i] == Call)
                              || (exists i {:trigger b.dyn.ops[i]} :: 0 <= i < |b.dyn.ops| && b.dyn.ops[i] == Call))
  {
    var all := b.alg.ops + b.dyn.ops;
    if i :| 0 <= i < |b.alg.ops| && b.alg.ops[i] == Call { assert all[i].Call?; }
    if i :| 0 <= i < |b.dyn.ops| && b.dyn.ops[i] == Call { assert all[|b.alg.ops| + i].Call?; }
    if i :| 0 <= i < |all| && all[i].Call? {
      if i < |b.alg.ops| { assert b.alg.ops[i] == Call; } else { assert b.dyn.ops[i - |b.alg.ops|] == Call; }
    }
  }
}

/** One ordered algebraic pass solves the network: its signals are the unique simultaneous solution
    of all block equations, whatever they were before. */
module NetworkSolution {
  import opened Wrappers
  import opened Ir
  import opened FlatWires
  import opened SystemPlan
  import opened AlgebraicPass
  import T = TopoOrder

  /** The equation of block `i`: every signal it writes holds the value its region computes. */
  ghost predicate BlockSettled(plan: Plan, bases: Bases, m: Machine, sig: seq<real>, i: nat)
    requires PlanShape(plan) && BlocksOk(plan) && i < |plan.blocks|
  {
    BlockStep(plan, bases, m, sig, i) == sig
  }

  /** All block equations hold at once. */
  ghost predicate Solves(plan: Plan, bases: Bases, m: Machine, sig: seq<real>)
    requires PlanShape(plan) && BlocksOk(plan)
  {
    forall i {:trigger BlockSettled(plan, bases, m, sig, i)} | 0 <= i < |plan.blocks| ::
      BlockSettled(plan, bases, m, sig, i)
  }

  /** Every output element of every block is written by its algebraic region. */
  ghost predicate WritesAll(plan: Plan) {
    forall i, k: nat {:trigger Writer(plan.blocks[i], |plan.blocks[i].alg.writes|, k)}
      | 0 <= i < |plan.blocks| && k < Total(plan.blocks[i].outSizes) ::
      Writer(plan.blocks[i], |plan.blocks[i].alg.writes|, k).Some?
  }

  /** Wires join existing elements, and no wire leads from a feedthrough block to itself. */
  ghost predicate WiresFit(blocks: seq<Block>, wires: seq<FlatWire>) {
    forall w {:trigger w in wires} | w in wires ::
      && w.src.block < |blocks| && w.dst.block < |blocks| && w.src.elem < Total(blocks[w.src.block].outSizes)
      && (w.src.block == w.dst.block ==> !T.HasFeedthrough(blocks[w.dst.block]))
  }

  /** Signal `s` belongs to block `i`. */
  predicate Owns(blocks: seq<Block>, i: nat, s: nat)
    requires i < |blocks|
  {
    SigStart(blocks, i) <= s < SigStart(blocks, i) + Total(blocks[i].outSizes)
  }

  lemma {:induction false} OwnersDiffer(blocks: seq<Block>, i: nat, j: nat, s: nat)
    requires i < |blocks| && j < |blocks| && Owns(blocks, i, s) && Owns(blocks, j, s)
    ensures i == j
  {
    if i < j { SigStartMonotone(blocks, i, j); } else if j < i { SigStartMonotone(blocks, j, i); }
  }

  /** Every signal belongs to some block. */
  lemma {:induction false} SomeOwner(blocks: seq<Block>, n: nat, s: nat) returns (i: nat)
    requires n <= |blocks| && s < SigStart(blocks, n)
    ensures i < n && Owns(blocks, i, s)
  {
    if s >= SigStart(blocks, n - 1) { i := n - 1; } else { i := SomeOwner(blocks, n - 1, s); }
  }

  /** A step changes only the block's own signals. */
  lemma {:induction false} StepIsLocal(
      plan: Plan, bases: Bases, m: Machine, sig: seq<real>, i: nat, s: nat, wires: seq<FlatWire>, exts: seq<ExtWire>,
      deps: T.Deps)
    requires PlanShape(plan) && BlocksOk(plan) && PlanOk(plan, wires, exts, deps) && i < |plan.blocks| && s < |sig|
    requires !Owns(plan.blocks, i, s)
    ensures BlockStep(plan, bases, m, sig, i)[s] == sig[s]
  {
    var b := plan.blocks[i];
    if TakesPart(plan, i) && s >= plan.outOff[i].value {
      if Writer(b, |b.alg.writes|, s - plan.outOff[i].value).Some? {
        WriterInRange(b, |b.alg.writes|, s - plan.outOff[i].value);
      }
    }
  }

  lemma {:induction false} LastWireIsAWire(wires: seq<FlatWire>, n: nat, i: nat, e: nat)
    requires n <= |wires| && LastWire(wires, n, i, e).Some?
    ensures FlatWire(LastWire(wires, n, i, e).value, ElemRef(i, e)) in wires
  {
    if wires[n - 1].dst != ElemRef(i, e) {
      LastWireIsAWire(wires, n - 1, i, e);
    }
  }

  /** The signal an input of a feedthrough block reads belongs to a block it waits for. */
  lemma {:induction false} SourceIsAwaited(
      plan: Plan, wires: seq<FlatWire>, exts: seq<ExtWire>, deps: T.Deps, i: nat, port: nat, elem: nat) returns (j: nat)
    requires PlanShape(plan) && PlanOk(plan, wires, exts, deps) && WiresFit(plan.blocks, wires)
    requires i < |plan.blocks| && InputWire(plan, i, port, elem).FromSignal? && T.HasFeedthrough(plan.blocks[i])
    ensures j < |plan.blocks| && j in deps[i] && Owns(plan.blocks, j, InputWire(plan, i, port, elem).sig)
  {
    var flat := SizeSum(plan.blocks[i].inSizes, port) + elem;
    assert plan.inputSrc[i][flat] == SignalOf(plan.blocks, LastWire(wires, |wires|, i, flat));
    var src := LastWire(wires, |wires|, i, flat).value;
    LastWireIsAWire(wires, |wires|, i, flat);
    var w := FlatWire(src, ElemRef(i, flat));
    assert w in wires && T.Orders(w, plan.blocks);
    j := src.block;
  }

  /** Two signal vectors agree on everything that block `i` waits for. */
  ghost predicate AgreeOnDeps(plan: Plan, deps: T.Deps, i: nat, s1: seq<real>, s2: seq<real>)
    requires i < |deps| == |plan.blocks|
  {
    |s1| == |s2| &&
    forall j, s {:trigger Owns(plan.blocks, j, s)} |
      j in deps[i] && j < |plan.blocks| && 0 <= s < |s1| && Owns(plan.blocks, j, s) :: s1[s] == s2[s]
  }

  lemma {:induction false} RegionIsLocal(
      plan: Plan, bases: Bases, m: Machine, wires: seq<FlatWire>, exts: seq<ExtWire>, deps: T.Deps, i: nat, n: nat,
      s1: seq<real>, s2: seq<real>)
    requires PlanShape(plan) && BlocksOk(plan) && PlanOk(plan, wires, exts, deps) && WiresFit(plan.blocks, wires)
    requires i < |plan.blocks| && n <= |plan.blocks[i].alg.ops| && AgreeOnDeps(plan, deps, i, s1, s2)
    ensures RegionValues(plan, bases, m, s1, i, plan.blocks[i].alg.ops, n) ==
            RegionValues(plan, bases, m, s2, i, plan.blocks[i].alg.ops, n)
    decreases n
  {
    if n > 0 {
      RegionIsLocal(plan, bases, m, wires, exts, deps, i, n - 1, s1, s2);
      var op := plan.blocks[i].alg.ops[n - 1];
      if op.Input? && InputWire(plan, i, op.port, op.elem).FromSignal? {
        var j := SourceIsAwaited(plan, wires, exts, deps, i, op.port, op.elem);
      }
    }
  }

  // ---------------------------------------------------------------------------------------
  // After the pass
  // ---------------------------------------------------------------------------------------

  ghost predicate Ordered(plan: Plan, wires: seq<FlatWire>, exts: seq<ExtWire>, deps: T.Deps) {
    && PlanShape(plan) && BlocksOk(plan) && PlanOk(plan, wires, exts, deps) && WiresFit(plan.blocks, wires)
    && T.ValidOrder(plan.topo, deps)
  }

  /** Running a later block does not disturb a settled one. */
  lemma {:induction false} StaysSettled(
      plan: Plan, bases: Bases, m: Machine, wires: seq<FlatWire>, exts: seq<ExtWire>, deps: T.Deps,
      sig: seq<real>, i: nat, j: nat)
    requires Ordered(plan, wires, exts, deps) && i < |plan.blocks| && j < |plan.blocks| && i != j && i !in deps[j]
    requires BlockSettled(plan, bases, m, sig, j)
    ensures BlockSettled(plan, bases, m, BlockStep(plan, bases, m, sig, i), j)
  {
    var next := BlockStep(plan, bases, m, sig, i);
    forall d, s | d in deps[j] && d < |plan.blocks| && 0 <= s < |sig| && Owns(plan.blocks, d, s)
      ensures next[s] == sig[s]
    {
      if Owns(plan.blocks, i, s) { OwnersDiffer(plan.blocks, i, d, s); }
      StepIsLocal(plan, bases, m, sig, i, s, wires, exts, deps);
    }
    RegionIsLocal(plan, bases, m, wires, exts, deps, j, |plan.blocks[j].alg.ops|, sig, next);
    SettledPointwise(plan, bases, m, wires, exts, deps, sig, next, i, j);
  }

  lemma {:induction false} SettledPointwise(
      plan: Plan, bases: Bases, m: Machine, wires: seq<FlatWire>, exts: seq<ExtWire>, deps: T.Deps,
      sig: seq<real>, next: seq<real>, i: nat, j: nat)
    requires Ordered(plan, wires, exts, deps) && i < |plan.blocks| && j < |plan.blocks| && i != j
    requires next == BlockStep(plan, bases, m, sig, i) && BlockSettled(plan, bases, m, sig, j)
    requires BlockValues(plan, bases, m, sig, j) == BlockValues(plan, bases, m, next, j)
    ensures BlockSettled(plan, bases, m, next, j)
  {
    var after := BlockStep(plan, bases, m, next, j);
    forall s | 0 <= s < |next| ensures after[s] == next[s] {
      if Owns(plan.blocks, j, s) {
        if Owns(plan.blocks, i, s) { OwnersDiffer(plan.blocks, i, j, s); }
        StepIsLocal(plan, bases, m, sig, i, s, wires, exts, deps);
        assert BlockStep(plan, bases, m, sig, j)[s] == sig[s];
      } else {
        StepIsLocal(plan, bases, m, next, j, s, wires, exts, deps);
      }
    }
  }

  /** Running a block settles it. */
  lemma {:induction false} StepSettles(
      plan: Plan, bases: Bases, m: Machine, wires: seq<FlatWire>, exts: seq<ExtWire>, deps: T.Deps, sig: seq<real>,
      i: nat)
    requires Ordered(plan, wires, exts, deps) && i < |plan.blocks| && i !in deps[i]
    ensures BlockSettled(plan, bases, m, BlockStep(plan, bases, m, sig, i), i)
  {
    var next := BlockStep(plan, bases, m, sig, i);
    forall d, s | d in deps[i] && d < |plan.blocks| && 0 <= s < |sig| && Owns(plan.blocks, d, s)
      ensures next[s] == sig[s]
    {
      if Owns(plan.blocks, i, s) { OwnersDiffer(plan.blocks, i, d, s); }
      StepIsLocal(plan, bases, m, sig, i, s, wires, exts, deps);
    }
    RegionIsLocal(plan, bases, m, wires, exts, deps, i, |plan.blocks[i].alg.ops|, sig, next);
    assert BlockStep(plan, bases, m, next, i) == next;
  }

  lemma {:induction false} AwaitedComesFirst(order: seq<nat>, deps: T.Deps, a: nat, b: nat)
    requires T.ValidOrder(order, deps) && a < |order| && b < |order| && order[a] < |deps| && order[b] in deps[order[a]]
    ensures b < a
  {
    var c :| 0 <= c < a && order[c] == order[b];
  }

  lemma {:induction false} LaterIsNotAwaited(order: seq<nat>, deps: T.Deps, a: nat, b: nat)
    requires T.ValidOrder(order, deps) && a <= b < |order|
    ensures order[b] < |deps| && order[a] < |deps| && order[b] !in deps[order[a]]
    ensures a < b ==> order[a] != order[b]
  {
    if order[b] in deps[order[a]] {
      AwaitedComesFirst(order, deps, a, b);
    }
  }

  lemma {:induction false} PassSettlesPrefix(
      plan: Plan, bases: Bases, m: Machine, wires: seq<FlatWire>, exts: seq<ExtWire>, deps: T.Deps, sig: seq<real>,
      n: nat, k: nat)
    requires Ordered(plan, wires, exts, deps) && n <= |plan.topo| && k < n
    ensures BlockSettled(plan, bases, m, PassTo(plan, bases, m, sig, n), plan.topo[k])
    decreases n
  {
    LaterIsNotAwaited(plan.topo, deps, k, n - 1);
    var before := PassTo(plan, bases, m, sig, n - 1);
    if k < n - 1 {
      PassSettlesPrefix(plan, bases, m, wires, exts, deps, sig, n - 1, k);
      StaysSettled(plan, bases, m, wires, exts, deps, before, plan.topo[n - 1], plan.topo[k]);
    } else {
      StepSettles(plan, bases, m, wires, exts, deps, before, plan.topo[k]);
    }
  }

  /** After the pass all block equations hold at once. */
  lemma {:induction false} PassSolves(
      plan: Plan, bases: Bases, m: Machine, wires: seq<FlatWire>, exts: seq<ExtWire>, deps: T.Deps, sig: seq<real>)
    requires Ordered(plan, wires, exts, deps)
    ensures Solves(plan, bases, m, PassTo(plan, bases, m, sig, |plan.topo|))
  {
    forall i | 0 <= i < |plan.blocks|
      ensures BlockSettled(plan, bases, m, PassTo(plan, bases, m, sig, |plan.topo|), i)
    {
      assert i in plan.topo;
      var k :| 0 <= k < |plan.topo| && plan.topo[k] == i;
      PassSettlesPrefix(plan, bases, m, wires, exts, deps, sig, |plan.topo|, k);
    }
  }

  /** A solution agrees with the pass on the signals of every block that has run. */
  lemma {:induction false} SolutionMatchesPrefix(
      plan: Plan, bases: Bases, m: Machine, wires: seq<FlatWire>, exts: seq<ExtWire>, deps: T.Deps,
      sig: seq<real>, sol: seq<real>, n: nat, k: nat, s: nat)
    requires Ordered(plan, wires, exts, deps) && WritesAll(plan)
    requires |sig| == |sol| == plan.nSig && Solves(plan, bases, m, sol)
    requires k < n <= |plan.topo| && s < plan.nSig && Owns(plan.blocks, plan.topo[k], s)
    ensures PassTo(plan, bases, m, sig, n)[s] == sol[s]
    decreases n
  {
    var before := PassTo(plan, bases, m, sig, n - 1);
    var i := plan.topo[n - 1];
    if k < n - 1 {
      SolutionMatchesPrefix(plan, bases, m, wires, exts, deps, sig, sol, n - 1, k, s);
      LaterIsNotAwaited(plan.topo, deps, k, n - 1);
      if Owns(plan.blocks, i, s) { OwnersDiffer(plan.blocks, i, plan.topo[k], s); }
      StepIsLocal(plan, bases, m, before, i, s, wires, exts, deps);
    } else {
      forall d, t | d in deps[i] && d < |plan.blocks| && 0 <= t < |sig| && Owns(plan.blocks, d, t)
        ensures before[t] == sol[t]
      {
        var c :| 0 <= c < n - 1 && plan.topo[c] == d;
        SolutionMatchesPrefix(plan, bases, m, wires, exts, deps, sig, sol, n - 1, c, t);
      }
      RegionIsLocal(plan, bases, m, wires, exts, deps, i, |plan.blocks[i].alg.ops|, before, sol);
      assert BlockSettled(plan, bases, m, sol, i);
      OwnSignalIsDetermined(plan, bases, m, wires, exts, deps, before, sol, i, s);
    }
  }

  lemma {:induction false} OwnSignalIsDetermined(
      plan: Plan, bases: Bases, m: Machine, wires: seq<FlatWire>, exts: seq<ExtWire>, deps: T.Deps,
      before: seq<real>, sol: seq<real>, i: nat, s: nat)
    requires Ordered(plan, wires, exts, deps) && WritesAll(plan) && i < |plan.blocks| && |before| == |sol|
    requires s < |sol| && Owns(plan.blocks, i, s) && BlockSettled(plan, bases, m, sol, i)
    requires BlockValues(plan, bases, m, before, i) == BlockValues(plan, bases, m, sol, i)
    ensures BlockStep(plan, bases, m, before, i)[s] == sol[s]
  {
    var b := plan.blocks[i];
    var k := s - SigStart(plan.blocks, i);
    assert plan.outOff[i] == Some(SigStart(plan.blocks, i));
    assert Writer(b, |b.alg.writes|, k).Some?;
    assert BlockStep(plan, bases, m, sol, i)[s] == sol[s];
  }

  /** The pass computes the unique solution of the block equations, whatever the signals held. */
  lemma {:induction false} PassIsTheUniqueSolution(
      plan: Plan, bases: Bases, m: Machine, wires: seq<FlatWire>, exts: seq<ExtWire>, deps: T.Deps,
      sig: seq<real>, sol: seq<real>)
    requires Ordered(plan, wires, exts, deps) && WritesAll(plan) && |sig| == |sol| == plan.nSig
    ensures Solves(plan, bases, m, sol) <==> sol == PassTo(plan, bases, m, sig, |plan.topo|)
  {
    var out := PassTo(plan, bases, m, sig, |plan.topo|);
    PassSolves(plan, bases, m, wires, exts, deps, sig);
    if Solves(plan, bases, m, sol) {
      forall s | 0 <= s < plan.nSig ensures out[s] == sol[s] {
        var i := SomeOwner(plan.blocks, |plan.blocks|, s);
        assert i in plan.topo;
        var k :| 0 <= k < |plan.topo| && plan.topo[k] == i;
        SolutionMatchesPrefix(plan, bases, m, wires, exts, deps, sig, sol, |plan.topo|, k, s);
      }
    }
  }
}

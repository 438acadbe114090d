/** The nested block diagram and what it means: subsystems are pure relays, so an interface element
    has the value of whatever drives it.  A scope or block is named by the path of child indices
    that leads to it from the root. */
module Hierarchy {
  import opened Wrappers
  import opened Ir
  import opened Wiring
  import opened Iteration

  datatype Subsystem = Subsystem(
    inputs: seq<nat>,
    outputs: seq<nat>,
    children: seq<ChildNode>,
    connections: seq<Connection>,
    topo: seq<Ref>,
    hasLoops: bool)

  datatype ChildNode = Leaf(block: Block) | Sub(sub: Subsystem)

  type Path = seq<nat>

  function ScopeAt(root: Subsystem, p: Path): Option<Subsystem> {
    if p == [] then Some(root)
    else
      var parent := ScopeAt(root, p[..|p| - 1]);
      var i := p[|p| - 1];
      if parent.Some? && i < |parent.value.children| && parent.value.children[i].Sub?
      then Some(parent.value.children[i].sub)
      else None
  }

  predicate IsScope(root: Subsystem, p: Path) { ScopeAt(root, p).Some? }

  predicate IsChild(root: Subsystem, scope: Path, i: nat) {
    IsScope(root, scope) && i < |ScopeAt(root, scope).value.children|
  }

  function ChildAt(root: Subsystem, scope: Path, i: nat): ChildNode
    requires IsChild(root, scope, i)
  {
    ScopeAt(root, scope).value.children[i]
  }

  predicate RefInRange(s: Subsystem, r: Ref) { r.Child? ==> r.idx < |s.children| }

  /** Connections refer to existing children. */
  ghost predicate RefsInRange(s: Subsystem) {
    forall c | c in s.connections ::
      RefInRange(s, c.src.block) && forall t | t in c.targets :: RefInRange(s, t.block)
  }

  ghost predicate WellFormedTree(root: Subsystem) {
    forall p {:trigger IsScope(root, p)} | IsScope(root, p) :: RefsInRange(ScopeAt(root, p).value)
  }

  // ---------------------------------------------------------------------------------------
  // Tracing a source backwards
  // ---------------------------------------------------------------------------------------

  /** An element on the producing side of a connection in `scope`. */
  datatype TraceKey = TraceKey(scope: Path, block: Ref, elem: nat)

  datatype Step = AtLeaf(block: Path, elem: nat) | AtRoot(elem: nat) | Undriven | Goto(key: TraceKey)

  predicate ValidTrace(root: Subsystem, k: TraceKey) {
    && IsScope(root, k.scope)
    && (k.block.Child? ==> IsChild(root, k.scope, k.block.idx))
  }

  /** The source that drives `elem` of `to` in `scope`. */
  function Driver(root: Subsystem, scope: Path, to: Ref, elem: nat): Step
    requires IsScope(root, scope)
  {
    match FirstDriver(ScopeAt(root, scope).value.connections, to, None, elem)
    case None => Undriven
    case Some(src) => Goto(TraceKey(scope, src.block, src.elem))
  }

  /** One step towards the producing leaf: out through an interface, or into a subsystem. */
  function Next(root: Subsystem, k: TraceKey): Step
    requires ValidTrace(root, k)
  {
    match k.block
    case Iface =>
      if k.scope == [] then AtRoot(k.elem)
      else Driver(root, k.scope[..|k.scope| - 1], Child(k.scope[|k.scope| - 1]), k.elem)
    case Child(i) =>
      match ChildAt(root, k.scope, i)
      case Leaf(_) => AtLeaf(k.scope + [i], k.elem)
      case Sub(_) => SubScope(root, k.scope, i); Driver(root, k.scope + [i], Iface, k.elem)
  }

  lemma {:induction false} SubScope(root: Subsystem, scope: Path, i: nat)
    requires IsChild(root, scope, i) && ChildAt(root, scope, i).Sub?
    ensures ScopeAt(root, scope + [i]) == Some(ChildAt(root, scope, i).sub)
  {
    assert (scope + [i])[..|scope|] == scope;
  }

  lemma {:induction false} DriverIsValid(root: Subsystem, scope: Path, to: Ref, elem: nat)
    requires WellFormedTree(root) && IsScope(root, scope)
    ensures Driver(root, scope, to, elem).Goto? ==> ValidTrace(root, Driver(root, scope, to, elem).key)
  {
    var s := ScopeAt(root, scope).value;
    if FirstDriver(s.connections, to, None, elem).Some? {
      FirstDriverReads(s.connections, to, None, elem);
      assert RefsInRange(s);
    }
  }

  lemma {:induction false} NextIsValid(root: Subsystem, k: TraceKey)
    requires WellFormedTree(root) && ValidTrace(root, k)
    ensures Next(root, k).Goto? ==> ValidTrace(root, Next(root, k).key)
  {
    match k.block
    case Iface =>
      if k.scope != [] {
        DriverIsValid(root, k.scope[..|k.scope| - 1], Child(k.scope[|k.scope| - 1]), k.elem);
      }
    case Child(i) =>
      if ChildAt(root, k.scope, i).Sub? {
        SubScope(root, k.scope, i);
        DriverIsValid(root, k.scope + [i], Iface, k.elem);
      }
  }

  /** One step of a trace; a trace that has stopped stays put. */
  function Advance(root: Subsystem, s: Step): Step {
    match s
    case Goto(k) => if ValidTrace(root, k) then Next(root, k) else Undriven
    case stopped => stopped
  }

  function Advancing(root: Subsystem): Step -> Step {
    (s: Step) => Advance(root, s)
  }

  /** Where the trace stands after `n` steps. */
  function Walk(root: Subsystem, from: Step, n: nat): Step {
    Iterate(Advancing(root), from, n)
  }

  /** The trace visits the same key twice. */
  ghost predicate Revisits(root: Subsystem, from: Step) {
    exists i: nat, j: nat :: i < j && Walk(root, from, i).Goto? && Walk(root, from, i) == Walk(root, from, j)
  }

  lemma {:induction false} WalkIsValid(root: Subsystem, from: Step, n: nat)
    requires WellFormedTree(root) && (from.Goto? ==> ValidTrace(root, from.key))
    ensures Walk(root, from, n).Goto? ==> ValidTrace(root, Walk(root, from, n).key)
    decreases n
  {
    if n > 0 {
      WalkIsValid(root, from, n - 1);
      var s := Walk(root, from, n - 1);
      if s.Goto? { NextIsValid(root, s.key); }
    }
  }

  /** A trace that stops at `n` stops nowhere else and revisits nothing. */
  lemma {:induction false} StopIsFinal(root: Subsystem, from: Step, n: nat)
    requires !Walk(root, from, n).Goto?
    ensures forall m: nat | !Walk(root, from, m).Goto? :: Walk(root, from, m) == Walk(root, from, n)
    ensures !Revisits(root, from)
  {
    var f := Advancing(root);
    assert forall s: Step | !s.Goto? :: f(s) == s;
    forall i: nat, j: nat
      ensures !Iterate(f, from, i).Goto? ==> Iterate(f, from, i) == Iterate(f, from, n)
      ensures i < j && Iterate(f, from, i) == Iterate(f, from, j) ==> !Iterate(f, from, i).Goto?
    {
      FixedPointIsFinal(f, from, n, i, j);
    }
  }

  // ---------------------------------------------------------------------------------------
  // The hierarchical equations
  // ---------------------------------------------------------------------------------------

  /** A value for every input and every output element of every block and subsystem. */
  datatype Signals = Signals(input: (Path, nat) -> real, output: (Path, nat) -> real)

  /** The value of a connection source: the scope's own input, or a child's output. */
  function SourceValue(sig: Signals, k: TraceKey): real {
    match k.block
    case Iface => sig.input(k.scope, k.elem)
    case Child(i) => sig.output(k.scope + [i], k.elem)
  }

  /** What drives an element carries; an undriven element carries 0. */
  function DriverValue(root: Subsystem, sig: Signals, scope: Path, to: Ref, elem: nat): real
    requires IsScope(root, scope)
  {
    match Driver(root, scope, to, elem)
    case Goto(k) => SourceValue(sig, k)
    case _ => 0.0
  }

  /** Every input element carries its driver's value, and so does every subsystem output element;
      the root's inputs are given from outside. */
  ghost predicate Relays(root: Subsystem, sig: Signals, external: nat -> real) {
    && (forall e: nat :: sig.input([], e) == external(e))
    && (forall scope: Path, i: nat, e: nat {:trigger sig.input(scope + [i], e)} | IsChild(root, scope, i) ::
          sig.input(scope + [i], e) == DriverValue(root, sig, scope, Child(i), e))
    && (forall scope: Path, e: nat {:trigger sig.output(scope, e)} | scope != [] && IsScope(root, scope) ::
          sig.output(scope, e) == DriverValue(root, sig, scope, Iface, e))
  }

  function StepValue(sig: Signals, external: nat -> real, s: Step): real {
    match s
    case AtLeaf(b, e) => sig.output(b, e)
    case AtRoot(e) => external(e)
    case Undriven => 0.0
    case Goto(k) => SourceValue(sig, k)
  }

  lemma {:induction false} NextKeepsValue(root: Subsystem, sig: Signals, external: nat -> real, k: TraceKey)
    requires ValidTrace(root, k) && Relays(root, sig, external)
    ensures StepValue(sig, external, Next(root, k)) == SourceValue(sig, k)
  {
    match k.block
    case Iface =>
      if k.scope != [] {
        var parent, i := k.scope[..|k.scope| - 1], k.scope[|k.scope| - 1];
        assert k.scope == parent + [i];
        assert sig.input(parent + [i], k.elem) == DriverValue(root, sig, parent, Child(i), k.elem);
      }
    case Child(i) =>
      if ChildAt(root, k.scope, i).Sub? {
        SubScope(root, k.scope, i);
      }
  }

  /** Following a trace never changes the value carried. */
  lemma {:induction false} WalkKeepsValue(
      root: Subsystem, sig: Signals, external: nat -> real, from: Step, n: nat)
    requires WellFormedTree(root) && (from.Goto? ==> ValidTrace(root, from.key))
    requires Relays(root, sig, external)
    ensures StepValue(sig, external, Walk(root, from, n)) == StepValue(sig, external, from)
    decreases n
  {
    if n > 0 {
      WalkKeepsValue(root, sig, external, from, n - 1);
      WalkIsValid(root, from, n - 1);
      var s := Walk(root, from, n - 1);
      if s.Goto? { NextKeepsValue(root, sig, external, s.key); }
    }
  }

  // ---------------------------------------------------------------------------------------
  // The hierarchical equations have a solution
  // ---------------------------------------------------------------------------------------

  /** Where a trace ends; a trace that never does is as good as undriven. */
  ghost function FarEnd(root: Subsystem, from: Step): Step {
    if exists n: nat :: !Walk(root, from, n).Goto? then
      var n: nat :| !Walk(root, from, n).Goto?;
      Walk(root, from, n)
    else Undriven
  }

  lemma {:induction false} FarEndIs(root: Subsystem, from: Step, n: nat)
    requires !Walk(root, from, n).Goto?
    ensures FarEnd(root, from) == Walk(root, from, n)
  {
    StopIsFinal(root, from, n);
  }

  lemma {:induction false} FarEndOfNext(root: Subsystem, k: TraceKey)
    requires ValidTrace(root, k)
    ensures FarEnd(root, Goto(k)) == FarEnd(root, Next(root, k))
  {
    var f := Advancing(root);
    forall n: nat ensures Walk(root, Goto(k), 1 + n) == Walk(root, Next(root, k), n) {
      IterateAdds(f, Goto(k), 1, n);
      assert Iterate(f, Goto(k), 0) == Goto(k) && Iterate(f, Goto(k), 1) == Next(root, k);
    }
    if m: nat :| !Walk(root, Goto(k), m).Goto? {
      assert m > 0;
      var n := m - 1;
      assert Walk(root, Goto(k), 1 + n) == Walk(root, Next(root, k), n);
      FarEndIs(root, Goto(k), m);
      FarEndIs(root, Next(root, k), n);
    } else {
      forall n: nat ensures Walk(root, Next(root, k), n).Goto? {
        assert Walk(root, Goto(k), 1 + n) == Walk(root, Next(root, k), n);
      }
    }
  }

  /** What a step carries, given the outputs of the leaves. */
  function EndValue(leafOut: (Path, nat) -> real, external: nat -> real, s: Step): real {
    match s
    case AtLeaf(b, e) => leafOut(b, e)
    case AtRoot(e) => external(e)
    case _ => 0.0
  }

  /** Every element has the value at the far end of its trace. */
  ghost function RelaySignals(root: Subsystem, leafOut: (Path, nat) -> real, external: nat -> real): Signals {
    Signals(
      (p: Path, e: nat) =>
        if p == [] then external(e)
        else if IsScope(root, p[..|p| - 1]) then
          EndValue(leafOut, external, FarEnd(root, Driver(root, p[..|p| - 1], Child(p[|p| - 1]), e)))
        else 0.0,
      (p: Path, e: nat) =>
        if p != [] && IsScope(root, p) then EndValue(leafOut, external, FarEnd(root, Driver(root, p, Iface, e)))
        else leafOut(p, e))
  }

  lemma {:induction false} StopIsItsFarEnd(root: Subsystem, s: Step)
    requires !s.Goto?
    ensures FarEnd(root, s) == s
  {
    assert Walk(root, s, 0) == s;
    FarEndIs(root, s, 0);
  }

  lemma {:induction false} InterfaceIsItsFarEnd(
      root: Subsystem, leafOut: (Path, nat) -> real, external: nat -> real, k: TraceKey)
    requires ValidTrace(root, k) && k.block.Iface?
    ensures RelaySignals(root, leafOut, external).input(k.scope, k.elem) ==
            EndValue(leafOut, external, FarEnd(root, Next(root, k)))
  {
    if k.scope == [] { StopIsItsFarEnd(root, AtRoot(k.elem)); }
  }

  lemma {:induction false} LeafIsNoScope(root: Subsystem, scope: Path, i: nat)
    requires IsChild(root, scope, i) && ChildAt(root, scope, i).Leaf?
    ensures !IsScope(root, scope + [i])
  {
    assert (scope + [i])[..|scope|] == scope;
  }

  lemma {:induction false} LeafIsItsFarEnd(
      root: Subsystem, leafOut: (Path, nat) -> real, external: nat -> real, scope: Path, i: nat, elem: nat)
    requires IsChild(root, scope, i) && ChildAt(root, scope, i).Leaf?
    ensures RelaySignals(root, leafOut, external).output(scope + [i], elem) ==
            EndValue(leafOut, external, FarEnd(root, Next(root, TraceKey(scope, Child(i), elem))))
  {
    LeafIsNoScope(root, scope, i);
    StopIsItsFarEnd(root, AtLeaf(scope + [i], elem));
  }

  lemma {:induction false} SubIsItsFarEnd(
      root: Subsystem, leafOut: (Path, nat) -> real, external: nat -> real, scope: Path, i: nat, elem: nat)
    requires IsChild(root, scope, i) && ChildAt(root, scope, i).Sub?
    ensures RelaySignals(root, leafOut, external).output(scope + [i], elem) ==
            EndValue(leafOut, external, FarEnd(root, Next(root, TraceKey(scope, Child(i), elem))))
  {
    SubScope(root, scope, i);
    assert scope + [i] != [];
    assert Next(root, TraceKey(scope, Child(i), elem)) == Driver(root, scope + [i], Iface, elem);
  }

  lemma {:induction false} SourceIsItsFarEnd(
      root: Subsystem, leafOut: (Path, nat) -> real, external: nat -> real, k: TraceKey)
    requires ValidTrace(root, k)
    ensures SourceValue(RelaySignals(root, leafOut, external), k) ==
            EndValue(leafOut, external, FarEnd(root, Goto(k)))
  {
    FarEndOfNext(root, k);
    if k.block.Iface? {
      InterfaceIsItsFarEnd(root, leafOut, external, k);
    } else {
      var i := k.block.idx;
      if ChildAt(root, k.scope, i).Leaf? {
        LeafIsItsFarEnd(root, leafOut, external, k.scope, i, k.elem);
      } else {
        SubIsItsFarEnd(root, leafOut, external, k.scope, i, k.elem);
      }
    }
  }

  lemma {:induction false} DriverIsItsFarEnd(
      root: Subsystem, leafOut: (Path, nat) -> real, external: nat -> real, scope: Path, to: Ref, elem: nat)
    requires WellFormedTree(root) && IsScope(root, scope)
    ensures DriverValue(root, RelaySignals(root, leafOut, external), scope, to, elem) ==
            EndValue(leafOut, external, FarEnd(root, Driver(root, scope, to, elem)))
  {
    DriverIsValid(root, scope, to, elem);
    var s := Driver(root, scope, to, elem);
    if s.Goto? { SourceIsItsFarEnd(root, leafOut, external, s.key); } else { StopIsItsFarEnd(root, s); }
  }

  /** Whatever the leaves put out, also around a loop of interfaces, the relays can carry it. */
  lemma {:induction false} RelaysHaveASolution(
      root: Subsystem, leafOut: (Path, nat) -> real, external: nat -> real)
    requires WellFormedTree(root)
    ensures Relays(root, RelaySignals(root, leafOut, external), external)
    ensures forall p: Path, e: nat | !IsScope(root, p) ::
              RelaySignals(root, leafOut, external).output(p, e) == leafOut(p, e)
  {
    var sig := RelaySignals(root, leafOut, external);
    forall scope: Path, i: nat, e: nat | IsChild(root, scope, i)
      ensures sig.input(scope + [i], e) == DriverValue(root, sig, scope, Child(i), e)
    {
      assert (scope + [i])[..|scope|] == scope;
      DriverIsItsFarEnd(root, leafOut, external, scope, Child(i), e);
    }
    forall scope: Path, e: nat | scope != [] && IsScope(root, scope)
      ensures sig.output(scope, e) == DriverValue(root, sig, scope, Iface, e)
    {
      DriverIsItsFarEnd(root, leafOut, external, scope, Iface, e);
    }
  }
}

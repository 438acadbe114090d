/** The leaf-to-leaf wires of a nested diagram, described scope by scope the way the forward splicer
    finds them (`flatten_scope` in `src/codegen/system.rs`), and the proof that they are exactly the
    wires that tracing backwards finds. */
module LeafWires {
  import opened Wrappers
  import opened Ir
  import opened Wiring
  import opened Iteration
  import opened Hierarchy
  import opened Flatten

  /** The source that drives element `elem` of `to` in scope `s`. */
  function SourceIn(root: Subsystem, s: Path, to: Ref, elem: nat): Option<InputSrc> {
    if IsScope(root, s) then FirstDriver(ScopeAt(root, s).value.connections, to, None, elem) else None
  }

  /** Element `d` of the leaf at `p` is fed through the child `p[n]` of scope `p[..n]`: by which
      input element of that child?  `None` if some scope further in has its own source for it. */
  function Entry(root: Subsystem, p: Path, d: nat, n: nat): Option<nat>
    requires n < |p|
    decreases |p| - n
  {
    if n + 1 == |p| then Some(d)
    else match Entry(root, p, d, n + 1)
      case None => None
      case Some(x) => FromInterface(SourceIn(root, p[..n + 1], Child(p[n + 1]), x))
  }

  function FromInterface(src: Option<InputSrc>): Option<nat> {
    if src.Some? && src.value.block.Iface? then Some(src.value.elem) else None
  }

  /** A leaf output element. */
  datatype LeafElem = LeafElem(path: Path, elem: nat)

  /** The leaf element behind output `elem` of child `j` of scope `s`. */
  function Down(root: Subsystem, s: Path, j: nat, elem: nat): Option<LeafElem>
    requires IsChild(root, s, j)
    decreases ChildAt(root, s, j)
  {
    match ChildAt(root, s, j)
    case Leaf(_) => Some(LeafElem(s + [j], elem))
    case Sub(sub) =>
      SubScope(root, s, j);
      match FirstDriver(sub.connections, Iface, None, elem)
      case Some(InputSrc(Child(i), _, e)) => if i < |sub.children| then Down(root, s + [j], i, e) else None
      case _ => None
  }

  /** Scope `p[..n]` itself connects the leaf output `src` to element `d` of the leaf at `p`. */
  predicate WiredAt(root: Subsystem, p: Path, d: nat, n: nat, src: LeafElem)
    requires n < |p|
  {
    && Entry(root, p, d, n).Some?
    && var s := SourceIn(root, p[..n], Child(p[n]), Entry(root, p, d, n).value);
       s.Some? && s.value.block.Child? && IsChild(root, p[..n], s.value.block.idx)
       && Down(root, p[..n], s.value.block.idx, s.value.elem) == Some(src)
  }

  /** Some scope from `p[..n]` inwards makes the connection. */
  predicate Wired(root: Subsystem, p: Path, d: nat, n: nat, src: LeafElem)
    requires n < |p|
    decreases |p| - n
  {
    WiredAt(root, p, d, n, src) || (n + 1 < |p| && Wired(root, p, d, n + 1, src))
  }

  /** No scope connects its own input straight to its own output. */
  ghost predicate NoPassThrough(root: Subsystem) {
    forall s: Path, e: nat {:trigger SourceIn(root, s, Iface, e)} ::
      SourceIn(root, s, Iface, e).Some? ==> SourceIn(root, s, Iface, e).value.block.Child?
  }

  // ---------------------------------------------------------------------------------------
  // Agreement with the backward trace
  // ---------------------------------------------------------------------------------------

  /** Walking further from where a walk stands. */
  lemma {:induction false} WalkOn(root: Subsystem, from: Step, m: nat, n: nat)
    ensures Walk(root, from, m + n) == Walk(root, Walk(root, from, m), n)
  {
    IterateAdds(Advancing(root), from, m, n);
  }

  lemma {:induction false} WalkNone(root: Subsystem, from: Step)
    ensures Walk(root, from, 0) == from
  {
  }

  lemma {:induction false} WalkOne(root: Subsystem, k: TraceKey)
    requires ValidTrace(root, k)
    ensures Walk(root, Goto(k), 1) == Next(root, k)
  {
    assert Iterate(Advancing(root), Goto(k), 0) == Goto(k);
    assert Iterate(Advancing(root), Goto(k), 1) == Advancing(root)(Goto(k));
  }

  lemma {:induction false} SourceIsValid(root: Subsystem, s: Path, to: Ref, elem: nat)
    requires WellFormedTree(root) && SourceIn(root, s, to, elem).Some?
    ensures var src := SourceIn(root, s, to, elem).value;
            IsScope(root, s) && Driver(root, s, to, elem) == Goto(TraceKey(s, src.block, src.elem))
            && ValidTrace(root, TraceKey(s, src.block, src.elem))
            && (src.block.Child? ==> IsChild(root, s, src.block.idx))
  {
    DriverIsValid(root, s, to, elem);
  }

  lemma {:induction false} LeafScopes(root: Subsystem, p: Path, n: nat)
    requires p != [] && IsScope(root, p[..|p| - 1]) && n < |p|
    ensures IsScope(root, p[..n])
    decreases |p| - n
  {
    if n + 1 < |p| {
      LeafScopes(root, p, n + 1);
      assert p[..n + 1][..n] == p[..n];
    }
  }

  /** Leaving scope `inner` through its interface. */
  lemma {:induction false} PopsOut(root: Subsystem, from: Step, m: nat, inner: Path, e: nat)
    requires inner != [] && IsScope(root, inner) && Walk(root, from, m) == Goto(TraceKey(inner, Iface, e))
    ensures IsScope(root, inner[..|inner| - 1])
    ensures Walk(root, from, m + 1) == Driver(root, inner[..|inner| - 1], Child(inner[|inner| - 1]), e)
  {
    WalkOne(root, TraceKey(inner, Iface, e));
    WalkOn(root, from, m, 1);
  }

  /** One more scope out: the source found inside is the interface, so the trace goes on outside. */
  lemma {:induction false} ClimbsOne(root: Subsystem, from: Step, m: nat, inner: Path, i: nat, x: nat)
    requires WellFormedTree(root) && inner != [] && IsScope(root, inner)
    requires Walk(root, from, m) == Driver(root, inner, Child(i), x)
    requires FromInterface(SourceIn(root, inner, Child(i), x)).Some?
    ensures IsScope(root, inner[..|inner| - 1])
    ensures Walk(root, from, m + 1) ==
            Driver(root, inner[..|inner| - 1], Child(inner[|inner| - 1]),
                   FromInterface(SourceIn(root, inner, Child(i), x)).value)
  {
    SourceIsValid(root, inner, Child(i), x);
    PopsOut(root, from, m, inner, FromInterface(SourceIn(root, inner, Child(i), x)).value);
  }

  lemma {:induction false} InnerScope(p: Path, n: nat)
    requires n + 1 < |p|
    ensures p[..n + 1][..|p[..n + 1]| - 1] == p[..n] && p[..n + 1][|p[..n + 1]| - 1] == p[n]
  {
  }

  /** The trace climbs out to the entry of every scope that only relays. */
  lemma {:induction false} ClimbsToEntry(root: Subsystem, p: Path, d: nat, n: nat) returns (m: nat)
    requires WellFormedTree(root) && IsLeafPath(root, p) && n < |p| && Entry(root, p, d, n).Some?
    ensures IsScope(root, p[..n])
    ensures Walk(root, LeafDriver(root, p, d), m) == Driver(root, p[..n], Child(p[n]), Entry(root, p, d, n).value)
    decreases |p| - n
  {
    LeafScopes(root, p, n);
    var from := LeafDriver(root, p, d);
    if n + 1 == |p| {
      m := 0;
      WalkNone(root, from);
    } else {
      var x := Entry(root, p, d, n + 1).value;
      m := ClimbsToEntry(root, p, d, n + 1);
      InnerScope(p, n);
      ClimbsOne(root, from, m, p[..n + 1], p[n + 1], x);
      m := m + 1;
    }
  }

  /** Descending from a child's output, the trace stops at the leaf behind it, or nowhere. */
  lemma {:induction false} Descends(root: Subsystem, s: Path, j: nat, elem: nat) returns (m: nat)
    requires WellFormedTree(root) && NoPassThrough(root) && IsChild(root, s, j)
    ensures Walk(root, Goto(TraceKey(s, Child(j), elem)), m) ==
            match Down(root, s, j, elem)
            case Some(src) => AtLeaf(src.path, src.elem)
            case None => Undriven
    decreases ChildAt(root, s, j)
  {
    var k := TraceKey(s, Child(j), elem);
    WalkOne(root, k);
    match ChildAt(root, s, j)
    case Leaf(_) =>
      m := 1;
    case Sub(sub) =>
      SubScope(root, s, j);
      var src := SourceIn(root, s + [j], Iface, elem);
      if src.None? {
        m := 1;
      } else {
        SourceIsValid(root, s + [j], Iface, elem);
        var m0 := Descends(root, s + [j], src.value.block.idx, src.value.elem);
        WalkOn(root, Goto(k), 1, m0);
        m := 1 + m0;
      }
  }

  /** What the source found at the entry of scope `p[..n]` leads to. */
  lemma {:induction false} TurnsAt(root: Subsystem, p: Path, d: nat, n: nat, src: LeafElem) returns (m: nat)
    requires WellFormedTree(root) && NoPassThrough(root) && IsLeafPath(root, p) && n < |p|
    requires WiredAt(root, p, d, n, src)
    ensures Walk(root, LeafDriver(root, p, d), m) == AtLeaf(src.path, src.elem)
  {
    var m0 := ClimbsToEntry(root, p, d, n);
    var x := Entry(root, p, d, n).value;
    var found := SourceIn(root, p[..n], Child(p[n]), x).value;
    SourceIsValid(root, p[..n], Child(p[n]), x);
    var m1 := Descends(root, p[..n], found.block.idx, found.elem);
    WalkOn(root, LeafDriver(root, p, d), m0, m1);
    m := m0 + m1;
  }

  lemma {:induction false} WiredIsTraced(root: Subsystem, p: Path, d: nat, n: nat, src: LeafElem) returns (m: nat)
    requires WellFormedTree(root) && NoPassThrough(root) && IsLeafPath(root, p) && n < |p|
    requires Wired(root, p, d, n, src)
    ensures Walk(root, LeafDriver(root, p, d), m) == AtLeaf(src.path, src.elem)
    decreases |p| - n
  {
    if WiredAt(root, p, d, n, src) {
      m := TurnsAt(root, p, d, n, src);
    } else {
      m := WiredIsTraced(root, p, d, n + 1, src);
    }
  }

  /** A trace that stops at a leaf was turned by one of the scopes around the consumer: either by
      one from `n` inwards, or it left scope `p[..n]` through the interface. */
  lemma {:induction false} TracedIsWired(root: Subsystem, p: Path, d: nat, n: nat, src: LeafElem, m: nat)
    requires WellFormedTree(root) && NoPassThrough(root) && IsLeafPath(root, p) && n < |p|
    requires Walk(root, LeafDriver(root, p, d), m) == AtLeaf(src.path, src.elem)
    ensures Wired(root, p, d, n, src)
            || (Entry(root, p, d, n).Some?
                && FromInterface(SourceIn(root, p[..n], Child(p[n]), Entry(root, p, d, n).value)).Some?)
    decreases |p| - n
  {
    StopIsFinal(root, LeafDriver(root, p, d), m);
    if n + 1 < |p| {
      TracedIsWired(root, p, d, n + 1, src, m);
      if Wired(root, p, d, n + 1, src) { return; }
    }
    var x := Entry(root, p, d, n).value;
    var m0 := ClimbsToEntry(root, p, d, n);
    var found := SourceIn(root, p[..n], Child(p[n]), x);
    var above := Walk(root, LeafDriver(root, p, d), m0);
    if found.Some? && found.value.block.Child? {
      SourceIsValid(root, p[..n], Child(p[n]), x);
      var m1 := Descends(root, p[..n], found.value.block.idx, found.value.elem);
      WalkOn(root, LeafDriver(root, p, d), m0, m1);
      assert !Walk(root, LeafDriver(root, p, d), m0 + m1).Goto?;
    }
  }

  /** The two descriptions agree at any depth: a leaf output is wired to a leaf input exactly when
      the backward trace of that input stops there. */
  lemma {:induction false} WiresAreTraces(root: Subsystem, p: Path, d: nat, src: LeafElem)
    requires WellFormedTree(root) && NoPassThrough(root) && IsLeafPath(root, p)
    ensures Wired(root, p, d, 0, src) <==>
            exists m: nat :: Walk(root, LeafDriver(root, p, d), m) == AtLeaf(src.path, src.elem)
  {
    if Wired(root, p, d, 0, src) {
      var m := WiredIsTraced(root, p, d, 0, src);
    }
    if exists m: nat :: Walk(root, LeafDriver(root, p, d), m) == AtLeaf(src.path, src.elem) {
      var m: nat :| Walk(root, LeafDriver(root, p, d), m) == AtLeaf(src.path, src.elem);
      TracedIsWired(root, p, d, 0, src, m);
      if !Wired(root, p, d, 0, src) {
        var x := Entry(root, p, d, 0).value;
        LeavesThroughRoot(root, p, d, x, m);
        assert false;
      }
    }
  }

  /** Leaving the root's interface is a stop, so such a trace reaches no leaf. */
  lemma {:induction false} LeavesThroughRoot(root: Subsystem, p: Path, d: nat, x: nat, m: nat)
    requires WellFormedTree(root) && IsLeafPath(root, p)
    requires Entry(root, p, d, 0) == Some(x) && FromInterface(SourceIn(root, p[..0], Child(p[0]), x)).Some?
    ensures !Walk(root, LeafDriver(root, p, d), m).AtLeaf?
  {
    var m0 := ClimbsToEntry(root, p, d, 0);
    SourceIsValid(root, p[..0], Child(p[0]), x);
    var e := FromInterface(SourceIn(root, p[..0], Child(p[0]), x)).value;
    var from := LeafDriver(root, p, d);
    assert Walk(root, from, m0) == Goto(TraceKey([], Iface, e));
    WalkOne(root, TraceKey([], Iface, e));
    WalkOn(root, from, m0, 1);
    StopIsFinal(root, from, m0 + 1);
  }
}

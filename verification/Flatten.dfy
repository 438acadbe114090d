/** Flattening a nested diagram into leaf blocks with direct leaf-to-leaf wires (`flatten_scopes`
    and `flatten` in `src/compile/flatten.rs`), and why the wires carry the hierarchical values. */
module Flatten {
  import opened Wrappers
  import opened Ir
  import opened Wiring
  import opened Hierarchy
  import opened Tracer
  import opened ScopeTree

  // ---------------------------------------------------------------------------------------
  // Tracing over scope indices is tracing over paths
  // ---------------------------------------------------------------------------------------

  lemma {:induction false} CompleteIsInRange(root: Subsystem, t: Tables)
    requires Complete(root, t) && WellFormedTree(root)
    ensures ScopesInRange(t.scopes)
  {
    forall i | 0 <= i < |t.scopes| ensures ScopeInRange(t.scopes, i) {
      assert Mirrors(root, t, i);
      var sub := ScopeAt(root, t.paths[i]).value;
      assert IsScope(root, t.paths[i]) && RefsInRange(sub);
      if t.scopes[i].parent.Some? {
        ParentChild(root, t, i);
      }
      forall j | 0 <= j < |t.scopes[i].children| && t.scopes[i].children[j].SubAt?
        ensures t.scopes[i].children[j].scope < |t.scopes|
      {
        assert KindMirrors(root, t, i, j, t.scopes[i].children[j]);
      }
    }
  }

  lemma {:induction false} ParentChild(root: Subsystem, t: Tables, i: nat)
    requires Complete(root, t) && i < |t.scopes| && t.scopes[i].parent.Some?
    ensures var p := t.scopes[i].parent.value;
            && p.scope < |t.scopes| && t.paths[i] == t.paths[p.scope] + [p.child]
            && p.child < |t.scopes[p.scope].children|
            && t.paths[i][..|t.paths[i]| - 1] == t.paths[p.scope]
  {
    var p := t.scopes[i].parent.value;
    assert Mirrors(root, t, i) && Mirrors(root, t, p.scope);
    assert t.paths[i][..|t.paths[i]| - 1] == t.paths[p.scope];
  }

  ghost predicate StepInRange(t: Tables, s: IndexStep) {
    match s
    case FlatLeaf(f, _) => f < |t.leaves|
    case Follow(k) => KeyInRange(t.scopes, k)
    case _ => true
  }

  ghost function KeyPath(t: Tables, k: ScopeKey): TraceKey
    requires SameLengths(t) && KeyInRange(t.scopes, k)
  {
    TraceKey(t.paths[k.scope], k.block, k.elem)
  }

  ghost function StepPath(t: Tables, s: IndexStep): Step
    requires SameLengths(t) && StepInRange(t, s)
  {
    match s
    case FlatLeaf(f, e) => AtLeaf(LeafPath(t, f), e)
    case RootInput(e) => AtRoot(e)
    case NoDriver => Undriven
    case Follow(k) => Goto(KeyPath(t, k))
  }

  lemma {:induction false} DriverAgrees(root: Subsystem, t: Tables, s: nat, to: Ref, elem: nat)
    requires Complete(root, t) && WellFormedTree(root) && s < |t.scopes|
    ensures IsScope(root, t.paths[s]) && StepInRange(t, ScopeDriver(t.scopes, s, to, elem))
    ensures StepPath(t, ScopeDriver(t.scopes, s, to, elem)) == Driver(root, t.paths[s], to, elem)
  {
    assert Mirrors(root, t, s);
    CompleteIsInRange(root, t);
    ScopeDriverInRange(t.scopes, s, to, elem);
  }

  lemma {:induction false} NextAgrees(root: Subsystem, t: Tables, k: ScopeKey)
    requires Complete(root, t) && WellFormedTree(root) && KeyInRange(t.scopes, k)
    ensures ValidTrace(root, KeyPath(t, k)) && StepInRange(t, IndexNext(t.scopes, k))
    ensures StepPath(t, IndexNext(t.scopes, k)) == Next(root, KeyPath(t, k))
  {
    assert Mirrors(root, t, k.scope);
    match k.block
    case Iface =>
      if t.scopes[k.scope].parent.Some? {
        var p := t.scopes[k.scope].parent.value;
        ParentChild(root, t, k.scope);
        DriverAgrees(root, t, p.scope, Child(p.child), k.elem);
      }
    case Child(i) =>
      var kind := t.scopes[k.scope].children[i];
      assert KindMirrors(root, t, k.scope, i, kind);
      if kind.SubAt? {
        DriverAgrees(root, t, kind.scope, Iface, k.elem);
      }
  }

  /** Both traces make the same steps. */
  lemma {:induction false} WalkAgrees(root: Subsystem, t: Tables, from: ScopeKey, n: nat)
    requires Complete(root, t) && WellFormedTree(root) && KeyInRange(t.scopes, from)
    ensures StepInRange(t, IndexWalk(t.scopes, from, n))
    ensures StepPath(t, IndexWalk(t.scopes, from, n)) == Walk(root, Goto(KeyPath(t, from)), n)
    decreases n
  {
    if n > 0 {
      WalkAgrees(root, t, from, n - 1);
      var s := IndexWalk(t.scopes, from, n - 1);
      WalkStep(t.scopes, from, n - 1);
      if s.Follow? { NextAgrees(root, t, s.key); }
    }
  }

  // ---------------------------------------------------------------------------------------
  // What the wires should be
  // ---------------------------------------------------------------------------------------

  /** What a trace from `k` reports. */
  ghost predicate Reports(scopes: seq<Scope>, preserve: bool, k: ScopeKey, r: Option<InputSrc>) {
    if IndexRevisits(scopes, k) then r == None
    else exists m: nat :: !IndexWalk(scopes, k, m).Follow? && r == Reported(preserve, IndexWalk(scopes, k, m))
  }

  function Reported(preserve: bool, s: IndexStep): Option<InputSrc> {
    match s
    case FlatLeaf(f, e) => Some(InputSrc(Child(f), 0, e))
    case RootInput(e) => if preserve then Some(InputSrc(Iface, 0, e)) else None
    case _ => None
  }

  ghost predicate WireOk(scopes: seq<Scope>, preserve: bool, s: nat, drv: Option<InputSrc>, wire: Option<InputSrc>) {
    match drv
    case None => wire == None
    case Some(src) => Reports(scopes, preserve, ScopeKey(s, src.block, src.elem), wire)
  }

  ghost predicate Cyclic(scopes: seq<Scope>, s: nat, drv: Option<InputSrc>) {
    drv.Some? && IndexRevisits(scopes, ScopeKey(s, drv.value.block, drv.value.elem))
  }

  /** The loops' position: scope, connection, target, element. */
  datatype Cursor = Cursor(s: nat, i: nat, k: nat, j: nat)

  ghost predicate CursorOk(t: Tables, c: Cursor) {
    && c.s <= |t.scopes|
    && (c.s < |t.scopes| ==>
          var conns := t.scopes[c.s].connections;
          && c.i <= |conns|
          && (c.i < |conns| ==>
                && c.k <= |conns[c.i].targets|
                && (c.k < |conns[c.i].targets| ==> c.j <= |ElemsOr0(conns[c.i].targets[c.k].elems)|)))
  }

  /** The driver of element `d` of leaf `f`, as far as the loops have come. */
  ghost function Seen(t: Tables, c: Cursor, f: nat, d: nat): Option<InputSrc>
    requires SameLengths(t) && CursorOk(t, c) && f < |t.leaves|
  {
    var (s, child) := t.homes[f];
    if s >= |t.scopes| || s > c.s then None
    else if s < c.s then FirstDriver(t.scopes[s].connections, Child(child), None, d)
    else PartialDriver(t.scopes[s].connections, c.i, c.k, c.j, Child(child), None, d)
  }

  ghost function WireOf(flat: seq<Connection>, f: nat, d: nat): Option<InputSrc> {
    FirstDriver(flat, Child(f), Some(0), d)
  }

  ghost predicate WiresSoFar(t: Tables, preserve: bool, c: Cursor, flat: seq<Connection>)
    requires SameLengths(t) && CursorOk(t, c)
  {
    forall f: nat, d: nat {:trigger WireOf(flat, f, d)} | f < |t.leaves| ::
      WireOk(t.scopes, preserve, t.homes[f].0, Seen(t, c, f, d), WireOf(flat, f, d))
  }

  ghost predicate CyclesSoFar(t: Tables, c: Cursor, saw: bool)
    requires SameLengths(t) && CursorOk(t, c)
  {
    saw <==> exists f: nat, d: nat {:trigger Seen(t, c, f, d)} ::
      f < |t.leaves| && Cyclic(t.scopes, t.homes[f].0, Seen(t, c, f, d))
  }

  predicate SourceKnown(n: nat, preserve: bool, src: Ref) {
    match src
    case Child(g) => g < n
    case Iface => preserve
  }

  /** Wires start at leaves, or at the root interface if that is kept. */
  ghost predicate SourcesKnown(n: nat, preserve: bool, flat: seq<Connection>) {
    forall c {:trigger c in flat} | c in flat :: SourceKnown(n, preserve, c.src.block)
  }

  /** The loops have come to `c` with these wires. */
  ghost predicate Progress(t: Tables, preserve: bool, c: Cursor, flat: seq<Connection>, saw: bool) {
    && SameLengths(t) && CursorOk(t, c)
    && WiresSoFar(t, preserve, c, flat) && CyclesSoFar(t, c, saw)
    && SourcesKnown(|t.leaves|, preserve, flat)
  }

  /** Target `k` of connection `i` of scope `s` is the leaf with flat id `leaf`. */
  ghost predicate LeafTarget(t: Tables, s: nat, i: nat, k: nat, leaf: nat) {
    && s < |t.scopes| && leaf < |t.leaves|
    && i < |t.scopes[s].connections| && k < |t.scopes[s].connections[i].targets|
    && var b := t.scopes[s].connections[i].targets[k].block;
       b.Child? && b.idx < |t.scopes[s].children| && t.scopes[s].children[b.idx] == LeafAt(leaf)
  }

  function Wire(src: Ref, e: nat, f: nat, d: nat): Connection {
    Connection(PortRef(src, 0, Some([e])), [PortRef(Child(f), 0, Some([d]))])
  }

  lemma {:induction false} WireSnoc(
      flat: seq<Connection>, src: Ref, e: nat, f: nat, d: nat, to: Ref, port: Option<nat>, elem: nat)
    ensures FirstDriver(flat + [Wire(src, e, f, d)], to, port, elem) ==
            var before := FirstDriver(flat, to, port, elem);
            if before.Some? then before
            else if to == Child(f) && elem == d && (port == Some(0) || port == None) then Some(InputSrc(src, 0, e))
            else None
  {
    var c := Wire(src, e, f, d);
    assert (flat + [c])[..|flat|] == flat;
    assert c.targets[..0] == [];
    assert DriverOf(c.src, [], to, port, elem) == None;
    assert [d][..0] == [];
    assert Position([], elem) == None;
  }

  // ---------------------------------------------------------------------------------------
  // Moving the cursor
  // ---------------------------------------------------------------------------------------

  /** A move that reveals no further driver changes nothing. */
  lemma {:induction false} Idle(t: Tables, preserve: bool, c: Cursor, next: Cursor, flat: seq<Connection>, saw: bool)
    requires SameLengths(t) && CursorOk(t, c) && CursorOk(t, next)
    requires forall f: nat, d: nat {:trigger Seen(t, next, f, d)} | f < |t.leaves| ::
      Seen(t, next, f, d) == Seen(t, c, f, d)
    requires Progress(t, preserve, c, flat, saw)
    ensures Progress(t, preserve, next, flat, saw)
  {
    if saw {
      var f: nat, d: nat :| f < |t.leaves| && Cyclic(t.scopes, t.homes[f].0, Seen(t, c, f, d));
      assert Seen(t, next, f, d) == Seen(t, c, f, d);
    }
    forall f: nat, d: nat | f < |t.leaves|
      ensures WireOk(t.scopes, preserve, t.homes[f].0, Seen(t, next, f, d), WireOf(flat, f, d))
    {
      assert Seen(t, next, f, d) == Seen(t, c, f, d);
    }
  }

  lemma {:induction false} NextTarget(
      t: Tables, preserve: bool, c: Cursor, next: Cursor, flat: seq<Connection>, saw: bool)
    requires Progress(t, preserve, c, flat, saw) && c.s < |t.scopes|
    requires c.i < |t.scopes[c.s].connections| && c.k < |t.scopes[c.s].connections[c.i].targets|
    requires c.j == |ElemsOr0(t.scopes[c.s].connections[c.i].targets[c.k].elems)|
    requires next == Cursor(c.s, c.i, c.k + 1, 0)
    ensures Progress(t, preserve, next, flat, saw)
  {
    forall f: nat, d: nat | f < |t.leaves| ensures Seen(t, next, f, d) == Seen(t, c, f, d) {
      PartialNextTarget(t.scopes[c.s].connections, c.i, c.k, Child(t.homes[f].1), None, d);
    }
    Idle(t, preserve, c, next, flat, saw);
  }

  /** A target that is not a leaf is a relay and is skipped. */
  lemma {:induction false} SkipTarget(
      root: Subsystem, t: Tables, preserve: bool, c: Cursor, flat: seq<Connection>, saw: bool)
    requires Complete(root, t) && Progress(t, preserve, c, flat, saw) && c.s < |t.scopes| && c.j == 0
    requires c.i < |t.scopes[c.s].connections| && c.k < |t.scopes[c.s].connections[c.i].targets|
    requires var b := t.scopes[c.s].connections[c.i].targets[c.k].block;
             b.Child? ==> b.idx < |t.scopes[c.s].children| && t.scopes[c.s].children[b.idx].SubAt?
    ensures Progress(t, preserve, Cursor(c.s, c.i, c.k + 1, 0), flat, saw)
  {
    var next := Cursor(c.s, c.i, c.k + 1, 0);
    var conns := t.scopes[c.s].connections;
    forall f: nat, d: nat | f < |t.leaves| ensures Seen(t, next, f, d) == Seen(t, c, f, d) {
      assert HomeOk(t, f);
      PartialNextTarget(conns, c.i, c.k, Child(t.homes[f].1), None, d);
    }
    Idle(t, preserve, c, next, flat, saw);
  }

  lemma {:induction false} NextConnection(t: Tables, preserve: bool, c: Cursor, flat: seq<Connection>, saw: bool)
    requires Progress(t, preserve, c, flat, saw) && c.s < |t.scopes|
    requires c.i < |t.scopes[c.s].connections| && c.k == |t.scopes[c.s].connections[c.i].targets| && c.j == 0
    ensures Progress(t, preserve, Cursor(c.s, c.i + 1, 0, 0), flat, saw)
  {
    var next := Cursor(c.s, c.i + 1, 0, 0);
    forall f: nat, d: nat | f < |t.leaves| ensures Seen(t, next, f, d) == Seen(t, c, f, d) {
      PartialNextConnection(t.scopes[c.s].connections, c.i, Child(t.homes[f].1), None, d);
    }
    Idle(t, preserve, c, next, flat, saw);
  }

  lemma {:induction false} NextScope(t: Tables, preserve: bool, c: Cursor, flat: seq<Connection>, saw: bool)
    requires Progress(t, preserve, c, flat, saw) && c.s < |t.scopes|
    requires c.i == |t.scopes[c.s].connections| && c.k == 0 && c.j == 0
    ensures Progress(t, preserve, Cursor(c.s + 1, 0, 0, 0), flat, saw)
  {
    var next := Cursor(c.s + 1, 0, 0, 0);
    forall f: nat, d: nat | f < |t.leaves| ensures Seen(t, next, f, d) == Seen(t, c, f, d) {
      if t.homes[f].0 < |t.scopes| {
        PartialIsWhole(t.scopes[t.homes[f].0].connections, Child(t.homes[f].1), None, d);
      }
    }
    Idle(t, preserve, c, next, flat, saw);
  }

  lemma {:induction false} StartOfScopes(t: Tables, preserve: bool)
    requires SameLengths(t)
    ensures Progress(t, preserve, Cursor(0, 0, 0, 0), [], false)
  {
    forall f: nat, d: nat | f < |t.leaves|
      ensures Seen(t, Cursor(0, 0, 0, 0), f, d) == None && WireOf([], f, d) == None
    {
      if t.homes[f].0 < |t.scopes| {
        PartialIsWhole(t.scopes[t.homes[f].0].connections, Child(t.homes[f].1), None, d);
      }
    }
  }

  /** What one more element of a leaf's target reveals. */
  lemma {:induction false} SeenNextElem(root: Subsystem, t: Tables, c: Cursor, leaf: nat, f: nat, d: nat)
    requires Complete(root, t) && CursorOk(t, c)
    requires LeafTarget(t, c.s, c.i, c.k, leaf) && DrivenOnce(t.scopes[c.s].connections)
    requires c.j < |ElemsOr0(t.scopes[c.s].connections[c.i].targets[c.k].elems)|
    requires f < |t.leaves|
    ensures CursorOk(t, c.(j := c.j + 1))
    ensures var conn := t.scopes[c.s].connections[c.i];
            if f == leaf && d == ElemsOr0(conn.targets[c.k].elems)[c.j]
            then Seen(t, c, f, d) == None && Seen(t, c.(j := c.j + 1), f, d) == Some(SourceAt(conn.src, c.j))
            else Seen(t, c.(j := c.j + 1), f, d) == Seen(t, c, f, d)
  {
    var conns := t.scopes[c.s].connections;
    var tgt := conns[c.i].targets[c.k];
    var x := ElemsOr0(tgt.elems)[c.j];
    assert HomeOk(t, f);
    assert Mirrors(root, t, c.s) && KindMirrors(root, t, c.s, tgt.block.idx, LeafAt(leaf));
    PartialNextElem(conns, c.i, c.k, c.j, Child(t.homes[f].1), None, d);
    if f == leaf && d == x {
      assert Hits(conns, c.i, c.k, c.j, tgt.block, x);
      NothingBeforeHit(conns, c.i, c.k, c.j, tgt.block, None, x);
    }
  }

  /** The wires after pushing the producer `r` of element `d` of leaf `leaf`, if there is one. */
  function Pushed(flat: seq<Connection>, r: Option<InputSrc>, leaf: nat, d: nat): seq<Connection> {
    match r
    case Some(src) => flat + [Wire(src.block, src.elem, leaf, d)]
    case None => flat
  }

  lemma {:induction false} PushedWire(flat: seq<Connection>, r: Option<InputSrc>, leaf: nat, d: nat, f: nat, x: nat)
    requires r.Some? ==> r.value.port == 0
    ensures WireOf(Pushed(flat, r, leaf, d), f, x) ==
            if WireOf(flat, f, x).Some? || f != leaf || x != d then WireOf(flat, f, x) else r
  {
    if r.Some? {
      WireSnoc(flat, r.value.block, r.value.elem, leaf, d, Child(f), Some(0), x);
    }
  }

  lemma {:induction false} NextElem(
      root: Subsystem, t: Tables, preserve: bool, c: Cursor, next: Cursor, flat: seq<Connection>, saw: bool,
      sawNext: bool, leaf: nat, r: Option<InputSrc>, cycled: bool)
    requires Complete(root, t) && CursorOk(t, c)
    requires LeafTarget(t, c.s, c.i, c.k, leaf) && DrivenOnce(t.scopes[c.s].connections)
    requires c.j < |ElemsOr0(t.scopes[c.s].connections[c.i].targets[c.k].elems)|
    requires var src := SourceAt(t.scopes[c.s].connections[c.i].src, c.j);
             var key := ScopeKey(c.s, src.block, src.elem);
             Reports(t.scopes, preserve, key, r) && (cycled <==> IndexRevisits(t.scopes, key))
    requires r.Some? ==> SourceKnown(|t.leaves|, preserve, r.value.block)
    requires Progress(t, preserve, c, flat, saw) && next == c.(j := c.j + 1) && sawNext == (saw || cycled)
    ensures Progress(t, preserve, next,
            Pushed(flat, r, leaf, ElemsOr0(t.scopes[c.s].connections[c.i].targets[c.k].elems)[c.j]),
                     sawNext)
  {
    var d := ElemsOr0(t.scopes[c.s].connections[c.i].targets[c.k].elems)[c.j];
    var src := SourceAt(t.scopes[c.s].connections[c.i].src, c.j);
    SeenNextElem(root, t, c, leaf, leaf, d);
    var block := t.scopes[c.s].connections[c.i].targets[c.k].block;
    assert Mirrors(root, t, c.s) && KindMirrors(root, t, c.s, block.idx, LeafAt(leaf));
    assert t.homes[leaf].0 == c.s;
    forall f: nat, x: nat | f < |t.leaves|
      ensures WireOk(t.scopes, preserve, t.homes[f].0, Seen(t, next, f, x), WireOf(Pushed(flat, r, leaf, d), f, x))
    {
      SeenNextElem(root, t, c, leaf, f, x);
      assert WireOk(t.scopes, preserve, t.homes[f].0, Seen(t, c, f, x), WireOf(flat, f, x));
      PushedWire(flat, r, leaf, d, f, x);
    }
    NextCycles(root, t, c, saw, leaf, cycled);
  }

  lemma {:induction false} NextCycles(root: Subsystem, t: Tables, c: Cursor, saw: bool, leaf: nat, cycled: bool)
    requires Complete(root, t) && CursorOk(t, c)
    requires LeafTarget(t, c.s, c.i, c.k, leaf) && DrivenOnce(t.scopes[c.s].connections) && t.homes[leaf].0 == c.s
    requires c.j < |ElemsOr0(t.scopes[c.s].connections[c.i].targets[c.k].elems)|
    requires var src := SourceAt(t.scopes[c.s].connections[c.i].src, c.j);
             cycled <==> IndexRevisits(t.scopes, ScopeKey(c.s, src.block, src.elem))
    requires CyclesSoFar(t, c, saw)
    ensures CursorOk(t, c.(j := c.j + 1)) && CyclesSoFar(t, c.(j := c.j + 1), saw || cycled)
  {
    var next := c.(j := c.j + 1);
    var d := ElemsOr0(t.scopes[c.s].connections[c.i].targets[c.k].elems)[c.j];
    SeenNextElem(root, t, c, leaf, leaf, d);
    if saw {
      var f: nat, x: nat :| f < |t.leaves| && Cyclic(t.scopes, t.homes[f].0, Seen(t, c, f, x));
      SeenNextElem(root, t, c, leaf, f, x);
      assert Cyclic(t.scopes, t.homes[f].0, Seen(t, next, f, x));
    } else if cycled {
      assert Cyclic(t.scopes, t.homes[leaf].0, Seen(t, next, leaf, d));
    } else {
      forall f: nat, x: nat | f < |t.leaves| ensures !Cyclic(t.scopes, t.homes[f].0, Seen(t, next, f, x)) {
        SeenNextElem(root, t, c, leaf, f, x);
        assert !Cyclic(t.scopes, t.homes[f].0, Seen(t, c, f, x));
      }
    }
  }

  // ---------------------------------------------------------------------------------------
  // The result, stated on the nested diagram alone
  // ---------------------------------------------------------------------------------------

  /** Interfaces drive every element at most once. */
  ghost predicate OneDriverEach(root: Subsystem) {
    forall p {:trigger IsScope(root, p)} | IsScope(root, p) :: DrivenOnce(ScopeAt(root, p).value.connections)
  }

  predicate IsLeafPath(root: Subsystem, p: Path) {
    p != [] && IsChild(root, p[..|p| - 1], p[|p| - 1]) && ChildAt(root, p[..|p| - 1], p[|p| - 1]).Leaf?
  }

  function BlockAt(root: Subsystem, p: Path): Block
    requires IsLeafPath(root, p)
  {
    ChildAt(root, p[..|p| - 1], p[|p| - 1]).block
  }

  /** What drives element `d` of the leaf at `p`. */
  function LeafDriver(root: Subsystem, p: Path, d: nat): Step
    requires IsLeafPath(root, p)
  {
    Driver(root, p[..|p| - 1], Child(p[|p| - 1]), d)
  }

  /** `wire` names the producer that a stopped trace has found. */
  ghost predicate Produces(places: seq<Path>, preserve: bool, stop: Step, wire: Option<InputSrc>) {
    match stop
    case AtLeaf(p, e) =>
      wire.Some? && wire.value.block.Child? && wire.value.port == 0 && wire.value.elem == e
      && wire.value.block.idx < |places| && places[wire.value.block.idx] == p
    case AtRoot(e) => wire == if preserve then Some(InputSrc(Iface, 0, e)) else None
    case _ => wire == None
  }

  ghost predicate WireTraces(root: Subsystem, places: seq<Path>, preserve: bool, from: Step, wire: Option<InputSrc>) {
    if Revisits(root, from) then wire == None
    else exists m: nat :: !Walk(root, from, m).Goto? && Produces(places, preserve, Walk(root, from, m), wire)
  }

  /** The flat leaves are the leaves of the tree, each once, at `places`; the wire into every leaf
      input element leads straight to the producer its trace finds; a cycle is noticed exactly when
      some trace revisits a key. */
  ghost predicate Flattened(
      root: Subsystem, preserve: bool, places: seq<Path>, leaves: seq<Block>, flat: seq<Connection>, sawCycle: bool)
  {
    && |places| == |leaves| && SourcesKnown(|leaves|, preserve, flat)
    && (forall f {:trigger places[f]} | 0 <= f < |places| ::
          IsLeafPath(root, places[f])
          && ChildAt(root, places[f][..|places[f]| - 1], places[f][|places[f]| - 1]) == Leaf(leaves[f]))
    && (forall f, g | 0 <= f < g < |places| :: places[f] != places[g])
    && (forall p {:trigger IsLeafPath(root, p)} | IsLeafPath(root, p) :: p in places)
    && (forall f: nat, d: nat {:trigger WireOf(flat, f, d)} | f < |places| ::
          WireTraces(root, places, preserve, LeafDriver(root, places[f], d), WireOf(flat, f, d)))
    && (sawCycle <==> exists f: nat, d: nat {:trigger LeafDriver(root, places[f], d)} ::
          f < |places| && Revisits(root, LeafDriver(root, places[f], d)))
  }

  lemma {:induction false} PlaceOk(root: Subsystem, t: Tables, f: nat)
    requires Complete(root, t) && f < |t.leaves|
    ensures t.homes[f].0 < |t.scopes|
    ensures IsLeafPath(root, LeafPath(t, f))
    ensures LeafPath(t, f) == t.paths[t.homes[f].0] + [t.homes[f].1]
    ensures LeafPath(t, f)[..|LeafPath(t, f)| - 1] == t.paths[t.homes[f].0]
    ensures ChildAt(root, t.paths[t.homes[f].0], t.homes[f].1) == Leaf(t.leaves[f])
  {
    var (s, i) := t.homes[f];
    assert HomeOk(t, f) && Mirrors(root, t, s) && KindMirrors(root, t, s, i, LeafAt(f));
    assert LeafPath(t, f)[..|LeafPath(t, f)| - 1] == t.paths[s];
  }

  /** Revisiting on indices is revisiting on paths. */
  lemma {:induction false} RevisitsAgree(root: Subsystem, t: Tables, from: ScopeKey)
    requires Complete(root, t) && WellFormedTree(root) && KeyInRange(t.scopes, from)
    ensures IndexRevisits(t.scopes, from) <==> Revisits(root, Goto(KeyPath(t, from)))
  {
    if IndexRevisits(t.scopes, from) {
      var i: nat, j: nat :| i < j && IndexWalk(t.scopes, from, i).Follow?
        && IndexWalk(t.scopes, from, i) == IndexWalk(t.scopes, from, j);
      WalkAgrees(root, t, from, i);
      WalkAgrees(root, t, from, j);
      assert Walk(root, Goto(KeyPath(t, from)), i).Goto?;
    }
    if Revisits(root, Goto(KeyPath(t, from))) {
      var i: nat, j: nat :| i < j && Walk(root, Goto(KeyPath(t, from)), i).Goto?
        && Walk(root, Goto(KeyPath(t, from)), i) == Walk(root, Goto(KeyPath(t, from)), j);
      WalkAgrees(root, t, from, i);
      WalkAgrees(root, t, from, j);
      KeyPathInjective(root, t, IndexWalk(t.scopes, from, i), IndexWalk(t.scopes, from, j));
      assert IndexWalk(t.scopes, from, i).Follow?;
    }
  }

  lemma {:induction false} PathsDiffer(root: Subsystem, t: Tables, i: nat, j: nat)
    requires Complete(root, t) && i < |t.paths| && j < |t.paths|
    ensures i < j ==> t.paths[i] != t.paths[j]
  {
  }

  lemma {:induction false} KeyPathInjective(root: Subsystem, t: Tables, x: IndexStep, y: IndexStep)
    requires Complete(root, t) && StepInRange(t, x) && StepInRange(t, y)
    requires x.Follow? && StepPath(t, x) == StepPath(t, y)
    ensures x == y
  {
    var i, j := x.key.scope, y.key.scope;
    PathsDiffer(root, t, i, j);
    PathsDiffer(root, t, j, i);
  }

  lemma {:induction false} WireTracesLeaf(
      root: Subsystem, t: Tables, preserve: bool, f: nat, d: nat, wire: Option<InputSrc>)
    requires Complete(root, t) && WellFormedTree(root) && f < |t.leaves| && t.homes[f].0 < |t.scopes|
    requires WireOk(t.scopes, preserve, t.homes[f].0,
                    FirstDriver(t.scopes[t.homes[f].0].connections, Child(t.homes[f].1), None, d), wire)
    ensures IsLeafPath(root, LeafPath(t, f))
    ensures WireTraces(root, Places(t), preserve, LeafDriver(root, LeafPath(t, f), d), wire)
    ensures Cyclic(t.scopes, t.homes[f].0,
                   FirstDriver(t.scopes[t.homes[f].0].connections, Child(t.homes[f].1), None, d)) <==>
            Revisits(root, LeafDriver(root, LeafPath(t, f), d))
  {
    PlaceOk(root, t, f);
    var (s, i) := t.homes[f];
    var drv := FirstDriver(t.scopes[s].connections, Child(i), None, d);
    var from := LeafDriver(root, LeafPath(t, f), d);
    DriverAgrees(root, t, s, Child(i), d);
    if drv == None {
      StopIsFinal(root, from, 0);
      assert !Walk(root, from, 0).Goto? && Produces(Places(t), preserve, Walk(root, from, 0), wire);
    } else {
      var key := ScopeKey(s, drv.value.block, drv.value.elem);
      assert from == Goto(KeyPath(t, key));
      RevisitsAgree(root, t, key);
      if !Revisits(root, from) {
        var m: nat :| !IndexWalk(t.scopes, key, m).Follow? && wire == Reported(preserve, IndexWalk(t.scopes, key, m));
        WalkAgrees(root, t, key, m);
        assert !Walk(root, from, m).Goto? && Produces(Places(t), preserve, Walk(root, from, m), wire);
      }
    }
  }

  ghost function Places(t: Tables): (ps: seq<Path>)
    requires SameLengths(t)
    ensures |ps| == |t.leaves| && forall f | 0 <= f < |ps| :: ps[f] == LeafPath(t, f)
  {
    seq(|t.leaves|, f requires 0 <= f < |t.leaves| => LeafPath(t, f))
  }

  lemma {:induction false} PlacesAreTheLeaves(root: Subsystem, t: Tables)
    requires Complete(root, t)
    ensures forall f, g | 0 <= f < g < |t.leaves| :: Places(t)[f] != Places(t)[g]
    ensures forall p {:trigger IsLeafPath(root, p)} | IsLeafPath(root, p) :: p in Places(t)
  {
    forall f, g | 0 <= f < g < |t.leaves| ensures Places(t)[f] != Places(t)[g] {
      PlaceOk(root, t, f);
      var h := LeafHasIndex(root, t, t.paths[t.homes[f].0], t.homes[f].1);
    }
    forall p | IsLeafPath(root, p) ensures p in Places(t) {
      var f := LeafHasIndex(root, t, p[..|p| - 1], p[|p| - 1]);
      assert Places(t)[f] == p[..|p| - 1] + [p[|p| - 1]] == p;
    }
  }

  lemma {:induction false} EndOfScopes(
      root: Subsystem, t: Tables, preserve: bool, flat: seq<Connection>, saw: bool)
    requires Complete(root, t) && WellFormedTree(root)
    requires Progress(t, preserve, Cursor(|t.scopes|, 0, 0, 0), flat, saw)
    ensures Flattened(root, preserve, Places(t), t.leaves, flat, saw)
  {
    var c := Cursor(|t.scopes|, 0, 0, 0);
    var places := Places(t);
    PlacesAreTheLeaves(root, t);
    forall f | 0 <= f < |places|
      ensures IsLeafPath(root, places[f])
              && ChildAt(root, places[f][..|places[f]| - 1], places[f][|places[f]| - 1]) == Leaf(t.leaves[f])
    {
      PlaceOk(root, t, f);
    }
    forall f: nat, d: nat | f < |places|
      ensures WireTraces(root, places, preserve, LeafDriver(root, places[f], d), WireOf(flat, f, d))
      ensures Cyclic(t.scopes, t.homes[f].0, Seen(t, c, f, d)) <==> Revisits(root, LeafDriver(root, places[f], d))
    {
      PlaceOk(root, t, f);
      WireTracesLeaf(root, t, preserve, f, d, WireOf(flat, f, d));
    }
    if saw {
      var f: nat, d: nat :| f < |t.leaves| && Cyclic(t.scopes, t.homes[f].0, Seen(t, c, f, d));
      assert Revisits(root, LeafDriver(root, places[f], d));
    }
    if exists f: nat, d: nat :: f < |places| && Revisits(root, LeafDriver(root, places[f], d)) {
      var f: nat, d: nat :| f < |places| && Revisits(root, LeafDriver(root, places[f], d));
      assert Cyclic(t.scopes, t.homes[f].0, Seen(t, c, f, d));
    }
  }

  /** The producer behind one source element, traced afresh. */
  method TraceSource(fl: Flattener, key: ScopeKey) returns (r: Option<InputSrc>, ghost cycled: bool)
    requires ScopesInRange(fl.scopes) && KeyInRange(fl.scopes, key) && fl.visiting == {}
    modifies fl
    ensures fl.visiting == {} && fl.sawCycle == (old(fl.sawCycle) || cycled)
    ensures Reports(fl.scopes, fl.preserveRootIface, key, r) && (cycled <==> IndexRevisits(fl.scopes, key))
    ensures r.Some? ==> r.value.port == 0
  {
    var e: Option<Endpoint>;
    e, cycled := fl.Trace(key);
    r := match e case Some(p) => Some(InputSrc(p.block, 0, p.elem)) case None => None;
    if !cycled {
      ghost var m: nat :| !IndexWalk(fl.scopes, key, m).Follow? && e == fl.Report(IndexWalk(fl.scopes, key, m));
      assert r == Reported(fl.preserveRootIface, IndexWalk(fl.scopes, key, m));
    }
  }

  lemma {:induction false} SourceInRange(root: Subsystem, t: Tables, s: nat, i: nat, elem: nat)
    requires Complete(root, t) && WellFormedTree(root) && s < |t.scopes| && i < |t.scopes[s].connections|
    ensures KeyInRange(t.scopes, ScopeKey(s, t.scopes[s].connections[i].src.block, elem))
    ensures forall k | 0 <= k < |t.scopes[s].connections[i].targets| ::
      var b := t.scopes[s].connections[i].targets[k].block; b.Child? ==> b.idx < |t.scopes[s].children|
    ensures forall b | 0 <= b < |t.scopes[s].children| && t.scopes[s].children[b].LeafAt? ::
      t.scopes[s].children[b].flat < |t.leaves|
  {
    assert Mirrors(root, t, s) && IsScope(root, t.paths[s]);
    var sub := ScopeAt(root, t.paths[s]).value;
    assert RefsInRange(sub) && t.scopes[s].connections[i] in sub.connections;
    forall b | 0 <= b < |t.scopes[s].children| && t.scopes[s].children[b].LeafAt?
      ensures t.scopes[s].children[b].flat < |t.leaves|
    {
      assert KindMirrors(root, t, s, b, t.scopes[s].children[b]);
    }
  }

  lemma {:induction false} ScopeDrivenOnce(root: Subsystem, t: Tables, s: nat)
    requires Complete(root, t) && OneDriverEach(root) && s < |t.scopes|
    ensures DrivenOnce(t.scopes[s].connections)
  {
    assert Mirrors(root, t, s) && IsScope(root, t.paths[s]);
  }

  lemma {:induction false} ReportIsKnown(root: Subsystem, t: Tables, preserve: bool, key: ScopeKey, r: Option<InputSrc>)
    requires Complete(root, t) && WellFormedTree(root) && KeyInRange(t.scopes, key)
    requires Reports(t.scopes, preserve, key, r) && r.Some?
    ensures SourceKnown(|t.leaves|, preserve, r.value.block)
  {
    var m: nat :| !IndexWalk(t.scopes, key, m).Follow? && r == Reported(preserve, IndexWalk(t.scopes, key, m));
    WalkAgrees(root, t, key, m);
  }

  /** Traces the source paired with element `j` of a target of connection `i` of scope `s`. */
  method TraceElem(fl: Flattener, s: nat, i: nat, j: nat, ghost root: Subsystem, ghost t: Tables)
    returns (r: Option<InputSrc>, ghost cycled: bool)
    requires Complete(root, t) && WellFormedTree(root) && fl.scopes == t.scopes && fl.visiting == {}
    requires s < |t.scopes| && i < |t.scopes[s].connections|
    modifies fl
    ensures fl.visiting == {} && fl.sawCycle == (old(fl.sawCycle) || cycled)
    ensures var src := SourceAt(t.scopes[s].connections[i].src, j);
            var key := ScopeKey(s, src.block, src.elem);
            Reports(t.scopes, fl.preserveRootIface, key, r) && (cycled <==> IndexRevisits(t.scopes, key))
    ensures r.Some? ==> r.value.port == 0 && SourceKnown(|t.leaves|, fl.preserveRootIface, r.value.block)
  {
    var src := SourceAt(fl.scopes[s].connections[i].src, j);
    CompleteIsInRange(root, t);
    SourceInRange(root, t, s, i, src.elem);
    r, cycled := TraceSource(fl, ScopeKey(s, src.block, src.elem));
    if r.Some? {
      ReportIsKnown(root, t, fl.preserveRootIface, ScopeKey(s, src.block, src.elem), r);
    }
  }

  /** The wire of one element of a leaf target. */
  method EmitElem(fl: Flattener, s: nat, i: nat, k: nat, j: nat, leaf: nat, connections: seq<Connection>,
                  ghost root: Subsystem, ghost t: Tables)
    returns (flat: seq<Connection>)
    requires Complete(root, t) && WellFormedTree(root) && OneDriverEach(root) && fl.scopes == t.scopes
    requires fl.visiting == {} && LeafTarget(t, s, i, k, leaf)
    requires j < |ElemsOr0(t.scopes[s].connections[i].targets[k].elems)|
    requires Progress(t, fl.preserveRootIface, Cursor(s, i, k, j), connections, fl.sawCycle)
    modifies fl
    ensures fl.visiting == {}
    ensures Progress(t, fl.preserveRootIface, Cursor(s, i, k, j + 1), flat, fl.sawCycle)
  {
    ghost var saw := fl.sawCycle;
    var r, cycled := TraceElem(fl, s, i, j, root, t);
    ScopeDrivenOnce(root, t, s);
    NextElem(root, t, fl.preserveRootIface, Cursor(s, i, k, j), Cursor(s, i, k, j + 1), connections, saw, fl.sawCycle,
             leaf, r, cycled);
    flat := Pushed(connections, r, leaf, ElemsOr0(fl.scopes[s].connections[i].targets[k].elems)[j]);
  }

  /** The wires of one leaf target, one per element. */
  method EmitTarget(fl: Flattener, s: nat, i: nat, k: nat, leaf: nat, connections: seq<Connection>,
                    ghost root: Subsystem, ghost t: Tables)
    returns (flat: seq<Connection>)
    requires Complete(root, t) && WellFormedTree(root) && OneDriverEach(root) && fl.scopes == t.scopes
    requires fl.visiting == {} && LeafTarget(t, s, i, k, leaf)
    requires Progress(t, fl.preserveRootIface, Cursor(s, i, k, 0), connections, fl.sawCycle)
    modifies fl
    ensures fl.visiting == {}
    ensures Progress(t, fl.preserveRootIface, Cursor(s, i, k + 1, 0), flat, fl.sawCycle)
  {
    flat := connections;
    var n := |ElemsOr0(fl.scopes[s].connections[i].targets[k].elems)|;
    for j := 0 to n
      invariant fl.visiting == {}
      invariant Progress(t, fl.preserveRootIface, Cursor(s, i, k, j), flat, fl.sawCycle)
    {
      flat := EmitElem(fl, s, i, k, j, leaf, flat, root, t);
    }
    NextTarget(t, fl.preserveRootIface, Cursor(s, i, k, n), Cursor(s, i, k + 1, 0), flat, fl.sawCycle);
  }

  /** The wires of one target of one connection; interface and subsystem targets are relays. */
  method EmitAnyTarget(fl: Flattener, s: nat, i: nat, k: nat, connections: seq<Connection>,
                       ghost root: Subsystem, ghost t: Tables)
    returns (flat: seq<Connection>)
    requires Complete(root, t) && WellFormedTree(root) && OneDriverEach(root) && fl.scopes == t.scopes
    requires fl.visiting == {} && s < |t.scopes|
    requires i < |t.scopes[s].connections| && k < |t.scopes[s].connections[i].targets|
    requires Progress(t, fl.preserveRootIface, Cursor(s, i, k, 0), connections, fl.sawCycle)
    modifies fl
    ensures fl.visiting == {}
    ensures Progress(t, fl.preserveRootIface, Cursor(s, i, k + 1, 0), flat, fl.sawCycle)
  {
    SourceInRange(root, t, s, i, 0);
    var tgt := fl.scopes[s].connections[i].targets[k];
    if tgt.block.Child? && fl.scopes[s].children[tgt.block.idx].LeafAt? {
      flat := EmitTarget(fl, s, i, k, fl.scopes[s].children[tgt.block.idx].flat, connections, root, t);
    } else {
      flat := connections;
      SkipTarget(root, t, fl.preserveRootIface, Cursor(s, i, k, 0), flat, fl.sawCycle);
    }
  }

  /** The wires of one connection, target by target. */
  method EmitConnection(fl: Flattener, s: nat, i: nat, connections: seq<Connection>,
                        ghost root: Subsystem, ghost t: Tables)
    returns (flat: seq<Connection>)
    requires Complete(root, t) && WellFormedTree(root) && OneDriverEach(root) && fl.scopes == t.scopes
    requires fl.visiting == {} && s < |t.scopes| && i < |t.scopes[s].connections|
    requires Progress(t, fl.preserveRootIface, Cursor(s, i, 0, 0), connections, fl.sawCycle)
    modifies fl
    ensures fl.visiting == {}
    ensures Progress(t, fl.preserveRootIface, Cursor(s, i + 1, 0, 0), flat, fl.sawCycle)
  {
    flat := connections;
    var n := |fl.scopes[s].connections[i].targets|;
    for k := 0 to n
      invariant fl.visiting == {}
      invariant Progress(t, fl.preserveRootIface, Cursor(s, i, k, 0), flat, fl.sawCycle)
    {
      flat := EmitAnyTarget(fl, s, i, k, flat, root, t);
    }
    NextConnection(t, fl.preserveRootIface, Cursor(s, i, n, 0), flat, fl.sawCycle);
  }

  /** The wires of one scope, connection by connection. */
  method EmitScope(fl: Flattener, s: nat, connections: seq<Connection>, ghost root: Subsystem, ghost t: Tables)
    returns (flat: seq<Connection>)
    requires Complete(root, t) && WellFormedTree(root) && OneDriverEach(root) && fl.scopes == t.scopes
    requires fl.visiting == {} && s < |t.scopes|
    requires Progress(t, fl.preserveRootIface, Cursor(s, 0, 0, 0), connections, fl.sawCycle)
    modifies fl
    ensures fl.visiting == {}
    ensures Progress(t, fl.preserveRootIface, Cursor(s + 1, 0, 0, 0), flat, fl.sawCycle)
  {
    flat := connections;
    var n := |fl.scopes[s].connections|;
    for i := 0 to n
      invariant fl.visiting == {}
      invariant Progress(t, fl.preserveRootIface, Cursor(s, i, 0, 0), flat, fl.sawCycle)
    {
      flat := EmitConnection(fl, s, i, flat, root, t);
    }
    NextScope(t, fl.preserveRootIface, Cursor(s, n, 0, 0), flat, fl.sawCycle);
  }

  /** `flatten_scopes`: one direct wire per driven leaf input element. */
  method FlattenScopes(sub: Subsystem, preserveRootIface: bool)
    returns (leaves: seq<Block>, flat: seq<Connection>, sawCycle: bool, ghost places: seq<Path>)
    requires WellFormedTree(sub) && OneDriverEach(sub)
    ensures Flattened(sub, preserveRootIface, places, leaves, flat, sawCycle)
    ensures sawCycle <==> SomeTraceRevisits(sub)
    ensures DepthFirst(places)
  {
    var builder := new ScopeBuilder(sub);
    var top := builder.BuildScopes(sub, None, []);
    ghost var t := builder.State();
    RootIsComplete(sub, t);
    PlacesAreInOrder(t);
    leaves := builder.leaves;
    var fl := new Flattener(builder.scopes, preserveRootIface);
    flat := [];
    StartOfScopes(t, preserveRootIface);
    for s := 0 to |fl.scopes|
      invariant fl.visiting == {}
      invariant Progress(t, preserveRootIface, Cursor(s, 0, 0, 0), flat, fl.sawCycle)
    {
      flat := EmitScope(fl, s, flat, sub, t);
    }
    sawCycle := fl.sawCycle;
    places := Places(t);
    EndOfScopes(sub, t, preserveRootIface, flat, sawCycle);
    CycleIsATrace(sub, preserveRootIface, places, leaves, flat, sawCycle);
  }

  /** In the order of a depth-first walk. */
  ghost predicate DepthFirst(places: seq<Path>) {
    forall f, g | 0 <= f < g < |places| :: Precedes(places[f], places[g])
  }

  lemma {:induction false} PlacesAreInOrder(t: Tables)
    requires SameLengths(t) && OrderAdded(Tables([], [], [], []), t, [])
    ensures DepthFirst(Places(t))
  {
  }

  /** The trace of some leaf input element comes back to a key. */
  ghost predicate SomeTraceRevisits(root: Subsystem) {
    exists p: Path, d: nat {:trigger LeafDriver(root, p, d)} ::
      IsLeafPath(root, p) && Revisits(root, LeafDriver(root, p, d))
  }

  lemma {:induction false} CycleIsATrace(
      root: Subsystem, preserve: bool, places: seq<Path>, leaves: seq<Block>, flat: seq<Connection>, saw: bool)
    requires Flattened(root, preserve, places, leaves, flat, saw)
    ensures saw <==> SomeTraceRevisits(root)
  {
    if p: Path, d: nat :| IsLeafPath(root, p) && Revisits(root, LeafDriver(root, p, d)) {
      var f: nat :| f < |places| && places[f] == p;
      assert Revisits(root, LeafDriver(root, places[f], d));
    }
  }

  // ---------------------------------------------------------------------------------------
  // Meaning
  // ---------------------------------------------------------------------------------------

  /** The value at the far end of a flat wire. */
  function WireValue(sig: Signals, external: nat -> real, places: seq<Path>, wire: Option<InputSrc>): real {
    match wire
    case None => 0.0
    case Some(InputSrc(Iface, _, e)) => external(e)
    case Some(InputSrc(Child(g), _, e)) => if g < |places| then sig.output(places[g], e) else 0.0
  }

  /** Flattening preserves meaning: in every solution of the hierarchical relay equations, each
      leaf input element carries the value at the far end of its flat wire. */
  lemma {:induction false} FlatWiresCarryTheValues(
      root: Subsystem, preserve: bool, places: seq<Path>, leaves: seq<Block>, flat: seq<Connection>,
      sig: Signals, external: nat -> real, f: nat, d: nat)
    requires WellFormedTree(root) && Flattened(root, preserve, places, leaves, flat, false)
    requires Relays(root, sig, external) && (!preserve ==> forall e: nat :: external(e) == 0.0)
    requires f < |places|
    ensures sig.input(places[f], d) == WireValue(sig, external, places, WireOf(flat, f, d))
  {
    var p := places[f];
    var scope, i := p[..|p| - 1], p[|p| - 1];
    var from := LeafDriver(root, p, d);
    assert scope + [i] == p;
    assert sig.input(scope + [i], d) == DriverValue(root, sig, scope, Child(i), d);
    assert WireTraces(root, places, preserve, from, WireOf(flat, f, d));
    assert !Revisits(root, from);
    var m: nat :| !Walk(root, from, m).Goto? && Produces(places, preserve, Walk(root, from, m), WireOf(flat, f, d));
    DriverIsValid(root, scope, Child(i), d);
    WalkKeepsValue(root, sig, external, from, m);
  }
}

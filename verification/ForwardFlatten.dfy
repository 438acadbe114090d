/** The forward splicer (`flatten_scope`, `resolve_src` and `resolve_target` in
    `src/codegen/system.rs`): subsystems are inlined bottom up, each handing its parent the leaf
    elements behind its interface. */
module ForwardFlatten {
  import opened Wrappers
  import opened Ir
  import opened Wiring
  import opened Hierarchy
  import opened Flatten
  import opened FlatWires
  import opened LeafWires

  /** How a child resolves: a leaf, or the leaf elements behind a subsystem's interface elements. */
  datatype ChildRef = LeafRef(flat: nat) | SubRef(inTargets: seq<seq<ElemRef>>, outSrc: seq<Option<ElemRef>>)

  datatype ForwardError = LoopInScope | UnknownBlock | PortOutOfRange | ElementOutOfRange | OutputNotDriven
    | PassThrough

  /** Flat element indices addressed over ports of these sizes; `None` means the whole port. */
  function AddressedElems(sizes: seq<nat>, port: nat, elems: Option<seq<nat>>): (r: Result<seq<nat>, ForwardError>)
    ensures r.Ok? <==> port < |sizes|
    ensures port == 0 && r.Ok? && elems.Some? ==> r.value == elems.value
  {
    if port >= |sizes| then Err(PortOutOfRange)
    else
      var base := SizeSum(sizes, port);
      var sel := match elems case Some(es) => es case None => seq(sizes[port], e => e);
      var addressed: seq<nat> := seq(|sel|, i requires 0 <= i < |sel| => base + sel[i]);
      assert port == 0 && elems.Some? ==> addressed == elems.value;
      Ok(addressed)
  }

  /** A port without an element list is addressed as a whole, one with a list element by element, behind the ports
      before it; only a port that does not exist is refused. */
  lemma {:induction false} AddressedAre(sizes: seq<nat>, port: nat, elems: Option<seq<nat>>)
    ensures var r := AddressedElems(sizes, port, elems);
            && (r.Err? <==> port >= |sizes|)
            && (r.Ok? && elems.None? ==>
                  |r.value| == sizes[port] && forall k | 0 <= k < sizes[port] :: r.value[k] == SizeSum(sizes, port) + k)
            && (r.Ok? && elems.Some? ==>
                  |r.value| == |elems.value|
                  && forall k | 0 <= k < |elems.value| :: r.value[k] == SizeSum(sizes, port) + elems.value[k])
  {
  }

  // ---------------------------------------------------------------------------------------
  // What the accumulated lists stand for
  // ---------------------------------------------------------------------------------------

  /** Every emitted block is a leaf of the tree, and none is emitted twice. */
  ghost predicate Known(root: Subsystem, places: seq<Path>, blocks: seq<Block>) {
    && |places| == |blocks|
    && (forall f {:trigger places[f]} | 0 <= f < |places| ::
          IsLeafPath(root, places[f]) && BlockAt(root, places[f]) == blocks[f])
    && (forall f, g | 0 <= f < g < |places| :: places[f] != places[g])
  }

  ghost predicate Untouched(path: Path, places: seq<Path>) {
    forall f {:trigger places[f]} | 0 <= f < |places| :: !(path <= places[f])
  }

  /** Every leaf below `path` has been emitted. */
  ghost predicate Covered(root: Subsystem, path: Path, places: seq<Path>) {
    forall p {:trigger IsLeafPath(root, p)} | IsLeafPath(root, p) && path <= p :: p in places
  }

  /** The interface element of scope `p[..n]` that feeds element `d` of the leaf at `p`, if one does. */
  function Exit(root: Subsystem, p: Path, d: nat, n: nat): Option<nat>
    requires n < |p|
  {
    match Entry(root, p, d, n)
    case None => None
    case Some(x) => FromInterface(SourceIn(root, p[..n], Child(p[n]), x))
  }

  /** `r` is the leaf output behind output `elem` of child `j` of the scope at `path`. */
  ghost predicate SrcOk(root: Subsystem, path: Path, places: seq<Path>, j: nat, elem: nat, r: ElemRef) {
    && IsChild(root, path, j) && r.block < |places|
    && Down(root, path, j, elem) == Some(LeafElem(places[r.block], r.elem))
  }

  /** `rs` are the leaf inputs fed by input `elem` of child `j` of the scope at `path`. */
  ghost predicate DstOk(root: Subsystem, path: Path, places: seq<Path>, j: nat, elem: nat, rs: seq<ElemRef>) {
    forall f: nat, d: nat {:trigger ElemRef(f, d)} ::
      ElemRef(f, d) in rs <==>
      f < |places| && path + [j] <= places[f] && Entry(root, places[f], d, |path|) == Some(elem)
  }

  ghost predicate OutOk(root: Subsystem, path: Path, places: seq<Path>, oe: nat, out: Option<ElemRef>) {
    match SourceIn(root, path, Iface, oe)
    case None => out == None
    case Some(src) => src.block.Child? && out.Some? && SrcOk(root, path, places, src.block.idx, src.elem, out.value)
  }

  ghost predicate InOk(root: Subsystem, path: Path, places: seq<Path>, ie: nat, rs: seq<ElemRef>) {
    forall f: nat, d: nat {:trigger ElemRef(f, d)} ::
      ElemRef(f, d) in rs <==>
      f < |places| && path < places[f] && Exit(root, places[f], d, |path|) == Some(ie)
  }

  ghost predicate InsOk(root: Subsystem, path: Path, places: seq<Path>, ins: seq<seq<ElemRef>>) {
    forall ie {:trigger ins[ie]} | 0 <= ie < |ins| :: InOk(root, path, places, ie, ins[ie])
  }

  ghost predicate OutsOk(root: Subsystem, path: Path, places: seq<Path>, outs: seq<Option<ElemRef>>) {
    forall oe {:trigger outs[oe]} | 0 <= oe < |outs| :: OutOk(root, path, places, oe, outs[oe])
  }

  /** The reference of child `i` of the scope at `path`. */
  ghost predicate RefOk(root: Subsystem, path: Path, places: seq<Path>, i: nat, ref: ChildRef) {
    && IsChild(root, path, i)
    && match ref
       case LeafRef(f) => ChildAt(root, path, i).Leaf? && f < |places| && places[f] == path + [i]
       case SubRef(ins, outs) =>
         ChildAt(root, path, i).Sub?
         && InsOk(root, path + [i], places, ins) && OutsOk(root, path + [i], places, outs)
  }

  function WireTo(g: nat, e: nat, f: nat, d: nat): FlatWire { FlatWire(ElemRef(g, e), ElemRef(f, d)) }

  /** The wires into leaves below `path` are those that a scope from depth `n` inwards makes. */
  ghost predicate WiresOk(root: Subsystem, path: Path, n: nat, places: seq<Path>, wires: seq<FlatWire>) {
    forall f: nat, d: nat, g: nat, e: nat {:trigger WireTo(g, e, f, d)} | f < |places| && path < places[f] ::
      WireTo(g, e, f, d) in wires <==>
      g < |places| && n < |places[f]| && Wired(root, places[f], d, n, LeafElem(places[g], e))
  }

  /** Nothing changed for leaves emitted before. */
  ghost predicate OldWiresKept(count: nat, wires: seq<FlatWire>, more: seq<FlatWire>) {
    forall f: nat, d: nat, g: nat, e: nat {:trigger WireTo(g, e, f, d)} | f < count ::
      WireTo(g, e, f, d) in wires <==> WireTo(g, e, f, d) in more
  }

  /** No scope from `path` inwards passes an interface input straight to an interface output. */
  ghost predicate PassFree(root: Subsystem, path: Path) {
    forall s: Path, e: nat {:trigger SourceIn(root, s, Iface, e)} |
      path <= s && SourceIn(root, s, Iface, e).Some? :: SourceIn(root, s, Iface, e).value.block.Child?
  }

  // ---------------------------------------------------------------------------------------
  // Emitting more leaves elsewhere changes nothing
  // ---------------------------------------------------------------------------------------

  /** `more` adds only leaves that are not below `path`. */
  ghost predicate Elsewhere(path: Path, places: seq<Path>, more: seq<Path>) {
    places <= more && forall f {:trigger more[f]} | |places| <= f < |more| :: !(path <= more[f])
  }

  lemma {:induction false} InsStay(
      root: Subsystem, path: Path, places: seq<Path>, more: seq<Path>, ins: seq<seq<ElemRef>>)
    requires InsOk(root, path, places, ins) && Elsewhere(path, places, more)
    ensures InsOk(root, path, more, ins)
  {
    forall ie | 0 <= ie < |ins| ensures InOk(root, path, more, ie, ins[ie]) {
      assert InOk(root, path, places, ie, ins[ie]);
      forall f: nat, d: nat
        ensures ElemRef(f, d) in ins[ie] <==>
                f < |more| && path < more[f] && Exit(root, more[f], d, |path|) == Some(ie)
      {
        if |places| <= f < |more| { assert !(path <= more[f]); }
      }
    }
  }

  lemma {:induction false} OutsStay(
      root: Subsystem, path: Path, places: seq<Path>, more: seq<Path>, outs: seq<Option<ElemRef>>)
    requires OutsOk(root, path, places, outs) && places <= more
    ensures OutsOk(root, path, more, outs)
  {
    forall oe | 0 <= oe < |outs| ensures OutOk(root, path, more, oe, outs[oe]) {
      assert OutOk(root, path, places, oe, outs[oe]);
    }
  }

  lemma {:induction false} RefStays(
      root: Subsystem, path: Path, places: seq<Path>, more: seq<Path>, i: nat, ref: ChildRef)
    requires RefOk(root, path, places, i, ref) && Elsewhere(path + [i], places, more)
    ensures RefOk(root, path, more, i, ref)
  {
    match ref
    case LeafRef(_) =>
    case SubRef(ins, outs) =>
      InsStay(root, path + [i], places, more, ins);
      OutsStay(root, path + [i], places, more, outs);
  }

  // ---------------------------------------------------------------------------------------
  // Emitting the children of a scope
  // ---------------------------------------------------------------------------------------

  /** Wires join emitted leaves. */
  ghost predicate Bounded(count: nat, wires: seq<FlatWire>) {
    forall w {:trigger w in wires} | w in wires :: w.src.block < count && w.dst.block < count
  }

  /** The scope at `path` is finished. */
  ghost predicate ScopeDone(
      root: Subsystem, path: Path, before: seq<Path>, wiresBefore: seq<FlatWire>,
      places: seq<Path>, blocks: seq<Block>, wires: seq<FlatWire>, ins: seq<seq<ElemRef>>, outs: seq<Option<ElemRef>>)
  {
    && Known(root, places, blocks) && Bounded(|places|, wires) && before <= places
    && (forall f {:trigger places[f]} | |before| <= f < |places| :: path < places[f])
    && InsOk(root, path, places, ins) && OutsOk(root, path, places, outs)
    && Covered(root, path, places) && PassFree(root, path)
    && WiresOk(root, path, |path|, places, wires) && OldWiresKept(|before|, wiresBefore, wires)
  }

  /** Child `i` is emitted and resolved. */
  ghost predicate ChildDone(root: Subsystem, path: Path, places: seq<Path>, i: nat, ref: ChildRef) {
    && RefOk(root, path, places, i, ref) && Covered(root, path + [i], places) && PassFree(root, path + [i])
  }

  /** Some children of the scope at `path` have been emitted, the others not at all. */
  ghost predicate Emitting(
      root: Subsystem, path: Path, before: seq<Path>, wiresBefore: seq<FlatWire>,
      places: seq<Path>, blocks: seq<Block>, wires: seq<FlatWire>, refs: seq<Option<ChildRef>>)
  {
    && Known(root, places, blocks) && Bounded(|places|, wires) && before <= places
    && (forall f {:trigger places[f]} | |before| <= f < |places| ::
          path < places[f] && places[f][|path|] < |refs| && refs[places[f][|path|]].Some?)
    && (forall i {:trigger refs[i]} | 0 <= i < |refs| && refs[i].Some? ::
         ChildDone(root, path, places, i, refs[i].value))
    && WiresOk(root, path, |path| + 1, places, wires) && OldWiresKept(|before|, wiresBefore, wires)
  }

  lemma {:induction false} DownIsBelow(root: Subsystem, s: Path, j: nat, elem: nat)
    requires IsChild(root, s, j) && Down(root, s, j, elem).Some?
    ensures s + [j] <= Down(root, s, j, elem).value.path
    decreases ChildAt(root, s, j)
  {
    if ChildAt(root, s, j).Sub? {
      SubScope(root, s, j);
      var src := FirstDriver(ChildAt(root, s, j).sub.connections, Iface, None, elem).value;
      DownIsBelow(root, s + [j], src.block.idx, src.elem);
    }
  }

  /** The wires a scope makes stay inside it. */
  lemma {:induction false} WiredIsBelow(root: Subsystem, p: Path, d: nat, n: nat, src: LeafElem)
    requires n < |p| && Wired(root, p, d, n, src)
    ensures p[..n] <= src.path
    decreases |p| - n
  {
    if WiredAt(root, p, d, n, src) {
      var s := SourceIn(root, p[..n], Child(p[n]), Entry(root, p, d, n).value).value;
      DownIsBelow(root, p[..n], s.block.idx, s.elem);
    } else {
      WiredIsBelow(root, p, d, n + 1, src);
      assert p[..n] <= p[..n + 1];
    }
  }

  lemma {:induction false} NextIndex(path: Path, i: nat, p: Path)
    requires path < p
    ensures path + [i] <= p <==> p[|path|] == i
    ensures p[..|path| + 1] == path + [p[|path|]] && p[..|path|] == path
  {
    if p[|path|] == i {
      assert p[..|path| + 1] == path + [i];
    }
  }

  /** A leaf below one child is not wired, from that child inwards, to a leaf below another. */
  lemma {:induction false} NotAcross(root: Subsystem, path: Path, p: Path, d: nat, q: Path, e: nat)
    requires path < p && path < q && p[|path|] != q[|path|] && |path| + 1 < |p|
    ensures !Wired(root, p, d, |path| + 1, LeafElem(q, e))
  {
    if Wired(root, p, d, |path| + 1, LeafElem(q, e)) {
      WiredIsBelow(root, p, d, |path| + 1, LeafElem(q, e));
      NextIndex(path, p[|path|], p);
      NextIndex(path, p[|path|], q);
    }
  }

  lemma {:induction false} NoChildrenYet(
      root: Subsystem, path: Path, places: seq<Path>, blocks: seq<Block>, wires: seq<FlatWire>, n: nat)
    requires Known(root, places, blocks) && Bounded(|places|, wires) && Untouched(path, places)
    ensures Emitting(root, path, places, wires, places, blocks, wires, seq(n, _ => None))
  {
  }

  lemma {:induction false} OthersStay(
      root: Subsystem, path: Path, places: seq<Path>, more: seq<Path>, refs: seq<Option<ChildRef>>, i: nat, j: nat)
    requires places <= more && i != j && j < |refs| && refs[j].Some?
    requires ChildDone(root, path, places, j, refs[j].value)
    requires forall f {:trigger more[f]} | |places| <= f < |more| :: path + [i] <= more[f]
    ensures ChildDone(root, path, more, j, refs[j].value)
  {
    forall f | |places| <= f < |more| ensures !(path + [j] <= more[f]) {
      assert path + [i] <= more[f];
      NextIndex(path, i, more[f]);
      NextIndex(path, j, more[f]);
    }
    RefStays(root, path, places, more, j, refs[j].value);
  }

  lemma {:induction false} AllOthersStay(
      root: Subsystem, path: Path, places: seq<Path>, more: seq<Path>, refs: seq<Option<ChildRef>>, i: nat)
    requires places <= more
    requires forall j {:trigger refs[j]} | 0 <= j < |refs| && refs[j].Some? ::
      ChildDone(root, path, places, j, refs[j].value)
    requires forall f {:trigger more[f]} | |places| <= f < |more| :: path + [i] <= more[f]
    ensures forall j {:trigger refs[j]} | 0 <= j < |refs| && j != i && refs[j].Some? ::
      ChildDone(root, path, more, j, refs[j].value)
  {
    forall j | 0 <= j < |refs| && j != i && refs[j].Some? ensures ChildDone(root, path, more, j, refs[j].value) {
      OthersStay(root, path, places, more, refs, i, j);
    }
  }

  lemma {:induction false} EmitLeaf(
      root: Subsystem, path: Path, before: seq<Path>, wiresBefore: seq<FlatWire>,
      places: seq<Path>, blocks: seq<Block>, wires: seq<FlatWire>, refs: seq<Option<ChildRef>>, i: nat, block: Block)
    requires Emitting(root, path, before, wiresBefore, places, blocks, wires, refs)
    requires Untouched(path, before) && i < |refs| && refs[i].None?
    requires IsChild(root, path, i) && ChildAt(root, path, i) == Leaf(block)
    ensures Emitting(root, path, before, wiresBefore, places + [path + [i]], blocks + [block], wires,
                     refs[i := Some(LeafRef(|places|))])
  {
    var p := path + [i];
    var more := places + [p];
    assert p[..|path|] == path && IsLeafPath(root, p);
    NewLeafIsNew(root, path, before, places, refs, i);
    AllOthersStay(root, path, places, more, refs, i);
    LeafChildDone(root, path, more, i, |places|);
    EmitLeafWires(root, path, places, wires, i);
  }

  lemma {:induction false} EmitLeafWires(root: Subsystem, path: Path, places: seq<Path>, wires: seq<FlatWire>, i: nat)
    requires WiresOk(root, path, |path| + 1, places, wires) && Bounded(|places|, wires)
    requires forall f | 0 <= f < |places| :: !(path + [i] <= places[f])
    ensures WiresOk(root, path, |path| + 1, places + [path + [i]], wires)
  {
    var more := places + [path + [i]];
    forall f: nat, d: nat, g: nat, e: nat | f < |more| && path < more[f]
      ensures WireTo(g, e, f, d) in wires <==>
              g < |more| && |path| + 1 < |more[f]| && Wired(root, more[f], d, |path| + 1, LeafElem(more[g], e))
    {
      if f < |places| {
        assert more[f] == places[f];
        if g == |places| && |path| + 1 < |more[f]| {
          NextIndex(path, i, more[f]);
          NotAcross(root, path, more[f], d, path + [i], e);
        }
      }
    }
  }

  lemma {:induction false} NewLeafIsNew(
      root: Subsystem, path: Path, before: seq<Path>, places: seq<Path>, refs: seq<Option<ChildRef>>, i: nat)
    requires before <= places && Untouched(path, before) && i < |refs| && refs[i].None?
    requires forall f {:trigger places[f]} | |before| <= f < |places| ::
      path < places[f] && places[f][|path|] < |refs| && refs[places[f][|path|]].Some?
    ensures forall f | 0 <= f < |places| :: !(path + [i] <= places[f])
  {
    forall f | 0 <= f < |places| ensures !(path + [i] <= places[f]) {
      if f < |before| {
        assert before[f] == places[f];
        assert path <= path + [i];
      } else {
        NextIndex(path, i, places[f]);
      }
    }
  }

  lemma {:induction false} NothingBelowLeaf(root: Subsystem, path: Path, i: nat, s: Path)
    requires IsChild(root, path, i) && ChildAt(root, path, i).Leaf? && path + [i] <= s
    ensures !IsScope(root, s) && (IsLeafPath(root, s) ==> s == path + [i])
  {
    var p := path + [i];
    assert p[..|path|] == path && s[..|p|] == p;
    if IsScope(root, s) {
      PrefixScope(root, s, |p|);
    }
    if IsLeafPath(root, s) && s != p {
      LeafScopes(root, s, |p|);
    }
  }

  lemma {:induction false} LeafChildDone(root: Subsystem, path: Path, places: seq<Path>, i: nat, f: nat)
    requires IsChild(root, path, i) && ChildAt(root, path, i).Leaf? && f < |places| && places[f] == path + [i]
    ensures ChildDone(root, path, places, i, LeafRef(f))
  {
    forall q | IsLeafPath(root, q) && path + [i] <= q ensures q in places {
      NothingBelowLeaf(root, path, i, q);
    }
    forall s: Path, e: nat | path + [i] <= s ensures SourceIn(root, s, Iface, e).None? {
      NothingBelowLeaf(root, path, i, s);
    }
  }

  lemma {:induction false} PrefixScope(root: Subsystem, s: Path, n: nat)
    requires IsScope(root, s) && n <= |s|
    ensures IsScope(root, s[..n])
    decreases |s| - n
  {
    if n < |s| {
      PrefixScope(root, s, n + 1);
      assert s[..n + 1][..n] == s[..n];
    } else {
      assert s[..n] == s;
    }
  }

  lemma {:induction false} EmitSub(
      root: Subsystem, path: Path, before: seq<Path>, wiresBefore: seq<FlatWire>,
      places: seq<Path>, wires: seq<FlatWire>, refs: seq<Option<ChildRef>>, i: nat,
      more: seq<Path>, blocks: seq<Block>, wires1: seq<FlatWire>, ins: seq<seq<ElemRef>>, outs: seq<Option<ElemRef>>,
      blocks0: seq<Block>)
    requires Emitting(root, path, before, wiresBefore, places, blocks0, wires, refs) && Untouched(path, before)
    requires i < |refs| && refs[i].None? && IsChild(root, path, i) && ChildAt(root, path, i).Sub?
    requires ScopeDone(root, path + [i], places, wires, more, blocks, wires1, ins, outs)
    ensures Emitting(root, path, before, wiresBefore, more, blocks, wires1, refs[i := Some(SubRef(ins, outs))])
  {
    var next := refs[i := Some(SubRef(ins, outs))];
    forall f | |before| <= f < |more|
      ensures path < more[f] && more[f][|path|] < |next| && next[more[f][|path|]].Some?
    {
      if f < |places| {
        assert places[f] == more[f];
      } else {
        assert path + [i] < more[f];
        NextIndex(path, i, more[f]);
      }
    }
    AllOthersStay(root, path, places, more, refs, i);
    assert ChildDone(root, path, more, i, SubRef(ins, outs));
    EmitSubWires(root, path, before, places, wires, refs, i, more, wires1);
  }

  lemma {:induction false} EmitSubWires(
      root: Subsystem, path: Path, before: seq<Path>, places: seq<Path>, wires: seq<FlatWire>,
      refs: seq<Option<ChildRef>>, i: nat, more: seq<Path>, wires1: seq<FlatWire>)
    requires before <= places <= more && i < |refs| && refs[i].None?
    requires forall f {:trigger places[f]} | |before| <= f < |places| ::
      path < places[f] && places[f][|path|] < |refs| && refs[places[f][|path|]].Some?
    requires forall f {:trigger more[f]} | |places| <= f < |more| :: path + [i] < more[f]
    requires WiresOk(root, path, |path| + 1, places, wires) && Bounded(|places|, wires)
    requires WiresOk(root, path + [i], |path + [i]|, more, wires1) && OldWiresKept(|places|, wires, wires1)
    requires Untouched(path, before)
    ensures WiresOk(root, path, |path| + 1, more, wires1)
  {
    forall f: nat, d: nat, g: nat, e: nat | f < |more| && path < more[f]
      ensures WireTo(g, e, f, d) in wires1 <==>
              g < |more| && |path| + 1 < |more[f]| && Wired(root, more[f], d, |path| + 1, LeafElem(more[g], e))
    {
      if f < |places| {
        assert more[f] == places[f];
        if f < |before| { assert before[f] == places[f]; }
        if |places| <= g < |more| && |path| + 1 < |more[f]| {
          assert path + [i] < more[g];
          NextIndex(path, i, more[g]);
          NotAcross(root, path, more[f], d, more[g], e);
        }
      } else {
        assert path + [i] < more[f];
      }
    }
  }

  // ---------------------------------------------------------------------------------------
  // Routing the connections of a scope
  // ---------------------------------------------------------------------------------------

  /** Explicit elements on single ports, paired one to one. */
  ghost predicate PlainConnection(c: Connection) {
    && c.src.port == 0 && c.src.elems.Some?
    && forall k {:trigger c.targets[k]} | 0 <= k < |c.targets| ::
         c.targets[k].port == 0 && c.targets[k].elems.Some? && |c.targets[k].elems.value| == |c.src.elems.value|
  }

  ghost predicate PlainScope(s: Subsystem) {
    && DrivenOnce(s.connections)
    && forall c {:trigger PlainConnection(c)} | c in s.connections :: PlainConnection(c)
  }

  ghost predicate PlainTree(root: Subsystem) {
    forall p {:trigger IsScope(root, p)} | IsScope(root, p) :: PlainScope(ScopeAt(root, p).value)
  }

  /** The routing loops' position: connection, target, element. */
  datatype RouteCursor = RouteCursor(i: nat, k: nat, j: nat)

  ghost predicate RouteCursorOk(conns: seq<Connection>, c: RouteCursor) {
    && c.i <= |conns|
    && (c.i < |conns| ==> c.k <= |conns[c.i].targets|)
    && (c.i < |conns| && c.k < |conns[c.i].targets| ==> c.j <= |ElemsOr0(conns[c.i].targets[c.k].elems)|)
  }

  /** The source of `elem` of `to`, as far as the loops have come. */
  ghost function Routed(conns: seq<Connection>, c: RouteCursor, to: Ref, elem: nat): Option<InputSrc>
    requires RouteCursorOk(conns, c)
  {
    PartialDriver(conns, c.i, c.k, c.j, to, None, elem)
  }

  /** The source found so far at the entry of the scope for element `d` of the leaf at `p`. */
  ghost function RoutedEntry(
      root: Subsystem, path: Path, conns: seq<Connection>, c: RouteCursor, p: Path, d: nat): Option<InputSrc>
    requires RouteCursorOk(conns, c) && path < p
  {
    match Entry(root, p, d, |path|)
    case None => None
    case Some(x) => Routed(conns, c, Child(p[|path|]), x)
  }

  ghost predicate InRouted(
      root: Subsystem, path: Path, conns: seq<Connection>, c: RouteCursor, places: seq<Path>, ie: nat, rs: seq<ElemRef>)
    requires RouteCursorOk(conns, c)
  {
    forall f: nat, d: nat {:trigger ElemRef(f, d)} ::
      ElemRef(f, d) in rs <==>
      f < |places| && path < places[f] && FromInterface(RoutedEntry(root, path, conns, c, places[f], d)) == Some(ie)
  }

  ghost predicate OutRouted(
      root: Subsystem, path: Path, conns: seq<Connection>, c: RouteCursor, places: seq<Path>, oe: nat,
      out: Option<ElemRef>)
    requires RouteCursorOk(conns, c)
  {
    match Routed(conns, c, Iface, oe)
    case None => out == None
    case Some(src) => src.block.Child? && out.Some? && SrcOk(root, path, places, src.block.idx, src.elem, out.value)
  }

  /** The wire from leaf `g` to leaf `f` is made inside a child, or by a connection routed so far. */
  ghost predicate WireRouted(
      root: Subsystem, path: Path, conns: seq<Connection>, c: RouteCursor, places: seq<Path>, f: nat, d: nat, g: nat,
      e: nat)
    requires RouteCursorOk(conns, c) && f < |places| && path < places[f]
  {
    && g < |places|
    && ((|path| + 1 < |places[f]| && Wired(root, places[f], d, |path| + 1, LeafElem(places[g], e)))
        || var src := RoutedEntry(root, path, conns, c, places[f], d);
           src.Some? && src.value.block.Child?
             && SrcOk(root, path, places, src.value.block.idx, src.value.elem, ElemRef(g, e)))
  }

  ghost predicate InsRouted(
      root: Subsystem, path: Path, conns: seq<Connection>, c: RouteCursor, places: seq<Path>, ins: seq<seq<ElemRef>>)
    requires RouteCursorOk(conns, c)
  {
    forall ie {:trigger ins[ie]} | 0 <= ie < |ins| :: InRouted(root, path, conns, c, places, ie, ins[ie])
  }

  ghost predicate OutsRouted(
      root: Subsystem, path: Path, conns: seq<Connection>, c: RouteCursor, places: seq<Path>,
      outs: seq<Option<ElemRef>>)
    requires RouteCursorOk(conns, c)
  {
    && (forall oe {:trigger outs[oe]} | 0 <= oe < |outs| :: OutRouted(root, path, conns, c, places, oe, outs[oe]))
    && (forall oe: nat {:trigger Routed(conns, c, Iface, oe)} ::
          Routed(conns, c, Iface, oe).Some? ==> Routed(conns, c, Iface, oe).value.block.Child?)
  }

  ghost predicate WiresRouted(
      root: Subsystem, path: Path, conns: seq<Connection>, c: RouteCursor, places: seq<Path>, wires: seq<FlatWire>)
    requires RouteCursorOk(conns, c)
  {
    && Bounded(|places|, wires)
    && (forall f: nat, d: nat, g: nat, e: nat {:trigger WireTo(g, e, f, d)} | f < |places| && path < places[f] ::
          WireTo(g, e, f, d) in wires <==> WireRouted(root, path, conns, c, places, f, d, g, e))
  }

  /** What the splice maps and the wires hold when the loops stand at `c`. */
  ghost predicate Routing(
      root: Subsystem, path: Path, conns: seq<Connection>, c: RouteCursor, places: seq<Path>,
      ins: seq<seq<ElemRef>>, outs: seq<Option<ElemRef>>, wires: seq<FlatWire>)
  {
    && RouteCursorOk(conns, c)
    && InsRouted(root, path, conns, c, places, ins) && OutsRouted(root, path, conns, c, places, outs)
    && WiresRouted(root, path, conns, c, places, wires)
  }

  /** A move of the cursor that reveals no source changes nothing. */
  lemma {:induction false} RouteIdle(
      root: Subsystem, path: Path, conns: seq<Connection>, c: RouteCursor, next: RouteCursor, places: seq<Path>,
      ins: seq<seq<ElemRef>>, outs: seq<Option<ElemRef>>, wires: seq<FlatWire>)
    requires Routing(root, path, conns, c, places, ins, outs, wires) && RouteCursorOk(conns, next)
    requires forall to: Ref, elem: nat {:trigger Routed(conns, next, to, elem)} ::
      Routed(conns, next, to, elem) == Routed(conns, c, to, elem)
    ensures Routing(root, path, conns, next, places, ins, outs, wires)
  {
    forall p: Path, d: nat {:trigger RoutedEntry(root, path, conns, next, p, d)} | path < p
      ensures RoutedEntry(root, path, conns, next, p, d) == RoutedEntry(root, path, conns, c, p, d)
    {
    }
    forall ie | 0 <= ie < |ins| ensures InRouted(root, path, conns, next, places, ie, ins[ie]) {
      assert InRouted(root, path, conns, c, places, ie, ins[ie]);
    }
    forall oe | 0 <= oe < |outs| ensures OutRouted(root, path, conns, next, places, oe, outs[oe]) {
      assert OutRouted(root, path, conns, c, places, oe, outs[oe]);
    }
    forall f: nat, d: nat, g: nat, e: nat | f < |places| && path < places[f]
      ensures WireTo(g, e, f, d) in wires <==> WireRouted(root, path, conns, next, places, f, d, g, e)
    {
      assert WireRouted(root, path, conns, next, places, f, d, g, e) ==
             WireRouted(root, path, conns, c, places, f, d, g, e);
    }
  }

  lemma {:induction false} RouteNextTarget(
      root: Subsystem, path: Path, conns: seq<Connection>, i: nat, k: nat, j: nat, places: seq<Path>,
      ins: seq<seq<ElemRef>>, outs: seq<Option<ElemRef>>, wires: seq<FlatWire>)
    requires i < |conns| && k < |conns[i].targets| && j == |ElemsOr0(conns[i].targets[k].elems)|
    requires Routing(root, path, conns, RouteCursor(i, k, j), places, ins, outs, wires)
    ensures Routing(root, path, conns, RouteCursor(i, k + 1, 0), places, ins, outs, wires)
  {
    var c, next := RouteCursor(i, k, j), RouteCursor(i, k + 1, 0);
    forall to: Ref, elem: nat ensures Routed(conns, next, to, elem) == Routed(conns, c, to, elem) {
      PartialNextTarget(conns, i, k, to, None, elem);
    }
    RouteIdle(root, path, conns, c, next, places, ins, outs, wires);
  }

  lemma {:induction false} RouteNextConnection(
      root: Subsystem, path: Path, conns: seq<Connection>, i: nat, k: nat, places: seq<Path>,
      ins: seq<seq<ElemRef>>, outs: seq<Option<ElemRef>>, wires: seq<FlatWire>)
    requires i < |conns| && k == |conns[i].targets|
    requires Routing(root, path, conns, RouteCursor(i, k, 0), places, ins, outs, wires)
    ensures Routing(root, path, conns, RouteCursor(i + 1, 0, 0), places, ins, outs, wires)
  {
    var c, next := RouteCursor(i, k, 0), RouteCursor(i + 1, 0, 0);
    forall to: Ref, elem: nat ensures Routed(conns, next, to, elem) == Routed(conns, c, to, elem) {
      PartialNextConnection(conns, i, to, None, elem);
    }
    RouteIdle(root, path, conns, c, next, places, ins, outs, wires);
  }

  /** Element `j` of a target reveals exactly one source. */
  lemma {:induction false} RevealsOne(conns: seq<Connection>, c: RouteCursor, to: Ref, elem: nat)
    requires DrivenOnce(conns) && RouteCursorOk(conns, c) && c.i < |conns| && c.k < |conns[c.i].targets|
    requires c.j < |ElemsOr0(conns[c.i].targets[c.k].elems)|
    ensures RouteCursorOk(conns, c.(j := c.j + 1))
    ensures var t := conns[c.i].targets[c.k];
            if t.block == to && ElemsOr0(t.elems)[c.j] == elem
            then Routed(conns, c, to, elem) == None
                 && Routed(conns, c.(j := c.j + 1), to, elem) == Some(SourceAt(conns[c.i].src, c.j))
            else Routed(conns, c.(j := c.j + 1), to, elem) == Routed(conns, c, to, elem)
  {
    PartialNextElem(conns, c.i, c.k, c.j, to, None, elem);
    if conns[c.i].targets[c.k].block == to && ElemsOr0(conns[c.i].targets[c.k].elems)[c.j] == elem {
      assert Hits(conns, c.i, c.k, c.j, to, elem);
      NothingBeforeHit(conns, c.i, c.k, c.j, to, None, elem);
    }
  }

  /** Element `c.j` of target `c.k` of connection `c.i`, seen as one source and one destination. */
  ghost predicate Pairs(conns: seq<Connection>, c: RouteCursor, src: InputSrc, to: Ref, elem: nat) {
    && RouteCursorOk(conns, c) && c.i < |conns| && c.k < |conns[c.i].targets|
    && c.j < |ElemsOr0(conns[c.i].targets[c.k].elems)|
    && conns[c.i].targets[c.k].block == to && ElemsOr0(conns[c.i].targets[c.k].elems)[c.j] == elem
    && SourceAt(conns[c.i].src, c.j) == src
  }

  /** Whether the leaf element `(p, d)` enters the scope at the pair's destination. */
  ghost predicate EntersAt(root: Subsystem, path: Path, p: Path, d: nat, to: Ref, elem: nat)
    requires path < p
  {
    to == Child(p[|path|]) && Entry(root, p, d, |path|) == Some(elem)
  }

  lemma {:induction false} EntryRevealed(
      root: Subsystem, path: Path, conns: seq<Connection>, c: RouteCursor, src: InputSrc, to: Ref, elem: nat, p: Path,
      d: nat)
    requires DrivenOnce(conns) && Pairs(conns, c, src, to, elem) && path < p
    ensures RouteCursorOk(conns, c.(j := c.j + 1))
    ensures if EntersAt(root, path, p, d, to, elem)
            then RoutedEntry(root, path, conns, c, p, d) == None
                 && RoutedEntry(root, path, conns, c.(j := c.j + 1), p, d) == Some(src)
            else RoutedEntry(root, path, conns, c.(j := c.j + 1), p, d) == RoutedEntry(root, path, conns, c, p, d)
  {
    var x := Entry(root, p, d, |path|);
    if x.Some? { RevealsOne(conns, c, Child(p[|path|]), x.value); } else { RevealsOne(conns, c, Child(p[|path|]), 0); }
  }

  lemma {:induction false} InsKept(
      root: Subsystem, path: Path, conns: seq<Connection>, c: RouteCursor, places: seq<Path>, ins: seq<seq<ElemRef>>,
      src: InputSrc, to: Ref, elem: nat)
    requires DrivenOnce(conns) && Pairs(conns, c, src, to, elem) && (src.block.Child? || to.Iface?)
    requires InsRouted(root, path, conns, c, places, ins)
    ensures RouteCursorOk(conns, c.(j := c.j + 1)) && InsRouted(root, path, conns, c.(j := c.j + 1), places, ins)
  {
    var next := c.(j := c.j + 1);
    RevealsOne(conns, c, Iface, 0);
    forall ie | 0 <= ie < |ins| ensures InRouted(root, path, conns, next, places, ie, ins[ie]) {
      assert InRouted(root, path, conns, c, places, ie, ins[ie]);
      forall f: nat, d: nat | f < |places| && path < places[f]
        ensures FromInterface(RoutedEntry(root, path, conns, next, places[f], d)) ==
                FromInterface(RoutedEntry(root, path, conns, c, places[f], d))
      {
        EntryRevealed(root, path, conns, c, src, to, elem, places[f], d);
      }
    }
  }

  lemma {:induction false} OutsKept(
      root: Subsystem, path: Path, conns: seq<Connection>, c: RouteCursor, places: seq<Path>,
      outs: seq<Option<ElemRef>>, src: InputSrc, to: Ref, elem: nat)
    requires DrivenOnce(conns) && Pairs(conns, c, src, to, elem) && to.Child?
    requires OutsRouted(root, path, conns, c, places, outs)
    ensures RouteCursorOk(conns, c.(j := c.j + 1)) && OutsRouted(root, path, conns, c.(j := c.j + 1), places, outs)
  {
    var next := c.(j := c.j + 1);
    RevealsOne(conns, c, Iface, 0);
    forall oe: nat ensures Routed(conns, next, Iface, oe) == Routed(conns, c, Iface, oe) {
      RevealsOne(conns, c, Iface, oe);
    }
    forall oe | 0 <= oe < |outs| ensures OutRouted(root, path, conns, next, places, oe, outs[oe]) {
      assert OutRouted(root, path, conns, c, places, oe, outs[oe]);
    }
  }

  lemma {:induction false} WiresKept(
      root: Subsystem, path: Path, conns: seq<Connection>, c: RouteCursor, places: seq<Path>, wires: seq<FlatWire>,
      src: InputSrc, to: Ref, elem: nat)
    requires DrivenOnce(conns) && Pairs(conns, c, src, to, elem) && (src.block.Iface? || to.Iface?)
    requires WiresRouted(root, path, conns, c, places, wires)
    ensures RouteCursorOk(conns, c.(j := c.j + 1)) && WiresRouted(root, path, conns, c.(j := c.j + 1), places, wires)
  {
    var next := c.(j := c.j + 1);
    RevealsOne(conns, c, Iface, 0);
    forall f: nat, d: nat, g: nat, e: nat | f < |places| && path < places[f]
      ensures WireTo(g, e, f, d) in wires <==> WireRouted(root, path, conns, next, places, f, d, g, e)
    {
      EntryRevealed(root, path, conns, c, src, to, elem, places[f], d);
      assert WireTo(g, e, f, d) in wires <==> WireRouted(root, path, conns, c, places, f, d, g, e);
    }
  }

  /** An interface input feeding an inner element: its list gains the leaves behind that element. */
  lemma {:induction false} RouteInput(
      root: Subsystem, path: Path, conns: seq<Connection>, c: RouteCursor, places: seq<Path>, ins: seq<seq<ElemRef>>,
      outs: seq<Option<ElemRef>>, wires: seq<FlatWire>, src: InputSrc, to: Ref, elem: nat, dsts: seq<ElemRef>)
    requires DrivenOnce(conns) && Routing(root, path, conns, c, places, ins, outs, wires)
    requires Pairs(conns, c, src, to, elem) && src.block.Iface? && to.Child? && src.elem < |ins|
    requires DstOk(root, path, places, to.idx, elem, dsts)
    ensures Routing(root, path, conns, c.(j := c.j + 1), places, ins[src.elem := ins[src.elem] + dsts], outs, wires)
  {
    var next := c.(j := c.j + 1);
    var ins1 := ins[src.elem := ins[src.elem] + dsts];
    OutsKept(root, path, conns, c, places, outs, src, to, elem);
    WiresKept(root, path, conns, c, places, wires, src, to, elem);
    forall ie | 0 <= ie < |ins1| ensures InRouted(root, path, conns, next, places, ie, ins1[ie]) {
      assert InRouted(root, path, conns, c, places, ie, ins[ie]);
      forall f: nat, d: nat
        ensures ElemRef(f, d) in ins1[ie] <==>
                f < |places| && path < places[f]
                  && FromInterface(RoutedEntry(root, path, conns, next, places[f], d)) == Some(ie)
      {
        if f < |places| && path < places[f] {
          EntryRevealed(root, path, conns, c, src, to, elem, places[f], d);
          NextIndex(path, to.idx, places[f]);
        }
        BelowChildIsBelow(path, to.idx, places, f);
      }
    }
  }

  lemma {:induction false} BelowChildIsBelow(path: Path, i: nat, places: seq<Path>, f: nat)
    ensures f < |places| && path + [i] <= places[f] ==> path < places[f]
  {
  }

  /** An inner element driving an interface output. */
  lemma {:induction false} RouteOutput(
      root: Subsystem, path: Path, conns: seq<Connection>, c: RouteCursor, places: seq<Path>,
      ins: seq<seq<ElemRef>>, outs: seq<Option<ElemRef>>, wires: seq<FlatWire>, src: InputSrc, elem: nat, leaf: ElemRef)
    requires DrivenOnce(conns) && Routing(root, path, conns, c, places, ins, outs, wires)
    requires Pairs(conns, c, src, Iface, elem) && src.block.Child? && elem < |outs|
    requires SrcOk(root, path, places, src.block.idx, src.elem, leaf)
    ensures Routing(root, path, conns, c.(j := c.j + 1), places, ins, outs[elem := Some(leaf)], wires)
  {
    var next := c.(j := c.j + 1);
    var outs1 := outs[elem := Some(leaf)];
    InsKept(root, path, conns, c, places, ins, src, Iface, elem);
    WiresKept(root, path, conns, c, places, wires, src, Iface, elem);
    forall oe | 0 <= oe < |outs1| ensures OutRouted(root, path, conns, next, places, oe, outs1[oe]) {
      assert OutRouted(root, path, conns, c, places, oe, outs[oe]);
      RevealsOne(conns, c, Iface, oe);
    }
    forall oe: nat ensures Routed(conns, next, Iface, oe).Some? ==> Routed(conns, next, Iface, oe).value.block.Child? {
      RevealsOne(conns, c, Iface, oe);
    }
  }

  /** One wire from `leaf` to each of `dsts`. */
  function WiresFrom(leaf: ElemRef, dsts: seq<ElemRef>): (ws: seq<FlatWire>)
    ensures |ws| == |dsts| && forall i | 0 <= i < |dsts| :: ws[i] == FlatWire(leaf, dsts[i])
  {
    seq(|dsts|, i requires 0 <= i < |dsts| => FlatWire(leaf, dsts[i]))
  }

  lemma {:induction false} WiresFromHas(leaf: ElemRef, dsts: seq<ElemRef>, w: FlatWire)
    ensures w in WiresFrom(leaf, dsts) <==> w.src == leaf && w.dst in dsts
  {
    if w.src == leaf && w.dst in dsts {
      var i :| 0 <= i < |dsts| && dsts[i] == w.dst;
      assert WiresFrom(leaf, dsts)[i] == w;
    }
  }

  lemma {:induction false} LeafSourceIsUnique(
      root: Subsystem, path: Path, places: seq<Path>, blocks: seq<Block>, j: nat, elem: nat, r: ElemRef, s: ElemRef)
    requires Known(root, places, blocks)
    requires SrcOk(root, path, places, j, elem, r) && SrcOk(root, path, places, j, elem, s)
    ensures r == s
  {
  }

  /** An inner element driving an inner element: one wire to each leaf behind it. */
  lemma {:induction false} RouteWires(
      root: Subsystem, path: Path, conns: seq<Connection>, c: RouteCursor, places: seq<Path>, blocks: seq<Block>,
      ins: seq<seq<ElemRef>>, outs: seq<Option<ElemRef>>, wires: seq<FlatWire>, src: InputSrc, to: Ref, elem: nat,
      leaf: ElemRef, dsts: seq<ElemRef>)
    requires Known(root, places, blocks)
    requires DrivenOnce(conns) && Routing(root, path, conns, c, places, ins, outs, wires)
    requires Pairs(conns, c, src, to, elem) && src.block.Child? && to.Child?
    requires SrcOk(root, path, places, src.block.idx, src.elem, leaf)
    requires DstOk(root, path, places, to.idx, elem, dsts)
    ensures Routing(root, path, conns, c.(j := c.j + 1), places, ins, outs, wires + WiresFrom(leaf, dsts))
  {
    InsKept(root, path, conns, c, places, ins, src, to, elem);
    OutsKept(root, path, conns, c, places, outs, src, to, elem);
    WiresAdded(root, path, conns, c, places, blocks, wires, src, to, elem, leaf, dsts);
  }

  lemma {:induction false} WiresAdded(
      root: Subsystem, path: Path, conns: seq<Connection>, c: RouteCursor, places: seq<Path>, blocks: seq<Block>,
      wires: seq<FlatWire>, src: InputSrc, to: Ref, elem: nat, leaf: ElemRef, dsts: seq<ElemRef>)
    requires Known(root, places, blocks)
    requires DrivenOnce(conns) && RouteCursorOk(conns, c) && WiresRouted(root, path, conns, c, places, wires)
    requires Pairs(conns, c, src, to, elem) && src.block.Child? && to.Child?
    requires SrcOk(root, path, places, src.block.idx, src.elem, leaf)
    requires DstOk(root, path, places, to.idx, elem, dsts)
    requires RouteCursorOk(conns, c.(j := c.j + 1))
    ensures WiresRouted(root, path, conns, c.(j := c.j + 1), places, wires + WiresFrom(leaf, dsts))
  {
    var next := c.(j := c.j + 1);
    var wires1 := wires + WiresFrom(leaf, dsts);
    forall w | w in wires1 ensures w.src.block < |places| && w.dst.block < |places| {
      WiresFromHas(leaf, dsts, w);
      if w !in wires { assert ElemRef(w.dst.block, w.dst.elem) in dsts; }
    }
    forall f: nat, d: nat, g: nat, e: nat | f < |places| && path < places[f]
      ensures WireTo(g, e, f, d) in wires1 <==> WireRouted(root, path, conns, next, places, f, d, g, e)
    {
      assert WireTo(g, e, f, d) in wires <==> WireRouted(root, path, conns, c, places, f, d, g, e);
      RouteOneWire(root, path, conns, c, places, blocks, wires, src, to, elem, leaf, dsts, f, d, g, e);
    }
  }

  lemma {:induction false} RouteOneWire(
      root: Subsystem, path: Path, conns: seq<Connection>, c: RouteCursor, places: seq<Path>, blocks: seq<Block>,
      wires: seq<FlatWire>, src: InputSrc, to: Ref, elem: nat, leaf: ElemRef, dsts: seq<ElemRef>,
      f: nat, d: nat, g: nat, e: nat)
    requires Known(root, places, blocks) && DrivenOnce(conns)
    requires Pairs(conns, c, src, to, elem) && src.block.Child? && to.Child?
    requires SrcOk(root, path, places, src.block.idx, src.elem, leaf)
    requires DstOk(root, path, places, to.idx, elem, dsts)
    requires f < |places| && path < places[f]
    requires WireTo(g, e, f, d) in wires <==> WireRouted(root, path, conns, c, places, f, d, g, e)
    ensures RouteCursorOk(conns, c.(j := c.j + 1))
    ensures WireTo(g, e, f, d) in wires + WiresFrom(leaf, dsts) <==>
            WireRouted(root, path, conns, c.(j := c.j + 1), places, f, d, g, e)
  {
    EntryRevealed(root, path, conns, c, src, to, elem, places[f], d);
    NextIndex(path, to.idx, places[f]);
    WiresFromHas(leaf, dsts, WireTo(g, e, f, d));
    assert ElemRef(f, d) in dsts <==> EntersAt(root, path, places[f], d, to, elem);
    if ElemRef(f, d) in dsts && SrcOk(root, path, places, src.block.idx, src.elem, ElemRef(g, e)) {
      LeafSourceIsUnique(root, path, places, blocks, src.block.idx, src.elem, leaf, ElemRef(g, e));
    }
  }

  // ---------------------------------------------------------------------------------------
  // Entering and leaving the routing loops
  // ---------------------------------------------------------------------------------------

  lemma {:induction false} RouteStart(
      root: Subsystem, path: Path, conns: seq<Connection>, places: seq<Path>, wires: seq<FlatWire>, nIn: nat, nOut: nat)
    requires WiresOk(root, path, |path| + 1, places, wires) && Bounded(|places|, wires)
    ensures Routing(root, path, conns, RouteCursor(0, 0, 0), places, seq(nIn, _ => []), seq(nOut, _ => None), wires)
  {
    var c := RouteCursor(0, 0, 0);
    forall to: Ref, elem: nat ensures Routed(conns, c, to, elem) == None {
      PartialIsWhole(conns, to, None, elem);
    }
    forall f: nat, d: nat, g: nat, e: nat | f < |places| && path < places[f]
      ensures WireTo(g, e, f, d) in wires <==> WireRouted(root, path, conns, c, places, f, d, g, e)
    {
    }
  }

  lemma {:induction false} RoutedAll(root: Subsystem, path: Path, c: RouteCursor, to: Ref, elem: nat)
    requires IsScope(root, path)
    requires c == RouteCursor(|ScopeAt(root, path).value.connections|, 0, 0)
    ensures Routed(ScopeAt(root, path).value.connections, c, to, elem) == SourceIn(root, path, to, elem)
  {
    PartialIsWhole(ScopeAt(root, path).value.connections, to, None, elem);
  }

  lemma {:induction false} EntryRoutedAll(root: Subsystem, path: Path, c: RouteCursor, p: Path, d: nat)
    requires IsScope(root, path) && path < p
    requires c == RouteCursor(|ScopeAt(root, path).value.connections|, 0, 0)
    ensures Exit(root, p, d, |path|) ==
            FromInterface(RoutedEntry(root, path, ScopeAt(root, path).value.connections, c, p, d))
    ensures RoutedEntry(root, path, ScopeAt(root, path).value.connections, c, p, d) ==
            match Entry(root, p, d, |path|) case None => None case Some(x) => SourceIn(root, path, Child(p[|path|]), x)
  {
    NextIndex(path, 0, p);
    var x := Entry(root, p, d, |path|);
    if x.Some? { RoutedAll(root, path, c, Child(p[|path|]), x.value); }
  }

  lemma {:induction false} RouteEndIns(
      root: Subsystem, path: Path, c: RouteCursor, places: seq<Path>, ins: seq<seq<ElemRef>>)
    requires IsScope(root, path) && c == RouteCursor(|ScopeAt(root, path).value.connections|, 0, 0)
    requires InsRouted(root, path, ScopeAt(root, path).value.connections, c, places, ins)
    ensures InsOk(root, path, places, ins)
  {
    var conns := ScopeAt(root, path).value.connections;
    forall ie | 0 <= ie < |ins| ensures InOk(root, path, places, ie, ins[ie]) {
      assert InRouted(root, path, conns, c, places, ie, ins[ie]);
      forall f: nat, d: nat
        ensures ElemRef(f, d) in ins[ie] <==>
                f < |places| && path < places[f] && Exit(root, places[f], d, |path|) == Some(ie)
      {
        if f < |places| && path < places[f] { EntryRoutedAll(root, path, c, places[f], d); }
      }
    }
  }

  lemma {:induction false} RouteEndOuts(
      root: Subsystem, path: Path, c: RouteCursor, places: seq<Path>, outs: seq<Option<ElemRef>>)
    requires IsScope(root, path) && c == RouteCursor(|ScopeAt(root, path).value.connections|, 0, 0)
    requires OutsRouted(root, path, ScopeAt(root, path).value.connections, c, places, outs)
    ensures OutsOk(root, path, places, outs)
    ensures forall e: nat {:trigger SourceIn(root, path, Iface, e)} ::
              SourceIn(root, path, Iface, e).Some? ==> SourceIn(root, path, Iface, e).value.block.Child?
  {
    var conns := ScopeAt(root, path).value.connections;
    forall oe | 0 <= oe < |outs| ensures OutOk(root, path, places, oe, outs[oe]) {
      assert OutRouted(root, path, conns, c, places, oe, outs[oe]);
      RoutedAll(root, path, c, Iface, oe);
    }
    forall e: nat ensures SourceIn(root, path, Iface, e).Some? ==> SourceIn(root, path, Iface, e).value.block.Child? {
      RoutedAll(root, path, c, Iface, e);
    }
  }

  lemma {:induction false} RouteEndWires(
      root: Subsystem, path: Path, c: RouteCursor, places: seq<Path>, wires: seq<FlatWire>)
    requires IsScope(root, path) && c == RouteCursor(|ScopeAt(root, path).value.connections|, 0, 0)
    requires WiresRouted(root, path, ScopeAt(root, path).value.connections, c, places, wires)
    ensures WiresOk(root, path, |path|, places, wires)
  {
    var conns := ScopeAt(root, path).value.connections;
    forall f: nat, d: nat, g: nat, e: nat | f < |places| && path < places[f]
      ensures WireTo(g, e, f, d) in wires <==>
              g < |places| && |path| < |places[f]| && Wired(root, places[f], d, |path|, LeafElem(places[g], e))
    {
      EntryRoutedAll(root, path, c, places[f], d);
      NextIndex(path, 0, places[f]);
      assert WireTo(g, e, f, d) in wires <==> WireRouted(root, path, conns, c, places, f, d, g, e);
    }
  }

  /** Every child is done, so the whole scope is covered and free of pass-throughs. */
  lemma {:induction false} ChildrenCover(root: Subsystem, path: Path, places: seq<Path>, refs: seq<ChildRef>)
    requires IsScope(root, path) && |refs| == |ScopeAt(root, path).value.children|
    requires forall i {:trigger refs[i]} | 0 <= i < |refs| :: ChildDone(root, path, places, i, refs[i])
    requires forall e: nat {:trigger SourceIn(root, path, Iface, e)} ::
      SourceIn(root, path, Iface, e).Some? ==> SourceIn(root, path, Iface, e).value.block.Child?
    ensures Covered(root, path, places) && PassFree(root, path)
  {
    var n := |path|;
    forall p | IsLeafPath(root, p) && path <= p ensures p in places {
      assert p != path;
      LeafScopes(root, p, n);
      ChildIndex(root, path, p);
      assert ChildDone(root, path, places, p[n], refs[p[n]]);
    }
    forall s: Path, e: nat | path <= s && SourceIn(root, s, Iface, e).Some?
      ensures SourceIn(root, s, Iface, e).value.block.Child?
    {
      if s != path {
        PrefixScope(root, s, n + 1);
        NextIndex(path, s[n], s);
        ScopeIndex(root, path, s[..n + 1]);
        assert ChildDone(root, path, places, s[n], refs[s[n]]);
      }
    }
  }

  lemma {:induction false} ScopeIndex(root: Subsystem, path: Path, s: Path)
    requires IsScope(root, s) && |s| == |path| + 1 && path <= s && IsScope(root, path)
    ensures s[|path|] < |ScopeAt(root, path).value.children|
  {
    assert s[..|s| - 1] == path;
  }

  lemma {:induction false} ChildIndex(root: Subsystem, path: Path, p: Path)
    requires IsLeafPath(root, p) && path < p && IsScope(root, path)
    ensures p[|path|] < |ScopeAt(root, path).value.children| && path + [p[|path|]] <= p
  {
    NextIndex(path, p[|path|], p);
    if |p| == |path| + 1 {
      assert p[..|p| - 1] == path;
    } else {
      LeafScopes(root, p, |path| + 1);
      ScopeIndex(root, path, p[..|path| + 1]);
    }
  }

  lemma {:induction false} OldKeptOnPush(
      path: Path, before: seq<Path>, wiresBefore: seq<FlatWire>, root: Subsystem, places: seq<Path>,
      wires: seq<FlatWire>, leaf: ElemRef, i: nat, elem: nat, dsts: seq<ElemRef>)
    requires before <= places && Untouched(path, before) && OldWiresKept(|before|, wiresBefore, wires)
    requires DstOk(root, path, places, i, elem, dsts)
    ensures OldWiresKept(|before|, wiresBefore, wires + WiresFrom(leaf, dsts))
  {
    forall f: nat, d: nat, g: nat, e: nat | f < |before|
      ensures WireTo(g, e, f, d) in wiresBefore <==> WireTo(g, e, f, d) in wires + WiresFrom(leaf, dsts)
    {
      WiresFromHas(leaf, dsts, WireTo(g, e, f, d));
      assert before[f] == places[f];
      BelowChildIsBelow(path, i, places, f);
      assert ElemRef(f, d) !in dsts;
    }
  }

  // ---------------------------------------------------------------------------------------
  // Resolving endpoints
  // ---------------------------------------------------------------------------------------

  lemma {:induction false} LeafDstOk(
      root: Subsystem, path: Path, places: seq<Path>, blocks: seq<Block>, i: nat, f: nat, elem: nat)
    requires Known(root, places, blocks) && RefOk(root, path, places, i, LeafRef(f))
    ensures DstOk(root, path, places, i, elem, [ElemRef(f, elem)])
  {
    forall g: nat, d: nat
      ensures ElemRef(g, d) in [ElemRef(f, elem)] <==>
              g < |places| && path + [i] <= places[g] && Entry(root, places[g], d, |path|) == Some(elem)
    {
      if g < |places| && path + [i] <= places[g] {
        NothingBelowLeaf(root, path, i, places[g]);
      }
    }
  }

  lemma {:induction false} SubDstOk(
      root: Subsystem, path: Path, places: seq<Path>, blocks: seq<Block>, i: nat,
      ins: seq<seq<ElemRef>>, outs: seq<Option<ElemRef>>, elem: nat)
    requires Known(root, places, blocks) && RefOk(root, path, places, i, SubRef(ins, outs)) && elem < |ins|
    ensures DstOk(root, path, places, i, elem, ins[elem])
  {
    assert InOk(root, path + [i], places, elem, ins[elem]);
    forall g: nat, d: nat
      ensures ElemRef(g, d) in ins[elem] <==>
              g < |places| && path + [i] <= places[g] && Entry(root, places[g], d, |path|) == Some(elem)
    {
      if g < |places| && path + [i] <= places[g] {
        assert IsLeafPath(root, places[g]) && (path + [i])[..|path|] == path;
        assert places[g] != path + [i];
      }
    }
  }

  lemma {:induction false} LeafSrcsOk(
      root: Subsystem, path: Path, places: seq<Path>, i: nat, f: nat, es: seq<nat>, out: seq<ElemRef>)
    requires RefOk(root, path, places, i, LeafRef(f)) && |out| == |es|
    requires forall j | 0 <= j < |es| :: out[j] == ElemRef(f, es[j])
    ensures forall j {:trigger out[j]} | 0 <= j < |out| :: SrcOk(root, path, places, i, es[j], out[j])
  {
  }

  lemma {:induction false} SubSrcOk(
      root: Subsystem, path: Path, places: seq<Path>, i: nat,
      ins: seq<seq<ElemRef>>, outs: seq<Option<ElemRef>>, elem: nat)
    requires RefOk(root, path, places, i, SubRef(ins, outs)) && elem < |outs| && outs[elem].Some?
    ensures SrcOk(root, path, places, i, elem, outs[elem].value)
  {
    assert OutOk(root, path + [i], places, elem, outs[elem]);
    SubScope(root, path, i);
  }

  lemma {:induction false} PairAt(conns: seq<Connection>, i: nat, k: nat, j: nat)
    requires i < |conns| && k < |conns[i].targets| && PlainConnection(conns[i])
    requires j < |conns[i].targets[k].elems.value|
    ensures Pairs(conns, RouteCursor(i, k, j), InputSrc(conns[i].src.block, 0, conns[i].src.elems.value[j]),
                  conns[i].targets[k].block, conns[i].targets[k].elems.value[j])
  {
  }

  // ---------------------------------------------------------------------------------------
  // The splicer
  // ---------------------------------------------------------------------------------------

  /** The scope's topological order, restricted to existing children. */
  function TopoChildren(topo: seq<Ref>, n: nat): (order: seq<nat>)
    ensures forall q | 0 <= q < |order| :: order[q] < n
  {
    if topo == [] then []
    else
      var rest := TopoChildren(topo[..|topo| - 1], n);
      match topo[|topo| - 1]
      case Child(i) => if i < n then rest + [i] else rest
      case Iface => rest
  }

  function Indices(n: nat): (r: seq<nat>)
    ensures |r| == n && forall i | 0 <= i < n :: r[i] == i
  {
    seq(n, i => i)
  }

  function EmitOrder(topo: seq<Ref>, n: nat): (order: seq<nat>)
    ensures forall q | 0 <= q < |order| :: order[q] < n
  {
    TopoChildren(topo, n) + Indices(n)
  }

  /** How many of the first `k` entries of a topological list name a child. */
  ghost function Named(topo: seq<Ref>, n: nat, k: nat): nat
    requires k <= |topo|
  {
    if k == 0 then 0 else Named(topo, n, k - 1) + if topo[k - 1].Child? && topo[k - 1].idx < n then 1 else 0
  }

  lemma {:induction false} NamedChildren(topo: seq<Ref>, n: nat, m: nat)
    requires m <= |topo|
    ensures |TopoChildren(topo[..m], n)| == Named(topo, n, m)
    decreases m
  {
    if m > 0 {
      assert topo[..m][..m - 1] == topo[..m - 1];
      NamedChildren(topo, n, m - 1);
    }
  }

  lemma {:induction false} NamedChildAt(topo: seq<Ref>, n: nat, m: nat, k: nat)
    requires k < m <= |topo| && topo[k].Child? && topo[k].idx < n
    ensures Named(topo, n, k) < |TopoChildren(topo[..m], n)|
    ensures TopoChildren(topo[..m], n)[Named(topo, n, k)] == topo[k].idx
    decreases m
  {
    assert topo[..m][..m - 1] == topo[..m - 1];
    if k < m - 1 {
      NamedChildAt(topo, n, m - 1, k);
    } else {
      NamedChildren(topo, n, k);
    }
  }

  /** Children are visited in the order of the topological list, and then all of them in their own. */
  lemma {:induction false} VisitedInOrder(topo: seq<Ref>, n: nat)
    ensures |EmitOrder(topo, n)| == Named(topo, n, |topo|) + n
    ensures forall k: nat {:trigger topo[k]} | k < |topo| && topo[k].Child? && topo[k].idx < n ::
              Named(topo, n, k) < Named(topo, n, |topo|) && EmitOrder(topo, n)[Named(topo, n, k)] == topo[k].idx
    ensures forall i: nat {:trigger EmitOrder(topo, n)[Named(topo, n, |topo|) + i]} | i < n ::
              EmitOrder(topo, n)[Named(topo, n, |topo|) + i] == i
  {
    assert topo[..|topo|] == topo;
    NamedChildren(topo, n, |topo|);
    forall k: nat {:trigger topo[k]} | k < |topo| && topo[k].Child? && topo[k].idx < n
      ensures Named(topo, n, k) < Named(topo, n, |topo|) && EmitOrder(topo, n)[Named(topo, n, k)] == topo[k].idx
    {
      NamedChildAt(topo, n, |topo|, k);
    }
  }

  lemma {:induction false} OrderHasAll(topo: seq<Ref>, n: nat, i: nat)
    requires i < n
    ensures i in EmitOrder(topo, n)
  {
    assert EmitOrder(topo, n)[|TopoChildren(topo, n)| + i] == Indices(n)[i];
  }

  ghost predicate AllDone(root: Subsystem, path: Path, places: seq<Path>, refs: seq<ChildRef>) {
    forall i {:trigger refs[i]} | 0 <= i < |refs| :: ChildDone(root, path, places, i, refs[i])
  }

  class ForwardFlattener {
    ghost const root: Subsystem
    var blocks: seq<Block>
    var wires: seq<FlatWire>
    ghost var places: seq<Path>

    constructor (ghost root: Subsystem)
      ensures this.root == root && blocks == [] && wires == [] && places == []
    {
      this.root := root;
      blocks, wires, places := [], [], [];
    }

    /** Registers the children of `scope`, recursing into subsystems, and splices its connections. */
    method FlattenScope(scope: Subsystem, ghost path: Path)
      returns (r: Result<(seq<seq<ElemRef>>, seq<Option<ElemRef>>), ForwardError>)
      requires PlainTree(root) && ScopeAt(root, path) == Some(scope)
      requires Known(root, places, blocks) && Bounded(|places|, wires) && Untouched(path, places)
      modifies this
      ensures r.Ok? ==> ScopeDone(root, path, old(places), old(wires), places, blocks, wires, r.value.0, r.value.1)
      decreases scope, 2
    {
      if scope.hasLoops {
        return Err(LoopInScope);
      }
      var refs :- EmitChildren(scope, path);
      r := RouteScope(scope, path, refs, old(places), old(wires));
    }

    /** Emits the children in topological order; children missing from it come last. */
    method EmitChildren(scope: Subsystem, ghost path: Path) returns (r: Result<seq<ChildRef>, ForwardError>)
      requires PlainTree(root) && ScopeAt(root, path) == Some(scope)
      requires Known(root, places, blocks) && Bounded(|places|, wires) && Untouched(path, places)
      modifies this
      ensures r.Ok? ==> |r.value| == |scope.children| && AllDone(root, path, places, r.value)
      ensures r.Ok? ==> Known(root, places, blocks) && Bounded(|places|, wires) && old(places) <= places
      ensures r.Ok? ==> forall f {:trigger places[f]} | |old(places)| <= f < |places| :: path < places[f]
      ensures r.Ok? ==> WiresOk(root, path, |path| + 1, places, wires) && OldWiresKept(|old(places)|, old(wires), wires)
      decreases scope, 1
    {
      var n := |scope.children|;
      var order := EmitOrder(scope.topo, n);
      var refs: seq<Option<ChildRef>> := seq(n, _ => None);
      NoChildrenYet(root, path, places, blocks, wires, n);
      for x := 0 to |order|
        invariant |refs| == n && Emitting(root, path, old(places), old(wires), places, blocks, wires, refs)
        invariant forall y | 0 <= y < x :: refs[order[y]].Some?
      {
        var i := order[x];
        if refs[i].None? {
          var ref :- EmitChild(scope, i, path, refs, old(places), old(wires));
          refs := refs[i := Some(ref)];
        }
      }
      forall i | 0 <= i < n ensures refs[i].Some? {
        OrderHasAll(scope.topo, n, i);
      }
      var all := seq(n, i requires 0 <= i < n => refs[i].value);
      assert AllDone(root, path, places, all);
      r := Ok(all);
    }

    method EmitChild(
        scope: Subsystem, i: nat, ghost path: Path, ghost refs: seq<Option<ChildRef>>,
        ghost before: seq<Path>, ghost wiresBefore: seq<FlatWire>)
      returns (r: Result<ChildRef, ForwardError>)
      requires PlainTree(root) && ScopeAt(root, path) == Some(scope) && Untouched(path, before)
      requires i < |scope.children| == |refs| && refs[i].None?
      requires Emitting(root, path, before, wiresBefore, places, blocks, wires, refs)
      modifies this
      ensures r.Ok? ==> Emitting(root, path, before, wiresBefore, places, blocks, wires, refs[i := Some(r.value)])
      decreases scope, 0
    {
      match scope.children[i] {
        case Leaf(block) =>
          EmitLeaf(root, path, before, wiresBefore, places, blocks, wires, refs, i, block);
          r := Ok(LeafRef(|blocks|));
          blocks := blocks + [block];
          places := places + [path + [i]];
        case Sub(s) =>
          SubScope(root, path, i);
          NewLeafIsNew(root, path, before, places, refs, i);
          ghost var places0, wires0, blocks0 := places, wires, blocks;
          var maps :- FlattenScope(s, path + [i]);
          EmitSub(root, path, before, wiresBefore, places0, wires0, refs, i, places, blocks, wires, maps.0, maps.1,
              blocks0);
          r := Ok(SubRef(maps.0, maps.1));
      }
    }

    /** The elements of a leaf behind a connection source. */
    static method LeafSources(f: nat, es: seq<nat>) returns (out: seq<ElemRef>)
      ensures |out| == |es| && forall j | 0 <= j < |es| :: out[j] == ElemRef(f, es[j])
    {
      out := seq(|es|, j requires 0 <= j < |es| => ElemRef(f, es[j]));
    }

    /** The leaf output elements behind a connection source, one per addressed element. */
    method ResolveSrc(scope: Subsystem, refs: seq<ChildRef>, src: PortRef, ghost path: Path)
      returns (r: Result<seq<ElemRef>, ForwardError>)
      requires ScopeAt(root, path) == Some(scope) && |refs| == |scope.children|
      requires Known(root, places, blocks) && AllDone(root, path, places, refs)
      requires src.block.Child? && src.port == 0 && src.elems.Some?
      ensures r.Ok? ==> |r.value| == |src.elems.value| && src.block.idx < |refs|
      ensures r.Ok? ==> forall j {:trigger r.value[j]} | 0 <= j < |r.value| ::
                SrcOk(root, path, places, src.block.idx, src.elems.value[j], r.value[j])
    {
      var i := src.block.idx;
      if i >= |refs| {
        return Err(UnknownBlock);
      }
      assert ChildDone(root, path, places, i, refs[i]);
      match refs[i] {
        case LeafRef(f) =>
          var es :- AddressedElems(blocks[f].outSizes, src.port, src.elems);
          var out := LeafSources(f, es);
          LeafSrcsOk(root, path, places, i, f, es, out);
          r := Ok(out);
        case SubRef(ins, outs) =>
          var es :- AddressedElems(scope.children[i].sub.outputs, src.port, src.elems);
          var out: seq<ElemRef> := [];
          for j := 0 to |es|
            invariant |out| == j
            invariant forall q {:trigger out[q]} | 0 <= q < j :: SrcOk(root, path, places, i, es[q], out[q])
          {
            if es[j] >= |outs| || outs[es[j]].None? {
              return Err(OutputNotDriven);
            }
            SubSrcOk(root, path, places, i, ins, outs, es[j]);
            out := out + [outs[es[j]].value];
          }
          r := Ok(out);
      }
    }

    /** The leaf input elements behind a connection target, grouped by addressed element. */
    method ResolveTarget(scope: Subsystem, refs: seq<ChildRef>, t: PortRef, ghost path: Path)
      returns (r: Result<seq<seq<ElemRef>>, ForwardError>)
      requires ScopeAt(root, path) == Some(scope) && |refs| == |scope.children|
      requires Known(root, places, blocks) && AllDone(root, path, places, refs)
      requires t.block.Child? && t.port == 0 && t.elems.Some?
      ensures r.Ok? ==> |r.value| == |t.elems.value| && t.block.idx < |refs|
      ensures r.Ok? ==> forall j {:trigger r.value[j]} | 0 <= j < |r.value| ::
                DstOk(root, path, places, t.block.idx, t.elems.value[j], r.value[j])
    {
      var i := t.block.idx;
      if i >= |refs| {
        return Err(UnknownBlock);
      }
      assert ChildDone(root, path, places, i, refs[i]);
      var out: seq<seq<ElemRef>> := [];
      match refs[i] {
        case LeafRef(f) =>
          var es :- AddressedElems(blocks[f].inSizes, t.port, t.elems);
          for j := 0 to |es|
            invariant |out| == j
            invariant forall q {:trigger out[q]} | 0 <= q < j :: DstOk(root, path, places, i, es[q], out[q])
          {
            LeafDstOk(root, path, places, blocks, i, f, es[j]);
            out := out + [[ElemRef(f, es[j])]];
          }
        case SubRef(ins, outs) =>
          var es :- AddressedElems(scope.children[i].sub.inputs, t.port, t.elems);
          for j := 0 to |es|
            invariant |out| == j
            invariant forall q {:trigger out[q]} | 0 <= q < j :: DstOk(root, path, places, i, es[q], out[q])
          {
            if es[j] >= |ins| {
              return Err(ElementOutOfRange);
            }
            SubDstOk(root, path, places, blocks, i, ins, outs, es[j]);
            out := out + [ins[es[j]]];
          }
      }
      r := Ok(out);
    }

    /** Routes every connection of the scope: through its interface into the splice maps, or
        directly into wires. */
    method RouteScope(
        scope: Subsystem, ghost path: Path, refs: seq<ChildRef>, ghost before: seq<Path>,
        ghost wiresBefore: seq<FlatWire>)
      returns (r: Result<(seq<seq<ElemRef>>, seq<Option<ElemRef>>), ForwardError>)
      requires PlainTree(root) && ScopeAt(root, path) == Some(scope) && Untouched(path, before)
      requires |refs| == |scope.children| && AllDone(root, path, places, refs)
      requires Known(root, places, blocks) && Bounded(|places|, wires) && before <= places
      requires forall f {:trigger places[f]} | |before| <= f < |places| :: path < places[f]
      requires WiresOk(root, path, |path| + 1, places, wires) && OldWiresKept(|before|, wiresBefore, wires)
      modifies this
      ensures r.Ok? ==> ScopeDone(root, path, before, wiresBefore, places, blocks, wires, r.value.0, r.value.1)
    {
      assert IsScope(root, path) && PlainScope(scope);
      var conns := scope.connections;
      var ins: seq<seq<ElemRef>> := seq(SizeSum(scope.inputs, |scope.inputs|), _ => []);
      var outs: seq<Option<ElemRef>> := seq(SizeSum(scope.outputs, |scope.outputs|), _ => None);
      RouteStart(root, path, conns, places, wires, |ins|, |outs|);
      for i := 0 to |conns|
        invariant places == old(places) && blocks == old(blocks) && OldWiresKept(|before|, wiresBefore, wires)
        invariant Routing(root, path, conns, RouteCursor(i, 0, 0), places, ins, outs, wires)
      {
        var n := |conns[i].targets|;
        for k := 0 to n
          invariant places == old(places) && blocks == old(blocks) && OldWiresKept(|before|, wiresBefore, wires)
          invariant Routing(root, path, conns, RouteCursor(i, k, 0), places, ins, outs, wires)
        {
          var maps :- RouteTarget(scope, path, refs, i, k, ins, outs, before, wiresBefore);
          ins, outs := maps.0, maps.1;
        }
        RouteNextConnection(root, path, conns, i, n, places, ins, outs, wires);
      }
      ghost var c := RouteCursor(|conns|, 0, 0);
      RouteEndIns(root, path, c, places, ins);
      RouteEndOuts(root, path, c, places, outs);
      RouteEndWires(root, path, c, places, wires);
      ChildrenCover(root, path, places, refs);
      r := Ok((ins, outs));
    }

    /** One target of one connection. */
    method RouteTarget(
        scope: Subsystem, ghost path: Path, refs: seq<ChildRef>, i: nat, k: nat,
        ins0: seq<seq<ElemRef>>, outs0: seq<Option<ElemRef>>, ghost before: seq<Path>, ghost wiresBefore: seq<FlatWire>)
      returns (r: Result<(seq<seq<ElemRef>>, seq<Option<ElemRef>>), ForwardError>)
      requires ScopeAt(root, path) == Some(scope) && PlainScope(scope) && Untouched(path, before) && before <= places
      requires |refs| == |scope.children| && AllDone(root, path, places, refs) && Known(root, places, blocks)
      requires i < |scope.connections| && k < |scope.connections[i].targets|
      requires Routing(root, path, scope.connections, RouteCursor(i, k, 0), places, ins0, outs0, wires)
      requires OldWiresKept(|before|, wiresBefore, wires)
      modifies this
      ensures places == old(places) && blocks == old(blocks)
      ensures r.Ok? ==> OldWiresKept(|before|, wiresBefore, wires)
      ensures r.Ok? ==>
                Routing(root, path, scope.connections, RouteCursor(i, k + 1, 0), places, r.value.0, r.value.1, wires)
    {
      var c := scope.connections[i];
      assert PlainConnection(c);
      var t := c.targets[k];
      var es, n := c.src.elems.value, |t.elems.value|;
      var ins, outs := ins0, outs0;
      match (c.src.block, t.block) {
        case (Iface, Iface) =>
          return Err(PassThrough);
        case (Iface, Child(_)) =>
          ins :- RouteInputs(scope, path, refs, i, k, ins0, outs0);
        case (Child(_), Iface) =>
          outs :- RouteOutputs(scope, path, refs, i, k, ins0, outs0);
        case (Child(_), Child(_)) =>
          var done :- RouteInner(scope, path, refs, i, k, ins0, outs0, before, wiresBefore);
      }
      RouteNextTarget(root, path, scope.connections, i, k, n, places, ins, outs, wires);
      r := Ok((ins, outs));
    }

    /** Interface input to inner: each interface element gains the leaves it feeds. */
    method RouteInputs(
        scope: Subsystem, ghost path: Path, refs: seq<ChildRef>, i: nat, k: nat,
        ins0: seq<seq<ElemRef>>, ghost outs: seq<Option<ElemRef>>)
      returns (r: Result<seq<seq<ElemRef>>, ForwardError>)
      requires ScopeAt(root, path) == Some(scope) && PlainScope(scope)
      requires |refs| == |scope.children| && AllDone(root, path, places, refs) && Known(root, places, blocks)
      requires i < |scope.connections| && k < |scope.connections[i].targets| && PlainConnection(scope.connections[i])
      requires scope.connections[i].src.block.Iface? && scope.connections[i].targets[k].block.Child?
      requires Routing(root, path, scope.connections, RouteCursor(i, k, 0), places, ins0, outs, wires)
      ensures r.Ok? ==>
                Routing(root, path, scope.connections,
                        RouteCursor(i, k, |scope.connections[i].targets[k].elems.value|), places, r.value, outs, wires)
    {
      var c := scope.connections[i];
      var t := c.targets[k];
      var ifc :- AddressedElems(scope.inputs, c.src.port, c.src.elems);
      var eps :- ResolveTarget(scope, refs, t, path);
      var ins := ins0;
      for j := 0 to |eps|
        invariant Routing(root, path, scope.connections, RouteCursor(i, k, j), places, ins, outs, wires)
      {
        if ifc[j] >= |ins| {
          return Err(ElementOutOfRange);
        }
        ghost var src := InputSrc(c.src.block, 0, c.src.elems.value[j]);
        PairAt(scope.connections, i, k, j);
        RouteInput(root, path, scope.connections, RouteCursor(i, k, j), places, ins, outs, wires, src, t.block,
                   t.elems.value[j], eps[j]);
        ins := ins[ifc[j] := ins[ifc[j]] + eps[j]];
      }
      r := Ok(ins);
    }

    /** Inner to interface output: each interface element records its driver. */
    method RouteOutputs(
        scope: Subsystem, ghost path: Path, refs: seq<ChildRef>, i: nat, k: nat,
        ghost ins: seq<seq<ElemRef>>, outs0: seq<Option<ElemRef>>)
      returns (r: Result<seq<Option<ElemRef>>, ForwardError>)
      requires ScopeAt(root, path) == Some(scope) && PlainScope(scope)
      requires |refs| == |scope.children| && AllDone(root, path, places, refs) && Known(root, places, blocks)
      requires i < |scope.connections| && k < |scope.connections[i].targets| && PlainConnection(scope.connections[i])
      requires scope.connections[i].src.block.Child? && scope.connections[i].targets[k].block.Iface?
      requires Routing(root, path, scope.connections, RouteCursor(i, k, 0), places, ins, outs0, wires)
      ensures r.Ok? ==>
                Routing(root, path, scope.connections,
                        RouteCursor(i, k, |scope.connections[i].targets[k].elems.value|), places, ins, r.value, wires)
    {
      var c := scope.connections[i];
      var t := c.targets[k];
      var ifc :- AddressedElems(scope.outputs, t.port, t.elems);
      var eps :- ResolveSrc(scope, refs, c.src, path);
      var outs := outs0;
      for j := 0 to |eps|
        invariant Routing(root, path, scope.connections, RouteCursor(i, k, j), places, ins, outs, wires)
      {
        if ifc[j] >= |outs| {
          return Err(ElementOutOfRange);
        }
        ghost var src := InputSrc(c.src.block, 0, c.src.elems.value[j]);
        PairAt(scope.connections, i, k, j);
        RouteOutput(root, path, scope.connections, RouteCursor(i, k, j), places, ins, outs, wires, src, ifc[j], eps[j]);
        outs := outs[ifc[j] := Some(eps[j])];
      }
      r := Ok(outs);
    }

    /** Inner to inner: one wire per pair of leaf elements. */
    method RouteInner(
        scope: Subsystem, ghost path: Path, refs: seq<ChildRef>, i: nat, k: nat,
        ghost ins: seq<seq<ElemRef>>, ghost outs: seq<Option<ElemRef>>,
        ghost before: seq<Path>, ghost wiresBefore: seq<FlatWire>)
      returns (r: Result<(), ForwardError>)
      requires ScopeAt(root, path) == Some(scope) && PlainScope(scope) && Untouched(path, before) && before <= places
      requires |refs| == |scope.children| && AllDone(root, path, places, refs) && Known(root, places, blocks)
      requires i < |scope.connections| && k < |scope.connections[i].targets| && PlainConnection(scope.connections[i])
      requires scope.connections[i].src.block.Child? && scope.connections[i].targets[k].block.Child?
      requires Routing(root, path, scope.connections, RouteCursor(i, k, 0), places, ins, outs, wires)
      requires OldWiresKept(|before|, wiresBefore, wires)
      modifies this`wires
      ensures r.Ok? ==> OldWiresKept(|before|, wiresBefore, wires)
      ensures r.Ok? ==>
                Routing(root, path, scope.connections,
                        RouteCursor(i, k, |scope.connections[i].targets[k].elems.value|), places, ins, outs, wires)
    {
      var c := scope.connections[i];
      var t := c.targets[k];
      var srcs :- ResolveSrc(scope, refs, c.src, path);
      var eps :- ResolveTarget(scope, refs, t, path);
      var all := wires;
      for j := 0 to |eps|
        invariant OldWiresKept(|before|, wiresBefore, all)
        invariant Routing(root, path, scope.connections, RouteCursor(i, k, j), places, ins, outs, all)
      {
        ghost var src := InputSrc(c.src.block, 0, c.src.elems.value[j]);
        PairAt(scope.connections, i, k, j);
        RouteWires(root, path, scope.connections, RouteCursor(i, k, j), places, blocks, ins, outs, all, src, t.block,
                   t.elems.value[j], srcs[j], eps[j]);
        OldKeptOnPush(path, before, wiresBefore, root, places, all, srcs[j], t.block.idx, t.elems.value[j], eps[j]);
        all := all + WiresFrom(srcs[j], eps[j]);
      }
      wires := all;
      r := Ok(());
    }
  }
}

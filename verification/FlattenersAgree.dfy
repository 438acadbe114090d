/** The forward splicer and the backward tracer, two independent flatteners of the same diagram,
    find the same leaf-to-leaf wires. */
module FlattenersAgree {
  import opened Wrappers
  import opened Ir
  import opened Wiring
  import opened Hierarchy
  import opened Flatten
  import opened FlatWires
  import opened LeafWires
  import opened ForwardFlatten

  /** The forward result: every leaf once, and a wire exactly where the backward trace of the
      consuming element stops at the producing element. */
  ghost predicate ForwardFlat(root: Subsystem, places: seq<Path>, blocks: seq<Block>, wires: seq<FlatWire>) {
    && Known(root, places, blocks) && NoPassThrough(root)
    && (forall p {:trigger IsLeafPath(root, p)} | IsLeafPath(root, p) :: p in places)
    && (forall w | w in wires :: w.src.block < |places| && w.dst.block < |places|)
    && forall f: nat, d: nat, g: nat, e: nat {:trigger WireTo(g, e, f, d)} | f < |places| && g < |places| ::
         WireTo(g, e, f, d) in wires <==>
         exists m: nat :: Walk(root, LeafDriver(root, places[f], d), m) == AtLeaf(places[g], e)
  }

  /** `flatten` of `src/codegen/system.rs`, before sinks are dropped. */
  method FlattenForward(root: Subsystem)
    returns (r: Result<(seq<Block>, seq<FlatWire>), ForwardError>, ghost places: seq<Path>)
    requires WellFormedTree(root) && PlainTree(root)
    ensures r.Ok? ==> ForwardFlat(root, places, r.value.0, r.value.1)
    ensures r.Ok? ==> exists at: seq<Path> :: ForwardFlat(root, at, r.value.0, r.value.1)
  {
    var fl := new ForwardFlattener(root);
    places := [];
    var maps := fl.FlattenScope(root, []);
    if maps.Err? {
      return Err(maps.error), places;
    }
    places := fl.places;
    RootDone(root, places, fl.blocks, fl.wires, maps.value.0, maps.value.1);
    r := Ok((fl.blocks, fl.wires));
  }

  lemma {:induction false} RootDone(
      root: Subsystem, places: seq<Path>, blocks: seq<Block>, wires: seq<FlatWire>,
      ins: seq<seq<ElemRef>>, outs: seq<Option<ElemRef>>)
    requires WellFormedTree(root) && ScopeDone(root, [], [], [], places, blocks, wires, ins, outs)
    ensures ForwardFlat(root, places, blocks, wires)
  {
    assert NoPassThrough(root) by {
      forall s: Path, e: nat | SourceIn(root, s, Iface, e).Some?
        ensures SourceIn(root, s, Iface, e).value.block.Child?
      {
        assert [] <= s;
      }
    }
    forall p | IsLeafPath(root, p) ensures p in places {
      assert [] <= p;
    }
    forall f: nat, d: nat, g: nat, e: nat | f < |places| && g < |places|
      ensures WireTo(g, e, f, d) in wires <==>
              exists m: nat :: Walk(root, LeafDriver(root, places[f], d), m) == AtLeaf(places[g], e)
    {
      assert IsLeafPath(root, places[f]) && [] < places[f];
      WiresAreTraces(root, places[f], d, LeafElem(places[g], e));
    }
  }

  // ---------------------------------------------------------------------------------------
  // Agreement
  // ---------------------------------------------------------------------------------------

  /** The trace leaves scope `p[..n]` through its interface. */
  predicate Leaves(root: Subsystem, p: Path, d: nat, n: nat)
    requires n < |p|
  {
    Exit(root, p, d, n).Some?
  }

  /** At the entry of scope `p[..n]`, a trace that does not leave the scope stops. */
  lemma {:induction false} StopsInside(root: Subsystem, p: Path, d: nat, n: nat) returns (m: nat)
    requires WellFormedTree(root) && NoPassThrough(root) && IsLeafPath(root, p) && n < |p|
    requires Entry(root, p, d, n).Some? && !Leaves(root, p, d, n)
    ensures !Walk(root, LeafDriver(root, p, d), m).Goto?
  {
    var x := Entry(root, p, d, n).value;
    var m0 := ClimbsToEntry(root, p, d, n);
    var found := SourceIn(root, p[..n], Child(p[n]), x);
    if found.None? {
      m := m0;
    } else {
      SourceIsValid(root, p[..n], Child(p[n]), x);
      var m1 := Descends(root, p[..n], found.value.block.idx, found.value.elem);
      WalkOn(root, LeafDriver(root, p, d), m0, m1);
      m := m0 + m1;
    }
  }

  /** Without pass-throughs a trace climbs out and then descends, so it stops or leaves. */
  lemma {:induction false} StopsOrLeaves(root: Subsystem, p: Path, d: nat, n: nat) returns (m: nat)
    requires WellFormedTree(root) && NoPassThrough(root) && IsLeafPath(root, p) && n < |p|
    ensures Leaves(root, p, d, n) || !Walk(root, LeafDriver(root, p, d), m).Goto?
    decreases |p| - n
  {
    m := 0;
    if Leaves(root, p, d, n) { return; }
    if n + 1 < |p| {
      m := StopsOrLeaves(root, p, d, n + 1);
      if !Leaves(root, p, d, n + 1) { return; }
    }
    m := StopsInside(root, p, d, n);
  }

  lemma {:induction false} NoTraceRevisits(root: Subsystem, p: Path, d: nat)
    requires WellFormedTree(root) && NoPassThrough(root) && IsLeafPath(root, p)
    ensures !Revisits(root, LeafDriver(root, p, d))
  {
    var from := LeafDriver(root, p, d);
    if Leaves(root, p, d, 0) {
      var m0 := ClimbsToEntry(root, p, d, 0);
      StopsAtRoot(root, p, d, m0);
    } else {
      var m := StopsOrLeaves(root, p, d, 0);
      StopIsFinal(root, from, m);
    }
  }

  lemma {:induction false} StopsAtRoot(root: Subsystem, p: Path, d: nat, m: nat)
    requires WellFormedTree(root) && IsLeafPath(root, p) && Leaves(root, p, d, 0)
    requires Walk(root, LeafDriver(root, p, d), m) == Driver(root, p[..0], Child(p[0]), Entry(root, p, d, 0).value)
    ensures !Revisits(root, LeafDriver(root, p, d))
  {
    var from, x := LeafDriver(root, p, d), Entry(root, p, d, 0).value;
    assert p[..0] == [];
    SourceIsValid(root, [], Child(p[0]), x);
    var e := Exit(root, p, d, 0).value;
    assert Walk(root, from, m) == Goto(TraceKey([], Iface, e));
    WalkOne(root, TraceKey([], Iface, e));
    WalkOn(root, from, m, 1);
    StopIsFinal(root, from, m + 1);
  }

  /** Whenever the forward splicer succeeds, the backward flattener sees no cycle, lists the same
      leaves, and connects the same elements: leaf `g` drives element `d` of leaf `f` in one exactly
      when the leaf at the same path does in the other. */
  lemma {:induction false} FlattenersAgree(
      root: Subsystem, places: seq<Path>, blocks: seq<Block>, wires: seq<FlatWire>,
      preserve: bool, places2: seq<Path>, leaves: seq<Block>, flat: seq<Connection>, sawCycle: bool)
    requires WellFormedTree(root) && ForwardFlat(root, places, blocks, wires)
    requires Flattened(root, preserve, places2, leaves, flat, sawCycle)
    ensures !sawCycle
    ensures forall p :: p in places <==> p in places2
    ensures forall f: nat, f2: nat, d: nat, g: nat, g2: nat,
            e: nat {:trigger WireTo(g, e, f, d), WireOf(flat, f2, d), places2[g2]}
              | f < |places| && f2 < |places2| && places[f] == places2[f2]
                && g < |places| && g2 < |places2| && places[g] == places2[g2] ::
              WireTo(g, e, f, d) in wires <==> WireOf(flat, f2, d) == Some(InputSrc(Child(g2), 0, e))
    ensures forall f: nat, f2: nat {:trigger blocks[f], leaves[f2]}
              | f < |places| && f2 < |places2| && places[f] == places2[f2] :: blocks[f] == leaves[f2]
  {
    if sawCycle {
      var f: nat, d: nat :| f < |places2| && Revisits(root, LeafDriver(root, places2[f], d));
      NoTraceRevisits(root, places2[f], d);
    }
    forall p ensures p in places <==> p in places2 {
      if p in places { assert IsLeafPath(root, p); }
      if p in places2 { assert IsLeafPath(root, p); }
    }
    forall f: nat, f2: nat, d: nat, g: nat, g2: nat, e: nat
      | f < |places| && f2 < |places2| && places[f] == places2[f2]
        && g < |places| && g2 < |places2| && places[g] == places2[g2]
      ensures WireTo(g, e, f, d) in wires <==> WireOf(flat, f2, d) == Some(InputSrc(Child(g2), 0, e))
    {
      BackwardWire(root, preserve, places2, leaves, flat, sawCycle, f2, d, g2, e);
    }
    forall f: nat, f2: nat | f < |places| && f2 < |places2| && places[f] == places2[f2]
      ensures blocks[f] == leaves[f2]
    {
      assert IsLeafPath(root, places[f]) && IsLeafPath(root, places2[f2]);
    }
  }

  /** The backward flattener's wire names a leaf exactly when the trace stops there. */
  lemma {:induction false} BackwardWire(
      root: Subsystem, preserve: bool, places: seq<Path>, leaves: seq<Block>, flat: seq<Connection>, sawCycle: bool,
      f: nat, d: nat, g: nat, e: nat)
    requires WellFormedTree(root) && NoPassThrough(root) && Flattened(root, preserve, places, leaves, flat, sawCycle)
    requires f < |places| && g < |places|
    ensures WireOf(flat, f, d) == Some(InputSrc(Child(g), 0, e)) <==>
            exists m: nat :: Walk(root, LeafDriver(root, places[f], d), m) == AtLeaf(places[g], e)
  {
    var from := LeafDriver(root, places[f], d);
    NoTraceRevisits(root, places[f], d);
    assert WireTraces(root, places, preserve, from, WireOf(flat, f, d));
    var m: nat :| !Walk(root, from, m).Goto? && Produces(places, preserve, Walk(root, from, m), WireOf(flat, f, d));
    StopIsFinal(root, from, m);
  }
}

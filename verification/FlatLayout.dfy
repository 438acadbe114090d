/** The global state, memory and parameter vectors of a flat list of blocks (the layout loops of
    `splice` in `src/compile/splice.rs`). */
module FlatLayout {
  import opened Wrappers
  import opened Ir
  import opened Joins
  import opened Wiring
  import opened SsaGraph
  import opened SpliceModel

  function StateParts(blocks: seq<Block>): (parts: seq<seq<real>>)
    ensures |parts| == |blocks| && forall i | 0 <= i < |parts| :: parts[i] == blocks[i].state
  {
    seq(|blocks|, i requires 0 <= i < |blocks| => blocks[i].state)
  }

  function ScalarOf(p: ParamValue): real {
    match p
    case Scalar(v) => v
    case Tensor(_) => 0.0
  }

  function ParamParts(blocks: seq<Block>): (parts: seq<seq<real>>)
    ensures |parts| == |blocks|
    ensures forall i | 0 <= i < |parts| :: |parts[i]| == |blocks[i].params|
    ensures forall i, k | 0 <= i < |parts| && 0 <= k < |parts[i]| :: parts[i][k] == ScalarOf(blocks[i].params[k])
  {
    seq(|blocks|, i requires 0 <= i < |blocks| => Scalars(blocks[i].params))
  }

  function Scalars(params: seq<ParamValue>): (s: seq<real>)
    ensures |s| == |params| && forall k | 0 <= k < |s| :: s[k] == ScalarOf(params[k])
  {
    seq(|params|, k requires 0 <= k < |params| => ScalarOf(params[k]))
  }

  function SlotParts(b: Block): (parts: seq<seq<real>>)
    ensures |parts| == |b.memory| && forall s | 0 <= s < |parts| :: parts[s] == b.memory[s].init
  {
    seq(|b.memory|, s requires 0 <= s < |b.memory| => b.memory[s].init)
  }

  function MemParts(blocks: seq<Block>): (parts: seq<seq<real>>)
    ensures |parts| == |blocks| && forall i | 0 <= i < |parts| :: parts[i] == Joined(SlotParts(blocks[i]))
  {
    seq(|blocks|, i requires 0 <= i < |blocks| => Joined(SlotParts(blocks[i])))
  }

  /** Every slot's initial contents fill it. */
  ghost predicate SlotsFilled(blocks: seq<Block>) {
    forall i, s | 0 <= i < |blocks| && 0 <= s < |blocks[i].memory| ::
      |blocks[i].memory[s].init| == blocks[i].memory[s].size
  }

  ghost predicate ScalarParams(b: Block) {
    forall k | 0 <= k < |b.params| :: b.params[k].Scalar?
  }

  ghost predicate AllScalar(blocks: seq<Block>) {
    forall i {:trigger blocks[i]} | 0 <= i < |blocks| :: ScalarParams(blocks[i])
  }

  ghost predicate Stateless(blocks: seq<Block>) {
    forall i {:trigger blocks[i]} | 0 <= i < |blocks| :: blocks[i].state == []
  }

  ghost predicate MemOffsets(blocks: seq<Block>, i: nat, offs: seq<nat>)
    requires i < |blocks|
  {
    && |offs| == |blocks[i].memory|
    && forall s | 0 <= s < |offs| :: offs[s] == Start(MemParts(blocks), i) + Start(SlotParts(blocks[i]), s)
  }

  /** Each block's states, memory slots and parameters follow those of the blocks before it. */
  ghost predicate LaidOut(blocks: seq<Block>, nIn: Option<nat>, l: Layout) {
    && |l.stateOff| == |l.paramOff| == |l.memOff| == |blocks|
    && (forall i {:trigger l.stateOff[i]} | 0 <= i < |blocks| :: l.stateOff[i] == Start(StateParts(blocks), i))
    && (forall i {:trigger l.paramOff[i]} | 0 <= i < |blocks| :: l.paramOff[i] == Start(ParamParts(blocks), i))
    && (forall i {:trigger l.memOff[i]} | 0 <= i < |blocks| :: MemOffsets(blocks, i, l.memOff[i]))
    && l.memBase == |Joined(StateParts(blocks))|
    && l.nExternal == nIn.UnwrapOr(0)
    && l.uBase == (if nIn.Some? then Some(l.memBase + |Joined(MemParts(blocks))|) else None)
    && l.tFlat == l.memBase + |Joined(MemParts(blocks))| + l.nExternal
  }

  /** The layout and the vectors so far. */
  datatype Partial = Partial(
    stateOff: seq<nat>, paramOff: seq<nat>, memOff: seq<seq<nat>>, x0: seq<real>, m0: seq<real>, params: seq<real>)

  ghost predicate OffsetsTo(parts: seq<seq<real>>, offs: seq<nat>, joined: seq<real>) {
    && |offs| <= |parts| && joined == Joined(parts[..|offs|])
    && forall j {:trigger offs[j]} | 0 <= j < |offs| :: offs[j] == Start(parts, j)
  }

  lemma {:induction false} OffsetsSnoc(parts: seq<seq<real>>, offs: seq<nat>, joined: seq<real>)
    requires OffsetsTo(parts, offs, joined) && |offs| < |parts|
    ensures OffsetsTo(parts, offs + [|joined|], joined + parts[|offs|])
  {
    JoinedSnoc(parts, |offs|);
  }

  /** The layout of the first `i` blocks. */
  ghost predicate LaidOutTo(blocks: seq<Block>, i: nat, p: Partial)
    requires i <= |blocks|
  {
    && |p.stateOff| == |p.paramOff| == |p.memOff| == i
    && OffsetsTo(StateParts(blocks), p.stateOff, p.x0)
    && OffsetsTo(ParamParts(blocks), p.paramOff, p.params)
    && p.m0 == Joined(MemParts(blocks)[..i])
    && (forall j {:trigger p.memOff[j]} | 0 <= j < i :: MemOffsets(blocks, j, p.memOff[j]))
  }

  lemma {:induction false} LayOneMore(blocks: seq<Block>, i: nat, p: Partial, offs: seq<nat>)
    requires i < |blocks| && LaidOutTo(blocks, i, p)
    requires |offs| == |blocks[i].memory|
    requires forall s | 0 <= s < |offs| :: offs[s] == |p.m0| + Start(SlotParts(blocks[i]), s)
    ensures LaidOutTo(blocks, i + 1, Partial(
      p.stateOff + [|p.x0|], p.paramOff + [|p.params|], p.memOff + [offs],
      p.x0 + blocks[i].state, p.m0 + Joined(SlotParts(blocks[i])), p.params + Scalars(blocks[i].params)))
  {
    OffsetsSnoc(StateParts(blocks), p.stateOff, p.x0);
    OffsetsSnoc(ParamParts(blocks), p.paramOff, p.params);
    JoinedSnoc(MemParts(blocks), i);
    assert ParamParts(blocks)[i] == Scalars(blocks[i].params);
    assert MemOffsets(blocks, i, offs);
  }

  function LayoutFrom(p: Partial, nIn: Option<nat>): Layout {
    var nState, nMem, n := |p.x0|, |p.m0|, nIn.UnwrapOr(0);
    Layout(p.stateOff, p.paramOff, p.memOff, nState, nState + nMem + n,
           if nIn.Some? then Some(nState + nMem) else None, n)
  }

  lemma {:induction false} LaidOutAll(blocks: seq<Block>, p: Partial)
    requires LaidOutTo(blocks, |blocks|, p)
    ensures p.x0 == Joined(StateParts(blocks)) && p.m0 == Joined(MemParts(blocks))
    ensures p.params == Joined(ParamParts(blocks))
    ensures p.x0 == [] <==> Stateless(blocks)
    ensures forall nIn: Option<nat> :: LaidOut(blocks, nIn, LayoutFrom(p, nIn))
  {
    JoinedAll(StateParts(blocks));
    JoinedAll(ParamParts(blocks));
    JoinedAll(MemParts(blocks));
    EmptyJoin(StateParts(blocks));
  }

  datatype Vectors = Vectors(layout: Layout, x0: seq<real>, m0: seq<real>, params: seq<real>)

  method ScalarDefaults(params: seq<ParamValue>) returns (r: Option<seq<real>>)
    ensures r.Some? <==> forall k | 0 <= k < |params| :: params[k].Scalar?
    ensures r.Some? ==> r.value == Scalars(params)
  {
    var s: seq<real> := [];
    for k := 0 to |params|
      invariant |s| == k && forall j | 0 <= j < k :: params[j].Scalar? && s[j] == params[j].v
    {
      match params[k] {
        case Scalar(v) => s := s + [v];
        case Tensor(_) => return None;
      }
    }
    r := Some(s);
  }

  method SlotOffsets(b: Block, start: nat) returns (offs: seq<nat>, data: seq<real>, end: nat)
    requires forall s | 0 <= s < |b.memory| :: |b.memory[s].init| == b.memory[s].size
    ensures |offs| == |b.memory| && forall s | 0 <= s < |offs| :: offs[s] == start + Start(SlotParts(b), s)
    ensures data == Joined(SlotParts(b)) && end == start + |data|
  {
    offs, data, end := [], [], start;
    JoinedAll(SlotParts(b));
    for s := 0 to |b.memory|
      invariant |offs| == s && forall j | 0 <= j < s :: offs[j] == start + Start(SlotParts(b), j)
      invariant data == Joined(SlotParts(b)[..s]) && end == start + |data|
    {
      JoinedSnoc(SlotParts(b), s);
      offs := offs + [end];
      data := data + b.memory[s].init;
      end := end + b.memory[s].size;
    }
  }

  method LayBlock(blocks: seq<Block>, i: nat, p: Partial) returns (r: Option<Partial>)
    requires SlotsFilled(blocks) && i < |blocks| && LaidOutTo(blocks, i, p)
    ensures r.Some? <==> ScalarParams(blocks[i])
    ensures r.Some? ==> LaidOutTo(blocks, i + 1, r.value)
  {
    var b := blocks[i];
    var offs, data, _ := SlotOffsets(b, |p.m0|);
    var defaults := ScalarDefaults(b.params);
    if defaults.None? {
      return None;
    }
    LayOneMore(blocks, i, p, offs);
    r := Some(Partial(p.stateOff + [|p.x0|], p.paramOff + [|p.params|], p.memOff + [offs],
                      p.x0 + b.state, p.m0 + data, p.params + defaults.value));
  }

  lemma {:induction false} LaidOutNone(blocks: seq<Block>)
    ensures LaidOutTo(blocks, 0, Partial([], [], [], [], [], []))
  {
  }

  /** One pass over the blocks; stops at the first parameter that is not scalar. */
  method LayBlocks(blocks: seq<Block>) returns (r: Option<Partial>)
    requires SlotsFilled(blocks)
    ensures r.Some? <==> AllScalar(blocks)
    ensures r.Some? ==> LaidOutTo(blocks, |blocks|, r.value)
  {
    var p := Partial([], [], [], [], [], []);
    LaidOutNone(blocks);
    for i := 0 to |blocks|
      invariant LaidOutTo(blocks, i, p)
      invariant forall j | 0 <= j < i :: ScalarParams(blocks[j])
    {
      var next := LayBlock(blocks, i, p);
      if next.None? {
        return None;
      }
      p := next.value;
    }
    r := Some(p);
  }

  /** Fails exactly when some parameter is not scalar, or else when there is no state at all. */
  method LayOut(blocks: seq<Block>, nIn: Option<nat>) returns (r: Result<Vectors, CompileError>)
    requires SlotsFilled(blocks)
    ensures r == Err(Unsupported) <==> !AllScalar(blocks)
    ensures r == Err(NoState) <==> AllScalar(blocks) && Stateless(blocks)
    ensures r.Err? ==> r.error == Unsupported || r.error == NoState
    ensures r.Ok? ==> LaidOut(blocks, nIn, r.value.layout)
    ensures r.Ok? ==> r.value.x0 == Joined(StateParts(blocks)) && r.value.m0 == Joined(MemParts(blocks))
    ensures r.Ok? ==> r.value.params == Joined(ParamParts(blocks))
  {
    var laid := LayBlocks(blocks);
    if laid.None? {
      return Err(Unsupported);
    }
    var p := laid.value;
    LaidOutAll(blocks, p);
    if |p.x0| == 0 {
      return Err(NoState);
    }
    r := Ok(Vectors(LayoutFrom(p, nIn), p.x0, p.m0, p.params));
  }

  lemma {:induction false} EmptyJoin<T>(parts: seq<seq<T>>)
    ensures Joined(parts) == [] <==> forall i | 0 <= i < |parts| :: parts[i] == []
  {
    if Joined(parts) == [] {
      forall i | 0 <= i < |parts| ensures parts[i] == [] {
        if parts[i] != [] { JoinedAt(parts, i, 0); }
      }
    } else {
      var i, k := Locate(parts, 0);
    }
  }

  // ---------------------------------------------------------------------------------------
  // Worlds and flat vectors
  // ---------------------------------------------------------------------------------------

  /** The world that the flat vectors stand for. */
  ghost function WorldOf(m: Model, env: Env): World {
    var l := m.layout;
    World(
      env.prims,
      (b: nat, id: nat) => if b < |l.stateOff| then env.inp(l.stateOff[b] + id) else 0.0,
      (b: nat, slot: nat, offset: nat) =>
        if b < |l.memOff| && slot < |l.memOff[b]| then env.inp(l.memBase + l.memOff[b][slot] + offset) else 0.0,
      (b: nat, id: nat) => if b < |l.paramOff| then env.par(l.paramOff[b] + id) else 0.0,
      env.inp(l.tFlat),
      (e: nat) => if l.uBase.Some? then env.inp(l.uBase.value + e) else 0.0)
  }

  lemma {:induction false} FlatVectorsPackTheirWorld(m: Model, env: Env)
    requires WellFormedModel(m)
    ensures Packs(m, WorldOf(m, env), env)
  {
    forall b: nat | b < |m.blocks| ensures PacksBlock(m, WorldOf(m, env), env, b) {
    }
  }

  function StatesOf(w: World, b: nat, n: nat): (vs: seq<real>)
    ensures |vs| == n && forall k | 0 <= k < n :: vs[k] == w.state(b, k)
  {
    seq(n, k requires 0 <= k < n => w.state(b, k))
  }

  function ParamsOf(w: World, b: nat, n: nat): (vs: seq<real>)
    ensures |vs| == n && forall k | 0 <= k < n :: vs[k] == w.param(b, k)
  {
    seq(n, k requires 0 <= k < n => w.param(b, k))
  }

  function CellsOf(w: World, b: nat, s: nat, n: nat): (vs: seq<real>)
    ensures |vs| == n && forall k | 0 <= k < n :: vs[k] == w.memory(b, s, k)
  {
    seq(n, k requires 0 <= k < n => w.memory(b, s, k))
  }

  function StateValues(blocks: seq<Block>, w: World): (parts: seq<seq<real>>)
    ensures |parts| == |blocks| && forall i | 0 <= i < |parts| :: parts[i] == StatesOf(w, i, |blocks[i].state|)
  {
    seq(|blocks|, i requires 0 <= i < |blocks| => StatesOf(w, i, |blocks[i].state|))
  }

  function ParamValues(blocks: seq<Block>, w: World): (parts: seq<seq<real>>)
    ensures |parts| == |blocks| && forall i | 0 <= i < |parts| :: parts[i] == ParamsOf(w, i, |blocks[i].params|)
  {
    seq(|blocks|, i requires 0 <= i < |blocks| => ParamsOf(w, i, |blocks[i].params|))
  }

  function SlotValues(b: Block, i: nat, w: World): (parts: seq<seq<real>>)
    ensures |parts| == |b.memory| && forall s | 0 <= s < |parts| :: parts[s] == CellsOf(w, i, s, b.memory[s].size)
  {
    seq(|b.memory|, s requires 0 <= s < |b.memory| => CellsOf(w, i, s, b.memory[s].size))
  }

  function MemValues(blocks: seq<Block>, w: World): (parts: seq<seq<real>>)
    ensures |parts| == |blocks| && forall i | 0 <= i < |parts| :: parts[i] == Joined(SlotValues(blocks[i], i, w))
  {
    seq(|blocks|, i requires 0 <= i < |blocks| => Joined(SlotValues(blocks[i], i, w)))
  }

  function ValueAt(xs: seq<real>, i: nat): real { if i < |xs| then xs[i] else 0.0 }

  /** The flat input space `x`, `m`, `u`, `t`. */
  function FlatInput(x: seq<real>, mem: seq<real>, external: nat -> real, n: nat, time: real, i: nat): real {
    if i < |x| then x[i]
    else if i < |x| + |mem| then mem[i - |x|]
    else if i < |x| + |mem| + n then external(i - |x| - |mem|)
    else time
  }

  /** Flat vectors as the inputs of one graph call. */
  function FlatEnv(
      prims: Prims, x: seq<real>, mem: seq<real>, par: seq<real>, external: nat -> real, n: nat, time: real):
    (env: Env)
    ensures env.prims == prims
    ensures forall i: nat :: env.inp(i) == FlatInput(x, mem, external, n, time, i)
    ensures forall i: nat :: env.par(i) == ValueAt(par, i)
  {
    Env(prims, (i: nat) => FlatInput(x, mem, external, n, time, i), (i: nat) => ValueAt(par, i))
  }

  lemma {:induction false} SameLength<S, T>(xs: seq<seq<S>>, ys: seq<seq<T>>)
    requires |xs| == |ys| && forall j | 0 <= j < |xs| :: |xs[j]| == |ys[j]|
    ensures |Joined(xs)| == |Joined(ys)|
  {
    SameStarts(xs, ys, |xs|);
    JoinedAll(xs);
    JoinedAll(ys);
  }

  /** `xs` holds, part by part, the values that `at` gives. */
  lemma {:induction false} PackedParts<T>(xs: seq<seq<real>>, parts: seq<seq<T>>, i: nat, k: nat)
    requires |xs| == |parts| && forall j | 0 <= j < |xs| :: |xs[j]| == |parts[j]|
    requires i < |xs| && k < |xs[i]|
    ensures |Joined(xs)| == |Joined(parts)| && Start(parts, i) + k < |Joined(xs)|
    ensures Joined(xs)[Start(parts, i) + k] == xs[i][k]
  {
    SameStarts(xs, parts, i);
    SameLength(xs, parts);
    JoinedAt(xs, i, k);
  }

  lemma {:induction false} PackedMemory(blocks: seq<Block>, w: World, b: nat, slot: nat, offset: nat, at: nat)
    requires SlotsFilled(blocks) && b < |blocks|
    requires slot < |blocks[b].memory| && offset < blocks[b].memory[slot].size
    requires at == Start(MemParts(blocks), b) + Start(SlotParts(blocks[b]), slot) + offset
    ensures HoldsAt(Joined(MemValues(blocks, w)), at, w.memory(b, slot, offset))
  {
    var k := Start(SlotParts(blocks[b]), slot) + offset;
    PackedSlot(blocks[b], w, b, slot, offset, k);
    MemoryLengths(blocks, w);
    PackedParts(MemValues(blocks, w), MemParts(blocks), b, k);
  }

  lemma {:induction false} PackedSlot(block: Block, w: World, b: nat, slot: nat, offset: nat, k: nat)
    requires slot < |block.memory| && offset < block.memory[slot].size
    requires forall s | 0 <= s < |block.memory| :: |block.memory[s].init| == block.memory[s].size
    requires k == Start(SlotParts(block), slot) + offset
    ensures HoldsAt(Joined(SlotValues(block, b, w)), k, w.memory(b, slot, offset))
  {
    PackedParts(SlotValues(block, b, w), SlotParts(block), slot, offset);
  }

  lemma {:induction false} MemoryLengths(blocks: seq<Block>, w: World)
    requires SlotsFilled(blocks)
    ensures forall i | 0 <= i < |blocks| :: |MemValues(blocks, w)[i]| == |MemParts(blocks)[i]|
  {
    forall i | 0 <= i < |blocks| ensures |MemValues(blocks, w)[i]| == |MemParts(blocks)[i]| {
      SameLength(SlotValues(blocks[i], i, w), SlotParts(blocks[i]));
    }
  }

  /** Where the flat input space holds a state, a memory cell, an external input and time. */
  lemma {:induction false} FlatInputAt(
      x: seq<real>, mem: seq<real>, external: nat -> real, n: nat, time: real, base: nat, at: nat, v: real)
    requires base == |x|
    ensures HoldsAt(x, at, v) ==> FlatInput(x, mem, external, n, time, at) == v
    ensures HoldsAt(mem, at, v) ==> FlatInput(x, mem, external, n, time, base + at) == v
    ensures at < n ==> FlatInput(x, mem, external, n, time, base + |mem| + at) == external(at)
    ensures FlatInput(x, mem, external, n, time, base + |mem| + n) == time
  {
    if at < |mem| {
      var i := base + at;
      assert i - |x| == at;
    }
    if at < n {
      var i := base + |mem| + at;
      assert i - |x| - |mem| == at;
    }
  }

  ghost predicate HoldsAt(xs: seq<real>, i: nat, v: real) {
    i < |xs| && xs[i] == v
  }

  ghost predicate StateAt(m: Model, w: World, x: seq<real>, b: nat, id: nat)
    requires b < |m.layout.stateOff|
  {
    HoldsAt(x, m.layout.stateOff[b] + id, w.state(b, id))
  }

  ghost predicate ParamAt(m: Model, w: World, par: seq<real>, b: nat, id: nat)
    requires b < |m.layout.paramOff|
  {
    HoldsAt(par, m.layout.paramOff[b] + id, w.param(b, id))
  }

  ghost predicate CellAt(m: Model, w: World, mem: seq<real>, b: nat, slot: nat, offset: nat)
    requires b < |m.layout.memOff| && slot < |m.layout.memOff[b]|
  {
    HoldsAt(mem, m.layout.memOff[b][slot] + offset, w.memory(b, slot, offset))
  }

  lemma {:induction false} StateHeld(m: Model, nIn: Option<nat>, w: World, b: nat, id: nat)
    requires LaidOut(m.blocks, nIn, m.layout) && b < |m.blocks| && id < |m.blocks[b].state|
    ensures StateAt(m, w, Joined(StateValues(m.blocks, w)), b, id)
  {
    PackedParts(StateValues(m.blocks, w), StateParts(m.blocks), b, id);
  }

  lemma {:induction false} ParamHeld(m: Model, nIn: Option<nat>, w: World, b: nat, id: nat)
    requires LaidOut(m.blocks, nIn, m.layout) && b < |m.blocks| && id < |m.blocks[b].params|
    ensures ParamAt(m, w, Joined(ParamValues(m.blocks, w)), b, id)
  {
    PackedParts(ParamValues(m.blocks, w), ParamParts(m.blocks), b, id);
  }

  lemma {:induction false} CellHeld(m: Model, nIn: Option<nat>, w: World, b: nat, slot: nat, offset: nat)
    requires LaidOut(m.blocks, nIn, m.layout) && SlotsFilled(m.blocks) && b < |m.blocks|
    requires slot < |m.blocks[b].memory| == |m.layout.memOff[b]| && offset < m.blocks[b].memory[slot].size
    ensures CellAt(m, w, Joined(MemValues(m.blocks, w)), b, slot, offset)
  {
    assert MemOffsets(m.blocks, b, m.layout.memOff[b]);
    PackedMemory(m.blocks, w, b, slot, offset, m.layout.memOff[b][slot] + offset);
  }

  ghost predicate HoldsStates(m: Model, w: World, x: seq<real>)
    requires |m.blocks| == |m.layout.stateOff|
  {
    && |x| == m.layout.memBase
    && forall b: nat, id: nat {:trigger StateAt(m, w, x, b, id)} | b < |m.blocks| && id < |m.blocks[b].state| ::
         StateAt(m, w, x, b, id)
  }

  ghost predicate HoldsParams(m: Model, w: World, par: seq<real>)
    requires |m.blocks| == |m.layout.paramOff|
  {
    forall b: nat, id: nat {:trigger ParamAt(m, w, par, b, id)} | b < |m.blocks| && id < |m.blocks[b].params| ::
      ParamAt(m, w, par, b, id)
  }

  predicate IsCell(m: Model, b: nat, slot: nat, offset: nat)
    requires |m.blocks| == |m.layout.memOff|
  {
    b < |m.blocks| && slot < |m.blocks[b].memory| == |m.layout.memOff[b]| && offset < m.blocks[b].memory[slot].size
  }

  ghost predicate HoldsCells(m: Model, w: World, mem: seq<real>)
    requires |m.blocks| == |m.layout.memOff|
  {
    forall b: nat, slot: nat, offset: nat {:trigger CellAt(m, w, mem, b, slot, offset)} | IsCell(m, b, slot, offset) ::
      CellAt(m, w, mem, b, slot, offset)
  }

  lemma {:induction false} StatesFill(m: Model, nIn: Option<nat>, w: World)
    requires LaidOut(m.blocks, nIn, m.layout)
    ensures |Joined(StateValues(m.blocks, w))| == m.layout.memBase
  {
    SameLength(StateValues(m.blocks, w), StateParts(m.blocks));
  }

  lemma {:induction false} SomeStates(m: Model, nIn: Option<nat>, w: World) returns (x: seq<real>)
    requires LaidOut(m.blocks, nIn, m.layout)
    ensures HoldsStates(m, w, x)
  {
    x := Joined(StateValues(m.blocks, w));
    StatesFill(m, nIn, w);
    forall b: nat, id: nat {:trigger StateAt(m, w, x, b, id)} | b < |m.blocks| && id < |m.blocks[b].state|
      ensures StateAt(m, w, x, b, id)
    {
      StateHeld(m, nIn, w, b, id);
    }
  }

  lemma {:induction false} SomeParams(m: Model, nIn: Option<nat>, w: World) returns (par: seq<real>)
    requires LaidOut(m.blocks, nIn, m.layout)
    ensures HoldsParams(m, w, par)
  {
    par := Joined(ParamValues(m.blocks, w));
    forall b: nat, id: nat {:trigger ParamAt(m, w, par, b, id)} | b < |m.blocks| && id < |m.blocks[b].params|
      ensures ParamAt(m, w, par, b, id)
    {
      ParamHeld(m, nIn, w, b, id);
    }
  }

  lemma {:induction false} CellsFill(m: Model, nIn: Option<nat>, w: World)
    requires LaidOut(m.blocks, nIn, m.layout) && SlotsFilled(m.blocks)
    ensures |Joined(MemValues(m.blocks, w))| == |Joined(MemParts(m.blocks))|
  {
    MemoryLengths(m.blocks, w);
    SameLength(MemValues(m.blocks, w), MemParts(m.blocks));
  }

  lemma {:induction false} SomeCells(m: Model, nIn: Option<nat>, w: World) returns (mem: seq<real>)
    requires LaidOut(m.blocks, nIn, m.layout) && SlotsFilled(m.blocks)
    ensures HoldsCells(m, w, mem) && |mem| == |Joined(MemParts(m.blocks))|
  {
    mem := Joined(MemValues(m.blocks, w));
    CellsFill(m, nIn, w);
    forall b: nat, slot: nat, offset: nat {:trigger CellAt(m, w, mem, b, slot, offset)} | IsCell(m, b, slot, offset)
      ensures CellAt(m, w, mem, b, slot, offset)
    {
      CellHeld(m, nIn, w, b, slot, offset);
    }
  }

  /** Every world is the meaning of some flat vectors: no two places share an index. */
  lemma {:induction false} EveryWorldPacks(m: Model, nIn: Option<nat>, w: World) returns (env: Env)
    requires LaidOut(m.blocks, nIn, m.layout) && SlotsFilled(m.blocks)
    ensures Packs(m, w, env)
  {
    var x := SomeStates(m, nIn, w);
    var mem := SomeCells(m, nIn, w);
    var par := SomeParams(m, nIn, w);
    env := FlatEnv(w.prims, x, mem, par, w.external, m.layout.nExternal, w.time);
    TailPacks(m, w, x, mem, par, env);
    forall b: nat | b < |m.blocks| ensures PacksBlock(m, w, env, b) {
      HeldPacks(m, w, x, mem, par, env, b);
    }
  }

  lemma {:induction false} TailPacks(
      m: Model, w: World, x: seq<real>, mem: seq<real>, par: seq<real>, env: Env)
    requires |x| == m.layout.memBase && m.layout.tFlat == |x| + |mem| + m.layout.nExternal
    requires m.layout.uBase.Some? ==> m.layout.uBase.value == |x| + |mem|
    requires env == FlatEnv(w.prims, x, mem, par, w.external, m.layout.nExternal, w.time)
    ensures env.prims == w.prims && env.inp(m.layout.tFlat) == w.time
    ensures m.layout.uBase.Some? ==>
              forall e: nat | e < m.layout.nExternal :: env.inp(m.layout.uBase.value + e) == w.external(e)
  {
    var n := m.layout.nExternal;
    FlatInputAt(x, mem, w.external, n, w.time, |x|, 0, 0.0);
    forall e: nat | m.layout.uBase.Some? && e < n ensures env.inp(m.layout.uBase.value + e) == w.external(e) {
      FlatInputAt(x, mem, w.external, n, w.time, |x|, e, 0.0);
    }
  }

  lemma {:induction false} HeldPacks(
      m: Model, w: World, x: seq<real>, mem: seq<real>, par: seq<real>, env: Env, b: nat)
    requires b < |m.blocks| == |m.layout.stateOff| == |m.layout.paramOff| == |m.layout.memOff|
    requires HoldsStates(m, w, x) && HoldsCells(m, w, mem) && HoldsParams(m, w, par)
    requires env == FlatEnv(w.prims, x, mem, par, w.external, m.layout.nExternal, w.time)
    ensures PacksBlock(m, w, env, b)
  {
    var base, n := m.layout.memBase, m.layout.nExternal;
    forall id: nat | id < |m.blocks[b].state| ensures env.inp(m.layout.stateOff[b] + id) == w.state(b, id) {
      assert StateAt(m, w, x, b, id);
      FlatInputAt(x, mem, w.external, n, w.time, base, m.layout.stateOff[b] + id, w.state(b, id));
    }
    forall id: nat | id < |m.blocks[b].params| ensures env.par(m.layout.paramOff[b] + id) == w.param(b, id) {
      assert ParamAt(m, w, par, b, id);
    }
    forall slot: nat, offset: nat
      | slot < |m.blocks[b].memory| == |m.layout.memOff[b]| && offset < m.blocks[b].memory[slot].size
      ensures env.inp(m.layout.memBase + m.layout.memOff[b][slot] + offset) == w.memory(b, slot, offset)
    {
      assert IsCell(m, b, slot, offset) && CellAt(m, w, mem, b, slot, offset);
      var at := m.layout.memOff[b][slot] + offset;
      FlatInputAt(x, mem, w.external, n, w.time, base, at, w.memory(b, slot, offset));
    }
  }
}

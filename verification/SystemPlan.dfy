/** Layout and wiring of a flat system (`build_plan` in `src/codegen/system.rs`). */
module SystemPlan {
  import opened Wrappers
  import opened Ir
  import opened FlatWires
  import T = TopoOrder

  datatype ExtWire = ExtWire(ext: nat, block: nat, elem: nat)

  datatype Plan = Plan(
    blocks: seq<Block>,
    topo: seq<nat>,
    outOff: seq<Option<nat>>,
    nSig: nat,
    stateOff: seq<Option<nat>>,
    nState: nat,
    inputSrc: seq<seq<Option<nat>>>,
    extInput: seq<seq<Option<nat>>>,
    ifaceSigs: seq<nat>,
    memOff: seq<seq<nat>>,
    nMem: nat)

  function Total(sizes: seq<nat>): nat { SizeSum(sizes, |sizes|) }

  /** The first signal of block `i`; for `i == |blocks|`, the number of signals. */
  function SigStart(blocks: seq<Block>, i: nat): nat
    requires i <= |blocks|
  {
    if i == 0 then 0 else SigStart(blocks, i - 1) + Total(blocks[i - 1].outSizes)
  }

  predicate Integrates(b: Block) { b.state != [] && b.role != Sink }

  function StateStart(blocks: seq<Block>, i: nat): nat
    requires i <= |blocks|
  {
    if i == 0 then 0
    else StateStart(blocks, i - 1) + if Integrates(blocks[i - 1]) then |blocks[i - 1].state| else 0
  }

  lemma {:induction false} SigStartMonotone(blocks: seq<Block>, i: nat, j: nat)
    requires i < j <= |blocks|
    ensures SigStart(blocks, i) + Total(blocks[i].outSizes) <= SigStart(blocks, j)
    decreases j
  {
    if i < j - 1 { SigStartMonotone(blocks, i, j - 1); }
  }

  lemma {:induction false} StateStartMonotone(blocks: seq<Block>, i: nat, j: nat)
    requires i < j <= |blocks|
    ensures StateStart(blocks, i) + (if Integrates(blocks[i]) then |blocks[i].state| else 0) <= StateStart(blocks, j)
    decreases j
  {
    if i < j - 1 { StateStartMonotone(blocks, i, j - 1); }
  }

  /** Blocks with outputs own consecutive signals, stateful blocks consecutive states. */
  ghost predicate OffsetsOk(blocks: seq<Block>, outOff: seq<Option<nat>>, stateOff: seq<Option<nat>>) {
    && |outOff| == |stateOff| == |blocks|
    && (forall i {:trigger outOff[i]} | 0 <= i < |blocks| ::
          outOff[i] == if Total(blocks[i].outSizes) > 0 then Some(SigStart(blocks, i)) else None)
    && (forall i {:trigger stateOff[i]} | 0 <= i < |blocks| ::
          stateOff[i] == if Integrates(blocks[i]) then Some(StateStart(blocks, i)) else None)
  }

  /** The last of the first `n` wires into `elem` of `block`. */
  function LastWire(wires: seq<FlatWire>, n: nat, block: nat, elem: nat): Option<ElemRef>
    requires n <= |wires|
  {
    if n == 0 then None
    else if wires[n - 1].dst == ElemRef(block, elem) then Some(wires[n - 1].src)
    else LastWire(wires, n - 1, block, elem)
  }

  function LastExt(wires: seq<ExtWire>, n: nat, block: nat, elem: nat): Option<nat>
    requires n <= |wires|
  {
    if n == 0 then None
    else if wires[n - 1].block == block && wires[n - 1].elem == elem then Some(wires[n - 1].ext)
    else LastExt(wires, n - 1, block, elem)
  }

  /** The signal that a wire's source element is stored in. */
  function SignalOf(blocks: seq<Block>, src: Option<ElemRef>): Option<nat> {
    match src
    case None => None
    case Some(r) => if r.block < |blocks| then Some(SigStart(blocks, r.block) + r.elem) else None
  }

  ghost predicate InputsOk(blocks: seq<Block>, wires: seq<FlatWire>, n: nat, inputSrc: seq<seq<Option<nat>>>)
    requires n <= |wires|
  {
    && |inputSrc| == |blocks|
    && (forall i {:trigger inputSrc[i]} | 0 <= i < |blocks| :: |inputSrc[i]| == Total(blocks[i].inSizes))
    && (forall i, e {:trigger inputSrc[i][e]} | 0 <= i < |blocks| && 0 <= e < |inputSrc[i]| ::
          inputSrc[i][e] == SignalOf(blocks, LastWire(wires, n, i, e)))
  }

  ghost predicate ExtsOk(blocks: seq<Block>, exts: seq<ExtWire>, n: nat, extInput: seq<seq<Option<nat>>>)
    requires n <= |exts|
  {
    && |extInput| == |blocks|
    && (forall i {:trigger extInput[i]} | 0 <= i < |blocks| :: |extInput[i]| == Total(blocks[i].inSizes))
    && (forall i, e {:trigger extInput[i][e]} | 0 <= i < |blocks| && 0 <= e < |extInput[i]| ::
          extInput[i][e] == LastExt(exts, n, i, e))
  }

  /** Elements of the root's outputs are stored where their blocks' outputs are. */
  ghost predicate IfaceOk(blocks: seq<Block>, ifaceOut: seq<ElemRef>, ifaceSigs: seq<nat>) {
    && |ifaceSigs| <= |ifaceOut|
    && forall q {:trigger ifaceOut[q]} | 0 <= q < |ifaceSigs| ::
         HasSignals(blocks, ifaceOut[q]) && Some(ifaceSigs[q]) == SignalOf(blocks, Some(ifaceOut[q]))
  }

  predicate HasSignals(blocks: seq<Block>, r: ElemRef) {
    r.block < |blocks| && Total(blocks[r.block].outSizes) > 0
  }

  function ParamCount(v: ParamValue): nat {
    match v
    case Scalar(_) => 1
    case Tensor(data) => |data|
  }

  /** The parameter values of a block in id order. */
  function ParamTotal(params: seq<ParamValue>, n: nat): nat
    requires n <= |params|
  {
    if n == 0 then 0 else ParamTotal(params, n - 1) + ParamCount(params[n - 1])
  }

  function ParamsOf(b: Block): nat {
    ParamTotal(b.params, |b.params|)
  }

  function ParamStart(blocks: seq<Block>, i: nat): nat
    requires i <= |blocks|
  {
    if i == 0 then 0 else ParamStart(blocks, i - 1) + ParamsOf(blocks[i - 1])
  }

  ghost predicate ParamsLaidOut(blocks: seq<Block>, paramOff: seq<nat>) {
    |paramOff| == |blocks| && forall b: nat {:trigger paramOff[b]} | b < |blocks| ::
      paramOff[b] == ParamStart(blocks, b)
  }

  /** The elements of the first `n` memory slots. */
  function SlotStart(memory: seq<MemorySlot>, n: nat): nat
    requires n <= |memory|
  {
    if n == 0 then 0 else SlotStart(memory, n - 1) + memory[n - 1].size
  }

  /** The first memory element of block `i`; for `i == |blocks|`, the number of memory elements. */
  function MemStart(blocks: seq<Block>, i: nat): nat
    requires i <= |blocks|
  {
    if i == 0 then 0 else MemStart(blocks, i - 1) + SlotStart(blocks[i - 1].memory, |blocks[i - 1].memory|)
  }

  /** The slots follow each other from element `first` on. */
  ghost predicate Placed(memory: seq<MemorySlot>, slots: seq<nat>, first: nat) {
    |slots| == |memory| && forall k: nat {:trigger slots[k]} | k < |slots| :: slots[k] == first + SlotStart(memory, k)
  }

  ghost predicate MemoryLaidOut(blocks: seq<Block>, offs: seq<seq<nat>>) {
    |offs| == |blocks| && forall b: nat {:trigger offs[b]} | b < |blocks| ::
      Placed(blocks[b].memory, offs[b], MemStart(blocks, b))
  }

  lemma {:induction false} SlotStartGrows(memory: seq<MemorySlot>, s: nat, t: nat)
    requires s < t <= |memory|
    ensures SlotStart(memory, s) + memory[s].size <= SlotStart(memory, t)
    decreases t
  {
    if s < t - 1 { SlotStartGrows(memory, s, t - 1); }
  }

  lemma {:induction false} MemStartGrows(blocks: seq<Block>, i: nat, j: nat)
    requires i <= j <= |blocks|
    ensures MemStart(blocks, i) <= MemStart(blocks, j)
    decreases j
  {
    if i < j { MemStartGrows(blocks, i, j - 1); }
  }

  lemma {:induction false} SlotEnds(blocks: seq<Block>, i: nat, s: nat)
    requires i < |blocks| && s < |blocks[i].memory|
    ensures MemStart(blocks, i) + SlotStart(blocks[i].memory, s) + blocks[i].memory[s].size <= MemStart(blocks, i + 1)
  {
    SlotStartGrows(blocks[i].memory, s, |blocks[i].memory|);
  }

  /** No two memory slots share an element, and none passes the end of the memory. */
  lemma {:induction false} SlotsAreApart(blocks: seq<Block>, memOff: seq<seq<nat>>, i: nat, s: nat, j: nat, t: nat)
    requires MemoryLaidOut(blocks, memOff) && i < |blocks| && j < |blocks|
    requires s < |memOff[i]| && t < |memOff[j]| && (i < j || (i == j && s < t))
    ensures memOff[i][s] + blocks[i].memory[s].size <= memOff[j][t]
    ensures memOff[j][t] + blocks[j].memory[t].size <= MemStart(blocks, |blocks|)
  {
    SlotEnds(blocks, i, s);
    SlotEnds(blocks, j, t);
    MemStartGrows(blocks, j + 1, |blocks|);
    if i < j { MemStartGrows(blocks, i + 1, j); } else { SlotStartGrows(blocks[i].memory, s, t); }
  }

  ghost predicate PlanOk(plan: Plan, wires: seq<FlatWire>, exts: seq<ExtWire>, deps: T.Deps) {
    && T.WiresInRange(|plan.blocks|, wires) && T.DependsOn(plan.blocks, wires, deps)
    && T.Permutation(plan.topo, |plan.blocks|)
    && ((exists valid :: T.ValidOrder(valid, deps)) <==> T.ValidOrder(plan.topo, deps))
    && OffsetsOk(plan.blocks, plan.outOff, plan.stateOff)
    && plan.nSig == SigStart(plan.blocks, |plan.blocks|) && plan.nState == StateStart(plan.blocks, |plan.blocks|)
    && InputsOk(plan.blocks, wires, |wires|, plan.inputSrc)
    && ExtsOk(plan.blocks, exts, |exts|, plan.extInput)
  }

  /** What the plan says about interface outputs and memory. */
  ghost predicate StorageOk(plan: Plan, ifaceOut: seq<ElemRef>) {
    && IfaceOk(plan.blocks, ifaceOut, plan.ifaceSigs) && |plan.ifaceSigs| == |ifaceOut|
    && MemoryLaidOut(plan.blocks, plan.memOff)
    && plan.nMem == MemStart(plan.blocks, |plan.blocks|)
  }

  datatype PlanError = Opaque | NoOutputs

  predicate BlockIsOpaque(b: Block) {
    || (exists i :: 0 <= i < |b.alg.ops| && b.alg.ops[i].Call?)
    || (exists i :: 0 <= i < |b.dyn.ops| && b.dyn.ops[i].Call?)
  }

  method LayOutBlocks(blocks: seq<Block>)
    returns (outOff: seq<Option<nat>>, nSig: nat, stateOff: seq<Option<nat>>, nState: nat)
    ensures OffsetsOk(blocks, outOff, stateOff)
    ensures nSig == SigStart(blocks, |blocks|) && nState == StateStart(blocks, |blocks|)
  {
    outOff, nSig, stateOff, nState := [], 0, [], 0;
    for i := 0 to |blocks|
      invariant OffsetsOk(blocks[..i], outOff, stateOff)
      invariant nSig == SigStart(blocks, i) && nState == StateStart(blocks, i)
    {
      var b := blocks[i];
      var nOut := Total(b.outSizes);
      OffsetsSnoc(blocks, i, outOff, stateOff);
      outOff := outOff + [if nOut > 0 then Some(nSig) else None];
      nSig := nSig + nOut;
      stateOff := stateOff + [if Integrates(b) then Some(nState) else None];
      nState := nState + if Integrates(b) then |b.state| else 0;
    }
    assert blocks[..|blocks|] == blocks;
  }

  lemma {:induction false} StartsIgnoreTail(blocks: seq<Block>, n: nat, i: nat)
    requires i <= n <= |blocks|
    ensures SigStart(blocks[..n], i) == SigStart(blocks, i) && StateStart(blocks[..n], i) == StateStart(blocks, i)
    decreases i
  {
    if i > 0 { StartsIgnoreTail(blocks, n, i - 1); }
  }

  lemma {:induction false} OffsetsSnoc(blocks: seq<Block>, i: nat, outOff: seq<Option<nat>>, stateOff: seq<Option<nat>>)
    requires i < |blocks| && OffsetsOk(blocks[..i], outOff, stateOff)
    ensures OffsetsOk(
      blocks[..i + 1],
      outOff + [if Total(blocks[i].outSizes) > 0 then Some(SigStart(blocks, i)) else None],
      stateOff + [if Integrates(blocks[i]) then Some(StateStart(blocks, i)) else None])
  {
    forall j | 0 <= j <= i
      ensures SigStart(blocks[..i + 1], j) == SigStart(blocks, j)
              && StateStart(blocks[..i + 1], j) == StateStart(blocks, j)
      ensures j < i ==>
                SigStart(blocks[..i], j) == SigStart(blocks, j) && StateStart(blocks[..i], j) == StateStart(blocks, j)
    {
      StartsIgnoreTail(blocks, i + 1, j);
      StartsIgnoreTail(blocks, i, j);
    }
  }

  /** Element-to-element wiring; a wire out of a block without outputs is an error. */
  method WireInputs(
      blocks: seq<Block>, outOff: seq<Option<nat>>, ghost stateOff: seq<Option<nat>>, wires: seq<FlatWire>)
    returns (r: Result<seq<seq<Option<nat>>>, PlanError>)
    requires OffsetsOk(blocks, outOff, stateOff) && T.WiresInRange(|blocks|, wires)
    ensures r.Ok? ==> InputsOk(blocks, wires, |wires|, r.value)
    ensures r.Ok? <==> forall w | w in wires :: HasSignals(blocks, w.src)
  {
    var inputSrc: seq<seq<Option<nat>>> :=
      seq(|blocks|, i requires 0 <= i < |blocks| => seq(Total(blocks[i].inSizes), _ => None));
    for q := 0 to |wires|
      invariant InputsOk(blocks, wires, q, inputSrc)
      invariant forall p | 0 <= p < q :: Total(blocks[wires[p].src.block].outSizes) > 0
    {
      var w := wires[q];
      assert w in wires;
      if outOff[w.src.block].None? {
        return Err(NoOutputs);
      }
      var (b, e) := (w.dst.block, w.dst.elem);
      if e < |inputSrc[b]| {
        inputSrc := inputSrc[b := inputSrc[b][e := Some(outOff[w.src.block].value + w.src.elem)]];
      }
    }
    r := Ok(inputSrc);
  }

  method WireExternals(blocks: seq<Block>, exts: seq<ExtWire>) returns (extInput: seq<seq<Option<nat>>>)
    ensures ExtsOk(blocks, exts, |exts|, extInput)
  {
    extInput := seq(|blocks|, i requires 0 <= i < |blocks| => seq(Total(blocks[i].inSizes), _ => None));
    for q := 0 to |exts|
      invariant ExtsOk(blocks, exts, q, extInput)
    {
      var w := exts[q];
      if w.block < |extInput| && w.elem < |extInput[w.block]| {
        extInput := extInput[w.block := extInput[w.block][w.elem := Some(w.ext)]];
      }
    }
  }

  /** Each block's memory slots, one after the other. */
  method LayOutMemory(blocks: seq<Block>) returns (offs: seq<seq<nat>>, n: nat)
    ensures MemoryLaidOut(blocks, offs) && n == MemStart(blocks, |blocks|)
  {
    offs, n := [], 0;
    for i := 0 to |blocks|
      invariant |offs| == i && n == MemStart(blocks, i)
      invariant forall b: nat {:trigger offs[b]} | b < i :: Placed(blocks[b].memory, offs[b], MemStart(blocks, b))
    {
      var slots, next := LayOutSlots(blocks[i].memory, n);
      offs, n := offs + [slots], next;
    }
  }

  method LayOutSlots(memory: seq<MemorySlot>, first: nat) returns (slots: seq<nat>, next: nat)
    ensures Placed(memory, slots, first) && next == first + SlotStart(memory, |memory|)
  {
    slots, next := [], first;
    for s := 0 to |memory|
      invariant |slots| == s && next == first + SlotStart(memory, s)
      invariant forall k: nat {:trigger slots[k]} | k < s :: slots[k] == first + SlotStart(memory, k)
    {
      slots := slots + [next];
      next := next + memory[s].size;
    }
  }

  /** The blocks' parameter vectors, one after the other. */
  method LayOutParams(blocks: seq<Block>) returns (paramOff: seq<nat>, nParam: nat)
    ensures ParamsLaidOut(blocks, paramOff) && nParam == ParamStart(blocks, |blocks|)
  {
    paramOff, nParam := [], 0;
    for i := 0 to |blocks|
      invariant |paramOff| == i && nParam == ParamStart(blocks, i)
      invariant forall b: nat {:trigger paramOff[b]} | b < i :: paramOff[b] == ParamStart(blocks, b)
    {
      paramOff := paramOff + [nParam];
      nParam := nParam + ParamsOf(blocks[i]);
    }
  }

  /** The signals of the root's outputs; an output driven by a block without outputs is an error. */
  method WireOutputs(
      blocks: seq<Block>, outOff: seq<Option<nat>>, ghost stateOff: seq<Option<nat>>, ifaceOut: seq<ElemRef>)
    returns (r: Result<seq<nat>, PlanError>)
    requires OffsetsOk(blocks, outOff, stateOff)
    ensures r.Ok? ==> IfaceOk(blocks, ifaceOut, r.value) && |r.value| == |ifaceOut|
    ensures r.Ok? <==> forall o | o in ifaceOut :: HasSignals(blocks, o)
  {
    var sigs: seq<nat> := [];
    for q := 0 to |ifaceOut|
      invariant |sigs| == q && IfaceOk(blocks, ifaceOut, sigs)
    {
      var o := ifaceOut[q];
      assert o in ifaceOut;
      if o.block >= |outOff| || outOff[o.block].None? {
        return Err(NoOutputs);
      }
      sigs := sigs + [outOff[o.block].value + o.elem];
    }
    r := Ok(sigs);
  }

  method BuildPlan(blocks: seq<Block>, wires: seq<FlatWire>, exts: seq<ExtWire>, ifaceOut: seq<ElemRef>)
    returns (r: Result<Plan, PlanError>, ghost deps: T.Deps)
    requires T.WiresInRange(|blocks|, wires)
    ensures r == Err(Opaque) <==> exists i :: 0 <= i < |blocks| && BlockIsOpaque(blocks[i])
    ensures r == Err(NoOutputs) <==>
              && (forall i | 0 <= i < |blocks| :: !BlockIsOpaque(blocks[i]))
              && ((exists w :: w in wires && !HasSignals(blocks, w.src))
                  || exists o :: o in ifaceOut && !HasSignals(blocks, o))
    ensures r.Ok? ==> r.value.blocks == blocks && PlanOk(r.value, wires, exts, deps) && StorageOk(r.value, ifaceOut)
  {
    deps := [];
    if exists i :: 0 <= i < |blocks| && BlockIsOpaque(blocks[i]) {
      return Err(Opaque), deps;
    }
    var outOff, nSig, stateOff, nState := LayOutBlocks(blocks);
    var memOff, nMem := LayOutMemory(blocks);
    var inputs := WireInputs(blocks, outOff, stateOff, wires);
    if inputs.Err? {
      return Err(NoOutputs), deps;
    }
    var extInput := WireExternals(blocks, exts);
    var ifaceSigs := WireOutputs(blocks, outOff, stateOff, ifaceOut);
    if ifaceSigs.Err? {
      return Err(NoOutputs), deps;
    }
    var topo;
    topo, deps := T.Order(blocks, wires);
    r := Ok(Plan(blocks, topo, outOff, nSig, stateOff, nState, inputs.value, extInput, ifaceSigs.value, memOff, nMem));
  }
}

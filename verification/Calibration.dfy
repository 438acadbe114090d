/** Addresses of a generated model's variables (`src/codegen/system.rs`, `build_layout`, `build_a2l`): every state,
    signal, parameter, input and memory element is listed once, at its own bytes of the model struct. */
module Calibration {
  import opened Wrappers
  import opened Ir
  import opened SystemPlan
  import opened StructLayout

  // ---------------------------------------------------------------------------------------
  // Dimensions
  // ---------------------------------------------------------------------------------------

  datatype Dims = Dims(states: nat, signals: nat, params: nat, inputs: nat, memory: nat)

  function DimsOf(blocks: seq<Block>, inputs: nat): Dims {
    var n := |blocks|;
    Dims(StateStart(blocks, n), SigStart(blocks, n), ParamStart(blocks, n), inputs, MemStart(blocks, n))
  }

  // ---------------------------------------------------------------------------------------
  // The fields of the model struct
  // ---------------------------------------------------------------------------------------

  datatype EventClass = Periodic | Fixed | Crossing | Conditional

  datatype EventField = EventField(block: nat, event: nat, kind: EventClass)

  function EventSpecs(e: EventField, width: nat): seq<Spec> {
    match e.kind
    case Periodic => [Spec(Counter(e.block, e.event), 1, 8)]
    case Fixed => [Spec(Cursor(e.block, e.event), 1, 8)]
    case _ => [Spec(Previous(e.block, e.event), 1, width), Spec(Initialised(e.block, e.event), 1, 4)]
  }

  function AllEventSpecs(events: seq<EventField>, width: nat): seq<Spec> {
    if events == [] then [] else AllEventSpecs(events[..|events| - 1], width) + EventSpecs(events[|events| - 1], width)
  }

  /** An array field is there only if it has elements. */
  function ArraySpec(name: FieldName, count: nat, size: nat): seq<Spec> {
    if count > 0 then [Spec(name, count, size)] else []
  }

  function ArraySpecs(d: Dims, width: nat): seq<Spec> {
    [Spec(Clock, 1, width)] + ArraySpec(StateVec, d.states, width) + ArraySpec(SignalVec, d.signals, width)
    + ArraySpec(ParamVec, d.params, width) + ArraySpec(InputVec, d.inputs, width)
      + ArraySpec(MemoryVec, d.memory, width)
  }

  function TrailerSpecs(events: seq<EventField>, adaptive: bool, width: nat): seq<Spec> {
    (if events != [] then [Spec(Started, 1, 4)] else []) + (if adaptive then [Spec(StepSize, 1, width)] else [])
  }

  function ModelSpecs(d: Dims, events: seq<EventField>, adaptive: bool, width: nat): seq<Spec> {
    ArraySpecs(d, width) + AllEventSpecs(events, width) + TrailerSpecs(events, adaptive, width)
  }

  method PushArray(specs: seq<Spec>, name: FieldName, count: nat, size: nat) returns (r: seq<Spec>)
    ensures r == specs + ArraySpec(name, count, size)
  {
    r := specs;
    if count > 0 {
      r := r + [Spec(name, count, size)];
    }
  }

  method PushArrays(d: Dims, width: nat) returns (specs: seq<Spec>)
    ensures specs == ArraySpecs(d, width)
  {
    specs := [Spec(Clock, 1, width)];
    specs := PushArray(specs, StateVec, d.states, width);
    specs := PushArray(specs, SignalVec, d.signals, width);
    specs := PushArray(specs, ParamVec, d.params, width);
    specs := PushArray(specs, InputVec, d.inputs, width);
    specs := PushArray(specs, MemoryVec, d.memory, width);
  }

  method ModelStructFields(
      d: Dims, events: seq<EventField>, adaptive: bool, width: nat)
    returns (fields: seq<Field>, total: nat)
    requires width == 4 || width == 8
    ensures var specs := ModelSpecs(d, events, adaptive, width);
            && Sized(specs) && fields == Fields(specs)
            && MaxAlign(specs, |specs|) >= 1 && total == AlignUp(End(specs, |specs|), MaxAlign(specs, |specs|))
  {
    var specs := PushArrays(d, width);
    for i := 0 to |events|
      invariant specs == ArraySpecs(d, width) + AllEventSpecs(events[..i], width)
    {
      assert events[..i + 1][..i] == events[..i];
      var e := events[i];
      match e.kind {
        case Periodic => specs := specs + [Spec(Counter(e.block, e.event), 1, 8)];
        case Fixed => specs := specs + [Spec(Cursor(e.block, e.event), 1, 8)];
        case _ => specs := specs
            + [Spec(Previous(e.block, e.event), 1, width), Spec(Initialised(e.block, e.event), 1, 4)];
      }
    }
    assert events[..|events|] == events;
    specs := specs + TrailerSpecs(events, adaptive, width);
    assert specs == ModelSpecs(d, events, adaptive, width);
    SpecsAreSized(d, events, adaptive, width);
    fields, total := LayFields(specs);
  }

  ghost predicate SmallSizes(specs: seq<Spec>) {
    forall i | 0 <= i < |specs| :: specs[i].size == 4 || specs[i].size == 8
  }

  lemma {:induction false} EventSpecsAreSmall(events: seq<EventField>, width: nat)
    requires width == 4 || width == 8
    ensures SmallSizes(AllEventSpecs(events, width))
    decreases |events|
  {
    if events != [] { EventSpecsAreSmall(events[..|events| - 1], width); }
  }

  lemma {:induction false} SpecsAreSized(d: Dims, events: seq<EventField>, adaptive: bool, width: nat)
    requires width == 4 || width == 8
    ensures SmallSizes(ModelSpecs(d, events, adaptive, width)) && Sized(ModelSpecs(d, events, adaptive, width))
  {
    EventSpecsAreSmall(events, width);
    var specs := ModelSpecs(d, events, adaptive, width);
    assert SmallSizes(ArraySpecs(d, width)) && SmallSizes(TrailerSpecs(events, adaptive, width));
    forall i | 0 <= i < |specs| ensures specs[i].size == 4 || specs[i].size == 8 {
      var a, b := |ArraySpecs(d, width)|, |AllEventSpecs(events, width)|;
      if i < a { assert specs[i] == ArraySpecs(d, width)[i]; }
      else if i < a + b { assert specs[i] == AllEventSpecs(events, width)[i - a]; }
      else { assert specs[i] == TrailerSpecs(events, adaptive, width)[i - a - b]; }
    }
  }

  // ---------------------------------------------------------------------------------------
  // The addressable variables
  // ---------------------------------------------------------------------------------------

  datatype VarKind = StateVar | OutputVar | LocalVar | ParamVar | InputVar

  datatype LayoutVar = LayoutVar(kind: VarKind, id: nat)

  /** `n` variables of one kind with consecutive ids. */
  function Run(kind: VarKind, first: nat, n: nat): (r: seq<LayoutVar>)
    ensures |r| == n
  {
    if n == 0 then [] else Run(kind, first, n - 1) + [LayoutVar(kind, first + n - 1)]
  }

  lemma {:induction false} RunJoins(kind: VarKind, first: nat, m: nat, n: nat)
    ensures Run(kind, first, m) + Run(kind, first + m, n) == Run(kind, first, m + n)
    decreases n
  {
    if n > 0 { RunJoins(kind, first, m, n - 1); }
  }

  /** The signals of the model: those that drive its interface are outputs, unless it has none. */
  function SignalKind(iface: Option<set<nat>>, sig: nat): VarKind {
    if iface.None? || sig in iface.value then OutputVar else LocalVar
  }

  function SignalRun(iface: Option<set<nat>>, base: nat, n: nat): (r: seq<LayoutVar>)
    ensures |r| == n
  {
    if n == 0 then [] else SignalRun(iface, base, n - 1) + [LayoutVar(SignalKind(iface, n - 1), base + n - 1)]
  }

  /** All variables in the order of the struct's vectors, ids running through without a gap. */
  function AllVars(d: Dims, iface: Option<set<nat>>): seq<LayoutVar> {
    Run(StateVar, 0, d.states) + SignalRun(iface, d.states, d.signals) + Run(ParamVar, d.states + d.signals, d.params)
    + Run(InputVar, 0, d.inputs)
  }

  method BuildLayout(
      blocks: seq<Block>, outOff: seq<Option<nat>>, stateOff: seq<Option<nat>>, iface: Option<set<nat>>, inputs: nat)
    returns (vars: seq<LayoutVar>)
    requires OffsetsOk(blocks, outOff, stateOff)
    ensures vars == AllVars(DimsOf(blocks, inputs), iface)
  {
    var d := DimsOf(blocks, inputs);
    var states := StateVars(blocks, outOff, stateOff);
    var signals := SignalVars(blocks, outOff, stateOff, iface, d.states);
    var params := ParamVars(blocks, d.states + d.signals);
    var externals: seq<LayoutVar> := [];
    for k := 0 to inputs
      invariant externals == Run(InputVar, 0, k)
    {
      externals := externals + [LayoutVar(InputVar, k)];
    }
    vars := states + signals + params + externals;
  }

  method StateVars(
      blocks: seq<Block>, ghost outOff: seq<Option<nat>>, stateOff: seq<Option<nat>>)
    returns (vars: seq<LayoutVar>)
    requires OffsetsOk(blocks, outOff, stateOff)
    ensures vars == Run(StateVar, 0, StateStart(blocks, |blocks|))
  {
    vars := [];
    for i := 0 to |blocks|
      invariant vars == Run(StateVar, 0, StateStart(blocks, i))
    {
      if stateOff[i].Some? {
        for k := 0 to |blocks[i].state|
          invariant vars == Run(StateVar, 0, StateStart(blocks, i) + k)
        {
          vars := vars + [LayoutVar(StateVar, stateOff[i].value + k)];
        }
      }
    }
  }

  method SignalVars(
      blocks: seq<Block>, outOff: seq<Option<nat>>, ghost stateOff: seq<Option<nat>>, iface: Option<set<nat>>,
      base: nat)
    returns (vars: seq<LayoutVar>)
    requires OffsetsOk(blocks, outOff, stateOff)
    ensures vars == SignalRun(iface, base, SigStart(blocks, |blocks|))
  {
    vars := [];
    for i := 0 to |blocks|
      invariant vars == SignalRun(iface, base, SigStart(blocks, i))
    {
      if outOff[i].Some? {
        for k := 0 to Total(blocks[i].outSizes)
          invariant vars == SignalRun(iface, base, SigStart(blocks, i) + k)
        {
          var sig := outOff[i].value + k;
          vars := vars + [LayoutVar(SignalKind(iface, sig), base + sig)];
        }
      }
    }
  }

  method ParamVars(blocks: seq<Block>, base: nat) returns (vars: seq<LayoutVar>)
    ensures vars == Run(ParamVar, base, ParamStart(blocks, |blocks|))
  {
    vars := [];
    var off := 0;
    for i := 0 to |blocks|
      invariant off == ParamStart(blocks, i) && vars == Run(ParamVar, base, off)
    {
      for k := 0 to ParamsOf(blocks[i])
        invariant vars == Run(ParamVar, base, off + k)
      {
        vars := vars + [LayoutVar(ParamVar, base + off + k)];
      }
      off := off + ParamsOf(blocks[i]);
    }
  }

  // ---------------------------------------------------------------------------------------
  // Addresses
  // ---------------------------------------------------------------------------------------

  /** An element of one of the struct's fields. */
  datatype Slot = Slot(field: FieldName, index: nat)

  /** An address in the model struct, and whether a tool may write it. */
  datatype Entry = Entry(field: FieldName, offset: nat, writable: bool)

  function FieldOff(fields: seq<Field>, name: FieldName): Option<nat> {
    if fields == [] then None
    else if fields[0].name == name then Some(fields[0].offset)
    else FieldOff(fields[1..], name)
  }

  predicate Writable(name: FieldName) {
    name.StateVec? || name.ParamVec? || name.InputVec?
  }

  /** The entry of an element, if its field exists. */
  function EntryFor(fields: seq<Field>, s: Slot, width: nat): seq<Entry> {
    var base := FieldOff(fields, s.field);
    if base.Some? then [Entry(s.field, base.value + Times(s.index, width), Writable(s.field))] else []
  }

  function EntriesFor(fields: seq<Field>, slots: seq<Slot>, width: nat): seq<Entry> {
    if slots == [] then []
    else EntriesFor(fields, slots[..|slots| - 1], width) + EntryFor(fields, slots[|slots| - 1], width)
  }

  lemma {:induction false} EntriesJoin(fields: seq<Field>, a: seq<Slot>, b: seq<Slot>, width: nat)
    ensures EntriesFor(fields, a + b, width) == EntriesFor(fields, a, width) + EntriesFor(fields, b, width)
    decreases |b|
  {
    if b == [] {
      assert a + b == a;
    } else {
      var front := b[..|b| - 1];
      assert (a + b)[..|a + b| - 1] == a + front;
      EntriesJoin(fields, a, front, width);
    }
  }

  /** The element a variable stands for; ids of signals and parameters come after those of the states. */
  function SlotOf(v: LayoutVar, d: Dims): Slot
    requires v.kind.OutputVar? || v.kind.LocalVar? ==> v.id >= d.states
    requires v.kind.ParamVar? ==> v.id >= d.states + d.signals
  {
    match v.kind
    case StateVar => Slot(StateVec, v.id)
    case OutputVar => Slot(SignalVec, v.id - d.states)
    case LocalVar => Slot(SignalVec, v.id - d.states)
    case ParamVar => Slot(ParamVec, v.id - d.states - d.signals)
    case InputVar => Slot(InputVec, v.id)
  }

  ghost predicate IdOk(v: LayoutVar, d: Dims) {
    && (v.kind.OutputVar? || v.kind.LocalVar? ==> v.id >= d.states)
    && (v.kind.ParamVar? ==> v.id >= d.states + d.signals)
  }

  ghost predicate IdsOk(vars: seq<LayoutVar>, d: Dims) {
    forall i | 0 <= i < |vars| :: IdOk(vars[i], d)
  }

  /** The elements listed as measurements (`params` false) or as characteristics (`params` true). */
  ghost function SlotsOf(vars: seq<LayoutVar>, n: nat, d: Dims, params: bool): seq<Slot>
    requires n <= |vars| && IdsOk(vars, d)
  {
    if n == 0 then []
    else
      var v, front := vars[n - 1], SlotsOf(vars, n - 1, d, params);
      if v.kind.ParamVar? == params then front + [SlotOf(v, d)] else front
  }

  function SlotRun(field: FieldName, n: nat): (r: seq<Slot>)
    ensures |r| == n && forall i | 0 <= i < n :: r[i] == Slot(field, i)
  {
    if n == 0 then [] else SlotRun(field, n - 1) + [Slot(field, n - 1)]
  }

  lemma {:induction false} OneMoreEntry(fields: seq<Field>, slots: seq<Slot>, s: Slot, width: nat)
    ensures EntriesFor(fields, slots + [s], width) == EntriesFor(fields, slots, width) + EntryFor(fields, s, width)
  {
    assert (slots + [s])[..|slots|] == slots;
  }

  method ListVars(vars: seq<LayoutVar>, fields: seq<Field>, d: Dims, width: nat)
    returns (measurements: seq<Entry>, characteristics: seq<Entry>)
    requires IdsOk(vars, d)
    ensures measurements == EntriesFor(fields, SlotsOf(vars, |vars|, d, false), width)
    ensures characteristics == EntriesFor(fields, SlotsOf(vars, |vars|, d, true), width)
  {
    measurements, characteristics := [], [];
    for i := 0 to |vars|
      invariant measurements == EntriesFor(fields, SlotsOf(vars, i, d, false), width)
      invariant characteristics == EntriesFor(fields, SlotsOf(vars, i, d, true), width)
    {
      var v := vars[i];
      assert IdOk(v, d);
      ghost var slot := SlotOf(v, d);
      OneMoreEntry(fields, SlotsOf(vars, i, d, v.kind.ParamVar?), slot, width);
      if v.kind.ParamVar? {
        characteristics := characteristics + EntryFor(fields, SlotOf(v, d), width);
      } else {
        measurements := measurements + EntryFor(fields, SlotOf(v, d), width);
      }
    }
  }

  ghost predicate MemoryListed(entries: seq<Entry>, fields: seq<Field>, n: nat, width: nat) {
    entries == MemoryEntries(fields, n, width)
  }

  /** The entries of the first `n` memory elements. */
  ghost function MemoryEntries(fields: seq<Field>, n: nat, width: nat): seq<Entry> {
    if n == 0 then [] else MemoryEntries(fields, n - 1, width) + EntryFor(fields, Slot(MemoryVec, n - 1), width)
  }

  lemma {:induction false} MemoryIsARun(fields: seq<Field>, n: nat, width: nat)
    ensures MemoryEntries(fields, n, width) == EntriesFor(fields, SlotRun(MemoryVec, n), width)
    decreases n
  {
    if n > 0 {
      MemoryIsARun(fields, n - 1, width);
      assert SlotRun(MemoryVec, n) == SlotRun(MemoryVec, n - 1) + [Slot(MemoryVec, n - 1)];
      OneMoreEntry(fields, SlotRun(MemoryVec, n - 1), Slot(MemoryVec, n - 1), width);
    }
  }

  /** The elements of one memory slot that starts at `first`. */
  method ListSlot(entries: seq<Entry>, fields: seq<Field>, first: nat, size: nat, ghost end: nat, width: nat)
    returns (r: seq<Entry>)
    requires MemoryListed(entries, fields, first, width) && end == first + size
    ensures MemoryListed(r, fields, end, width)
  {
    r := entries;
    var n := first;
    for e := 0 to size
      invariant n == first + e && MemoryListed(r, fields, n, width)
    {
      r := r + EntryFor(fields, Slot(MemoryVec, n), width);
      n := n + 1;
    }
  }

  /** Where slot `s` of a block whose memory starts at `first` begins. */
  function SlotAt(memory: seq<MemorySlot>, first: nat, s: nat): nat
    requires s <= |memory|
  {
    first + SlotStart(memory, s)
  }

  lemma {:induction false} PlacedSlot(memory: seq<MemorySlot>, slots: seq<nat>, first: nat, s: nat)
    requires Placed(memory, slots, first) && s < |memory|
    ensures slots[s] == SlotAt(memory, first, s)
    ensures SlotAt(memory, first, s + 1) == slots[s] + memory[s].size
  {
  }

  method ListBlock(
      entries: seq<Entry>, fields: seq<Field>, memory: seq<MemorySlot>, slots: seq<nat>, ghost first: nat, width: nat)
    returns (r: seq<Entry>)
    requires MemoryListed(entries, fields, first, width) && Placed(memory, slots, first)
    ensures MemoryListed(r, fields, SlotAt(memory, first, |memory|), width)
  {
    r := entries;
    for s := 0 to |memory|
      invariant MemoryListed(r, fields, SlotAt(memory, first, s), width)
    {
      PlacedSlot(memory, slots, first, s);
      r := ListSlot(r, fields, slots[s], memory[s].size, SlotAt(memory, first, s + 1), width);
    }
  }

  method ListMemory(
      blocks: seq<Block>, offs: seq<seq<nat>>, fields: seq<Field>, width: nat)
    returns (entries: seq<Entry>)
    requires MemoryLaidOut(blocks, offs)
    ensures MemoryListed(entries, fields, MemStart(blocks, |blocks|), width)
  {
    entries := [];
    for i := 0 to |blocks|
      invariant MemoryListed(entries, fields, MemStart(blocks, i), width)
    {
      assert Placed(blocks[i].memory, offs[i], MemStart(blocks, i));
      entries := ListBlock(entries, fields, blocks[i].memory, offs[i], MemStart(blocks, i), width);
    }
  }

  /** The description file's entries: the clock, every variable, every memory element. */
  method BuildA2l(
      blocks: seq<Block>, vars: seq<LayoutVar>, offs: seq<seq<nat>>, fields: seq<Field>, d: Dims, width: nat)
    returns (measurements: seq<Entry>, characteristics: seq<Entry>)
    requires IdsOk(vars, d) && MemoryLaidOut(blocks, offs)
    ensures measurements == [Entry(Clock, FieldOff(fields, Clock).UnwrapOr(0), false)]
                            + EntriesFor(fields, SlotsOf(vars, |vars|, d, false), width)
                            + EntriesFor(fields, SlotRun(MemoryVec, MemStart(blocks, |blocks|)), width)
    ensures characteristics == EntriesFor(fields, SlotsOf(vars, |vars|, d, true), width)
  {
    var listed, memory: seq<Entry>;
    listed, characteristics := ListVars(vars, fields, d, width);
    memory := ListMemory(blocks, offs, fields, width);
    MemoryIsARun(fields, MemStart(blocks, |blocks|), width);
    measurements := [Entry(Clock, FieldOff(fields, Clock).UnwrapOr(0), false)] + listed + memory;
  }

  // ---------------------------------------------------------------------------------------
  // Every element once, at its own bytes
  // ---------------------------------------------------------------------------------------

  lemma {:induction false} SlotsOfJoin(a: seq<LayoutVar>, b: seq<LayoutVar>, n: nat, d: Dims, params: bool)
    requires IdsOk(a, d) && IdsOk(b, d) && n <= |b|
    ensures IdsOk(a + b, d)
            && SlotsOf(a + b, |a| + n, d, params) == SlotsOf(a, |a|, d, params) + SlotsOf(b, n, d, params)
    decreases n
  {
    forall i | 0 <= i < |a + b| ensures IdOk((a + b)[i], d) {
      assert (a + b)[i] == if i < |a| then a[i] else b[i - |a|];
    }
    if n > 0 {
      SlotsOfJoin(a, b, n - 1, d, params);
      assert (a + b)[|a| + n - 1] == b[n - 1];
    } else {
      SlotsOfPrefix(a, b, |a|, d, params);
    }
  }

  lemma {:induction false} SlotsOfPrefix(a: seq<LayoutVar>, b: seq<LayoutVar>, n: nat, d: Dims, params: bool)
    requires IdsOk(a, d) && IdsOk(a + b, d) && n <= |a|
    ensures SlotsOf(a + b, n, d, params) == SlotsOf(a, n, d, params)
    decreases n
  {
    if n > 0 { SlotsOfPrefix(a, b, n - 1, d, params); }
  }

  /** The field a kind of variable lives in, and where its ids start. */
  function VecOf(kind: VarKind): FieldName {
    match kind
    case StateVar => StateVec
    case OutputVar => SignalVec
    case LocalVar => SignalVec
    case ParamVar => ParamVec
    case InputVar => InputVec
  }

  function FirstId(kind: VarKind, d: Dims): nat {
    match kind
    case OutputVar => d.states
    case LocalVar => d.states
    case ParamVar => d.states + d.signals
    case _ => 0
  }

  lemma {:induction false} SlotsSnoc(front: seq<LayoutVar>, last: LayoutVar, d: Dims, params: bool, slot: Slot)
    requires IdsOk(front, d) && IdOk(last, d) && SlotOf(last, d) == slot
    ensures IdsOk(front + [last], d)
    ensures SlotsOf(front + [last], |front| + 1, d, params) ==
            SlotsOf(front, |front|, d, params) + if last.kind.ParamVar? == params then [slot] else []
  {
    SlotsOfPrefix(front, [last], |front|, d, params);
  }

  lemma {:induction false} SlotsOfRun(kind: VarKind, n: nat, d: Dims, params: bool)
    ensures var vars := Run(kind, FirstId(kind, d), n);
            && IdsOk(vars, d)
            && SlotsOf(vars, n, d, params) == if kind.ParamVar? == params then SlotRun(VecOf(kind), n) else []
    decreases n
  {
    if n > 0 {
      SlotsOfRun(kind, n - 1, d, params);
      var first := FirstId(kind, d);
      SlotsSnoc(Run(kind, first, n - 1), LayoutVar(kind, first + n - 1), d, params, Slot(VecOf(kind), n - 1));
    }
  }

  lemma {:induction false} SlotsOfSignals(iface: Option<set<nat>>, n: nat, d: Dims, params: bool)
    ensures var vars := SignalRun(iface, d.states, n);
            IdsOk(vars, d) && SlotsOf(vars, n, d, params) == if params then [] else SlotRun(SignalVec, n)
    decreases n
  {
    if n > 0 {
      SlotsOfSignals(iface, n - 1, d, params);
      var last := LayoutVar(SignalKind(iface, n - 1), d.states + n - 1);
      SlotsSnoc(SignalRun(iface, d.states, n - 1), last, d, params, Slot(SignalVec, n - 1));
    }
  }

  /** The measurements list every state, signal and input element in order, the characteristics every parameter. */
  lemma {:induction false} EverythingIsListed(d: Dims, iface: Option<set<nat>>)
    ensures var vars := AllVars(d, iface);
            && IdsOk(vars, d)
            && SlotsOf(vars, |vars|, d, false) ==
                 SlotRun(StateVec, d.states) + SlotRun(SignalVec, d.signals) + SlotRun(InputVec, d.inputs)
            && SlotsOf(vars, |vars|, d, true) == SlotRun(ParamVec, d.params)
  {
    var a, b := Run(StateVar, 0, d.states), SignalRun(iface, d.states, d.signals);
    var c, e := Run(ParamVar, d.states + d.signals, d.params), Run(InputVar, 0, d.inputs);
    assert AllVars(d, iface) == a + b + c + e;
    ListedOnce(a, b, c, e, d, iface, false);
    ListedOnce(a, b, c, e, d, iface, true);
  }

  lemma {:induction false} ListedOnce(
      a: seq<LayoutVar>, b: seq<LayoutVar>, c: seq<LayoutVar>, e: seq<LayoutVar>, d: Dims, iface: Option<set<nat>>,
      params: bool)
    requires a == Run(StateVar, 0, d.states) && b == SignalRun(iface, d.states, d.signals)
    requires c == Run(ParamVar, d.states + d.signals, d.params) && e == Run(InputVar, 0, d.inputs)
    ensures IdsOk(a + b + c + e, d)
    ensures SlotsOf(a + b + c + e, |a + b + c + e|, d, params) ==
            if params then SlotRun(ParamVec, d.params)
            else SlotRun(StateVec, d.states) + SlotRun(SignalVec, d.signals) + SlotRun(InputVec, d.inputs)
  {
    ListedRun(StateVar, 0, d.states, d, params);
    SlotsOfSignals(iface, d.signals, d, params);
    ListedRun(ParamVar, d.states + d.signals, d.params, d, params);
    ListedRun(InputVar, 0, d.inputs, d, params);
    if params {
      SlotsOfFour(a, b, c, e, d, params, [], [], SlotRun(ParamVec, d.params), []);
      EmptyParts(SlotRun(ParamVec, d.params), [], []);
    } else {
      var sa, sb, se := SlotRun(StateVec, d.states), SlotRun(SignalVec, d.signals), SlotRun(InputVec, d.inputs);
      SlotsOfFour(a, b, c, e, d, params, sa, sb, [], se);
      EmptyParts(sa, sb, se);
    }
  }

  lemma {:induction false} ListedRun(kind: VarKind, first: nat, n: nat, d: Dims, params: bool)
    requires first == FirstId(kind, d)
    ensures var vars := Run(kind, first, n);
            && |vars| == n && IdsOk(vars, d)
            && SlotsOf(vars, |vars|, d, params) == if kind.ParamVar? == params then SlotRun(VecOf(kind), n) else []
  {
    SlotsOfRun(kind, n, d, params);
  }

  lemma {:induction false} EmptyParts(a: seq<Slot>, b: seq<Slot>, c: seq<Slot>)
    ensures [] + [] + a + [] == a && a + b + [] + c == a + b + c
  {
  }

  lemma {:induction false} SlotsOfFour(
      a: seq<LayoutVar>, b: seq<LayoutVar>, c: seq<LayoutVar>, e: seq<LayoutVar>, d: Dims, params: bool,
      sa: seq<Slot>, sb: seq<Slot>, sc: seq<Slot>, se: seq<Slot>)
    requires IdsOk(a, d) && IdsOk(b, d) && IdsOk(c, d) && IdsOk(e, d)
    requires SlotsOf(a, |a|, d, params) == sa && SlotsOf(b, |b|, d, params) == sb
    requires SlotsOf(c, |c|, d, params) == sc && SlotsOf(e, |e|, d, params) == se
    ensures IdsOk(a + b + c + e, d)
    ensures SlotsOf(a + b + c + e, |a + b + c + e|, d, params) == sa + sb + sc + se
  {
    var ab := a + b;
    var abc := ab + c;
    SlotsOfJoin(a, b, |b|, d, params);
    SlotsOfJoin(ab, c, |c|, d, params);
    SlotsOfJoin(abc, e, |e|, d, params);
  }

  /** The number of elements of a vector of the model. */
  function CountOf(d: Dims, name: FieldName): nat {
    match name
    case Clock => 1
    case StateVec => d.states
    case SignalVec => d.signals
    case ParamVec => d.params
    case InputVec => d.inputs
    case MemoryVec => d.memory
    case _ => 0
  }

  predicate IsVector(name: FieldName) {
    name.Clock? || name.StateVec? || name.SignalVec? || name.ParamVec? || name.InputVec? || name.MemoryVec?
  }

  lemma {:induction false} EventSpecsAreNotVectors(events: seq<EventField>, width: nat)
    ensures forall s | s in AllEventSpecs(events, width) :: !IsVector(s.name)
    decreases |events|
  {
    if events != [] { EventSpecsAreNotVectors(events[..|events| - 1], width); }
  }

  /** Every vector with elements has a field of its own size, and only such. */
  lemma {:induction false} VectorSpecs(d: Dims, events: seq<EventField>, adaptive: bool, width: nat)
    ensures var specs := ModelSpecs(d, events, adaptive, width);
            && (forall s | s in specs && IsVector(s.name) :: s == Spec(s.name, CountOf(d, s.name), width))
            && (forall name | IsVector(name) && CountOf(d, name) > 0 :: Spec(name, CountOf(d, name), width) in specs)
  {
    EventSpecsAreNotVectors(events, width);
    var a, b, c := ArraySpecs(d, width), AllEventSpecs(events, width), TrailerSpecs(events, adaptive, width);
    VectorsInArrays(d, width);
    assert ModelSpecs(d, events, adaptive, width) == a + b + c;
    forall s: Spec | s in a + b + c && IsVector(s.name) ensures s == Spec(s.name, CountOf(d, s.name), width) {
      assert s !in b && s !in c;
      assert s in a;
    }
  }

  lemma {:induction false} VectorsInArrays(d: Dims, width: nat)
    ensures forall s | s in ArraySpecs(d, width) :: s == Spec(s.name, CountOf(d, s.name), width)
    ensures forall name | IsVector(name) && CountOf(d, name) > 0 ::
            Spec(name, CountOf(d, name), width) in ArraySpecs(d, width)
  {
    var a1, a2, a3 := ArraySpec(StateVec, d.states, width), ArraySpec(SignalVec, d.signals, width),
      ArraySpec(ParamVec, d.params, width);
    var a4, a5 := ArraySpec(InputVec, d.inputs, width), ArraySpec(MemoryVec, d.memory, width);
    var all := ArraySpecs(d, width);
    assert all == [Spec(Clock, 1, width)] + a1 + a2 + a3 + a4 + a5;
    assert forall s :: s in all <==> s == Spec(Clock, 1, width) || s in a1 || s in a2 || s in a3 || s in a4 || s in a5;
  }

  lemma {:induction false} FirstNamed(specs: seq<Spec>, name: FieldName) returns (i: nat)
    requires Sized(specs) && exists s | s in specs :: s.name == name
    ensures i < |specs| && specs[i].name == name && FieldOff(Fields(specs), name) == Some(Offset(specs, i))
  {
    i := 0;
    var fields := Fields(specs);
    while specs[i].name != name
      invariant i < |specs| && (forall k | 0 <= k < i :: specs[k].name != name)
      invariant FieldOff(fields, name) == FieldOff(fields[i..], name)
      decreases |specs| - i
    {
      assert fields[i..][1..] == fields[i + 1..];
      i := i + 1;
    }
  }

  /** An element that exists. */
  predicate Counted(d: Dims, s: Slot) {
    IsVector(s.field) && s.index < CountOf(d, s.field)
  }

  function AddressOf(fields: seq<Field>, s: Slot, width: nat): nat {
    FieldOff(fields, s.field).UnwrapOr(0) + Times(s.index, width)
  }

  /** The address of an existing element, and its field. */
  lemma {:induction false} FieldOfElement(
      d: Dims, events: seq<EventField>, adaptive: bool, width: nat, s: Slot)
    returns (i: nat)
    requires (width == 4 || width == 8) && Counted(d, s)
    ensures var specs := ModelSpecs(d, events, adaptive, width);
            && Sized(specs) && i < |specs| && specs[i] == Spec(s.field, CountOf(d, s.field), width)
            && FieldOff(Fields(specs), s.field) == Some(Offset(specs, i))
  {
    var specs := ModelSpecs(d, events, adaptive, width);
    SpecsAreSized(d, events, adaptive, width);
    VectorSpecs(d, events, adaptive, width);
    assert Spec(s.field, CountOf(d, s.field), width) in specs;
    i := FirstNamed(specs, s.field);
    assert specs[i] in specs;
  }

  lemma {:induction false} TimesGrows(m: nat, n: nat, a: nat)
    requires m < n
    ensures Times(m, a) + a <= Times(n, a)
    decreases n
  {
    if m < n - 1 { TimesGrows(m, n - 1, a); }
  }

  /** An element's bytes lie inside the field of its own kind. */
  lemma {:induction false} AddressIsInItsField(
      d: Dims, events: seq<EventField>, adaptive: bool, width: nat, s: Slot)
    returns (i: nat)
    requires (width == 4 || width == 8) && Counted(d, s)
    ensures var specs := ModelSpecs(d, events, adaptive, width);
            && Sized(specs) && i < |specs| && specs[i].name == s.field
            && Offset(specs, i) <= AddressOf(Fields(specs), s, width)
            && AddressOf(Fields(specs), s, width) + width <= Offset(specs, i) + Times(specs[i].count, specs[i].size)
  {
    i := FieldOfElement(d, events, adaptive, width, s);
    TimesGrows(s.index, CountOf(d, s.field), width);
  }

  ghost predicate BytesApart(p: nat, q: nat, width: nat) {
    p + width <= q || q + width <= p
  }

  /** Different elements occupy different bytes. */
  lemma {:induction false} AddressesNeverCollide(
      d: Dims, events: seq<EventField>, adaptive: bool, width: nat, s: Slot, t: Slot)
    requires (width == 4 || width == 8) && Counted(d, s) && Counted(d, t) && s != t
    ensures var specs := ModelSpecs(d, events, adaptive, width);
            Sized(specs) && BytesApart(AddressOf(Fields(specs), s, width), AddressOf(Fields(specs), t, width), width)
  {
    var specs := ModelSpecs(d, events, adaptive, width);
    var i := AddressIsInItsField(d, events, adaptive, width, s);
    var j := AddressIsInItsField(d, events, adaptive, width, t);
    if s.field == t.field {
      if s.index < t.index { TimesGrows(s.index, t.index, width); } else { TimesGrows(t.index, s.index, width); }
    } else if i < j {
      FieldsAreApart(specs, i, j);
    } else {
      FieldsAreApart(specs, j, i);
    }
  }

  // ---------------------------------------------------------------------------------------
  // The description file as a whole
  // ---------------------------------------------------------------------------------------

  /** Every element of the model, in the order the file lists them. */
  function AllSlots(d: Dims): seq<Slot> {
    [Slot(Clock, 0)] + SlotRun(StateVec, d.states) + SlotRun(SignalVec, d.signals) + SlotRun(InputVec, d.inputs)
    + SlotRun(MemoryVec, d.memory) + SlotRun(ParamVec, d.params)
  }

  lemma {:induction false} AllSlotsExist(d: Dims)
    ensures forall s :: s in AllSlots(d) <==> Counted(d, s)
  {
    var a, b, c := SlotRun(StateVec, d.states), SlotRun(SignalVec, d.signals), SlotRun(InputVec, d.inputs);
    var e, f := SlotRun(MemoryVec, d.memory), SlotRun(ParamVec, d.params);
    assert AllSlots(d) == [Slot(Clock, 0)] + a + b + c + e + f;
    assert forall s :: s in AllSlots(d) <==> s == Slot(Clock, 0) || s in a || s in b || s in c || s in e || s in f;
    RunHas(StateVec, d.states);
    RunHas(SignalVec, d.signals);
    RunHas(InputVec, d.inputs);
    RunHas(MemoryVec, d.memory);
    RunHas(ParamVec, d.params);
  }

  lemma {:induction false} RunHas(field: FieldName, n: nat)
    ensures forall s: Slot :: s in SlotRun(field, n) <==> s.field == field && s.index < n
  {
    var run := SlotRun(field, n);
    forall s: Slot | s.field == field && s.index < n ensures s in run {
      assert run[s.index] == s;
    }
  }

  ghost predicate Distinct(slots: seq<Slot>) {
    forall i, j | 0 <= i < j < |slots| :: slots[i] != slots[j]
  }

  lemma {:induction false} DistinctJoin(a: seq<Slot>, field: FieldName, n: nat)
    requires Distinct(a) && forall i | 0 <= i < |a| :: a[i].field != field
    ensures Distinct(a + SlotRun(field, n))
  {
  }

  /** No element is listed twice. */
  lemma {:induction false} AllSlotsAreDistinct(d: Dims)
    ensures Distinct(AllSlots(d))
  {
    var a := [Slot(Clock, 0)];
    DistinctJoin(a, StateVec, d.states);
    var b := a + SlotRun(StateVec, d.states);
    DistinctJoin(b, SignalVec, d.signals);
    var c := b + SlotRun(SignalVec, d.signals);
    DistinctJoin(c, InputVec, d.inputs);
    var e := c + SlotRun(InputVec, d.inputs);
    DistinctJoin(e, MemoryVec, d.memory);
    DistinctJoin(e + SlotRun(MemoryVec, d.memory), ParamVec, d.params);
  }

  lemma {:induction false} OneEntry(d: Dims, events: seq<EventField>, adaptive: bool, width: nat, s: Slot)
    requires (width == 4 || width == 8) && Counted(d, s)
    ensures var specs := ModelSpecs(d, events, adaptive, width);
            && Sized(specs)
            && EntryFor(Fields(specs), s, width) ==
               [Entry(s.field, AddressOf(Fields(specs), s, width), Writable(s.field))]
  {
    var i := FieldOfElement(d, events, adaptive, width, s);
    var specs := ModelSpecs(d, events, adaptive, width);
    FoundEntry(Fields(specs), s, width, Offset(specs, i));
  }

  lemma {:induction false} FoundEntry(fields: seq<Field>, s: Slot, width: nat, at: nat)
    requires FieldOff(fields, s.field) == Some(at)
    ensures EntryFor(fields, s, width) == [Entry(s.field, AddressOf(fields, s, width), Writable(s.field))]
  {
  }

  lemma {:induction false} EntryOfElement(
      d: Dims, events: seq<EventField>, adaptive: bool, width: nat, slots: seq<Slot>)
    requires width == 4 || width == 8
    requires forall s | s in slots :: Counted(d, s)
    ensures var specs := ModelSpecs(d, events, adaptive, width);
            && Sized(specs)
            && var entries := EntriesFor(Fields(specs), slots, width);
               |entries| == |slots| && forall i | 0 <= i < |slots| ::
                 entries[i] == Entry(slots[i].field, AddressOf(Fields(specs), slots[i], width),
                   Writable(slots[i].field))
    decreases |slots|
  {
    SpecsAreSized(d, events, adaptive, width);
    if slots != [] {
      var front, s := slots[..|slots| - 1], slots[|slots| - 1];
      assert s in slots && forall x | x in front :: x in slots;
      EntryOfElement(d, events, adaptive, width, front);
      OneEntry(d, events, adaptive, width, s);
    }
  }

  /** All entries of the file - measurements, then characteristics - are the model's elements, each once, and no
      two share a byte. */
  lemma {:induction false} EntriesNeverCollide(
      d: Dims, iface: Option<set<nat>>, events: seq<EventField>, adaptive: bool, width: nat, measurements: seq<Entry>,
      characteristics: seq<Entry>)
    requires width == 4 || width == 8
    requires Sized(ModelSpecs(d, events, adaptive, width)) && IdsOk(AllVars(d, iface), d)
    requires var fields, vars := Fields(ModelSpecs(d, events, adaptive, width)), AllVars(d, iface);
             && measurements == [Entry(Clock, FieldOff(fields, Clock).UnwrapOr(0), false)]
                                + EntriesFor(fields, SlotsOf(vars, |vars|, d, false), width)
                                + EntriesFor(fields, SlotRun(MemoryVec, d.memory), width)
             && characteristics == EntriesFor(fields, SlotsOf(vars, |vars|, d, true), width)
    ensures measurements + characteristics ==
            EntriesFor(Fields(ModelSpecs(d, events, adaptive, width)), AllSlots(d), width)
    ensures var all := measurements + characteristics;
            && |all| == |AllSlots(d)|
            && forall i, j | 0 <= i < j < |all| :: BytesApart(all[i].offset, all[j].offset, width)
  {
    var fields := Fields(ModelSpecs(d, events, adaptive, width));
    FileIsAllSlots(d, iface, fields, width);
    AllSlotsExist(d);
    AllSlotsAreDistinct(d);
    ListedEntriesAreApart(d, events, adaptive, width, AllSlots(d));
    ClockEntry(d, events, adaptive, width);
    assert measurements + characteristics == EntriesFor(fields, AllSlots(d), width);
  }

  /** An entry's bytes lie inside the field it names and below `total`. */
  ghost predicate Inside(specs: seq<Spec>, e: Entry, width: nat, total: nat)
    requires Sized(specs)
  {
    exists k :: 0 <= k < |specs| && specs[k].name == e.field && Offset(specs, k) <= e.offset
                && e.offset + width <= Offset(specs, k) + Times(specs[k].count, specs[k].size) <= total
  }

  lemma {:induction false} AddressIsInside(
      d: Dims, events: seq<EventField>, adaptive: bool, width: nat, s: Slot, total: nat)
    requires (width == 4 || width == 8) && Counted(d, s)
    requires var specs := ModelSpecs(d, events, adaptive, width);
             MaxAlign(specs, |specs|) >= 1 && Sized(specs) &&
             total == AlignUp(End(specs, |specs|), MaxAlign(specs, |specs|))
    ensures var specs := ModelSpecs(d, events, adaptive, width);
            Inside(specs, Entry(s.field, AddressOf(Fields(specs), s, width), Writable(s.field)), width, total)
  {
    var i := AddressIsInItsField(d, events, adaptive, width, s);
    TotalCovers(ModelSpecs(d, events, adaptive, width), i, 0);
  }

  /** The model struct and its description file, from the blocks: the file lists every element of the model exactly
      once, at bytes of its own inside the field of its kind; states, parameters and inputs are writable. */
  method DescribeModel(
      blocks: seq<Block>, outOff: seq<Option<nat>>, stateOff: seq<Option<nat>>, iface: Option<set<nat>>, inputs: nat,
      events: seq<EventField>, adaptive: bool, width: nat)
    returns (fields: seq<Field>, total: nat, measurements: seq<Entry>, characteristics: seq<Entry>)
    requires OffsetsOk(blocks, outOff, stateOff) && (width == 4 || width == 8)
    ensures var specs, slots :=
            ModelSpecs(DimsOf(blocks, inputs), events, adaptive, width), AllSlots(DimsOf(blocks, inputs));
            var all := measurements + characteristics;
            && Sized(specs) && fields == Fields(specs) && |all| == |slots|
            && (forall i | 0 <= i < |all| ::
                 all[i] == Entry(slots[i].field, AddressOf(fields, slots[i], width), Writable(slots[i].field)))
            && (forall i | 0 <= i < |all| :: Inside(specs, all[i], width, total))
            && (forall i, j | 0 <= i < j < |all| :: BytesApart(all[i].offset, all[j].offset, width))
  {
    var d := DimsOf(blocks, inputs);
    fields, total := ModelStructFields(d, events, adaptive, width);
    var vars := BuildLayout(blocks, outOff, stateOff, iface, inputs);
    var offs, n := LayOutMemory(blocks);
    EverythingIsListed(d, iface);
    measurements, characteristics := BuildA2l(blocks, vars, offs, fields, d, width);
    EntriesNeverCollide(d, iface, events, adaptive, width, measurements, characteristics);
    EntriesAreInside(d, events, adaptive, width, total);
  }

  lemma {:induction false} EntriesAreInside(d: Dims, events: seq<EventField>, adaptive: bool, width: nat, total: nat)
    requires width == 4 || width == 8
    requires var specs := ModelSpecs(d, events, adaptive, width);
             MaxAlign(specs, |specs|) >= 1 && Sized(specs) &&
             total == AlignUp(End(specs, |specs|), MaxAlign(specs, |specs|))
    ensures var specs, slots := ModelSpecs(d, events, adaptive, width), AllSlots(d);
            var all := EntriesFor(Fields(specs), slots, width);
            && |all| == |slots|
            && (forall i | 0 <= i < |all| ::
                  all[i] == Entry(slots[i].field, AddressOf(Fields(specs), slots[i], width), Writable(slots[i].field)))
            && (forall i | 0 <= i < |all| :: Inside(specs, all[i], width, total))
  {
    var specs, slots := ModelSpecs(d, events, adaptive, width), AllSlots(d);
    AllSlotsExist(d);
    EntryOfElement(d, events, adaptive, width, slots);
    var all := EntriesFor(Fields(specs), slots, width);
    forall i | 0 <= i < |all| ensures Inside(specs, all[i], width, total) {
      assert slots[i] in slots;
      AddressIsInside(d, events, adaptive, width, slots[i], total);
    }
  }

  lemma {:induction false} ClockEntry(d: Dims, events: seq<EventField>, adaptive: bool, width: nat)
    requires width == 4 || width == 8
    ensures Sized(ModelSpecs(d, events, adaptive, width))
    ensures var fields := Fields(ModelSpecs(d, events, adaptive, width));
            EntriesFor(fields, [Slot(Clock, 0)], width) == [Entry(Clock, FieldOff(fields, Clock).UnwrapOr(0), false)]
  {
    EntryOfElement(d, events, adaptive, width, [Slot(Clock, 0)]);
  }

  lemma {:induction false} ListedEntriesAreApart(
      d: Dims, events: seq<EventField>, adaptive: bool, width: nat, slots: seq<Slot>)
    requires (width == 4 || width == 8) && Distinct(slots) && forall s | s in slots :: Counted(d, s)
    ensures Sized(ModelSpecs(d, events, adaptive, width))
    ensures var entries := EntriesFor(Fields(ModelSpecs(d, events, adaptive, width)), slots, width);
            |entries| == |slots| && forall i, j | 0 <= i < j < |entries| ::
              BytesApart(entries[i].offset, entries[j].offset, width)
  {
    EntryOfElement(d, events, adaptive, width, slots);
    var entries := EntriesFor(Fields(ModelSpecs(d, events, adaptive, width)), slots, width);
    forall i, j | 0 <= i < j < |entries| ensures BytesApart(entries[i].offset, entries[j].offset, width) {
      assert slots[i] in slots && slots[j] in slots;
      AddressesNeverCollide(d, events, adaptive, width, slots[i], slots[j]);
    }
  }

  lemma {:induction false} FileIsAllSlots(d: Dims, iface: Option<set<nat>>, fields: seq<Field>, width: nat)
    ensures var vars := AllVars(d, iface);
            && IdsOk(vars, d)
            && EntriesFor(fields, AllSlots(d), width) ==
               EntriesFor(fields, [Slot(Clock, 0)], width) + EntriesFor(fields, SlotsOf(vars, |vars|, d, false), width)
               + EntriesFor(fields, SlotRun(MemoryVec, d.memory), width)
                 + EntriesFor(fields, SlotsOf(vars, |vars|, d, true), width)
  {
    EverythingIsListed(d, iface);
    var clock, memory, params := [Slot(Clock, 0)], SlotRun(MemoryVec, d.memory), SlotRun(ParamVec, d.params);
    var vars := SlotRun(StateVec, d.states) + SlotRun(SignalVec, d.signals) + SlotRun(InputVec, d.inputs);
    assert AllSlots(d) == clock + vars + memory + params;
    EntriesJoin(fields, clock, vars, width);
    EntriesJoin(fields, clock + vars, memory, width);
    EntriesJoin(fields, clock + vars + memory, params, width);
  }

  // ---------------------------------------------------------------------------------------
  // The struct and the variables, item by item
  // ---------------------------------------------------------------------------------------

  /** A field kept for an event: a counter or a cursor of a schedule, or the last guard value of a crossing and whether
      there is one. */
  ghost predicate IsEventField(e: EventField, s: Spec, width: nat) {
    match e.kind
    case Periodic => s == Spec(Counter(e.block, e.event), 1, 8)
    case Fixed => s == Spec(Cursor(e.block, e.event), 1, 8)
    case _ => s == Spec(Previous(e.block, e.event), 1, width) || s == Spec(Initialised(e.block, e.event), 1, 4)
  }

  ghost predicate OfSomeEvent(events: seq<EventField>, s: Spec, width: nat) {
    exists i {:trigger events[i]} :: 0 <= i < |events| && IsEventField(events[i], s, width)
  }

  /** A field of the struct: the clock, each vector that has elements, those of the events, whether the initial events
      have run if there are any, and the step size of an adaptive integrator. */
  ghost predicate IsField(d: Dims, events: seq<EventField>, adaptive: bool, width: nat, s: Spec) {
    || s == Spec(Clock, 1, width)
    || (s.count > 0 && s.size == width && s in [
         Spec(StateVec, d.states, width), Spec(SignalVec, d.signals, width), Spec(ParamVec, d.params, width),
         Spec(InputVec, d.inputs, width), Spec(MemoryVec, d.memory, width)])
    || OfSomeEvent(events, s, width)
    || (events != [] && s == Spec(Started, 1, 4))
    || (adaptive && s == Spec(StepSize, 1, width))
  }

  lemma {:induction false} EventFieldsAre(events: seq<EventField>, width: nat, s: Spec)
    ensures s in AllEventSpecs(events, width) <==> OfSomeEvent(events, s, width)
    decreases |events|
  {
    if events != [] {
      var front, e := events[..|events| - 1], events[|events| - 1];
      EventFieldsAre(front, width, s);
      assert s in EventSpecs(e, width) <==> IsEventField(e, s, width);
      if i :| 0 <= i < |front| && IsEventField(front[i], s, width) { assert IsEventField(events[i], s, width); }
      if i :| 0 <= i < |events| && IsEventField(events[i], s, width) {
        if i < |front| { assert IsEventField(front[i], s, width); }
      }
    }
  }

  /** The struct has these fields and no others. */
  lemma {:induction false} StructFieldsAre(d: Dims, events: seq<EventField>, adaptive: bool, width: nat, s: Spec)
    ensures s in ModelSpecs(d, events, adaptive, width) <==> IsField(d, events, adaptive, width, s)
  {
    EventFieldsAre(events, width, s);
    ArrayFieldsAre(d, width, s);
  }

  lemma {:induction false} ArrayFieldsAre(d: Dims, width: nat, s: Spec)
    ensures s in ArraySpecs(d, width) <==>
            s == Spec(Clock, 1, width)
            || (s.count > 0 && s.size == width && s in [
                  Spec(StateVec, d.states, width), Spec(SignalVec, d.signals, width), Spec(ParamVec, d.params, width),
                  Spec(InputVec, d.inputs, width), Spec(MemoryVec, d.memory, width)])
  {
    var a1, a2, a3 := ArraySpec(StateVec, d.states, width), ArraySpec(SignalVec, d.signals, width),
      ArraySpec(ParamVec, d.params, width);
    var a4, a5 := ArraySpec(InputVec, d.inputs, width), ArraySpec(MemoryVec, d.memory, width);
    assert ArraySpecs(d, width) == [Spec(Clock, 1, width)] + a1 + a2 + a3 + a4 + a5;
  }

  lemma {:induction false} RunAt(kind: VarKind, first: nat, n: nat, k: nat)
    requires k < n
    ensures Run(kind, first, n)[k] == LayoutVar(kind, first + k)
    decreases n
  {
    if k < n - 1 { RunAt(kind, first, n - 1, k); }
  }

  lemma {:induction false} SignalRunAt(iface: Option<set<nat>>, base: nat, n: nat, k: nat)
    requires k < n
    ensures SignalRun(iface, base, n)[k] ==
            LayoutVar(if iface.Some? && k !in iface.value then LocalVar else OutputVar, base + k)
    decreases n
  {
    if k < n - 1 { SignalRunAt(iface, base, n - 1, k); }
  }

  /** The variables in order: the states, the signals, local if the model has an interface that does not show them, the
      parameters, with ids running through, and the inputs with ids of their own. */
  lemma {:induction false} VariablesAre(d: Dims, iface: Option<set<nat>>, i: nat)
    requires i < d.states + d.signals + d.params + d.inputs
    ensures |AllVars(d, iface)| == d.states + d.signals + d.params + d.inputs
    ensures var v, k := AllVars(d, iface)[i], i - d.states;
            if i < d.states then v == LayoutVar(StateVar, i)
            else if k < d.signals then
              v == LayoutVar(if iface.Some? && k !in iface.value then LocalVar else OutputVar, i)
            else if k < d.signals + d.params then v == LayoutVar(ParamVar, i)
            else v == LayoutVar(InputVar, k - d.signals - d.params)
  {
    var k := i - d.states;
    if i < d.states {
      RunAt(StateVar, 0, d.states, i);
    } else if k < d.signals {
      SignalRunAt(iface, d.states, d.signals, k);
    } else if k < d.signals + d.params {
      RunAt(ParamVar, d.states + d.signals, d.params, k - d.signals);
    } else {
      RunAt(InputVar, 0, d.inputs, k - d.signals - d.params);
    }
  }

  /** An entry names the field of its element, as many elements behind the field's first as it has before it; states,
      parameters and inputs may be written, the clock, signals and memory may not. */
  lemma {:induction false} EntryMeans(fields: seq<Field>, s: Slot, width: nat, e: Entry)
    requires e in EntryFor(fields, s, width)
    ensures e.field == s.field && (s.field in [StateVec, ParamVec, InputVec] <==> e.writable)
    ensures exists i {:trigger fields[i]} :: 0 <= i < |fields| && fields[i].name == s.field
                                             && e.offset == fields[i].offset + s.index * width
  {
    var i := FirstField(fields, s.field);
    TimesIsProduct(s.index, width);
    assert fields[i].name == s.field && e.offset == fields[i].offset + s.index * width;
  }

  lemma {:induction false} FirstField(fields: seq<Field>, name: FieldName) returns (i: nat)
    requires FieldOff(fields, name).Some?
    ensures i < |fields| && fields[i].name == name && FieldOff(fields, name) == Some(fields[i].offset)
    decreases |fields|
  {
    if fields[0].name == name {
      i := 0;
    } else {
      i := FirstField(fields[1..], name);
      i := i + 1;
    }
  }
}

/** The ports of an FMU block (`src/blocks/fmu.rs`, `PortLayout`): variables of mixed types and sizes are numbered
    in declaration order and moved in one typed transfer per type (FMI 3.0, section 2.2.6). */
module FmuPorts {
  import opened Wrappers

  // ---------------------------------------------------------------------------------------
  // Types and elements
  // ---------------------------------------------------------------------------------------

  datatype VarType =
    | Float32 | Float64 | Int8 | UInt8 | Int16 | UInt16 | Int32 | UInt32 | Int64 | UInt64
    | Boolean | String | Binary | Clock | Enumeration

  /** The types that can become ports. */
  predicate Numeric(ty: VarType) {
    !ty.String? && !ty.Binary? && !ty.Clock?
  }

  datatype Elem = Real(r: real) | Int(i: int) | Bool(b: bool)

  datatype Range = Range(lo: int, hi: int)

  /** The values of an integer type; enumerations travel as 64-bit integers. */
  function RangeOf(ty: VarType): Option<Range> {
    match ty
    case Int8 => Some(Range(-0x80, 0x7f))
    case UInt8 => Some(Range(0, 0xff))
    case Int16 => Some(Range(-0x8000, 0x7fff))
    case UInt16 => Some(Range(0, 0xffff))
    case Int32 => Some(Range(-0x8000_0000, 0x7fff_ffff))
    case UInt32 => Some(Range(0, 0xffff_ffff))
    case Int64 => Some(Range(-0x8000_0000_0000_0000, 0x7fff_ffff_ffff_ffff))
    case Enumeration => Some(Range(-0x8000_0000_0000_0000, 0x7fff_ffff_ffff_ffff))
    case UInt64 => Some(Range(0, 0xffff_ffff_ffff_ffff))
    case _ => None
  }

  /** Towards zero. */
  function Truncate(v: real): int {
    if v >= 0.0 then v.Floor else -((-v).Floor)
  }

  function Saturate(i: int, r: Range): int {
    if i < r.lo then r.lo else if i > r.hi then r.hi else i
  }

  /** A port value as an element of the FMI type. `single` rounds to 32-bit floating point. */
  function Narrow(ty: VarType, v: real, single: real -> real): Elem {
    if RangeOf(ty).Some? then Int(Saturate(Truncate(v), RangeOf(ty).value))
    else if ty.Boolean? then Bool(v != 0.0)
    else if ty.Float32? then Real(single(v))
    else Real(v)
  }

  function Widen(e: Elem): real {
    match e
    case Real(r) => r
    case Int(i) => i as real
    case Bool(b) => if b then 1.0 else 0.0
  }

  lemma {:induction false} TruncatesWhole(i: int)
    ensures Truncate(i as real) == i
  {
    assert (i as real).Floor == i;
    assert -(i as real) == (-i) as real;
    assert ((-i) as real).Floor == -i;
  }

  /** Truncation never exceeds its argument in magnitude, keeps its side of zero, and is less than one away. */
  lemma {:induction false} TruncatesTowardsZero(v: real)
    ensures v >= 0.0 ==> 0.0 <= Truncate(v) as real <= v < Truncate(v) as real + 1.0
    ensures v <= 0.0 ==> Truncate(v) as real - 1.0 < v <= Truncate(v) as real <= 0.0
  {
  }

  /** An integer type receives the truncated value where that fits, and the end of its range nearer to it otherwise. */
  lemma {:induction false} NarrowingSaturates(ty: VarType, v: real, single: real -> real)
    requires RangeOf(ty).Some?
    ensures var e, r := Narrow(ty, v, single), RangeOf(ty).value;
            && e.Int?
            && (r.lo <= Truncate(v) <= r.hi ==> e.i == Truncate(v))
            && (Truncate(v) < r.lo ==> e.i == r.lo) && (Truncate(v) > r.hi ==> e.i == r.hi)
  {
  }

  /** A boolean is true for every value but 0 and comes back as 1 or 0; a 32-bit float is rounded once, a 64-bit float
      is kept. */
  lemma {:induction false} NarrowingOfOthers(v: real, single: real -> real)
    ensures Widen(Narrow(Boolean, v, single)) == if v == 0.0 then 0.0 else 1.0
    ensures Widen(Narrow(Float32, v, single)) == single(v) && Widen(Narrow(Float64, v, single)) == v
  {
  }

  /** Ports are of integer types, booleans and floats; strings, binaries and clocks have none. */
  lemma {:induction false} NumericTypes(ty: VarType)
    ensures Numeric(ty) <==> RangeOf(ty).Some? || ty.Boolean? || ty.Float32? || ty.Float64?
  {
  }

  /** An integer of so many bits. */
  ghost predicate Spans(ty: VarType, values: int, signed: bool) {
    RangeOf(ty).Some?
    && var r := RangeOf(ty).value;
       r.hi - r.lo + 1 == values && if signed then r.lo == -(r.hi + 1) else r.lo == 0
  }

  /** The integer types hold all numbers of their bits; enumerations are 64-bit integers. */
  lemma {:induction false} IntegerTypes()
    ensures Spans(Int8, 256, true) && Spans(UInt8, 256, false)
    ensures Spans(Int16, 65536, true) && Spans(UInt16, 65536, false)
    ensures Spans(Int32, 4294967296, true) && Spans(UInt32, 4294967296, false)
    ensures Spans(Int64, 18446744073709551616, true) && Spans(UInt64, 18446744073709551616, false)
    ensures Spans(Enumeration, 18446744073709551616, true)
  {
  }

  /** Narrowing again changes nothing; what fits its type comes back as it was, and integers never leave their range. */
  lemma {:induction false} NarrowingSettles(ty: VarType, v: real, single: real -> real)
    requires Numeric(ty) && single(single(v)) == single(v)
    ensures Narrow(ty, Widen(Narrow(ty, v, single)), single) == Narrow(ty, v, single)
    ensures RangeOf(ty).Some? ==> RangeOf(ty).value.lo <= Narrow(ty, v, single).i <= RangeOf(ty).value.hi
    ensures RangeOf(ty).Some? && v == v.Floor as real && RangeOf(ty).value.lo <= v.Floor <= RangeOf(ty).value.hi ==>
              Widen(Narrow(ty, v, single)) == v
  {
    if RangeOf(ty).Some? {
      TruncatesWhole(Narrow(ty, v, single).i);
      if v == v.Floor as real { TruncatesWhole(v.Floor); }
    }
  }

  // ---------------------------------------------------------------------------------------
  // The declared variables and their port numbers
  // ---------------------------------------------------------------------------------------

  datatype Variable = Variable(ty: VarType, vr: nat, count: nat)

  /** Arrays of no elements and types without a numeric meaning have no ports. */
  predicate HasPorts(v: Variable) {
    v.count != 0 && Numeric(v.ty)
  }

  function Kept(vars: seq<Variable>): (r: seq<Variable>)
    ensures forall i | 0 <= i < |r| :: HasPorts(r[i])
  {
    if vars == [] then []
    else
      var front := Kept(vars[..|vars| - 1]);
      if HasPorts(vars[|vars| - 1]) then front + [vars[|vars| - 1]] else front
  }

  /** The ports of the first `n` variables. */
  function Start(vars: seq<Variable>, n: nat): nat
    requires n <= |vars|
  {
    if n == 0 then 0 else Start(vars, n - 1) + vars[n - 1].count
  }

  predicate Owns(vars: seq<Variable>, j: nat, p: nat)
    requires j < |vars|
  {
    Start(vars, j) <= p < Start(vars, j + 1)
  }

  lemma {:induction false} StartGrows(vars: seq<Variable>, i: nat, j: nat)
    requires i <= j <= |vars|
    ensures Start(vars, i) <= Start(vars, j)
    decreases j
  {
    if i < j { StartGrows(vars, i, j - 1); }
  }

  lemma {:induction false} StartOfPrefix(front: seq<Variable>, v: Variable, n: nat)
    requires n <= |front|
    ensures Start(front + [v], n) == Start(front, n)
    decreases n
  {
    if n > 0 { StartOfPrefix(front, v, n - 1); }
  }

  /** Every port belongs to exactly one variable. */
  lemma {:induction false} PortHasOneOwner(vars: seq<Variable>, n: nat, p: nat) returns (j: nat)
    requires n <= |vars| && p < Start(vars, n)
    ensures j < n && Owns(vars, j, p)
    ensures forall i: nat | i < |vars| && Owns(vars, i, p) :: i == j
    decreases n
  {
    if p >= Start(vars, n - 1) {
      j := n - 1;
    } else {
      j := PortHasOneOwner(vars, n - 1, p);
    }
    forall i: nat | i < |vars| && Owns(vars, i, p) ensures i == j {
      if i < j { StartGrows(vars, i + 1, j); }
      if j < i { StartGrows(vars, j + 1, i); }
    }
  }

  // ---------------------------------------------------------------------------------------
  // Groups by type
  // ---------------------------------------------------------------------------------------

  /** The variables of one type, each with its first port and element count. */
  datatype Group = Group(ty: VarType, vrs: seq<nat>, offsets: seq<nat>, counts: seq<nat>) {
    predicate Even() {
      |vrs| == |offsets| == |counts|
    }

    function Add(vr: nat, offset: nat, count: nat): Group {
      Group(ty, vrs + [vr], offsets + [offset], counts + [count])
    }
  }

  /** The types in order of first appearance. */
  function Types(vars: seq<Variable>): seq<VarType> {
    if vars == [] then []
    else
      var front := Types(vars[..|vars| - 1]);
      if vars[|vars| - 1].ty in front then front else front + [vars[|vars| - 1].ty]
  }

  /** The variables of type `ty` in declaration order. */
  function GroupOf(vars: seq<Variable>, ty: VarType): (g: Group)
    ensures g.ty == ty && g.Even() && |g.vrs| <= |vars|
  {
    if vars == [] then Group(ty, [], [], [])
    else
      var front, v := GroupOf(vars[..|vars| - 1], ty), vars[|vars| - 1];
      if v.ty == ty then front.Add(v.vr, Start(vars, |vars| - 1), v.count) else front
  }

  function Groups(vars: seq<Variable>): (r: seq<Group>)
    ensures |r| == |Types(vars)| && forall g | 0 <= g < |r| :: r[g] == GroupOf(vars, Types(vars)[g])
  {
    seq(|Types(vars)|, g requires 0 <= g < |Types(vars)| => GroupOf(vars, Types(vars)[g]))
  }

  /** How many variables of its type come before variable `j`: its place in its group. */
  function Place(vars: seq<Variable>, ty: VarType, j: nat): nat
    requires j <= |vars|
  {
    if j == 0 then 0 else Place(vars, ty, j - 1) + if vars[j - 1].ty == ty then 1 else 0
  }

  lemma {:induction false} PlaceOfPrefix(front: seq<Variable>, v: Variable, ty: VarType, j: nat)
    requires j <= |front|
    ensures Place(front + [v], ty, j) == Place(front, ty, j)
    decreases j
  {
    if j > 0 { PlaceOfPrefix(front, v, ty, j - 1); }
  }

  lemma {:induction false} GroupSize(vars: seq<Variable>, ty: VarType)
    ensures |GroupOf(vars, ty).vrs| == Place(vars, ty, |vars|)
    decreases |vars|
  {
    if vars != [] {
      var front, v := vars[..|vars| - 1], vars[|vars| - 1];
      assert vars == front + [v];
      GroupSize(front, ty);
      PlaceOfPrefix(front, v, ty, |front|);
    }
  }

  lemma {:induction false} PlaceGrows(vars: seq<Variable>, ty: VarType, i: nat, j: nat)
    requires i <= j <= |vars|
    ensures Place(vars, ty, i) <= Place(vars, ty, j)
    decreases j
  {
    if i < j { PlaceGrows(vars, ty, i, j - 1); }
  }

  ghost predicate Holds(g: Group, i: nat, v: Variable, start: nat) {
    i < |g.vrs| && g.Even() && g.vrs[i] == v.vr && g.offsets[i] == start && g.counts[i] == v.count
  }

  /** Variable `j` is in the group of its type, at its place, with its first port. */
  lemma {:induction false} VariableIsInItsGroup(vars: seq<Variable>, j: nat)
    requires j < |vars|
    ensures Holds(GroupOf(vars, vars[j].ty), Place(vars, vars[j].ty, j), vars[j], Start(vars, j))
    decreases |vars|
  {
    var front, v := vars[..|vars| - 1], vars[|vars| - 1];
    assert vars == front + [v];
    var ty := vars[j].ty;
    PlaceOfPrefix(front, v, ty, j);
    StartOfPrefix(front, v, j);
    if j < |front| {
      VariableIsInItsGroup(front, j);
    } else {
      GroupSize(front, ty);
    }
  }

  /** Entry `i` of a group is some variable of that type, at that place. */
  lemma {:induction false} EntryIsAVariable(vars: seq<Variable>, ty: VarType, i: nat) returns (j: nat)
    requires i < |GroupOf(vars, ty).vrs|
    ensures j < |vars| && vars[j].ty == ty && Place(vars, ty, j) == i
    ensures Holds(GroupOf(vars, ty), i, vars[j], Start(vars, j))
    decreases |vars|
  {
    var front, v := vars[..|vars| - 1], vars[|vars| - 1];
    assert vars == front + [v];
    if i < |GroupOf(front, ty).vrs| {
      j := EntryIsAVariable(front, ty, i);
    } else {
      j := |front|;
      GroupSize(front, ty);
    }
    PlaceOfPrefix(front, v, ty, j);
    VariableIsInItsGroup(vars, j);
  }
}

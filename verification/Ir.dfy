/** The IR schema (`src/ir/schema.rs`) and the scalar meaning of its operators (`src/ssa/op.rs`),
    with `f64` read as `real`.  Operators with no algebraic meaning over the reals (transcendental
    functions, division by zero, `fmod`) are left to an arbitrary interpretation `Prims`, so every
    theorem that mentions a `Prims` holds for all of them. */
module Ir {
  import opened Wrappers

  datatype BinOp = Add | Sub | Mul | Div | Mod | Pow | Atan2 | Hypot | Min | Max

  /** `Libm(f)` stands for the `f`-th unary operator that is rendered as a libm call. */
  datatype UnOp = Neg | Abs | Sign | Libm(f: nat)

  datatype CmpOp = Gt | Ge | Lt | Le | Eq | Ne

  datatype ReduceOp = Sum | Product | Least | Greatest

  datatype Op =
    | Const(v: real)
    | Time
    | Input(port: nat, elem: nat)
    | Param(id: nat)
    | State(id: nat)
    | Memory(slot: nat, offset: nat)
    | Binary(bop: BinOp, a: nat, b: nat)
    | Unary(uop: UnOp, a: nat)
    | Cmp(cop: CmpOp, a: nat, b: nat)
    | Select(c: nat, t: nat, e: nat)
    | Fma(a: nat, b: nat, c: nat)
    | Reduce(rop: ReduceOp, args: seq<nat>)
    | Dot(xs: seq<nat>, ys: seq<nat>)
    | Lut1d(input: nat, points: seq<real>, values: seq<real>, clamp: bool)
    | Call

  datatype Write =
    | Output(port: nat, elem: nat, src: nat)
    | StateDeriv(id: nat, src: nat)
    | StateWrite(id: nat, src: nat)
    | MemoryWrite(slot: nat, offset: nat, src: nat)

  datatype Region = Region(ops: seq<Op>, writes: seq<Write>)

  datatype EventKind = ZeroCross(guard: Region) | Condition(guard: Region) | Schedule

  datatype Event = Event(kind: EventKind, effect: Region)

  datatype Role = Algebraic | Dynamic | Source | Sink

  datatype ParamValue = Scalar(v: real) | Tensor(data: seq<real>)

  datatype MemorySlot = MemorySlot(size: nat, init: seq<real>)

  /** A leaf block.  Ids of states, parameters and memory slots equal their positions. */
  datatype Block = Block(
    role: Role,
    inSizes: seq<nat>,
    outSizes: seq<nat>,
    params: seq<ParamValue>,
    state: seq<real>,
    memory: seq<MemorySlot>,
    alg: Region,
    dyn: Region,
    events: seq<Event>)

  /** A connection endpoint's block: a child of the scope, or the scope's own interface. */
  datatype Ref = Child(idx: nat) | Iface

  datatype PortRef = PortRef(block: Ref, port: nat, elems: Option<seq<nat>>)

  datatype Connection = Connection(src: PortRef, targets: seq<PortRef>)

  // ---------------------------------------------------------------------------------------
  // Scalar semantics
  // ---------------------------------------------------------------------------------------

  /** An interpretation of the compute operators.  Theorems that take an arbitrary `Prims` hold
      whatever the operators mean, rounding included. */
  datatype Prims = Prims(
    bin: (BinOp, real, real) -> real,
    un: (UnOp, real) -> real,
    fma: (real, real, real) -> real,
    reduce: (ReduceOp, seq<real>) -> real,
    dot: (seq<real>, seq<real>) -> real)

  /** The ring operations are those of the real numbers. */
  ghost predicate ExactArithmetic(p: Prims) {
    && (forall a, b {:trigger p.bin(Add, a, b)} :: p.bin(Add, a, b) == a + b)
    && (forall a, b {:trigger p.bin(Sub, a, b)} :: p.bin(Sub, a, b) == a - b)
    && (forall a, b {:trigger p.bin(Mul, a, b)} :: p.bin(Mul, a, b) == a * b)
  }

  /** `JIT_FLOAT_EQ_TOL`: the band inside which two values compare equal. */
  const EQ_TOL: real := 0.000000000000001

  function RealAbs(x: real): real { if x < 0.0 then -x else x }

  function ApplyCmp(op: CmpOp, a: real, b: real): real {
    var cond := match op
      case Gt => a > b
      case Ge => a >= b
      case Lt => a < b
      case Le => a <= b
      case Eq => RealAbs(a - b) < EQ_TOL
      case Ne => RealAbs(a - b) >= EQ_TOL;
    if cond then 1.0 else 0.0
  }

  function ApplySelect(c: real, t: real, e: real): real { if c != 0.0 then t else e }
}

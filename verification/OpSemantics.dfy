/** What a single op computes from the values of its operands (`src/ssa/op.rs`). */
module OpSemantics {
  import opened Wrappers
  import opened Ir
  import opened Lut

  function LocalOperands(op: Op): seq<nat> {
    match op
    case Binary(_, a, b) => [a, b]
    case Unary(_, a) => [a]
    case Cmp(_, a, b) => [a, b]
    case Select(c, t, e) => [c, t, e]
    case Fma(a, b, c) => [a, b, c]
    case Reduce(_, args) => args
    case Dot(xs, ys) => xs + ys
    case Lut1d(input, _, _, _) => [input]
    case _ => []
  }

  predicate IsLeaf(op: Op) {
    op.Const? || op.Time? || op.Input? || op.Param? || op.State? || op.Memory?
  }

  /** What a compute op makes of the values of its operands. */
  function Compute(prims: Prims, op: Op, args: seq<real>): real
    requires |args| == |LocalOperands(op)|
    requires op.Lut1d? ==> Table(op.points, op.values)
  {
    match op
    case Binary(o, _, _) => prims.bin(o, args[0], args[1])
    case Unary(o, _) => prims.un(o, args[0])
    case Cmp(o, _, _) => ApplyCmp(o, args[0], args[1])
    case Select(_, _, _) => ApplySelect(args[0], args[1], args[2])
    case Fma(_, _, _) => prims.fma(args[0], args[1], args[2])
    case Reduce(o, _) => prims.reduce(o, args)
    case Dot(xs, _) => prims.dot(args[..|xs|], args[|xs|..])
    case Lut1d(_, points, values, clamp) => Lookup(points, values, clamp, args[0])
    case _ => 0.0
  }

  /** The last derivative written for a state; the first `n` writes are considered. */
  function LastDeriv(writes: seq<Write>, n: nat, id: nat): Option<nat>
    requires n <= |writes|
  {
    if n == 0 then None
    else if writes[n - 1].StateDeriv? && writes[n - 1].id == id then Some(writes[n - 1].src)
    else LastDeriv(writes, n - 1, id)
  }

  lemma {:induction false} LastDerivIsWritten(writes: seq<Write>, n: nat, id: nat)
    requires n <= |writes| && LastDeriv(writes, n, id).Some?
    ensures StateDeriv(id, LastDeriv(writes, n, id).value) in writes
  {
    if !(writes[n - 1].StateDeriv? && writes[n - 1].id == id) {
      LastDerivIsWritten(writes, n - 1, id);
    }
  }
}

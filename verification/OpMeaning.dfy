/** The meaning of the ops of a region written out, operand by operand (`src/ssa/op.rs`, `src/ir/schema.rs`), and which
    of several writes counts. */
module OpMeaning {
  import opened Wrappers
  import opened Ir
  import opened Lut
  import opened OpSemantics
  import opened SpliceModel

  /** The values of the ops with the given numbers. */
  ghost function Taken(at: nat -> real, ids: seq<nat>): (vs: seq<real>)
    ensures |vs| == |ids| && forall i | 0 <= i < |ids| :: vs[i] == at(ids[i])
  {
    seq(|ids|, i requires 0 <= i < |ids| => at(ids[i]))
  }

  ghost predicate Holds(op: CmpOp, a: real, b: real) {
    match op
    case Gt => a > b
    case Ge => a > b || a == b
    case Lt => b > a
    case Le => b > a || a == b
    case Eq => -0.000000000000001 < a - b < 0.000000000000001
    case Ne => !(-0.000000000000001 < a - b < 0.000000000000001)
  }

  /** The op makes `r` of the values `at` its operands. */
  ghost predicate Computes(p: Prims, op: Op, at: nat -> real, r: real)
    requires op.Lut1d? ==> Table(op.points, op.values)
  {
    match op
    case Binary(o, a, b) => r == p.bin(o, at(a), at(b))
    case Unary(o, a) => r == p.un(o, at(a))
    case Cmp(o, a, b) => if Holds(o, at(a), at(b)) then r == 1.0 else r == 0.0
    case Select(c, t, e) => if at(c) == 0.0 then r == at(e) else r == at(t)
    case Fma(a, b, c) => r == p.fma(at(a), at(b), at(c))
    case Reduce(o, args) => r == p.reduce(o, Taken(at, args))
    case Dot(xs, ys) => r == p.dot(Taken(at, xs), Taken(at, ys))
    case Lut1d(input, points, values, clamp) => r == Lookup(points, values, clamp, at(input))
    case _ => true
  }

  lemma {:induction false} ComparesAs(op: CmpOp, a: real, b: real)
    ensures ApplyCmp(op, a, b) == if Holds(op, a, b) then 1.0 else 0.0
  {
  }

  /** An op that is neither a leaf nor a call computes what it should, and only that. */
  lemma {:induction false} ComputesIff(p: Prims, op: Op, at: nat -> real, args: seq<real>, r: real)
    requires op.Lut1d? ==> Table(op.points, op.values)
    requires !IsLeaf(op) && !op.Call? && args == Taken(at, LocalOperands(op))
    ensures Computes(p, op, at, r) <==> r == Compute(p, op, args)
  {
    match op
    case Cmp(o, a, b) => ComparesAs(o, at(a), at(b));
    case Reduce(_, ids) => assert args == Taken(at, ids);
    case Dot(xs, ys) => assert args[..|xs|] == Taken(at, xs) && args[|xs|..] == Taken(at, ys);
    case _ =>
  }

  // ---------------------------------------------------------------------------------------
  // Which write counts
  // ---------------------------------------------------------------------------------------

  ghost predicate DerivesState(w: Write, id: nat) {
    w.StateDeriv? && w.id == id
  }

  ghost predicate WritesOutput(w: Write, port: nat, elem: nat) {
    w.Output? && w.port == port && w.elem == elem
  }

  /** Among the first `m` writes, the last derivative of a state counts, and without one there is none. */
  lemma {:induction false} LastDerivIs(writes: seq<Write>, m: nat, id: nat)
    requires m <= |writes|
    ensures LastDeriv(writes, m, id) == None <==>
            forall k {:trigger writes[k]} | 0 <= k < m :: !DerivesState(writes[k], id)
    ensures forall n {:trigger writes[n]}
              | 0 <= n < m && DerivesState(writes[n], id) && forall k | n < k < m :: !DerivesState(writes[k], id) ::
              LastDeriv(writes, m, id) == Some(writes[n].src)
    decreases m
  {
    if m > 0 { LastDerivIs(writes, m - 1, id); }
  }

  /** The first write to an output element counts. */
  lemma {:induction false} FirstOutputIs(writes: seq<Write>, port: nat, elem: nat)
    ensures FindOutput(writes, port, elem) == None <==>
            forall k {:trigger writes[k]} | 0 <= k < |writes| :: !WritesOutput(writes[k], port, elem)
    ensures forall n {:trigger writes[n]}
              | 0 <= n < |writes| && WritesOutput(writes[n], port, elem)
                && forall k | 0 <= k < n :: !WritesOutput(writes[k], port, elem) ::
              FindOutput(writes, port, elem) == Some(writes[n].src)
    decreases |writes|
  {
    if writes != [] && !WritesOutput(writes[0], port, elem) {
      var rest := writes[1..];
      FirstOutputIs(rest, port, elem);
      forall k | 0 <= k < |rest| ensures rest[k] == writes[k + 1] {
      }
      if forall k | 0 <= k < |rest| :: !WritesOutput(rest[k], port, elem) {
        forall k | 0 <= k < |writes| ensures !WritesOutput(writes[k], port, elem) {
          if k > 0 { assert writes[k] == rest[k - 1]; }
        }
      }
      forall n | 0 <= n < |writes| && WritesOutput(writes[n], port, elem)
        && forall k | 0 <= k < n :: !WritesOutput(writes[k], port, elem)
        ensures FindOutput(writes, port, elem) == Some(writes[n].src)
      {
        assert n > 0 && rest[n - 1] == writes[n];
      }
    }
  }
}

/** The stage kernel in plain arithmetic: at which time, in which states and with which signals every slope is taken,
    and where the step ends (`stage_loop` and `stage_loop_implicit` in `src/codegen/solver.rs`). */
module StageMeaning {
  import opened Ir
  import opened LuSolve
  import opened StepModel
  import opened ImplicitStage
  import opened FixedStep

  /** `row[0] ks[0][i] + ... + row[n - 1] ks[n - 1][i]` */
  function SlopeSum(row: Row, ks: seq<Row>, n: nat, i: nat): real
    requires n <= |row| && n <= |ks| && forall j | 0 <= j < n :: i < |ks[j]|
  {
    if n == 0 then 0.0 else SlopeSum(row, ks, n - 1, i) + row[n - 1] * ks[n - 1][i]
  }

  ghost predicate TableauOk(t: Tableau) {
    |t.c| == |t.a| && forall s {:trigger t.a[s]} | 0 <= s < |t.a| :: |t.a[s]| == |t.a|
  }

  /** The states after `s` stages: those of the step's start, moved along the slopes so far. */
  function StatesAfter(t: Tableau, x0: Row, dt: real, ks: seq<Row>, s: nat): (x: Row)
    requires TableauOk(t) && s <= |t.a| && s <= |ks| && Slopes(ks, |x0|)
    ensures |x| == |x0|
  {
    if s == 0 then x0
    else
      assert |t.a[s - 1]| == |t.a|;
      seq(|x0|, i requires 0 <= i < |x0| => x0[i] + dt * SlopeSum(t.a[s - 1], ks, s, i))
  }

  /** The world in which an explicit stage takes its slope. */
  function StageWorld(t: Tableau, w: World, dt: real, ks: seq<Row>, s: nat): World
    requires TableauOk(t) && s < |t.a| && s <= |ks| && Slopes(ks, |w.x|)
  {
    w.(time := w.time + t.c[s] * dt, x := StatesAfter(t, w.x, dt, ks, s))
  }

  /** The signals that are current in a world; a model without signals keeps what it has. */
  function CurrentSignals(code: Code, w: World, sig: seq<real>): seq<real> {
    if code.hasSig then code.outputs(w) else sig
  }

  lemma {:induction false} WeightedIsSum(row: Row, ks: seq<Row>, n: nat, i: nat)
    requires n <= |row| && n <= |ks| && forall j | 0 <= j < n :: i < |ks[j]|
    ensures WeightedSlope(row, ks, n, i) == SlopeSum(row, ks, n, i)
    decreases n
  {
    if n > 0 { WeightedIsSum(row, ks, n - 1, i); }
  }

  lemma {:induction false} SumOfPrefix(row: Row, ks: seq<Row>, more: seq<Row>, n: nat, i: nat)
    requires n <= |row| && n <= |ks| && (forall j | 0 <= j < n :: i < |ks[j]|)
    ensures (forall j | 0 <= j < n :: i < |(ks + more)[j]|) && SlopeSum(row, ks + more, n, i) == SlopeSum(row, ks, n, i)
    decreases n
  {
    if n > 0 { SumOfPrefix(row, ks, more, n - 1, i); }
  }

  lemma {:induction false} StatesOfPrefix(t: Tableau, x0: Row, dt: real, ks: seq<Row>, k: Row, s: nat)
    requires TableauOk(t) && s <= |t.a| && s <= |ks| && Slopes(ks, |x0|) && |k| == |x0|
    ensures Slopes(ks + [k], |x0|) && StatesAfter(t, x0, dt, ks + [k], s) == StatesAfter(t, x0, dt, ks, s)
  {
    if s > 0 {
      assert |t.a[s - 1]| == |t.a|;
      forall i | 0 <= i < |x0|
        ensures StatesAfter(t, x0, dt, ks + [k], s)[i] == StatesAfter(t, x0, dt, ks, s)[i]
      {
        SumOfPrefix(t.a[s - 1], ks, [k], s, i);
      }
    }
  }

  lemma {:induction false} CombinedIsStates(t: Tableau, x0: Row, dt: real, ks: seq<Row>)
    requires TableauOk(t) && 0 < |ks| <= |t.a| && Slopes(ks, |x0|)
    ensures |t.a[|ks| - 1]| == |t.a|
    ensures Combined(t.a[|ks| - 1], x0, dt, ks) == StatesAfter(t, x0, dt, ks, |ks|)
  {
    var row := t.a[|ks| - 1];
    assert |row| == |t.a|;
    forall i | 0 <= i < |x0| ensures Combined(row, x0, dt, ks)[i] == StatesAfter(t, x0, dt, ks, |ks|)[i] {
      WeightedIsSum(row, ks, |ks|, i);
    }
  }

  /** Whatever the tableau, after `s` stages the states are those of the start moved along the slopes. */
  lemma {:induction false} StagesMoveTheStates(code: Code, m: Snapshot, dt: real, s: nat)
    requires CodeOk(code) && s <= |code.tableau.a|
    ensures TableauOk(code.tableau)
    ensures var (after, ks) := StagesTo(code, m, dt, s);
            after.world.x == StatesAfter(code.tableau, m.world.x, dt, ks, s)
  {
    if s > 0 {
      var (before, front) := StagesTo(code, m, dt, s - 1);
      CombinedIsStates(code.tableau, m.world.x, dt, StagesTo(code, m, dt, s).1);
    }
  }

  /** A step ends after its last stage, `dt` later. */
  lemma {:induction false} KernelEndsTheStep(code: Code, m: Snapshot, dt: real)
    requires CodeOk(code)
    ensures TableauOk(code.tableau)
    ensures var n, ks := |code.tableau.a|, StagesTo(code, m, dt, |code.tableau.a|).1;
            Kernel(code, m, dt).world ==
            m.world.(time := m.world.time + dt, x := StatesAfter(code.tableau, m.world.x, dt, ks, n))
  {
    StagesMoveTheStates(code, m, dt, |code.tableau.a|);
  }

  // ---------------------------------------------------------------------------------------
  // Explicit tableaus
  // ---------------------------------------------------------------------------------------

  /** Slope `s` is the derivative in the world of its stage, with that world's signals. */
  ghost predicate SlopeIsTaken(code: Code, m: Snapshot, dt: real, ks: seq<Row>, s: nat)
    requires CodeOk(code) && s < |code.tableau.a| && s < |ks| && Slopes(ks, |m.world.x|)
  {
    var w := StageWorld(code.tableau, m.world, dt, ks, s);
    ks[s] == code.deriv(w, CurrentSignals(code, w, m.sig))
  }

  /** Stage `s` begins in its world. */
  lemma {:induction false} StageBegins(code: Code, m: Snapshot, dt: real, s: nat)
    requires CodeOk(code) && s < |code.tableau.a|
    ensures var (before, ks) := StagesTo(code, m, dt, s);
            var all := StagesTo(code, m, dt, s + 1).1;
            all == ks + [all[s]]
            && AtStage(code, before, m.world.time, dt, s).world == StageWorld(code.tableau, m.world, dt, all, s)
  {
    var (before, ks) := StagesTo(code, m, dt, s);
    var all := StagesTo(code, m, dt, s + 1).1;
    assert all == ks + [all[s]];
    StatesOfPrefix(code.tableau, m.world.x, dt, ks, all[s], s);
    StagesMoveTheStates(code, m, dt, s);
  }

  /** Every slope of an explicit step is the derivative at `t0 + c[s] dt`, in the states the stages before have led
      to, and with the signals refreshed there. */
  lemma {:induction false} ExplicitSlopesAreTaken(code: Code, m: Snapshot, dt: real, n: nat, s: nat)
    requires CodeOk(code) && !code.tableau.implicit && s < n <= |code.tableau.a|
    ensures SlopeIsTaken(code, m, dt, StagesTo(code, m, dt, n).1, s)
    decreases n
  {
    var k := n - 1;
    StageBegins(code, m, dt, k);
    if s < k {
      var ks, all := StagesTo(code, m, dt, k).1, StagesTo(code, m, dt, n).1;
      StatesOfPrefix(code.tableau, m.world.x, dt, ks, all[k], s);
      ExplicitSlopesAreTaken(code, m, dt, k, s);
    }
  }

  /** After an explicit step the signals are those of its last stage. */
  lemma {:induction false} ExplicitKernelSignals(code: Code, m: Snapshot, dt: real)
    requires CodeOk(code) && !code.tableau.implicit
    ensures var s, ks := |code.tableau.a| - 1, StagesTo(code, m, dt, |code.tableau.a|).1;
            Kernel(code, m, dt).sig == CurrentSignals(code, StageWorld(code.tableau, m.world, dt, ks, s), m.sig)
  {
    StageBegins(code, m, dt, |code.tableau.a| - 1);
  }

  // ---------------------------------------------------------------------------------------
  // Implicit tableaus
  // ---------------------------------------------------------------------------------------

  /** An implicit stage that ended within the tolerance has a slope that is the derivative at `t0 + c[s] dt`, in the
      states moved along the slopes up to its own, to the larger of a thousandth of the absolute tolerance and 1e-14;
      without a diagonal coefficient it is exact. */
  lemma {:induction false} ImplicitSlopeIsTaken(code: Code, m: Snapshot, dt: real, s: nat)
    requires CodeOk(code) && code.tableau.implicit && s < |code.tableau.a| && StageEnd(code, m, dt, s).Within?
    ensures var (after, ks) := StagesTo(code, m, dt, s + 1);
            && after.world == m.world.(time := m.world.time + code.tableau.c[s] * dt,
                                       x := StatesAfter(code.tableau, m.world.x, dt, ks, s + 1))
            && forall i {:trigger ks[s][i]} | 0 <= i < |m.world.x| ::
                 var off := RealAbs(
                   ks[s][i] - code.deriv(after.world, CurrentSignals(code, after.world, m.sig))[i]);
                 if code.tableau.a[s][s] == 0.0 then off == 0.0
                 else off <= 0.001 * code.atol || off <= 0.00000000000001
  {
    StageHolds(code, m, dt, s);
    StagesMoveTheStates(code, m, dt, s + 1);
    var after := StagesTo(code, m, dt, s + 1).0;
    assert Placed(after, after.world.x) == after;
  }
}

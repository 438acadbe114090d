/** What the emitted integrators work on: one model instance, the model's own code, and its derivative
    (`src/codegen/templates/model_struct.c.jinja`). */
module StepModel {
  import opened Ir
  import opened LuSolve

  /** Everything of an instance that derivatives and events depend on besides signals. */
  datatype World = World(time: real, x: Row, mem: seq<real>, p: seq<real>, u: seq<real>)

  /** One model instance. */
  datatype Snapshot = Snapshot(world: World, sig: seq<real>, counters: seq<int>, started: bool)

  /** What events leave behind: states, memories and their own counters. */
  datatype Handled = Handled(x: Row, mem: seq<real>, counters: seq<int>)

  datatype Tableau = Tableau(c: seq<real>, a: seq<seq<real>>, implicit: bool)

  /** The model-specific code.  `outputs` is the algebraic pass, `deriv` the derivative once the
      signals are fresh, `events` the event bodies; `needSig` says that some event reads an input.
      The last two are for the stage solve of implicit tableaus. */
  datatype Code = Code(
    outputs: World -> seq<real>,
    deriv: (World, seq<real>) -> Row,
    events: (World, seq<real>, seq<int>, real) -> Handled,
    hasEvents: bool,
    needSig: bool,
    hasSig: bool,
    tableau: Tableau,
    prims: Prims,
    atol: real)

  ghost predicate CodeOk(code: Code) {
    && |code.tableau.c| == |code.tableau.a| > 0
    && (forall s {:trigger code.tableau.a[s]} | 0 <= s < |code.tableau.a| :: |code.tableau.a[s]| == |code.tableau.a|)
    && (forall w: World, sig {:trigger code.deriv(w, sig)} :: |code.deriv(w, sig)| == |w.x|)
    && (forall w: World, sig, cs, dt {:trigger code.events(w, sig, cs, dt)} :: |code.events(w, sig, cs, dt).x| == |w.x|)
    // without an event that reads an input, signals do not matter to events
    && (!code.needSig ==>
          forall w: World, s1, s2, cs, dt {:trigger code.events(w, s1, cs, dt), code.events(w, s2, cs, dt)} ::
            code.events(w, s1, cs, dt) == code.events(w, s2, cs, dt))
    && (code.tableau.implicit ==> ExactField(code.prims))
  }

  function Refresh(code: Code, m: Snapshot): Snapshot {
    if code.hasSig then m.(sig := code.outputs(m.world)) else m
  }

  /** `m` with other states. */
  function Placed(m: Snapshot, x: Row): Snapshot {
    m.(world := m.world.(x := x))
  }

  datatype Evaluated = Evaluated(m: Snapshot, slope: Row)

  /** `<name>_deriv`: the signals are refreshed first. */
  function Derived(code: Code, m: Snapshot): Evaluated {
    var now := Refresh(code, m);
    Evaluated(now, code.deriv(m.world, now.sig))
  }

  /** Nothing has changed but the states, and the signals of a model that has any. */
  predicate OnlyMoved(code: Code, m: Snapshot, r: Snapshot) {
    && |r.world.x| == |m.world.x| && Placed(r, m.world.x).world == m.world
    && r.counters == m.counters && r.started == m.started
    && (!code.hasSig ==> r.sig == m.sig)
  }

  /** The instances differ in their signals at most. */
  predicate SameButSignals(m1: Snapshot, m2: Snapshot) {
    m1.world == m2.world && m1.counters == m2.counters && m1.started == m2.started
  }

  /** Either the model has signals, which every derivative refreshes, or both have the same. */
  predicate Comparable(code: Code, m1: Snapshot, m2: Snapshot) {
    SameButSignals(m1, m2) && (!code.hasSig ==> m1.sig == m2.sig)
  }

  /** The derivative overwrites the signals before it uses them. */
  lemma {:induction false} DerivedIgnoresSignals(code: Code, m1: Snapshot, m2: Snapshot)
    requires Comparable(code, m1, m2)
    ensures Derived(code, m1) == Derived(code, m2)
  {
    assert code.hasSig || m1 == m2;
  }

  /** At the same states, instances that were only moved have the same derivative. */
  lemma {:induction false} DerivedOfMoved(code: Code, m: Snapshot, r: Snapshot, x: Row)
    requires OnlyMoved(code, m, r)
    ensures Derived(code, Placed(m, x)) == Derived(code, Placed(r, x))
  {
    assert Placed(m, x).world == Placed(Placed(r, m.world.x), x).world;
    DerivedIgnoresSignals(code, Placed(m, x), Placed(r, x));
  }
}

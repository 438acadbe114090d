/** Adaptive runs that do not land on their end (`src/simulation.rs`, `run_continues`, `_advance_dt`): the first
    step is never cut to the end, and a remainder below the least step is lengthened to it. */
module RunEnds {
  import opened Wrappers
  import opened Iteration
  import opened Chunking
  import opened SimState
  import opened SimStep
  import opened SimRun

  /** An adaptive solver and nothing to solve. */
  function EmptyWorld(dt: real, dtMin: real): World<int, int> {
    World(dt, dtMin, None, false, true, false, 1,
          (stage, t, h) => t, 1,
          (blocks, connections, sig) => Assembly(sig, true),
          (blocks, connections, sig, t) => Evaluation(sig, false),
          b => b,
          (b, sig, t, h) => Solved([], [], 0.0),
          (b, sig, t, h) => Stepped([], [], true, true, 0.0, None),
          (e, theta) => None,
          (e: Event<int>, engines, sig, t) => e.data,
          (e: Event<int>, engines, sig, t) => Found(e.data, false, false, false, 0.0),
          (e, t) => None,
          (event, s, t) => s,
          s => s)
  }

  predicate Bare(s: State<int, int>) {
    s.running && s.blocks == [] && s.events == [] && s.pending == [] && !s.stop && !s.dirty && !s.broken
  }

  function BareStart(): State<int, int> {
    State(0.0, true, [], [], [], 0, [], false, true, false, false, [], [])
  }

  lemma {:induction false} NothingDetected(dt: real, dtMin: real, s: State<int, int>, t: real)
    requires Bare(s)
    ensures Detected(EmptyWorld(dt, dtMin), s, t) == [] && Detect(EmptyWorld(dt, dtMin), s, t) == s
  {
  }

  lemma {:induction false} BareUpdate(dt: real, dtMin: real, s: State<int, int>, t: real)
    requires Bare(s)
    ensures Update(EmptyWorld(dt, dtMin), s, t) == s
  {
  }

  lemma {:induction false} BareStep(dt: real, dtMin: real, s: State<int, int>, h: real)
    requires Bare(s)
    ensures var r := Timestep(EmptyWorld(dt, dtMin), s, h, true);
            Bare(r.state) && r.state.time == StepEnd(s, h) && r.outcome == Outcome(true, 0.0, 1.0)
  {
    var w := EmptyWorld(dt, dtMin);
    assert BufferAll(w, s) == s;
    assert Integrated(w, s, h, true) == Staged(s, Outcome(true, 0.0, 1.0), false);
    BareUpdate(dt, dtMin, s, StepEnd(s, h));
    NothingDetected(dt, dtMin, s, StepEnd(s, h));
    assert EndEvents(w, s, h, true) == Resolution(s, None);
  }

  lemma {:induction false} BareAdvance(dt: real, dtMin: real, plan: Plan, g: Going<int, int>)
    requires Bare(g.state) && plan.adaptive
    ensures var h := Advance(EmptyWorld(dt, dtMin), plan, g);
            && Bare(h.state) && h.state.time == StepEnd(g.state, g.dt)
            && h.dt == Bounded(EmptyWorld(dt, dtMin), h.state.time, dt, plan.End())
  {
    BareStep(dt, dtMin, g.state, g.dt);
    var r := Timestep(EmptyWorld(dt, dtMin), g.state, g.dt, true);
    assert Estimate(EmptyWorld(dt, dtMin), r.state) == None;
  }

  lemma {:induction false} BareBegin(dt: real, dtMin: real)
    ensures var g := Started(EmptyWorld(dt, dtMin), BareStart(), false);
            Bare(g.state) && g.state.time == 0.0 && g.dt == dt
  {
    BareUpdate(dt, dtMin, BareStart(), 0.0);
    NothingDetected(dt, dtMin, BareStart(), 0.0);
  }

  /** A run over one time unit whose first step is two units long ends at 2. */
  lemma {:induction false} FirstStepCanPassTheEnd() returns (w: World<int, int>, s: State<int, int>, plan: Plan)
    ensures StepsInBounds(w) && plan == Plan(s.time, 1.0, true)
    ensures var g, step := Started(w, s, false), Stepper(w, plan);
            && Takes(step, Goer(plan), g, 1) && Iterate(step, g, 1).state.running
            && Iterate(step, g, 1).state.time == plan.End() + 1.0
  {
    w, s, plan := EmptyWorld(2.0, 0.1), BareStart(), Plan(0.0, 1.0, true);
    var g, step := Started(w, s, false), Stepper(w, plan);
    BareBegin(2.0, 0.1);
    BareAdvance(2.0, 0.1, plan, g);
    assert Iterate(step, g, 0) == g && Iterate(step, g, 1) == step(g) == Advance(w, plan, g);
  }

  /** A run over five quarters in steps of one unit, none shorter than a half, ends at six quarters. */
  lemma {:induction false} ShortRemainderPassesTheEnd() returns (w: World<int, int>, s: State<int, int>, plan: Plan)
    ensures StepsInBounds(w) && w.dt < plan.duration && plan == Plan(s.time, 1.25, true)
    ensures var g, step := Started(w, s, false), Stepper(w, plan);
            && Takes(step, Goer(plan), g, 2) && Iterate(step, g, 2).state.running
            && Iterate(step, g, 2).state.time == plan.End() + 0.25
  {
    w, s, plan := EmptyWorld(1.0, 0.5), BareStart(), Plan(0.0, 1.25, true);
    var g, step := Started(w, s, false), Stepper(w, plan);
    BareBegin(1.0, 0.5);
    BareAdvance(1.0, 0.5, plan, g);
    var h := Advance(w, plan, g);
    BareAdvance(1.0, 0.5, plan, h);
    assert h.dt == 0.5;
    assert Iterate(step, g, 0) == g && Iterate(step, g, 1) == step(g) == h;
    assert Iterate(step, g, 2) == step(h) == Advance(w, plan, h);
  }
}

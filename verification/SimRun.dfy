/** Whole runs of the interpreted simulation (`src/simulation.rs`, `run`, `run_begin`, `run_until`):
    a run is the same timesteps however it is cut into chunks, and only its accepted steps leave a mark. */
module SimRun {
  import opened Wrappers
  import opened SimState
  import opened SimStep
  import opened SimTransactions
  import opened Iteration
  import opened Chunking

  // ---------------------------------------------------------------------------------------
  // The run loop
  // ---------------------------------------------------------------------------------------

  function Abs(v: real): real {
    if v < 0.0 then -v else v
  }

  const SIM_END_RTOL := 0.000000000001

  /** The span of a run, and whether it adapts its step. */
  datatype Plan = Plan(start: real, duration: real, adaptive: bool) {
    function End(): real {
      start + duration
    }

    predicate Covers(time: real) {
      time < End() && (adaptive || Abs(time - start - duration) > SIM_END_RTOL * Abs(duration))
    }
  }

  /** The smaller of two estimates, where there is one. */
  function Sooner(a: Option<real>, b: Option<real>): Option<real> {
    if a.None? then b
    else if b.None? then a
    else Some(if b.value < a.value then b.value else a.value)
  }

  function EventEstimate<Sig, Ev>(w: World<Sig, Ev>, t: real, e: Event<Ev>): Option<real> {
    if e.active && w.estimate(e, t).Some? && w.estimate(e, t).value > 0.0 then w.estimate(e, t) else None
  }

  function EventsEstimate<Sig, Ev>(w: World<Sig, Ev>, t: real, events: seq<Event<Ev>>): Option<real> {
    if events == [] then None
    else Sooner(EventsEstimate(w, t, events[..|events| - 1]), EventEstimate(w, t, events[|events| - 1]))
  }

  function BlocksEstimate<Sig, Ev>(w: World<Sig, Ev>, t: real, blocks: seq<Block<Ev>>): Option<real> {
    if blocks == [] then None
    else Sooner(BlocksEstimate(w, t, blocks[..|blocks| - 1]), EventsEstimate(w, t, blocks[|blocks| - 1].events))
  }

  /** The time to the next event that knows when it will fire. */
  function Estimate<Sig, Ev>(w: World<Sig, Ev>, s: State<Sig, Ev>): Option<real> {
    Sooner(EventsEstimate(w, s.time, s.events), BlocksEstimate(w, s.time, s.blocks))
  }

  function Least(d: real, bound: Option<real>): real {
    if bound.Some? && bound.value < d then bound.value else d
  }

  /** The bounds on a step: not past the end, and then within the allowed step sizes. */
  function Bounded<Sig, Ev>(w: World<Sig, Ev>, time: real, d: real, end: real): real {
    var inside := if time + d > end then end - time else d;
    if inside < w.dtMin then w.dtMin else Least(inside, w.dtMax)
  }

  function Rescaled<Sig, Ev>(w: World<Sig, Ev>, dt: real, o: Outcome): real {
    (if o.error == 0.0 && o.scale == 1.0 then w.dt else dt) * o.scale
  }

  function AdvanceDt<Sig, Ev>(w: World<Sig, Ev>, s: State<Sig, Ev>, dt: real, o: Outcome, end: real): real {
    Bounded(w, s.time, Least(Rescaled(w, dt, o), Estimate(w, s)), end)
  }

  /** A run in progress: the state, the step size it will try next, and how its steps have fared. */
  datatype Going<Sig, Ev> = Going(state: State<Sig, Ev>, dt: real, successful: nat, rejected: nat)

  predicate Continues<Sig, Ev>(plan: Plan, g: Going<Sig, Ev>) {
    g.state.running && plan.Covers(g.state.time)
  }

  function Advance<Sig, Ev>(w: World<Sig, Ev>, plan: Plan, g: Going<Sig, Ev>): Going<Sig, Ev> {
    var r := Timestep(w, g.state, g.dt, plan.adaptive);
    Going(r.state,
          if plan.adaptive then AdvanceDt(w, r.state, g.dt, r.outcome, plan.End()) else g.dt,
          if r.outcome.success then g.successful + 1 else g.successful,
          if r.outcome.success then g.rejected else g.rejected + 1)
  }

  function Stepper<Sig, Ev>(w: World<Sig, Ev>, plan: Plan): Going<Sig, Ev> -> Going<Sig, Ev> {
    (g: Going<Sig, Ev>) => Advance(w, plan, g)
  }

  function Goer<Sig, Ev>(plan: Plan): Going<Sig, Ev> -> bool {
    (g: Going<Sig, Ev>) => Continues(plan, g)
  }

  // ---------------------------------------------------------------------------------------
  // Starting a run
  // ---------------------------------------------------------------------------------------

  function Reset<Sig, Ev>(w: World<Sig, Ev>, s: State<Sig, Ev>): State<Sig, Ev> {
    Update(w, w.reset(s).(time := 0.0, running := true), 0.0)
  }

  /** Events already detected at the start each run their action, the system re-evaluated after each. */
  function InitialActs<Sig, Ev>(w: World<Sig, Ev>, s: State<Sig, Ev>, ds: seq<Detection>): State<Sig, Ev> {
    if ds == [] then s
    else
      var before := InitialActs(w, s, ds[..|ds| - 1]);
      Update(w, Act(w, before, ds[|ds| - 1].event, s.time), s.time)
  }

  function ResolveInitial<Sig, Ev>(w: World<Sig, Ev>, s: State<Sig, Ev>): State<Sig, Ev> {
    TakeStop(InitialActs(w, Detect(w, s, s.time), Detected(w, s, s.time)))
  }

  function Ready<Sig, Ev>(w: World<Sig, Ev>, s: State<Sig, Ev>, reset: bool): State<Sig, Ev> {
    var a := s.(running := true);
    var b := if reset then Reset(w, a) else a;
    Update(w, b, b.time)
  }

  function Begin<Sig, Ev>(w: World<Sig, Ev>, s: State<Sig, Ev>, reset: bool): State<Sig, Ev> {
    var c := ResolveInitial(w, Ready(w, s, reset));
    SampleAt(c, c.time, w.dt)
  }

  function Started<Sig, Ev>(w: World<Sig, Ev>, s: State<Sig, Ev>, reset: bool): Going<Sig, Ev> {
    Going(Begin(w, s, reset), w.dt, 0, 0)
  }

  lemma {:induction false} InitialActsKeepTheClock<Sig, Ev>(w: World<Sig, Ev>, s: State<Sig, Ev>, ds: seq<Detection>)
    ensures InitialActs(w, s, ds).time == s.time
    decreases |ds|
  {
    if ds != [] { InitialActsKeepTheClock(w, s, ds[..|ds| - 1]); }
  }

  lemma {:induction false} ResolveInitialKeepsTheClock<Sig, Ev>(w: World<Sig, Ev>, s: State<Sig, Ev>)
    ensures ResolveInitial(w, s).time == s.time
  {
    InitialActsKeepTheClock(w, Detect(w, s, s.time), Detected(w, s, s.time));
  }

  lemma {:induction false} BeginAtTheStart<Sig, Ev>(w: World<Sig, Ev>, s: State<Sig, Ev>, reset: bool)
    ensures Begin(w, s, reset).time == if reset then 0.0 else s.time
  {
    var r := Ready(w, s, reset);
    assert r.time == if reset then 0.0 else s.time;
    ResolveInitialKeepsTheClock(w, r);
  }

  // ---------------------------------------------------------------------------------------
  // Chunks
  // ---------------------------------------------------------------------------------------

  /** The chunk's own limit: the loop of `run_until` goes on below its target. */
  function Below<Sig, Ev>(target: real): Going<Sig, Ev> -> bool {
    (g: Going<Sig, Ev>) => g.state.time < target
  }

  function Limits<Sig, Ev>(targets: seq<real>): (r: seq<Going<Sig, Ev> -> bool>)
    ensures |r| == |targets| && forall i | 0 <= i < |r| :: r[i] == Below(targets[i])
  {
    if targets == [] then [] else Limits(targets[..|targets| - 1]) + [Below(targets[|targets| - 1])]
  }

  /** Chunking is invisible: however the targets are chosen, once the chunks have reached the end of the run or
      the run has stopped, they have performed exactly the timesteps of the unchunked run. */
  lemma {:induction false} ChunkedRunIsTheRun<Sig(!new), Ev(!new)>(
      step: Going<Sig, Ev> -> Going<Sig, Ev>, plan: Plan, g: Going<Sig, Ev>, targets: seq<real>, chunked: nat, n: nat)
    requires Takes(step, Goer(plan), g, n) && Chunked(step, Goer(plan), Limits(targets), g, chunked)
    requires (targets != [] && targets[|targets| - 1] >= plan.End()) || !Continues(plan, Iterate(step, g, chunked))
    ensures chunked == n
  {
    var goes := Goer<Sig, Ev>(plan);
    if targets != [] && targets[|targets| - 1] >= plan.End() {
      forall y {:trigger goes(y)} | goes(y) ensures Limits<Sig, Ev>(targets)[|targets| - 1](y) {
      }
    }
    ChunkingIsInvisible(step, goes, Limits(targets), g, chunked, n);
  }

  /** What a run from `s` is to cover. */
  function RunPlan<Sig, Ev>(w: World<Sig, Ev>, s: State<Sig, Ev>, duration: real, reset: bool, adaptive: bool): Plan {
    Plan(if reset then 0.0 else s.time, duration, adaptive && w.isAdaptive)
  }

  /** Marks the states at which `IsStepOf` is to be used. */
  ghost predicate Considered<Sig, Ev>(g: Going<Sig, Ev>) {
    true
  }

  /** `step` performs one pass of the run loop. */
  ghost predicate IsStepOf<Sig(!new), Ev(!new)>(step: Going<Sig, Ev> -> Going<Sig, Ev>, w: World<Sig, Ev>, plan: Plan) {
    forall g: Going<Sig, Ev> {:trigger Considered(g)} :: step(g) == Advance(w, plan, g)
  }

  /** The same progress, counted from different totals. */
  function Shifted<Sig, Ev>(g: Going<Sig, Ev>, successful: nat, rejected: nat): Going<Sig, Ev> {
    g.(successful := g.successful + successful, rejected := g.rejected + rejected)
  }

  ghost predicate CountsApart<Sig(!new), Ev(!new)>(step: Going<Sig, Ev> -> Going<Sig, Ev>) {
    forall h: Going<Sig, Ev>, a: nat, b: nat {:trigger Shifted(step(h), a, b)} ::
      step(Shifted(h, a, b)) == Shifted(step(h), a, b)
  }

  lemma {:induction false} StepCountsApart<Sig(!new), Ev(!new)>(
      step: Going<Sig, Ev> -> Going<Sig, Ev>, w: World<Sig, Ev>, plan: Plan)
    requires IsStepOf(step, w, plan)
    ensures CountsApart(step)
  {
    forall h: Going<Sig, Ev>, a: nat, b: nat {:trigger Shifted(step(h), a, b)}
      ensures step(Shifted(h, a, b)) == Shifted(step(h), a, b)
    {
      assert Considered(h) && Considered(Shifted(h, a, b));
    }
  }

  lemma {:induction false} ShiftedIterates<Sig(!new), Ev(!new)>(
      step: Going<Sig, Ev> -> Going<Sig, Ev>, g: Going<Sig, Ev>, a: nat, b: nat, n: nat)
    requires CountsApart(step)
    ensures Iterate(step, Shifted(g, a, b), n) == Shifted(Iterate(step, g, n), a, b)
    decreases n
  {
    if n > 0 {
      ShiftedIterates(step, g, a, b, n - 1);
      assert step(Shifted(Iterate(step, g, n - 1), a, b)) == Shifted(step(Iterate(step, g, n - 1)), a, b);
    }
  }

  /** A chunked run: `g` is where `n` of its `steps` lead, by way of chunks to `targets`. */
  ghost predicate Streamed<Sig, Ev>(
      step: Going<Sig, Ev> -> Going<Sig, Ev>, plan: Plan, start: Going<Sig, Ev>, targets: seq<real>, n: nat,
      g: Going<Sig, Ev>)
  {
    Chunked(step, Goer(plan), Limits(targets), start, n) && g == Iterate(step, start, n)
  }

  function FromZero<Sig, Ev>(g: Going<Sig, Ev>): Going<Sig, Ev> {
    g.(successful := 0, rejected := 0)
  }

  lemma {:induction false} LimitsSnoc<Sig, Ev>(targets: seq<real>, target: real)
    ensures Limits<Sig, Ev>(targets + [target]) == Limits(targets) + [Below(target)]
  {
    var all := targets + [target];
    assert all[..|all| - 1] == targets;
  }

  /** A chunk takes the same steps whatever totals it is counted from. */
  lemma {:induction false} ChunkCountsApart<Sig(!new), Ev(!new)>(
      step: Going<Sig, Ev> -> Going<Sig, Ev>, plan: Plan, target: real, g: Going<Sig, Ev>, m: nat)
    requires CountsApart(step) && Takes(step, Both(Below(target), Goer(plan)), g, m)
    ensures Takes(step, Both(Below(target), Goer(plan)), FromZero(g), m)
    ensures Iterate(step, g, m) == Shifted(Iterate(step, FromZero(g), m), g.successful, g.rejected)
  {
    var zero := FromZero(g);
    assert g == Shifted(zero, g.successful, g.rejected);
    var goes := Both(Below<Sig, Ev>(target), Goer<Sig, Ev>(plan));
    forall k: nat {:trigger Iterate(step, zero, k)} ensures goes(Iterate(step, zero, k)) == goes(Iterate(step, g, k)) {
      ShiftedIterates(step, zero, g.successful, g.rejected, k);
    }
    ShiftedIterates(step, zero, g.successful, g.rejected, m);
  }

  lemma {:induction false} StreamsOn<Sig(!new), Ev(!new)>(
      step: Going<Sig, Ev> -> Going<Sig, Ev>, plan: Plan, start: Going<Sig, Ev>, targets: seq<real>, target: real,
      n: nat, g: Going<Sig, Ev>, m: nat)
    requires Streamed(step, plan, start, targets, n, g) && Takes(step, Both(Below(target), Goer(plan)), g, m)
    ensures Streamed(step, plan, start, targets + [target], n + m, Iterate(step, g, m))
  {
    assert n + m - n == m;
    assert LastChunk(step, Goer(plan), Below(target), start, n, n + m);
    OneMoreChunk(step, Goer(plan), Limits(targets), Below(target), start, n, n + m);
    LimitsSnoc<Sig, Ev>(targets, target);
    IterateAdds(step, start, n, m);
  }

  /** How many steps the next chunk takes, and what it leads to. */
  lemma {:induction false} NextChunk<Sig(!new), Ev(!new)>(
      step: Going<Sig, Ev> -> Going<Sig, Ev>, plan: Plan, targets: seq<real>, target: real, start: Going<Sig, Ev>,
      n: nat, steps: nat, g: Going<Sig, Ev>)
    returns (m: nat, all: seq<real>, taken: nat, h: Going<Sig, Ev>)
    requires CountsApart(step) && Takes(step, Goer(plan), start, steps) && n <= steps
             && Streamed(step, plan, start, targets, n, g)
    ensures Takes(step, Both(Below(target), Goer(plan)), FromZero(g), m)
    ensures taken <= steps && Streamed(step, plan, start, all, taken, h)
    ensures h.state == Iterate(step, FromZero(g), m).state && h.dt == Iterate(step, FromZero(g), m).dt
    ensures all == targets + [target]
  {
    TakesRest(step, Goer(plan), start, n, steps);
    m := ChunkEnds(step, Goer(plan), Below(target), g, steps - n);
    StreamsOn(step, plan, start, targets, target, n, g, m);
    ChunkCountsApart(step, plan, target, g, m);
    all, taken, h := targets + [target], n + m, Shifted(Iterate(step, FromZero(g), m), g.successful, g.rejected);
  }

  // ---------------------------------------------------------------------------------------
  // Adaptive runs
  // ---------------------------------------------------------------------------------------

  ghost predicate StepsInBounds<Sig, Ev>(w: World<Sig, Ev>) {
    w.isAdaptive && 0.0 < w.dtMin && (w.dtMax.Some? ==> w.dtMin <= w.dtMax.value)
  }

  /** Same clock and records. */
  ghost predicate Unmarked<Sig, Ev>(s: State<Sig, Ev>, t: State<Sig, Ev>) {
    t.time == s.time && t.samples == s.samples && t.actions == s.actions
  }

  /** One step of an adaptive run: taken, with one sample at the new time, or taken back without a trace. */
  ghost predicate Marked<Sig, Ev>(g: Going<Sig, Ev>, h: Going<Sig, Ev>) {
    if h.successful == g.successful + 1 then h.rejected == g.rejected && Advanced(g.state, h.state, g.dt)
    else h.successful == g.successful && h.rejected == g.rejected + 1 && Unmarked(g.state, h.state)
  }

  lemma {:induction false} PendingLeavesNoMark<Sig, Ev>(w: World<Sig, Ev>, s: State<Sig, Ev>)
    ensures Unmarked(s, ApplyPending(w, s))
  {
  }

  lemma {:induction false} MarkedFrom<Sig, Ev>(
      g: Going<Sig, Ev>, a: State<Sig, Ev>, r: Step<Sig, Ev>, h: Going<Sig, Ev>)
    requires Unmarked(g.state, a) && h.state == r.state
    requires if r.outcome.success then Advanced(a, r.state, g.dt) else Unmarked(a, r.state)
    requires h.successful == (if r.outcome.success then g.successful + 1 else g.successful)
    requires h.rejected == (if r.outcome.success then g.rejected else g.rejected + 1)
    ensures Marked(g, h)
  {
  }

  lemma {:induction false} AdvanceIsMarked<Sig(!new), Ev(!new)>(w: World<Sig, Ev>, plan: Plan, g: Going<Sig, Ev>)
    requires w.isAdaptive && plan.adaptive
    ensures Marked(g, Advance(w, plan, g))
  {
    AdaptiveStepIsTransactional(w, g.state, g.dt);
    PendingLeavesNoMark(w, g.state);
    MarkedFrom(g, ApplyPending(w, g.state), Timestep(w, g.state, g.dt, true), Advance(w, plan, g));
  }

  /** The next step size is positive, and does not pass the end unless the least step does. */
  lemma {:induction false} BoundedIsPositive<Sig, Ev>(w: World<Sig, Ev>, time: real, d: real, end: real)
    requires StepsInBounds(w)
    ensures w.dtMin <= Bounded(w, time, d, end)
    ensures Bounded(w, time, d, end) <= w.dtMin || time + Bounded(w, time, d, end) <= end
  {
  }

  /** Samples from index `from` on were taken at strictly increasing times after `t0`, the last of them at `t`. */
  ghost predicate Climbing<Sig>(samples: seq<Sample<Sig>>, from: nat, t0: real, t: real) {
    && (forall i | from <= i < |samples| :: t0 < samples[i].time <= t)
    && (forall i, j | from <= i < j < |samples| :: samples[i].time < samples[j].time)
    && (if |samples| > from then samples[|samples| - 1].time == t else t == t0)
  }

  lemma {:induction false} ClimbsOn<Sig>(samples: seq<Sample<Sig>>, from: nat, t0: real, t: real, x: Sample<Sig>)
    requires from <= |samples| && Climbing(samples, from, t0, t) && t < x.time
    ensures Climbing(samples + [x], from, t0, x.time)
  {
    var all := samples + [x];
    assert forall i | from <= i < |samples| :: all[i] == samples[i];
  }

  /** The state `k` steps into an adaptive run: as many new samples as accepted steps, at strictly increasing
      times, the last at the current time; the other steps left nothing. */
  ghost predicate Ledgered<Sig, Ev>(g: Going<Sig, Ev>, h: Going<Sig, Ev>, k: nat) {
    && h.successful >= g.successful && h.rejected >= g.rejected
    && h.successful - g.successful + h.rejected - g.rejected == k
    && |h.state.samples| == |g.state.samples| + h.successful - g.successful
    && h.state.samples[..|g.state.samples|] == g.state.samples
    && Climbing(h.state.samples, |g.state.samples|, g.state.time, h.state.time)
    && h.dt > 0.0
  }

  lemma {:induction false} LedgerGrows<Sig, Ev>(g: Going<Sig, Ev>, h: Going<Sig, Ev>, next: Going<Sig, Ev>, k: nat)
    requires Ledgered(g, h, k) && Marked(h, next) && next.dt > 0.0
    ensures Ledgered(g, next, k + 1)
  {
    if next.successful == h.successful + 1 {
      ClimbsOn(h.state.samples, |g.state.samples|, g.state.time, h.state.time,
          Sample(h.state.time + h.dt, h.dt, next.state.signals));
    }
  }

  lemma {:induction false} AdvanceKeepsPositive<Sig, Ev>(w: World<Sig, Ev>, plan: Plan, g: Going<Sig, Ev>)
    requires StepsInBounds(w) && plan.adaptive
    ensures Advance(w, plan, g).dt >= w.dtMin
  {
    var r := Timestep(w, g.state, g.dt, true);
    BoundedIsPositive(w, r.state.time, Least(Rescaled(w, g.dt, r.outcome), Estimate(w, r.state)), plan.End());
  }

  ghost predicate MarkedSteps<Sig(!new), Ev(!new)>(step: Going<Sig, Ev> -> Going<Sig, Ev>) {
    forall h: Going<Sig, Ev> {:trigger step(h)} :: Marked(h, step(h)) && step(h).dt > 0.0
  }

  lemma {:induction false} MarkedStepsAreLedgered<Sig(!new), Ev(!new)>(
      step: Going<Sig, Ev> -> Going<Sig, Ev>, g: Going<Sig, Ev>, n: nat)
    requires MarkedSteps(step) && g.dt > 0.0
    ensures Ledgered(g, Iterate(step, g, n), n)
    decreases n
  {
    if n > 0 {
      MarkedStepsAreLedgered(step, g, n - 1);
      var h := Iterate(step, g, n - 1);
      LedgerGrows(g, h, step(h), n - 1);
    }
  }

  lemma {:induction false} AdaptiveStepsAreMarked<Sig(!new), Ev(!new)>(w: World<Sig, Ev>, plan: Plan)
    requires StepsInBounds(w) && plan.adaptive
    ensures MarkedSteps(Stepper(w, plan))
  {
    var step := Stepper(w, plan);
    forall h: Going<Sig, Ev> {:trigger step(h)} ensures Marked(h, step(h)) && step(h).dt > 0.0 {
      AdvanceIsMarked(w, plan, h);
      AdvanceKeepsPositive(w, plan, h);
    }
  }

  /** Adaptive runs are transactional as a whole, whatever the events, solvers and callbacks do. */
  lemma {:induction false} AdaptiveRunIsLedgered<Sig(!new), Ev(!new)>(
      w: World<Sig, Ev>, plan: Plan, g: Going<Sig, Ev>, n: nat)
    requires StepsInBounds(w) && plan.adaptive && g.dt > 0.0
    ensures Ledgered(g, Iterate(Stepper(w, plan), g, n), n)
  {
    AdaptiveStepsAreMarked(w, plan);
    MarkedStepsAreLedgered(Stepper(w, plan), g, n);
  }

  /** No event action ever runs in a step that is taken back. */
  lemma {:induction false} ActionsOnlyInAcceptedSteps<Sig(!new), Ev(!new)>(
      w: World<Sig, Ev>, plan: Plan, g: Going<Sig, Ev>, k: nat)
    requires w.isAdaptive && plan.adaptive
    ensures var h, next := Iterate(Stepper(w, plan), g, k), Iterate(Stepper(w, plan), g, k + 1);
            next.state.actions != h.state.actions ==>
              next.successful == h.successful + 1 && next.state.time == h.state.time + h.dt
              && |next.state.samples| == |h.state.samples| + 1
  {
    var h := Iterate(Stepper(w, plan), g, k);
    AdvanceIsMarked(w, plan, h);
    assert Iterate(Stepper(w, plan), g, k + 1) == Stepper(w, plan)(h);
  }

  // ---------------------------------------------------------------------------------------
  // Streaks of rejected steps
  // ---------------------------------------------------------------------------------------

  /** Nothing was integrated or recorded: the clock, the records, and every active block's engine state agree. */
  ghost predicate Untouched<Sig, Ev>(s: State<Sig, Ev>, t: State<Sig, Ev>) {
    && Unmarked(s, t) && t.pending == [] && |t.blocks| == |s.blocks|
    && forall i | 0 <= i < |s.blocks| ::
         t.blocks[i].active == s.blocks[i].active && (s.blocks[i].active ==> SameState(s.blocks[i], t.blocks[i]))
  }

  lemma {:induction false} RejectionTouchesNothing<Sig(!new), Ev(!new)>(
      w: World<Sig, Ev>, plan: Plan, g: Going<Sig, Ev>)
    requires w.isAdaptive && plan.adaptive && g.state.pending == []
    ensures Advance(w, plan, g).rejected > g.rejected ==> Untouched(g.state, Advance(w, plan, g).state)
  {
    var r := Timestep(w, g.state, g.dt, true);
    AdaptiveStepIsTransactional(w, g.state, g.dt);
    if !r.outcome.success {
      UndoneIsUntouched(g.state, r.state, StagesBegun(w, g.state, g.dt), w.isImplicit, g.dt);
    }
  }

  lemma {:induction false} UndoneIsUntouched<Sig, Ev>(
      s: State<Sig, Ev>, t: State<Sig, Ev>, n: nat, implicit: bool, dt: real)
    requires s.pending == [] && Still(s, t) && AllUndone(s.blocks, t.blocks, n, implicit, dt)
    ensures Untouched(s, t)
  {
    forall i | 0 <= i < |s.blocks|
      ensures t.blocks[i].active == s.blocks[i].active && (s.blocks[i].active ==> SameState(s.blocks[i], t.blocks[i]))
    {
      assert Undone(s.blocks[i], t.blocks[i], n, implicit, dt);
    }
  }

  lemma {:induction false} UntouchedTwice<Sig, Ev>(s: State<Sig, Ev>, t: State<Sig, Ev>, u: State<Sig, Ev>)
    requires Untouched(s, t) && Untouched(t, u)
    ensures Untouched(s, u)
  {
  }

  ghost predicate RejectsUntouched<Sig(!new), Ev(!new)>(step: Going<Sig, Ev> -> Going<Sig, Ev>) {
    forall h: Going<Sig, Ev> {:trigger step(h)} ::
      && h.rejected <= step(h).rejected <= h.rejected + 1
      && (h.state.pending == [] && step(h).rejected > h.rejected ==> Untouched(h.state, step(h).state))
  }

  lemma {:induction false} StreakTouchesNothing<Sig(!new), Ev(!new)>(
      step: Going<Sig, Ev> -> Going<Sig, Ev>, g: Going<Sig, Ev>, n: nat)
    requires RejectsUntouched(step) && g.state.pending == []
    ensures Iterate(step, g, n).rejected <= g.rejected + n
    ensures Iterate(step, g, n).rejected == g.rejected + n ==> Untouched(g.state, Iterate(step, g, n).state)
    decreases n
  {
    if n > 0 {
      StreakTouchesNothing(step, g, n - 1);
      var h := Iterate(step, g, n - 1);
      var next := step(h);
      assert Iterate(step, g, n) == next;
      if next.rejected == g.rejected + n {
        UntouchedTwice(g.state, h.state, next.state);
      }
    }
  }

  /** However many steps in a row are rejected, the retry starts where the first attempt started. */
  lemma {:induction false} RejectStreakTouchesNothing<Sig(!new), Ev(!new)>(
      w: World<Sig, Ev>, plan: Plan, g: Going<Sig, Ev>, n: nat)
    requires w.isAdaptive && plan.adaptive && g.state.pending == []
    requires Iterate(Stepper(w, plan), g, n).rejected == g.rejected + n
    ensures Untouched(g.state, Iterate(Stepper(w, plan), g, n).state)
  {
    var step := Stepper(w, plan);
    forall h: Going<Sig, Ev> {:trigger step(h)}
      ensures h.rejected <= step(h).rejected <= h.rejected + 1
      ensures h.state.pending == [] && step(h).rejected > h.rejected ==> Untouched(h.state, step(h).state)
    {
      if h.state.pending == [] { RejectionTouchesNothing(w, plan, h); }
    }
    StreakTouchesNothing(step, g, n);
  }

  // ---------------------------------------------------------------------------------------
  // Where a run ends
  // ---------------------------------------------------------------------------------------

  /** An adaptive run that is not stopped ends at or past its end. Only its first step, which is not cut to the
      end, or a last step lengthened to the least step, can carry it past; otherwise it ends exactly there. */
  lemma {:induction false} AdaptiveRunLands<Sig(!new), Ev(!new)>(
      w: World<Sig, Ev>, plan: Plan, g: Going<Sig, Ev>, n: nat)
    requires StepsInBounds(w) && plan.adaptive && n > 0
    requires Takes(Stepper(w, plan), Goer(plan), g, n)
    requires Iterate(Stepper(w, plan), g, n).state.running
    ensures var last, end := Iterate(Stepper(w, plan), g, n - 1), Iterate(Stepper(w, plan), g, n).state.time;
            && end == last.state.time + last.dt >= plan.End() > last.state.time
            && (end == plan.End() <==>
                 if n == 1 then g.dt == plan.End() - g.state.time else plan.End() - last.state.time >= w.dtMin)
            && (n > 1 ==> end < plan.End() + w.dtMin)
  {
    var step := Stepper(w, plan);
    var last, r := Iterate(step, g, n - 1), Iterate(step, g, n);
    assert Goer(plan)(last);
    assert !Goer(plan)(r);
    assert r == Advance(w, plan, last);
    AdvanceIsMarked(w, plan, last);
    if n > 1 {
      var before := Iterate(step, g, n - 2);
      assert last == step(before);
      LastStepFits(w, plan, before);
    }
  }

  lemma {:induction false} LastStepFits<Sig, Ev>(w: World<Sig, Ev>, plan: Plan, g: Going<Sig, Ev>)
    requires StepsInBounds(w) && plan.adaptive
    ensures var h := Advance(w, plan, g);
            h.dt >= w.dtMin && (h.dt == w.dtMin || h.state.time + h.dt <= plan.End())
  {
    var r := Timestep(w, g.state, g.dt, true);
    BoundedIsPositive(w, r.state.time, Least(Rescaled(w, g.dt, r.outcome), Estimate(w, r.state)), plan.End());
  }

  // ---------------------------------------------------------------------------------------
  // Fixed-step runs
  // ---------------------------------------------------------------------------------------

  function TimeAfter(t0: real, dt: real, k: nat): real {
    t0 + k as real * dt
  }

  lemma {:induction false} OneStepLater(t0: real, dt: real, k: nat)
    ensures TimeAfter(t0, dt, k + 1) == TimeAfter(t0, dt, k) + dt
  {
    assert (k + 1) as real == k as real + 1.0;
    assert (k as real + 1.0) * dt == k as real * dt + dt;
  }

  lemma {:induction false} FixedStepMovesTheClock<Sig(!new), Ev(!new)>(w: World<Sig, Ev>, plan: Plan, g: Going<Sig, Ev>)
    requires !plan.adaptive
    ensures Advance(w, plan, g).state.time == g.state.time + g.dt && Advance(w, plan, g).dt == g.dt
  {
    FixedStepAlwaysAdvances(w, g.state, g.dt, false);
    PendingLeavesNoMark(w, g.state);
  }

  ghost predicate EvenSteps<Sig(!new), Ev(!new)>(step: Going<Sig, Ev> -> Going<Sig, Ev>) {
    forall h: Going<Sig, Ev> {:trigger step(h)} :: step(h).state.time == h.state.time + h.dt && step(h).dt == h.dt
  }

  lemma {:induction false} EvenStepsAddUp<Sig(!new), Ev(!new)>(
      step: Going<Sig, Ev> -> Going<Sig, Ev>, g: Going<Sig, Ev>, k: nat)
    requires EvenSteps(step)
    ensures var h := Iterate(step, g, k); h.state.time == TimeAfter(g.state.time, g.dt, k) && h.dt == g.dt
    decreases k
  {
    if k > 0 {
      EvenStepsAddUp(step, g, k - 1);
      OneStepLater(g.state.time, g.dt, k - 1);
    }
  }

  lemma {:induction false} FixedStepsAreEven<Sig(!new), Ev(!new)>(w: World<Sig, Ev>, plan: Plan)
    requires !plan.adaptive
    ensures EvenSteps(Stepper(w, plan))
  {
    var step := Stepper(w, plan);
    forall h: Going<Sig, Ev> {:trigger step(h)}
      ensures step(h).state.time == h.state.time + h.dt && step(h).dt == h.dt
    {
      FixedStepMovesTheClock(w, plan, h);
    }
  }

  /** More than the rounding allowance is left after `k` of `n` steps. */
  ghost predicate MoreToDo(n: nat, k: nat) {
    k < n && (n - k) as real > SIM_END_RTOL * n as real
  }

  lemma {:induction false} AllowanceIsSmall(n: nat)
    requires n > 0
    ensures (forall k: nat {:trigger MoreToDo(n, k)} | k < n :: MoreToDo(n, k)) <==> n < 1_000_000_000_000
  {
    assert MoreToDo(n, n - 1) <==> 1.0 > SIM_END_RTOL * n as real;
    if n < 1_000_000_000_000 {
      assert SIM_END_RTOL * n as real < 1.0;
      forall k: nat {:trigger MoreToDo(n, k)} | k < n ensures MoreToDo(n, k) {
        assert (n - k) as real >= 1.0;
      }
    } else {
      assert SIM_END_RTOL * n as real >= 1.0;
    }
  }

  /** `k` of `n` equal steps leave the run uncovered exactly if what remains is over the rounding allowance. */
  lemma {:induction false} CoversAfter(plan: Plan, dt: real, k: nat, n: nat)
    requires !plan.adaptive && dt > 0.0 && plan.duration == n as real * dt
    ensures plan.Covers(TimeAfter(plan.start, dt, k)) <==> MoreToDo(n, k)
  {
    var a, b := k as real, n as real;
    var rest := Multiple(b - a, dt);
    assert (n as int - k) as real == b - a;
    assert TimeAfter(plan.start, dt, k) == plan.End() - rest by { assert (b - a) * dt == b * dt - a * dt; }
    Scaled(b - a, 0.0, dt);
    assert plan.duration >= 0.0 by { assert b * dt >= 0.0; }
    assert SIM_END_RTOL * Abs(plan.duration) == Multiple(SIM_END_RTOL * b, dt);
    Scaled(b - a, SIM_END_RTOL * b, dt);
  }

  function Multiple(a: real, dt: real): real {
    a * dt
  }

  lemma {:induction false} Scaled(a: real, b: real, dt: real)
    requires dt > 0.0
    ensures Multiple(a, dt) > Multiple(b, dt) <==> a > b
  {
    assert (a - b) * dt == a * dt - b * dt;
    if a > b { assert (a - b) * dt > 0.0; }
    if a < b { assert (b - a) * dt > 0.0; }
  }

  ghost predicate AlwaysRunning<Sig, Ev>(step: Going<Sig, Ev> -> Going<Sig, Ev>, g: Going<Sig, Ev>, n: nat) {
    forall k: nat {:trigger Iterate(step, g, k)} | k <= n :: Iterate(step, g, k).state.running
  }

  lemma {:induction false} EvenRunTakesWholeSteps<Sig(!new), Ev(!new)>(
      step: Going<Sig, Ev> -> Going<Sig, Ev>, plan: Plan, g: Going<Sig, Ev>, n: nat)
    requires EvenSteps(step) && AlwaysRunning(step, g, n)
    requires !plan.adaptive && g.dt > 0.0 && n > 0 && plan.start == g.state.time && plan.duration == n as real * g.dt
    ensures Takes(step, Goer(plan), g, n) <==> n < 1_000_000_000_000
  {
    var goes := Goer<Sig, Ev>(plan);
    forall k: nat {:trigger MoreToDo(n, k)} | k <= n ensures goes(Iterate(step, g, k)) <==> MoreToDo(n, k) {
      EvenStepsAddUp(step, g, k);
      CoversAfter(plan, g.dt, k, n);
    }
    AllowanceIsSmall(n);
    assert !MoreToDo(n, n);
    if n < 1_000_000_000_000 {
      forall k: nat {:trigger Iterate(step, g, k)} | k < n ensures goes(Iterate(step, g, k)) {
        assert MoreToDo(n, k);
      }
    } else {
      var k: nat :| k < n && !MoreToDo(n, k);
      assert !goes(Iterate(step, g, k));
    }
  }

  /** A fixed-step run over `n` whole steps that nothing stops takes exactly `n` steps, if and only if there are
      fewer than 10^12 of them: beyond that the allowance for rounding exceeds the last step. */
  lemma {:induction false} FixedRunTakesWholeSteps<Sig(!new), Ev(!new)>(
      w: World<Sig, Ev>, plan: Plan, g: Going<Sig, Ev>, n: nat)
    requires !plan.adaptive && g.dt > 0.0 && n > 0
    requires plan.start == g.state.time && plan.duration == n as real * g.dt
    requires AlwaysRunning(Stepper(w, plan), g, n)
    ensures Takes(Stepper(w, plan), Goer(plan), g, n) <==> n < 1_000_000_000_000
  {
    FixedStepsAreEven(w, plan);
    EvenRunTakesWholeSteps(Stepper(w, plan), plan, g, n);
  }
}

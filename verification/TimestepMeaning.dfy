/** A whole timestep of the interpreted simulation (`timestep` in `src/simulation.rs`), said outright: what it does from
    the pending changes to the sample, in which order, and with which outcome. */
module TimestepMeaning {
  import opened Wrappers
  import opened SimState
  import opened SimStep
  import opened StepMeaning

  // ---------------------------------------------------------------------------------------
  // A stage
  // ---------------------------------------------------------------------------------------

  /** How a stage went: the state as it began, the passes of its solver, the state its blocks stepped from, whether the
      solver converged, the smallest rescaling reported, and the state its blocks stepped to. */
  datatype Trace<Sig, Ev> = Trace(
    begun: State<Sig, Ev>,
    from: seq<State<Sig, Ev>>,
    seen: seq<State<Sig, Ev>>,
    mid: State<Sig, Ev>,
    ok: bool,
    scale: Option<real>,
    next: State<Sig, Ev>)

  /** The system at a stage: for an explicit method evaluated once, for an implicit one solved. */
  ghost predicate Evaluated<Sig, Ev>(w: World<Sig, Ev>, t: real, dt: real, k: Trace<Sig, Ev>) {
    if w.isImplicit then
      && SolverPasses(w, t, dt, w.iterationsMax, k.from, k.seen, k.ok)
      && k.from[0] == k.begun && k.from[|k.seen|] == k.mid
    else k.ok && Refreshed(w, k.begun, t, k.mid)
  }

  /** The engines step and report; an adaptive step in which one of them disagrees is taken back. */
  ghost predicate BlocksStepped<Sig, Ev>(
      w: World<Sig, Ev>, t: real, dt: real, adaptive: bool, k: Trace<Sig, Ev>, r: Staged<Sig, Ev>)
  {
    && Summed(w, k.mid.signals, t, dt, k.mid.blocks, r.outcome.success, r.outcome.error, k.scale)
    && r.outcome.scale == (if k.scale.Some? then k.scale.value else 1.0)
    && AllStepped(w, t, dt, k.mid, k.next)
    && r.rejected == (adaptive && !r.outcome.success)
    && if r.rejected then TakenBack(w, k.next, r.state) else r.state == k.next
  }

  /** Stage `n` of a step from `s`. */
  ghost predicate StageRan<Sig, Ev>(
      w: World<Sig, Ev>, s: State<Sig, Ev>, dt: real, adaptive: bool, n: nat, k: Trace<Sig, Ev>, r: Staged<Sig, Ev>)
  {
    var t := w.stageTime(n, s.time, dt);
    && StageEntered(w, s, dt, n, k.begun) && Evaluated(w, t, dt, k)
    && if !k.ok && adaptive then r.rejected && r.outcome == Outcome(false, 0.0, 0.5) && TakenBack(w, k.mid, r.state)
       else BlocksStepped(w, t, dt, adaptive, k, r)
  }

  lemma {:induction false} StepsAre<Sig, Ev>(
      w: World<Sig, Ev>, t: real, dt: real, u: State<Sig, Ev>, next: State<Sig, Ev>)
    requires next == u.(blocks := Mapped(u.blocks, b => SteppedBlock(w, u.signals, t, dt, b)))
    ensures AllStepped(w, t, dt, u, next)
  {
    forall i: nat | i < |u.blocks| ensures BlockStepped(w, u.signals, t, dt, u.blocks[i], next.blocks[i]) {
      assert next.blocks[i] == SteppedBlock(w, u.signals, t, dt, u.blocks[i]);
    }
  }

  lemma {:induction false} EvaluatedIs<Sig, Ev>(
      w: World<Sig, Ev>, s: State<Sig, Ev>, dt: real, n: nat, t: real, mid: State<Sig, Ev>, ok: bool)
    returns (k: Trace<Sig, Ev>)
    requires t == w.stageTime(n, s.time, dt) && (mid, ok) == StageEval(w, s, dt, n)
    ensures StageEntered(w, s, dt, n, k.begun) && Evaluated(w, t, dt, k) && k.mid == mid && k.ok == ok
  {
    var begun := StageStart(w, s, dt, n);
    StartEnters(w, s, dt, n);
    k := Trace(begun, [], [], mid, ok, None, mid);
    if w.isImplicit {
      var from, seen := SolvePasses(w, begun, t, dt, w.iterationsMax, (mid, ok));
      k := k.(from := from, seen := seen);
    } else {
      UpdateRefreshes(w, begun, t, mid);
    }
  }

  lemma {:induction false} EndedIs<Sig, Ev>(
      w: World<Sig, Ev>, t: real, dt: real, adaptive: bool, k: Trace<Sig, Ev>, report: Tracker, r: Staged<Sig, Ev>)
    requires report == Tracked(w, k.mid.signals, t, dt, k.mid.blocks) && k.scale == report.minScale
    requires k.next == k.mid.(blocks := Mapped(k.mid.blocks, b => SteppedBlock(w, k.mid.signals, t, dt, b)))
    requires r.outcome == Outcome(report.ok, report.error, report.Scale()) && r.rejected == (adaptive && !report.ok)
    requires r.state == if r.rejected then Revert(w, k.next) else k.next
    ensures BlocksStepped(w, t, dt, adaptive, k, r)
  {
    TrackedSums(w, k.mid.signals, t, dt, k.mid.blocks, report);
    StepsAre(w, t, dt, k.mid, k.next);
    if r.rejected { RevertTakesBack(w, k.next); }
  }

  /** What a stage is, from its evaluation. */
  lemma {:induction false} StagedIs<Sig, Ev>(
      w: World<Sig, Ev>, s: State<Sig, Ev>, dt: real, adaptive: bool, n: nat, t: real, mid: State<Sig, Ev>, ok: bool,
      report: Tracker, next: State<Sig, Ev>, r: Staged<Sig, Ev>)
    requires r == Stage(w, s, dt, adaptive, n) && t == w.stageTime(n, s.time, dt)
    requires (mid, ok) == StageEval(w, s, dt, n) && report == Tracked(w, mid.signals, t, dt, mid.blocks)
    requires next == mid.(blocks := Mapped(mid.blocks, b => SteppedBlock(w, mid.signals, t, dt, b)))
    ensures if !ok && adaptive then r == Staged(Revert(w, mid), Outcome(false, 0.0, 0.5), true)
            else
              && r.outcome == Outcome(report.ok, report.error, report.Scale())
              && r.rejected == (adaptive && !report.ok)
              && r.state == if r.rejected then Revert(w, next) else next
  {
  }

  lemma {:induction false} StageRuns<Sig, Ev>(
      w: World<Sig, Ev>, s: State<Sig, Ev>, dt: real, adaptive: bool, n: nat, r: Staged<Sig, Ev>)
    returns (k: Trace<Sig, Ev>)
    requires r == Stage(w, s, dt, adaptive, n)
    ensures StageRan(w, s, dt, adaptive, n, k, r)
  {
    var t := w.stageTime(n, s.time, dt);
    var (mid, ok) := StageEval(w, s, dt, n);
    k := EvaluatedIs(w, s, dt, n, t, mid, ok);
    var report := Tracked(w, mid.signals, t, dt, mid.blocks);
    var next := mid.(blocks := Mapped(mid.blocks, b => SteppedBlock(w, mid.signals, t, dt, b)));
    StagedIs(w, s, dt, adaptive, n, t, mid, ok, report, next, r);
    k := k.(scale := report.minScale, next := next);
    if !ok && adaptive {
      RevertTakesBack(w, mid);
    } else {
      EndedIs(w, t, dt, adaptive, k, report, r);
    }
  }

  // ---------------------------------------------------------------------------------------
  // The stages in turn
  // ---------------------------------------------------------------------------------------

  ghost function Before<Sig, Ev>(s: State<Sig, Ev>, stages: seq<Staged<Sig, Ev>>, k: nat): State<Sig, Ev>
    requires k <= |stages|
  {
    if k == 0 then s else stages[k - 1].state
  }

  ghost predicate InTurn<Sig, Ev>(
      w: World<Sig, Ev>, s: State<Sig, Ev>, dt: real, adaptive: bool, stages: seq<Staged<Sig, Ev>>,
      traces: seq<Trace<Sig, Ev>>, k: nat)
    requires k < |stages| == |traces|
  {
    && StageRan(w, Before(s, stages, k), dt, adaptive, k, traces[k], stages[k])
    && (stages[k].rejected ==> k == |stages| - 1)
  }

  ghost predicate AllInTurn<Sig, Ev>(
      w: World<Sig, Ev>, s: State<Sig, Ev>, dt: real, adaptive: bool, stages: seq<Staged<Sig, Ev>>,
      traces: seq<Trace<Sig, Ev>>)
    requires |stages| == |traces|
  {
    forall k: nat {:trigger stages[k]} | k < |stages| :: InTurn(w, s, dt, adaptive, stages, traces, k)
  }

  /** What each of the stages came to, from what the one before left; one that rejects the step is the last. */
  ghost predicate StagesRan<Sig, Ev>(
      w: World<Sig, Ev>, s: State<Sig, Ev>, dt: real, adaptive: bool, n: nat, stages: seq<Staged<Sig, Ev>>,
      traces: seq<Trace<Sig, Ev>>)
  {
    && |traces| == |stages| <= n
    && AllInTurn(w, s, dt, adaptive, stages, traces)
    && (|stages| < n ==> |stages| > 0 && stages[|stages| - 1].rejected)
  }

  /** What they come to together: without any the step is taken to have succeeded. */
  ghost function Last<Sig, Ev>(s: State<Sig, Ev>, stages: seq<Staged<Sig, Ev>>): Staged<Sig, Ev> {
    if stages == [] then Staged(s, Outcome(true, 0.0, 1.0), false) else stages[|stages| - 1]
  }

  lemma {:induction false} StaysInTurn<Sig, Ev>(
      w: World<Sig, Ev>, s: State<Sig, Ev>, dt: real, adaptive: bool, stages: seq<Staged<Sig, Ev>>,
      traces: seq<Trace<Sig, Ev>>, k: Trace<Sig, Ev>, r: Staged<Sig, Ev>, j: nat)
    requires j < |stages| == |traces| && InTurn(w, s, dt, adaptive, stages, traces, j)
    requires !Last(s, stages).rejected
    ensures InTurn(w, s, dt, adaptive, stages + [r], traces + [k], j)
  {
    assert Before(s, stages + [r], j) == Before(s, stages, j);
  }

  lemma {:induction false} OneMoreStage<Sig, Ev>(
      w: World<Sig, Ev>, s: State<Sig, Ev>, dt: real, adaptive: bool, n: nat, stages: seq<Staged<Sig, Ev>>,
      traces: seq<Trace<Sig, Ev>>, k: Trace<Sig, Ev>, r: Staged<Sig, Ev>)
    requires StagesRan(w, s, dt, adaptive, n, stages, traces) && !Last(s, stages).rejected
    requires StageRan(w, Last(s, stages).state, dt, adaptive, n, k, r)
    ensures StagesRan(w, s, dt, adaptive, n + 1, stages + [r], traces + [k]) && Last(s, stages + [r]) == r
  {
    assert |stages| == n;
    forall j: nat | j <= n ensures InTurn(w, s, dt, adaptive, stages + [r], traces + [k], j) {
      if j < n {
        assert InTurn(w, s, dt, adaptive, stages, traces, j);
        StaysInTurn(w, s, dt, adaptive, stages, traces, k, r, j);
      } else {
        assert Before(s, stages + [r], n) == Last(s, stages).state;
      }
    }
  }

  lemma {:induction false} NoMoreStages<Sig, Ev>(
      w: World<Sig, Ev>, s: State<Sig, Ev>, dt: real, adaptive: bool, n: nat, stages: seq<Staged<Sig, Ev>>,
      traces: seq<Trace<Sig, Ev>>)
    requires StagesRan(w, s, dt, adaptive, n, stages, traces) && Last(s, stages).rejected
    ensures StagesRan(w, s, dt, adaptive, n + 1, stages, traces)
  {
  }

  lemma {:induction false} StageOfRuns<Sig(!new), Ev(!new)>(
      w: World<Sig, Ev>, s: State<Sig, Ev>, dt: real, adaptive: bool, n: nat,
      stage: (State<Sig, Ev>, nat) -> Staged<Sig, Ev>, r: Staged<Sig, Ev>)
    returns (k: Trace<Sig, Ev>)
    requires IsStageOf(stage, w, dt, adaptive) && r == stage(s, n)
    ensures StageRan(w, s, dt, adaptive, n, k, r)
  {
    assert AtStageStart(s, n);
    k := StageRuns(w, s, dt, adaptive, n, r);
  }

  lemma {:induction false} StagesRun<Sig(!new), Ev(!new)>(
      w: World<Sig, Ev>, s: State<Sig, Ev>, dt: real, adaptive: bool, n: nat,
      stage: (State<Sig, Ev>, nat) -> Staged<Sig, Ev>, r: Staged<Sig, Ev>)
    returns (stages: seq<Staged<Sig, Ev>>, traces: seq<Trace<Sig, Ev>>)
    requires IsStageOf(stage, w, dt, adaptive) && r == Stages(stage, s, n)
    ensures StagesRan(w, s, dt, adaptive, n, stages, traces) && Last(s, stages) == r
    decreases n
  {
    if n == 0 {
      stages, traces := [], [];
    } else {
      var m, before := n - 1, Stages(stage, s, n - 1);
      stages, traces := StagesRun(w, s, dt, adaptive, m, stage, before);
      if before.rejected {
        NoMoreStages(w, s, dt, adaptive, m, stages, traces);
      } else {
        var k := StageOfRuns(w, before.state, dt, adaptive, m, stage, r);
        OneMoreStage(w, s, dt, adaptive, m, stages, traces, k, r);
        stages, traces := stages + [r], traces + [k];
      }
    }
  }

  // ---------------------------------------------------------------------------------------
  // The whole step
  // ---------------------------------------------------------------------------------------

  /** How a step went: the state as it began, its stages, and, if they all passed, the system evaluated at its end and
      what its events came to. */
  datatype Course<Sig, Ev> = Course(
    buffered: State<Sig, Ev>,
    stages: seq<Staged<Sig, Ev>>,
    traces: seq<Trace<Sig, Ev>>,
    seen: State<Sig, Ev>,
    events: Resolution<Sig, Ev>)

  ghost predicate AnyEngine<Sig, Ev>(s: State<Sig, Ev>) {
    exists i: nat {:trigger s.blocks[i]} :: i < |s.blocks| && s.blocks[i].engine.Some?
  }

  /** A stop that was asked for takes effect. */
  ghost predicate StopTaken<Sig, Ev>(s: State<Sig, Ev>, r: State<Sig, Ev>) {
    r == s.(running := s.running && !s.stop, stop := false)
  }

  /** A step that an event sends back fails with the ratio to retry at; any other takes its sample, moves the clock to
      its `end` and reports what its last stage reported. */
  ghost predicate Concluded<Sig, Ev>(
      events: Resolution<Sig, Ev>, end: real, dt: real, staged: Outcome, r: Step<Sig, Ev>)
  {
    var s := events.state;
    var stopped := s.(running := s.running && !s.stop, stop := false);
    match events.retry
    case Some(ratio) => r.state == stopped && r.outcome == Outcome(false, staged.error, ratio)
    case None =>
      && r.state == stopped.(time := end, samples := s.samples + [Sample(end, dt, s.signals)])
      && r.outcome == staged
  }

  /** At the step floor events are resolved wherever they were found. */
  ghost predicate MustResolve<Sig, Ev>(w: World<Sig, Ev>, dt: real, adaptive: bool) {
    adaptive && dt <= w.dtMin * 1.000000001
  }

  /** The end of a step whose stages all passed. */
  ghost predicate Finished<Sig, Ev>(
      w: World<Sig, Ev>, last: Staged<Sig, Ev>, dt: real, adaptive: bool, c: Course<Sig, Ev>, r: Step<Sig, Ev>,
      end: real)
  {
    && end == last.state.time + dt && Refreshed(w, last.state, end, c.seen)
    && c.events == ResolveEvents(w, c.seen, dt, adaptive, MustResolve(w, dt, adaptive))
    && Concluded(c.events, end, dt, last.outcome, r)
  }

  /** A step from `s`, whose pending changes have been applied. */
  ghost predicate StepRan<Sig, Ev>(
      w: World<Sig, Ev>, s: State<Sig, Ev>, dt: real, adaptive: bool, c: Course<Sig, Ev>, r: Step<Sig, Ev>, end: real)
  {
    && StepBuffered(w, s, c.buffered)
    && StagesRan(w, c.buffered, dt, adaptive, if AnyEngine(s) then w.stages else 0, c.stages, c.traces)
    && var last := Last(c.buffered, c.stages);
       if last.rejected then r == Step(last.state, last.outcome) else Finished(w, last, dt, adaptive, c, r, end)
  }

  lemma {:induction false} ConcludeIs<Sig, Ev>(e: Resolution<Sig, Ev>, end: real, dt: real, staged: Outcome)
    ensures Concluded(e, end, dt, staged, Conclude(e, end, dt, staged))
  {
  }

  lemma {:induction false} FinishIs<Sig, Ev>(
      w: World<Sig, Ev>, last: Staged<Sig, Ev>, dt: real, adaptive: bool, c: Course<Sig, Ev>, r: Step<Sig, Ev>,
      end: real, force: bool)
    requires end == last.state.time + dt && force == MustResolve(w, dt, adaptive)
    requires c.seen == Update(w, last.state, end) && c.events == ResolveEvents(w, c.seen, dt, adaptive, force)
    requires r == Finish(w, last.state, dt, adaptive, last.outcome)
    ensures Finished(w, last, dt, adaptive, c, r, end)
  {
    UpdateRefreshes(w, last.state, end, c.seen);
    assert StepEnd(last.state, dt) == end && Forced(w, dt, adaptive) == force;
    ConcludeIs(c.events, end, dt, last.outcome);
    assert EndEvents(w, last.state, dt, adaptive) == c.events;
  }

  lemma {:induction false} EnginesBuffered<Sig, Ev>(w: World<Sig, Ev>, s: State<Sig, Ev>, b: State<Sig, Ev>)
    requires StepBuffered(w, s, b)
    ensures HasDynamic(b.blocks) <==> AnyEngine(s)
  {
    forall i: nat | i < |s.blocks| ensures b.blocks[i].engine.Some? == s.blocks[i].engine.Some? {
      assert BlockBuffered(w, s, s.blocks[i], b.blocks[i]);
    }
    if AnyEngine(s) {
      var i: nat :| i < |s.blocks| && s.blocks[i].engine.Some?;
      assert b.blocks[i].engine.Some?;
    }
  }

  /** Every timestep takes this course: pending changes, buffering, the stages up to the first that rejects, and then
      events, stop and sample. */
  lemma {:induction false} TimestepRuns<Sig(!new), Ev(!new)>(
      w: World<Sig, Ev>, s: State<Sig, Ev>, dt: real, adaptive: bool, a: bool, r: Step<Sig, Ev>)
    returns (c: Course<Sig, Ev>, end: real)
    requires r == Timestep(w, s, dt, adaptive) && a == (adaptive && w.isAdaptive)
    ensures StepRan(w, ApplyPending(w, s), dt, a, c, r, end)
  {
    var p := ApplyPending(w, s);
    var b := BufferAll(w, p);
    var n := if HasDynamic(b.blocks) then w.stages else 0;
    BufferBuffers(w, p);
    EnginesBuffered(w, p, b);
    var last := Integrated(w, b, dt, a);
    var stages, traces := StagesRun(w, b, dt, a, n, Stager(w, dt, a), last);
    end := last.state.time + dt;
    var seen, force := Update(w, last.state, end), MustResolve(w, dt, a);
    c := Course(b, stages, traces, seen, ResolveEvents(w, seen, dt, a, force));
    if !last.rejected { FinishIs(w, last, dt, a, c, r, end, force); }
  }
}

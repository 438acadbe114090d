/** The interpreted simulation engine (`src/simulation.rs`) as its methods update it. Each method is proved to
    take the state to what `SimStep` and `SimRun` say; what that guarantees is proved there and in
    `SimTransactions`. */
module Simulation {
  import opened Wrappers
  import opened Iteration
  import opened Chunking
  import opened SimState
  import opened Bracketing
  import opened SimStep
  import opened SimRun

  /** What a chunked run carries from one chunk to the next: its step size, and the length it was begun with. */
  class Stream {
    var dt: real
    var duration: real

    constructor (dt: real)
      ensures this.dt == dt && duration == 0.0
    {
      this.dt, duration := dt, 0.0;
    }
  }

  class Simulation<Sig(!new), Ev(!new)> {
    const world: World<Sig, Ev>
    var time: real
    var running: bool
    var blocks: seq<Block<Ev>>
    var connections: seq<nat>
    var events: seq<Event<Ev>>
    var signals: Sig
    var pending: seq<PendingOp<Ev>>
    var stop: bool
    var hasGraph: bool
    var dirty: bool
    var broken: bool
    var samples: seq<Sample<Sig>>
    var actions: seq<(nat, real)>
    const stream: Stream

    function Now(): State<Sig, Ev>
      reads this
    {
      State(time, running, blocks, connections, events, signals, pending, stop, hasGraph, dirty, broken, samples,
        actions)
    }

    constructor (w: World<Sig, Ev>, s: State<Sig, Ev>)
      ensures world == w && Now() == s && fresh(stream) && stream.dt == w.dt
    {
      world := w;
      time, running, blocks, connections, events, signals :=
          s.time, s.running, s.blocks, s.connections, s.events, s.signals;
      pending, stop, hasGraph, dirty, broken := s.pending, s.stop, s.hasGraph, s.dirty, s.broken;
      samples, actions := s.samples, s.actions;
      stream := new Stream(w.dt);
    }

    /** What a callback did to the simulation. */
    method Become(s: State<Sig, Ev>)
      modifies this
      ensures Now() == s
    {
      time, running, blocks, connections, events, signals :=
          s.time, s.running, s.blocks, s.connections, s.events, s.signals;
      pending, stop, hasGraph, dirty, broken := s.pending, s.stop, s.hasGraph, s.dirty, s.broken;
      samples, actions := s.samples, s.actions;
    }

    // -------------------------------------------------------------------------------------
    // Topology and evaluation
    // -------------------------------------------------------------------------------------

    method ApplyPendingOps()
      modifies this
      ensures Now() == ApplyPending(world, old(Now()))
    {
      if pending == [] {
        return;
      }
      var batch := CollectBatch(pending);
      ApplyCollected(batch);
    }

    /** All removals, then all additions. */
    method ApplyCollected(batch: Batch<Ev>)
      modifies this
      ensures Now() == ApplyBatch(world, old(Now()), batch)
    {
      var kept, lostBlock := Keep(blocks, batch.removeBlocks, BlockId);
      var keptConnections, lostConnection := Keep(connections, batch.removeConnections, OwnId);
      var keptEvents, _ := Keep(events, batch.removeEvents, EventId);
      var all, added := AddQueuedBlocks(world, kept, batch.addBlocks);
      var changed := lostBlock || lostConnection || added || batch.addConnections != [];
      var stale := dirty || (changed && hasGraph);
      var allConnections, allEvents := keptConnections + batch.addConnections, keptEvents + batch.addEvents;
      Replace(all, allConnections, allEvents, stale);
    }

    /** The queued mutations took effect. */
    method Replace(bs: seq<Block<Ev>>, cs: seq<nat>, es: seq<Event<Ev>>, stale: bool)
      modifies this
      ensures Now() == old(Now()).(pending := [], blocks := bs, connections := cs, events := es, dirty := stale)
    {
      pending, blocks, connections, events, dirty := [], bs, cs, es, stale;
    }

    /** `retain`, skipped when nothing is to be dropped. */
    static method Keep<T>(s: seq<T>, drop: set<nat>, id: T -> nat) returns (kept: seq<T>, lost: bool)
      ensures kept == Retained(s, drop, id) && (lost <==> |kept| != |s|)
    {
      RetainedNothing(s, id);
      kept := if drop != {} then Retained(s, drop, id) else s;
      lost := |kept| != |s|;
    }

    static method AddQueuedBlocks(
        w: World<Sig, Ev>, s: seq<Block<Ev>>, adds: seq<Block<Ev>>)
      returns (all: seq<Block<Ev>>, added: bool)
      ensures all == AddBlocks(w, s, adds) && (added <==> |all| != |s|)
    {
      all, added := s, false;
      for i := 0 to |adds|
        invariant all == AddBlocks(w, s, adds[..i]) && (added <==> |all| != |s|)
      {
        var b := adds[i];
        assert adds[..i + 1][..i] == adds[..i];
        if b.id !in BlockIds(all) {
          all := all + [w.equip(b).(id := b.id)];
          added := true;
        }
      }
      assert adds[..|adds|] == adds;
    }

    static method CollectBatch(ops: seq<PendingOp<Ev>>) returns (batch: Batch<Ev>)
      ensures batch == Batched(ops)
    {
      var addBlocks: seq<Block<Ev>>, addConnections: seq<nat>, addEvents: seq<Event<Ev>> := [], [], [];
      var rmBlocks: set<nat>, rmConnections: set<nat>, rmEvents: set<nat> := {}, {}, {};
      for i := 0 to |ops|
        invariant Batch(addBlocks, rmBlocks, addConnections, rmConnections, addEvents, rmEvents) == Batched(ops[..i])
      {
        match ops[i] {
          case AddBlock(b) => addBlocks := addBlocks + [b];
          case RemoveBlock(id) => rmBlocks := rmBlocks + {id};
          case AddConnection(c) => addConnections := addConnections + [c];
          case RemoveConnection(id) => rmConnections := rmConnections + {id};
          case AddEvent(e) => addEvents := addEvents + [e];
          case RemoveEvent(id) => rmEvents := rmEvents + {id};
        }
        assert ops[..i + 1][..i] == ops[..i];
      }
      assert ops[..|ops|] == ops;
      batch := Batch(addBlocks, rmBlocks, addConnections, rmConnections, addEvents, rmEvents);
    }

    method UpdateSystem(t: real)
      modifies this
      ensures Now() == Update(world, old(Now()), t)
    {
      if dirty {
        AssembleGraph();
      }
      if broken {
        running := false;
        return;
      }
      if hasGraph {
        EvaluateGraph(t);
      }
    }

    method AssembleGraph()
      modifies this
      ensures Now() == Assembled(world, old(Now()))
    {
      var a := world.assemble(blocks, connections, signals);
      signals, dirty, broken, hasGraph := a.signals, false, !a.ok, hasGraph || a.ok;
    }

    method EvaluateGraph(t: real)
      modifies this
      ensures var e := world.eval(old(blocks), old(connections), old(signals), t);
              Now() == old(Now()).(signals := e.signals, stop := old(stop) || e.stop)
    {
      var e := world.eval(blocks, connections, signals, t);
      signals, stop := e.signals, stop || e.stop;
    }

    // -------------------------------------------------------------------------------------
    // Passes over the events and blocks
    // -------------------------------------------------------------------------------------

    static method GuardEvents(w: World<Sig, Ev>, engines: seq<Option<Engine>>, sig: Sig, t: real, es: seq<Event<Ev>>)
      returns (r: seq<Event<Ev>>)
      ensures r == Mapped(es, e => Guarded(w, engines, sig, t, e))
    {
      r := es;
      for i := 0 to |es|
        invariant |r| == |es| && (forall j | 0 <= j < i :: r[j] == Guarded(w, engines, sig, t, es[j]))
        invariant forall j | i <= j < |es| :: r[j] == es[j]
      {
        if es[i].active {
          r := r[i := es[i].(data := w.guard(es[i], engines, sig, t))];
        }
      }
    }

    static method GuardBlocks(w: World<Sig, Ev>, engines: seq<Option<Engine>>, sig: Sig, t: real, bs: seq<Block<Ev>>)
      returns (r: seq<Block<Ev>>)
      ensures r == Mapped(bs, b => GuardedBlock(w, engines, sig, t, b))
    {
      r := bs;
      for i := 0 to |bs|
        invariant |r| == |bs| && (forall j | 0 <= j < i :: r[j] == GuardedBlock(w, engines, sig, t, bs[j]))
        invariant forall j | i <= j < |bs| :: r[j] == bs[j]
      {
        var guarded := GuardEvents(w, engines, sig, t, bs[i].events);
        r := r[i := bs[i].(events := guarded)];
      }
    }

    static method BufferEngines(bs: seq<Block<Ev>>) returns (r: seq<Block<Ev>>)
      ensures r == Mapped(bs, b => Buffered(b))
    {
      r := bs;
      for i := 0 to |bs|
        invariant |r| == |bs| && (forall j | 0 <= j < i :: r[j] == Buffered(bs[j]))
        invariant forall j | i <= j < |bs| :: r[j] == bs[j]
      {
        if bs[i].engine.Some? && bs[i].active {
          r := r[i := bs[i].(engine := Some(bs[i].engine.value.Buffer()))];
        }
      }
    }

    static method RevertEngines(bs: seq<Block<Ev>>) returns (r: seq<Block<Ev>>)
      ensures r == Mapped(bs, b => Reverted(b))
    {
      r := bs;
      for i := 0 to |bs|
        invariant |r| == |bs| && (forall j | 0 <= j < i :: r[j] == Reverted(bs[j]))
        invariant forall j | i <= j < |bs| :: r[j] == bs[j]
      {
        if bs[i].engine.Some? && bs[i].active {
          r := r[i := bs[i].(engine := Some(bs[i].engine.value.Revert()))];
        }
      }
    }

    static method EnterStage(bs: seq<Block<Ev>>, stage: nat, predict: bool, dt: real) returns (r: seq<Block<Ev>>)
      ensures r == Mapped(bs, b => AtStage(b, stage, predict, dt))
    {
      r := bs;
      for i := 0 to |bs|
        invariant |r| == |bs| && (forall j | 0 <= j < i :: r[j] == AtStage(bs[j], stage, predict, dt))
        invariant forall j | i <= j < |bs| :: r[j] == bs[j]
      {
        if bs[i].engine.Some? {
          var e := bs[i].engine.value.(stage := stage);
          if predict {
            e := e.Predict(dt);
          }
          r := r[i := bs[i].(engine := Some(e))];
        }
      }
    }

    static method SolveBlocks(w: World<Sig, Ev>, sig: Sig, t: real, dt: real, bs: seq<Block<Ev>>)
      returns (r: seq<Block<Ev>>, worst: real)
      ensures r == Mapped(bs, b => SolvedBlock(w, sig, t, dt, b))
      ensures worst == Residual(w, sig, t, dt, bs)
    {
      r, worst := bs, 0.0;
      for i := 0 to |bs|
        invariant |r| == |bs| && (forall j | 0 <= j < i :: r[j] == SolvedBlock(w, sig, t, dt, bs[j]))
        invariant forall j | i <= j < |bs| :: r[j] == bs[j]
        invariant worst == Residual(w, sig, t, dt, bs[..i])
      {
        var b := bs[i];
        assert bs[..i + 1][..i] == bs[..i];
        if Live(b) {
          var solved := w.solve(b, sig, t, dt);
          r := r[i := b.(engine := Some(b.engine.value.(x := solved.x, slopes := solved.slopes)))];
          if solved.residual > worst {
            worst := solved.residual;
          }
        }
      }
      assert bs[..|bs|] == bs;
    }

    static method StepBlocks(w: World<Sig, Ev>, sig: Sig, t: real, dt: real, bs: seq<Block<Ev>>)
      returns (r: seq<Block<Ev>>, tracker: Tracker)
      ensures r == Mapped(bs, b => SteppedBlock(w, sig, t, dt, b))
      ensures tracker == Tracked(w, sig, t, dt, bs)
    {
      r, tracker := bs, Tracker(true, 0.0, None);
      for i := 0 to |bs|
        invariant |r| == |bs| && (forall j | 0 <= j < i :: r[j] == SteppedBlock(w, sig, t, dt, bs[j]))
        invariant forall j | i <= j < |bs| :: r[j] == bs[j]
        invariant tracker == Tracked(w, sig, t, dt, bs[..i])
      {
        var b := bs[i];
        assert bs[..i + 1][..i] == bs[..i];
        if Live(b) {
          var stepped := w.step(b, sig, t, dt);
          r := r[i := b.(engine :=
              Some(b.engine.value.(x := stepped.x, slopes := stepped.slopes, dense := stepped.dense)))];
          tracker := tracker.Record(stepped);
        }
      }
      assert bs[..|bs|] == bs;
    }

    static method SeekBlocks(w: World<Sig, Ev>, theta: real, bs: seq<Block<Ev>>) returns (r: seq<Block<Ev>>, ok: bool)
      ensures r == Mapped(bs, b => Sought(w, theta, b))
      ensures ok == SeeksOk(w, bs, theta)
    {
      r, ok := bs, true;
      for i := 0 to |bs|
        invariant |r| == |bs| && (forall j | 0 <= j < i :: r[j] == Sought(w, theta, bs[j]))
        invariant forall j | i <= j < |bs| :: r[j] == bs[j]
        invariant ok == forall j | 0 <= j < i :: SeekOk(w, theta, bs[j])
      {
        r := r[i := Sought(w, theta, bs[i])];
        ok := ok && SeekOk(w, theta, bs[i]);
      }
    }

    static method EndSeeks(bs: seq<Block<Ev>>) returns (r: seq<Block<Ev>>)
      ensures r == Mapped(bs, b => SeekEnded(b))
    {
      r := bs;
      for i := 0 to |bs|
        invariant |r| == |bs| && (forall j | 0 <= j < i :: r[j] == SeekEnded(bs[j]))
        invariant forall j | i <= j < |bs| :: r[j] == bs[j]
      {
        if Live(bs[i]) {
          r := r[i := bs[i].(engine := Some(bs[i].engine.value.SeekEnd()))];
        }
      }
    }

    static method ObserveEvents(w: World<Sig, Ev>, engines: seq<Option<Engine>>, sig: Sig, t: real, es: seq<Event<Ev>>)
      returns (r: seq<Event<Ev>>, hits: seq<Detection>)
      ensures r == Mapped(es, e => Observed(w, engines, sig, t, e))
      ensures hits == Hits(w, engines, sig, t, es)
    {
      r, hits := es, [];
      for i := 0 to |es|
        invariant |r| == |es| && (forall j | 0 <= j < i :: r[j] == Observed(w, engines, sig, t, es[j]))
        invariant forall j | i <= j < |es| :: r[j] == es[j]
        invariant hits == Hits(w, engines, sig, t, es[..i])
      {
        var e := es[i];
        assert es[..i + 1][..i] == es[..i];
        if e.active {
          var f := w.detect(e, engines, sig, t);
          r := r[i := e.(data := f.data, active := f.active)];
          if f.detected {
            hits := hits + [Detection(e.id, f.close, f.ratio)];
          }
        }
      }
      assert es[..|es|] == es;
    }

    static method ObserveBlocks(w: World<Sig, Ev>, engines: seq<Option<Engine>>, sig: Sig, t: real, bs: seq<Block<Ev>>)
      returns (r: seq<Block<Ev>>, hits: seq<Detection>)
      ensures r == Mapped(bs, b => ObservedBlock(w, engines, sig, t, b))
      ensures hits == BlockHits(w, engines, sig, t, bs)
    {
      r, hits := bs, [];
      for i := 0 to |bs|
        invariant |r| == |bs| && (forall j | 0 <= j < i :: r[j] == ObservedBlock(w, engines, sig, t, bs[j]))
        invariant forall j | i <= j < |bs| :: r[j] == bs[j]
        invariant hits == BlockHits(w, engines, sig, t, bs[..i])
      {
        assert bs[..i + 1][..i] == bs[..i];
        var observed, found := ObserveEvents(w, engines, sig, t, bs[i].events);
        r := r[i := bs[i].(events := observed)];
        hits := hits + found;
      }
      assert bs[..|bs|] == bs;
    }

    // -------------------------------------------------------------------------------------
    // Integration
    // -------------------------------------------------------------------------------------

    method BufferStep()
      modifies this
      ensures Now() == BufferAll(world, old(Now()))
    {
      var engines := Engines(blocks);
      events := GuardEvents(world, engines, signals, time, events);
      var guarded := GuardBlocks(world, engines, signals, time, blocks);
      blocks := BufferEngines(guarded);
    }

    method RevertStep()
      modifies this
      ensures Now() == Revert(world, old(Now()))
    {
      blocks := RevertEngines(blocks);
      UpdateSystem(time);
    }

    /** Newton passes over all blocks until the worst residual is small enough. */
    method SolveStage(t: real, dt: real) returns (ok: bool)
      modifies this
      ensures (Now(), ok) == Solve(world, old(Now()), t, dt, world.iterationsMax)
    {
      var left := world.iterationsMax;
      while left > 0
        invariant Solve(world, Now(), t, dt, left) == Solve(world, old(Now()), t, dt, world.iterationsMax)
      {
        UpdateSystem(t);
        var worst: real;
        blocks, worst := SolveBlocks(world, signals, t, dt, blocks);
        if worst <= NLS_COEF {
          return true;
        }
        left := left - 1;
      }
      return false;
    }

    /** One stage of the step; a stage that cannot stand reverts at once. */
    method RunStage(dt: real, adaptive: bool, stage: nat) returns (outcome: Outcome, rejected: bool)
      modifies this
      ensures Staged(Now(), outcome, rejected) == Stage(world, old(Now()), dt, adaptive, stage)
    {
      var t := world.stageTime(stage, time, dt);
      blocks := EnterStage(blocks, stage, world.isImplicit, dt);
      if world.isImplicit {
        var solved := SolveStage(t, dt);
        if !solved && adaptive {
          RevertStep();
          return Outcome(false, 0.0, 0.5), true;
        }
      } else {
        UpdateSystem(t);
      }
      var tracker: Tracker;
      blocks, tracker := StepBlocks(world, signals, t, dt, blocks);
      outcome := Outcome(tracker.ok, tracker.error, tracker.Scale());
      if !tracker.ok && adaptive {
        RevertStep();
        return outcome, true;
      }
      return outcome, false;
    }

    // -------------------------------------------------------------------------------------
    // Events
    // -------------------------------------------------------------------------------------

    method DetectEvents(t: real) returns (hits: seq<Detection>)
      modifies this
      ensures Now() == Detect(world, old(Now()), t) && hits == Detected(world, old(Now()), t)
    {
      var engines := Engines(blocks);
      var external, internal: seq<Detection>;
      events, external := ObserveEvents(world, engines, signals, t, events);
      blocks, internal := ObserveBlocks(world, engines, signals, t, blocks);
      hits := SortByRatio(external + internal);
    }

    /** Refine the crossing on the engines' interpolants; every engine is put back before returning. */
    method LocaliseEvents(dt: real, ratio: real) returns (theta: Option<real>)
      modifies this
      ensures var l := Localise(world, old(Now()), dt, ratio); Now() == l.state && theta == l.theta
    {
      if !world.denseEvents || exists i | 0 <= i < |blocks| :: !CanSeek(blocks[i]) {
        return None;
      }
      theta := SearchCrossing(dt, FirstGuess(ratio));
      blocks := EndSeeks(blocks);
    }

    /** Probe from a first guess until every event found is close, the bracket is narrow, or probes run out. */
    method SearchCrossing(dt: real, first: real) returns (theta: Option<real>)
      modifies this
      ensures var l := Bracket(Prober(world, dt), old(Now()), 0.0, 1.0, first, MAX_PROBES);
              Now() == l.state && theta == l.theta
    {
      var lo, hi, guess := 0.0, 1.0, first;
      ghost var prober := Prober(world, dt);
      ghost var whole := Bracket(prober, Now(), lo, hi, guess, MAX_PROBES);
      for n := 0 to MAX_PROBES
        invariant SameFinding(Bracket(prober, Now(), lo, hi, guess, MAX_PROBES - n), whole)
      {
        ProbeContinues(prober, Now(), lo, hi, guess, MAX_PROBES - n);
        var ok, hits, secant := ProbeSystem(dt, guess);
        if !ok {
          return None;
        }
        if hits == [] {
          lo := guess;
          guess := Midpoint(lo, hi);
        } else {
          hi := guess;
          if AllClose(hits) {
            return Some(hi);
          }
          guess := Inside(lo, hi, secant);
        }
        if hi - lo < THETA_WIDTH {
          return None;
        }
      }
      return None;
    }

    method ProbeSystem(dt: real, guess: real) returns (ok: bool, hits: seq<Detection>, secant: real)
      modifies this
      ensures var r := Prober(world, dt)(old(Now()), guess);
              Now() == r.state && (if ok then r.hits == Some(hits) && r.secant == secant else r.hits.None?)
    {
      blocks, ok := SeekBlocks(world, guess, blocks);
      hits, secant := [], 0.0;
      if ok {
        var t := ProbeTime(time, dt, guess);
        UpdateSystem(t);
        hits := DetectEvents(t);
        secant := Secant(hits, guess);
      }
    }

    /** Run one event's action. */
    method RunAction(event: nat, t: real)
      modifies this
      ensures Now() == Act(world, old(Now()), event, t)
    {
      Become(Act(world, Now(), event, t));
    }

    method RunActions(calls: seq<Call>)
      modifies this
      ensures Now() == ActAll(world, old(Now()), calls)
    {
      for i := 0 to |calls|
        invariant Now() == ActAll(world, old(Now()), calls[..i])
      {
        assert calls[..i + 1][..i] == calls[..i];
        RunAction(calls[i].event, calls[i].time);
      }
      assert calls[..|calls|] == calls;
    }

    /** Two phases: if some event is not close yet, nothing is resolved and the step is retried shorter. */
    method HandleEvents(dt: real, adaptive: bool, force: bool) returns (retry: Option<real>)
      modifies this
      ensures Resolution(Now(), retry) == ResolveEvents(world, old(Now()), dt, adaptive, force)
    {
      var end, start := StepEnd(Now(), dt), time;
      var hits := DetectEvents(end);
      if hits == [] {
        return None;
      }
      var far := FirstFar(hits);
      if adaptive && far.Some? && !force {
        var theta := LocaliseEvents(dt, far.value);
        RevertStep();
        return Some(theta.UnwrapOr(far.value));
      }
      RunActions(Calls(hits, start, dt, adaptive && far.None?));
      UpdateSystem(end);
      return None;
    }

    // -------------------------------------------------------------------------------------
    // Timestep
    // -------------------------------------------------------------------------------------

    method RunStages(dt: real, adaptive: bool, ghost stage: (State<Sig, Ev>, nat) -> Staged<Sig, Ev>)
      returns (outcome: Outcome, rejected: bool)
      requires IsStageOf(stage, world, dt, adaptive)
      modifies this
      ensures Staged(Now(), outcome, rejected) ==
              Stages(stage, old(Now()), if HasDynamic(old(blocks)) then world.stages else 0)
    {
      outcome, rejected := Outcome(true, 0.0, 1.0), false;
      var i, n := 0, if HasDynamic(blocks) then world.stages else 0;
      while i < n && !rejected
        invariant i <= n && Staged(Now(), outcome, rejected) == Stages(stage, old(Now()), i)
      {
        assert AtStageStart(Now(), i);
        outcome, rejected := RunStage(dt, adaptive, i);
        i := i + 1;
      }
      RejectedStays(stage, old(Now()), i, n);
    }

    /** A callback may have asked the run to stop; the step it ran in is completed. */
    method ObserveStop()
      modifies this
      ensures Now() == TakeStop(old(Now()))
    {
      if stop {
        running, stop := false, false;
      }
    }

    /** Report the retry, or take the sample and move the clock. */
    method ConcludeStep(retry: Option<real>, end: real, dt: real, staged: Outcome) returns (outcome: Outcome)
      modifies this
      ensures Step(Now(), outcome) == Conclude(Resolution(old(Now()), retry), end, dt, staged)
    {
      ObserveStop();
      if retry.Some? {
        return Outcome(false, staged.error, retry.value);
      }
      samples := samples + [Sample(end, dt, signals)];
      time := end;
      return staged;
    }

    /** Events, then the sample and the clock. */
    method FinishStep(dt: real, adaptive: bool, staged: Outcome) returns (outcome: Outcome)
      modifies this
      ensures Step(Now(), outcome) == Finish(world, old(Now()), dt, adaptive, staged)
    {
      var end := StepEnd(Now(), dt);
      UpdateSystem(end);
      var retry := HandleEvents(dt, adaptive, Forced(world, dt, adaptive));
      outcome := ConcludeStep(retry, end, dt, staged);
    }

    method TakeTimestep(dt: real, adaptive: bool) returns (outcome: Outcome)
      modifies this
      ensures Step(Now(), outcome) == Timestep(world, old(Now()), dt, adaptive)
    {
      ApplyPendingOps();
      BufferStep();
      var rejected: bool;
      outcome, rejected := RunStages(dt, adaptive && world.isAdaptive, Stager(world, dt, adaptive && world.isAdaptive));
      if !rejected {
        outcome := FinishStep(dt, adaptive && world.isAdaptive, outcome);
      }
    }

    // -------------------------------------------------------------------------------------
    // Runs
    // -------------------------------------------------------------------------------------

    static method EarliestEvent(w: World<Sig, Ev>, t: real, es: seq<Event<Ev>>) returns (soonest: Option<real>)
      ensures soonest == EventsEstimate(w, t, es)
    {
      soonest := None;
      for i := 0 to |es|
        invariant soonest == EventsEstimate(w, t, es[..i])
      {
        assert es[..i + 1][..i] == es[..i];
        soonest := Sooner(soonest, EventEstimate(w, t, es[i]));
      }
      assert es[..|es|] == es;
    }

    method NextEvent() returns (soonest: Option<real>)
      ensures soonest == Estimate(world, Now())
    {
      var external := EarliestEvent(world, time, events);
      soonest := None;
      for i := 0 to |blocks|
        invariant soonest == BlocksEstimate(world, time, blocks[..i])
      {
        assert blocks[..i + 1][..i] == blocks[..i];
        var internal := EarliestEvent(world, time, blocks[i].events);
        soonest := Sooner(soonest, internal);
      }
      assert blocks[..|blocks|] == blocks;
      soonest := Sooner(external, soonest);
    }

    method NextDt(dt: real, o: Outcome, end: real) returns (next: real)
      ensures next == AdvanceDt(world, Now(), dt, o, end)
    {
      next := Rescaled(world, dt, o);
      var event := NextEvent();
      if event.Some? && event.value < next {
        next := event.value;
      }
      next := Bounded(world, time, next, end);
    }

    /** Reset, evaluate, resolve what is detected at the start, take the first sample. */
    method BeginRun(reset: bool)
      modifies this
      ensures Now() == Begin(world, old(Now()), reset)
    {
      GetReady(reset);
      ResolveInitialEvents();
      samples := samples + [Sample(time, world.dt, signals)];
    }

    method GetReady(reset: bool)
      modifies this
      ensures Now() == Ready(world, old(Now()), reset)
    {
      running := true;
      if reset {
        ResetState();
      }
      UpdateSystem(time);
    }

    method ResetState()
      modifies this
      ensures Now() == Reset(world, old(Now()))
    {
      Become(world.reset(Now()).(time := 0.0, running := true));
      UpdateSystem(time);
    }

    method ResolveInitialEvents()
      modifies this
      ensures Now() == ResolveInitial(world, old(Now()))
    {
      var start := time;
      var hits := DetectEvents(start);
      ghost var was := Now();
      for i := 0 to |hits|
        invariant Now() == InitialActs(world, was, hits[..i])
      {
        assert hits[..i + 1][..i] == hits[..i];
        InitialActsKeepTheClock(world, was, hits[..i]);
        RunAction(hits[i].event, start);
        UpdateSystem(start);
      }
      assert hits[..|hits|] == hits;
      ObserveStop();
    }

    /** One pass of a run loop. */
    method RunOnce(plan: Plan, dt: real, ok: nat, bad: nat, ghost step: Going<Sig, Ev> -> Going<Sig, Ev>)
      returns (next: real, successful: nat, rejected: nat)
      requires IsStepOf(step, world, plan)
      modifies this
      ensures Going(Now(), next, successful, rejected) == step(Going(old(Now()), dt, ok, bad))
    {
      assert Considered(Going(Now(), dt, ok, bad));
      var outcome := TakeTimestep(dt, plan.adaptive);
      successful, rejected := ok, bad;
      if outcome.success {
        successful := successful + 1;
      } else {
        rejected := rejected + 1;
      }
      next := dt;
      if plan.adaptive {
        next := NextDt(dt, outcome, plan.End());
      }
    }

    /** The blocking run. An adaptive run need not end, so its caller says after how many steps it does. */
    method Run(
        duration: real, reset: bool, adaptive: bool, ghost step: Going<Sig, Ev> -> Going<Sig, Ev>, ghost steps: nat)
      returns (successful: nat, rejected: nat)
      requires IsStepOf(step, world, RunPlan(world, Now(), duration, reset, adaptive))
      requires Takes(step, Goer(RunPlan(world, Now(), duration, reset, adaptive)), Started(world, Now(), reset), steps)
      modifies this
      ensures var end := Iterate(step, Started(world, old(Now()), reset), steps);
              Now() == end.state && successful == end.successful && rejected == end.rejected
    {
      var plan := RunPlan(world, Now(), duration, reset, adaptive);
      BeginRun(reset);
      var dt := world.dt;
      successful, rejected := 0, 0;
      ghost var g, n := Going(Now(), dt, 0, 0), 0;
      RunGoes(step, plan, g, n, steps, Going(Now(), dt, successful, rejected));
      while Ongoing(plan)
        invariant 0 <= n <= steps && Going(Now(), dt, successful, rejected) == Iterate(step, g, n)
        invariant n < steps <==> Ongoing(plan)
        decreases steps - n
      {
        dt, successful, rejected := RunOnce(plan, dt, successful, rejected, step);
        n := n + 1;
        RunGoes(step, plan, g, n, steps, Going(Now(), dt, successful, rejected));
      }
    }

    /** Start a chunked run. */
    method RunBegin(reset: bool, duration: real)
      modifies this, stream
      ensures Now() == Begin(world, old(Now()), reset) && stream.dt == world.dt && stream.duration == duration
    {
      BeginRun(reset);
      stream.dt, stream.duration := world.dt, duration;
    }

    /** One chunk of it: steps until `target`, or until the run is over. */
    method RunUntil(
        target: real, endTime: real, adaptive: bool, ghost step: Going<Sig, Ev> -> Going<Sig, Ev>, ghost steps: nat)
      returns (successful: nat, rejected: nat)
      requires IsStepOf(step, world, StreamPlan(endTime, adaptive))
      requires Takes(step, Both(Below(target), Goer(StreamPlan(endTime, adaptive))), Going(Now(), stream.dt, 0, 0),
               steps)
      modifies this, stream`dt
      ensures Going(Now(), stream.dt, successful, rejected) ==
              Iterate(step, Going(old(Now()), old(stream.dt), 0, 0), steps)
      ensures Ongoing(StreamPlan(endTime, adaptive)) ==> time >= target
    {
      var plan := StreamPlan(endTime, adaptive);
      var dt := stream.dt;
      successful, rejected := 0, 0;
      ghost var g, n := Going(Now(), dt, 0, 0), 0;
      ChunkGoes(step, plan, target, g, n, steps, Going(Now(), dt, successful, rejected));
      while time < target && Ongoing(plan)
        invariant 0 <= n <= steps && Going(Now(), dt, successful, rejected) == Iterate(step, g, n)
        invariant stream.dt == old(stream.dt) && (n < steps <==> time < target && Ongoing(plan))
        decreases steps - n
      {
        dt, successful, rejected := RunOnce(plan, dt, successful, rejected, step);
        n := n + 1;
        ChunkGoes(step, plan, target, g, n, steps, Going(Now(), dt, successful, rejected));
      }
      stream.dt := dt;
    }

    predicate Ongoing(plan: Plan)
      reads this
    {
      running && plan.Covers(time)
    }

    /** The span of the chunked run, recovered from its true end and the length it was begun with. */
    function StreamPlan(endTime: real, adaptive: bool): Plan
      reads stream
    {
      Plan(endTime - stream.duration, stream.duration, adaptive && world.isAdaptive)
    }

    /** The next chunk of the streaming run, no further than its end. */
    method StreamChunk(
        target: real, end: real, adaptive: bool, ghost plan: Plan, ghost step: Going<Sig, Ev> -> Going<Sig, Ev>,
        ghost steps: nat, ghost start: Going<Sig, Ev>, ghost reached: seq<real>, ghost n: nat, ghost g: Going<Sig, Ev>)
      returns (ghost reached': seq<real>, ghost n': nat, ghost g': Going<Sig, Ev>)
      requires plan == StreamPlan(end, adaptive) && IsStepOf(step, world, plan) && CountsApart(step)
      requires Takes(step, Goer(plan), start, steps) && n <= steps && Streamed(step, plan, start, reached, n, g)
      requires Now() == g.state && stream.dt == g.dt
      modifies this, stream`dt
      ensures Now() == g'.state && stream.dt == g'.dt && n' <= steps && Streamed(step, plan, start, reached', n', g')
      ensures Ongoing(plan) ==> time >= target
    {
      var bounded := if target < end then target else end;
      ghost var m: nat;
      m, reached', n', g' := NextChunk(step, plan, reached, bounded, start, n, steps, g);
      var successful, rejected := RunUntil(bounded, end, adaptive, step, m);
      assert Going(Now(), stream.dt, successful, rejected) == Iterate(step, FromZero(g), m);
    }

    /** The streaming run (`python/fastsim/simulation.py`): chunks towards the given targets until the run is over
        or the targets are used up; it is over once a target at or past its end was aimed at. A finished one has done
        what the blocking run does. */
    method RunStreaming(duration: real, reset: bool, adaptive: bool, targets: seq<real>,
                        ghost step: Going<Sig, Ev> -> Going<Sig, Ev>, ghost steps: nat)
      returns (finished: bool)
      requires IsStepOf(step, world, RunPlan(world, Now(), duration, reset, adaptive))
      requires Takes(step, Goer(RunPlan(world, Now(), duration, reset, adaptive)), Started(world, Now(), reset), steps)
      modifies this, stream
      ensures finished ==> Now() == Iterate(step, Started(world, old(Now()), reset), steps).state
      ensures targets != [] && targets[|targets| - 1] >= RunPlan(world, old(Now()), duration, reset, adaptive).End() ==>
                finished
    {
      ghost var plan := RunPlan(world, Now(), duration, reset, adaptive);
      BeginAtTheStart(world, Now(), reset);
      StepCountsApart(step, world, plan);
      RunBegin(reset, duration);
      var end := time + duration;
      ghost var start: Going<Sig, Ev>, n: nat, reached: seq<real> := Going(Now(), stream.dt, 0, 0), 0, [];
      ghost var g := start;
      for i := 0 to |targets|
        invariant StreamPlan(end, adaptive) == plan && n <= steps && Streamed(step, plan, start, reached, n, g)
        invariant Now() == g.state && stream.dt == g.dt
        invariant i > 0 && Ongoing(plan) ==> time >= targets[i - 1]
      {
        if !Ongoing(StreamPlan(end, adaptive)) {
          break;
        }
        reached, n, g := StreamChunk(targets[i], end, adaptive, plan, step, steps, start, reached, n, g);
      }
      finished := !Ongoing(StreamPlan(end, adaptive));
      if finished {
        ChunkedRunIsTheRun(step, plan, start, reached, n, steps);
      }
    }
  }

  lemma {:induction false} RunGoes<Sig, Ev>(
      step: Going<Sig, Ev> -> Going<Sig, Ev>, plan: Plan, g: Going<Sig, Ev>, n: nat, steps: nat, now: Going<Sig, Ev>)
    requires Takes(step, Goer(plan), g, steps) && n <= steps && now == Iterate(step, g, n)
    ensures n < steps <==> now.state.running && plan.Covers(now.state.time)
  {
  }

  lemma {:induction false} ChunkGoes<Sig, Ev>(
      step: Going<Sig, Ev> -> Going<Sig, Ev>, plan: Plan, target: real, g: Going<Sig, Ev>, n: nat, steps: nat,
      now: Going<Sig, Ev>)
    requires Takes(step, Both(Below(target), Goer(plan)), g, steps) && n <= steps && now == Iterate(step, g, n)
    ensures n < steps <==> now.state.time < target && now.state.running && plan.Covers(now.state.time)
  {
  }

  lemma {:induction false} RejectedStays<Sig, Ev>(
      stage: (State<Sig, Ev>, nat) -> Staged<Sig, Ev>, s: State<Sig, Ev>, i: nat, n: nat)
    requires i <= n && (i == n || Stages(stage, s, i).rejected)
    ensures Stages(stage, s, n) == Stages(stage, s, i)
    decreases n
  {
    if i < n { RejectedStays(stage, s, i, n - 1); }
  }

  lemma {:induction false} RetainedNothing<T>(s: seq<T>, id: T -> nat)
    ensures Retained(s, {}, id) == s
    decreases |s|
  {
    if s != [] {
      RetainedNothing(s[..|s| - 1], id);
      assert s == s[..|s| - 1] + [s[|s| - 1]];
    }
  }
}

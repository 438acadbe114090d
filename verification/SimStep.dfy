/** One timestep of the interpreted simulation (`src/simulation.rs`), as a function of its state. */
module SimStep {
  import opened Wrappers
  import opened SimState
  import opened Bracketing

  function Mapped<T>(s: seq<T>, f: T -> T): (r: seq<T>)
    ensures |r| == |s| && forall i | 0 <= i < |s| :: r[i] == f(s[i])
  {
    seq(|s|, i requires 0 <= i < |s| => f(s[i]))
  }

  // ---------------------------------------------------------------------------------------
  // Queued topology changes
  // ---------------------------------------------------------------------------------------

  function Retained<T>(s: seq<T>, drop: set<nat>, id: T -> nat): seq<T> {
    if s == [] then []
    else
      var front := Retained(s[..|s| - 1], drop, id);
      if id(s[|s| - 1]) in drop then front else front + [s[|s| - 1]]
  }

  function BlockId<Ev>(b: Block<Ev>): nat { b.id }
  function EventId<Ev>(e: Event<Ev>): nat { e.id }
  function OwnId(c: nat): nat { c }

  /** What a queue of operations asks for, by kind. */
  datatype Batch<Ev> = Batch(
    addBlocks: seq<Block<Ev>>,
    removeBlocks: set<nat>,
    addConnections: seq<nat>,
    removeConnections: set<nat>,
    addEvents: seq<Event<Ev>>,
    removeEvents: set<nat>)
  {
    function Add(op: PendingOp<Ev>): Batch<Ev> {
      match op
      case AddBlock(b) => this.(addBlocks := addBlocks + [b])
      case RemoveBlock(id) => this.(removeBlocks := removeBlocks + {id})
      case AddConnection(c) => this.(addConnections := addConnections + [c])
      case RemoveConnection(id) => this.(removeConnections := removeConnections + {id})
      case AddEvent(e) => this.(addEvents := addEvents + [e])
      case RemoveEvent(id) => this.(removeEvents := removeEvents + {id})
    }
  }

  function Batched<Ev>(ops: seq<PendingOp<Ev>>): Batch<Ev> {
    if ops == [] then Batch([], {}, [], {}, [], {}) else Batched(ops[..|ops| - 1]).Add(ops[|ops| - 1])
  }

  function BlockIds<Ev>(blocks: seq<Block<Ev>>): set<nat> {
    set i | 0 <= i < |blocks| :: blocks[i].id
  }

  function AddBlock<Sig, Ev>(w: World<Sig, Ev>, blocks: seq<Block<Ev>>, b: Block<Ev>): seq<Block<Ev>> {
    if b.id in BlockIds(blocks) then blocks else blocks + [w.equip(b).(id := b.id)]
  }

  /** The new blocks in order, each added once, with an engine of the simulation's solver. */
  function AddBlocks<Sig, Ev>(w: World<Sig, Ev>, blocks: seq<Block<Ev>>, adds: seq<Block<Ev>>): (r: seq<Block<Ev>>)
    ensures |r| >= |blocks|
  {
    if adds == [] then blocks else AddBlock(w, AddBlocks(w, blocks, adds[..|adds| - 1]), adds[|adds| - 1])
  }

  /** All removals, then all additions; the graph is rebuilt later if a block or connection came or went. */
  function ApplyBatch<Sig, Ev>(w: World<Sig, Ev>, s: State<Sig, Ev>, batch: Batch<Ev>): State<Sig, Ev> {
    var keptBlocks := Retained(s.blocks, batch.removeBlocks, BlockId);
    var keptConnections := Retained(s.connections, batch.removeConnections, OwnId);
    var blocks := AddBlocks(w, keptBlocks, batch.addBlocks);
    var changed := || |keptBlocks| != |s.blocks| || |keptConnections| != |s.connections|
                   || |blocks| != |keptBlocks| || batch.addConnections != [];
    s.(pending := [],
       blocks := blocks,
       connections := keptConnections + batch.addConnections,
       events := Retained(s.events, batch.removeEvents, EventId) + batch.addEvents,
       dirty := s.dirty || (changed && s.hasGraph))
  }

  function ApplyPending<Sig, Ev>(w: World<Sig, Ev>, s: State<Sig, Ev>): State<Sig, Ev> {
    if s.pending == [] then s else ApplyBatch(w, s, Batched(s.pending))
  }

  // ---------------------------------------------------------------------------------------
  // System evaluation
  // ---------------------------------------------------------------------------------------

  function Assembled<Sig, Ev>(w: World<Sig, Ev>, s: State<Sig, Ev>): State<Sig, Ev> {
    var a := w.assemble(s.blocks, s.connections, s.signals);
    s.(signals := a.signals, dirty := false, broken := !a.ok, hasGraph := s.hasGraph || a.ok)
  }

  /** Rebuild the graph if it is stale, then evaluate it; a graph that cannot be built stops the run. */
  function Update<Sig, Ev>(w: World<Sig, Ev>, s: State<Sig, Ev>, t: real): State<Sig, Ev> {
    var g := if s.dirty then Assembled(w, s) else s;
    if g.broken then g.(running := false)
    else if !g.hasGraph then g
    else
      var e := w.eval(g.blocks, g.connections, g.signals, t);
      g.(signals := e.signals, stop := g.stop || e.stop)
  }

  // ---------------------------------------------------------------------------------------
  // Block by block
  // ---------------------------------------------------------------------------------------

  predicate Live<Ev>(b: Block<Ev>) {
    b.active && b.engine.Some?
  }

  predicate HasDynamic<Ev>(blocks: seq<Block<Ev>>) {
    exists i | 0 <= i < |blocks| :: blocks[i].engine.Some?
  }

  function Guarded<Sig, Ev>(
      w: World<Sig, Ev>, engines: seq<Option<Engine>>, sig: Sig, t: real, e: Event<Ev>): Event<Ev> {
    if e.active then e.(data := w.guard(e, engines, sig, t)) else e
  }

  function GuardedBlock<Sig, Ev>(
      w: World<Sig, Ev>, engines: seq<Option<Engine>>, sig: Sig, t: real, b: Block<Ev>): Block<Ev> {
    b.(events := Mapped(b.events, e => Guarded(w, engines, sig, t, e)))
  }

  function Buffered<Ev>(b: Block<Ev>): Block<Ev> {
    if Live(b) then b.(engine := Some(b.engine.value.Buffer())) else b
  }

  function Reverted<Ev>(b: Block<Ev>): Block<Ev> {
    if Live(b) then b.(engine := Some(b.engine.value.Revert())) else b
  }

  /** Every dynamic block learns the stage number; an implicit stage also gets its start value. */
  function AtStage<Ev>(b: Block<Ev>, stage: nat, predict: bool, dt: real): Block<Ev> {
    if b.engine.None? then b
    else
      var e := b.engine.value.(stage := stage);
      b.(engine := Some(if predict then e.Predict(dt) else e))
  }

  function SolvedBlock<Sig, Ev>(w: World<Sig, Ev>, sig: Sig, t: real, dt: real, b: Block<Ev>): Block<Ev> {
    if Live(b) then
      var r := w.solve(b, sig, t, dt);
      b.(engine := Some(b.engine.value.(x := r.x, slopes := r.slopes)))
    else b
  }

  function SteppedBlock<Sig, Ev>(w: World<Sig, Ev>, sig: Sig, t: real, dt: real, b: Block<Ev>): Block<Ev> {
    if Live(b) then
      var r := w.step(b, sig, t, dt);
      b.(engine := Some(b.engine.value.(x := r.x, slopes := r.slopes, dense := r.dense)))
    else b
  }

  function Sought<Sig, Ev>(w: World<Sig, Ev>, theta: real, b: Block<Ev>): Block<Ev> {
    if Live(b) && b.engine.value.CanInterpolate() then
      var e := b.engine.value;
      var end := e.TrueEnd();
      var at := w.interpolate(e.(x := end, stash := None), theta);
      b.(engine := Some(e.(x := at.UnwrapOr(end), stash := Some(end))))
    else b
  }

  predicate SeekOk<Sig, Ev>(w: World<Sig, Ev>, theta: real, b: Block<Ev>) {
    Live(b) ==>
      && b.engine.value.CanInterpolate()
      && w.interpolate(b.engine.value.(x := b.engine.value.TrueEnd(), stash := None), theta).Some?
  }

  function SeekEnded<Ev>(b: Block<Ev>): Block<Ev> {
    if Live(b) then b.(engine := Some(b.engine.value.SeekEnd())) else b
  }

  predicate CanSeek<Ev>(b: Block<Ev>) {
    Live(b) ==> b.engine.value.CanInterpolate()
  }

  // ---------------------------------------------------------------------------------------
  // The solver loop and the step tracker
  // ---------------------------------------------------------------------------------------

  const NLS_COEF := 0.1

  /** The largest positive residual of the live blocks. */
  function Residual<Sig, Ev>(w: World<Sig, Ev>, sig: Sig, t: real, dt: real, blocks: seq<Block<Ev>>): real {
    if blocks == [] then 0.0
    else
      var b := blocks[|blocks| - 1];
      var front := Residual(w, sig, t, dt, blocks[..|blocks| - 1]);
      if Live(b) && w.solve(b, sig, t, dt).residual > front then w.solve(b, sig, t, dt).residual else front
  }

  function Solve<Sig, Ev>(w: World<Sig, Ev>, s: State<Sig, Ev>, t: real, dt: real, left: nat): (State<Sig, Ev>, bool)
    decreases left
  {
    if left == 0 then (s, false)
    else
      var u := Update(w, s, t);
      var next := u.(blocks := Mapped(u.blocks, b => SolvedBlock(w, u.signals, t, dt, b)));
      if Residual(w, u.signals, t, dt, u.blocks) <= NLS_COEF then (next, true)
      else Solve(w, next, t, dt, left - 1)
  }

  /** What the last stage reported: all blocks agreed, the worst error, the smallest rescaling. */
  datatype Tracker = Tracker(ok: bool, error: real, minScale: Option<real>) {
    function Record(r: Stepped): Tracker {
      Tracker(ok && r.ok,
              if r.error > error then r.error else error,
              match r.scale
              case None => minScale
              case Some(v) => Some(if minScale.Some? && minScale.value < v then minScale.value else v))
    }

    function Scale(): real {
      minScale.UnwrapOr(1.0)
    }
  }

  function Tracked<Sig, Ev>(w: World<Sig, Ev>, sig: Sig, t: real, dt: real, blocks: seq<Block<Ev>>): Tracker {
    if blocks == [] then Tracker(true, 0.0, None)
    else
      var b := blocks[|blocks| - 1];
      var front := Tracked(w, sig, t, dt, blocks[..|blocks| - 1]);
      if Live(b) then front.Record(w.step(b, sig, t, dt)) else front
  }

  // ---------------------------------------------------------------------------------------
  // Event detection
  // ---------------------------------------------------------------------------------------

  function Observed<Sig, Ev>(
      w: World<Sig, Ev>, engines: seq<Option<Engine>>, sig: Sig, t: real, e: Event<Ev>): Event<Ev> {
    if e.active then
      var f := w.detect(e, engines, sig, t);
      e.(data := f.data, active := f.active)
    else e
  }

  function ObservedBlock<Sig, Ev>(
      w: World<Sig, Ev>, engines: seq<Option<Engine>>, sig: Sig, t: real, b: Block<Ev>): Block<Ev> {
    b.(events := Mapped(b.events, e => Observed(w, engines, sig, t, e)))
  }

  function Hits<Sig, Ev>(w: World<Sig, Ev>, engines: seq<Option<Engine>>, sig: Sig, t: real, events: seq<Event<Ev>>)
    : seq<Detection>
  {
    if events == [] then []
    else
      var e := events[|events| - 1];
      var front := Hits(w, engines, sig, t, events[..|events| - 1]);
      if e.active && w.detect(e, engines, sig, t).detected then
        front + [Detection(e.id, w.detect(e, engines, sig, t).close, w.detect(e, engines, sig, t).ratio)]
      else front
  }

  function BlockHits<Sig, Ev>(
      w: World<Sig, Ev>, engines: seq<Option<Engine>>, sig: Sig, t: real, blocks: seq<Block<Ev>>)
    : seq<Detection>
  {
    if blocks == [] then []
    else BlockHits(w, engines, sig, t, blocks[..|blocks| - 1]) + Hits(w, engines, sig, t, blocks[|blocks| - 1].events)
  }

  /** Stable insertion: behind every detection that is not later. */
  function InsertByRatio(ds: seq<Detection>, d: Detection): seq<Detection> {
    if ds == [] || ds[|ds| - 1].ratio <= d.ratio then ds + [d]
    else InsertByRatio(ds[..|ds| - 1], d) + [ds[|ds| - 1]]
  }

  function SortByRatio(ds: seq<Detection>): seq<Detection> {
    if ds == [] then [] else InsertByRatio(SortByRatio(ds[..|ds| - 1]), ds[|ds| - 1])
  }

  function Detected<Sig, Ev>(w: World<Sig, Ev>, s: State<Sig, Ev>, t: real): seq<Detection> {
    var engines := Engines(s.blocks);
    SortByRatio(Hits(w, engines, s.signals, t, s.events) + BlockHits(w, engines, s.signals, t, s.blocks))
  }

  /** Detection may deactivate a schedule that has run out. */
  function Detect<Sig, Ev>(w: World<Sig, Ev>, s: State<Sig, Ev>, t: real): State<Sig, Ev> {
    var engines := Engines(s.blocks);
    s.(events := Mapped(s.events, e => Observed(w, engines, s.signals, t, e)),
       blocks := Mapped(s.blocks, b => ObservedBlock(w, engines, s.signals, t, b)))
  }

  // ---------------------------------------------------------------------------------------
  // Event localisation
  // ---------------------------------------------------------------------------------------

  predicate SeeksOk<Sig, Ev>(w: World<Sig, Ev>, blocks: seq<Block<Ev>>, theta: real) {
    forall i | 0 <= i < |blocks| :: SeekOk(w, theta, blocks[i])
  }

  function SeekState<Sig, Ev>(w: World<Sig, Ev>, s: State<Sig, Ev>, theta: real): State<Sig, Ev> {
    s.(blocks := Mapped(s.blocks, b => Sought(w, theta, b)))
  }

  function ProbeTime(time: real, dt: real, theta: real): real {
    time + theta * dt
  }

  /** The earliest event's secant estimate, mapped from the part of the step before `theta` to the whole. */
  function Secant(hits: seq<Detection>, theta: real): real {
    if hits == [] then 0.0 else hits[0].ratio * theta
  }

  function ProbeUpdate<Sig, Ev>(w: World<Sig, Ev>, s: State<Sig, Ev>, dt: real, theta: real): State<Sig, Ev> {
    Update(w, SeekState(w, s, theta), ProbeTime(s.time, dt, theta))
  }

  /** Reposition the engines at `theta`, evaluate the system there, and look for events. */
  function ProbeAt<Sig, Ev>(w: World<Sig, Ev>, dt: real, s: State<Sig, Ev>, theta: real): Probing<State<Sig, Ev>> {
    if !SeeksOk(w, s.blocks, theta) then Probing(SeekState(w, s, theta), None, 0.0)
    else
      var u := ProbeUpdate(w, s, dt, theta);
      var t := ProbeTime(s.time, dt, theta);
      var hits := Detected(w, u, t);
      Probing(Detect(w, u, t), Some(hits), Secant(hits, theta))
  }

  function Prober<Sig, Ev>(w: World<Sig, Ev>, dt: real): (State<Sig, Ev>, real) -> Probing<State<Sig, Ev>> {
    (s, theta) => ProbeAt(w, dt, s, theta)
  }

  predicate Localisable<Sig, Ev>(w: World<Sig, Ev>, s: State<Sig, Ev>) {
    w.denseEvents && forall i | 0 <= i < |s.blocks| :: CanSeek(s.blocks[i])
  }

  function SeekEnd<Sig, Ev>(s: State<Sig, Ev>): State<Sig, Ev> {
    s.(blocks := Mapped(s.blocks, b => SeekEnded(b)))
  }

  function Localise<Sig, Ev>(w: World<Sig, Ev>, s: State<Sig, Ev>, dt: real, ratio: real): Located<State<Sig, Ev>> {
    if !Localisable(w, s) then Located(s, None, [])
    else
      var r := Bracket(Prober(w, dt), s, 0.0, 1.0, FirstGuess(ratio), MAX_PROBES);
      r.(state := SeekEnd(r.state))
  }

  // ---------------------------------------------------------------------------------------
  // Event resolution
  // ---------------------------------------------------------------------------------------

  /** Run the event's action; the clock and the records are out of its reach. */
  function Act<Sig, Ev>(w: World<Sig, Ev>, s: State<Sig, Ev>, event: nat, t: real): State<Sig, Ev> {
    w.act(event, s, t).(time := s.time, samples := s.samples, actions := s.actions + [(event, t)])
  }

  /** An action to run: which event's, and the time it is told. */
  datatype Call = Call(event: nat, time: real)

  /** Each detected event is told its crossing within the step, or the step's end. */
  function Calls(ds: seq<Detection>, t: real, dt: real, atEnd: bool): (r: seq<Call>)
    ensures |r| == |ds|
  {
    seq(|ds|, i requires 0 <= i < |ds| => Call(ds[i].event, if atEnd then t + dt else t + ds[i].ratio * dt))
  }

  function ActAll<Sig, Ev>(w: World<Sig, Ev>, s: State<Sig, Ev>, calls: seq<Call>): State<Sig, Ev> {
    if calls == [] then s
    else
      var c := calls[|calls| - 1];
      Act(w, ActAll(w, s, calls[..|calls| - 1]), c.event, c.time)
  }

  function Revert<Sig, Ev>(w: World<Sig, Ev>, s: State<Sig, Ev>): State<Sig, Ev> {
    Update(w, s.(blocks := Mapped(s.blocks, b => Reverted(b))), s.time)
  }

  /** The ratio of the first event that is not close. */
  function FirstFar(ds: seq<Detection>): Option<real> {
    if ds == [] then None else if ds[0].close then FirstFar(ds[1..]) else Some(ds[0].ratio)
  }

  function StepEnd<Sig, Ev>(s: State<Sig, Ev>, dt: real): real {
    s.time + dt
  }

  datatype Resolution<Sig, Ev> = Resolution(state: State<Sig, Ev>, retry: Option<real>)

  function ResolveEvents<Sig, Ev>(w: World<Sig, Ev>, s: State<Sig, Ev>, dt: real, adaptive: bool, force: bool)
    : Resolution<Sig, Ev>
  {
    var end := StepEnd(s, dt);
    var hits := Detected(w, s, end);
    var d := Detect(w, s, end);
    if hits == [] then Resolution(d, None)
    else
      var far := FirstFar(hits);
      if adaptive && far.Some? && !force then
        var l := Localise(w, d, dt, far.value);
        Resolution(Revert(w, l.state), Some(l.theta.UnwrapOr(far.value)))
      else
        Resolution(Update(w, ActAll(w, d, Calls(hits, s.time, dt, adaptive && far.None?)), end), None)
  }

  // ---------------------------------------------------------------------------------------
  // The timestep
  // ---------------------------------------------------------------------------------------

  function BufferAll<Sig, Ev>(w: World<Sig, Ev>, s: State<Sig, Ev>): State<Sig, Ev> {
    var engines := Engines(s.blocks);
    s.(events := Mapped(s.events, e => Guarded(w, engines, s.signals, s.time, e)),
       blocks := Mapped(Mapped(s.blocks, b => GuardedBlock(w, engines, s.signals, s.time, b)), b => Buffered(b)))
  }

  datatype Outcome = Outcome(success: bool, error: real, scale: real)

  /** The state after a stage, what it reported, and whether it rejected the step. */
  datatype Staged<Sig, Ev> = Staged(state: State<Sig, Ev>, outcome: Outcome, rejected: bool)

  function StageStart<Sig, Ev>(w: World<Sig, Ev>, s: State<Sig, Ev>, dt: real, stage: nat): State<Sig, Ev> {
    s.(blocks := Mapped(s.blocks, b => AtStage(b, stage, w.isImplicit, dt)))
  }

  function StageEval<Sig, Ev>(w: World<Sig, Ev>, s: State<Sig, Ev>, dt: real, stage: nat): (State<Sig, Ev>, bool) {
    var t := w.stageTime(stage, s.time, dt);
    var a := StageStart(w, s, dt, stage);
    if w.isImplicit then Solve(w, a, t, dt, w.iterationsMax) else (Update(w, a, t), true)
  }

  function Stage<Sig, Ev>(w: World<Sig, Ev>, s: State<Sig, Ev>, dt: real, adaptive: bool, stage: nat): Staged<Sig, Ev> {
    var (u, solved) := StageEval(w, s, dt, stage);
    if !solved && adaptive then Staged(Revert(w, u), Outcome(false, 0.0, 0.5), true)
    else
      var t := w.stageTime(stage, s.time, dt);
      var report := Tracked(w, u.signals, t, dt, u.blocks);
      var next := u.(blocks := Mapped(u.blocks, b => SteppedBlock(w, u.signals, t, dt, b)));
      var outcome := Outcome(report.ok, report.error, report.Scale());
      if !report.ok && adaptive then Staged(Revert(w, next), outcome, true) else Staged(next, outcome, false)
  }

  function Stager<Sig, Ev>(w: World<Sig, Ev>, dt: real, adaptive: bool): (State<Sig, Ev>, nat) -> Staged<Sig, Ev> {
    (s: State<Sig, Ev>, stage: nat) => Stage(w, s, dt, adaptive, stage)
  }

  /** Marks the states at which `IsStageOf` is to be used. */
  ghost predicate AtStageStart<Sig, Ev>(s: State<Sig, Ev>, stage: nat) {
    true
  }

  /** `stage` performs the stages of a step. */
  ghost predicate IsStageOf<Sig(!new), Ev(!new)>(
      stage: (State<Sig, Ev>, nat) -> Staged<Sig, Ev>, w: World<Sig, Ev>, dt: real, adaptive: bool) {
    forall s: State<Sig, Ev>, n: nat {:trigger AtStageStart(s, n)} :: stage(s, n) == Stage(w, s, dt, adaptive, n)
  }

  /** The stages before `n`, up to the first that rejects. */
  function Stages<Sig, Ev>(
      stage: (State<Sig, Ev>, nat) -> Staged<Sig, Ev>, s: State<Sig, Ev>, n: nat): Staged<Sig, Ev> {
    if n == 0 then Staged(s, Outcome(true, 0.0, 1.0), false)
    else
      var before := Stages(stage, s, n - 1);
      if before.rejected then before else stage(before.state, n - 1)
  }

  function TakeStop<Sig, Ev>(s: State<Sig, Ev>): State<Sig, Ev> {
    if s.stop then s.(running := false, stop := false) else s
  }

  function SampleAt<Sig, Ev>(s: State<Sig, Ev>, t: real, dt: real): State<Sig, Ev> {
    s.(samples := s.samples + [Sample(t, dt, s.signals)])
  }

  predicate AtFloor<Sig, Ev>(w: World<Sig, Ev>, dt: real) {
    dt <= w.dtMin * 1.000000001
  }

  /** At the step floor a retry could only reproduce itself, so events are resolved where they were found. */
  predicate Forced<Sig, Ev>(w: World<Sig, Ev>, dt: real, adaptive: bool) {
    adaptive && AtFloor(w, dt)
  }

  datatype Step<Sig, Ev> = Step(state: State<Sig, Ev>, outcome: Outcome)

  function Integrated<Sig, Ev>(w: World<Sig, Ev>, s: State<Sig, Ev>, dt: real, adaptive: bool): Staged<Sig, Ev> {
    Stages(Stager(w, dt, adaptive), s, if HasDynamic(s.blocks) then w.stages else 0)
  }

  /** Retry the step, or take the sample and move the clock. */
  function Conclude<Sig, Ev>(r: Resolution<Sig, Ev>, end: real, dt: real, outcome: Outcome): Step<Sig, Ev> {
    var q := TakeStop(r.state);
    if r.retry.Some? then Step(q, Outcome(false, outcome.error, r.retry.value))
    else Step(SampleAt(q, end, dt).(time := end), outcome)
  }

  function EndEvents<Sig, Ev>(w: World<Sig, Ev>, s: State<Sig, Ev>, dt: real, adaptive: bool): Resolution<Sig, Ev> {
    ResolveEvents(w, Update(w, s, StepEnd(s, dt)), dt, adaptive, Forced(w, dt, adaptive))
  }

  /** The end of a step whose stages all passed. */
  function Finish<Sig, Ev>(
      w: World<Sig, Ev>, s: State<Sig, Ev>, dt: real, adaptive: bool, outcome: Outcome): Step<Sig, Ev> {
    Conclude(EndEvents(w, s, dt, adaptive), StepEnd(s, dt), dt, outcome)
  }

  function Timestep<Sig, Ev>(w: World<Sig, Ev>, s: State<Sig, Ev>, dt: real, adaptive: bool): Step<Sig, Ev> {
    var a := adaptive && w.isAdaptive;
    var p := Integrated(w, BufferAll(w, ApplyPending(w, s)), dt, a);
    if p.rejected then Step(p.state, p.outcome) else Finish(w, p.state, dt, a, p.outcome)
  }
}

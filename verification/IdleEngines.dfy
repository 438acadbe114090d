/** Engines of inactive blocks are not undone with a rejected step: an implicit stage predicts into every
    dynamic engine, while the revert skips inactive blocks (`src/simulation.rs`, `timestep`, `_revert`). */
module IdleEngines {
  import opened Wrappers
  import opened SimState
  import opened SimStep
  import opened SimTransactions

  /** The last stage before `n` that predicts, if there is one. */
  function LastPrediction(e: Engine, n: nat): Option<nat> {
    if n <= 1 then None
    else if n - 1 < |e.rows| && e.rows[n - 1].Some? then Some(n - 1)
    else LastPrediction(e, n - 1)
  }

  function PredictedAt(e: Engine, stage: nat, dt: real): seq<real> {
    e.(stage := stage).Predict(dt).x
  }

  lemma {:induction false} SameSlopeSum(f: Engine, e: Engine, row: seq<real>, i: nat, m: nat)
    requires f.slopes == e.slopes
    ensures f.SlopeSum(row, i, m) == e.SlopeSum(row, i, m)
    decreases m
  {
    if m > 0 { SameSlopeSum(f, e, row, i, m - 1); }
  }

  /** A prediction looks at the buffered state and the slopes, not at the state it replaces. */
  lemma {:induction false} SamePrediction(f: Engine, e: Engine, stage: nat, dt: real)
    requires |f.x| == |e.x| && f.history == e.history && f.slopes == e.slopes && f.rows == e.rows
    requires e.(stage := stage).Predicts()
    ensures PredictedAt(f, stage, dt) == PredictedAt(e, stage, dt)
  {
    var g, h := f.(stage := stage), e.(stage := stage);
    forall i: nat | i < |e.x| ensures PredictedAt(f, stage, dt)[i] == PredictedAt(e, stage, dt)[i] {
      SameSlopeSum(g, h, e.rows[stage].value, i, stage);
    }
  }

  lemma {:induction false} IdledIs(e: Engine, n: nat, implicit: bool, dt: real)
    ensures var f, k := Idled(e, n, implicit, dt), LastPrediction(e, n);
            && f == e.(stage := f.stage, x := f.x) && |f.x| == |e.x|
            && f.x == if implicit && e.history != [] && k.Some? then PredictedAt(e, k.value, dt) else e.x
    decreases n
  {
    if n > 0 {
      IdledIs(e, n - 1, implicit, dt);
      var d := Idled(e, n - 1, implicit, dt);
      var f := d.(stage := n - 1);
      if implicit && f.Predicts() {
        SamePrediction(d, e, n - 1, dt);
        assert f.Predict(dt).x == PredictedAt(d, n - 1, dt);
      }
    }
  }

  /** An idle engine's state survives the first `n` stages of a step exactly if none of them predicts into it
      or the last prediction happens to be the state it already had. */
  lemma {:induction false} IdleStateSurvives(e: Engine, n: nat, implicit: bool, dt: real)
    ensures Idled(e, n, implicit, dt).x == e.x <==>
              (!implicit || e.history == [] || LastPrediction(e, n).None?
                || PredictedAt(e, LastPrediction(e, n).value, dt) == e.x)
  {
    IdledIs(e, n, implicit, dt);
  }

  /** An inactive block whose engine an implicit stage before `n` moves. */
  predicate Displaced<Ev>(b: Block<Ev>, n: nat, implicit: bool, dt: real) {
    && !b.active && b.engine.Some?
    && implicit && b.engine.value.history != []
    && LastPrediction(b.engine.value, n).Some?
    && PredictedAt(b.engine.value, LastPrediction(b.engine.value, n).value, dt) != b.engine.value.x
  }

  /** A rejected step leaves every engine state as it was, if and only if no inactive block is predicted into. */
  lemma {:induction false} RejectionRestoresStates<Sig(!new), Ev(!new)>(w: World<Sig, Ev>, s: State<Sig, Ev>, dt: real)
    requires w.isAdaptive && !Timestep(w, s, dt, true).outcome.success
    ensures var a, r := ApplyPending(w, s), Timestep(w, s, dt, true).state;
            && |r.blocks| == |a.blocks|
            && (forall i | 0 <= i < |a.blocks| ::
                  SameState(a.blocks[i], r.blocks[i]) <==>
                    !Displaced(a.blocks[i], StagesBegun(w, a, dt), w.isImplicit, dt))
  {
    AdaptiveStepIsTransactional(w, s, dt);
    var a, r := ApplyPending(w, s), Timestep(w, s, dt, true).state;
    var n := StagesBegun(w, a, dt);
    forall i | 0 <= i < |a.blocks|
      ensures SameState(a.blocks[i], r.blocks[i]) <==> !Displaced(a.blocks[i], n, w.isImplicit, dt)
    {
      assert Undone(a.blocks[i], r.blocks[i], n, w.isImplicit, dt);
      if a.blocks[i].engine.Some? { IdleStateSurvives(a.blocks[i].engine.value, n, w.isImplicit, dt); }
    }
  }

  lemma {:induction false} LaterPrediction(e: Engine, n: nat, m: nat)
    requires n <= m && LastPrediction(e, n).Some?
    ensures LastPrediction(e, m).Some?
    decreases m
  {
    if n < m { LaterPrediction(e, n, m - 1); }
  }

  /** An inactive block whose engine no stage of any step can move: nothing is buffered in it, or its method has no
      row to predict with. */
  predicate Unpredicted<Ev>(b: Block<Ev>, stages: nat) {
    !b.active && b.engine.Some? ==> b.engine.value.history == [] || LastPrediction(b.engine.value, stages).None?
  }

  lemma {:induction false} NotDisplaced<Ev>(b: Block<Ev>, n: nat, stages: nat, implicit: bool, dt: real)
    requires n <= stages && (implicit ==> Unpredicted(b, stages))
    ensures !Displaced(b, n, implicit, dt)
  {
    if Displaced(b, n, implicit, dt) { LaterPrediction(b.engine.value, n, stages); }
  }

  /** Before a step is taken it is known that its rejection restores every engine state, if the method is explicit
      or no inactive block can be predicted into. */
  lemma {:induction false} QuietRejectionRestoresAll<Sig(!new), Ev(!new)>(
      w: World<Sig, Ev>, s: State<Sig, Ev>, dt: real)
    requires w.isAdaptive && !Timestep(w, s, dt, true).outcome.success
    requires var a := ApplyPending(w, s);
             !w.isImplicit || forall i | 0 <= i < |a.blocks| :: Unpredicted(a.blocks[i], w.stages)
    ensures var a, r := ApplyPending(w, s), Timestep(w, s, dt, true).state;
            |r.blocks| == |a.blocks| && forall i | 0 <= i < |a.blocks| :: SameState(a.blocks[i], r.blocks[i])
  {
    RejectionRestoresStates(w, s, dt);
    var a, r := ApplyPending(w, s), Timestep(w, s, dt, true).state;
    var n := StagesBegun(w, a, dt);
    forall i | 0 <= i < |a.blocks| ensures SameState(a.blocks[i], r.blocks[i]) {
      NotDisplaced(a.blocks[i], n, w.stages, w.isImplicit, dt);
    }
  }

  /** A step whose stages all passed and which an event sends back has run them all, so what its rejection leaves
      displaced is known from the blocks alone. */
  lemma {:induction false} EventRejectionRestoresStates<Sig(!new), Ev(!new)>(
      w: World<Sig, Ev>, s: State<Sig, Ev>, dt: real)
    requires w.isAdaptive && !Timestep(w, s, dt, true).outcome.success
    requires !Integrated(w, BufferAll(w, ApplyPending(w, s)), dt, true).rejected
    ensures var a, r := ApplyPending(w, s), Timestep(w, s, dt, true).state;
            && |r.blocks| == |a.blocks|
            && (forall i | 0 <= i < |a.blocks| ::
                  SameState(a.blocks[i], r.blocks[i]) <==> !Displaced(a.blocks[i], w.stages, w.isImplicit, dt))
  {
    RejectionRestoresStates(w, s, dt);
    var a := ApplyPending(w, s);
    var b := BufferAll(w, a);
    if HasDynamic(b.blocks) {
      StagesKeep(w, b, dt, true, w.stages);
      assert StagesBegun(w, a, dt) == w.stages;
    } else {
      forall i | 0 <= i < |a.blocks| ensures a.blocks[i].engine.None? {
        assert b.blocks[i].engine.None?;
      }
    }
  }

  // ---------------------------------------------------------------------------------------
  // A step that is rejected and not undone
  // ---------------------------------------------------------------------------------------

  /** Two implicit stages; one event that is always found half a step away. */
  function TwoStageWorld(): World<int, int> {
    World(1.0, 0.1, None, false, true, true, 2,
          (stage, t, dt) => t, 1,
          (blocks, connections, sig) => Assembly(sig, true),
          (blocks, connections, sig, t) => Evaluation(sig, false),
          b => b,
          (b, sig, t, dt) => Solved([], [], 0.0),
          (b, sig, t, dt) => Stepped([], [], false, true, 0.0, None),
          (e, theta) => None,
          (e: Event<int>, engines, sig, t) => e.data,
          (e: Event<int>, engines, sig, t) => Found(e.data, true, true, false, 0.5),
          (e, t) => None,
          (event, s, t) => s,
          s => s)
  }

  /** An inactive block at 5 that was last buffered at 0 and has slope 1. */
  function IdleBlock(): Block<int> {
    Block(0, false, Some(Engine([5.0], [[0.0]], 1, [[1.0]], [None, Some([1.0])], 0, false, None)), [])
  }

  function IdleStart(): State<int, int> {
    State(0.0, true, [IdleBlock()], [], [Event(0, true, 0)], 0, [], false, true, false, false, [], [])
  }

  lemma {:induction false} QuietEval<Sig, Ev>(
      w: World<Sig, Ev>, s: State<Sig, Ev>, dt: real, n: nat, u: State<Sig, Ev>, solved: bool)
    requires w.iterationsMax > 0 && forall i | 0 <= i < |s.blocks| :: !Live(s.blocks[i])
    requires (u, solved) == StageEval(w, s, dt, n)
    ensures solved && u.events == s.events && forall i | 0 <= i < |u.blocks| :: !Live(u.blocks[i])
  {
    var a := StageStart(w, s, dt, n);
    var t := w.stageTime(n, s.time, dt);
    QuietBlocks(w, Update(w, a, t).signals, t, dt, a.blocks);
  }

  /** A stage with nothing to integrate passes. */
  lemma {:induction false} QuietStage<Sig, Ev>(w: World<Sig, Ev>, s: State<Sig, Ev>, dt: real, n: nat)
    requires w.iterationsMax > 0 && forall i | 0 <= i < |s.blocks| :: !Live(s.blocks[i])
    ensures var r := Stage(w, s, dt, true, n);
            && !r.rejected && r.state.events == s.events
            && (forall i | 0 <= i < |r.state.blocks| :: !Live(r.state.blocks[i]))
  {
    var (u, solved) := StageEval(w, s, dt, n);
    QuietEval(w, s, dt, n, u, solved);
    QuietBlocks(w, u.signals, w.stageTime(n, s.time, dt), dt, u.blocks);
  }

  lemma {:induction false} QuietBlocks<Sig, Ev>(w: World<Sig, Ev>, sig: Sig, t: real, dt: real, blocks: seq<Block<Ev>>)
    requires forall i | 0 <= i < |blocks| :: !Live(blocks[i])
    ensures Residual(w, sig, t, dt, blocks) == 0.0 && Tracked(w, sig, t, dt, blocks) == Tracker(true, 0.0, None)
    decreases |blocks|
  {
    if blocks != [] { QuietBlocks(w, sig, t, dt, blocks[..|blocks| - 1]); }
  }

  lemma {:induction false} TwoQuietStages()
    ensures var b, stage := BufferAll(TwoStageWorld(), IdleStart()), Stager(TwoStageWorld(), 1.0, true);
            && !Stages(stage, b, 2).rejected && Begun(stage, b, 2) == 2
            && Stages(stage, b, 2).state.events == [Event(0, true, 0)]
  {
    var w, s := TwoStageWorld(), IdleStart();
    var b, stage := BufferAll(w, s), Stager(w, 1.0, true);
    assert b.events == [Event(0, true, 0)];
    assert Stages(stage, b, 0).state == b;
    QuietStage(w, b, 1.0, 0);
    var first := Stages(stage, b, 1);
    assert first == stage(b, 0) == Stage(w, b, 1.0, true, 0);
    QuietStage(w, first.state, 1.0, 1);
    assert Stages(stage, b, 2) == stage(first.state, 1) == Stage(w, first.state, 1.0, true, 1);
  }

  ghost predicate AllFar(ds: seq<Detection>) {
    forall d | d in ds :: !d.close
  }

  lemma {:induction false} HitsAreFar(engines: seq<Option<Engine>>, sig: int, t: real, events: seq<Event<int>>)
    ensures AllFar(Hits(TwoStageWorld(), engines, sig, t, events))
    decreases |events|
  {
    if events != [] { HitsAreFar(engines, sig, t, events[..|events| - 1]); }
  }

  lemma {:induction false} BlockHitsAreFar(engines: seq<Option<Engine>>, sig: int, t: real, blocks: seq<Block<int>>)
    ensures AllFar(BlockHits(TwoStageWorld(), engines, sig, t, blocks))
    decreases |blocks|
  {
    if blocks != [] {
      BlockHitsAreFar(engines, sig, t, blocks[..|blocks| - 1]);
      HitsAreFar(engines, sig, t, blocks[|blocks| - 1].events);
    }
  }

  lemma {:induction false} SomethingFarIsDetected(u: State<int, int>, t: real)
    requires u.events == [Event(0, true, 0)]
    ensures FirstFar(Detected(TwoStageWorld(), u, t)).Some?
  {
    var w, engines := TwoStageWorld(), Engines(u.blocks);
    var ds := Hits(w, engines, u.signals, t, u.events) + BlockHits(w, engines, u.signals, t, u.blocks);
    HitsAreFar(engines, u.signals, t, u.events);
    BlockHitsAreFar(engines, u.signals, t, u.blocks);
    assert Hits(w, engines, u.signals, t, u.events) == [Detection(0, false, 0.5)];
    DetectedInOrder(ds);
    var hits := SortByRatio(ds);
    assert |hits| == |ds| by { assert |multiset(hits)| == |multiset(ds)|; }
    assert hits[0] in multiset(ds);
  }

  lemma {:induction false} FarEventRetries(u: State<int, int>, outcome: Outcome)
    requires u.events == [Event(0, true, 0)]
    ensures !Finish(TwoStageWorld(), u, 1.0, true, outcome).outcome.success
  {
    var w := TwoStageWorld();
    var v := Update(w, u, StepEnd(u, 1.0));
    SomethingFarIsDetected(v, StepEnd(v, 1.0));
    assert !AtFloor(w, 1.0);
  }

  lemma {:induction false} IdleBlockIsDisplaced()
    ensures Displaced(IdleBlock(), 2, true, 1.0)
  {
    var e := IdleBlock().engine.value;
    assert LastPrediction(e, 2) == Some(1);
    var f := e.(stage := 1);
    assert f.SlopeSum([1.0], 0, 1) == f.SlopeSum([1.0], 0, 0) + 1.0;
    assert PredictedAt(e, 1, 1.0)[0] == 1.0;
  }

  lemma {:induction false} IdleStepIsRejected()
    ensures !Timestep(TwoStageWorld(), IdleStart(), 1.0, true).outcome.success
    ensures StagesBegun(TwoStageWorld(), IdleStart(), 1.0) == 2
  {
    var w, s := TwoStageWorld(), IdleStart();
    var b := BufferAll(w, s);
    assert b.blocks[0].engine.Some?;
    TwoQuietStages();
    var p := Integrated(w, b, 1.0, true);
    assert p == Stages(Stager(w, 1.0, true), b, 2);
    FarEventRetries(p.state, p.outcome);
  }

  /** A step that is rejected and leaves an engine elsewhere: the idle block is at 1 instead of 5. */
  lemma {:induction false} RejectionCanMoveAnIdleEngine() returns (w: World<int, int>, s: State<int, int>)
    ensures w.isAdaptive && ApplyPending(w, s) == s && |s.blocks| == 1
    ensures var r := Timestep(w, s, 1.0, true);
            !r.outcome.success && |r.state.blocks| == 1 && !SameState(s.blocks[0], r.state.blocks[0])
  {
    w, s := TwoStageWorld(), IdleStart();
    IdleStepIsRejected();
    IdleBlockIsDisplaced();
    RejectionRestoresStates(w, s, 1.0);
  }
}

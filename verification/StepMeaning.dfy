/** What the parts of a timestep do to the engines, events and signals of a simulation (`src/simulation.rs`), said
    outright rather than by the functions that compute it. */
module StepMeaning {
  import opened Wrappers
  import opened SimState
  import opened SimStep

  // ---------------------------------------------------------------------------------------
  // Evaluating the system
  // ---------------------------------------------------------------------------------------

  /** `u` is `s` with the system evaluated at `t`: a stale graph is rebuilt first; without a sound one the run ends;
      without any there is nothing to evaluate. Nothing but the signals and the flags changes. */
  ghost predicate Refreshed<Sig, Ev>(w: World<Sig, Ev>, s: State<Sig, Ev>, t: real, u: State<Sig, Ev>) {
    var built := w.assemble(s.blocks, s.connections, s.signals);
    var sound := if s.dirty then built.ok else !s.broken;
    var graph := s.hasGraph || (s.dirty && built.ok);
    var from := if s.dirty then built.signals else s.signals;
    var seen := w.eval(s.blocks, s.connections, from, t);
    && u == s.(signals := u.signals, stop := u.stop, running := u.running, dirty := u.dirty, broken := u.broken,
               hasGraph := u.hasGraph)
    && !u.dirty && u.broken == !sound && u.hasGraph == graph && u.running == (s.running && sound)
    && u.signals == (if sound && graph then seen.signals else from)
    && u.stop == (s.stop || (sound && graph && seen.stop))
  }

  lemma {:induction false} UpdateRefreshes<Sig, Ev>(w: World<Sig, Ev>, s: State<Sig, Ev>, t: real, u: State<Sig, Ev>)
    ensures Refreshed(w, s, t, u) <==> u == Update(w, s, t)
  {
  }

  // ---------------------------------------------------------------------------------------
  // Engines
  // ---------------------------------------------------------------------------------------

  ghost function Entry(s: seq<real>, j: nat): real {
    if j < |s| then s[j] else 0.0
  }

  /** The `j`-th element of the first `n` slopes, weighted with a row of the tableau. */
  ghost function Weighted(row: seq<real>, slopes: seq<seq<real>>, n: nat, j: nat): real
    requires n <= |row| && n <= |slopes|
  {
    if n == 0 then 0.0 else Weighted(row, slopes, n - 1, j) + row[n - 1] * Entry(slopes[n - 1], j)
  }

  ghost function Fewest(a: nat, b: nat, c: nat): nat {
    if a <= b && a <= c then a else if b <= c then b else c
  }

  lemma {:induction false} SumIsWeighted(e: Engine, row: seq<real>, j: nat, n: nat)
    ensures e.SlopeSum(row, j, n) == Weighted(row, e.slopes, Fewest(n, |row|, |e.slopes|), j)
    decreases n
  {
    if n > 0 {
      SumIsWeighted(e, row, j, n - 1);
      if n <= |row| && n <= |e.slopes| {
        var a, b := row[n - 1], Entry(e.slopes[n - 1], j);
        assert e.slopes[n - 1] == [] ==> a * b == 0.0;
      }
    }
  }

  /** An implicit stage starts an engine from its buffered state and the slopes of the stages before, if its method has
      a row to weigh them with. */
  ghost predicate StartsAhead(e: Engine, n: nat, implicit: bool) {
    implicit && n > 0 && e.history != [] && n < |e.rows| && e.rows[n].Some?
  }

  /** `f` is the engine `e` as stage `n` begins. */
  ghost predicate EntersStage(e: Engine, f: Engine, n: nat, implicit: bool, dt: real) {
    && f == e.(stage := n, x := f.x) && |f.x| == |e.x|
    && (!StartsAhead(e, n, implicit) ==> f.x == e.x)
    && (StartsAhead(e, n, implicit) ==>
          var row := e.rows[n].value;
          forall j: nat {:trigger f.x[j]} | j < |e.x| ::
            f.x[j] == Entry(e.history[0], j) + dt * Weighted(row, e.slopes, Fewest(n, |row|, |e.slopes|), j))
  }

  lemma {:induction false} StageIsEntered(e: Engine, f: Engine, n: nat, implicit: bool, dt: real)
    requires f == if implicit then e.(stage := n).Predict(dt) else e.(stage := n)
    ensures EntersStage(e, f, n, implicit, dt)
  {
    if StartsAhead(e, n, implicit) {
      var g, row := e.(stage := n), e.rows[n].value;
      forall j: nat | j < |e.x|
        ensures f.x[j] == Entry(e.history[0], j) + dt * Weighted(row, e.slopes, Fewest(n, |row|, |e.slopes|), j)
      {
        SumIsWeighted(g, row, j, n);
        assert f.x[j] == Along(At(e.history[0], j), dt, g.SlopeSum(row, j, n));
      }
    }
  }

  /** Blocks that differ in their engines only. */
  ghost predicate SameBlock<Ev>(b: Block<Ev>, c: Block<Ev>) {
    c == b.(engine := c.engine) && c.engine.Some? == b.engine.Some?
  }

  /** An active block with an engine. */
  ghost predicate Dynamic<Ev>(b: Block<Ev>) {
    b.active && b.engine.Some?
  }

  /** Every engine begins the stage, that of an inactive block too. */
  ghost predicate BlockEnters<Ev>(b: Block<Ev>, c: Block<Ev>, n: nat, implicit: bool, dt: real) {
    SameBlock(b, c) && (b.engine.Some? ==> EntersStage(b.engine.value, c.engine.value, n, implicit, dt))
  }

  ghost predicate StageEntered<Sig, Ev>(
      w: World<Sig, Ev>, s: State<Sig, Ev>, dt: real, n: nat, begun: State<Sig, Ev>)
  {
    && begun == s.(blocks := begun.blocks) && |begun.blocks| == |s.blocks|
    && forall i: nat {:trigger begun.blocks[i]} | i < |s.blocks| ::
         BlockEnters(s.blocks[i], begun.blocks[i], n, w.isImplicit, dt)
  }

  lemma {:induction false} StartEnters<Sig, Ev>(w: World<Sig, Ev>, s: State<Sig, Ev>, dt: real, n: nat)
    ensures StageEntered(w, s, dt, n, StageStart(w, s, dt, n))
  {
    var begun := StageStart(w, s, dt, n);
    forall i: nat | i < |s.blocks| ensures BlockEnters(s.blocks[i], begun.blocks[i], n, w.isImplicit, dt) {
      var b := s.blocks[i];
      assert begun.blocks[i] == AtStage(b, n, w.isImplicit, dt);
      if b.engine.Some? { StageIsEntered(b.engine.value, begun.blocks[i].engine.value, n, w.isImplicit, dt); }
    }
  }

  // ---------------------------------------------------------------------------------------
  // Solving and stepping
  // ---------------------------------------------------------------------------------------

  /** One pass of the stage solver over a block: an active engine takes the state and slopes it solves for. */
  ghost predicate BlockSolved<Sig, Ev>(
      w: World<Sig, Ev>, sig: Sig, t: real, dt: real, b: Block<Ev>, c: Block<Ev>)
  {
    && SameBlock(b, c) && (!b.active ==> c == b)
    && (Dynamic(b) ==>
          var r := w.solve(b, sig, t, dt); c.engine.value == b.engine.value.(x := r.x, slopes := r.slopes))
  }

  /** The end of a stage for a block: an active engine takes the state and slopes it steps to. */
  ghost predicate BlockStepped<Sig, Ev>(
      w: World<Sig, Ev>, sig: Sig, t: real, dt: real, b: Block<Ev>, c: Block<Ev>)
  {
    && SameBlock(b, c) && (!b.active ==> c == b)
    && (Dynamic(b) ==>
          var r := w.step(b, sig, t, dt);
          c.engine.value == b.engine.value.(x := r.x, slopes := r.slopes, dense := r.dense))
  }

  ghost predicate AllSolved<Sig, Ev>(
      w: World<Sig, Ev>, t: real, dt: real, u: State<Sig, Ev>, next: State<Sig, Ev>)
  {
    && next == u.(blocks := next.blocks) && |next.blocks| == |u.blocks|
    && forall i: nat {:trigger next.blocks[i]} | i < |u.blocks| ::
         BlockSolved(w, u.signals, t, dt, u.blocks[i], next.blocks[i])
  }

  ghost predicate AllStepped<Sig, Ev>(
      w: World<Sig, Ev>, t: real, dt: real, u: State<Sig, Ev>, next: State<Sig, Ev>)
  {
    && next == u.(blocks := next.blocks) && |next.blocks| == |u.blocks|
    && forall i: nat {:trigger next.blocks[i]} | i < |u.blocks| ::
         BlockStepped(w, u.signals, t, dt, u.blocks[i], next.blocks[i])
  }

  /** No active engine's residual exceeds a tenth of the tolerance it is weighted with. */
  ghost predicate Converged<Sig, Ev>(w: World<Sig, Ev>, t: real, dt: real, u: State<Sig, Ev>) {
    forall i: nat {:trigger u.blocks[i]} | i < |u.blocks| && Dynamic(u.blocks[i]) ::
      w.solve(u.blocks[i], u.signals, t, dt).residual <= 0.1
  }

  lemma {:induction false} ResidualIsLargest<Sig, Ev>(
      w: World<Sig, Ev>, sig: Sig, t: real, dt: real, blocks: seq<Block<Ev>>)
    ensures Residual(w, sig, t, dt, blocks) <= 0.1 <==>
            forall i: nat {:trigger blocks[i]} | i < |blocks| && Dynamic(blocks[i]) ::
              w.solve(blocks[i], sig, t, dt).residual <= 0.1
    decreases |blocks|
  {
    if blocks != [] {
      var n := |blocks| - 1;
      ResidualIsLargest(w, sig, t, dt, blocks[..n]);
      assert forall i: nat | i < n :: blocks[..n][i] == blocks[i];
    }
  }

  /** The passes of the stage solver: `from[k]` is the state before pass `k`, `seen[k]` that state with the system
      evaluated at the stage's time. The passes end with the first that converges, or after `most`. */
  ghost predicate SolverPasses<Sig, Ev>(
      w: World<Sig, Ev>, t: real, dt: real, most: nat, from: seq<State<Sig, Ev>>, seen: seq<State<Sig, Ev>>, ok: bool)
  {
    && |from| == |seen| + 1 && |seen| <= most
    && (forall k: nat {:trigger seen[k]} | k < |seen| ::
          && Refreshed(w, from[k], t, seen[k]) && AllSolved(w, t, dt, seen[k], from[k + 1])
          && (Converged(w, t, dt, seen[k]) <==> ok && k == |seen| - 1))
    && (if ok then |seen| > 0 else |seen| == most)
  }

  lemma {:induction false} PassSolves<Sig, Ev>(
      w: World<Sig, Ev>, s: State<Sig, Ev>, t: real, dt: real, u: State<Sig, Ev>, next: State<Sig, Ev>)
    requires u == Update(w, s, t)
    requires next == u.(blocks := Mapped(u.blocks, b => SolvedBlock(w, u.signals, t, dt, b)))
    ensures Refreshed(w, s, t, u) && AllSolved(w, t, dt, u, next)
    ensures Residual(w, u.signals, t, dt, u.blocks) <= NLS_COEF <==> Converged(w, t, dt, u)
  {
    UpdateRefreshes(w, s, t, u);
    ResidualIsLargest(w, u.signals, t, dt, u.blocks);
    forall i: nat | i < |u.blocks| ensures BlockSolved(w, u.signals, t, dt, u.blocks[i], next.blocks[i]) {
      assert next.blocks[i] == SolvedBlock(w, u.signals, t, dt, u.blocks[i]);
    }
  }

  lemma {:induction false} PassesGrow<Sig, Ev>(
      w: World<Sig, Ev>, t: real, dt: real, most: nat, s: State<Sig, Ev>, u: State<Sig, Ev>,
      from: seq<State<Sig, Ev>>, seen: seq<State<Sig, Ev>>, ok: bool)
    requires SolverPasses(w, t, dt, most, from, seen, ok)
    requires Refreshed(w, s, t, u) && AllSolved(w, t, dt, u, from[0]) && !Converged(w, t, dt, u)
    ensures SolverPasses(w, t, dt, most + 1, [s] + from, [u] + seen, ok)
  {
    var froms, all := [s] + from, [u] + seen;
    forall k: nat | k < |all|
      ensures Refreshed(w, froms[k], t, all[k]) && AllSolved(w, t, dt, all[k], froms[k + 1])
      ensures Converged(w, t, dt, all[k]) <==> ok && k == |all| - 1
    {
      if k > 0 { assert all[k] == seen[k - 1] && froms[k] == from[k - 1] && froms[k + 1] == from[k]; }
    }
  }

  lemma {:induction false} LastPass<Sig, Ev>(
      w: World<Sig, Ev>, t: real, dt: real, most: nat, s: State<Sig, Ev>, u: State<Sig, Ev>, next: State<Sig, Ev>)
    requires most > 0 && Refreshed(w, s, t, u) && AllSolved(w, t, dt, u, next) && Converged(w, t, dt, u)
    ensures SolverPasses(w, t, dt, most, [s, next], [u], true)
  {
  }

  /** One pass, and what it leads to. */
  lemma {:induction false} SolveUnfolds<Sig, Ev>(
      w: World<Sig, Ev>, s: State<Sig, Ev>, t: real, dt: real, left: nat, r: (State<Sig, Ev>, bool))
    returns (u: State<Sig, Ev>, next: State<Sig, Ev>)
    requires left > 0 && r == Solve(w, s, t, dt, left)
    ensures Refreshed(w, s, t, u) && AllSolved(w, t, dt, u, next)
    ensures r == if Converged(w, t, dt, u) then (next, true) else Solve(w, next, t, dt, left - 1)
  {
    u := Update(w, s, t);
    next := u.(blocks := Mapped(u.blocks, b => SolvedBlock(w, u.signals, t, dt, b)));
    PassSolves(w, s, t, dt, u, next);
  }

  lemma {:induction false} SolvePasses<Sig, Ev>(
      w: World<Sig, Ev>, s: State<Sig, Ev>, t: real, dt: real, left: nat, r: (State<Sig, Ev>, bool))
    returns (from: seq<State<Sig, Ev>>, seen: seq<State<Sig, Ev>>)
    requires r == Solve(w, s, t, dt, left)
    ensures SolverPasses(w, t, dt, left, from, seen, r.1) && from[0] == s && from[|seen|] == r.0
    decreases left
  {
    if left == 0 {
      from, seen := [s], [];
    } else {
      var u, next := SolveUnfolds(w, s, t, dt, left, r);
      if Converged(w, t, dt, u) {
        from, seen := [s, next], [u];
        LastPass(w, t, dt, left, s, u, next);
      } else {
        from, seen := SolvePasses(w, next, t, dt, left - 1, r);
        PassesGrow(w, t, dt, left - 1, s, u, from, seen, r.1);
        from, seen := [s] + from, [u] + seen;
      }
    }
  }

  // ---------------------------------------------------------------------------------------
  // What the blocks report
  // ---------------------------------------------------------------------------------------

  /** All active engines agree, the error is the largest they report, the rescaling the smallest. */
  ghost predicate Summed<Sig, Ev>(
      w: World<Sig, Ev>, sig: Sig, t: real, dt: real, blocks: seq<Block<Ev>>, ok: bool, error: real,
      scale: Option<real>)
  {
    && (ok <==> forall i: nat {:trigger blocks[i]} | i < |blocks| && Dynamic(blocks[i]) ::
          w.step(blocks[i], sig, t, dt).ok)
    && error >= 0.0
    && (forall i: nat {:trigger blocks[i]} | i < |blocks| && Dynamic(blocks[i]) ::
          w.step(blocks[i], sig, t, dt).error <= error)
    && (error == 0.0 || exists i: nat {:trigger blocks[i]} | i < |blocks| ::
          Dynamic(blocks[i]) && w.step(blocks[i], sig, t, dt).error == error)
    && (forall i: nat {:trigger blocks[i]} | i < |blocks| && Dynamic(blocks[i]) ::
          var r := w.step(blocks[i], sig, t, dt); r.scale.Some? ==> scale.Some? && scale.value <= r.scale.value)
    && (scale.Some? ==> exists i: nat {:trigger blocks[i]} | i < |blocks| ::
          Dynamic(blocks[i]) && w.step(blocks[i], sig, t, dt).scale == scale)
  }

  lemma {:induction false} TrackedSums<Sig, Ev>(
      w: World<Sig, Ev>, sig: Sig, t: real, dt: real, blocks: seq<Block<Ev>>, k: Tracker)
    requires k == Tracked(w, sig, t, dt, blocks)
    ensures Summed(w, sig, t, dt, blocks, k.ok, k.error, k.minScale)
    decreases |blocks|
  {
    if blocks != [] {
      var n := |blocks| - 1;
      var front := Tracked(w, sig, t, dt, blocks[..n]);
      TrackedSums(w, sig, t, dt, blocks[..n], front);
      SumOneMore(w, sig, t, dt, blocks, front, k);
    }
  }

  lemma {:induction false} SumOneMore<Sig, Ev>(
      w: World<Sig, Ev>, sig: Sig, t: real, dt: real, blocks: seq<Block<Ev>>, front: Tracker, k: Tracker)
    requires blocks != []
    requires var n := |blocks| - 1;
             && Summed(w, sig, t, dt, blocks[..n], front.ok, front.error, front.minScale)
             && k == if Live(blocks[n]) then front.Record(w.step(blocks[n], sig, t, dt)) else front
    ensures Summed(w, sig, t, dt, blocks, k.ok, k.error, k.minScale)
  {
    var n := |blocks| - 1;
    forall i: nat | i < n ensures blocks[..n][i] == blocks[i] {
    }
    assert Dynamic(blocks[n]) == Live(blocks[n]);
    if k.error != 0.0 && k.error == front.error {
      var i: nat :| i < n && Dynamic(blocks[..n][i]) && w.step(blocks[..n][i], sig, t, dt).error == k.error;
      assert Dynamic(blocks[i]) && w.step(blocks[i], sig, t, dt).error == k.error;
    }
    if k.minScale.Some? && k.minScale == front.minScale {
      var i: nat :| i < n && Dynamic(blocks[..n][i]) && w.step(blocks[..n][i], sig, t, dt).scale == k.minScale;
      assert Dynamic(blocks[i]) && w.step(blocks[i], sig, t, dt).scale == k.minScale;
    }
  }

  // ---------------------------------------------------------------------------------------
  // Buffering and taking back
  // ---------------------------------------------------------------------------------------

  /** The engine of an active block sets its state aside; a full history forgets its oldest entry. */
  ghost predicate EngineBuffered(e: Engine, f: Engine) {
    && f == e.(history := f.history, dense := false, stash := None)
    && f.history != [] && f.history[0] == e.x
    && |f.history| == (if |e.history| >= e.depth then |e.history| else |e.history| + 1)
    && forall j: nat {:trigger f.history[j]} | 0 < j < |f.history| :: f.history[j] == e.history[j - 1]
  }

  /** The engine of an active block returns to the state it last set aside. */
  ghost predicate EngineReverted(e: Engine, f: Engine) {
    && f == e.(x := f.x, history := f.history, dense := false, stash := None)
    && (e.history == [] ==> f.x == e.x && f.history == [])
    && (e.history != [] ==> f.x == e.history[0] && e.history == [f.x] + f.history)
  }

  ghost predicate BlockReverted<Ev>(b: Block<Ev>, c: Block<Ev>) {
    && SameBlock(b, c) && (!b.active ==> c == b)
    && (Dynamic(b) ==> EngineReverted(b.engine.value, c.engine.value))
  }

  /** `r` is `s` with every active engine taken back and the system evaluated at the time the step began. */
  ghost predicate TakenBack<Sig, Ev>(w: World<Sig, Ev>, s: State<Sig, Ev>, r: State<Sig, Ev>) {
    && |r.blocks| == |s.blocks|
    && (forall i: nat {:trigger r.blocks[i]} | i < |s.blocks| :: BlockReverted(s.blocks[i], r.blocks[i]))
    && Refreshed(w, s.(blocks := r.blocks), s.time, r)
  }

  lemma {:induction false} RevertTakesBack<Sig, Ev>(w: World<Sig, Ev>, s: State<Sig, Ev>)
    ensures TakenBack(w, s, Revert(w, s))
  {
    var back, r := s.(blocks := Mapped(s.blocks, b => Reverted(b))), Revert(w, s);
    UpdateRefreshes(w, back, s.time, r);
    assert r.blocks == back.blocks;
    forall i: nat | i < |s.blocks| ensures BlockReverted(s.blocks[i], r.blocks[i]) {
      assert r.blocks[i] == Reverted(s.blocks[i]);
    }
  }

  /** Each active event buffers what its guard sees at the start of the step. */
  ghost predicate EventsBuffered<Sig, Ev>(
      w: World<Sig, Ev>, s: State<Sig, Ev>, es: seq<Event<Ev>>, fs: seq<Event<Ev>>)
  {
    |fs| == |es| && forall j: nat {:trigger fs[j]} | j < |es| ::
      fs[j] == if es[j].active then es[j].(data := w.guard(es[j], Engines(s.blocks), s.signals, s.time)) else es[j]
  }

  ghost predicate BlockBuffered<Sig, Ev>(w: World<Sig, Ev>, s: State<Sig, Ev>, b: Block<Ev>, c: Block<Ev>) {
    && EventsBuffered(w, s, b.events, c.events)
    && c == b.(events := c.events, engine := c.engine) && c.engine.Some? == b.engine.Some?
    && (!b.active ==> c.engine == b.engine)
    && (Dynamic(b) ==> EngineBuffered(b.engine.value, c.engine.value))
  }

  /** `r` is `s` as a step begins. */
  ghost predicate StepBuffered<Sig, Ev>(w: World<Sig, Ev>, s: State<Sig, Ev>, r: State<Sig, Ev>) {
    && r == s.(blocks := r.blocks, events := r.events) && |r.blocks| == |s.blocks|
    && EventsBuffered(w, s, s.events, r.events)
    && forall i: nat {:trigger r.blocks[i]} | i < |s.blocks| :: BlockBuffered(w, s, s.blocks[i], r.blocks[i])
  }

  lemma {:induction false} GuardsBuffer<Sig, Ev>(w: World<Sig, Ev>, s: State<Sig, Ev>, es: seq<Event<Ev>>)
    ensures EventsBuffered(w, s, es, Mapped(es, e => Guarded(w, Engines(s.blocks), s.signals, s.time, e)))
  {
  }

  lemma {:induction false} BufferBuffers<Sig, Ev>(w: World<Sig, Ev>, s: State<Sig, Ev>)
    ensures StepBuffered(w, s, BufferAll(w, s))
  {
    var r, engines := BufferAll(w, s), Engines(s.blocks);
    GuardsBuffer(w, s, s.events);
    forall i: nat | i < |s.blocks| ensures BlockBuffered(w, s, s.blocks[i], r.blocks[i]) {
      var b := s.blocks[i];
      GuardsBuffer(w, s, b.events);
      assert r.blocks[i] == Buffered(GuardedBlock(w, engines, s.signals, s.time, b));
    }
  }

  // ---------------------------------------------------------------------------------------
  // Looking for events
  // ---------------------------------------------------------------------------------------

  /** Each active event is left as detection at `t` leaves it. */
  ghost predicate EventsWatched<Sig, Ev>(
      w: World<Sig, Ev>, s: State<Sig, Ev>, t: real, es: seq<Event<Ev>>, fs: seq<Event<Ev>>)
  {
    |fs| == |es| && forall j: nat {:trigger fs[j]} | j < |es| ::
      var found := w.detect(es[j], Engines(s.blocks), s.signals, t);
      fs[j] == if es[j].active then Event(es[j].id, found.active, found.data) else es[j]
  }

  /** `r` is `s` after its events have been looked for at `t`. */
  ghost predicate Watched<Sig, Ev>(w: World<Sig, Ev>, s: State<Sig, Ev>, t: real, r: State<Sig, Ev>) {
    && r == s.(blocks := r.blocks, events := r.events) && |r.blocks| == |s.blocks|
    && EventsWatched(w, s, t, s.events, r.events)
    && forall i: nat {:trigger r.blocks[i]} | i < |s.blocks| ::
         && r.blocks[i] == s.blocks[i].(events := r.blocks[i].events)
         && EventsWatched(w, s, t, s.blocks[i].events, r.blocks[i].events)
  }

  lemma {:induction false} ObservingWatches<Sig, Ev>(w: World<Sig, Ev>, s: State<Sig, Ev>, t: real, es: seq<Event<Ev>>)
    ensures EventsWatched(w, s, t, es, Mapped(es, e => Observed(w, Engines(s.blocks), s.signals, t, e)))
  {
  }

  lemma {:induction false} DetectWatches<Sig, Ev>(w: World<Sig, Ev>, s: State<Sig, Ev>, t: real)
    ensures Watched(w, s, t, Detect(w, s, t))
  {
    var r := Detect(w, s, t);
    ObservingWatches(w, s, t, s.events);
    forall i: nat | i < |s.blocks|
      ensures r.blocks[i] == s.blocks[i].(events := r.blocks[i].events)
      ensures EventsWatched(w, s, t, s.blocks[i].events, r.blocks[i].events)
    {
      ObservingWatches(w, s, t, s.blocks[i].events);
      assert r.blocks[i] == ObservedBlock(w, Engines(s.blocks), s.signals, t, s.blocks[i]);
    }
  }
}

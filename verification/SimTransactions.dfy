/** What a timestep keeps: rejected steps are undone, accepted ones advance the clock once, event
    localisation keeps its bracket and puts every engine back (`src/simulation.rs`). */
module SimTransactions {
  import opened Wrappers
  import opened SimState
  import opened SimStep
  import opened Bracketing

  // ---------------------------------------------------------------------------------------
  // Queued topology changes
  // ---------------------------------------------------------------------------------------

  ghost predicate Distinct<Ev>(blocks: seq<Block<Ev>>) {
    forall i, j | 0 <= i < j < |blocks| :: blocks[i].id != blocks[j].id
  }

  ghost predicate QueuedToAdd<Ev>(ops: seq<PendingOp<Ev>>, id: nat) {
    exists i | 0 <= i < |ops| :: ops[i].AddBlock? && ops[i].block.id == id
  }

  ghost predicate QueuedToRemove<Ev>(ops: seq<PendingOp<Ev>>, id: nat) {
    exists i | 0 <= i < |ops| :: ops[i].RemoveBlock? && ops[i].blockId == id
  }

  lemma {:induction false} BatchedMeans<Ev>(ops: seq<PendingOp<Ev>>, id: nat)
    ensures id in BlockIds(Batched(ops).addBlocks) <==> QueuedToAdd(ops, id)
    ensures id in Batched(ops).removeBlocks <==> QueuedToRemove(ops, id)
    decreases |ops|
  {
    if ops != [] {
      var front, op := ops[..|ops| - 1], ops[|ops| - 1];
      BatchedMeans(front, id);
      assert ops == front + [op];
      if op.AddBlock? { IdsOfSnoc(Batched(front).addBlocks, op.block); }
      assert QueuedToAdd(ops, id) <==> QueuedToAdd(front, id) || (op.AddBlock? && op.block.id == id) by {
        if QueuedToAdd(front, id) {
          var i :| 0 <= i < |front| && front[i].AddBlock? && front[i].block.id == id;
          assert ops[i] == front[i];
        }
      }
      assert QueuedToRemove(ops, id) <==> QueuedToRemove(front, id) || (op.RemoveBlock? && op.blockId == id) by {
        if QueuedToRemove(front, id) {
          var i :| 0 <= i < |front| && front[i].RemoveBlock? && front[i].blockId == id;
          assert ops[i] == front[i];
        }
      }
    }
  }

  lemma {:induction false} RetainedMeans<Ev>(blocks: seq<Block<Ev>>, drop: set<nat>)
    requires Distinct(blocks)
    ensures var r := Retained(blocks, drop, BlockId); Distinct(r) && BlockIds(r) == BlockIds(blocks) - drop
    decreases |blocks|
  {
    if blocks != [] {
      var front, b := blocks[..|blocks| - 1], blocks[|blocks| - 1];
      RetainedMeans(front, drop);
      var r := Retained(front, drop, BlockId);
      assert blocks == front + [b];
      IdsOfSnoc(front, b);
      IdsOfSnoc(r, b);
      assert b.id !in BlockIds(front);
      assert Retained(blocks, drop, BlockId) == if b.id in drop then r else r + [b];
    }
  }

  lemma {:induction false} IdsOfSnoc<Ev>(blocks: seq<Block<Ev>>, b: Block<Ev>)
    ensures BlockIds(blocks + [b]) == BlockIds(blocks) + {b.id}
  {
    var all := blocks + [b];
    assert forall i | 0 <= i < |blocks| :: all[i] == blocks[i];
    assert all[|blocks|] == b;
    forall id | id in BlockIds(blocks) + {b.id} ensures id in BlockIds(all) {
      if id in BlockIds(blocks) {
        var i :| 0 <= i < |blocks| && blocks[i].id == id;
        assert all[i].id == id;
      }
    }
  }

  lemma {:induction false} AddedMeans<Sig, Ev>(w: World<Sig, Ev>, blocks: seq<Block<Ev>>, adds: seq<Block<Ev>>)
    requires Distinct(blocks)
    ensures var r := AddBlocks(w, blocks, adds);
            Distinct(r) && blocks <= r && BlockIds(r) == BlockIds(blocks) + BlockIds(adds)
    decreases |adds|
  {
    if adds != [] {
      var front, b := adds[..|adds| - 1], adds[|adds| - 1];
      AddedMeans(w, blocks, front);
      assert adds == front + [b];
      IdsOfSnoc(front, b);
      var r := AddBlocks(w, blocks, front);
      IdsOfSnoc(r, w.equip(b).(id := b.id));
    }
  }

  /** The queue is applied in batches: a block is there afterwards iff it was queued for addition, or was
      there and not queued for removal. So an addition wins over a removal, whichever was queued first. */
  lemma {:induction false} PendingIsBatched<Sig, Ev>(w: World<Sig, Ev>, s: State<Sig, Ev>, id: nat)
    requires Distinct(s.blocks)
    ensures var r := ApplyPending(w, s);
            && Distinct(r.blocks)
            && (id in BlockIds(r.blocks) <==>
                  QueuedToAdd(s.pending, id) || (id in BlockIds(s.blocks) && !QueuedToRemove(s.pending, id)))
  {
    if s.pending != [] {
      var batch := Batched(s.pending);
      BatchedMeans(s.pending, id);
      RetainedMeans(s.blocks, batch.removeBlocks);
      AddedMeans(w, Retained(s.blocks, batch.removeBlocks, BlockId), batch.addBlocks);
    }
  }

  // ---------------------------------------------------------------------------------------
  // Event order
  // ---------------------------------------------------------------------------------------

  ghost predicate Chronological(ds: seq<Detection>) {
    forall i, j | 0 <= i < j < |ds| :: ds[i].ratio <= ds[j].ratio
  }

  lemma {:induction false} ChronologicalSnoc(ds: seq<Detection>, d: Detection)
    requires Chronological(ds) && forall i | 0 <= i < |ds| :: ds[i].ratio <= d.ratio
    ensures Chronological(ds + [d])
  {
    var all := ds + [d];
    forall i, j | 0 <= i < j < |all| ensures all[i].ratio <= all[j].ratio {
      assert all[i] == ds[i];
      if j < |ds| { assert all[j] == ds[j]; }
    }
  }

  lemma {:induction false} StillBounded(ds: seq<Detection>, d: Detection, r: seq<Detection>, bound: real)
    requires multiset(r) == multiset(ds) + multiset{d}
    requires d.ratio <= bound && forall i | 0 <= i < |ds| :: ds[i].ratio <= bound
    ensures forall i | 0 <= i < |r| :: r[i].ratio <= bound
  {
    forall i | 0 <= i < |r| ensures r[i].ratio <= bound {
      var x := r[i];
      assert x in multiset(r);
      assert x in ds || x == d;
    }
  }

  lemma {:induction false} InsertSorts(ds: seq<Detection>, d: Detection)
    requires Chronological(ds)
    ensures var r := InsertByRatio(ds, d); Chronological(r) && multiset(r) == multiset(ds) + multiset{d}
    decreases |ds|
  {
    if ds != [] && !(ds[|ds| - 1].ratio <= d.ratio) {
      var front, last := ds[..|ds| - 1], ds[|ds| - 1];
      assert ds == front + [last];
      InsertSorts(front, d);
      var r := InsertByRatio(front, d);
      assert InsertByRatio(ds, d) == r + [last];
      forall j | 0 <= j < |front| ensures front[j].ratio <= last.ratio {
        assert ds[j] == front[j] && ds[|front|] == last;
      }
      StillBounded(front, d, r, last.ratio);
      ChronologicalSnoc(r, last);
    } else {
      forall i | 0 <= i < |ds| ensures ds[i].ratio <= d.ratio {
        if i < |ds| - 1 { assert ds[i].ratio <= ds[|ds| - 1].ratio; }
      }
      ChronologicalSnoc(ds, d);
    }
  }

  /** Events are taken in order of their crossing, each detected one exactly once. */
  lemma {:induction false} DetectedInOrder(ds: seq<Detection>)
    ensures Chronological(SortByRatio(ds)) && multiset(SortByRatio(ds)) == multiset(ds)
    decreases |ds|
  {
    if ds != [] {
      var front, last := ds[..|ds| - 1], ds[|ds| - 1];
      assert ds == front + [last];
      DetectedInOrder(front);
      InsertSorts(SortByRatio(front), last);
    }
  }

  // ---------------------------------------------------------------------------------------
  // Event localisation
  // ---------------------------------------------------------------------------------------

  /** Localisation probes at most 32 times, always strictly inside a bracket that each probe shrinks; a
      returned position was the last one probed, events were detected there, and all were close. */
  lemma {:induction false} LocalisationKeepsItsBracket<Sig, Ev>(
      w: World<Sig, Ev>, s: State<Sig, Ev>, dt: real, ratio: real)
    ensures var r := Localise(w, s, dt, ratio);
            && |r.probes| <= MAX_PROBES
            && ProbesShrink(r.probes)
            && (r.probes != [] ==> r.probes[0].lo == 0.0 && r.probes[0].hi == 1.0)
            && FoundAt(r.probes, r.theta)
            && (r.theta.Some? ==> 0.0 < r.theta.value < 1.0)
  {
    if Localisable(w, s) {
      BracketShrinks(Prober(w, dt), s, 0.0, 1.0, FirstGuess(ratio), MAX_PROBES);
      var r := Bracket(Prober(w, dt), s, 0.0, 1.0, FirstGuess(ratio), MAX_PROBES);
      if r.theta.Some? { assert InBracket(r.probes[|r.probes| - 1]); }
    }
  }

  /** Apart from an open seek, `c` is `b`. */
  ghost predicate SameEnd<Ev>(b: Block<Ev>, c: Block<Ev>) {
    && c.id == b.id && c.active == b.active
    && (if Live(b) then Live(c) && c.engine.value.SeekEnd() == b.engine.value.SeekEnd() else c.engine == b.engine)
  }

  ghost predicate SameEnds<Ev>(bs: seq<Block<Ev>>, cs: seq<Block<Ev>>) {
    |cs| == |bs| && forall i | 0 <= i < |bs| :: SameEnd(bs[i], cs[i])
  }

  /** The clock, the records and the topology. */
  datatype Ledger<Sig, Ev> = Ledger(
    time: real, samples: seq<Sample<Sig>>, actions: seq<(nat, real)>, pending: seq<PendingOp<Ev>>,
    connections: seq<nat>)

  function LedgerOf<Sig, Ev>(s: State<Sig, Ev>): Ledger<Sig, Ev> {
    Ledger(s.time, s.samples, s.actions, s.pending, s.connections)
  }

  ghost predicate Still<Sig, Ev>(s: State<Sig, Ev>, t: State<Sig, Ev>) {
    LedgerOf(t) == LedgerOf(s)
  }

  lemma {:induction false} SeekKeepsEnds<Sig, Ev>(w: World<Sig, Ev>, bs: seq<Block<Ev>>, s: State<Sig, Ev>, theta: real)
    requires SameEnds(bs, s.blocks)
    ensures SameEnds(bs, SeekState(w, s, theta).blocks)
  {
    var next := SeekState(w, s, theta).blocks;
    forall i | 0 <= i < |bs| ensures SameEnd(bs[i], next[i]) {
      assert next[i] == Sought(w, theta, s.blocks[i]);
      assert SameEnd(bs[i], s.blocks[i]);
    }
  }

  lemma {:induction false} DetectKeepsEnds<Sig, Ev>(w: World<Sig, Ev>, bs: seq<Block<Ev>>, s: State<Sig, Ev>, t: real)
    requires SameEnds(bs, s.blocks)
    ensures SameEnds(bs, Detect(w, s, t).blocks)
  {
    var next := Detect(w, s, t).blocks;
    forall i | 0 <= i < |bs| ensures SameEnd(bs[i], next[i]) {
      assert next[i] == ObservedBlock(w, Engines(s.blocks), s.signals, t, s.blocks[i]);
      assert SameEnd(bs[i], s.blocks[i]);
    }
  }

  lemma {:induction false} ProbeKeepsEnds<Sig, Ev>(
      w: World<Sig, Ev>, bs: seq<Block<Ev>>, s: State<Sig, Ev>, dt: real, theta: real)
    requires SameEnds(bs, s.blocks)
    ensures var r := Prober(w, dt)(s, theta).state; SameEnds(bs, r.blocks) && Still(s, r)
  {
    SeekKeepsEnds(w, bs, s, theta);
    if SeeksOk(w, s.blocks, theta) {
      DetectKeepsEnds(w, bs, ProbeUpdate(w, s, dt, theta), ProbeTime(s.time, dt, theta));
    }
  }

  ghost predicate NoOpenSeek<Ev>(b: Block<Ev>) {
    Live(b) ==> b.engine.value.stash.None?
  }

  /** Localisation leaves every engine exactly as it found it, on every way out. */
  lemma {:induction false} LocalisationRestoresEngines<Sig(!new), Ev(!new)>(
      w: World<Sig, Ev>, s: State<Sig, Ev>, dt: real, ratio: real)
    requires forall i | 0 <= i < |s.blocks| :: NoOpenSeek(s.blocks[i])
    ensures var r := Localise(w, s, dt, ratio).state;
            && |r.blocks| == |s.blocks| && Still(s, r)
            && (forall i | 0 <= i < |s.blocks| ::
                 r.blocks[i].id == s.blocks[i].id && r.blocks[i].active == s.blocks[i].active
                                                 && r.blocks[i].engine == s.blocks[i].engine)
  {
    if Localisable(w, s) {
      var inv := (a: State<Sig, Ev>) => SameEnds(s.blocks, a.blocks) && Still(s, a);
      var probe := Prober(w, dt);
      forall a, g: real {:trigger probe(a, g)} | inv(a) ensures inv(probe(a, g).state) {
        ProbeKeepsEnds(w, s.blocks, a, dt, g);
      }
      BracketKeeps(inv, probe, s, 0.0, 1.0, FirstGuess(ratio), MAX_PROBES);
      var q := Bracket(probe, s, 0.0, 1.0, FirstGuess(ratio), MAX_PROBES).state;
      var r := Localise(w, s, dt, ratio).state;
      forall i | 0 <= i < |s.blocks|
        ensures r.blocks[i].id == s.blocks[i].id && r.blocks[i].active == s.blocks[i].active
        ensures r.blocks[i].engine == s.blocks[i].engine
      {
        assert SameEnd(s.blocks[i], q.blocks[i]) && NoOpenSeek(s.blocks[i]);
        assert r.blocks[i] == SeekEnded(q.blocks[i]);
      }
    }
  }

  // ---------------------------------------------------------------------------------------
  // The integration stages
  // ---------------------------------------------------------------------------------------

  /** What the stages before `n` do to an engine whose block is inactive: it is not stepped, but an implicit
      stage still predicts into it. */
  function Idled(e: Engine, n: nat, implicit: bool, dt: real): Engine {
    if n == 0 then e
    else
      var f := Idled(e, n - 1, implicit, dt).(stage := n - 1);
      if implicit then f.Predict(dt) else f
  }

  /** `c` is `b` after the stages before `n`: its buffered states are still there. */
  ghost predicate Kept<Ev>(b: Block<Ev>, c: Block<Ev>, n: nat, implicit: bool, dt: real) {
    && c.id == b.id && c.active == b.active && c.engine.Some? == b.engine.Some?
    && (b.engine.Some? ==>
          var e, f := b.engine.value, c.engine.value;
          if b.active then f.history == e.history && f.depth == e.depth && f.stash == e.stash
          else f == Idled(e, n, implicit, dt))
  }

  ghost predicate AllKept<Ev>(bs: seq<Block<Ev>>, cs: seq<Block<Ev>>, n: nat, implicit: bool, dt: real) {
    |cs| == |bs| && forall i | 0 <= i < |bs| :: Kept(bs[i], cs[i], n, implicit, dt)
  }

  lemma {:induction false} StartKeeps<Sig, Ev>(
      w: World<Sig, Ev>, bs: seq<Block<Ev>>, s: State<Sig, Ev>, dt: real, n: nat)
    requires AllKept(bs, s.blocks, n, w.isImplicit, dt)
    ensures AllKept(bs, StageStart(w, s, dt, n).blocks, n + 1, w.isImplicit, dt)
  {
    var next := StageStart(w, s, dt, n).blocks;
    forall i | 0 <= i < |bs| ensures Kept(bs[i], next[i], n + 1, w.isImplicit, dt) {
      assert Kept(bs[i], s.blocks[i], n, w.isImplicit, dt);
      assert next[i] == AtStage(s.blocks[i], n, w.isImplicit, dt);
    }
  }

  lemma {:induction false} SolvedKeeps<Sig, Ev>(
      w: World<Sig, Ev>, bs: seq<Block<Ev>>, cs: seq<Block<Ev>>, sig: Sig, t: real, dt: real, n: nat)
    requires AllKept(bs, cs, n, w.isImplicit, dt)
    ensures AllKept(bs, Mapped(cs, b => SolvedBlock(w, sig, t, dt, b)), n, w.isImplicit, dt)
    ensures AllKept(bs, Mapped(cs, b => SteppedBlock(w, sig, t, dt, b)), n, w.isImplicit, dt)
  {
    forall i | 0 <= i < |bs|
      ensures Kept(bs[i], SolvedBlock(w, sig, t, dt, cs[i]), n, w.isImplicit, dt)
      ensures Kept(bs[i], SteppedBlock(w, sig, t, dt, cs[i]), n, w.isImplicit, dt)
    {
      assert Kept(bs[i], cs[i], n, w.isImplicit, dt);
    }
  }

  lemma {:induction false} SolveKeeps<Sig, Ev>(
      w: World<Sig, Ev>, bs: seq<Block<Ev>>, s: State<Sig, Ev>, t: real, dt: real, n: nat, left: nat)
    requires AllKept(bs, s.blocks, n, w.isImplicit, dt)
    ensures var r := Solve(w, s, t, dt, left).0; AllKept(bs, r.blocks, n, w.isImplicit, dt) && Still(s, r)
    decreases left
  {
    if left > 0 {
      var u := Update(w, s, t);
      var next := u.(blocks := Mapped(u.blocks, b => SolvedBlock(w, u.signals, t, dt, b)));
      SolvedKeeps(w, bs, u.blocks, u.signals, t, dt, n);
      SolveKeeps(w, bs, next, t, dt, n, left - 1);
    }
  }

  lemma {:induction false} EvalKeeps<Sig, Ev>(
      w: World<Sig, Ev>, bs: seq<Block<Ev>>, s: State<Sig, Ev>, dt: real, n: nat)
    requires AllKept(bs, s.blocks, n, w.isImplicit, dt)
    ensures var r := StageEval(w, s, dt, n).0; AllKept(bs, r.blocks, n + 1, w.isImplicit, dt) && Still(s, r)
  {
    StartKeeps(w, bs, s, dt, n);
    if w.isImplicit {
      SolveKeeps(w, bs, StageStart(w, s, dt, n), w.stageTime(n, s.time, dt), dt, n + 1, w.iterationsMax);
    }
  }

  /** `c` is `b` with its newest buffered state put back. */
  ghost predicate Rewound<Ev>(b: Block<Ev>, c: Block<Ev>, n: nat, implicit: bool, dt: real) {
    && c.id == b.id && c.active == b.active && c.engine.Some? == b.engine.Some?
    && (b.engine.Some? ==>
          var e, f := b.engine.value, c.engine.value;
          if b.active then f.depth == e.depth
            && (e.history != [] ==> f.x == e.history[0] && f.history == e.history[1..])
          else f == Idled(e, n, implicit, dt))
  }

  ghost predicate AllRewound<Ev>(bs: seq<Block<Ev>>, cs: seq<Block<Ev>>, n: nat, implicit: bool, dt: real) {
    |cs| == |bs| && forall i | 0 <= i < |bs| :: Rewound(bs[i], cs[i], n, implicit, dt)
  }

  lemma {:induction false} RevertRewinds<Sig, Ev>(
      w: World<Sig, Ev>, bs: seq<Block<Ev>>, s: State<Sig, Ev>, n: nat, dt: real)
    requires AllKept(bs, s.blocks, n, w.isImplicit, dt)
    ensures AllRewound(bs, Revert(w, s).blocks, n, w.isImplicit, dt) && Still(s, Revert(w, s))
  {
    var next := Revert(w, s).blocks;
    forall i | 0 <= i < |bs| ensures Rewound(bs[i], next[i], n, w.isImplicit, dt) {
      assert Kept(bs[i], s.blocks[i], n, w.isImplicit, dt);
      assert next[i] == Reverted(s.blocks[i]);
    }
  }

  /** Stages that passed keep the buffered states; a stage that rejects puts them back. */
  ghost predicate StagesGood<Sig, Ev>(
      bs: seq<Block<Ev>>, s: State<Sig, Ev>, r: Staged<Sig, Ev>, adaptive: bool, begun: nat, n: nat, implicit: bool,
      dt: real)
  {
    && Still(s, r.state)
    && (r.rejected ==> adaptive && AllRewound(bs, r.state.blocks, begun, implicit, dt))
    && (!r.rejected ==> begun == n && AllKept(bs, r.state.blocks, n, implicit, dt))
    && (adaptive ==> r.outcome.success == !r.rejected)
  }

  lemma {:induction false} StageKeeps<Sig, Ev>(
      w: World<Sig, Ev>, bs: seq<Block<Ev>>, s: State<Sig, Ev>, dt: real, adaptive: bool, n: nat)
    requires AllKept(bs, s.blocks, n, w.isImplicit, dt)
    ensures StagesGood(bs, s, Stage(w, s, dt, adaptive, n), adaptive, n + 1, n + 1, w.isImplicit, dt)
  {
    EvalKeeps(w, bs, s, dt, n);
    var (u, solved) := StageEval(w, s, dt, n);
    if !solved && adaptive {
      RevertRewinds(w, bs, u, n + 1, dt);
    } else {
      var t := w.stageTime(n, s.time, dt);
      var next := u.(blocks := Mapped(u.blocks, b => SteppedBlock(w, u.signals, t, dt, b)));
      SolvedKeeps(w, bs, u.blocks, u.signals, t, dt, n + 1);
      RevertRewinds(w, bs, next, n + 1, dt);
    }
  }

  /** How many of the stages before `n` were begun. */
  function Begun<Sig, Ev>(stage: (State<Sig, Ev>, nat) -> Staged<Sig, Ev>, s: State<Sig, Ev>, n: nat): (k: nat)
    ensures k <= n
  {
    if n == 0 then 0
    else if Stages(stage, s, n - 1).rejected then Begun(stage, s, n - 1)
    else n
  }

  ghost predicate StageIsGood<Sig(!new), Ev(!new)>(
      bs: seq<Block<Ev>>, stage: (State<Sig, Ev>, nat) -> Staged<Sig, Ev>, adaptive: bool, implicit: bool, dt: real)
  {
    forall s: State<Sig, Ev>, n: nat {:trigger stage(s, n)} ::
      AllKept(bs, s.blocks, n, implicit, dt) ==> StagesGood(bs, s, stage(s, n), adaptive, n + 1, n + 1, implicit, dt)
  }

  lemma {:induction false} GoodStages<Sig(!new), Ev(!new)>(
      stage: (State<Sig, Ev>, nat) -> Staged<Sig, Ev>, s: State<Sig, Ev>, adaptive: bool, n: nat, implicit: bool,
      dt: real)
    requires StageIsGood(s.blocks, stage, adaptive, implicit, dt)
    ensures StagesGood(s.blocks, s, Stages(stage, s, n), adaptive, Begun(stage, s, n), n, implicit, dt)
    decreases n
  {
    if n > 0 {
      var before := Stages(stage, s, n - 1);
      GoodStages(stage, s, adaptive, n - 1, implicit, dt);
      if !before.rejected {
        assert StagesGood(s.blocks, before.state, stage(before.state, n - 1), adaptive, n, n, implicit, dt);
      }
    }
  }

  lemma {:induction false} StagesKeep<Sig(!new), Ev(!new)>(
      w: World<Sig, Ev>, s: State<Sig, Ev>, dt: real, adaptive: bool, n: nat)
    ensures var stage := Stager(w, dt, adaptive);
            StagesGood(s.blocks, s, Stages(stage, s, n), adaptive, Begun(stage, s, n), n, w.isImplicit, dt)
  {
    var stage := Stager(w, dt, adaptive);
    StagesOfAreGood(w, s.blocks, dt, adaptive, stage);
    GoodStages(stage, s, adaptive, n, w.isImplicit, dt);
  }

  lemma {:induction false} StagesOfAreGood<Sig(!new), Ev(!new)>(
      w: World<Sig, Ev>, bs: seq<Block<Ev>>, dt: real, adaptive: bool,
      stage: (State<Sig, Ev>, nat) -> Staged<Sig, Ev>)
    requires IsStageOf(stage, w, dt, adaptive)
    ensures StageIsGood(bs, stage, adaptive, w.isImplicit, dt)
  {
    forall s: State<Sig, Ev>, n: nat {:trigger stage(s, n)} | AllKept(bs, s.blocks, n, w.isImplicit, dt)
      ensures StagesGood(bs, s, stage(s, n), adaptive, n + 1, n + 1, w.isImplicit, dt)
    {
      StageOfKeeps(w, bs, s, dt, adaptive, n, stage);
    }
  }

  lemma {:induction false} StageOfKeeps<Sig(!new), Ev(!new)>(
      w: World<Sig, Ev>, bs: seq<Block<Ev>>, s: State<Sig, Ev>, dt: real, adaptive: bool, n: nat,
      stage: (State<Sig, Ev>, nat) -> Staged<Sig, Ev>)
    requires IsStageOf(stage, w, dt, adaptive) && AllKept(bs, s.blocks, n, w.isImplicit, dt)
    ensures StagesGood(bs, s, stage(s, n), adaptive, n + 1, n + 1, w.isImplicit, dt)
  {
    assert AtStageStart(s, n);
    StageKeeps(w, bs, s, dt, adaptive, n);
  }

  // ---------------------------------------------------------------------------------------
  // The whole step
  // ---------------------------------------------------------------------------------------

  /** The records of `s` are still there, its samples complete. */
  ghost predicate Recorded<Sig, Ev>(s: State<Sig, Ev>, r: State<Sig, Ev>) {
    r.time == s.time && r.samples == s.samples && |r.actions| >= |s.actions| && r.actions[..|s.actions|] == s.actions
  }

  lemma {:induction false} ActionsKeepTheClock<Sig, Ev>(w: World<Sig, Ev>, s: State<Sig, Ev>, calls: seq<Call>)
    ensures Recorded(s, ActAll(w, s, calls))
    decreases |calls|
  {
    if calls != [] {
      var before := ActAll(w, s, calls[..|calls| - 1]);
      ActionsKeepTheClock(w, s, calls[..|calls| - 1]);
      var c := calls[|calls| - 1];
      assert ActAll(w, s, calls).actions == before.actions + [(c.event, c.time)];
    }
  }

  lemma {:induction false} DetectKeeps<Sig, Ev>(
      w: World<Sig, Ev>, bs: seq<Block<Ev>>, s: State<Sig, Ev>, t: real, n: nat, dt: real)
    requires AllKept(bs, s.blocks, n, w.isImplicit, dt)
    ensures AllKept(bs, Detect(w, s, t).blocks, n, w.isImplicit, dt)
  {
    var next := Detect(w, s, t).blocks;
    forall i | 0 <= i < |bs| ensures Kept(bs[i], next[i], n, w.isImplicit, dt) {
      assert Kept(bs[i], s.blocks[i], n, w.isImplicit, dt);
      assert next[i] == ObservedBlock(w, Engines(s.blocks), s.signals, t, s.blocks[i]);
    }
  }

  ghost predicate NoOpenSeeks<Ev>(bs: seq<Block<Ev>>) {
    forall i | 0 <= i < |bs| :: NoOpenSeek(bs[i])
  }

  lemma {:induction false} LocaliseKeeps<Sig(!new), Ev(!new)>(
      w: World<Sig, Ev>, bs: seq<Block<Ev>>, s: State<Sig, Ev>, dt: real, ratio: real, n: nat)
    requires NoOpenSeeks(bs) && AllKept(bs, s.blocks, n, w.isImplicit, dt)
    ensures var r := Localise(w, s, dt, ratio).state; AllKept(bs, r.blocks, n, w.isImplicit, dt) && Still(s, r)
  {
    forall i | 0 <= i < |bs| ensures NoOpenSeek(s.blocks[i]) {
      assert NoOpenSeek(bs[i]) && Kept(bs[i], s.blocks[i], n, w.isImplicit, dt);
    }
    LocalisationRestoresEngines(w, s, dt, ratio);
    var r := Localise(w, s, dt, ratio).state;
    forall i | 0 <= i < |bs| ensures Kept(bs[i], r.blocks[i], n, w.isImplicit, dt) {
      assert Kept(bs[i], s.blocks[i], n, w.isImplicit, dt);
    }
  }

  /** Every action ran, or none did and the engines are rewound. */
  ghost predicate AllOrNothing<Sig, Ev>(
      bs: seq<Block<Ev>>, s: State<Sig, Ev>, r: Resolution<Sig, Ev>, n: nat, implicit: bool, dt: real) {
    match r.retry
    case Some(_) => Still(s, r.state) && AllRewound(bs, r.state.blocks, n, implicit, dt)
    case None => Recorded(s, r.state)
  }

  lemma {:induction false} RetryRewinds<Sig(!new), Ev(!new)>(
      w: World<Sig, Ev>, bs: seq<Block<Ev>>, s: State<Sig, Ev>, t: real, dt: real, ratio: real, n: nat)
    requires NoOpenSeeks(bs) && AllKept(bs, s.blocks, n, w.isImplicit, dt)
    ensures var r := Revert(w, Localise(w, Detect(w, s, t), dt, ratio).state);
            Still(s, r) && AllRewound(bs, r.blocks, n, w.isImplicit, dt)
  {
    var d := Detect(w, s, t);
    DetectKeeps(w, bs, s, t, n, dt);
    LocaliseKeeps(w, bs, d, dt, ratio, n);
    RevertRewinds(w, bs, Localise(w, d, dt, ratio).state, n, dt);
  }

  /** Resolving events either takes every action or takes none and rewinds the engines. */
  lemma {:induction false} RetryIsReverted<Sig, Ev>(
      w: World<Sig, Ev>, s: State<Sig, Ev>, dt: real, adaptive: bool, force: bool)
    ensures var r, far := ResolveEvents(w, s, dt, adaptive, force), FirstFar(Detected(w, s, StepEnd(s, dt)));
            r.retry.Some? ==>
              far.Some? && r.state == Revert(w, Localise(w, Detect(w, s, StepEnd(s, dt)), dt, far.value).state)
  {
  }

  lemma {:induction false} RetryIsGood<Sig, Ev>(
      bs: seq<Block<Ev>>, from: State<Sig, Ev>, r: Resolution<Sig, Ev>, q: State<Sig, Ev>, n: nat, implicit: bool,
      dt: real)
    requires r.retry.Some? && r.state == q && Still(from, q) && AllRewound(bs, q.blocks, n, implicit, dt)
    ensures AllOrNothing(bs, from, r, n, implicit, dt)
  {
  }

  lemma {:induction false} ResolveIsAllOrNothing<Sig(!new), Ev(!new)>(
      w: World<Sig, Ev>, bs: seq<Block<Ev>>, from: State<Sig, Ev>, s: State<Sig, Ev>, dt: real, adaptive: bool,
      force: bool, n: nat)
    requires Still(from, s) && NoOpenSeeks(bs) && AllKept(bs, s.blocks, n, w.isImplicit, dt)
    ensures AllOrNothing(bs, from, ResolveEvents(w, s, dt, adaptive, force), n, w.isImplicit, dt)
  {
    var r := ResolveEvents(w, s, dt, adaptive, force);
    if r.retry.None? {
      EventsAreRecorded(w, s, dt, adaptive, force);
    } else {
      RetryIsReverted(w, s, dt, adaptive, force);
      var ratio := FirstFar(Detected(w, s, StepEnd(s, dt))).value;
      RetryRewinds(w, bs, s, StepEnd(s, dt), dt, ratio, n);
      RetryIsGood(bs, from, r, Revert(w, Localise(w, Detect(w, s, StepEnd(s, dt)), dt, ratio).state), n, w.isImplicit,
          dt);
    }
  }

  lemma {:induction false} EventsAreRecorded<Sig, Ev>(
      w: World<Sig, Ev>, s: State<Sig, Ev>, dt: real, adaptive: bool, force: bool)
    ensures var r := ResolveEvents(w, s, dt, adaptive, force); r.retry.None? ==> Recorded(s, r.state)
  {
    var hits := Detected(w, s, StepEnd(s, dt));
    ActionsKeepTheClock(w, Detect(w, s, StepEnd(s, dt)), Calls(hits, s.time, dt, adaptive && FirstFar(hits).None?));
  }

  /** Only an adaptive step above the step floor is ever retried. */
  lemma {:induction false} RetryNeedsRoom<Sig, Ev>(
      w: World<Sig, Ev>, s: State<Sig, Ev>, dt: real, adaptive: bool, force: bool)
    ensures ResolveEvents(w, s, dt, adaptive, force).retry.Some? ==> adaptive && !force
  {
  }

  ghost predicate SameState<Ev>(b: Block<Ev>, c: Block<Ev>) {
    c.engine.Some? == b.engine.Some? && (b.engine.Some? ==> c.engine.value.x == b.engine.value.x)
  }

  /** A history after a state was pushed onto it and taken off again: full ones have lost their oldest entry. */
  function Clipped(e: Engine): seq<seq<real>> {
    if |e.history| >= e.depth then e.history[..|e.history| - 1] else e.history
  }

  /** `c` is `b` after a step that was begun, reached `n` stages and was taken back. */
  ghost predicate Undone<Ev>(b: Block<Ev>, c: Block<Ev>, n: nat, implicit: bool, dt: real) {
    && c.id == b.id && c.active == b.active && c.engine.Some? == b.engine.Some?
    && (b.engine.Some? ==>
          var e, f := b.engine.value, c.engine.value;
          if b.active then f.depth == e.depth && f.x == e.x && f.history == Clipped(e)
          else f == Idled(e, n, implicit, dt))
  }

  ghost predicate AllUndone<Ev>(bs: seq<Block<Ev>>, cs: seq<Block<Ev>>, n: nat, implicit: bool, dt: real) {
    |cs| == |bs| && forall i | 0 <= i < |bs| :: Undone(bs[i], cs[i], n, implicit, dt)
  }

  lemma {:induction false} RewindUndoesBuffer<Sig, Ev>(
      w: World<Sig, Ev>, s: State<Sig, Ev>, cs: seq<Block<Ev>>, n: nat, dt: real)
    ensures NoOpenSeeks(BufferAll(w, s).blocks) && Still(s, BufferAll(w, s))
    ensures AllRewound(BufferAll(w, s).blocks, cs, n, w.isImplicit, dt) ==> AllUndone(s.blocks, cs, n, w.isImplicit, dt)
  {
    var bs := BufferAll(w, s).blocks;
    forall i | 0 <= i < |bs|
      ensures bs[i] == Buffered(GuardedBlock(w, Engines(s.blocks), s.signals, s.time, s.blocks[i]))
    {
    }
    if AllRewound(bs, cs, n, w.isImplicit, dt) {
      forall i | 0 <= i < |bs| ensures Undone(s.blocks[i], cs[i], n, w.isImplicit, dt) {
        assert Rewound(bs[i], cs[i], n, w.isImplicit, dt);
        if Live(s.blocks[i]) {
          var e := s.blocks[i].engine.value;
          assert bs[i].engine.value.history == [e.x] + Clipped(e);
        }
      }
    }
  }

  /** The stages a step begins before it is accepted or rejected. */
  function StagesBegun<Sig, Ev>(w: World<Sig, Ev>, s: State<Sig, Ev>, dt: real): nat {
    var b := BufferAll(w, s);
    Begun(Stager(w, dt, true), b, if HasDynamic(b.blocks) then w.stages else 0)
  }

  /** Exactly one sample, at the new time, and the clock moved by `dt`. */
  ghost predicate Advanced<Sig, Ev>(s: State<Sig, Ev>, r: State<Sig, Ev>, dt: real) {
    && r.time == s.time + dt
    && r.samples == s.samples + [Sample(s.time + dt, dt, r.signals)]
    && |r.actions| >= |s.actions| && r.actions[..|s.actions|] == s.actions
  }

  ghost predicate FinishedWell<Sig, Ev>(
      bs: seq<Block<Ev>>, s: State<Sig, Ev>, r: Step<Sig, Ev>, outcome: Outcome, n: nat, implicit: bool, dt: real)
  {
    || (r.outcome == outcome && Advanced(s, r.state, dt))
    || (!r.outcome.success && Still(s, r.state) && AllRewound(bs, r.state.blocks, n, implicit, dt))
  }

  lemma {:induction false} ConcludeAdvances<Sig, Ev>(
      s: State<Sig, Ev>, e: Resolution<Sig, Ev>, dt: real, outcome: Outcome)
    requires e.retry.None? && Recorded(s, e.state)
    ensures var r := Conclude(e, StepEnd(s, dt), dt, outcome); r.outcome == outcome && Advanced(s, r.state, dt)
  {
  }

  lemma {:induction false} ConcludeRetries<Sig, Ev>(
      bs: seq<Block<Ev>>, s: State<Sig, Ev>, e: Resolution<Sig, Ev>, end: real, dt: real, outcome: Outcome, n: nat,
      implicit: bool)
    requires e.retry.Some? && Still(s, e.state) && AllRewound(bs, e.state.blocks, n, implicit, dt)
    ensures var r := Conclude(e, end, dt, outcome);
            !r.outcome.success && Still(s, r.state) && AllRewound(bs, r.state.blocks, n, implicit, dt)
  {
    assert Conclude(e, end, dt, outcome).state.blocks == e.state.blocks;
  }

  lemma {:induction false} ConcludeWell<Sig, Ev>(
      bs: seq<Block<Ev>>, s: State<Sig, Ev>, e: Resolution<Sig, Ev>, dt: real, outcome: Outcome, n: nat, implicit: bool)
    requires AllOrNothing(bs, s, e, n, implicit, dt)
    ensures FinishedWell(bs, s, Conclude(e, StepEnd(s, dt), dt, outcome), outcome, n, implicit, dt)
  {
    if e.retry.Some? {
      ConcludeRetries(bs, s, e, StepEnd(s, dt), dt, outcome, n, implicit);
    } else {
      ConcludeAdvances(s, e, dt, outcome);
    }
  }

  lemma {:induction false} FinishIsAllOrNothing<Sig(!new), Ev(!new)>(
      w: World<Sig, Ev>, bs: seq<Block<Ev>>, s: State<Sig, Ev>, dt: real, adaptive: bool, outcome: Outcome, n: nat)
    requires NoOpenSeeks(bs) && AllKept(bs, s.blocks, n, w.isImplicit, dt)
    ensures FinishedWell(bs, s, Finish(w, s, dt, adaptive, outcome), outcome, n, w.isImplicit, dt)
  {
    ResolveIsAllOrNothing(w, bs, s, Update(w, s, StepEnd(s, dt)), dt, adaptive, Forced(w, dt, adaptive), n);
    ConcludeWell(bs, s, EndEvents(w, s, dt, adaptive), dt, outcome, n, w.isImplicit);
  }

  /** Without a retry every event that was found is resolved, and the step stands. */
  lemma {:induction false} FinishWithoutRetry<Sig, Ev>(
      w: World<Sig, Ev>, s: State<Sig, Ev>, dt: real, adaptive: bool, outcome: Outcome)
    requires !adaptive || AtFloor(w, dt)
    ensures var r := Finish(w, s, dt, adaptive, outcome); r.outcome == outcome && Advanced(s, r.state, dt)
  {
    var u := Update(w, s, StepEnd(s, dt));
    var e := EndEvents(w, s, dt, adaptive);
    RetryNeedsRoom(w, u, dt, adaptive, Forced(w, dt, adaptive));
    EventsAreRecorded(w, u, dt, adaptive, Forced(w, dt, adaptive));
    assert Recorded(s, e.state);
    ConcludeAdvances(s, e, dt, outcome);
  }

  lemma {:induction false} AdvancedAfter<Sig, Ev>(a: State<Sig, Ev>, s: State<Sig, Ev>, r: State<Sig, Ev>, dt: real)
    requires Still(a, s)
    ensures Advanced(s, r, dt) ==> Advanced(a, r, dt)
    ensures Still(s, r) ==> Still(a, r)
  {
  }

  /** An adaptive step that fails is taken back as a whole: same clock, no sample, no event action, and every
      engine that was integrated is at the state it started from. One that succeeds moves the clock by `dt` and
      leaves one sample. A step at the step floor whose stages pass is never taken back. */
  lemma {:induction false} AdaptiveStepIsTransactional<Sig(!new), Ev(!new)>(
      w: World<Sig, Ev>, s: State<Sig, Ev>, dt: real)
    requires w.isAdaptive
    ensures var a, r := ApplyPending(w, s), Timestep(w, s, dt, true);
            && (r.outcome.success ==> Advanced(a, r.state, dt))
            && (!r.outcome.success ==>
                 Still(a, r.state) && AllUndone(a.blocks, r.state.blocks, StagesBegun(w, a, dt), w.isImplicit, dt))
            && (AtFloor(w, dt) && !Integrated(w, BufferAll(w, a), dt, true).rejected ==> r.outcome.success)
  {
    var a := ApplyPending(w, s);
    var b := BufferAll(w, a);
    var n := if HasDynamic(b.blocks) then w.stages else 0;
    var p := Integrated(w, b, dt, true);
    var r := Timestep(w, s, dt, true);
    StagesKeep(w, b, dt, true, n);
    RewindUndoesBuffer(w, a, r.state.blocks, StagesBegun(w, a, dt), dt);
    AdvancedAfter(a, b, p.state, dt);
    AdvancedAfter(a, p.state, r.state, dt);
    if p.rejected {
      assert r == Step(p.state, p.outcome);
    } else {
      FinishIsAllOrNothing(w, b.blocks, p.state, dt, true, p.outcome, n);
      if AtFloor(w, dt) { FinishWithoutRetry(w, p.state, dt, true, p.outcome); }
      assert r == Finish(w, p.state, dt, true, p.outcome);
    }
  }

  /** A fixed step always advances, whether or not its solver converged. */
  lemma {:induction false} FixedStepAlwaysAdvances<Sig(!new), Ev(!new)>(
      w: World<Sig, Ev>, s: State<Sig, Ev>, dt: real, adaptive: bool)
    requires !(adaptive && w.isAdaptive)
    ensures Advanced(ApplyPending(w, s), Timestep(w, s, dt, adaptive).state, dt)
  {
    var a := ApplyPending(w, s);
    var b := BufferAll(w, a);
    var p := Integrated(w, b, dt, false);
    var n := if HasDynamic(b.blocks) then w.stages else 0;
    var r := Timestep(w, s, dt, adaptive);
    StagesKeep(w, b, dt, false, n);
    RewindUndoesBuffer(w, a, a.blocks, 0, dt);
    AdvancedAfter(a, b, p.state, dt);
    AdvancedAfter(a, p.state, r.state, dt);
    FinishIsAllOrNothing(w, b.blocks, p.state, dt, false, p.outcome, n);
    FinishWithoutRetry(w, p.state, dt, false, p.outcome);
    assert r == Finish(w, p.state, dt, false, p.outcome);
  }
}

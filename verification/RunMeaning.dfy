/** What surrounds the timesteps of a run (`src/simulation.rs`), said outright: which queued changes take effect, how a
    run starts, and with which step it goes on (`_apply_pending_ops`, `run`, `_advance_dt`). */
module RunMeaning {
  import opened Wrappers
  import opened SimState
  import opened SimStep
  import opened SimTransactions
  import opened SimRun
  import opened StepMeaning
  import opened EventResolution
  import opened EventSearch

  // ---------------------------------------------------------------------------------------
  // Queued changes
  // ---------------------------------------------------------------------------------------

  ghost predicate ConnectionDropped<Ev>(ops: seq<PendingOp<Ev>>, id: nat) {
    exists i: nat {:trigger ops[i]} :: i < |ops| && ops[i] == RemoveConnection(id)
  }

  ghost predicate EventDropped<Ev>(ops: seq<PendingOp<Ev>>, id: nat) {
    exists i: nat {:trigger ops[i]} :: i < |ops| && ops[i] == RemoveEvent(id)
  }

  /** The elements of `s` that are not dropped, in order. */
  ghost function Without<T>(s: seq<T>, dropped: T -> bool): seq<T> {
    if s == [] then [] else (if dropped(s[0]) then [] else [s[0]]) + Without(s[1..], dropped)
  }

  /** The blocks queued for addition that are not there yet, in order, each equipped for the simulation. */
  ghost function NewBlocks<Sig, Ev>(w: World<Sig, Ev>, there: set<nat>, ops: seq<PendingOp<Ev>>): seq<Block<Ev>>
    decreases |ops|
  {
    if ops == [] then []
    else if ops[0].AddBlock? && ops[0].block.id !in there then
      [w.equip(ops[0].block).(id := ops[0].block.id)] + NewBlocks(w, there + {ops[0].block.id}, ops[1..])
    else NewBlocks(w, there, ops[1..])
  }

  ghost function NewConnections<Ev>(ops: seq<PendingOp<Ev>>): seq<nat> {
    if ops == [] then [] else (if ops[0].AddConnection? then [ops[0].connection] else []) + NewConnections(ops[1..])
  }

  ghost function NewEvents<Ev>(ops: seq<PendingOp<Ev>>): seq<Event<Ev>> {
    if ops == [] then [] else (if ops[0].AddEvent? then [ops[0].event] else []) + NewEvents(ops[1..])
  }

  ghost function KeptBlocks<Ev>(blocks: seq<Block<Ev>>, ops: seq<PendingOp<Ev>>): seq<Block<Ev>> {
    Without(blocks, (b: Block<Ev>) => QueuedToRemove(ops, b.id))
  }

  ghost function KeptConnections<Ev>(connections: seq<nat>, ops: seq<PendingOp<Ev>>): seq<nat> {
    Without(connections, (c: nat) => ConnectionDropped(ops, c))
  }

  ghost function KeptEvents<Ev>(events: seq<Event<Ev>>, ops: seq<PendingOp<Ev>>): seq<Event<Ev>> {
    Without(events, (e: Event<Ev>) => EventDropped(ops, e.id))
  }

  lemma {:induction false} WithoutSnoc<T>(s: seq<T>, x: T, dropped: T -> bool)
    ensures Without(s + [x], dropped) == Without(s, dropped) + if dropped(x) then [] else [x]
    decreases |s|
  {
    var all, last := s + [x], if dropped(x) then [] else [x];
    if s == [] {
      assert all == [x];
    } else {
      var first := if dropped(s[0]) then [] else [s[0]];
      assert all[0] == s[0] && all[1..] == s[1..] + [x];
      WithoutSnoc(s[1..], x, dropped);
      assert Without(all, dropped) == first + Without(all[1..], dropped);
      assert Without(s, dropped) == first + Without(s[1..], dropped);
      assert first + (Without(s[1..], dropped) + last) == (first + Without(s[1..], dropped)) + last;
    }
  }

  lemma {:induction false} RetainedIsWithout<T>(s: seq<T>, drop: set<nat>, id: T -> nat, dropped: T -> bool)
    requires forall i: nat {:trigger s[i]} | i < |s| :: dropped(s[i]) <==> id(s[i]) in drop
    ensures Retained(s, drop, id) == Without(s, dropped)
    decreases |s|
  {
    if s != [] {
      var front, x := s[..|s| - 1], s[|s| - 1];
      assert s == front + [x];
      assert forall i: nat {:trigger front[i]} | i < |front| :: front[i] == s[i];
      RetainedIsWithout(front, drop, id, dropped);
      WithoutSnoc(front, x, dropped);
    }
  }

  lemma {:induction false} NewConnectionsSnoc<Ev>(ops: seq<PendingOp<Ev>>, op: PendingOp<Ev>)
    ensures NewConnections(ops + [op]) == NewConnections(ops) + if op.AddConnection? then [op.connection] else []
    decreases |ops|
  {
    if ops == [] {
      assert ops + [op] == [op];
    } else {
      var all, last := ops + [op], if op.AddConnection? then [op.connection] else [];
      var first := if ops[0].AddConnection? then [ops[0].connection] else [];
      assert all[0] == ops[0] && all[1..] == ops[1..] + [op];
      NewConnectionsSnoc(ops[1..], op);
      assert NewConnections(all) == first + NewConnections(all[1..]);
      assert NewConnections(ops) == first + NewConnections(ops[1..]);
      assert first + (NewConnections(ops[1..]) + last) == (first + NewConnections(ops[1..])) + last;
    }
  }

  lemma {:induction false} NewEventsSnoc<Ev>(ops: seq<PendingOp<Ev>>, op: PendingOp<Ev>)
    ensures NewEvents(ops + [op]) == NewEvents(ops) + if op.AddEvent? then [op.event] else []
    decreases |ops|
  {
    if ops == [] {
      assert ops + [op] == [op];
    } else {
      var all, last := ops + [op], if op.AddEvent? then [op.event] else [];
      var first := if ops[0].AddEvent? then [ops[0].event] else [];
      assert all[0] == ops[0] && all[1..] == ops[1..] + [op];
      NewEventsSnoc(ops[1..], op);
      assert NewEvents(all) == first + NewEvents(all[1..]) && NewEvents(ops) == first + NewEvents(ops[1..]);
      assert first + (NewEvents(ops[1..]) + last) == (first + NewEvents(ops[1..])) + last;
    }
  }

  ghost function IdsAfter<Sig, Ev>(w: World<Sig, Ev>, there: set<nat>, ops: seq<PendingOp<Ev>>): set<nat> {
    there + BlockIds(NewBlocks(w, there, ops))
  }

  lemma {:induction false} NewBlocksSnoc<Sig, Ev>(
      w: World<Sig, Ev>, there: set<nat>, ops: seq<PendingOp<Ev>>, op: PendingOp<Ev>)
    ensures NewBlocks(w, there, ops + [op]) == NewBlocks(w, there, ops) +
            if op.AddBlock? && op.block.id !in IdsAfter(w, there, ops) then [w.equip(op.block).(id := op.block.id)]
            else []
    decreases |ops|
  {
    if ops == [] {
      assert ops + [op] == [op];
      assert BlockIds(NewBlocks(w, there, ops)) == {};
    } else {
      var first, rest := ops[0], ops[1..];
      assert (ops + [op])[1..] == rest + [op];
      if first.AddBlock? && first.block.id !in there {
        var b := w.equip(first.block).(id := first.block.id);
        var more := there + {first.block.id};
        NewBlocksSnoc(w, more, rest, op);
        IdsOfCons(b, NewBlocks(w, more, rest));
        assert IdsAfter(w, there, ops) == IdsAfter(w, more, rest);
      } else {
        NewBlocksSnoc(w, there, rest, op);
      }
    }
  }

  lemma {:induction false} IdsOfCons<Ev>(b: Block<Ev>, blocks: seq<Block<Ev>>)
    ensures BlockIds([b] + blocks) == {b.id} + BlockIds(blocks)
  {
    var all := [b] + blocks;
    assert all[0] == b;
    assert forall i | 0 <= i < |blocks| :: all[i + 1] == blocks[i];
    forall id | id in BlockIds(all) ensures id in {b.id} + BlockIds(blocks) {
      var i :| 0 <= i < |all| && all[i].id == id;
      if i > 0 { assert all[i] == blocks[i - 1]; }
    }
    forall id | id in {b.id} + BlockIds(blocks) ensures id in BlockIds(all) {
      if id in BlockIds(blocks) {
        var i :| 0 <= i < |blocks| && blocks[i].id == id;
        assert all[i + 1].id == id;
      }
    }
  }

  lemma {:induction false} IdsOfBoth<Ev>(a: seq<Block<Ev>>, b: seq<Block<Ev>>)
    ensures BlockIds(a + b) == BlockIds(a) + BlockIds(b)
    decreases |b|
  {
    if b == [] {
      assert a + b == a;
    } else {
      var front, last := b[..|b| - 1], b[|b| - 1];
      assert a + b == (a + front) + [last] && b == front + [last];
      IdsOfBoth(a, front);
      IdsOfSnoc(a + front, last);
      IdsOfSnoc(front, last);
    }
  }

  /** The queue, batched: its additions by kind, in order. */
  lemma {:induction false} BatchIs<Sig, Ev>(
      w: World<Sig, Ev>, blocks: seq<Block<Ev>>, there: set<nat>, ops: seq<PendingOp<Ev>>, batch: Batch<Ev>)
    requires there == BlockIds(blocks) && batch == Batched(ops)
    ensures batch.addConnections == NewConnections(ops) && batch.addEvents == NewEvents(ops)
    ensures AddBlocks(w, blocks, batch.addBlocks) == blocks + NewBlocks(w, there, ops)
    decreases |ops|
  {
    if ops == [] {
      assert blocks + NewBlocks(w, there, ops) == blocks;
    } else {
      var front, op := ops[..|ops| - 1], ops[|ops| - 1];
      var before := Batched(front);
      assert ops == front + [op];
      BatchIs(w, blocks, there, front, before);
      NewConnectionsSnoc(front, op);
      NewEventsSnoc(front, op);
      NewBlocksSnoc(w, there, front, op);
      if op.AddBlock? { OneMoreBlock(w, blocks, there, front, op.block, before.addBlocks); }
    }
  }

  lemma {:induction false} OneMoreBlock<Sig, Ev>(
      w: World<Sig, Ev>, blocks: seq<Block<Ev>>, there: set<nat>, ops: seq<PendingOp<Ev>>, b: Block<Ev>,
      adds: seq<Block<Ev>>)
    requires there == BlockIds(blocks) && AddBlocks(w, blocks, adds) == blocks + NewBlocks(w, there, ops)
    ensures AddBlocks(w, blocks, adds + [b]) ==
            blocks + (NewBlocks(w, there, ops) +
                      if b.id !in IdsAfter(w, there, ops) then [w.equip(b).(id := b.id)] else [])
  {
    var all := adds + [b];
    assert all[..|all| - 1] == adds;
    IdsOfBoth(blocks, NewBlocks(w, there, ops));
    assert AddBlocks(w, blocks, all) == SimStep.AddBlock(w, AddBlocks(w, blocks, adds), b);
  }

  lemma {:induction false} DroppedIs<Ev>(ops: seq<PendingOp<Ev>>, id: nat, batch: Batch<Ev>)
    requires batch == Batched(ops)
    ensures id in batch.removeConnections <==> ConnectionDropped(ops, id)
    ensures id in batch.removeEvents <==> EventDropped(ops, id)
    decreases |ops|
  {
    if ops != [] {
      var front, op := ops[..|ops| - 1], ops[|ops| - 1];
      DroppedIs(front, id, Batched(front));
      assert ops == front + [op];
      assert ConnectionDropped(ops, id) <==> ConnectionDropped(front, id) || op == RemoveConnection(id) by {
        if ConnectionDropped(front, id) {
          var i: nat :| i < |front| && front[i] == RemoveConnection(id);
          assert ops[i] == front[i];
        }
      }
      assert EventDropped(ops, id) <==> EventDropped(front, id) || op == RemoveEvent(id) by {
        if EventDropped(front, id) {
          var i: nat :| i < |front| && front[i] == RemoveEvent(id);
          assert ops[i] == front[i];
        }
      }
    }
  }

  /** What the queue leaves of the lists, by kind. */
  lemma {:induction false} RetainedAre<Sig, Ev>(s: State<Sig, Ev>, batch: Batch<Ev>)
    requires batch == Batched(s.pending)
    ensures Retained(s.blocks, batch.removeBlocks, BlockId) == KeptBlocks(s.blocks, s.pending)
    ensures Retained(s.connections, batch.removeConnections, OwnId) == KeptConnections(s.connections, s.pending)
    ensures Retained(s.events, batch.removeEvents, EventId) == KeptEvents(s.events, s.pending)
  {
    forall id: nat
      ensures id in batch.removeBlocks <==> QueuedToRemove(s.pending, id)
      ensures id in batch.removeConnections <==> ConnectionDropped(s.pending, id)
      ensures id in batch.removeEvents <==> EventDropped(s.pending, id)
    {
      BatchedMeans(s.pending, id);
      DroppedIs(s.pending, id, batch);
    }
    RetainedIsWithout(s.blocks, batch.removeBlocks, BlockId, (b: Block<Ev>) => QueuedToRemove(s.pending, b.id));
    RetainedIsWithout(s.connections, batch.removeConnections, OwnId, (c: nat) => ConnectionDropped(s.pending, c));
    RetainedIsWithout(s.events, batch.removeEvents, EventId, (e: Event<Ev>) => EventDropped(s.pending, e.id));
  }

  /** A block or a connection came or went. */
  ghost predicate TopologyChanged<Sig, Ev>(w: World<Sig, Ev>, s: State<Sig, Ev>) {
    var kept := KeptBlocks(s.blocks, s.pending);
    || |kept| < |s.blocks| || |KeptConnections(s.connections, s.pending)| < |s.connections|
    || NewBlocks(w, BlockIds(kept), s.pending) != [] || NewConnections(s.pending) != []
  }

  lemma {:induction false} WithoutIsShorter<T>(s: seq<T>, dropped: T -> bool)
    ensures |Without(s, dropped)| <= |s|
    decreases |s|
  {
    if s != [] { WithoutIsShorter(s[1..], dropped); }
  }

  /** The queue takes effect as one batch: what is queued for removal goes, what is queued for addition follows what is
      left, in order, each block once; a changed topology makes an existing graph stale. */
  lemma {:induction false} PendingTakesEffect<Sig, Ev>(w: World<Sig, Ev>, s: State<Sig, Ev>, r: State<Sig, Ev>)
    requires r == ApplyPending(w, s)
    ensures r == s.(pending := [], blocks := r.blocks, connections := r.connections, events := r.events,
                    dirty := r.dirty)
    ensures var kept := KeptBlocks(s.blocks, s.pending);
            r.blocks == kept + NewBlocks(w, BlockIds(kept), s.pending)
    ensures r.connections == KeptConnections(s.connections, s.pending) + NewConnections(s.pending)
    ensures r.events == KeptEvents(s.events, s.pending) + NewEvents(s.pending)
    ensures r.dirty <==> s.dirty || (s.hasGraph && TopologyChanged(w, s))
  {
    var batch := Batched(s.pending);
    RetainedAre(s, batch);
    var kept := KeptBlocks(s.blocks, s.pending);
    BatchIs(w, kept, BlockIds(kept), s.pending, batch);
    WithoutIsShorter(s.blocks, (b: Block<Ev>) => QueuedToRemove(s.pending, b.id));
    WithoutIsShorter(s.connections, (c: nat) => ConnectionDropped(s.pending, c));
    if s.pending == [] {
      NothingRetired(s, batch);
    }
  }

  lemma {:induction false} KeptWhole<T>(s: seq<T>, id: T -> nat)
    ensures Retained(s, {}, id) == s
    decreases |s|
  {
    if s != [] { KeptWhole(s[..|s| - 1], id); }
  }

  lemma {:induction false} NothingRetired<Sig, Ev>(s: State<Sig, Ev>, batch: Batch<Ev>)
    requires s.pending == [] && batch == Batched(s.pending)
    ensures Retained(s.blocks, batch.removeBlocks, BlockId) == s.blocks
    ensures Retained(s.connections, batch.removeConnections, OwnId) == s.connections
    ensures Retained(s.events, batch.removeEvents, EventId) == s.events
  {
    KeptWhole(s.blocks, BlockId<Ev>);
    KeptWhole(s.connections, OwnId);
    KeptWhole(s.events, EventId<Ev>);
  }

  // ---------------------------------------------------------------------------------------
  // The start of a run
  // ---------------------------------------------------------------------------------------

  /** The initial events act in turn, each at the start and each followed by an evaluation: `trail` is the state before,
      between and after them, `acted` the state after each action. */
  ghost predicate ActedFirst<Sig, Ev>(
      w: World<Sig, Ev>, hits: seq<Detection>, n: nat, t: real, trail: seq<State<Sig, Ev>>,
      acted: seq<State<Sig, Ev>>)
  {
    && |trail| == n + 1 && |acted| == n <= |hits|
    && forall i: nat {:trigger acted[i]} | i < n ::
         ActsOn(w, hits[i].event, t, trail[i], acted[i]) && Refreshed(w, acted[i], t, trail[i + 1])
  }

  /** A run is made ready: reset if that is asked for, and evaluated. */
  ghost predicate MadeReady<Sig, Ev>(
      w: World<Sig, Ev>, s: State<Sig, Ev>, reset: bool, begun: State<Sig, Ev>, ready: State<Sig, Ev>)
  {
    && (if reset then Refreshed(w, w.reset(s.(running := true)).(time := 0.0, running := true), 0.0, begun)
        else begun == s.(running := true))
    && Refreshed(w, begun, begun.time, ready)
  }

  lemma {:induction false} ReadyIs<Sig, Ev>(
      w: World<Sig, Ev>, s: State<Sig, Ev>, reset: bool, begun: State<Sig, Ev>, ready: State<Sig, Ev>)
    requires begun == if reset then Reset(w, s.(running := true)) else s.(running := true)
    requires ready == Ready(w, s, reset)
    ensures MadeReady(w, s, reset, begun, ready)
  {
    if reset { UpdateRefreshes(w, w.reset(s.(running := true)).(time := 0.0, running := true), 0.0, begun); }
    UpdateRefreshes(w, begun, begun.time, ready);
  }

  lemma {:induction false} OneMoreAct<Sig, Ev>(
      w: World<Sig, Ev>, hits: seq<Detection>, n: nat, t: real, trail: seq<State<Sig, Ev>>, acted: seq<State<Sig, Ev>>,
      mid: State<Sig, Ev>, next: State<Sig, Ev>)
    requires ActedFirst(w, hits, n, t, trail, acted) && n < |hits|
    requires ActsOn(w, hits[n].event, t, trail[n], mid) && Refreshed(w, mid, t, next)
    ensures ActedFirst(w, hits, n + 1, t, trail + [next], acted + [mid])
  {
    var states, all := trail + [next], acted + [mid];
    forall i: nat | i < n + 1
      ensures ActsOn(w, hits[i].event, t, states[i], all[i]) && Refreshed(w, all[i], t, states[i + 1])
    {
      if i < n { assert all[i] == acted[i] && states[i] == trail[i] && states[i + 1] == trail[i + 1]; }
    }
  }

  lemma {:induction false} InitialActsTrail<Sig, Ev>(
      w: World<Sig, Ev>, s: State<Sig, Ev>, hits: seq<Detection>, n: nat, r: State<Sig, Ev>)
    returns (trail: seq<State<Sig, Ev>>, acted: seq<State<Sig, Ev>>)
    requires n <= |hits| && r == InitialActs(w, s, hits[..n])
    ensures ActedFirst(w, hits, n, s.time, trail, acted) && trail[0] == s && trail[n] == r
    decreases n
  {
    if n == 0 {
      trail, acted := [s], [];
    } else {
      var m := n - 1;
      assert hits[..n][..m] == hits[..m] && hits[..n][m] == hits[m];
      var before := InitialActs(w, s, hits[..m]);
      trail, acted := InitialActsTrail(w, s, hits, m, before);
      var mid := Act(w, before, hits[m].event, s.time);
      UpdateRefreshes(w, mid, s.time, r);
      OneMoreAct(w, hits, m, s.time, trail, acted, mid, r);
      trail, acted := trail + [r], acted + [mid];
    }
  }

  /** A run starts with one evaluation, the actions of the events that are already detected, in order of their
      estimates, and one sample. */
  lemma {:induction false} RunStarts<Sig, Ev>(w: World<Sig, Ev>, s: State<Sig, Ev>, reset: bool, r: State<Sig, Ev>)
    returns (begun: State<Sig, Ev>, ready: State<Sig, Ev>, hits: seq<Detection>, trail: seq<State<Sig, Ev>>,
             acted: seq<State<Sig, Ev>>, after: State<Sig, Ev>)
    requires r == Begin(w, s, reset)
    ensures MadeReady(w, s, reset, begun, ready)
    ensures Reported(w, ready, ready.time, hits)
    ensures ActedFirst(w, hits, |hits|, ready.time, trail, acted) && Watched(w, ready, ready.time, trail[0])
    ensures after == trail[|hits|]
    ensures r == after.(running := after.running && !after.stop, stop := false,
                        samples := after.samples + [Sample(after.time, w.dt, after.signals)])
  {
    begun := if reset then Reset(w, s.(running := true)) else s.(running := true);
    ready := Ready(w, s, reset);
    ReadyIs(w, s, reset, begun, ready);
    hits := Detected(w, ready, ready.time);
    DetectionIsComplete(w, ready, ready.time);
    var watched := Detect(w, ready, ready.time);
    DetectWatches(w, ready, ready.time);
    assert hits[..|hits|] == hits;
    after := InitialActs(w, watched, hits);
    trail, acted := InitialActsTrail(w, watched, hits, |hits|, after);
  }

  // ---------------------------------------------------------------------------------------
  // The next step size
  // ---------------------------------------------------------------------------------------

  /** An active event of the simulation or of one of its blocks expects to fire after `d`. */
  ghost predicate Expects<Sig, Ev>(w: World<Sig, Ev>, t: real, e: Event<Ev>, d: real) {
    e.active && d > 0.0 && w.estimate(e, t) == Some(d)
  }

  ghost predicate ExpectedAmong<Sig, Ev>(w: World<Sig, Ev>, t: real, es: seq<Event<Ev>>, d: real) {
    exists j: nat {:trigger es[j]} :: j < |es| && Expects(w, t, es[j], d)
  }

  ghost predicate ExpectedInBlocks<Sig, Ev>(w: World<Sig, Ev>, t: real, blocks: seq<Block<Ev>>, d: real) {
    exists i: nat {:trigger blocks[i]} :: i < |blocks| && ExpectedAmong(w, t, blocks[i].events, d)
  }

  ghost predicate Expected<Sig, Ev>(w: World<Sig, Ev>, s: State<Sig, Ev>, d: real) {
    ExpectedAmong(w, s.time, s.events, d) || ExpectedInBlocks(w, s.time, s.blocks, d)
  }

  /** `best` is the least of what is `offered`, if anything is. */
  ghost predicate LeastOf(offered: real -> bool, best: Option<real>) {
    && (best.Some? ==> offered(best.value))
    && (forall d {:trigger offered(d)} :: offered(d) ==> best.Some? && best.value <= d)
  }

  lemma {:induction false} SoonerIsLeast(
      p: real -> bool, q: real -> bool, both: real -> bool, a: Option<real>, b: Option<real>)
    requires LeastOf(p, a) && LeastOf(q, b) && forall d {:trigger both(d)} :: both(d) <==> p(d) || q(d)
    ensures LeastOf(both, Sooner(a, b))
  {
    forall d {:trigger both(d)} | both(d) ensures Sooner(a, b).Some? && Sooner(a, b).value <= d {
      assert p(d) || q(d);
    }
    if Sooner(a, b).Some? { assert both(Sooner(a, b).value); }
  }

  lemma {:induction false} EventsEstimateIsLeast<Sig, Ev>(w: World<Sig, Ev>, t: real, es: seq<Event<Ev>>)
    ensures LeastOf(d => ExpectedAmong(w, t, es, d), EventsEstimate(w, t, es))
    decreases |es|
  {
    if es != [] {
      var front, e := es[..|es| - 1], es[|es| - 1];
      EventsEstimateIsLeast(w, t, front);
      forall d ensures ExpectedAmong(w, t, es, d) <==> ExpectedAmong(w, t, front, d) || Expects(w, t, e, d) {
        if ExpectedAmong(w, t, front, d) {
          var j: nat :| j < |front| && Expects(w, t, front[j], d);
          assert Expects(w, t, es[j], d);
        }
        if ExpectedAmong(w, t, es, d) {
          var j: nat :| j < |es| && Expects(w, t, es[j], d);
          if j < |front| { assert Expects(w, t, front[j], d); }
        }
      }
      SoonerIsLeast(d => ExpectedAmong(w, t, front, d), d => Expects(w, t, e, d), d => ExpectedAmong(w, t, es, d),
          EventsEstimate(w, t, front), EventEstimate(w, t, e));
    }
  }

  lemma {:induction false} BlocksEstimateIsLeast<Sig, Ev>(w: World<Sig, Ev>, t: real, blocks: seq<Block<Ev>>)
    ensures LeastOf(d => ExpectedInBlocks(w, t, blocks, d), BlocksEstimate(w, t, blocks))
    decreases |blocks|
  {
    if blocks != [] {
      var front, b := blocks[..|blocks| - 1], blocks[|blocks| - 1];
      BlocksEstimateIsLeast(w, t, front);
      EventsEstimateIsLeast(w, t, b.events);
      forall d
        ensures ExpectedInBlocks(w, t, blocks, d) <==>
                ExpectedInBlocks(w, t, front, d) || ExpectedAmong(w, t, b.events, d)
      {
        if ExpectedInBlocks(w, t, front, d) {
          var j: nat :| j < |front| && ExpectedAmong(w, t, front[j].events, d);
          assert ExpectedAmong(w, t, blocks[j].events, d);
        }
        if ExpectedInBlocks(w, t, blocks, d) {
          var j: nat :| j < |blocks| && ExpectedAmong(w, t, blocks[j].events, d);
          if j < |front| { assert ExpectedAmong(w, t, front[j].events, d); }
        }
      }
      SoonerIsLeast(d => ExpectedInBlocks(w, t, front, d), d => ExpectedAmong(w, t, b.events, d),
          d => ExpectedInBlocks(w, t, blocks, d), BlocksEstimate(w, t, front), EventsEstimate(w, t, b.events));
    }
  }

  /** The simulation looks ahead to the soonest event that expects to fire. */
  lemma {:induction false} EstimateIsSoonest<Sig, Ev>(w: World<Sig, Ev>, s: State<Sig, Ev>)
    ensures LeastOf(d => Expected(w, s, d), Estimate(w, s))
  {
    EventsEstimateIsLeast(w, s.time, s.events);
    BlocksEstimateIsLeast(w, s.time, s.blocks);
    SoonerIsLeast(d => ExpectedAmong(w, s.time, s.events, d), d => ExpectedInBlocks(w, s.time, s.blocks, d),
        d => Expected(w, s, d), EventsEstimate(w, s.time, s.events), BlocksEstimate(w, s.time, s.blocks));
  }

  /** The step a run would like: the last one rescaled by what was reported, or the nominal one if nothing was. */
  ghost predicate Wished<Sig, Ev>(w: World<Sig, Ev>, dt: real, o: Outcome, wish: real) {
    if o.error == 0.0 && o.scale == 1.0 then wish == w.dt else wish == dt * o.scale
  }

  /** `free` is the least of the wish, what is left of the run and what the events expect. */
  ghost predicate SoonestOf<Sig, Ev>(w: World<Sig, Ev>, s: State<Sig, Ev>, wish: real, end: real, free: real) {
    && (free == wish || free == end - s.time || Expected(w, s, free))
    && free <= wish && s.time + free <= end
    && forall d {:trigger Expected(w, s, d)} :: Expected(w, s, d) ==> free <= d
  }

  /** `next` is `free` within the least and the largest step. */
  ghost predicate Clamped<Sig, Ev>(w: World<Sig, Ev>, free: real, next: real) {
    if free < w.dtMin then next == w.dtMin
    else if w.dtMax.Some? && w.dtMax.value < free then next == w.dtMax.value
    else next == free
  }

  lemma {:induction false} RescaledIs<Sig, Ev>(w: World<Sig, Ev>, dt: real, o: Outcome)
    ensures Wished(w, dt, o, Rescaled(w, dt, o))
  {
  }

  /** The next step of an adaptive run: what the last one suggests, but not past the next expected event nor past the
      end, and within the bounds on steps. */
  lemma {:induction false} NextStepIs<Sig, Ev>(
      w: World<Sig, Ev>, s: State<Sig, Ev>, dt: real, o: Outcome, end: real, next: real)
    returns (wish: real, free: real)
    requires next == AdvanceDt(w, s, dt, o, end)
    ensures Wished(w, dt, o, wish) && SoonestOf(w, s, wish, end, free) && Clamped(w, free, next)
  {
    wish := Rescaled(w, dt, o);
    RescaledIs(w, dt, o);
    var best := Estimate(w, s);
    EstimateIsSoonest(w, s);
    var near := Least(wish, best);
    free := if s.time + near > end then end - s.time else near;
    assert LeastOf(d => Expected(w, s, d), best);
    var expected := (d: real) => Expected(w, s, d);
    assert best.Some? ==> expected(best.value);
    forall d {:trigger Expected(w, s, d)} | Expected(w, s, d) ensures free <= d {
      assert expected(d);
    }
  }

  lemma {:induction false} AdvancedTo<Sig, Ev>(
      w: World<Sig, Ev>, plan: Plan, g: Going<Sig, Ev>, h: Going<Sig, Ev>, r: Step<Sig, Ev>, end: real)
    requires h == Advance(w, plan, g) && r == Timestep(w, g.state, g.dt, plan.adaptive)
    requires end == plan.start + plan.duration
    ensures h.state == r.state
    ensures h.dt == if plan.adaptive then AdvanceDt(w, r.state, g.dt, r.outcome, end) else g.dt
    ensures h.successful - g.successful == (if r.outcome.success then 1 else 0)
    ensures h.rejected - g.rejected == (if r.outcome.success then 0 else 1)
  {
    assert plan.End() == end;
  }

  /** One pass of the run loop: a timestep, its count, and for an adaptive run the next step size. */
  lemma {:induction false} PassIs<Sig, Ev>(
      w: World<Sig, Ev>, plan: Plan, g: Going<Sig, Ev>, h: Going<Sig, Ev>, r: Step<Sig, Ev>, end: real)
    returns (wish: real, free: real)
    requires h == Advance(w, plan, g) && r == Timestep(w, g.state, g.dt, plan.adaptive)
    requires end == plan.start + plan.duration
    ensures h.state == r.state
    ensures h.successful - g.successful == (if r.outcome.success then 1 else 0)
    ensures h.rejected - g.rejected == (if r.outcome.success then 0 else 1)
    ensures if plan.adaptive then
              Wished(w, g.dt, r.outcome, wish) && SoonestOf(w, r.state, wish, end, free) && Clamped(w, free, h.dt)
            else h.dt == g.dt
  {
    AdvancedTo(w, plan, g, h, r, end);
    wish, free := 0.0, 0.0;
    if plan.adaptive {
      wish, free := NextStepIs(w, r.state, g.dt, r.outcome, end, h.dt);
    }
  }

  // ---------------------------------------------------------------------------------------
  // How long a run goes on
  // ---------------------------------------------------------------------------------------

  /** What is left of a run from `start` over `duration`. */
  ghost function Left(start: real, duration: real, time: real): real {
    start + duration - time
  }

  /** A run that is not stopped goes on while anything is left, with a fixed step while more is left than 1e-12 of its
      duration. */
  ghost predicate MoreIsLeft(duration: real, left: real, adaptive: bool) {
    left > 0.0 && (adaptive || left > 0.000000000001 * (if duration < 0.0 then -duration else duration))
  }

  /** A run starts at 0 if it is reset and where the simulation is if not; it adapts its step if that is asked for and
      the method can; and it goes on while it is running and more is left. */
  lemma {:induction false} RunGoesOnIff<Sig, Ev>(
      w: World<Sig, Ev>, s: State<Sig, Ev>, duration: real, reset: bool, adaptive: bool, g: Going<Sig, Ev>, start: real,
      adapts: bool)
    requires start == (if reset then 0.0 else s.time) && adapts == (adaptive && w.isAdaptive)
    ensures var plan := RunPlan(w, s, duration, reset, adaptive);
            && plan.start == start && plan.duration == duration && plan.adaptive == adapts
            && (Continues(plan, g) <==>
                  g.state.running && MoreIsLeft(duration, Left(start, duration, g.state.time), adapts))
  {
  }
}

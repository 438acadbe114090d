/** Where a step that meets an event too early is sent back to (`_resolve_events` and `_localize_events_theta` in
    `src/simulation.rs`): how the crossing is looked for on the interpolants, and what the step is retried with. */
module EventSearch {
  import opened Wrappers
  import opened SimState
  import opened SimStep
  import opened SimTransactions
  import opened StepMeaning
  import opened EventResolution
  import B = Bracketing

  // ---------------------------------------------------------------------------------------
  // One look
  // ---------------------------------------------------------------------------------------

  /** The step an engine has taken can be interpolated. */
  ghost predicate Dense(e: Engine) {
    e.dense && e.history != []
  }

  /** The state at the end of the step, whether or not the engine has been moved from it. */
  ghost function EndOf(e: Engine): seq<real> {
    if e.stash.Some? then e.stash.value else e.x
  }

  /** The state at the part `theta` of the step. */
  ghost function Within<Sig, Ev>(w: World<Sig, Ev>, e: Engine, theta: real): Option<seq<real>> {
    w.interpolate(e.(x := EndOf(e), stash := None), theta)
  }

  ghost predicate Placeable<Sig, Ev>(w: World<Sig, Ev>, theta: real, b: Block<Ev>) {
    Dynamic(b) ==> Dense(b.engine.value) && Within(w, b.engine.value, theta).Some?
  }

  /** An active engine that can be interpolated is moved to the part `theta` of the step and keeps its end; one whose
      interpolation fails is at its end. */
  ghost predicate BlockPlaced<Sig, Ev>(w: World<Sig, Ev>, theta: real, b: Block<Ev>, c: Block<Ev>) {
    && SameBlock(b, c)
    && (Dynamic(b) && Dense(b.engine.value) ==>
          var e := b.engine.value;
          && c.engine.value == e.(x := c.engine.value.x, stash := Some(EndOf(e)))
          && c.engine.value.x == (if Within(w, e, theta).Some? then Within(w, e, theta).value else EndOf(e)))
    && (!(Dynamic(b) && Dense(b.engine.value)) ==> c == b)
  }

  ghost predicate AllPlaced<Sig, Ev>(w: World<Sig, Ev>, theta: real, s: State<Sig, Ev>, placed: State<Sig, Ev>) {
    && placed == s.(blocks := placed.blocks) && |placed.blocks| == |s.blocks|
    && forall i: nat {:trigger placed.blocks[i]} | i < |s.blocks| ::
         BlockPlaced(w, theta, s.blocks[i], placed.blocks[i])
  }

  ghost predicate AllPlaceable<Sig, Ev>(w: World<Sig, Ev>, theta: real, s: State<Sig, Ev>) {
    forall i: nat {:trigger s.blocks[i]} | i < |s.blocks| :: Placeable(w, theta, s.blocks[i])
  }

  /** `hits` are the events that report a detection at `t`, the earliest first. */
  ghost predicate Reported<Sig, Ev>(w: World<Sig, Ev>, s: State<Sig, Ev>, t: real, hits: seq<Detection>) {
    multiset(hits) == AllReports(w, s, t) && Chronological(hits)
  }

  ghost predicate SecantOf(hits: seq<Detection>, theta: real, secant: real) {
    secant == if hits == [] then 0.0 else hits[0].ratio * theta
  }

  /** A look at the part `theta` of the step: the active engines are moved there, and if all can be, the system is
      evaluated at that time and its events are looked for; the earliest gives the secant estimate. */
  ghost predicate Looked<Sig, Ev>(
      w: World<Sig, Ev>, dt: real, s: State<Sig, Ev>, theta: real, p: B.Probing<State<Sig, Ev>>,
      placed: State<Sig, Ev>, seen: State<Sig, Ev>, t: real)
  {
    && t == s.time + theta * dt && AllPlaced(w, theta, s, placed)
    && if AllPlaceable(w, theta, s) then
         && Refreshed(w, placed, t, seen) && Watched(w, seen, t, p.state)
         && p.hits.Some? && Reported(w, seen, t, p.hits.value) && SecantOf(p.hits.value, theta, p.secant)
       else p.hits.None? && p.state == placed
  }

  lemma {:induction false} SeekPlaces<Sig, Ev>(w: World<Sig, Ev>, s: State<Sig, Ev>, theta: real)
    ensures AllPlaced(w, theta, s, SeekState(w, s, theta))
  {
    var placed := SeekState(w, s, theta);
    forall i: nat | i < |s.blocks| ensures BlockPlaced(w, theta, s.blocks[i], placed.blocks[i]) {
      assert placed.blocks[i] == Sought(w, theta, s.blocks[i]);
    }
  }

  lemma {:induction false} SeeksAre<Sig, Ev>(w: World<Sig, Ev>, s: State<Sig, Ev>, theta: real)
    ensures SeeksOk(w, s.blocks, theta) <==> AllPlaceable(w, theta, s)
  {
    forall i: nat | i < |s.blocks| ensures SeekOk(w, theta, s.blocks[i]) <==> Placeable(w, theta, s.blocks[i]) {
      assert Dynamic(s.blocks[i]) == Live(s.blocks[i]);
    }
  }

  /** What a probe is, from what it sees. */
  lemma {:induction false} ProbedIs<Sig, Ev>(
      w: World<Sig, Ev>, dt: real, s: State<Sig, Ev>, theta: real, t: real, placed: State<Sig, Ev>,
      seen: State<Sig, Ev>, hits: seq<Detection>, p: B.Probing<State<Sig, Ev>>)
    requires p == ProbeAt(w, dt, s, theta) && t == s.time + theta * dt
    requires placed == SeekState(w, s, theta) && seen == Update(w, placed, t) && hits == Detected(w, seen, t)
    ensures if SeeksOk(w, s.blocks, theta) then
              p.state == Detect(w, seen, t) && p.hits == Some(hits) && SecantOf(hits, theta, p.secant)
            else p.hits.None? && p.state == placed
  {
    assert ProbeTime(s.time, dt, theta) == t;
  }

  lemma {:induction false} ProbeLooks<Sig, Ev>(
      w: World<Sig, Ev>, dt: real, s: State<Sig, Ev>, theta: real, t: real, p: B.Probing<State<Sig, Ev>>)
    returns (placed: State<Sig, Ev>, seen: State<Sig, Ev>)
    requires p == ProbeAt(w, dt, s, theta) && t == s.time + theta * dt
    ensures Looked(w, dt, s, theta, p, placed, seen, t)
  {
    placed := SeekState(w, s, theta);
    seen := Update(w, placed, t);
    var hits := Detected(w, seen, t);
    ProbedIs(w, dt, s, theta, t, placed, seen, hits, p);
    SeekPlaces(w, s, theta);
    SeeksAre(w, s, theta);
    UpdateRefreshes(w, placed, t, seen);
    DetectWatches(w, seen, t);
    DetectionIsComplete(w, seen, t);
  }

  // ---------------------------------------------------------------------------------------
  // The search
  // ---------------------------------------------------------------------------------------

  /** The first look is at the estimate, kept off both ends of the step. */
  ghost predicate FirstLook(ratio: real, first: B.Probe) {
    && first.lo == 0.0 && first.hi == 1.0 && first.hits == []
    && first.guess == if ratio < 0.000001 then 0.000001 else if ratio > 0.999999999 then 0.999999999 else ratio
  }

  /** The search is switched on and every active engine can be interpolated. */
  ghost predicate Searchable<Sig, Ev>(w: World<Sig, Ev>, s: State<Sig, Ev>) {
    w.denseEvents && forall i: nat {:trigger s.blocks[i]} | i < |s.blocks| :: Dynamic(s.blocks[i]) ==>
      Dense(s.blocks[i].engine.value)
  }

  ghost predicate BlockAtEnd<Ev>(b: Block<Ev>, c: Block<Ev>) {
    && SameBlock(b, c) && (!Dynamic(b) ==> c == b)
    && (Dynamic(b) ==> c.engine.value == b.engine.value.(x := EndOf(b.engine.value), stash := None))
  }

  /** Every active engine is back at the end of the step. */
  ghost predicate AllAtEnd<Sig, Ev>(s: State<Sig, Ev>, r: State<Sig, Ev>) {
    && r == s.(blocks := r.blocks) && |r.blocks| == |s.blocks|
    && forall i: nat {:trigger r.blocks[i]} | i < |s.blocks| :: BlockAtEnd(s.blocks[i], r.blocks[i])
  }

  lemma {:induction false} SeekEndIs<Sig, Ev>(s: State<Sig, Ev>)
    ensures AllAtEnd(s, SeekEnd(s))
  {
    var r := SeekEnd(s);
    forall i: nat | i < |s.blocks| ensures BlockAtEnd(s.blocks[i], r.blocks[i]) {
      assert r.blocks[i] == SeekEnded(s.blocks[i]);
    }
  }

  lemma {:induction false} LocalisableIs<Sig, Ev>(w: World<Sig, Ev>, s: State<Sig, Ev>)
    ensures Localisable(w, s) <==> Searchable(w, s)
  {
    forall i: nat | i < |s.blocks|
      ensures CanSeek(s.blocks[i]) <==> (Dynamic(s.blocks[i]) ==> Dense(s.blocks[i].engine.value))
    {
      assert Dynamic(s.blocks[i]) == Live(s.blocks[i]);
    }
  }

  /** The crossing is searched for by at most 32 looks, from the first estimate on, and afterwards the engines are back
      at the end of the step. */
  lemma {:induction false} LocaliseSearches<Sig, Ev>(
      w: World<Sig, Ev>, s: State<Sig, Ev>, dt: real, ratio: real, r: B.Located<State<Sig, Ev>>)
    returns (first: B.Probe, found: B.Located<State<Sig, Ev>>, at: seq<State<Sig, Ev>>, failed: Option<B.Probe>)
    requires r == Localise(w, s, dt, ratio)
    ensures FirstLook(ratio, first)
    ensures Searchable(w, s) ==> B.Searched(Prober(w, dt), s, first, 32, found, at, failed)
    ensures Searchable(w, s) ==> r.theta == found.theta && r.probes == found.probes && AllAtEnd(found.state, r.state)
    ensures !Searchable(w, s) ==> r == B.Located(s, None, [])
  {
    LocalisableIs(w, s);
    first := B.Probe(0.0, B.FirstGuess(ratio), 1.0, []);
    found := B.Bracket(Prober(w, dt), s, first.lo, first.hi, first.guess, B.MAX_PROBES);
    at, failed := B.SearchIs(Prober(w, dt), s, first, B.MAX_PROBES, found);
    SeekEndIs(found.state);
  }

  // ---------------------------------------------------------------------------------------
  // The retry
  // ---------------------------------------------------------------------------------------

  /** The earliest crossing that is not close. */
  ghost predicate EarliestFar(reports: multiset<Detection>, ratio: real) {
    && (exists d {:trigger reports[d]} :: d in reports && !d.close && d.ratio == ratio)
    && (forall d {:trigger reports[d]} | d in reports && !d.close :: ratio <= d.ratio)
  }

  lemma {:induction false} FirstFarComesFirst(ds: seq<Detection>)
    returns (k: nat)
    requires FirstFar(ds).Some?
    ensures k < |ds| && !ds[k].close && FirstFar(ds) == Some(ds[k].ratio) && forall i | 0 <= i < k :: ds[i].close
    decreases |ds|
  {
    if ds[0].close {
      k := FirstFarComesFirst(ds[1..]);
      k := k + 1;
      forall i | 0 <= i < k ensures ds[i].close {
        if i > 0 { assert ds[i] == ds[1..][i - 1]; }
      }
    } else {
      k := 0;
    }
  }

  lemma {:induction false} FirstFarIsEarliest(hits: seq<Detection>, reports: multiset<Detection>)
    requires multiset(hits) == reports && Chronological(hits) && FirstFar(hits).Some?
    ensures EarliestFar(reports, FirstFar(hits).value)
  {
    var k := FirstFarComesFirst(hits);
    assert hits[k] in multiset(hits);
    assert reports[hits[k]] > 0;
    forall d {:trigger reports[d]} | d in reports && !d.close ensures FirstFar(hits).value <= d.ratio {
      assert d in hits;
      var i :| 0 <= i < |hits| && hits[i] == d;
      assert i >= k;
      if i > k { assert hits[k].ratio <= hits[i].ratio; }
    }
  }

  lemma {:induction false} RetriedIs<Sig, Ev>(
      w: World<Sig, Ev>, s: State<Sig, Ev>, dt: real, adaptive: bool, force: bool, end: real,
      r: Resolution<Sig, Ev>, watched: State<Sig, Ev>, hits: seq<Detection>)
    requires r == ResolveEvents(w, s, dt, adaptive, force) && r.retry.Some? && end == s.time + dt
    requires watched == Detect(w, s, end) && hits == Detected(w, s, end)
    ensures FirstFar(hits).Some?
    ensures var l := Localise(w, watched, dt, FirstFar(hits).value);
            && r.state == Revert(w, l.state)
            && r.retry == Some(if l.theta.Some? then l.theta.value else FirstFar(hits).value)
  {
    assert StepEnd(s, dt) == end;
  }

  /** A step sent back is to be retried up to the crossing the search has found, and otherwise up to the estimate of the
      earliest event that is not close; its active engines are taken back. */
  lemma {:induction false} RetryIsTheCrossing<Sig, Ev>(
      w: World<Sig, Ev>, s: State<Sig, Ev>, dt: real, adaptive: bool, force: bool, end: real, r: Resolution<Sig, Ev>)
    returns (watched: State<Sig, Ev>, ratio: real, l: B.Located<State<Sig, Ev>>)
    requires r == ResolveEvents(w, s, dt, adaptive, force) && r.retry.Some? && end == s.time + dt
    ensures Watched(w, s, end, watched) && EarliestFar(AllReports(w, s, end), ratio)
    ensures l == Localise(w, watched, dt, ratio)
    ensures r.retry == Some(if l.theta.Some? then l.theta.value else ratio)
    ensures TakenBack(w, l.state, r.state)
  {
    var hits := Detected(w, s, end);
    watched := Detect(w, s, end);
    DetectWatches(w, s, end);
    DetectionIsComplete(w, s, end);
    RetriedIs(w, s, dt, adaptive, force, end, r, watched, hits);
    ratio := FirstFar(hits).value;
    FirstFarIsEarliest(hits, AllReports(w, s, end));
    l := Localise(w, watched, dt, ratio);
    RevertTakesBack(w, l.state);
  }
}

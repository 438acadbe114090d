/** What resolving the events of a step comes to (`_resolve_events` in `src/simulation.rs`): which events act, in which
    order, at which time, and on which state. */
module EventResolution {
  import opened Wrappers
  import opened SimState
  import opened SimStep
  import opened SimTransactions
  import opened StepMeaning

  // ---------------------------------------------------------------------------------------
  // Which events are detected
  // ---------------------------------------------------------------------------------------

  /** What one event reports. */
  function Report<Sig, Ev>(w: World<Sig, Ev>, engines: seq<Option<Engine>>, sig: Sig, t: real, e: Event<Ev>)
    : multiset<Detection>
  {
    var found := w.detect(e, engines, sig, t);
    if e.active && found.detected then multiset{Detection(e.id, found.close, found.ratio)} else multiset{}
  }

  function Reports<Sig, Ev>(w: World<Sig, Ev>, engines: seq<Option<Engine>>, sig: Sig, t: real, es: seq<Event<Ev>>)
    : multiset<Detection>
  {
    if es == [] then multiset{} else Report(w, engines, sig, t, es[0]) + Reports(w, engines, sig, t, es[1..])
  }

  function BlockReports<Sig, Ev>(
      w: World<Sig, Ev>, engines: seq<Option<Engine>>, sig: Sig, t: real, blocks: seq<Block<Ev>>)
    : multiset<Detection>
  {
    if blocks == [] then multiset{}
    else Reports(w, engines, sig, t, blocks[0].events) + BlockReports(w, engines, sig, t, blocks[1..])
  }

  /** The reports of all active events at time `t`, those of the simulation and those of its blocks. */
  function AllReports<Sig, Ev>(w: World<Sig, Ev>, s: State<Sig, Ev>, t: real): multiset<Detection> {
    Reports(w, Engines(s.blocks), s.signals, t, s.events) + BlockReports(w, Engines(s.blocks), s.signals, t, s.blocks)
  }

  lemma {:induction false} ReportsSplit<Sig, Ev>(
      w: World<Sig, Ev>, engines: seq<Option<Engine>>, sig: Sig, t: real, front: seq<Event<Ev>>, e: Event<Ev>)
    ensures Reports(w, engines, sig, t, front + [e]) ==
            Reports(w, engines, sig, t, front) + Report(w, engines, sig, t, e)
    decreases |front|
  {
    if front == [] {
      assert front + [e] == [e];
    } else {
      assert (front + [e])[1..] == front[1..] + [e];
      ReportsSplit(w, engines, sig, t, front[1..], e);
    }
  }

  lemma {:induction false} BlockReportsSplit<Sig, Ev>(
      w: World<Sig, Ev>, engines: seq<Option<Engine>>, sig: Sig, t: real, front: seq<Block<Ev>>, b: Block<Ev>)
    ensures BlockReports(w, engines, sig, t, front + [b]) ==
            BlockReports(w, engines, sig, t, front) + Reports(w, engines, sig, t, b.events)
    decreases |front|
  {
    if front == [] {
      assert front + [b] == [b];
    } else {
      assert (front + [b])[1..] == front[1..] + [b];
      BlockReportsSplit(w, engines, sig, t, front[1..], b);
    }
  }

  lemma {:induction false} HitsAreReports<Sig, Ev>(
      w: World<Sig, Ev>, engines: seq<Option<Engine>>, sig: Sig, t: real, es: seq<Event<Ev>>)
    ensures multiset(Hits(w, engines, sig, t, es)) == Reports(w, engines, sig, t, es)
    decreases |es|
  {
    if es != [] {
      var front, e := es[..|es| - 1], es[|es| - 1];
      assert es == front + [e];
      HitsAreReports(w, engines, sig, t, front);
      ReportsSplit(w, engines, sig, t, front, e);
    }
  }

  lemma {:induction false} BlockHitsAreReports<Sig, Ev>(
      w: World<Sig, Ev>, engines: seq<Option<Engine>>, sig: Sig, t: real, blocks: seq<Block<Ev>>)
    ensures multiset(BlockHits(w, engines, sig, t, blocks)) == BlockReports(w, engines, sig, t, blocks)
    decreases |blocks|
  {
    if blocks != [] {
      var front, b := blocks[..|blocks| - 1], blocks[|blocks| - 1];
      assert blocks == front + [b];
      BlockHitsAreReports(w, engines, sig, t, front);
      HitsAreReports(w, engines, sig, t, b.events);
      BlockReportsSplit(w, engines, sig, t, front, b);
    }
  }

  /** Detection finds every report of an active event, once each, in order of the crossings. */
  lemma {:induction false} DetectionIsComplete<Sig, Ev>(w: World<Sig, Ev>, s: State<Sig, Ev>, t: real)
    ensures multiset(Detected(w, s, t)) == AllReports(w, s, t) && Chronological(Detected(w, s, t))
  {
    var engines := Engines(s.blocks);
    HitsAreReports(w, engines, s.signals, t, s.events);
    BlockHitsAreReports(w, engines, s.signals, t, s.blocks);
    DetectedInOrder(Hits(w, engines, s.signals, t, s.events) + BlockHits(w, engines, s.signals, t, s.blocks));
  }

  /** An active event that reports a detection is among them. */
  lemma {:induction false} ReportIsThere<Sig, Ev>(
      w: World<Sig, Ev>, engines: seq<Option<Engine>>, sig: Sig, t: real, es: seq<Event<Ev>>, i: nat)
    requires i < |es| && es[i].active && w.detect(es[i], engines, sig, t).detected
    ensures var found := w.detect(es[i], engines, sig, t);
            Detection(es[i].id, found.close, found.ratio) in Reports(w, engines, sig, t, es)
    decreases |es|
  {
    if i > 0 { ReportIsThere(w, engines, sig, t, es[1..], i - 1); }
  }

  // ---------------------------------------------------------------------------------------
  // Which actions run
  // ---------------------------------------------------------------------------------------

  ghost predicate AllClose(hits: seq<Detection>) {
    forall i | 0 <= i < |hits| :: hits[i].close
  }

  ghost predicate ReachesAll(hits: seq<Detection>, adaptive: bool) {
    adaptive && AllClose(hits)
  }

  /** The time the `i`-th event is told: the end of an adaptive step that has reached all its events, its own crossing
      otherwise. */
  ghost function TimeTold(hits: seq<Detection>, i: nat, start: real, dt: real, adaptive: bool): real
    requires i < |hits|
  {
    if ReachesAll(hits, adaptive) then start + dt else start + hits[i].ratio * dt
  }

  /** Running the action of an event: the clock and the samples are out of its reach, and it is entered in the
      record. */
  ghost predicate ActsOn<Sig, Ev>(
      w: World<Sig, Ev>, event: nat, told: real, before: State<Sig, Ev>, after: State<Sig, Ev>)
  {
    after == w.act(event, before, told).(
      time := before.time, samples := before.samples, actions := before.actions + [(event, told)])
  }

  /** `trail` is the state before, between and after the actions of the first `n` of `hits`, each run on what the one
      before it left. */
  ghost predicate ActInTurn<Sig, Ev>(
      w: World<Sig, Ev>, hits: seq<Detection>, n: nat, start: real, dt: real, adaptive: bool,
      trail: seq<State<Sig, Ev>>)
  {
    && |trail| == n + 1 && n <= |hits|
    && forall i: nat {:trigger trail[i]} | i < n ::
         ActsOn(w, hits[i].event, TimeTold(hits, i, start, dt, adaptive), trail[i], trail[i + 1])
  }

  /** The record of the first `n` of those actions. */
  ghost predicate ActionsRecorded<Sig, Ev>(
      before: State<Sig, Ev>, after: State<Sig, Ev>, hits: seq<Detection>, n: nat, start: real, dt: real,
      adaptive: bool)
  {
    && n <= |hits| && |after.actions| == |before.actions| + n
    && after.actions[..|before.actions|] == before.actions
    && forall i: nat {:trigger hits[i]} | i < n ::
         after.actions[|before.actions| + i] == (hits[i].event, TimeTold(hits, i, start, dt, adaptive))
  }

  lemma {:induction false} FirstFarIs(ds: seq<Detection>)
    ensures FirstFar(ds).None? <==> AllClose(ds)
    decreases |ds|
  {
    if ds != [] {
      FirstFarIs(ds[1..]);
      if ds[0].close && AllClose(ds[1..]) {
        forall i | 0 <= i < |ds| ensures ds[i].close {
          if i > 0 { assert ds[i] == ds[1..][i - 1]; }
        }
      }
      if AllClose(ds) {
        forall i | 0 <= i < |ds[1..]| ensures ds[1..][i].close {
          assert ds[1..][i] == ds[i + 1];
        }
      }
    }
  }

  lemma {:induction false} RecordedSnoc<Sig, Ev>(
      w: World<Sig, Ev>, before: State<Sig, Ev>, mid: State<Sig, Ev>, after: State<Sig, Ev>, hits: seq<Detection>,
      n: nat, start: real, dt: real, adaptive: bool)
    requires n < |hits| && ActionsRecorded(before, mid, hits, n, start, dt, adaptive)
    requires ActsOn(w, hits[n].event, TimeTold(hits, n, start, dt, adaptive), mid, after)
    ensures ActionsRecorded(before, after, hits, n + 1, start, dt, adaptive)
  {
    forall i: nat | i < n + 1
      ensures after.actions[|before.actions| + i] == (hits[i].event, TimeTold(hits, i, start, dt, adaptive))
    {
      if i < n { assert mid.actions[|before.actions| + i] == (hits[i].event, TimeTold(hits, i, start, dt, adaptive)); }
    }
  }

  /** Each call is that of the event found, with the time it is told. */
  ghost predicate AreCalls(calls: seq<Call>, hits: seq<Detection>, start: real, dt: real, adaptive: bool) {
    |calls| == |hits| && forall i: nat {:trigger calls[i]} | i < |hits| ::
      calls[i] == Call(hits[i].event, TimeTold(hits, i, start, dt, adaptive))
  }

  lemma {:induction false} CallsAre(hits: seq<Detection>, start: real, dt: real, adaptive: bool, atEnd: bool)
    requires atEnd == ReachesAll(hits, adaptive)
    ensures AreCalls(Calls(hits, start, dt, atEnd), hits, start, dt, adaptive)
  {
  }

  /** The states between the actions of the first `n` calls. */
  lemma {:induction false} ActionsLeaveATrail<Sig, Ev>(
      w: World<Sig, Ev>, s: State<Sig, Ev>, hits: seq<Detection>, calls: seq<Call>, n: nat, start: real, dt: real,
      adaptive: bool)
    returns (trail: seq<State<Sig, Ev>>)
    requires n <= |hits| && AreCalls(calls, hits, start, dt, adaptive)
    ensures ActInTurn(w, hits, n, start, dt, adaptive, trail) && trail[0] == s && trail[n] == ActAll(w, s, calls[..n])
    ensures ActionsRecorded(s, trail[n], hits, n, start, dt, adaptive)
    decreases n
  {
    if n == 0 {
      trail := [s];
    } else {
      var k := n - 1;
      var front := ActionsLeaveATrail(w, s, hits, calls, k, start, dt, adaptive);
      assert calls[..n][..k] == calls[..k] && calls[..n][k] == calls[k];
      var last := Act(w, front[k], calls[k].event, calls[k].time);
      assert ActsOn(w, hits[k].event, TimeTold(hits, k, start, dt, adaptive), front[k], last);
      RecordedSnoc(w, s, front[k], last, hits, k, start, dt, adaptive);
      trail := front + [last];
      forall i: nat | i < n
        ensures ActsOn(w, hits[i].event, TimeTold(hits, i, start, dt, adaptive), trail[i], trail[i + 1])
      {
        if i < k { assert trail[i] == front[i] && trail[i + 1] == front[i + 1]; }
      }
    }
  }

  /** What resolving without sending back is, from what was found. */
  lemma {:induction false} ResolvedIs<Sig, Ev>(
      w: World<Sig, Ev>, s: State<Sig, Ev>, dt: real, adaptive: bool, force: bool, end: real, hits: seq<Detection>,
      atEnd: bool)
    requires ResolveEvents(w, s, dt, adaptive, force).retry.None?
    requires end == s.time + dt && hits == Detected(w, s, end) && atEnd == ReachesAll(hits, adaptive)
    ensures ResolveEvents(w, s, dt, adaptive, force).state ==
            if hits == [] then Detect(w, s, end)
            else Update(w, ActAll(w, Detect(w, s, end), Calls(hits, s.time, dt, atEnd)), end)
  {
    FirstFarIs(hits);
    assert StepEnd(s, dt) == end;
    assert atEnd == (adaptive && FirstFar(hits).None?);
  }

  lemma {:induction false} HitsLeaveATrail<Sig, Ev>(
      w: World<Sig, Ev>, d: State<Sig, Ev>, hits: seq<Detection>, start: real, dt: real, adaptive: bool, atEnd: bool)
    returns (trail: seq<State<Sig, Ev>>)
    requires atEnd == ReachesAll(hits, adaptive)
    ensures ActInTurn(w, hits, |hits|, start, dt, adaptive, trail) && trail[0] == d
    ensures trail[|hits|] == ActAll(w, d, Calls(hits, start, dt, atEnd))
    ensures ActionsRecorded(d, trail[|hits|], hits, |hits|, start, dt, adaptive)
  {
    CallsAre(hits, start, dt, adaptive, atEnd);
    var calls := Calls(hits, start, dt, atEnd);
    trail := ActionsLeaveATrail(w, d, hits, calls, |hits|, start, dt, adaptive);
    assert calls[..|hits|] == calls;
  }

  /** What was known before the events, and what the update afterwards cannot reach. */
  lemma {:induction false} UpdateKeepsTheRecord<Sig, Ev>(
      w: World<Sig, Ev>, s: State<Sig, Ev>, d: State<Sig, Ev>, acted: State<Sig, Ev>, r: State<Sig, Ev>, end: real,
      hits: seq<Detection>, dt: real, adaptive: bool)
    requires d.actions == s.actions && ActionsRecorded(d, acted, hits, |hits|, s.time, dt, adaptive)
    requires r == acted || r == Update(w, acted, end)
    ensures ActionsRecorded(s, r, hits, |hits|, s.time, dt, adaptive)
  {
    assert r.actions == acted.actions;
  }

  /** Events that are not sent back act, all of them and no other: those that active events report at the end of the
      step, in order of their crossings, each once, each told its time, each on the state the one before has left; then
      the system is evaluated again. */
  lemma {:induction false} EventsActInTurn<Sig, Ev>(
      w: World<Sig, Ev>, s: State<Sig, Ev>, dt: real, adaptive: bool, force: bool, end: real, r: State<Sig, Ev>)
    returns (hits: seq<Detection>, trail: seq<State<Sig, Ev>>)
    requires ResolveEvents(w, s, dt, adaptive, force) == Resolution(r, None) && end == s.time + dt
    ensures multiset(hits) == AllReports(w, s, end) && Chronological(hits)
    ensures ActInTurn(w, hits, |hits|, s.time, dt, adaptive, trail)
    ensures Watched(w, s, end, trail[0])
    ensures if hits == [] then r == trail[0] else Refreshed(w, trail[|hits|], end, r)
    ensures ActionsRecorded(s, r, hits, |hits|, s.time, dt, adaptive)
  {
    hits := Detected(w, s, end);
    var d := Detect(w, s, end);
    var atEnd: bool := ReachesAll(hits, adaptive);
    DetectionIsComplete(w, s, end);
    DetectWatches(w, s, end);
    ResolvedIs(w, s, dt, adaptive, force, end, hits, atEnd);
    trail := HitsLeaveATrail(w, d, hits, s.time, dt, adaptive, atEnd);
    UpdateRefreshes(w, trail[|hits|], end, r);
    UpdateKeepsTheRecord(w, s, d, trail[|hits|], r, end, hits, dt, adaptive);
  }

  lemma {:induction false} FarIsReported(hits: seq<Detection>, reports: multiset<Detection>)
    requires multiset(hits) == reports
    ensures AllClose(hits) <==> forall d | d in reports :: d.close
  {
    forall d | d in reports && AllClose(hits) ensures d.close {
      assert d in hits;
    }
    forall i | 0 <= i < |hits| && forall d | d in reports :: d.close ensures hits[i].close {
      assert hits[i] in multiset(hits);
    }
  }

  /** A step is sent back exactly if it is adaptive, not forced, and some event it found is not close. */
  lemma {:induction false} SentBackIff<Sig, Ev>(
      w: World<Sig, Ev>, s: State<Sig, Ev>, dt: real, adaptive: bool, force: bool, end: real)
    requires end == s.time + dt
    ensures ResolveEvents(w, s, dt, adaptive, force).retry.Some? <==>
            adaptive && !force && !forall d | d in AllReports(w, s, end) :: d.close
  {
    var hits := Detected(w, s, end);
    DetectionIsComplete(w, s, end);
    FirstFarIs(hits);
    FarIsReported(hits, AllReports(w, s, end));
    assert StepEnd(s, dt) == end;
  }
}

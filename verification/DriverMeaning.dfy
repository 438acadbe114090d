/** The emitted drivers said outright: what `<name>_step`, `<name>_run` and the adaptive loop do to an instance, in
    which order, and how large the error is that steers the loop (`emit_public_step`, `emit_fixed` and
    `emit_adaptive` in `src/codegen/solver.rs`). The stage kernel itself is described in `StageMeaning`. */
module DriverMeaning {
  import opened Ir
  import opened LuSolve
  import opened StepModel
  import opened FixedStep
  import opened StageMeaning
  import opened AdaptiveLoop
  import opened ErrorControl

  // ---------------------------------------------------------------------------------------
  // Events and outputs
  // ---------------------------------------------------------------------------------------

  /** The signals are computed anew, if the model has any. */
  ghost predicate OutputsRefreshed(code: Code, m: Snapshot, r: Snapshot) {
    && r == m.(sig := r.sig)
    && r.sig == if code.hasSig then code.outputs(m.world) else m.sig
  }

  /** The event bodies run at the current time, on fresh signals if one of them reads an input: they set states,
      memories and counters and nothing else. A model without events is left alone. */
  ghost predicate EventsHandled(code: Code, m: Snapshot, dt: real, r: Snapshot) {
    if !code.hasEvents then r == m
    else
      && r.sig == (if code.needSig && code.hasSig then code.outputs(m.world) else m.sig)
      && var h := code.events(m.world, r.sig, m.counters, dt);
         r.world == m.world.(x := h.x, mem := h.mem) && r.counters == h.counters && r.started == m.started
  }

  lemma {:induction false} RefreshIs(code: Code, m: Snapshot)
    ensures OutputsRefreshed(code, m, Refresh(code, m))
  {
  }

  lemma {:induction false} EventsAre(code: Code, m: Snapshot, dt: real)
    ensures EventsHandled(code, m, dt, Events(code, m, dt))
  {
  }

  // ---------------------------------------------------------------------------------------
  // Fixed steps
  // ---------------------------------------------------------------------------------------

  /** The initial events have run and are not due again; a model without events does not keep that in mind. */
  ghost predicate InitialHandled(code: Code, m: Snapshot, dt: real, r: Snapshot) {
    exists h: Snapshot {:trigger EventsHandled(code, m, dt, h)} ::
      EventsHandled(code, m, dt, h) && r == h.(started := m.started || code.hasEvents)
  }

  lemma {:induction false} StartedIs(code: Code, m: Snapshot, dt: real)
    ensures InitialHandled(code, m, dt, Started(code, m, dt))
  {
    EventsAre(code, m, dt);
    assert EventsHandled(code, m, dt, Events(code, m, dt));
  }

  /** One step: the initial events if they are still due, the stages, the events at the new time, the outputs. */
  ghost predicate Stepped(code: Code, m: Snapshot, dt: real, begun: Snapshot, acted: Snapshot, r: Snapshot)
    requires CodeOk(code)
  {
    && (if m.started then begun == m else InitialHandled(code, m, dt, begun))
    && EventsHandled(code, Kernel(code, begun, dt), dt, acted)
    && OutputsRefreshed(code, acted, r)
  }

  lemma {:induction false} StepIs(code: Code, m: Snapshot, dt: real, r: Snapshot)
    returns (begun: Snapshot, acted: Snapshot)
    requires CodeOk(code) && r == StepOf(code, m, dt)
    ensures Stepped(code, m, dt, begun, acted, r)
  {
    begun := Begun(code, m, dt);
    StartedIs(code, m, dt);
    acted := Advance(code, begun, dt);
    EventsAre(code, Kernel(code, begun, dt), dt);
    RefreshIs(code, acted);
  }

  /** `trail` is the instance before, between and after the turns of a loop of kernel and events. */
  ghost predicate Looped(code: Code, dt: real, trail: seq<Snapshot>, n: nat)
    requires CodeOk(code)
  {
    |trail| == n + 1 && forall k: nat {:trigger trail[k]} | k < n ::
      EventsHandled(code, Kernel(code, trail[k], dt), dt, trail[k + 1])
  }

  lemma {:induction false} OneMoreTurn(
      code: Code, dt: real, trail: seq<Snapshot>, n: nat, before: Snapshot, r: Snapshot)
    requires CodeOk(code) && Looped(code, dt, trail, n) && trail[n] == before
    requires EventsHandled(code, Kernel(code, before, dt), dt, r)
    ensures Looped(code, dt, trail + [r], n + 1)
  {
    var all := trail + [r];
    forall k: nat | k < n + 1 ensures EventsHandled(code, Kernel(code, all[k], dt), dt, all[k + 1]) {
      if k < n { assert all[k] == trail[k] && all[k + 1] == trail[k + 1]; }
    }
  }

  lemma {:induction false} AdvanceHandles(code: Code, m: Snapshot, dt: real, r: Snapshot)
    requires CodeOk(code) && r == Advance(code, m, dt)
    ensures EventsHandled(code, Kernel(code, m, dt), dt, r)
  {
    EventsAre(code, Kernel(code, m, dt), dt);
  }

  lemma {:induction false} AdvancesUnfold(
      code: Code, m: Snapshot, dt: real, n: nat, before: Snapshot, r: Snapshot)
    requires CodeOk(code) && n > 0 && before == AdvanceN(code, m, dt, n - 1) && r == AdvanceN(code, m, dt, n)
    ensures r == Advance(code, before, dt)
  {
  }

  lemma {:induction false} AdvancesLoop(code: Code, m: Snapshot, dt: real, n: nat, r: Snapshot)
    returns (trail: seq<Snapshot>)
    requires CodeOk(code) && r == AdvanceN(code, m, dt, n)
    ensures Looped(code, dt, trail, n) && trail[0] == m && trail[n] == r
    decreases n
  {
    if n == 0 {
      trail := [m];
    } else {
      var before := AdvanceN(code, m, dt, n - 1);
      AdvancesUnfold(code, m, dt, n, before, r);
      AdvanceHandles(code, before, dt, r);
      trail := AdvancesLoop(code, m, dt, n - 1, before);
      OneMoreTurn(code, dt, trail, n - 1, before, r);
      trail := trail + [r];
    }
  }

  /** A run: the initial events, whether or not they have run before, the loop, and one computation of the outputs. */
  lemma {:induction false} RunIs(code: Code, m: Snapshot, dt: real, n: nat, r: Snapshot)
    returns (trail: seq<Snapshot>)
    requires CodeOk(code) && r == RunOf(code, m, dt, n)
    ensures Looped(code, dt, trail, n) && InitialHandled(code, m, dt, trail[0]) && OutputsRefreshed(code, trail[n], r)
  {
    var begun := Started(code, m, dt);
    StartedIs(code, m, dt);
    var last := AdvanceN(code, begun, dt, n);
    trail := AdvancesLoop(code, begun, dt, n, last);
    RefreshIs(code, last);
  }

  // ---------------------------------------------------------------------------------------
  // Adaptive steps
  // ---------------------------------------------------------------------------------------

  /** The error of a trial from `m` over `hh` is the norm over the states and slopes of its stages. */
  lemma {:induction false} TrialErrorIsNorm(code: Code, c: Control, m: Snapshot, hh: real, err: real)
    requires CodeOk(code) && ControlOk(code, c) && err == ErrorOf(code, c, m, hh)
    ensures var (after, ks) := StagesTo(code, m, hh, |code.tableau.a|);
            IsNorm(c, after.world.x, ks, hh, |after.world.x|, err)
  {
    var (after, ks) := StagesTo(code, m, hh, |code.tableau.a|);
    ErrorIsNorm(c, after.world.x, ks, hh, |after.world.x|, err);
  }

  /** One turn of the adaptive loop with the step `hh`, which is cut to the end: an accepted trial is followed by the
      events and, unless it was cut, by a new step size; a rejected one puts states and clock back and retries with the
      new size. */
  ghost predicate Turned(code: Code, c: Control, s: Turn, tEnd: real, r: Turn, hh: real, accepted: bool)
    requires CodeOk(code) && ControlOk(code, c)
  {
    var cut := s.m.world.time + s.h >= tEnd;
    var next := Resized(c, hh, ErrorOf(code, c, s.m, hh));
    var trial := Kernel(code, s.m, hh);
    && hh == (if cut then tEnd - s.m.world.time else s.h)
    && (accepted ==> EventsHandled(code, trial, hh, r.m) && r.h == if cut then s.h else next)
    && (!accepted ==>
          r.m == trial.(world := trial.world.(x := s.m.world.x, time := s.m.world.time)) && r.h == next)
  }

  lemma {:induction false} TurnIs(code: Code, c: Control, s: Turn, tEnd: real, r: Turn, hh: real)
    requires CodeOk(code) && ControlOk(code, c) && r == Attempted(code, c, s, tEnd) && hh == Tried(s, tEnd)
    ensures Turned(code, c, s, tEnd, r, hh, Accepts(code, c, s, tEnd))
  {
    EventsAre(code, Kernel(code, s.m, hh), hh);
  }
}

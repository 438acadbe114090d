/** Time in an FMU block (`src/blocks/fmu.rs`): the list of announced time events, and the loop that drives a
    co-simulation FMU to a communication point through early returns (FMI 3.0, sections 2.3.1 and 4.2.4). */
module FmuStepping {
  import opened Wrappers

  const TOLERANCE := 0.0000000000000001

  // ---------------------------------------------------------------------------------------
  // Announced time events
  // ---------------------------------------------------------------------------------------

  ghost predicate Ascending(times: seq<real>) {
    forall i, j | 0 <= i < j < |times| :: times[i] <= times[j]
  }

  /** No two events within the tolerance. */
  ghost predicate Separated(times: seq<real>) {
    forall i, j | 0 <= i < j < |times| :: times[i] + TOLERANCE < times[j]
  }

  function Distance(a: real, b: real): real {
    if a < b then b - a else a - b
  }

  class TimeEvents {
    var times: seq<real>

    constructor ()
      ensures times == []
    {
      times := [];
    }

    /** How many leading entries lie before `bound`, by bisection. */
    method PartitionPoint(bound: real) returns (pos: nat)
      requires Ascending(times)
      ensures pos <= |times|
      ensures (forall i | 0 <= i < pos :: times[i] < bound) && (forall i | pos <= i < |times| :: bound <= times[i])
    {
      var lo, hi := 0, |times|;
      while lo < hi
        invariant 0 <= lo <= hi <= |times|
        invariant forall i | 0 <= i < lo :: times[i] < bound
        invariant forall i | hi <= i < |times| :: bound <= times[i]
      {
        var mid := (lo + hi) / 2;
        if times[mid] < bound {
          lo := mid + 1;
        } else {
          hi := mid;
        }
      }
      return lo;
    }

    /** Enter an announced time, unless an event within the tolerance is already there. Order and separation are
        kept, events clearly before the new one keep their place, and nothing is ever lost. */
    method Insert(t: real)
      requires Ascending(times)
      modifies this
      ensures Ascending(times) && (old(Separated(times)) ==> Separated(times)) && Near(times, t)
      ensures if old(Near(times, t)) then times == old(times)
              else exists pos: nat | pos <= |old(times)| :: times == old(times)[..pos] + [t] + old(times)[pos..]
      ensures forall k | 0 < k <= |old(times)| && old(times)[k - 1] < t - TOLERANCE :: times[..k] == old(times)[..k]
    {
      var pos := PartitionPoint(t - TOLERANCE);
      NearIsAt(times, pos, t);
      if pos < |times| && Distance(times[pos], t) <= TOLERANCE {
        return;
      }
      InsertedKeeps(times, pos, t);
      times := times[..pos] + [t] + times[pos..];
    }
  }

  /** Some event is within the tolerance of `t`. */
  ghost predicate Near(times: seq<real>, t: real) {
    exists i | 0 <= i < |times| :: Distance(times[i], t) <= TOLERANCE
  }

  ghost predicate Parts(times: seq<real>, pos: nat, t: real) {
    && pos <= |times|
    && (forall i | 0 <= i < pos :: times[i] < t - TOLERANCE)
    && (forall i | pos <= i < |times| :: t - TOLERANCE <= times[i])
  }

  /** If any event is near, the first one not clearly before it is. */
  lemma {:induction false} NearIsAt(times: seq<real>, pos: nat, t: real)
    requires Ascending(times) && Parts(times, pos, t)
    ensures Near(times, t) <==> pos < |times| && Distance(times[pos], t) <= TOLERANCE
  {
    if i :| 0 <= i < |times| && Distance(times[i], t) <= TOLERANCE {
      assert pos <= i;
      assert times[pos] <= times[i];
    }
  }

  lemma {:induction false} InsertedKeeps(times: seq<real>, pos: nat, t: real)
    requires Ascending(times) && Parts(times, pos, t) && !Near(times, t)
    ensures var r := times[..pos] + [t] + times[pos..];
            Ascending(r) && (Separated(times) ==> Separated(r)) && Near(r, t)
  {
    var r := times[..pos] + [t] + times[pos..];
    assert forall i | pos <= i < |times| :: t + TOLERANCE < times[i];
    assert r[pos] == t;
    forall i, j | 0 <= i < j < |r|
      ensures r[i] <= r[j] && (Separated(times) ==> r[i] + TOLERANCE < r[j])
    {
      var a, b := if i < pos then i else i - 1, if j < pos then j else j - 1;
      assert i != pos ==> r[i] == times[a];
      assert j != pos ==> r[j] == times[b];
    }
  }

  // ---------------------------------------------------------------------------------------
  // The co-simulation step
  // ---------------------------------------------------------------------------------------

  /** What the FMU answers to a step request. */
  datatype StepReply = StepReply(earlyReturn: bool, lastSuccessful: real, terminate: bool, eventNeeded: bool)

  /** An FMU with internal state `S`: a step is answered or fails; handling an event may end the simulation. */
  datatype Fmu<!S> = Fmu(step: (S, real, real) -> (S, Option<StepReply>), handleEvent: S -> (S, bool))

  /** A step that was requested, and the answer. */
  datatype Request = Request(from: real, size: real, reply: Option<StepReply>)

  datatype Exit = Reached | Terminated | Failed | Stalled

  function Advance(r: StepReply, current: real, remaining: real, earlyAllowed: bool): real {
    if earlyAllowed && r.earlyReturn then (if r.lastSuccessful - current > 0.0 then r.lastSuccessful - current else 0.0)
    else remaining
  }

  /** Where the time stands after a request. */
  function TimeAfter(q: Request, early: bool): real {
    match q.reply
    case None => q.from
    case Some(r) =>
      if early && r.earlyReturn then (if r.lastSuccessful > q.from then r.lastSuccessful else q.from)
      else q.from + q.size
  }

  /** The instance `before` was asked for the step `q`, gave its reply, and after handling the event it asked for, if
      event mode is used and it did not end the simulation, is `after`. */
  ghost predicate Answered<S>(fmu: Fmu<S>, eventMode: bool, before: S, q: Request, after: S) {
    var (stepped, reply) := fmu.step(before, q.from, q.size);
    && q.reply == reply
    && after == if reply.Some? && !reply.value.terminate && reply.value.eventNeeded && eventMode
                then fmu.handleEvent(stepped).0 else stepped
  }

  /** The reply, or the handling of the event it asked for, ends the simulation. */
  ghost predicate Ends<S>(fmu: Fmu<S>, eventMode: bool, before: S, q: Request) {
    && q.reply.Some?
    && (q.reply.value.terminate
        || (q.reply.value.eventNeeded && eventMode
            && fmu.handleEvent(fmu.step(before, q.from, q.size).0).1))
  }

  /** The requests from number `since` on were put to the instances `states`, one after the other. */
  ghost predicate Conversed<S>(fmu: Fmu<S>, eventMode: bool, requests: seq<Request>, since: nat, states: seq<S>) {
    && since <= |requests| && |states| == |requests| - since + 1
    && forall i {:trigger states[i]} | 0 <= i < |states| - 1 ::
         Answered(fmu, eventMode, states[i], requests[since + i], states[i + 1])
  }

  ghost predicate SomeEnds<S>(fmu: Fmu<S>, eventMode: bool, requests: seq<Request>, since: nat, states: seq<S>) {
    exists i {:trigger states[i]} :: 0 <= i < |states| - 1 && since + i < |requests|
      && Ends(fmu, eventMode, states[i], requests[since + i])
  }

  lemma {:induction false} OneMoreAnswer<S>(
      fmu: Fmu<S>, eventMode: bool, requests: seq<Request>, since: nat, states: seq<S>, q: Request, after: S)
    requires Conversed(fmu, eventMode, requests, since, states)
    requires Answered(fmu, eventMode, states[|states| - 1], q, after)
    ensures Conversed(fmu, eventMode, requests + [q], since, states + [after])
    ensures SomeEnds(fmu, eventMode, requests + [q], since, states + [after]) <==>
            SomeEnds(fmu, eventMode, requests, since, states) || Ends(fmu, eventMode, states[|states| - 1], q)
  {
    var qs, ss, n := requests + [q], states + [after], |states| - 1;
    forall i | 0 <= i < n + 1 ensures Answered(fmu, eventMode, ss[i], qs[since + i], ss[i + 1]) {
      if i < n { assert Answered(fmu, eventMode, states[i], requests[since + i], states[i + 1]); }
    }
    if SomeEnds(fmu, eventMode, requests, since, states) {
      var i :| 0 <= i < n && Ends(fmu, eventMode, states[i], requests[since + i]);
      assert Ends(fmu, eventMode, ss[i], qs[since + i]);
    }
    if Ends(fmu, eventMode, states[n], q) { assert Ends(fmu, eventMode, ss[n], qs[since + n]); }
    if SomeEnds(fmu, eventMode, qs, since, ss) {
      var i :| 0 <= i < n + 1 && Ends(fmu, eventMode, ss[i], qs[since + i]);
      if i < n { assert Ends(fmu, eventMode, states[i], requests[since + i]); }
    }
  }

  /** The requests from number `since` on: the first at time `from`, each where the one before it ended, each as
      long as was left to `t`; the last one ended at `now`. */
  ghost predicate Contiguous(early: bool, requests: seq<Request>, since: nat, from: real, now: real, t: real) {
    && since <= |requests|
    && (forall i | since <= i < |requests| :: requests[i].size == t - requests[i].from)
    && (|requests| > since ==> requests[since].from == from)
    && (forall i | since < i < |requests| :: requests[i].from == TimeAfter(requests[i - 1], early))
    && now == if |requests| == since then from else TimeAfter(requests[|requests| - 1], early)
  }

  lemma {:induction false} OneMoreRequest(
      early: bool, requests: seq<Request>, since: nat, from: real, now: real, t: real, q: Request)
    requires Contiguous(early, requests, since, from, now, t) && q.from == now && q.size == t - now
    ensures Contiguous(early, requests + [q], since, from, TimeAfter(q, early), t)
  {
    var all := requests + [q];
    forall i | since < i < |all| ensures all[i].from == TimeAfter(all[i - 1], early) {
      assert all[i - 1] == requests[i - 1];
    }
  }

  /** The requests to one instance after the other, in time and in what the FMU made of them. */
  ghost predicate Dialogue<S>(
      fmu: Fmu<S>, early: bool, eventMode: bool, requests: seq<Request>, since: nat, states: seq<S>, start: S,
      from: real, now: real, t: real)
  {
    && Contiguous(early, requests, since, from, now, t)
    && Conversed(fmu, eventMode, requests, since, states) && states[0] == start
  }

  lemma {:induction false} DialogueGoesOn<S>(
      fmu: Fmu<S>, early: bool, eventMode: bool, requests: seq<Request>, since: nat, states: seq<S>, start: S,
      from: real, now: real, t: real, q: Request, after: S)
    requires Dialogue(fmu, early, eventMode, requests, since, states, start, from, now, t)
    requires q.from == now && q.size == t - now && Answered(fmu, eventMode, states[|states| - 1], q, after)
    ensures Dialogue(fmu, early, eventMode, requests + [q], since, states + [after], start, from, TimeAfter(q, early),
                     t)
    ensures SomeEnds(fmu, eventMode, requests + [q], since, states + [after]) <==>
            SomeEnds(fmu, eventMode, requests, since, states) || Ends(fmu, eventMode, states[|states| - 1], q)
  {
    OneMoreRequest(early, requests, since, from, now, t, q);
    OneMoreAnswer(fmu, eventMode, requests, since, states, q, after);
  }

  /** How many more advances of at least `TOLERANCE` fit into `d`. */
  ghost function Room(d: real): nat {
    if d < TOLERANCE then 0 else (d / TOLERANCE).Floor
  }

  lemma {:induction false} RoomShrinks(d: real, advance: real)
    requires TOLERANCE <= d && TOLERANCE <= advance
    ensures Room(d - advance) < Room(d)
  {
    assert d / TOLERANCE >= 1.0;
    if d - advance >= TOLERANCE {
      assert (d - advance) / TOLERANCE <= d / TOLERANCE - 1.0;
    }
  }

  class CsBackend<S> {
    const fmu: Fmu<S>
    const earlyReturnAllowed: bool
    const eventModeUsed: bool
    var instance: S
    var currentTime: real
    var terminated: bool
    /** Every step requested so far. */
    ghost var requests: seq<Request>

    constructor (fmu: Fmu<S>, instance: S, earlyReturnAllowed: bool, eventModeUsed: bool)
      ensures this.fmu == fmu && this.earlyReturnAllowed == earlyReturnAllowed && this.eventModeUsed == eventModeUsed
      ensures currentTime == 0.0 && !terminated && requests == []
    {
      this.fmu, this.earlyReturnAllowed, this.eventModeUsed := fmu, earlyReturnAllowed, eventModeUsed;
      this.instance, currentTime, terminated, requests := instance, 0.0, false, [];
    }

    /** Drive the FMU to `t`. Every request starts where the last one ended and reaches for `t`; time never goes
        back; whatever the FMU answers, the loop ends, and short of `t` only for one of the stated reasons. Without
        early returns a single request covers all of the remaining time. `states` are the instances the requests were
        put to, and the one left. */
    method DoSteps(t: real) returns (exit: Exit, ghost states: seq<S>)
      modifies this
      ensures currentTime >= old(currentTime)
      ensures old(requests) <= requests
      ensures Dialogue(fmu, earlyReturnAllowed, eventModeUsed, requests, |old(requests)|, states, old(instance),
                       old(currentTime), currentTime, t)
      ensures instance == states[|states| - 1]
      ensures terminated <==> old(terminated) || SomeEnds(fmu, eventModeUsed, requests, |old(requests)|, states)
      ensures exit.Terminated? <==> terminated
      ensures exit.Reached? ==> t - currentTime < TOLERANCE
      ensures exit.Failed? ==> |requests| > |old(requests)| && requests[|requests| - 1].reply.None?
      ensures exit.Stalled? ==> |requests| > |old(requests)| && currentTime < requests[|requests| - 1].from + TOLERANCE
      ensures old(terminated) ==> requests == old(requests)
      ensures !earlyReturnAllowed ==> |requests| <= |old(requests)| + 1
                                      && (exit.Reached? && |requests| > |old(requests)| ==> currentTime == t)
    {
      states := [instance];
      while true
        invariant currentTime >= old(currentTime) && old(requests) <= requests
        invariant Dialogue(fmu, earlyReturnAllowed, eventModeUsed, requests, |old(requests)|, states, old(instance),
                           old(currentTime), currentTime, t)
        invariant instance == states[|states| - 1]
        invariant terminated <==> old(terminated) || SomeEnds(fmu, eventModeUsed, requests, |old(requests)|, states)
        invariant old(terminated) ==> requests == old(requests)
        invariant !earlyReturnAllowed && |requests| > |old(requests)| ==>
                  currentTime == t && |requests| == |old(requests)| + 1
        decreases !terminated, Room(t - currentTime)
      {
        if terminated {
          return Terminated, states;
        }
        var current := currentTime;
        var remaining := t - current;
        if remaining < TOLERANCE {
          return Reached, states;
        }
        var reply := StepOnce(current, remaining);
        ghost var q := Request(current, remaining, reply);
        DialogueGoesOn(
          fmu, earlyReturnAllowed, eventModeUsed, requests, |old(requests)|, states, old(instance), old(currentTime),
          current, t, q, instance);
        requests, states := requests + [q], states + [instance];
        if reply.None? {
          return Failed, states;
        }
        if reply.value.terminate {
          return Terminated, states;
        }
        var advance := currentTime - current;
        if advance < TOLERANCE {
          return if terminated then Terminated else Stalled, states;
        }
        RoomShrinks(remaining, advance);
      }
    }

    /** One step of the FMU, and what its reply brings about. */
    method StepOnce(from: real, size: real) returns (reply: Option<StepReply>)
      requires !terminated && currentTime == from
      modifies this`instance, this`currentTime, this`terminated
      ensures var q := Request(from, size, reply);
              && currentTime == TimeAfter(q, earlyReturnAllowed)
              && Answered(fmu, eventModeUsed, old(instance), q, instance)
              && (terminated <==> Ends(fmu, eventModeUsed, old(instance), q))
    {
      var stepped := fmu.step(instance, from, size);
      instance, reply := stepped.0, stepped.1;
      if reply.None? {
        return;
      }
      var r := reply.value;
      currentTime := from + Advance(r, from, size, earlyReturnAllowed);
      if r.terminate {
        terminated := true;
        return;
      }
      if r.eventNeeded && eventModeUsed {
        HandleEvent();
      }
    }

    method HandleEvent()
      modifies this`instance, this`terminated
      ensures var r := fmu.handleEvent(old(instance)); instance == r.0 && terminated == (old(terminated) || r.1)
    {
      var (next, ends) := fmu.handleEvent(instance);
      instance := next;
      if ends {
        terminated := true;
      }
    }
  }
}

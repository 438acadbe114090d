/** The bracketed root search of event localisation (`_localize_events_theta` in `src/simulation.rs`):
    regula falsi safeguarded by bisection, over any way of probing a position in the step. */
module Bracketing {
  import opened Wrappers
  import opened SimState

  const MAX_PROBES: nat := 32
  const THETA_MIN := 0.000001
  const THETA_EDGE := 0.000000001
  const THETA_WIDTH := 0.000000000001

  /** The bracket as it stood when `guess` was evaluated, and what was detected there. */
  datatype Probe = Probe(lo: real, guess: real, hi: real, hits: seq<Detection>)

  /** The state a probe leaves, its detections unless it failed, and the earliest event's secant estimate. */
  datatype Probing<S> = Probing(state: S, hits: Option<seq<Detection>>, secant: real)

  datatype Located<S> = Located(state: S, theta: Option<real>, probes: seq<Probe>)

  predicate AllClose(hits: seq<Detection>) {
    forall i | 0 <= i < |hits| :: hits[i].close
  }

  function Midpoint(lo: real, hi: real): real {
    0.5 * (lo + hi)
  }

  function Inside(lo: real, hi: real, v: real): real {
    if lo < v < hi then v else Midpoint(lo, hi)
  }

  /** What a probe leads to: a position to retry at, another probe, or giving up. */
  datatype Verdict = Accept | GiveUp | Next(lo: real, hi: real, guess: real)

  function Judge(p: Probe, secant: real): Verdict {
    if p.hits == [] then
      if p.hi - p.guess < THETA_WIDTH then GiveUp else Next(p.guess, p.hi, Midpoint(p.guess, p.hi))
    else if AllClose(p.hits) then Accept
    else if p.guess - p.lo < THETA_WIDTH then GiveUp
    else Next(p.lo, p.guess, Inside(p.lo, p.guess, secant))
  }

  /** At most `left` probes from this bracket on. */
  function Bracket<S>(probe: (S, real) -> Probing<S>, s: S, lo: real, hi: real, guess: real, left: nat): Located<S>
    decreases left, 1
  {
    if left == 0 then Located(s, None, []) else ProbeOnce(probe, s, lo, hi, guess, left)
  }

  function ProbeOnce<S>(probe: (S, real) -> Probing<S>, s: S, lo: real, hi: real, guess: real, left: nat): Located<S>
    requires left > 0
    decreases left, 0
  {
    var r := probe(s, guess);
    if r.hits.None? then Located(r.state, None, [])
    else
      var p := Probe(lo, guess, hi, r.hits.value);
      match Judge(p, r.secant)
      case Accept => Located(r.state, Some(guess), [p])
      case GiveUp => Located(r.state, None, [p])
      case Next(lo', hi', guess') => FirstProbe(p, Bracket(probe, r.state, lo', hi', guess', left - 1))
  }

  function FirstProbe<S>(p: Probe, rest: Located<S>): Located<S> {
    rest.(probes := [p] + rest.probes)
  }

  /** The same final state and finding. */
  ghost predicate SameFinding<S>(a: Located<S>, b: Located<S>) {
    a.state == b.state && a.theta == b.theta
  }

  /** How one probe continues the search. */
  lemma {:induction false} ProbeContinues<S>(
      probe: (S, real) -> Probing<S>, s: S, lo: real, hi: real, guess: real, left: nat)
    requires left > 0
    ensures var r, all := probe(s, guess), Bracket(probe, s, lo, hi, guess, left);
            if r.hits.None? then all.state == r.state && all.theta.None?
            else
              match Judge(Probe(lo, guess, hi, r.hits.value), r.secant)
              case Accept => all.state == r.state && all.theta == Some(guess)
              case GiveUp => all.state == r.state && all.theta.None?
              case Next(lo', hi', guess') => SameFinding(Bracket(probe, r.state, lo', hi', guess', left - 1), all)
  {
  }

  function Clamp(v: real, lo: real, hi: real): real {
    if v < lo then lo else if v > hi then hi else v
  }

  function FirstGuess(ratio: real): real {
    Clamp(ratio, THETA_MIN, 1.0 - THETA_EDGE)
  }

  // ---------------------------------------------------------------------------------------
  // The bracket
  // ---------------------------------------------------------------------------------------

  ghost predicate InBracket(p: Probe) {
    0.0 <= p.lo < p.guess < p.hi <= 1.0
  }

  /** The later bracket replaces one end of the earlier by its probe. */
  ghost predicate Nested(p: Probe, q: Probe) {
    || (q.lo == p.guess && q.hi == p.hi)
    || (q.lo == p.lo && q.hi == p.guess)
  }

  ghost predicate ProbesShrink(probes: seq<Probe>) {
    && (forall i | 0 <= i < |probes| :: InBracket(probes[i]))
    && (forall i | 0 < i < |probes| :: Nested(probes[i - 1], probes[i]))
  }

  ghost predicate Starts(probes: seq<Probe>, lo: real, guess: real, hi: real) {
    probes != [] ==> probes[0].lo == lo && probes[0].guess == guess && probes[0].hi == hi
  }

  /** Events were detected and all of them are close. */
  ghost predicate FoundClose(hits: seq<Detection>) {
    hits != [] && forall i {:trigger hits[i]} | 0 <= i < |hits| :: hits[i].close
  }

  /** The result is the last position probed if events were detected there and all were close. */
  ghost predicate FoundAt(probes: seq<Probe>, theta: Option<real>) {
    if |probes| > 0 && FoundClose(probes[|probes| - 1].hits) then theta == Some(probes[|probes| - 1].guess)
    else theta == None
  }

  ghost predicate GoodTrace(probes: seq<Probe>, theta: Option<real>, lo: real, guess: real, hi: real) {
    ProbesShrink(probes) && Starts(probes, lo, guess, hi) && FoundAt(probes, theta)
  }

  lemma {:induction false} InsideBetween(lo: real, hi: real, v: real)
    requires lo < hi
    ensures lo < Midpoint(lo, hi) < hi && lo < Inside(lo, hi, v) < hi
  {
  }

  /** The next bracket keeps its guess strictly inside and has the last guess as one end. */
  lemma {:induction false} JudgeShrinks(p: Probe, secant: real)
    requires InBracket(p)
    ensures var v := Judge(p, secant);
            && (v.Accept? <==> FoundClose(p.hits))
            && (v.Next? ==> var q := Probe(v.lo, v.guess, v.hi, []); InBracket(q) && Nested(p, q))
  {
    InsideBetween(p.guess, p.hi, secant);
    InsideBetween(p.lo, p.guess, secant);
  }

  lemma {:induction false} TraceGrows(p: Probe, secant: real, v: Verdict, rest: seq<Probe>, theta: Option<real>)
    requires InBracket(p) && v.Next? && v == Judge(p, secant)
    requires GoodTrace(rest, theta, v.lo, v.guess, v.hi)
    ensures GoodTrace([p] + rest, theta, p.lo, p.guess, p.hi)
  {
    JudgeShrinks(p, secant);
    var all := [p] + rest;
    forall i | 0 <= i < |all| ensures InBracket(all[i]) {
      if i > 0 { assert all[i] == rest[i - 1]; }
    }
    forall i | 0 < i < |all| ensures Nested(all[i - 1], all[i]) {
      assert all[i] == rest[i - 1];
      if i > 1 { assert all[i - 1] == rest[i - 2]; }
    }
    assert rest == [] ==> all[|all| - 1] == p;
    assert rest != [] ==> all[|all| - 1] == rest[|rest| - 1];
  }

  lemma {:induction false} BracketShrinks<S>(
      probe: (S, real) -> Probing<S>, s: S, lo: real, hi: real, guess: real, left: nat)
    requires InBracket(Probe(lo, guess, hi, []))
    ensures var r := Bracket(probe, s, lo, hi, guess, left);
            |r.probes| <= left && GoodTrace(r.probes, r.theta, lo, guess, hi)
    decreases left
  {
    if left > 0 && probe(s, guess).hits.Some? {
      var q := probe(s, guess);
      var p := Probe(lo, guess, hi, q.hits.value);
      var v := Judge(p, q.secant);
      JudgeShrinks(p, q.secant);
      if v.Next? {
        BracketShrinks(probe, q.state, v.lo, v.hi, v.guess, left - 1);
        var rest := Bracket(probe, q.state, v.lo, v.hi, v.guess, left - 1);
        TraceGrows(p, q.secant, v, rest.probes, rest.theta);
        assert Bracket(probe, s, lo, hi, guess, left) == FirstProbe(p, rest);
      } else {
        assert Bracket(probe, s, lo, hi, guess, left) ==
               Located(q.state, if v.Accept? then Some(guess) else None, [p]);
      }
    }
  }

  /** What every probe keeps, the whole search keeps. */
  lemma {:induction false} BracketKeeps<S(!new)>(
      inv: S -> bool, probe: (S, real) -> Probing<S>, s: S, lo: real, hi: real, guess: real, left: nat)
    requires inv(s) && forall a, g {:trigger probe(a, g)} :: inv(a) ==> inv(probe(a, g).state)
    ensures inv(Bracket(probe, s, lo, hi, guess, left).state)
    decreases left
  {
    if left > 0 && probe(s, guess).hits.Some? {
      var q := probe(s, guess);
      var v := Judge(Probe(lo, guess, hi, q.hits.value), q.secant);
      if v.Next? {
        BracketKeeps(inv, probe, q.state, v.lo, v.hi, v.guess, left - 1);
      }
    }
  }

  // ---------------------------------------------------------------------------------------
  // The search as a whole
  // ---------------------------------------------------------------------------------------

  /** Where the search looks after `p`: behind it halfway to the end if nothing was detected there, otherwise before
      it, at the secant estimate if that lies in the bracket and halfway if not. */
  ghost predicate Follows(p: Probe, secant: real, q: Probe) {
    if p.hits == [] then q.lo == p.guess && q.hi == p.hi && 2.0 * q.guess == q.lo + q.hi
    else
      && q.lo == p.lo && q.hi == p.guess
      && (q.lo < secant < q.hi ==> q.guess == secant)
      && (!(q.lo < secant < q.hi) ==> 2.0 * q.guess == q.lo + q.hi)
  }

  /** A probe that ends the search: it found events and all are close, or what is left of the bracket is too narrow. */
  ghost predicate Ends(p: Probe) {
    || FoundClose(p.hits)
    || (if p.hits == [] then p.hi - p.guess < 0.000000000001 else p.guess - p.lo < 0.000000000001)
  }

  /** Probe `k` looks at `q` if it comes first there or follows the one before. */
  ghost predicate LooksAt<S>(
      probe: (S, real) -> Probing<S>, at: seq<S>, probes: seq<Probe>, k: nat, first: Probe, q: Probe)
    requires k <= |probes| <= |at|
  {
    if k == 0 then q.lo == first.lo && q.hi == first.hi && q.guess == first.guess
    else Follows(probes[k - 1], probe(at[k - 1], probes[k - 1].guess).secant, q)
  }

  /** How the search went: `at` is the state before each of the `probes` and after the last; `failed` is the probe
      that could not be made, if there was one. */
  ghost predicate Searched<S>(
      probe: (S, real) -> Probing<S>, s: S, first: Probe, left: nat, r: Located<S>, at: seq<S>, failed: Option<Probe>)
  {
    var n := |r.probes|;
    && |at| == n + 1 && at[0] == s && n <= left
    && (forall k: nat {:trigger r.probes[k]} | k < n ::
          && LooksAt(probe, at, r.probes, k, first, r.probes[k])
          && probe(at[k], r.probes[k].guess).hits == Some(r.probes[k].hits)
          && probe(at[k], r.probes[k].guess).state == at[k + 1]
          && (Ends(r.probes[k]) ==> k == n - 1 && failed.None?))
    && match failed
       case None => r.state == at[n] && (n == left || (n > 0 && Ends(r.probes[n - 1])))
       case Some(q) =>
         && n < left && LooksAt(probe, at, r.probes, n, first, q)
         && probe(at[n], q.guess).hits.None? && r.state == probe(at[n], q.guess).state
  }

  lemma {:induction false} JudgedIs(p: Probe, secant: real)
    ensures var v := Judge(p, secant);
            && (v.Next? <==> !Ends(p))
            && (v.Next? ==> Follows(p, secant, Probe(v.lo, v.guess, v.hi, [])))
  {
  }

  lemma {:induction false} SearchGrows<S>(
      probe: (S, real) -> Probing<S>, s: S, p: Probe, first: Probe, left: nat, rest: Located<S>, at: seq<S>,
      failed: Option<Probe>)
    requires left > 0 && probe(s, p.guess).hits == Some(p.hits) && !Ends(p)
    requires Follows(p, probe(s, p.guess).secant, first)
    requires Searched(probe, probe(s, p.guess).state, first, left - 1, rest, at, failed)
    ensures Searched(probe, s, p, left, FirstProbe(p, rest), [s] + at, failed)
  {
    var r, all := FirstProbe(p, rest), [s] + at;
    forall k: nat | k < |r.probes|
      ensures LooksAt(probe, all, r.probes, k, p, r.probes[k])
      ensures probe(all[k], r.probes[k].guess).hits == Some(r.probes[k].hits)
      ensures probe(all[k], r.probes[k].guess).state == all[k + 1]
      ensures Ends(r.probes[k]) ==> k == |r.probes| - 1 && failed.None?
    {
      if k > 0 {
        assert r.probes[k] == rest.probes[k - 1] && all[k] == at[k - 1] && all[k + 1] == at[k];
        if k > 1 { assert r.probes[k - 1] == rest.probes[k - 2] && all[k - 1] == at[k - 2]; }
      }
    }
    if failed.Some? && |rest.probes| > 0 {
      assert r.probes[|r.probes| - 1] == rest.probes[|rest.probes| - 1];
      assert all[|r.probes| - 1] == at[|rest.probes| - 1];
    }
  }

  lemma {:induction false} SearchFails<S>(
      probe: (S, real) -> Probing<S>, s: S, first: Probe, left: nat, r: Located<S>)
    requires left > 0 && probe(s, first.guess).hits.None?
    requires r == Bracket(probe, s, first.lo, first.hi, first.guess, left)
    ensures Searched(probe, s, first, left, r, [s], Some(first))
  {
  }

  lemma {:induction false} SearchStops<S>(
      probe: (S, real) -> Probing<S>, s: S, p: Probe, left: nat, r: Located<S>, q: S)
    requires left > 0 && probe(s, p.guess).hits == Some(p.hits) && probe(s, p.guess).state == q && Ends(p)
    requires r.probes == [p] && r.state == q
    ensures Searched(probe, s, p, left, r, [s, q], None)
  {
  }

  /** The verdict on the first probe decides how the search goes on. */
  lemma {:induction false} SearchUnfolds<S>(
      probe: (S, real) -> Probing<S>, s: S, lo: real, hi: real, guess: real, left: nat, q: Probing<S>, p: Probe,
      v: Verdict, r: Located<S>)
    requires left > 0 && q == probe(s, guess) && q.hits == Some(p.hits)
    requires p == Probe(lo, guess, hi, p.hits) && v == Judge(p, q.secant)
    requires r == Bracket(probe, s, lo, hi, guess, left)
    ensures v.Next? ==> r == FirstProbe(p, Bracket(probe, q.state, v.lo, v.hi, v.guess, left - 1))
    ensures !v.Next? ==> r == Located(q.state, if v.Accept? then Some(guess) else None, [p])
  {
  }

  /** Whether hits were seen or not, the first probe of a search is the same. */
  lemma {:induction false} SearchedFrom<S>(
      probe: (S, real) -> Probing<S>, s: S, p: Probe, first: Probe, left: nat, r: Located<S>, at: seq<S>,
      failed: Option<Probe>)
    requires Searched(probe, s, p, left, r, at, failed) && first == p.(hits := [])
    ensures Searched(probe, s, first, left, r, at, failed)
  {
    forall k: nat | k < |r.probes| ensures LooksAt(probe, at, r.probes, k, first, r.probes[k]) {
      assert LooksAt(probe, at, r.probes, k, p, r.probes[k]);
    }
  }

  lemma {:induction false} SearchGoesOn<S>(
      probe: (S, real) -> Probing<S>, s: S, first: Probe, left: nat, q: Probing<S>, p: Probe, v: Verdict,
      next: Probe, r: Located<S>, rest: Located<S>, at: seq<S>, failed: Option<Probe>)
    requires left > 0 && q == probe(s, first.guess) && q.hits.Some? && p == first.(hits := q.hits.value)
    requires first.hits == [] && v == Judge(p, q.secant) && v.Next? && next == Probe(v.lo, v.guess, v.hi, [])
    requires rest == Bracket(probe, q.state, next.lo, next.hi, next.guess, left - 1)
    requires Searched(probe, q.state, next, left - 1, rest, at, failed)
    requires r == Bracket(probe, s, first.lo, first.hi, first.guess, left)
    ensures Searched(probe, s, first, left, r, [s] + at, failed)
  {
    JudgedIs(p, q.secant);
    SearchGrows(probe, s, p, next, left, rest, at, failed);
    SearchUnfolds(probe, s, p.lo, p.hi, p.guess, left, q, p, v, r);
    SearchedFrom(probe, s, p, first, left, FirstProbe(p, rest), [s] + at, failed);
  }

  lemma {:induction false} SearchIsOver<S>(
      probe: (S, real) -> Probing<S>, s: S, first: Probe, left: nat, q: Probing<S>, p: Probe, v: Verdict,
      r: Located<S>)
    requires left > 0 && q == probe(s, first.guess) && q.hits.Some? && p == first.(hits := q.hits.value)
    requires first.hits == [] && v == Judge(p, q.secant) && !v.Next?
    requires r == Bracket(probe, s, first.lo, first.hi, first.guess, left)
    ensures Searched(probe, s, first, left, r, [s, q.state], None)
  {
    JudgedIs(p, q.secant);
    SearchUnfolds(probe, s, p.lo, p.hi, p.guess, left, q, p, v, r);
    SearchStops(probe, s, p, left, r, q.state);
    SearchedFrom(probe, s, p, first, left, r, [s, q.state], None);
  }

  /** Every search goes this way, and no other. */
  lemma {:induction false} SearchIs<S>(
      probe: (S, real) -> Probing<S>, s: S, first: Probe, left: nat, r: Located<S>)
    returns (at: seq<S>, failed: Option<Probe>)
    requires first.hits == [] && r == Bracket(probe, s, first.lo, first.hi, first.guess, left)
    ensures Searched(probe, s, first, left, r, at, failed)
    decreases left
  {
    if left == 0 {
      at, failed := [s], None;
    } else if probe(s, first.guess).hits.None? {
      at, failed := [s], Some(first);
      SearchFails(probe, s, first, left, r);
    } else {
      var q := probe(s, first.guess);
      var p := first.(hits := q.hits.value);
      var v := Judge(p, q.secant);
      if v.Next? {
        var next := Probe(v.lo, v.guess, v.hi, []);
        var rest := Bracket(probe, q.state, next.lo, next.hi, next.guess, left - 1);
        at, failed := SearchIs(probe, q.state, next, left - 1, rest);
        SearchGoesOn(probe, s, first, left, q, p, v, next, r, rest, at, failed);
        at := [s] + at;
      } else {
        at, failed := [s, q.state], None;
        SearchIsOver(probe, s, first, left, q, p, v, r);
      }
    }
  }
}

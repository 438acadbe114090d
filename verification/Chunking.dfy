/** A loop cut into chunks: each chunk runs the same step while its own limit and the loop's condition hold. */
module Chunking {
  import opened Iteration

  /** The loop `while goes(x) { x := step(x); }` from `x` takes exactly `n` steps. */
  ghost predicate Takes<S>(step: S -> S, goes: S -> bool, x: S, n: nat) {
    && !goes(Iterate(step, x, n))
    && forall k: nat {:trigger Iterate(step, x, k)} | k < n :: goes(Iterate(step, x, k))
  }

  function Both<S>(p: S -> bool, q: S -> bool): S -> bool {
    x => p(x) && q(x)
  }

  /** Successive chunks, each up to its own limit and starting where the one before it stopped, `n` steps in all. */
  ghost predicate Chunked<S>(step: S -> S, goes: S -> bool, limits: seq<S -> bool>, x: S, n: nat)
    decreases |limits|
  {
    if limits == [] then n == 0
    else exists m: nat {:trigger LastChunk(step, goes, limits[|limits| - 1], x, m, n)} ::
           Chunked(step, goes, limits[..|limits| - 1], x, m) && LastChunk(step, goes, limits[|limits| - 1], x, m, n)
  }

  ghost predicate LastChunk<S>(step: S -> S, goes: S -> bool, limit: S -> bool, x: S, m: nat, n: nat) {
    m <= n && Takes(step, Both(limit, goes), Iterate(step, x, m), n - m)
  }

  lemma {:induction false} OneMoreChunk<S>(
      step: S -> S, goes: S -> bool, limits: seq<S -> bool>, limit: S -> bool, x: S, m: nat, n: nat)
    requires Chunked(step, goes, limits, x, m) && LastChunk(step, goes, limit, x, m, n)
    ensures Chunked(step, goes, limits + [limit], x, n)
  {
    var all := limits + [limit];
    assert all[..|all| - 1] == limits && all[|all| - 1] == limit;
  }

  /** The chunks take steps of the unchunked loop and no others. */
  lemma {:induction false} ChunksFollowTheLoop<S>(step: S -> S, goes: S -> bool, limits: seq<S -> bool>, x: S, n: nat)
    requires Chunked(step, goes, limits, x, n)
    ensures forall k: nat {:trigger Iterate(step, x, k)} | k < n :: goes(Iterate(step, x, k))
    decreases |limits|
  {
    if limits != [] {
      var front, last := limits[..|limits| - 1], limits[|limits| - 1];
      var m: nat :| Chunked(step, goes, front, x, m) && LastChunk(step, goes, last, x, m, n);
      ChunksFollowTheLoop(step, goes, front, x, m);
      forall k: nat {:trigger Iterate(step, x, k)} | k < n ensures goes(Iterate(step, x, k)) {
        if k >= m {
          IterateAdds(step, x, m, k - m);
          assert Both(last, goes)(Iterate(step, Iterate(step, x, m), k - m));
        }
      }
    }
  }

  /** Chunking is invisible: if the last limit reaches as far as the loop itself, or the loop is over, the chunks
      have taken exactly the loop's steps. */
  lemma {:induction false} ChunkingIsInvisible<S(!new)>(
      step: S -> S, goes: S -> bool, limits: seq<S -> bool>, x: S, chunked: nat, n: nat)
    requires Takes(step, goes, x, n) && Chunked(step, goes, limits, x, chunked)
    requires !goes(Iterate(step, x, chunked))
             || (limits != [] && forall y {:trigger goes(y)} :: goes(y) ==> limits[|limits| - 1](y))
    ensures chunked == n
  {
    ChunksFollowTheLoop(step, goes, limits, x, chunked);
    if limits != [] {
      var last := limits[|limits| - 1];
      var m: nat :| Chunked(step, goes, limits[..|limits| - 1], x, m) && LastChunk(step, goes, last, x, m, chunked);
      IterateAdds(step, x, m, chunked - m);
      assert !Both(last, goes)(Iterate(step, x, chunked));
    }
    assert !goes(Iterate(step, x, chunked)) && !goes(Iterate(step, x, n));
  }

  lemma {:induction false} TakesRest<S>(step: S -> S, goes: S -> bool, x: S, m: nat, n: nat)
    requires m <= n && Takes(step, goes, x, n)
    ensures Takes(step, goes, Iterate(step, x, m), n - m)
  {
    IterateAdds(step, x, m, n - m);
    var y := Iterate(step, x, m);
    forall k: nat {:trigger Iterate(step, y, k)} | k < n - m ensures goes(Iterate(step, y, k)) {
      IterateAdds(step, x, m, k);
      assert goes(Iterate(step, x, m + k));
    }
  }

  /** A chunk of a loop that ends also ends, no later than the loop. */
  lemma {:induction false} ChunkEnds<S>(step: S -> S, goes: S -> bool, limit: S -> bool, x: S, n: nat) returns (m: nat)
    requires Takes(step, goes, x, n)
    ensures m <= n && Takes(step, Both(limit, goes), x, m)
  {
    m := 0;
    while m < n && Both(limit, goes)(Iterate(step, x, m))
      invariant m <= n
      invariant forall k: nat {:trigger Iterate(step, x, k)} | k < m :: Both(limit, goes)(Iterate(step, x, k))
    {
      m := m + 1;
    }
  }
}

/** Ordering the blocks of the algebraic pass (`topo_order` in `src/codegen/system.rs`). */
module TopoOrder {
  import opened Ir
  import opened FlatWires

  predicate HasFeedthrough(b: Block) {
    exists i :: 0 <= i < |b.alg.ops| && b.alg.ops[i].Input?
  }

  /** The blocks each block waits for. */
  type Deps = seq<set<nat>>

  /** A wire orders its ends if it feeds a block with direct feedthrough, other than its own source. */
  predicate Orders(w: FlatWire, blocks: seq<Block>)
    requires w.dst.block < |blocks|
  {
    w.src.block != w.dst.block && HasFeedthrough(blocks[w.dst.block])
  }

  ghost predicate WiresInRange(n: nat, wires: seq<FlatWire>) {
    forall w | w in wires :: w.src.block < n && w.dst.block < n
  }

  /** `deps` is exactly what the wires demand. */
  ghost predicate DependsOn(blocks: seq<Block>, wires: seq<FlatWire>, deps: Deps)
    requires WiresInRange(|blocks|, wires)
  {
    && |deps| == |blocks|
    && forall i, d {:trigger d in deps[i]} | 0 <= i < |deps| ::
         d in deps[i] <==> exists w :: w in wires && Orders(w, blocks) && w.dst.block == i && w.src.block == d
  }

  ghost predicate Distinct(order: seq<nat>) {
    forall i, j | 0 <= i < j < |order| :: order[i] != order[j]
  }

  ghost predicate Permutation(order: seq<nat>, n: nat) {
    && |order| == n && Distinct(order)
    && (forall i | 0 <= i < n :: order[i] < n)
    && (forall x: nat | x < n :: x in order)
  }

  /** Every block comes after everything it waits for. */
  ghost predicate Respects(order: seq<nat>, deps: Deps) {
    forall i {:trigger order[i]} | 0 <= i < |order| && order[i] < |deps| ::
      forall d | d in deps[order[i]] :: d in order[..i]
  }

  ghost predicate ValidOrder(order: seq<nat>, deps: Deps) {
    Permutation(order, |deps|) && Respects(order, deps)
  }

  /** The first difference, if any, is smaller. */
  ghost predicate LexAtMost(xs: seq<nat>, ys: seq<nat>) {
    xs == ys || exists k: nat :: k < |xs| && k < |ys| && xs[..k] == ys[..k] && xs[k] < ys[k]
  }

  predicate Ready(deps: Deps, done: set<nat>, i: nat)
    requires i < |deps|
  {
    i !in done && deps[i] <= done
  }

  ghost function Elements(order: seq<nat>): (s: set<nat>)
    ensures forall x :: x in s <==> x in order
  {
    set x | x in order
  }

  /** The state of the greedy loop: always the lowest ready block. */
  ghost predicate Greedy(order: seq<nat>, deps: Deps) {
    && Distinct(order) && (forall i | 0 <= i < |order| :: order[i] < |deps|)
    && forall k {:trigger order[k]} | 0 <= k < |order| ::
         && Ready(deps, Elements(order[..k]), order[k])
         && forall j | 0 <= j < order[k] :: !Ready(deps, Elements(order[..k]), j)
  }

  lemma {:induction false} GreedySnoc(order: seq<nat>, deps: Deps, next: nat)
    requires Greedy(order, deps) && next < |deps| && Ready(deps, Elements(order), next)
    requires forall j | 0 <= j < next :: !Ready(deps, Elements(order), j)
    ensures Greedy(order + [next], deps)
  {
    var more := order + [next];
    forall k | 0 <= k < |more|
      ensures Ready(deps, Elements(more[..k]), more[k])
      ensures forall j | 0 <= j < more[k] :: !Ready(deps, Elements(more[..k]), j)
    {
      assert more[..k] == order[..k];
      if k == |order| { assert order[..k] == order; } else { assert more[k] == order[k]; }
    }
  }

  lemma {:induction false} GreedyRespects(order: seq<nat>, deps: Deps)
    requires Greedy(order, deps)
    ensures Respects(order, deps)
  {
    forall i | 0 <= i < |order|
      ensures forall d | d in deps[order[i]] :: d in order[..i]
    {
      assert Ready(deps, Elements(order[..i]), order[i]);
    }
  }

  /** As long as some valid order continues this prefix differently, something is ready. */
  lemma {:induction false} SomethingIsReady(order: seq<nat>, deps: Deps, valid: seq<nat>) returns (i: nat)
    requires Greedy(order, deps) && ValidOrder(valid, deps) && |order| < |deps|
    ensures i < |deps| && Ready(deps, Elements(order), i)
  {
    var k := FirstOutside(order, valid);
    i := valid[k];
    forall d | d in deps[i] ensures d in Elements(order) {
      assert d in valid[..k];
    }
  }

  /** The first element of `valid` that `order` has not reached. */
  lemma {:induction false} FirstOutside(order: seq<nat>, valid: seq<nat>) returns (k: nat)
    requires |order| < |valid| && Distinct(valid)
    ensures k < |valid| && valid[k] !in order && forall x | x in valid[..k] :: x in order
  {
    k := 0;
    while k < |valid| && valid[k] in order
      invariant k <= |valid| && forall x | x in valid[..k] :: x in order
    {
      k := k + 1;
    }
    if k == |valid| {
      assert valid[..k] == valid;
      NoInjection(valid, order);
    }
  }

  lemma {:induction false} NoInjection(xs: seq<nat>, ys: seq<nat>)
    requires Distinct(xs) && (forall x | x in xs :: x in ys) && |ys| < |xs|
    ensures false
    decreases |xs|
  {
    var x := xs[|xs| - 1];
    assert x in xs;
    var j :| 0 <= j < |ys| && ys[j] == x;
    var xs1 := xs[..|xs| - 1];
    var ys1 := ys[..j] + ys[j + 1..];
    forall z | z in xs1 ensures z in ys1 {
      assert z in xs && z != x;
      var i :| 0 <= i < |ys| && ys[i] == z;
      if i < j { assert ys1[i] == z; } else { assert ys1[i - 1] == z; }
    }
    if |xs1| > 0 || |ys1| < |xs1| { NoInjection(xs1, ys1); }
  }

  /** A finished greedy order comes lexicographically first among all valid orders. */
  lemma {:induction false} GreedyIsLeast(order: seq<nat>, deps: Deps, valid: seq<nat>)
    requires Greedy(order, deps) && |order| == |deps| && ValidOrder(valid, deps)
    ensures LexAtMost(order, valid)
  {
    if order != valid {
      var k := FirstDifference(order, valid);
      var i := valid[k];
      assert order[..k] == valid[..k];
      assert Ready(deps, Elements(order[..k]), order[k]);
      assert i !in order[..k];
      assert Ready(deps, Elements(order[..k]), i);
    }
  }

  lemma {:induction false} FirstDifference(xs: seq<nat>, ys: seq<nat>) returns (k: nat)
    requires |xs| == |ys| && xs != ys
    ensures k < |xs| && xs[..k] == ys[..k] && xs[k] != ys[k]
  {
    k := 0;
    while k < |xs| && xs[k] == ys[k]
      invariant k <= |xs| && forall j | 0 <= j < k :: xs[j] == ys[j]
    {
      k := k + 1;
    }
  }

  lemma {:induction false} AllPresent(order: seq<nat>, n: nat)
    requires Distinct(order) && |order| == n && forall i | 0 <= i < n :: order[i] < n
    ensures forall x: nat | x < n :: x in order
  {
    forall x: nat | x < n ensures x in order {
      if x !in order {
        var others: seq<nat> := seq(n - 1, i requires 0 <= i < n - 1 => if i < x then i else i + 1);
        forall y | y in order ensures y in others {
          assert y != x && y < n;
          if y < x { assert others[y] == y; } else { assert others[y - 1] == y; }
        }
        NoInjection(order, others);
      }
    }
  }

  /** The identity order. */
  function Identity(n: nat): (order: seq<nat>)
    ensures |order| == n && forall i | 0 <= i < n :: order[i] == i
  {
    seq(n, i => i)
  }

  /** A permutation that fixes everything below `k` puts nothing smaller at `k`. */
  lemma {:induction false} FixedBelow(order: seq<nat>, n: nat, k: nat)
    requires Permutation(order, n) && k < n && order[..k] == Identity(n)[..k]
    ensures order[k] >= k
  {
    assert order[k] !in order[..k];
    if order[k] < k { InPrefix(n, k, order[k]); }
  }

  lemma {:induction false} InPrefix(n: nat, k: nat, j: nat)
    requires j < k <= n
    ensures j in Identity(n)[..k]
  {
    assert Identity(n)[..k][j] == j;
  }

  lemma {:induction false} NothingBeforeIdentity(order: seq<nat>, n: nat)
    requires Permutation(order, n) && LexAtMost(order, Identity(n))
    ensures order == Identity(n)
  {
    if order != Identity(n) {
      var k: nat :| k < n && order[..k] == Identity(n)[..k] && order[k] < Identity(n)[k];
      FixedBelow(order, n, k);
    }
  }

  // ---------------------------------------------------------------------------------------
  // The algorithm
  // ---------------------------------------------------------------------------------------

  method CollectDeps(blocks: seq<Block>, wires: seq<FlatWire>) returns (deps: Deps)
    requires WiresInRange(|blocks|, wires)
    ensures DependsOn(blocks, wires, deps)
  {
    deps := seq(|blocks|, _ => {});
    for q := 0 to |wires|
      invariant |deps| == |blocks|
      invariant forall i, d {:trigger d in deps[i]} | 0 <= i < |deps| ::
        d in deps[i] <==>
        exists r {:trigger wires[r]} ::
          0 <= r < q && Orders(wires[r], blocks) && wires[r].dst.block == i && wires[r].src.block == d
    {
      var w := wires[q];
      if Orders(w, blocks) {
        deps := deps[w.dst.block := deps[w.dst.block] + {w.src.block}];
      }
    }
    forall i, d | 0 <= i < |deps|
      ensures d in deps[i] <==> exists w :: w in wires && Orders(w, blocks) && w.dst.block == i && w.src.block == d
    {
      if d in deps[i] {
        var r :| 0 <= r < |wires| && Orders(wires[r], blocks) && wires[r].dst.block == i && wires[r].src.block == d;
        assert wires[r] in wires;
      }
    }
  }

  /** The lowest ready block. */
  method FindReady(deps: Deps, done: set<nat>) returns (found: bool, i: nat)
    ensures found ==> i < |deps| && Ready(deps, done, i) && forall j | 0 <= j < i :: !Ready(deps, done, j)
    ensures !found ==> forall j | 0 <= j < |deps| :: !Ready(deps, done, j)
  {
    i := 0;
    while i < |deps|
      invariant i <= |deps| && forall j | 0 <= j < i :: !Ready(deps, done, j)
    {
      if Ready(deps, done, i) {
        return true, i;
      }
      i := i + 1;
    }
    found := false;
  }

  /** Kahn's algorithm; blocks on a cycle are appended in index order. */
  method Order(blocks: seq<Block>, wires: seq<FlatWire>) returns (order: seq<nat>, ghost deps: Deps)
    requires WiresInRange(|blocks|, wires)
    ensures DependsOn(blocks, wires, deps)
    ensures Permutation(order, |blocks|)
    ensures (exists valid :: ValidOrder(valid, deps)) <==> ValidOrder(order, deps)
    ensures forall valid {:trigger ValidOrder(valid, deps)} | ValidOrder(valid, deps) :: LexAtMost(order, valid)
    ensures ValidOrder(Identity(|blocks|), deps) ==> order == Identity(|blocks|)
  {
    var ds := CollectDeps(blocks, wires);
    deps := ds;
    order := GreedyPrefix(ds);
    var n := |order|;
    order := AppendRest(order, |blocks|);
    if n == |blocks| {
      GreedyRespects(order, ds);
      forall valid | ValidOrder(valid, ds) ensures LexAtMost(order, valid) {
        GreedyIsLeast(order, ds, valid);
      }
      if ValidOrder(Identity(|blocks|), ds) { NothingBeforeIdentity(order, |blocks|); }
    }
  }

  /** Takes the lowest ready block as long as there is one. */
  method GreedyPrefix(deps: Deps) returns (order: seq<nat>)
    ensures Greedy(order, deps) && |order| <= |deps|
    ensures |order| < |deps| ==> forall valid {:trigger ValidOrder(valid, deps)} :: !ValidOrder(valid, deps)
  {
    order := [];
    var done: set<nat> := {};
    for k := 0 to |deps|
      invariant |order| == k && Greedy(order, deps) && done == Elements(order)
    {
      var found, i := FindReady(deps, done);
      if !found {
        forall valid | ValidOrder(valid, deps) ensures false {
          var j := SomethingIsReady(order, deps, valid);
        }
        return;
      }
      GreedySnoc(order, deps, i);
      assert Elements(order + [i]) == done + {i};
      done := done + {i};
      order := order + [i];
    }
  }

  method AppendRest(prefix: seq<nat>, n: nat) returns (order: seq<nat>)
    requires Distinct(prefix) && |prefix| <= n && forall i | 0 <= i < |prefix| :: prefix[i] < n
    ensures Permutation(order, n) && prefix <= order
    ensures |prefix| == n ==> order == prefix
  {
    order := prefix;
    for i := 0 to n
      invariant Distinct(order) && prefix <= order && forall q | 0 <= q < |order| :: order[q] < n
      invariant forall x: nat | x < i :: x in order
      invariant |prefix| == n ==> order == prefix
    {
      if i !in order {
        if |prefix| == n { AllPresent(prefix, n); }
        order := order + [i];
      }
    }
    DistinctIsShort(order, n);
    CoverIsLong(order, n);
  }

  lemma {:induction false} DistinctIsShort(order: seq<nat>, n: nat)
    requires Distinct(order) && forall q | 0 <= q < |order| :: order[q] < n
    ensures |order| <= n
  {
    if |order| > n {
      forall x | x in order ensures x in Identity(n) { assert Identity(n)[x] == x; }
      NoInjection(order, Identity(n));
    }
  }

  lemma {:induction false} CoverIsLong(order: seq<nat>, n: nat)
    requires forall x: nat | x < n :: x in order
    ensures |order| >= n
  {
    if |order| < n {
      NoInjection(Identity(n), order);
    }
  }
}

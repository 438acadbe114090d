/** Which source drives an element, read off a connection list: the first connection, target and
    position that address it (`find_producer` in `src/compile/flatten.rs`, `build_input_index` in
    `src/compile/splice.rs`). */
module Wiring {
  import opened Wrappers
  import opened Ir

  /** The producer of one element; `Iface` is the enclosing scope's own input. */
  datatype InputSrc = InputSrc(block: Ref, port: nat, elem: nat)

  type InputIndex = map<(Ref, nat, nat), InputSrc>

  /** `elems_or0`: a missing element list addresses element 0. */
  function ElemsOr0(elems: Option<seq<nat>>): seq<nat> {
    match elems
    case Some(es) => es
    case None => [0]
  }

  function ElemOr0(es: seq<nat>, j: nat): nat { if j < |es| then es[j] else 0 }

  /** The first position of `x`. */
  function Position(xs: seq<nat>, x: nat): (r: Option<nat>)
    ensures r.Some? ==> r.value < |xs| && xs[r.value] == x && x !in xs[..r.value]
    ensures r.None? ==> x !in xs
  {
    if xs == [] then None
    else
      var n := |xs| - 1;
      var before := Position(xs[..n], x);
      if before.Some? then (assert xs[..n][..before.value] == xs[..before.value]; before)
      else if xs[n] == x then Some(n)
      else (assert xs == xs[..n] + [xs[n]]; None)
  }

  /** Whether `t` addresses ports of `to` (any port when `port` is `None`). */
  predicate Addresses(t: PortRef, to: Ref, port: Option<nat>) {
    t.block == to && (port.Some? ==> t.port == port.value)
  }

  function SourceAt(src: PortRef, j: nat): InputSrc {
    InputSrc(src.block, src.port, ElemOr0(ElemsOr0(src.elems), j))
  }

  /** The source element paired with `elem` by the first of `targets` that addresses it. */
  function DriverOf(src: PortRef, targets: seq<PortRef>, to: Ref, port: Option<nat>, elem: nat): Option<InputSrc> {
    if targets == [] then None
    else
      var n := |targets| - 1;
      var before := DriverOf(src, targets[..n], to, port, elem);
      if before.Some? then before
      else if !Addresses(targets[n], to, port) then None
      else match Position(ElemsOr0(targets[n].elems), elem)
        case Some(j) => Some(SourceAt(src, j))
        case None => None
  }

  /** The source of the first connection that drives `elem` of `to`. */
  function FirstDriver(conns: seq<Connection>, to: Ref, port: Option<nat>, elem: nat): Option<InputSrc> {
    if conns == [] then None
    else
      var n := |conns| - 1;
      var before := FirstDriver(conns[..n], to, port, elem);
      if before.Some? then before
      else DriverOf(conns[n].src, conns[n].targets, to, port, elem)
  }

  lemma {:induction false} DriverOfReads(
      src: PortRef, targets: seq<PortRef>, to: Ref, port: Option<nat>, elem: nat)
    requires DriverOf(src, targets, to, port, elem).Some?
    ensures DriverOf(src, targets, to, port, elem).value.block == src.block
    ensures DriverOf(src, targets, to, port, elem).value.elem in [0] + ElemsOr0(src.elems)
  {
    var n := |targets| - 1;
    if DriverOf(src, targets[..n], to, port, elem).Some? {
      DriverOfReads(src, targets[..n], to, port, elem);
    }
  }

  lemma {:induction false} FirstDriverReads(conns: seq<Connection>, to: Ref, port: Option<nat>, elem: nat)
    requires FirstDriver(conns, to, port, elem).Some?
    ensures exists c :: 0 <= c < |conns|
              && FirstDriver(conns, to, port, elem).value.block == conns[c].src.block
              && FirstDriver(conns, to, port, elem).value.elem in [0] + ElemsOr0(conns[c].src.elems)
  {
    var n := |conns| - 1;
    if FirstDriver(conns[..n], to, port, elem).Some? {
      FirstDriverReads(conns[..n], to, port, elem);
      var c :| 0 <= c < n
        && FirstDriver(conns, to, port, elem).value.block == conns[..n][c].src.block
        && FirstDriver(conns, to, port, elem).value.elem in [0] + ElemsOr0(conns[..n][c].src.elems);
      assert conns[..n][c] == conns[c];
    } else {
      DriverOfReads(conns[n].src, conns[n].targets, to, port, elem);
    }
  }

  lemma {:induction false} FirstDriverSettles(
      conns: seq<Connection>, i: nat, to: Ref, port: Option<nat>, elem: nat)
    requires i <= |conns| && FirstDriver(conns[..i], to, port, elem).Some?
    ensures FirstDriver(conns, to, port, elem) == FirstDriver(conns[..i], to, port, elem)
    decreases |conns| - i
  {
    if i < |conns| {
      assert conns[..i + 1][..i] == conns[..i];
      FirstDriverSettles(conns, i + 1, to, port, elem);
    } else {
      assert conns[..i] == conns;
    }
  }

  lemma {:induction false} DriverOfSettles(
      src: PortRef, targets: seq<PortRef>, i: nat, to: Ref, port: Option<nat>, elem: nat)
    requires i <= |targets| && DriverOf(src, targets[..i], to, port, elem).Some?
    ensures DriverOf(src, targets, to, port, elem) == DriverOf(src, targets[..i], to, port, elem)
    decreases |targets| - i
  {
    if i < |targets| {
      assert targets[..i + 1][..i] == targets[..i];
      DriverOfSettles(src, targets, i + 1, to, port, elem);
    } else {
      assert targets[..i] == targets;
    }
  }

  /** `find_producer`'s search, with the early return at the first hit. */
  method FindDriver(conns: seq<Connection>, to: Ref, elem: nat) returns (r: Option<InputSrc>)
    ensures r == FirstDriver(conns, to, None, elem)
  {
    for i := 0 to |conns|
      invariant FirstDriver(conns[..i], to, None, elem) == None
    {
      assert conns[..i + 1][..i] == conns[..i];
      r := FindAmongTargets(conns[i].src, conns[i].targets, to, elem);
      if r.Some? {
        FirstDriverSettles(conns, i + 1, to, None, elem);
        return;
      }
    }
    assert conns[..|conns|] == conns;
    r := None;
  }

  /** The targets of one connection, in order. */
  method FindAmongTargets(src: PortRef, targets: seq<PortRef>, to: Ref, elem: nat) returns (r: Option<InputSrc>)
    ensures r == DriverOf(src, targets, to, None, elem)
  {
    for k := 0 to |targets|
      invariant DriverOf(src, targets[..k], to, None, elem) == None
    {
      var t := targets[k];
      assert targets[..k + 1][..k] == targets[..k];
      if t.block == to {
        match Position(ElemsOr0(t.elems), elem) {
          case Some(j) =>
            DriverOfSettles(src, targets, k + 1, to, None, elem);
            return Some(SourceAt(src, j));
          case None =>
        }
      }
    }
    assert targets[..|targets|] == targets;
    r := None;
  }

  /** The index holds exactly the first drivers of `conns`. */
  ghost predicate Indexes(idx: InputIndex, conns: seq<Connection>) {
    forall to: Ref, port: nat, elem: nat ::
      FirstDriver(conns, to, Some(port), elem) ==
      if (to, port, elem) in idx then Some(idx[(to, port, elem)]) else None
  }

  /** The first driver found in the first `i` connections, the first `k` targets of the next one,
      and the first `j` elements of the target after those. */
  function PartialDriver(
      conns: seq<Connection>, i: nat, k: nat, j: nat, to: Ref, port: Option<nat>, elem: nat): Option<InputSrc>
    requires i <= |conns|
    requires i < |conns| ==> k <= |conns[i].targets|
    requires i < |conns| && k < |conns[i].targets| ==> j <= |ElemsOr0(conns[i].targets[k].elems)|
  {
    var settled := FirstDriver(conns[..i], to, port, elem);
    if settled.Some? || i == |conns| then settled
    else
      var c := conns[i];
      var earlier := DriverOf(c.src, c.targets[..k], to, port, elem);
      if earlier.Some? || k == |c.targets| then earlier
      else if !Addresses(c.targets[k], to, port) then None
      else match Position(ElemsOr0(c.targets[k].elems)[..j], elem)
        case Some(p) => Some(SourceAt(c.src, p))
        case None => None
  }

  lemma {:induction false} PartialNextTarget(
      conns: seq<Connection>, i: nat, k: nat, to: Ref, port: Option<nat>, elem: nat)
    requires i < |conns| && k < |conns[i].targets|
    ensures PartialDriver(conns, i, k, |ElemsOr0(conns[i].targets[k].elems)|, to, port, elem) ==
            PartialDriver(conns, i, k + 1, 0, to, port, elem)
  {
    var c := conns[i];
    var es := ElemsOr0(c.targets[k].elems);
    assert es[..|es|] == es && c.targets[..k + 1][..k] == c.targets[..k];
    if k + 1 < |c.targets| {
      assert Position(ElemsOr0(c.targets[k + 1].elems)[..0], elem) == None;
    }
  }

  lemma {:induction false} PartialNextConnection(
      conns: seq<Connection>, i: nat, to: Ref, port: Option<nat>, elem: nat)
    requires i < |conns|
    ensures PartialDriver(conns, i, |conns[i].targets|, 0, to, port, elem) ==
            PartialDriver(conns, i + 1, 0, 0, to, port, elem)
  {
    var c := conns[i];
    assert c.targets[..|c.targets|] == c.targets && conns[..i + 1][..i] == conns[..i];
    if i + 1 < |conns| {
      assert DriverOf(conns[i + 1].src, conns[i + 1].targets[..0], to, port, elem) == None;
      if 0 < |conns[i + 1].targets| {
        assert Position(ElemsOr0(conns[i + 1].targets[0].elems)[..0], elem) == None;
      }
    }
  }

  lemma {:induction false} PartialIsWhole(conns: seq<Connection>, to: Ref, port: Option<nat>, elem: nat)
    ensures PartialDriver(conns, |conns|, 0, 0, to, port, elem) == FirstDriver(conns, to, port, elem)
    ensures PartialDriver(conns, 0, 0, 0, to, port, elem) == None
  {
    assert conns[..|conns|] == conns;
    if 0 < |conns| && 0 < |conns[0].targets| {
      assert Position(ElemsOr0(conns[0].targets[0].elems)[..0], elem) == None;
    }
  }

  /** The effect of one more element. */
  lemma {:induction false} PartialNextElem(
      conns: seq<Connection>, i: nat, k: nat, j: nat, to: Ref, port: Option<nat>, elem: nat)
    requires i < |conns| && k < |conns[i].targets| && j < |ElemsOr0(conns[i].targets[k].elems)|
    ensures PartialDriver(conns, i, k, j + 1, to, port, elem) ==
            var before := PartialDriver(conns, i, k, j, to, port, elem);
            if before.Some? then before
            else if Addresses(conns[i].targets[k], to, port) && ElemsOr0(conns[i].targets[k].elems)[j] == elem
            then Some(SourceAt(conns[i].src, j))
            else None
  {
    var es := ElemsOr0(conns[i].targets[k].elems);
    assert es[..j + 1][..j] == es[..j];
  }

  ghost predicate IndexesPartially(idx: InputIndex, conns: seq<Connection>, i: nat, k: nat, j: nat)
    requires i <= |conns|
    requires i < |conns| ==> k <= |conns[i].targets|
    requires i < |conns| && k < |conns[i].targets| ==> j <= |ElemsOr0(conns[i].targets[k].elems)|
  {
    forall to: Ref, port: nat, elem: nat {:trigger PartialDriver(conns, i, k, j, to, Some(port), elem)} ::
      PartialDriver(conns, i, k, j, to, Some(port), elem) ==
      if (to, port, elem) in idx then Some(idx[(to, port, elem)]) else None
  }

  lemma {:induction false} IndexStep(idx: InputIndex, conns: seq<Connection>, i: nat, k: nat, j: nat)
    requires i < |conns| && k < |conns[i].targets| && j < |ElemsOr0(conns[i].targets[k].elems)|
    requires IndexesPartially(idx, conns, i, k, j)
    ensures var t := conns[i].targets[k];
            var key := (t.block, t.port, ElemsOr0(t.elems)[j]);
            IndexesPartially(
              if key in idx then idx else idx[key := SourceAt(conns[i].src, j)], conns, i, k, j + 1)
  {
    var t := conns[i].targets[k];
    var key := (t.block, t.port, ElemsOr0(t.elems)[j]);
    var next := if key in idx then idx else idx[key := SourceAt(conns[i].src, j)];
    forall to: Ref, port: nat, elem: nat
      ensures PartialDriver(conns, i, k, j + 1, to, Some(port), elem) ==
              if (to, port, elem) in next then Some(next[(to, port, elem)]) else None
    {
      PartialNextElem(conns, i, k, j, to, Some(port), elem);
    }
  }

  lemma {:induction false} IndexNextTarget(idx: InputIndex, conns: seq<Connection>, i: nat, k: nat)
    requires i < |conns| && k < |conns[i].targets|
    requires IndexesPartially(idx, conns, i, k, |ElemsOr0(conns[i].targets[k].elems)|)
    ensures IndexesPartially(idx, conns, i, k + 1, 0)
  {
    forall to: Ref, port: nat, elem: nat
      ensures PartialDriver(conns, i, k + 1, 0, to, Some(port), elem) ==
              if (to, port, elem) in idx then Some(idx[(to, port, elem)]) else None
    {
      PartialNextTarget(conns, i, k, to, Some(port), elem);
    }
  }

  lemma {:induction false} IndexNextConnection(idx: InputIndex, conns: seq<Connection>, i: nat)
    requires i < |conns| && IndexesPartially(idx, conns, i, |conns[i].targets|, 0)
    ensures IndexesPartially(idx, conns, i + 1, 0, 0)
  {
    forall to: Ref, port: nat, elem: nat
      ensures PartialDriver(conns, i + 1, 0, 0, to, Some(port), elem) ==
              if (to, port, elem) in idx then Some(idx[(to, port, elem)]) else None
    {
      PartialNextConnection(conns, i, to, Some(port), elem);
    }
  }

  /** `build_input_index`: the first connection wins. */
  method BuildInputIndex(conns: seq<Connection>) returns (idx: InputIndex)
    ensures Indexes(idx, conns)
  {
    idx := map[];
    forall to: Ref, port: nat, elem: nat ensures PartialDriver(conns, 0, 0, 0, to, Some(port), elem) == None {
      PartialIsWhole(conns, to, Some(port), elem);
    }
    for i := 0 to |conns|
      invariant IndexesPartially(idx, conns, i, 0, 0)
    {
      var c := conns[i];
      for k := 0 to |c.targets|
        invariant IndexesPartially(idx, conns, i, k, 0)
      {
        var t := c.targets[k];
        var es := ElemsOr0(t.elems);
        for j := 0 to |es|
          invariant IndexesPartially(idx, conns, i, k, j)
        {
          IndexStep(idx, conns, i, k, j);
          var key := (t.block, t.port, es[j]);
          if key !in idx {
            idx := idx[key := SourceAt(c.src, j)];
          }
        }
        IndexNextTarget(idx, conns, i, k);
      }
      IndexNextConnection(idx, conns, i);
    }
    forall to: Ref, port: nat, elem: nat
      ensures FirstDriver(conns, to, Some(port), elem) ==
              if (to, port, elem) in idx then Some(idx[(to, port, elem)]) else None
    {
      PartialIsWhole(conns, to, Some(port), elem);
    }
  }

  // ---------------------------------------------------------------------------------------
  // At most one driver
  // ---------------------------------------------------------------------------------------

  /** Element `j` of target `k` of connection `i` is `elem` of `to`. */
  predicate Hits(conns: seq<Connection>, i: nat, k: nat, j: nat, to: Ref, elem: nat) {
    && i < |conns| && k < |conns[i].targets| && j < |ElemsOr0(conns[i].targets[k].elems)|
    && conns[i].targets[k].block == to && ElemsOr0(conns[i].targets[k].elems)[j] == elem
  }

  /** No element has two drivers. */
  ghost predicate DrivenOnce(conns: seq<Connection>) {
    forall i: nat, k: nat, j: nat, x: nat, y: nat, z: nat, to, elem
      {:trigger Hits(conns, i, k, j, to, elem), Hits(conns, x, y, z, to, elem)}
      | Hits(conns, i, k, j, to, elem) && Hits(conns, x, y, z, to, elem) :: i == x && k == y && j == z
  }

  lemma {:induction false} DriverOfHits(
      conns: seq<Connection>, i: nat, n: nat, to: Ref, port: Option<nat>, elem: nat) returns (k: nat, j: nat)
    requires i < |conns| && n <= |conns[i].targets|
    requires DriverOf(conns[i].src, conns[i].targets[..n], to, port, elem).Some?
    ensures k < n && Hits(conns, i, k, j, to, elem)
    ensures DriverOf(conns[i].src, conns[i].targets[..n], to, port, elem) == Some(SourceAt(conns[i].src, j))
    decreases n
  {
    var c := conns[i];
    assert c.targets[..n][..n - 1] == c.targets[..n - 1];
    if DriverOf(c.src, c.targets[..n - 1], to, port, elem).Some? {
      k, j := DriverOfHits(conns, i, n - 1, to, port, elem);
    } else {
      k, j := n - 1, Position(ElemsOr0(c.targets[n - 1].elems), elem).value;
    }
  }

  /** A first driver comes from a hit among the connections searched. */
  lemma {:induction false} FirstDriverHits(conns: seq<Connection>, n: nat, to: Ref, port: Option<nat>, elem: nat)
    returns (i: nat, k: nat, j: nat)
    requires n <= |conns| && FirstDriver(conns[..n], to, port, elem).Some?
    ensures i < n && Hits(conns, i, k, j, to, elem)
    ensures FirstDriver(conns[..n], to, port, elem) == Some(SourceAt(conns[i].src, j))
    decreases n
  {
    assert conns[..n][..n - 1] == conns[..n - 1];
    if FirstDriver(conns[..n - 1], to, port, elem).Some? {
      i, k, j := FirstDriverHits(conns, n - 1, to, port, elem);
    } else {
      i := n - 1;
      assert conns[i].targets[..|conns[i].targets|] == conns[i].targets;
      k, j := DriverOfHits(conns, i, |conns[i].targets|, to, port, elem);
    }
  }

  /** Before the only hit is reached, nothing has been found. */
  lemma {:induction false} NothingBeforeHit(
      conns: seq<Connection>, i: nat, k: nat, j: nat, to: Ref, port: Option<nat>, elem: nat)
    requires DrivenOnce(conns) && Hits(conns, i, k, j, to, elem)
    ensures PartialDriver(conns, i, k, j, to, port, elem) == None
  {
    var c := conns[i];
    if FirstDriver(conns[..i], to, port, elem).Some? {
      var x, y, z := FirstDriverHits(conns, i, to, port, elem);
    } else if DriverOf(c.src, c.targets[..k], to, port, elem).Some? {
      var y, z := DriverOfHits(conns, i, k, to, port, elem);
    } else if Position(ElemsOr0(c.targets[k].elems)[..j], elem).Some? {
      var z := Position(ElemsOr0(c.targets[k].elems)[..j], elem).value;
      assert Hits(conns, i, k, z, to, elem);
    }
  }

  /** What a partial search has found is what the whole search finds. */
  lemma {:induction false} PartialSettles(
      conns: seq<Connection>, i: nat, k: nat, j: nat, to: Ref, port: Option<nat>, elem: nat)
    requires i < |conns| && k < |conns[i].targets| && j <= |ElemsOr0(conns[i].targets[k].elems)|
    requires PartialDriver(conns, i, k, j, to, port, elem).Some?
    ensures FirstDriver(conns, to, port, elem) == PartialDriver(conns, i, k, j, to, port, elem)
    decreases |ElemsOr0(conns[i].targets[k].elems)| - j
  {
    var c := conns[i];
    var es := ElemsOr0(c.targets[k].elems);
    if j < |es| {
      PartialNextElem(conns, i, k, j, to, port, elem);
      PartialSettles(conns, i, k, j + 1, to, port, elem);
    } else if FirstDriver(conns[..i], to, port, elem).Some? {
      FirstDriverSettles(conns, i, to, port, elem);
    } else {
      assert es[..j] == es && c.targets[..k + 1][..k] == c.targets[..k] && conns[..i + 1][..i] == conns[..i];
      DriverOfSettles(c.src, c.targets, k + 1, to, port, elem);
      FirstDriverSettles(conns, i + 1, to, port, elem);
    }
  }
}

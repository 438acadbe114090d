/** Which connection drives an element, said outright: the first that addresses it, with the source element at the same
    place in its list (`find_producer` in `src/compile/flatten.rs`, `build_input_index` in `src/compile/splice.rs`). */
module WireMeaning {
  import opened Wrappers
  import opened Ir
  import opened Wiring

  /** A target without an element list addresses element 0. */
  ghost predicate ListsAt(t: PortRef, j: nat, elem: nat) {
    match t.elems
    case Some(es) => j < |es| && es[j] == elem
    case None => j == 0 && elem == 0
  }

  /** Place `j` of target `t` addresses `elem` of `to`; a `port` of `None` stands for any. */
  ghost predicate Aims(t: PortRef, to: Ref, port: Option<nat>, elem: nat, j: nat) {
    t.block == to && (port.Some? ==> t.port == port.value) && ListsAt(t, j, elem)
  }

  /** Place `j` of target `k` of connection `c` addresses `elem` of `to`. */
  ghost predicate Drives(
      conns: seq<Connection>, to: Ref, port: Option<nat>, elem: nat, c: nat, k: nat, j: nat)
  {
    c < |conns| && k < |conns[c].targets| && Aims(conns[c].targets[k], to, port, elem, j)
  }

  /** ... and no earlier place, target or connection does. */
  ghost predicate DrivesFirst(
      conns: seq<Connection>, to: Ref, port: Option<nat>, elem: nat, c: nat, k: nat, j: nat)
  {
    && Drives(conns, to, port, elem, c, k, j)
    && forall c': nat, k': nat, j': nat {:trigger Drives(conns, to, port, elem, c', k', j')} ::
         Drives(conns, to, port, elem, c', k', j') ==>
           c < c' || (c == c' && (k < k' || (k == k' && j <= j')))
  }

  ghost predicate DrivenByNone(conns: seq<Connection>, to: Ref, port: Option<nat>, elem: nat) {
    forall c: nat, k: nat, j: nat {:trigger Drives(conns, to, port, elem, c, k, j)} ::
      !Drives(conns, to, port, elem, c, k, j)
  }

  /** The source element paired with place `j`: element 0 where the source has no element there. */
  ghost function Paired(src: PortRef, j: nat): nat {
    match src.elems
    case Some(es) => if j < |es| then es[j] else 0
    case None => 0
  }

  ghost predicate IsSource(src: PortRef, j: nat, from: InputSrc) {
    from.block == src.block && from.port == src.port && from.elem == Paired(src, j)
  }

  lemma {:induction false} ListsIff(t: PortRef, j: nat, elem: nat)
    ensures ListsAt(t, j, elem) <==> j < |ElemsOr0(t.elems)| && ElemsOr0(t.elems)[j] == elem
  {
  }

  lemma {:induction false} SourceIs(src: PortRef, j: nat)
    ensures IsSource(src, j, SourceAt(src, j))
  {
  }

  /** Target `k` is the first to address the element, at place `j`. */
  ghost predicate AimsFirst(
      targets: seq<PortRef>, to: Ref, port: Option<nat>, elem: nat, k: nat, j: nat)
  {
    && k < |targets| && Aims(targets[k], to, port, elem, j)
    && (forall j': nat {:trigger Aims(targets[k], to, port, elem, j')} | j' < j ::
          !Aims(targets[k], to, port, elem, j'))
    && (forall k': nat, j': nat {:trigger Aims(targets[k'], to, port, elem, j')} | k' < k ::
          !Aims(targets[k'], to, port, elem, j'))
  }

  ghost predicate AimsNowhere(targets: seq<PortRef>, to: Ref, port: Option<nat>, elem: nat) {
    forall k: nat, j: nat {:trigger Aims(targets[k], to, port, elem, j)} | k < |targets| ::
      !Aims(targets[k], to, port, elem, j)
  }

  lemma {:induction false} FirstPlace(t: PortRef, to: Ref, port: Option<nat>, elem: nat)
    ensures var at := Position(ElemsOr0(t.elems), elem);
            if Addresses(t, to, port) && at.Some? then
              Aims(t, to, port, elem, at.value) && forall j: nat | j < at.value :: !Aims(t, to, port, elem, j)
            else forall j: nat :: !Aims(t, to, port, elem, j)
  {
    var es := ElemsOr0(t.elems);
    var at := Position(es, elem);
    forall j: nat ensures ListsAt(t, j, elem) <==> j < |es| && es[j] == elem {
      ListsIff(t, j, elem);
    }
    if at.Some? {
      forall j: nat | j < at.value ensures es[j] != elem {
        assert es[..at.value][j] == es[j];
      }
    }
  }

  lemma {:induction false} TargetIs(src: PortRef, targets: seq<PortRef>, to: Ref, port: Option<nat>, elem: nat)
    returns (k: nat, j: nat)
    ensures DriverOf(src, targets, to, port, elem).None? ==> AimsNowhere(targets, to, port, elem)
    ensures DriverOf(src, targets, to, port, elem).Some? ==>
              && AimsFirst(targets, to, port, elem, k, j)
              && IsSource(src, j, DriverOf(src, targets, to, port, elem).value)
    decreases |targets|
  {
    k, j := 0, 0;
    if targets != [] {
      var n := |targets| - 1;
      k, j := TargetIs(src, targets[..n], to, port, elem);
      assert forall i: nat | i < n :: targets[..n][i] == targets[i];
      FirstPlace(targets[n], to, port, elem);
      if DriverOf(src, targets[..n], to, port, elem).None? {
        assert forall i: nat, p: nat | i < n :: !Aims(targets[i], to, port, elem, p) by {
          forall i: nat, p: nat | i < n ensures !Aims(targets[i], to, port, elem, p) {
            assert !Aims(targets[..n][i], to, port, elem, p);
          }
        }
        if DriverOf(src, targets, to, port, elem).Some? {
          k, j := n, Position(ElemsOr0(targets[n].elems), elem).value;
          SourceIs(src, j);
        }
      }
    }
  }

  /** What drives an element is the first connection, target and place that address it, if there is any. */
  lemma {:induction false} FirstDriverIs(conns: seq<Connection>, to: Ref, port: Option<nat>, elem: nat)
    returns (c: nat, k: nat, j: nat)
    ensures FirstDriver(conns, to, port, elem).None? <==> DrivenByNone(conns, to, port, elem)
    ensures FirstDriver(conns, to, port, elem).Some? ==>
              && DrivesFirst(conns, to, port, elem, c, k, j)
              && IsSource(conns[c].src, j, FirstDriver(conns, to, port, elem).value)
    decreases |conns|
  {
    c, k, j := 0, 0, 0;
    if conns != [] {
      var n := |conns| - 1;
      var front, last := conns[..n], conns[n];
      c, k, j := FirstDriverIs(front, to, port, elem);
      forall c': nat, k': nat, j': nat ensures Drives(front, to, port, elem, c', k', j') <==>
                                c' < n && Drives(conns, to, port, elem, c', k', j')
      {
        if c' < n { assert front[c'] == conns[c']; }
      }
      var k', j' := TargetIs(last.src, last.targets, to, port, elem);
      if FirstDriver(front, to, port, elem).Some? {
        assert Drives(conns, to, port, elem, c, k, j);
      } else if DriverOf(last.src, last.targets, to, port, elem).Some? {
        c, k, j := n, k', j';
        LastDrivesFirst(conns, to, port, elem, k, j);
      } else {
        forall x: nat, y: nat, z: nat ensures !Drives(conns, to, port, elem, x, y, z) {
          if x == n && y < |last.targets| { assert !Aims(last.targets[y], to, port, elem, z); }
        }
      }
    }
  }

  lemma {:induction false} LastDrivesFirst(
      conns: seq<Connection>, to: Ref, port: Option<nat>, elem: nat, k: nat, j: nat)
    requires conns != [] && AimsFirst(conns[|conns| - 1].targets, to, port, elem, k, j)
    requires forall c: nat, y: nat, z: nat {:trigger Drives(conns, to, port, elem, c, y, z)} | c < |conns| - 1 ::
               !Drives(conns, to, port, elem, c, y, z)
    ensures DrivesFirst(conns, to, port, elem, |conns| - 1, k, j)
  {
    var n := |conns| - 1;
    forall c': nat, y: nat, z: nat {:trigger Drives(conns, to, port, elem, c', y, z)}
      | Drives(conns, to, port, elem, c', y, z)
      ensures n < c' || (n == c' && (k < y || (k == y && j <= z)))
    {
      assert Aims(conns[c'].targets[y], to, port, elem, z);
    }
  }

  /** The first driver is the only one of its kind. */
  lemma {:induction false} FirstDriverIsUnique(
      conns: seq<Connection>, to: Ref, port: Option<nat>, elem: nat, c: nat, k: nat, j: nat)
    requires DrivesFirst(conns, to, port, elem, c, k, j)
    ensures FirstDriver(conns, to, port, elem).Some?
    ensures IsSource(conns[c].src, j, FirstDriver(conns, to, port, elem).value)
  {
    var c', k', j' := FirstDriverIs(conns, to, port, elem);
    assert Drives(conns, to, port, elem, c, k, j);
    assert FirstDriver(conns, to, port, elem).Some?;
    assert Drives(conns, to, port, elem, c', k', j');
  }
}

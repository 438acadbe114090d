/** The backward tracer over indexed scopes (`Flattener` in `src/compile/flatten.rs`). */
module Tracer {
  import opened Wrappers
  import opened Ir
  import opened Wiring
  import opened Iteration
  import opened Hierarchy

  datatype ChildKind = LeafAt(flat: nat) | SubAt(scope: nat)

  datatype Parent = Parent(scope: nat, child: nat)

  datatype Scope = Scope(children: seq<ChildKind>, connections: seq<Connection>, parent: Option<Parent>)

  /** A producer: a flat leaf, or the root interface. */
  datatype Endpoint = Endpoint(block: Ref, elem: nat)

  /** An element on the producing side of a connection in the scope with this index. */
  datatype ScopeKey = ScopeKey(scope: nat, block: Ref, elem: nat)

  datatype IndexStep = FlatLeaf(flat: nat, elem: nat) | RootInput(elem: nat) | NoDriver | Follow(key: ScopeKey)

  predicate KeyInRange(scopes: seq<Scope>, k: ScopeKey) {
    && k.scope < |scopes|
    && (k.block.Child? ==> k.block.idx < |scopes[k.scope].children|)
  }

  function ScopeDriver(scopes: seq<Scope>, scope: nat, to: Ref, elem: nat): IndexStep
    requires scope < |scopes|
  {
    match FirstDriver(scopes[scope].connections, to, None, elem)
    case None => NoDriver
    case Some(src) => Follow(ScopeKey(scope, src.block, src.elem))
  }

  /** One step of the trace over scope indices. */
  function IndexNext(scopes: seq<Scope>, k: ScopeKey): IndexStep
    requires KeyInRange(scopes, k)
  {
    match k.block
    case Iface =>
      (match scopes[k.scope].parent
       case Some(p) => if p.scope < |scopes| then ScopeDriver(scopes, p.scope, Child(p.child), k.elem) else NoDriver
       case None => RootInput(k.elem))
    case Child(i) =>
      match scopes[k.scope].children[i]
      case LeafAt(f) => FlatLeaf(f, k.elem)
      case SubAt(s) => if s < |scopes| then ScopeDriver(scopes, s, Iface, k.elem) else NoDriver
  }

  function IndexAdvance(scopes: seq<Scope>, s: IndexStep): IndexStep {
    match s
    case Follow(k) => if KeyInRange(scopes, k) then IndexNext(scopes, k) else NoDriver
    case stopped => stopped
  }

  function IndexAdvancing(scopes: seq<Scope>): IndexStep -> IndexStep {
    (s: IndexStep) => IndexAdvance(scopes, s)
  }

  function IndexWalk(scopes: seq<Scope>, from: ScopeKey, n: nat): IndexStep {
    Iterate(IndexAdvancing(scopes), Follow(from), n)
  }

  /** Scope, child and parent indices exist, and connections refer to existing children. */
  ghost predicate ScopeInRange(scopes: seq<Scope>, i: nat)
    requires i < |scopes|
  {
    && (scopes[i].parent.Some? ==>
          scopes[i].parent.value.scope < |scopes|
          && scopes[i].parent.value.child < |scopes[scopes[i].parent.value.scope].children|)
    && (forall j | 0 <= j < |scopes[i].children| ::
          scopes[i].children[j].SubAt? ==> scopes[i].children[j].scope < |scopes|)
    && (forall c | c in scopes[i].connections :: c.src.block.Child? ==> c.src.block.idx < |scopes[i].children|)
  }

  ghost predicate ScopesInRange(scopes: seq<Scope>) {
    forall i {:trigger ScopeInRange(scopes, i)} | 0 <= i < |scopes| :: ScopeInRange(scopes, i)
  }

  lemma {:induction false} ScopeDriverInRange(scopes: seq<Scope>, scope: nat, to: Ref, elem: nat)
    requires ScopesInRange(scopes) && scope < |scopes|
    ensures ScopeDriver(scopes, scope, to, elem).Follow? ==>
              KeyInRange(scopes, ScopeDriver(scopes, scope, to, elem).key)
  {
    var conns := scopes[scope].connections;
    if FirstDriver(conns, to, None, elem).Some? {
      FirstDriverReads(conns, to, None, elem);
      assert ScopeInRange(scopes, scope);
    }
  }

  // ---------------------------------------------------------------------------------------
  // The finite universe of keys a trace can visit
  // ---------------------------------------------------------------------------------------

  ghost predicate ClosedUnderNext(scopes: seq<Scope>, keys: set<ScopeKey>) {
    forall k {:trigger IndexNext(scopes, k)} | k in keys && KeyInRange(scopes, k) && IndexNext(scopes, k).Follow? ::
      IndexNext(scopes, k).key in keys
  }

  /** Every element any connection reads. */
  ghost function SourceKeys(scopes: seq<Scope>): set<ScopeKey> {
    set i, c, e | 0 <= i < |scopes| && 0 <= c < |scopes[i].connections|
                  && e in [0] + ElemsOr0(scopes[i].connections[c].src.elems)
      :: ScopeKey(i, scopes[i].connections[c].src.block, e)
  }

  lemma {:induction false} ScopeDriverReads(scopes: seq<Scope>, scope: nat, to: Ref, elem: nat)
    requires scope < |scopes| && ScopeDriver(scopes, scope, to, elem).Follow?
    ensures ScopeDriver(scopes, scope, to, elem).key in SourceKeys(scopes)
  {
    FirstDriverReads(scopes[scope].connections, to, None, elem);
  }

  lemma {:induction false} UniverseIsClosed(scopes: seq<Scope>, k: ScopeKey)
    ensures ClosedUnderNext(scopes, SourceKeys(scopes) + {k})
  {
    var keys := SourceKeys(scopes) + {k};
    forall x | x in keys && KeyInRange(scopes, x) && IndexNext(scopes, x).Follow?
      ensures IndexNext(scopes, x).key in keys
    {
      match x.block
      case Iface =>
        var p := scopes[x.scope].parent.value;
        ScopeDriverReads(scopes, p.scope, Child(p.child), x.elem);
      case Child(i) =>
        ScopeDriverReads(scopes, scopes[x.scope].children[i].scope, Iface, x.elem);
    }
  }

  // ---------------------------------------------------------------------------------------
  // The tracer
  // ---------------------------------------------------------------------------------------

  /** `visiting` holds exactly the first `n` keys of the walk from `from`, all different. */
  ghost predicate Visits(scopes: seq<Scope>, from: ScopeKey, n: nat, visiting: set<ScopeKey>) {
    && (forall i: nat | i < n :: IndexWalk(scopes, from, i).Follow? && IndexWalk(scopes, from, i).key in visiting)
    && (forall k | k in visiting :: exists i: nat :: i < n && IndexWalk(scopes, from, i) == Follow(k))
  }

  ghost predicate IndexRevisits(scopes: seq<Scope>, from: ScopeKey) {
    exists i: nat, j: nat :: i < j && IndexWalk(scopes, from, i).Follow?
      && IndexWalk(scopes, from, i) == IndexWalk(scopes, from, j)
  }

  lemma {:induction false} VisitNext(scopes: seq<Scope>, from: ScopeKey, n: nat, visiting: set<ScopeKey>, k: ScopeKey)
    requires Visits(scopes, from, n, visiting) && IndexWalk(scopes, from, n) == Follow(k)
    ensures Visits(scopes, from, n + 1, visiting + {k})
  {
    forall x | x in visiting + {k} ensures exists i: nat :: i < n + 1 && IndexWalk(scopes, from, i) == Follow(x) {
      if x in visiting {
        var i: nat :| i < n && IndexWalk(scopes, from, i) == Follow(x);
        assert i < n + 1;
      }
    }
  }

  lemma {:induction false} WalkStep(scopes: seq<Scope>, from: ScopeKey, n: nat)
    ensures IndexWalk(scopes, from, n + 1) == IndexAdvance(scopes, IndexWalk(scopes, from, n))
  {
  }

  class Flattener {
    const scopes: seq<Scope>
    const preserveRootIface: bool
    var visiting: set<ScopeKey>
    var sawCycle: bool

    constructor (scopes: seq<Scope>, preserveRootIface: bool)
      ensures this.scopes == scopes && this.preserveRootIface == preserveRootIface
      ensures visiting == {} && !sawCycle
    {
      this.scopes, this.preserveRootIface := scopes, preserveRootIface;
      visiting, sawCycle := {}, false;
    }

    /** What the tracer reports when the walk stops at `s`. */
    function Report(s: IndexStep): Option<Endpoint> {
      match s
      case FlatLeaf(f, e) => Some(Endpoint(Child(f), e))
      case RootInput(e) => if preserveRootIface then Some(Endpoint(Iface, e)) else None
      case _ => None
    }

    /** Traces the source `k`, the `n`-th key of the walk from `from`, back to its producer.  On
        return `m` is where the walk stopped, unless it ran into a key it was already visiting. */
    method Resolve(k: ScopeKey, ghost from: ScopeKey, ghost n: nat, ghost universe: set<ScopeKey>)
      returns (r: Option<Endpoint>, ghost m: nat, ghost cycled: bool)
      requires ScopesInRange(scopes) && KeyInRange(scopes, k)
      requires IndexWalk(scopes, from, n) == Follow(k) && Visits(scopes, from, n, visiting)
      requires ClosedUnderNext(scopes, universe) && visiting <= universe && k in universe
      modifies this
      ensures visiting == old(visiting) && sawCycle == (old(sawCycle) || cycled)
      ensures cycled ==> r.None? && IndexRevisits(scopes, from)
      ensures !cycled ==> !IndexWalk(scopes, from, m).Follow? && r == Report(IndexWalk(scopes, from, m))
      decreases universe - visiting, 0
    {
      if k in visiting {
        sawCycle := true;
        ghost var i: nat :| i < n && IndexWalk(scopes, from, i) == Follow(k);
        return None, n, true;
      }
      VisitNext(scopes, from, n, visiting, k);
      WalkStep(scopes, from, n);
      visiting := visiting + {k};
      r, m, cycled := Dispatch(k, from, n + 1, universe);
      visiting := visiting - {k};
    }

    /** The producer behind `k`, whose successor is the `n`-th step of the walk. */
    method Dispatch(k: ScopeKey, ghost from: ScopeKey, ghost n: nat, ghost universe: set<ScopeKey>)
      returns (r: Option<Endpoint>, ghost m: nat, ghost cycled: bool)
      requires ScopesInRange(scopes) && KeyInRange(scopes, k)
      requires IndexWalk(scopes, from, n) == IndexNext(scopes, k) && Visits(scopes, from, n, visiting)
      requires ClosedUnderNext(scopes, universe) && visiting <= universe && k in universe
      modifies this
      ensures visiting == old(visiting) && sawCycle == (old(sawCycle) || cycled)
      ensures cycled ==> r.None? && IndexRevisits(scopes, from)
      ensures !cycled ==> !IndexWalk(scopes, from, m).Follow? && r == Report(IndexWalk(scopes, from, m))
      decreases universe - visiting, 2
    {
      assert ScopeInRange(scopes, k.scope);
      match k.block {
        case Iface =>
          match scopes[k.scope].parent {
            case Some(p) =>
              r, m, cycled := FindProducer(p.scope, Child(p.child), k.elem, from, n, universe);
            case None =>
              r := if preserveRootIface then Some(Endpoint(Iface, k.elem)) else None;
              m, cycled := n, false;
          }
        case Child(i) =>
          match scopes[k.scope].children[i] {
            case LeafAt(f) =>
              r, m, cycled := Some(Endpoint(Child(f), k.elem)), n, false;
            case SubAt(s) =>
              r, m, cycled := FindProducer(s, Iface, k.elem, from, n, universe);
          }
      }
    }

    /** Finds the connection of `scope` that drives `elem` of `to` and resolves its source. */
    method FindProducer(
        scope: nat, to: Ref, elem: nat, ghost from: ScopeKey, ghost n: nat, ghost universe: set<ScopeKey>)
      returns (r: Option<Endpoint>, ghost m: nat, ghost cycled: bool)
      requires ScopesInRange(scopes) && scope < |scopes|
      requires IndexWalk(scopes, from, n) == ScopeDriver(scopes, scope, to, elem)
      requires Visits(scopes, from, n, visiting)
      requires ClosedUnderNext(scopes, universe) && visiting <= universe
      requires ScopeDriver(scopes, scope, to, elem).Follow? ==> ScopeDriver(scopes, scope, to, elem).key in universe
      modifies this
      ensures visiting == old(visiting) && sawCycle == (old(sawCycle) || cycled)
      ensures cycled ==> r.None? && IndexRevisits(scopes, from)
      ensures !cycled ==> !IndexWalk(scopes, from, m).Follow? && r == Report(IndexWalk(scopes, from, m))
      decreases universe - visiting, 1
    {
      var driver := FindDriver(scopes[scope].connections, to, elem);
      match driver {
        case None => r, m, cycled := None, n, false;
        case Some(src) =>
          ScopeDriverInRange(scopes, scope, to, elem);
          r, m, cycled := Resolve(ScopeKey(scope, src.block, src.elem), from, n, universe);
      }
    }

    /** A fresh trace: reports a producer exactly when the chain of first drivers reaches it, and
        notices a cycle exactly when the chain revisits a key. */
    method Trace(k: ScopeKey) returns (r: Option<Endpoint>, ghost cycled: bool)
      requires ScopesInRange(scopes) && KeyInRange(scopes, k) && visiting == {}
      modifies this
      ensures visiting == {} && sawCycle == (old(sawCycle) || cycled)
      ensures cycled <==> IndexRevisits(scopes, k)
      ensures cycled ==> r.None?
      ensures !cycled ==> exists m: nat :: !IndexWalk(scopes, k, m).Follow? && r == Report(IndexWalk(scopes, k, m))
      ensures forall e: Endpoint :: r == Some(e) <==>
          exists m: nat :: !IndexWalk(scopes, k, m).Follow? && Report(IndexWalk(scopes, k, m)) == Some(e)
    {
      ghost var universe := SourceKeys(scopes) + {k};
      UniverseIsClosed(scopes, k);
      ghost var m;
      r, m, cycled := Resolve(k, k, 0, universe);
      IndexStopIsFinal(scopes, k, m);
      if cycled {
        RevisitNeverStops(scopes, k);
      }
    }
  }

  lemma {:induction false} IndexStopIsFinal(scopes: seq<Scope>, from: ScopeKey, n: nat)
    ensures !IndexWalk(scopes, from, n).Follow? ==>
              && !IndexRevisits(scopes, from)
              && forall m: nat | !IndexWalk(scopes, from, m).Follow? ::
                   IndexWalk(scopes, from, m) == IndexWalk(scopes, from, n)
  {
    var f := IndexAdvancing(scopes);
    assert forall s: IndexStep | !s.Follow? :: f(s) == s;
    if !Iterate(f, Follow(from), n).Follow? {
      forall i: nat, j: nat
        ensures !Iterate(f, Follow(from), i).Follow? ==> Iterate(f, Follow(from), i) == Iterate(f, Follow(from), n)
        ensures i < j && Iterate(f, Follow(from), i) == Iterate(f, Follow(from), j) ==>
                  !Iterate(f, Follow(from), i).Follow?
      {
        FixedPointIsFinal(f, Follow(from), n, i, j);
      }
    }
  }

  lemma {:induction false} RevisitNeverStops(scopes: seq<Scope>, from: ScopeKey)
    requires IndexRevisits(scopes, from)
    ensures forall m: nat :: IndexWalk(scopes, from, m).Follow?
  {
    forall m: nat ensures IndexWalk(scopes, from, m).Follow? {
      IndexStopIsFinal(scopes, from, m);
    }
  }
}

/** Registering the scopes and leaf blocks of a nested subsystem depth first (`build_scopes` in
    `src/compile/flatten.rs`). */
module ScopeTree {
  import opened Wrappers
  import opened Ir
  import opened Wiring
  import opened Hierarchy
  import opened Tracer

  /** The tables being filled, with the path of every scope and the home (scope, child) of every
      leaf, which the source does not store. */
  datatype Tables = Tables(scopes: seq<Scope>, leaves: seq<Block>, paths: seq<Path>, homes: seq<(nat, nat)>)

  ghost predicate SameLengths(t: Tables) { |t.paths| == |t.scopes| && |t.homes| == |t.leaves| }

  /** The entry `kind` stands for child `j` of scope `i`. */
  ghost predicate KindMirrors(root: Subsystem, t: Tables, i: nat, j: nat, kind: ChildKind)
    requires SameLengths(t) && i < |t.paths| && IsChild(root, t.paths[i], j)
  {
    match kind
    case LeafAt(f) =>
      f < |t.leaves| && ChildAt(root, t.paths[i], j) == Leaf(t.leaves[f]) && t.homes[f] == (i, j)
    case SubAt(k) =>
      k < |t.scopes| && ChildAt(root, t.paths[i], j).Sub? && t.paths[k] == t.paths[i] + [j]
  }

  ghost predicate KindsMirror(root: Subsystem, t: Tables, i: nat, kinds: seq<ChildKind>)
    requires SameLengths(t) && i < |t.paths|
  {
    forall j {:trigger kinds[j]} | 0 <= j < |kinds| ::
      IsChild(root, t.paths[i], j) && KindMirrors(root, t, i, j, kinds[j])
  }

  ghost predicate ParentMirrors(t: Tables, path: Path, parent: Option<Parent>) {
    match parent
    case None => path == []
    case Some(p) => p.scope < |t.paths| && path == t.paths[p.scope] + [p.child]
  }

  /** Scope `i` of the tables is the subsystem at its path. */
  ghost predicate Mirrors(root: Subsystem, t: Tables, i: nat)
    requires SameLengths(t) && i < |t.scopes|
  {
    && IsScope(root, t.paths[i])
    && t.scopes[i].connections == ScopeAt(root, t.paths[i]).value.connections
    && |t.scopes[i].children| == |ScopeAt(root, t.paths[i]).value.children|
    && KindsMirror(root, t, i, t.scopes[i].children)
    && ParentMirrors(t, t.paths[i], t.scopes[i].parent)
  }

  /** Leaf `f` is where its home says. */
  ghost predicate HomeOk(t: Tables, f: nat)
    requires SameLengths(t) && f < |t.leaves|
  {
    && t.homes[f].0 < |t.scopes| && t.homes[f].1 < |t.scopes[t.homes[f].0].children|
    && t.scopes[t.homes[f].0].children[t.homes[f].1] == LeafAt(f)
  }

  /** `p` comes before `q` in a depth-first walk: it leads to `q`, or turns off to an earlier child. */
  ghost predicate Precedes(p: Path, q: Path) {
    p < q || exists k: nat :: TurnsOff(p, q, k)
  }

  predicate TurnsOff(p: Path, q: Path, k: nat) {
    k < |p| && k < |q| && p[..k] == q[..k] && p[k] < q[k]
  }

  /** Paths below different children of the scope at `path` are in the order of the children. */
  lemma {:induction false} SiblingsPrecede(path: Path, p: Path, q: Path)
    requires path < p && path < q && p[|path|] < q[|path|]
    ensures Precedes(p, q)
  {
    assert TurnsOff(p, q, |path|);
  }

  ghost predicate Extends(t: Tables, u: Tables) {
    && SameLengths(t) && SameLengths(u)
    && t.scopes <= u.scopes && t.paths <= u.paths && t.leaves <= u.leaves && t.homes <= u.homes
  }

  /** The tables describe the whole tree, each scope and leaf once. */
  ghost predicate Complete(root: Subsystem, t: Tables) {
    && SameLengths(t) && |t.scopes| > 0 && t.paths[0] == []
    && (forall i {:trigger Mirrors(root, t, i)} | 0 <= i < |t.scopes| :: Mirrors(root, t, i))
    && (forall f {:trigger HomeOk(t, f)} | 0 <= f < |t.leaves| :: HomeOk(t, f))
    && (forall i, j | 0 <= i < j < |t.paths| :: t.paths[i] != t.paths[j])
  }

  lemma {:induction false} KindsMirrorStable(root: Subsystem, t: Tables, u: Tables, i: nat, kinds: seq<ChildKind>)
    requires SameLengths(t) && SameLengths(u) && |t.scopes| <= |u.scopes|
    requires t.paths <= u.paths && t.leaves <= u.leaves && t.homes <= u.homes
    requires i < |t.paths| && KindsMirror(root, t, i, kinds)
    ensures KindsMirror(root, u, i, kinds)
  {
    forall j | 0 <= j < |kinds| ensures IsChild(root, u.paths[i], j) && KindMirrors(root, u, i, j, kinds[j]) {
      assert KindMirrors(root, t, i, j, kinds[j]);
    }
  }

  lemma {:induction false} MirrorsStable(root: Subsystem, t: Tables, u: Tables, i: nat)
    requires SameLengths(t) && SameLengths(u) && |t.scopes| <= |u.scopes|
    requires t.paths <= u.paths && t.leaves <= u.leaves && t.homes <= u.homes
    requires i < |t.scopes| && u.scopes[i] == t.scopes[i] && Mirrors(root, t, i)
    ensures Mirrors(root, u, i)
  {
    KindsMirrorStable(root, t, u, i, t.scopes[i].children);
  }

  lemma {:induction false} MirrorsAllStable(root: Subsystem, t: Tables, u: Tables, lo: nat)
    requires SameLengths(t) && SameLengths(u) && |t.scopes| <= |u.scopes|
    requires t.paths <= u.paths && t.leaves <= u.leaves && t.homes <= u.homes
    requires forall i {:trigger Mirrors(root, t, i)} | lo <= i < |t.scopes| ::
      u.scopes[i] == t.scopes[i] && Mirrors(root, t, i)
    ensures forall i {:trigger Mirrors(root, u, i)} | lo <= i < |t.scopes| :: Mirrors(root, u, i)
  {
    forall i | lo <= i < |t.scopes| ensures Mirrors(root, u, i) {
      assert Mirrors(root, t, i);
      MirrorsStable(root, t, u, i);
    }
  }

  /** What a finished call for the subsystem at `path` has added to the tables `t`. */
  ghost predicate Added(root: Subsystem, t: Tables, u: Tables, path: Path) {
    && Extends(t, u)
    && (forall i {:trigger Mirrors(root, u, i)} | |t.scopes| <= i < |u.scopes| :: Mirrors(root, u, i))
    && (forall f {:trigger HomeOk(u, f)} | |t.leaves| <= f < |u.leaves| ::
          HomeOk(u, f) && u.homes[f].0 >= |t.scopes|)
    && (forall i {:trigger u.paths[i]} | |t.paths| <= i < |u.paths| :: path <= u.paths[i])
    && (forall i, j {:trigger u.paths[i], u.paths[j]} | |t.paths| <= i < j < |u.paths| :: u.paths[i] != u.paths[j])
  }

  /** What the loop over the children of the subsystem at `path` has added after `|kinds|` of them. */
  ghost predicate Adding(root: Subsystem, t: Tables, u: Tables, path: Path, kinds: seq<ChildKind>) {
    var me := |t.scopes|;
    && Extends(t, u) && me < |u.scopes| && u.paths[me] == path
    && KindsMirror(root, u, me, kinds)
    && (forall i {:trigger Mirrors(root, u, i)} | me < i < |u.scopes| :: Mirrors(root, u, i))
    && (forall f {:trigger u.homes[f]} | |t.leaves| <= f < |u.leaves| ::
          if u.homes[f].0 == me then u.homes[f].1 < |kinds| && kinds[u.homes[f].1] == LeafAt(f)
          else u.homes[f].0 > me && HomeOk(u, f))
    && (forall i {:trigger u.paths[i]} | me < i < |u.paths| ::
          path <= u.paths[i] && |path| < |u.paths[i]| && u.paths[i][|path|] < |kinds|)
    && (forall i, j {:trigger u.paths[i], u.paths[j]} | me <= i < j < |u.paths| :: u.paths[i] != u.paths[j])
  }

  lemma {:induction false} AddLeaf(
      root: Subsystem, t: Tables, u: Tables, path: Path, kinds: seq<ChildKind>, block: Block)
    requires Adding(root, t, u, path, kinds)
    requires IsChild(root, path, |kinds|) && ChildAt(root, path, |kinds|) == Leaf(block)
    ensures Adding(root, t,
                   u.(leaves := u.leaves + [block], homes := u.homes + [(|t.scopes|, |kinds|)]),
                   path, kinds + [LeafAt(|u.leaves|)])
  {
    var me := |t.scopes|;
    var v := u.(leaves := u.leaves + [block], homes := u.homes + [(me, |kinds|)]);
    var more := kinds + [LeafAt(|u.leaves|)];
    KindsMirrorStable(root, u, v, me, kinds);
    MirrorsAllStable(root, u, v, me + 1);
    forall j | 0 <= j < |more| ensures IsChild(root, v.paths[me], j) && KindMirrors(root, v, me, j, more[j]) {
      if j < |kinds| { assert KindMirrors(root, v, me, j, kinds[j]); }
    }
    forall f | |t.leaves| <= f < |v.leaves|
      ensures if v.homes[f].0 == me then v.homes[f].1 < |more| && more[v.homes[f].1] == LeafAt(f)
              else v.homes[f].0 > me && HomeOk(v, f)
    {
      if f < |u.leaves| { assert v.homes[f] == u.homes[f]; }
    }
  }

  lemma {:induction false} AddSubsystem(
      root: Subsystem, t: Tables, u: Tables, v: Tables, path: Path, kinds: seq<ChildKind>)
    requires Adding(root, t, u, path, kinds)
    requires IsChild(root, path, |kinds|) && ChildAt(root, path, |kinds|).Sub?
    requires Added(root, u, v, path + [|kinds|]) && |u.scopes| < |v.scopes|
    requires v.paths[|u.scopes|] == path + [|kinds|]
    ensures Adding(root, t, v, path, kinds + [SubAt(|u.scopes|)])
  {
    var me := |t.scopes|;
    var more := kinds + [SubAt(|u.scopes|)];
    KindsMirrorStable(root, u, v, me, kinds);
    MirrorsAllStable(root, u, v, me + 1);
    forall j | 0 <= j < |more| ensures IsChild(root, v.paths[me], j) && KindMirrors(root, v, me, j, more[j]) {
      if j < |kinds| { assert KindMirrors(root, v, me, j, kinds[j]); }
    }
    forall f | |t.leaves| <= f < |v.leaves|
      ensures if v.homes[f].0 == me then v.homes[f].1 < |more| && more[v.homes[f].1] == LeafAt(f)
              else v.homes[f].0 > me && HomeOk(v, f)
    {
      if f < |u.leaves| {
        assert v.homes[f] == u.homes[f];
        if u.homes[f].0 != me { assert HomeOk(u, f); }
      } else {
        assert HomeOk(v, f);
      }
    }
    forall i | me < i < |v.paths|
      ensures path <= v.paths[i] && |path| < |v.paths[i]| && v.paths[i][|path|] < |more|
    {
      if i < |u.paths| { assert v.paths[i] == u.paths[i]; } else { assert path + [|kinds|] <= v.paths[i]; }
    }
    forall i, j | me <= i < j < |v.paths| ensures v.paths[i] != v.paths[j] {
      if j < |u.paths| {
        assert v.paths[i] == u.paths[i] && v.paths[j] == u.paths[j];
      } else if i < |u.paths| {
        assert v.paths[i] == u.paths[i];
        assert path + [|kinds|] <= v.paths[j] && v.paths[j][|path|] == |kinds|;
      }
    }
  }

  /** Registering the scope itself, before its children. */
  lemma {:induction false} OpenScope(root: Subsystem, t: Tables, path: Path, scope: Scope)
    requires SameLengths(t)
    ensures Adding(root, t, t.(scopes := t.scopes + [scope], paths := t.paths + [path]), path, [])
  {
  }

  /** Storing the children closes the scope. */
  lemma {:induction false} CloseScope(
      root: Subsystem, t: Tables, u: Tables, path: Path, parent: Option<Parent>, kinds: seq<ChildKind>)
    requires Adding(root, t, u, path, kinds) && IsScope(root, path)
    requires ParentMirrors(t, path, parent)
    requires |kinds| == |ScopeAt(root, path).value.children|
    requires u.scopes[|t.scopes|] == Scope([], ScopeAt(root, path).value.connections, parent)
    ensures Added(root, t, u.(scopes := u.scopes[|t.scopes| := u.scopes[|t.scopes|].(children := kinds)]), path)
  {
    var me := |t.scopes|;
    var v := u.(scopes := u.scopes[me := u.scopes[me].(children := kinds)]);
    MirrorsAllStable(root, u, v, me + 1);
    KindsMirrorStable(root, u, v, me, kinds);
    assert Mirrors(root, v, me);
    forall f | |t.leaves| <= f < |v.leaves| ensures HomeOk(v, f) && v.homes[f].0 >= me {
      assert v.homes[f] == u.homes[f];
      if u.homes[f].0 != me { assert HomeOk(u, f); }
    }
  }

  /** The path of flat leaf `f`. */
  ghost function LeafPath(t: Tables, f: nat): Path
    requires SameLengths(t) && f < |t.leaves|
  {
    if t.homes[f].0 < |t.paths| then t.paths[t.homes[f].0] + [t.homes[f].1] else []
  }

  // ---------------------------------------------------------------------------------------
  // The order of the entries
  // ---------------------------------------------------------------------------------------

  /** Everything added to `t` is below `path`, scopes and leaves each in depth-first order. */
  ghost predicate OrderAdded(t: Tables, u: Tables, path: Path)
    requires SameLengths(u)
  {
    && (forall i {:trigger u.paths[i]} | |t.paths| <= i < |u.paths| :: path <= u.paths[i])
    && (forall i, j {:trigger u.paths[i], u.paths[j]} | |t.paths| <= i < j < |u.paths| ::
          Precedes(u.paths[i], u.paths[j]))
    && (forall f {:trigger LeafPath(u, f)} | |t.leaves| <= f < |u.leaves| :: path < LeafPath(u, f))
    && (forall f, g {:trigger LeafPath(u, f), LeafPath(u, g)} | |t.leaves| <= f < g < |u.leaves| ::
          Precedes(LeafPath(u, f), LeafPath(u, g)))
  }

  /** ... and, but for the scope at `path` itself, below one of its first `n` children. */
  ghost predicate OrderAdding(t: Tables, u: Tables, path: Path, n: nat)
    requires SameLengths(u)
  {
    && OrderAdded(t, u, path) && |t.paths| < |u.paths| && u.paths[|t.paths|] == path
    && (forall i {:trigger u.paths[i]} | |t.paths| < i < |u.paths| :: path < u.paths[i] && u.paths[i][|path|] < n)
    && (forall f {:trigger LeafPath(u, f)} | |t.leaves| <= f < |u.leaves| :: LeafPath(u, f)[|path|] < n)
  }

  lemma {:induction false} LeafPathsStay(t: Tables, u: Tables, f: nat)
    requires Extends(t, u) && f < |t.leaves| && t.homes[f].0 < |t.paths|
    ensures LeafPath(u, f) == LeafPath(t, f)
  {
  }

  /** The order is one of paths and homes alone. */
  lemma {:induction false} OrderStays(t: Tables, u: Tables, v: Tables, path: Path)
    requires SameLengths(u) && SameLengths(v) && OrderAdded(t, u, path)
    requires v.paths == u.paths && v.leaves == u.leaves && v.homes == u.homes
    ensures OrderAdded(t, v, path)
  {
    forall f | 0 <= f < |v.leaves| ensures LeafPath(v, f) == LeafPath(u, f) {
    }
  }

  lemma {:induction false} OrderLeaf(
      root: Subsystem, t: Tables, u: Tables, v: Tables, path: Path, kinds: seq<ChildKind>, block: Block)
    requires Adding(root, t, u, path, kinds) && OrderAdding(t, u, path, |kinds|)
    requires v == u.(leaves := u.leaves + [block], homes := u.homes + [(|t.scopes|, |kinds|)])
    ensures OrderAdding(t, v, path, |kinds| + 1)
  {
    forall f | |t.leaves| <= f < |v.leaves|
      ensures path < LeafPath(v, f) && LeafPath(v, f)[|path|] <= |kinds|
      ensures f < |u.leaves| ==> LeafPath(v, f) == LeafPath(u, f)
      ensures f < |u.leaves| ==> LeafPath(v, f)[|path|] < |kinds|
    {
      if f < |u.leaves| {
        assert u.homes[f].0 < |u.paths|;
        LeafPathsStay(u, v, f);
      }
    }
    forall f, g | |t.leaves| <= f < g < |v.leaves| ensures Precedes(LeafPath(v, f), LeafPath(v, g)) {
      if g == |u.leaves| { SiblingsPrecede(path, LeafPath(v, f), LeafPath(v, g)); }
    }
  }

  lemma {:induction false} OrderSubsystem(
      root: Subsystem, t: Tables, u: Tables, v: Tables, path: Path, kinds: seq<ChildKind>)
    requires Adding(root, t, u, path, kinds) && OrderAdding(t, u, path, |kinds|)
    requires Extends(u, v) && OrderAdded(u, v, path + [|kinds|])
    ensures OrderAdding(t, v, path, |kinds| + 1)
  {
    var n, me := |kinds|, |t.paths|;
    forall i | me < i < |v.paths| ensures path < v.paths[i] && v.paths[i][|path|] <= n {
      if i < |u.paths| { assert v.paths[i] == u.paths[i]; } else { assert path + [n] <= v.paths[i]; }
    }
    forall i, j | me <= i < j < |v.paths| ensures Precedes(v.paths[i], v.paths[j]) {
      if j < |u.paths| {
        assert v.paths[i] == u.paths[i] && v.paths[j] == u.paths[j];
      } else if i < |u.paths| {
        assert v.paths[i] == u.paths[i] && path + [n] <= v.paths[j];
        if i > me { SiblingsPrecede(path, v.paths[i], v.paths[j]); }
      }
    }
    OrderSubsystemLeaves(root, t, u, v, path, kinds);
  }

  lemma {:induction false} OrderSubsystemLeaves(
      root: Subsystem, t: Tables, u: Tables, v: Tables, path: Path, kinds: seq<ChildKind>)
    requires Adding(root, t, u, path, kinds) && OrderAdding(t, u, path, |kinds|)
    requires Extends(u, v) && OrderAdded(u, v, path + [|kinds|])
    ensures forall f {:trigger LeafPath(v, f)} | |t.leaves| <= f < |v.leaves| ::
              path < LeafPath(v, f) && LeafPath(v, f)[|path|] <= |kinds|
    ensures forall f, g {:trigger LeafPath(v, f), LeafPath(v, g)} | |t.leaves| <= f < g < |v.leaves| ::
              Precedes(LeafPath(v, f), LeafPath(v, g))
  {
    var n := |kinds|;
    forall f | |t.leaves| <= f < |v.leaves|
      ensures path < LeafPath(v, f) && LeafPath(v, f)[|path|] <= n
      ensures f < |u.leaves| ==> LeafPath(v, f) == LeafPath(u, f) && LeafPath(v, f)[|path|] < n
      ensures f >= |u.leaves| ==> LeafPath(v, f)[|path|] == n
    {
      if f < |u.leaves| {
        assert u.homes[f].0 < |u.paths|;
        LeafPathsStay(u, v, f);
      } else {
        assert path + [n] < LeafPath(v, f);
      }
    }
    forall f, g | |t.leaves| <= f < g < |v.leaves| ensures Precedes(LeafPath(v, f), LeafPath(v, g)) {
      if f < |u.leaves| <= g { SiblingsPrecede(path, LeafPath(v, f), LeafPath(v, g)); }
    }
  }

  /** The first children of the scope at `path` are registered. */
  ghost predicate Building(root: Subsystem, t: Tables, u: Tables, path: Path, kinds: seq<ChildKind>) {
    Adding(root, t, u, path, kinds) && OrderAdding(t, u, path, |kinds|)
  }

  class ScopeBuilder {
    var scopes: seq<Scope>
    var leaves: seq<Block>
    ghost const root: Subsystem
    ghost var paths: seq<Path>
    ghost var homes: seq<(nat, nat)>

    ghost function State(): Tables
      reads this
    {
      Tables(scopes, leaves, paths, homes)
    }

    constructor (ghost root: Subsystem)
      ensures State() == Tables([], [], [], []) && this.root == root
    {
      this.root := root;
      scopes, leaves := [], [];
      paths, homes := [], [];
    }

    /** Registers `sub`, its leaf blocks and its nested subsystems, depth first. */
    method BuildScopes(sub: Subsystem, parent: Option<Parent>, ghost path: Path) returns (myIdx: nat)
      requires SameLengths(State()) && ScopeAt(root, path) == Some(sub)
      requires ParentMirrors(State(), path, parent)
      modifies this
      ensures Added(root, old(State()), State(), path) && OrderAdded(old(State()), State(), path)
      ensures myIdx == old(|scopes|) < |scopes| && paths[myIdx] == path
      decreases sub, 1
    {
      ghost var before := State();
      myIdx := |scopes|;
      OpenScope(root, before, path, Scope([], sub.connections, parent));
      scopes := scopes + [Scope([], sub.connections, parent)];
      paths := paths + [path];
      var kinds: seq<ChildKind> := [];
      for local := 0 to |sub.children|
        invariant |kinds| == local && Building(root, before, State(), path, kinds)
        invariant myIdx < |scopes| && scopes[myIdx] == Scope([], sub.connections, parent)
      {
        kinds := BuildChild(sub, myIdx, local, kinds, path, before);
      }
      ghost var open := State();
      scopes := scopes[myIdx := scopes[myIdx].(children := kinds)];
      CloseScope(root, before, open, path, parent, kinds);
      OrderStays(before, open, State(), path);
    }

    /** One child of `sub`. */
    method BuildChild(
        sub: Subsystem, me: nat, local: nat, kinds: seq<ChildKind>, ghost path: Path, ghost before: Tables)
      returns (more: seq<ChildKind>)
      requires local < |sub.children| && |kinds| == local && ScopeAt(root, path) == Some(sub)
      requires me == |before.scopes| && Building(root, before, State(), path, kinds)
      modifies this
      ensures |more| == local + 1 && Building(root, before, State(), path, more)
      ensures me < |scopes| && me < old(|scopes|) && scopes[me] == old(scopes[me])
      decreases sub, 0
    {
      ghost var u := State();
      match sub.children[local] {
        case Leaf(block) =>
          more := kinds + [LeafAt(|leaves|)];
          leaves := leaves + [block];
          homes := homes + [(me, local)];
          AddLeaf(root, before, u, path, kinds, block);
          OrderLeaf(root, before, u, State(), path, kinds, block);
        case Sub(s) =>
          SubScope(root, path, local);
          var k := BuildScopes(s, Some(Parent(me, local)), path + [local]);
          AddSubsystem(root, before, u, State(), path, kinds);
          OrderSubsystem(root, before, u, State(), path, kinds);
          more := kinds + [SubAt(k)];
      }
    }
  }

  /** Building from the root mirrors the whole tree. */
  lemma {:induction false} RootIsComplete(root: Subsystem, t: Tables)
    requires Added(root, Tables([], [], [], []), t, []) && |t.scopes| > 0 && t.paths[0] == []
    ensures Complete(root, t)
  {
  }

  /** Every scope of the tree has an index. */
  lemma {:induction false} ScopeHasIndex(root: Subsystem, t: Tables, path: Path) returns (i: nat)
    requires Complete(root, t) && IsScope(root, path)
    ensures i < |t.scopes| && t.paths[i] == path
    decreases |path|
  {
    if path == [] {
      i := 0;
    } else {
      var parent, j := path[..|path| - 1], path[|path| - 1];
      var p := ScopeHasIndex(root, t, parent);
      assert Mirrors(root, t, p);
      assert IsChild(root, parent, j) && ChildAt(root, parent, j).Sub?;
      var kind := t.scopes[p].children[j];
      assert KindMirrors(root, t, p, j, kind);
      i := kind.scope;
      assert path == parent + [j];
    }
  }

  /** Every leaf of the tree has exactly one flat id. */
  lemma {:induction false} LeafHasIndex(root: Subsystem, t: Tables, scope: Path, j: nat) returns (f: nat)
    requires Complete(root, t) && IsChild(root, scope, j) && ChildAt(root, scope, j).Leaf?
    ensures f < |t.leaves| && ChildAt(root, scope, j) == Leaf(t.leaves[f])
    ensures LeafPath(t, f) == scope + [j]
    ensures forall g: nat | g < |t.leaves| && LeafPath(t, g) == scope + [j] :: g == f
  {
    var i := ScopeHasIndex(root, t, scope);
    assert Mirrors(root, t, i);
    var kind := t.scopes[i].children[j];
    assert KindMirrors(root, t, i, j, kind);
    f := kind.flat;
    forall g: nat | g < |t.leaves| && LeafPath(t, g) == scope + [j] ensures g == f {
      assert HomeOk(t, g) && HomeOk(t, f);
      assert t.paths[t.homes[g].0] == LeafPath(t, g)[..|LeafPath(t, g)| - 1] == scope;
      assert t.homes[g].0 == i && t.homes[g].1 == j;
    }
  }
}

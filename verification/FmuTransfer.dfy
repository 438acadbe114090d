/** Moving port values to and from an FMU (`src/blocks/fmu.rs`): the layout is collected once, then every transfer
    gathers or scatters one typed buffer per group. */
module FmuTransfer {
  import opened Wrappers
  import opened FmuPorts

  // ---------------------------------------------------------------------------------------
  // The FMU's side
  // ---------------------------------------------------------------------------------------

  /** The elements of the first `n` referenced variables, as the FMU sizes them. */
  function Extent(sizes: map<nat, nat>, vrs: seq<nat>, n: nat): nat
    requires n <= |vrs|
  {
    if n == 0 then 0 else Extent(sizes, vrs, n - 1) + if vrs[n - 1] in sizes then sizes[vrs[n - 1]] else 0
  }

  ghost predicate Consistent(sizes: map<nat, nat>, store: map<nat, seq<Elem>>) {
    store.Keys == sizes.Keys && forall vr | vr in sizes :: |store[vr]| == sizes[vr]
  }

  /** A typed call succeeds if the FMU serves the type, knows the references and expects that many values. */
  predicate Serves(refused: set<VarType>, sizes: map<nat, nat>, ty: VarType, vrs: seq<nat>, n: nat) {
    && ty !in refused
    && (forall i | 0 <= i < |vrs| :: vrs[i] in sizes)
    && Extent(sizes, vrs, |vrs|) == n
  }

  function Concatenated(store: map<nat, seq<Elem>>, vrs: seq<nat>, n: nat): seq<Elem>
    requires n <= |vrs|
  {
    if n == 0 then [] else Concatenated(store, vrs, n - 1) + if vrs[n - 1] in store then store[vrs[n - 1]] else []
  }

  /** The store after the first `n` referenced variables took their part of `buf`. */
  function Assigned(
      sizes: map<nat, nat>, store: map<nat, seq<Elem>>, vrs: seq<nat>, n: nat, buf: seq<Elem>): map<nat, seq<Elem>>
    requires n <= |vrs| && (forall i | 0 <= i < |vrs| :: vrs[i] in sizes)
    requires Extent(sizes, vrs, n) <= |buf|
  {
    if n == 0 then store
    else
      var at := Extent(sizes, vrs, n - 1);
      Assigned(sizes, store, vrs, n - 1, buf)[vrs[n - 1] := buf[at..at + sizes[vrs[n - 1]]]]
  }

  /** An FMU instance as a typed store that may refuse a type. */
  class Instance {
    const refused: set<VarType>
    const sizes: map<nat, nat>
    var store: map<nat, seq<Elem>>

    constructor (refused: set<VarType>, store: map<nat, seq<Elem>>)
      ensures this.refused == refused && this.store == store && Consistent(sizes, store)
    {
      this.refused, this.store := refused, store;
      sizes := map vr | vr in store :: |store[vr]|;
    }

    method Get(ty: VarType, vrs: seq<nat>, n: nat) returns (reply: Option<seq<Elem>>)
      ensures reply == Reply(refused, sizes, store, ty, vrs, n)
    {
      if !Serves(refused, sizes, ty, vrs, n) {
        return None;
      }
      var buf := [];
      for i := 0 to |vrs|
        invariant buf == Concatenated(store, vrs, i)
      {
        buf := buf + if vrs[i] in store then store[vrs[i]] else [];
      }
      return Some(buf);
    }

    method Set(ty: VarType, vrs: seq<nat>, buf: seq<Elem>)
      modifies this
      ensures store == Taken(refused, sizes, old(store), ty, vrs, buf)
    {
      if !Serves(refused, sizes, ty, vrs, |buf|) {
        return;
      }
      var at := 0;
      for i := 0 to |vrs|
        invariant at == Extent(sizes, vrs, i) && at <= |buf|
        invariant store == Assigned(sizes, old(store), vrs, i, buf)
      {
        ExtentGrows(sizes, vrs, i + 1, |vrs|);
        store := store[vrs[i] := buf[at..at + sizes[vrs[i]]]];
        at := at + sizes[vrs[i]];
      }
    }
  }

  lemma {:induction false} ExtentGrows(sizes: map<nat, nat>, vrs: seq<nat>, i: nat, n: nat)
    requires i <= n <= |vrs|
    ensures Extent(sizes, vrs, i) <= Extent(sizes, vrs, n)
    decreases n
  {
    if i < n { ExtentGrows(sizes, vrs, i, n - 1); }
  }

  function Reply(
      refused: set<VarType>, sizes: map<nat, nat>, store: map<nat, seq<Elem>>, ty: VarType, vrs: seq<nat>, n: nat)
    : Option<seq<Elem>>
  {
    if Serves(refused, sizes, ty, vrs, n) then Some(Concatenated(store, vrs, |vrs|)) else None
  }

  function Taken(
      refused: set<VarType>, sizes: map<nat, nat>, store: map<nat, seq<Elem>>, ty: VarType, vrs: seq<nat>,
      buf: seq<Elem>)
    : map<nat, seq<Elem>>
  {
    if Serves(refused, sizes, ty, vrs, |buf|) then Assigned(sizes, store, vrs, |vrs|, buf) else store
  }

  // ---------------------------------------------------------------------------------------
  // Collecting the layout
  // ---------------------------------------------------------------------------------------

  lemma {:induction false} TypesAreDistinct(vars: seq<Variable>)
    ensures forall i, j | 0 <= i < j < |Types(vars)| :: Types(vars)[i] != Types(vars)[j]
    ensures forall v | v in vars :: v.ty in Types(vars)
    decreases |vars|
  {
    if vars != [] {
      var front, v := vars[..|vars| - 1], vars[|vars| - 1];
      assert vars == front + [v];
      TypesAreDistinct(front);
    }
  }

  lemma {:induction false} NoneOfType(vars: seq<Variable>, ty: VarType)
    requires ty !in Types(vars)
    ensures GroupOf(vars, ty) == Group(ty, [], [], [])
    decreases |vars|
  {
    if vars != [] {
      var front, v := vars[..|vars| - 1], vars[|vars| - 1];
      NoneOfType(front, ty);
    }
  }

  /** A variable joins the group of its type, or starts one. */
  function Joined(groups: seq<Group>, v: Variable, start: nat): seq<Group> {
    var g := FindType(groups, v.ty);
    if g < |groups| then groups[g := groups[g].Add(v.vr, start, v.count)]
    else groups + [Group(v.ty, [v.vr], [start], [v.count])]
  }

  /** The first group of type `ty`, or the number of groups. */
  function FindType(groups: seq<Group>, ty: VarType): (g: nat)
    ensures g <= |groups|
    ensures g < |groups| ==> groups[g].ty == ty
    ensures forall i | 0 <= i < g :: groups[i].ty != ty
  {
    if groups == [] then 0 else if groups[0].ty == ty then 0 else 1 + FindType(groups[1..], ty)
  }

  lemma {:induction false} GroupsGrow(front: seq<Variable>, v: Variable)
    ensures Groups(front + [v]) == Joined(Groups(front), v, Start(front, |front|))
  {
    var vars := front + [v];
    assert vars[..|vars| - 1] == front;
    StartOfPrefix(front, v, |front|);
    TypesAreDistinct(front);
    var groups := Groups(front);
    var g := FindType(groups, v.ty);
    assert forall i | 0 <= i < |groups| :: groups[i].ty == Types(front)[i];
    if g == |groups| {
      assert v.ty !in Types(front);
      NoneOfType(front, v.ty);
      assert Types(vars) == Types(front) + [v.ty];
      assert GroupOf(vars, v.ty) == Group(v.ty, [], [], []).Add(v.vr, Start(front, |front|), v.count);
    } else {
      assert v.ty == Types(front)[g] && Types(vars) == Types(front);
    }
    forall k | 0 <= k < |Types(vars)| ensures Groups(vars)[k] == Joined(groups, v, Start(front, |front|))[k] {
      if k < |groups| && k != g { assert Types(front)[k] != v.ty; }
    }
  }

  /** Variables, ports and types of one direction of an FMU block. */
  class PortLayout {
    const groups: seq<Group>
    const nPorts: nat

    constructor Collect(vars: seq<Variable>)
      ensures groups == Groups(Kept(vars)) && nPorts == Start(Kept(vars), |Kept(vars)|)
    {
      var byType: seq<Group>, n: nat := [], 0;
      for i := 0 to |vars|
        invariant byType == Groups(Kept(vars[..i])) && n == Start(Kept(vars[..i]), |Kept(vars[..i])|)
      {
        var v := vars[i];
        assert vars[..i + 1][..i] == vars[..i];
        if v.count != 0 && Numeric(v.ty) {
          GroupsGrow(Kept(vars[..i]), v);
          StartOfPrefix(Kept(vars[..i]), v, |Kept(vars[..i])|);
          var g := FindType(byType, v.ty);
          if g < |byType| {
            byType := byType[g := byType[g].Add(v.vr, n, v.count)];
          } else {
            byType := byType + [Group(v.ty, [v.vr], [n], [v.count])];
          }
          n := n + v.count;
        }
      }
      assert vars[..|vars|] == vars;
      groups, nPorts := byType, n;
    }

    /** Where a value reference's elements are in the port numbering. */
    method Locate(vr: nat) returns (place: Option<(nat, nat)>)
      requires forall g | 0 <= g < |groups| :: groups[g].Even()
      ensures place == Located(groups, |groups|, vr)
    {
      for g := 0 to |groups|
        invariant Located(groups, g, vr).None?
      {
        for i := 0 to |groups[g].vrs|
          invariant forall k | 0 <= k < i :: groups[g].vrs[k] != vr
        {
          if groups[g].vrs[i] == vr {
            FirstIs(groups[g].vrs, vr, i);
            LocatedStays(groups, g + 1, |groups|, vr);
            return Some((groups[g].offsets[i], groups[g].counts[i]));
          }
        }
        FirstIs(groups[g].vrs, vr, |groups[g].vrs|);
      }
      return None;
    }

    /** Gather the values into one typed buffer per group and hand it to the FMU; missing values are zero. */
    method Write(inst: Instance, values: seq<real>, single: real -> real)
      requires forall g | 0 <= g < |groups| :: groups[g].Even()
      modifies inst
      ensures inst.store == Written(inst.refused, inst.sizes, old(inst.store), groups, |groups|, values, single)
    {
      for g := 0 to |groups|
        invariant inst.store == Written(inst.refused, inst.sizes, old(inst.store), groups, g, values, single)
      {
        var buf := Gather(groups[g], values, single);
        inst.Set(groups[g].ty, groups[g].vrs, buf);
      }
    }

    static method Gather(g: Group, values: seq<real>, single: real -> real) returns (buf: seq<Elem>)
      requires g.Even()
      ensures buf == Gathered(g, |g.vrs|, values, single)
    {
      buf := [];
      for i := 0 to |g.vrs|
        invariant buf == Gathered(g, i, values, single)
      {
        ghost var before := buf;
        for k := 0 to g.counts[i]
          invariant buf == before + NarrowedPorts(g.ty, g.offsets[i], k, values, single)
        {
          buf := buf + [Narrow(g.ty, ValueAt(values, g.offsets[i] + k), single)];
        }
      }
    }

    /** Read every group and scatter the values; a group that fails leaves its ports as they were. */
    method Read(inst: Instance, out: array<real>)
      requires AllFit(groups, out.Length)
      modifies out
      ensures out[..] == Scattered(inst.refused, inst.sizes, inst.store, groups, |groups|, old(out[..]))
    {
      for g := 0 to |groups|
        invariant out[..] == Scattered(inst.refused, inst.sizes, inst.store, groups, g, old(out[..]))
      {
        var group := groups[g];
        assert Fits(group, out.Length);
        var reply := inst.Get(group.ty, group.vrs, Total(group.counts, |group.counts|));
        if reply.Some? {
          Scatter(group, reply.value, out);
        }
      }
    }

    static method Scatter(g: Group, buf: seq<Elem>, out: array<real>)
      requires Fits(g, out.Length)
      modifies out
      ensures out[..] == ScatteredGroup(g, |g.vrs|, buf, old(out[..]))
    {
      var src := 0;
      for i := 0 to |g.vrs|
        invariant src == Total(g.counts, i)
        invariant out[..] == ScatteredGroup(g, i, buf, old(out[..]))
      {
        ghost var before := out[..];
        for k := 0 to g.counts[i]
          invariant out[..] == Placed(before, g.offsets[i], k, buf, src)
        {
          out[g.offsets[i] + k] := Widen(ElemAt(buf, src + k));
        }
        src := src + g.counts[i];
      }
    }
  }

  function ValueAt(values: seq<real>, p: nat): real {
    if p < |values| then values[p] else 0.0
  }

  function ElemAt(buf: seq<Elem>, i: nat): Elem {
    if i < |buf| then buf[i] else Real(0.0)
  }

  function Total(counts: seq<nat>, n: nat): nat
    requires n <= |counts|
  {
    if n == 0 then 0 else Total(counts, n - 1) + counts[n - 1]
  }

  function NarrowedPorts(ty: VarType, offset: nat, n: nat, values: seq<real>, single: real -> real): (r: seq<Elem>)
    ensures |r| == n && forall k | 0 <= k < n :: r[k] == Narrow(ty, ValueAt(values, offset + k), single)
  {
    if n == 0 then []
    else NarrowedPorts(ty, offset, n - 1, values, single) + [Narrow(ty, ValueAt(values, offset + n - 1), single)]
  }

  /** The buffer of the first `n` variables of a group. */
  function Gathered(g: Group, n: nat, values: seq<real>, single: real -> real): (r: seq<Elem>)
    requires g.Even() && n <= |g.vrs|
    ensures |r| == Total(g.counts, n)
  {
    if n == 0 then []
    else Gathered(g, n - 1, values, single) + NarrowedPorts(g.ty, g.offsets[n - 1], g.counts[n - 1], values, single)
  }

  function Written(refused: set<VarType>, sizes: map<nat, nat>, store: map<nat, seq<Elem>>, groups: seq<Group>, n: nat,
                   values: seq<real>, single: real -> real): map<nat, seq<Elem>>
    requires n <= |groups| && forall g | 0 <= g < |groups| :: groups[g].Even()
  {
    if n == 0 then store
    else
      var g := groups[n - 1];
      Taken(refused, sizes, Written(refused, sizes, store, groups, n - 1, values, single), g.ty, g.vrs,
            Gathered(g, |g.vrs|, values, single))
  }

  predicate Fits(g: Group, ports: nat) {
    g.Even() && forall i | 0 <= i < |g.vrs| :: g.offsets[i] + g.counts[i] <= ports
  }

  predicate AllFit(groups: seq<Group>, ports: nat) {
    forall g | 0 <= g < |groups| :: Fits(groups[g], ports)
  }

  /** `n` elements of `buf` from `src` on, placed at `offset`. */
  function Placed(out: seq<real>, offset: nat, n: nat, buf: seq<Elem>, src: nat): (r: seq<real>)
    requires offset + n <= |out|
    ensures |r| == |out|
    ensures forall p | 0 <= p < |out| ::
            r[p] == if offset <= p < offset + n then Widen(ElemAt(buf, src + p - offset)) else out[p]
  {
    if n == 0 then out else Placed(out, offset, n - 1, buf, src)[offset + n - 1 := Widen(ElemAt(buf, src + n - 1))]
  }

  function ScatteredGroup(g: Group, n: nat, buf: seq<Elem>, out: seq<real>): (r: seq<real>)
    requires Fits(g, |out|) && n <= |g.vrs|
    ensures |r| == |out|
  {
    if n == 0 then out
    else Placed(ScatteredGroup(g, n - 1, buf, out), g.offsets[n - 1], g.counts[n - 1], buf, Total(g.counts, n - 1))
  }

  function Scattered(
      refused: set<VarType>, sizes: map<nat, nat>, store: map<nat, seq<Elem>>, groups: seq<Group>, n: nat,
      out: seq<real>)
    : (r: seq<real>)
    requires n <= |groups| && AllFit(groups, |out|)
    ensures |r| == |out|
  {
    if n == 0 then out
    else
      var before := Scattered(refused, sizes, store, groups, n - 1, out);
      var g := groups[n - 1];
      var reply := Reply(refused, sizes, store, g.ty, g.vrs, Total(g.counts, |g.counts|));
      assert Fits(g, |out|);
      if reply.Some? then ScatteredGroup(g, |g.vrs|, reply.value, before) else before
  }

  function First(vrs: seq<nat>, vr: nat): (i: nat)
    ensures i <= |vrs|
    ensures i < |vrs| ==> vrs[i] == vr
    ensures forall k | 0 <= k < i :: vrs[k] != vr
  {
    if vrs == [] then 0 else if vrs[0] == vr then 0 else 1 + First(vrs[1..], vr)
  }

  lemma {:induction false} FirstIs(vrs: seq<nat>, vr: nat, i: nat)
    requires i <= |vrs| && (i < |vrs| ==> vrs[i] == vr) && forall k | 0 <= k < i :: vrs[k] != vr
    ensures First(vrs, vr) == i
  {
  }

  function Located(groups: seq<Group>, n: nat, vr: nat): Option<(nat, nat)>
    requires n <= |groups| && forall g | 0 <= g < |groups| :: groups[g].Even()
  {
    if n == 0 then None
    else if Located(groups, n - 1, vr).Some? then Located(groups, n - 1, vr)
    else
      var g := groups[n - 1];
      var i := First(g.vrs, vr);
      if i < |g.vrs| then Some((g.offsets[i], g.counts[i])) else None
  }

  lemma {:induction false} LocatedStays(groups: seq<Group>, m: nat, n: nat, vr: nat)
    requires m <= n <= |groups| && (forall g | 0 <= g < |groups| :: groups[g].Even()) && Located(groups, m, vr).Some?
    ensures Located(groups, n, vr) == Located(groups, m, vr)
    decreases n
  {
    if m < n { LocatedStays(groups, m, n - 1, vr); }
  }

  ghost predicate DistinctRefs(vars: seq<Variable>) {
    forall i, j | 0 <= i < j < |vars| :: vars[i].vr != vars[j].vr
  }

  lemma {:induction false} LocateMisses(vars: seq<Variable>, vr: nat, n: nat)
    requires n <= |Types(vars)| && forall j | 0 <= j < |vars| && vars[j].ty in Types(vars)[..n] :: vars[j].vr != vr
    ensures Located(Groups(vars), n, vr).None?
    decreases n
  {
    if n > 0 {
      var ty := Types(vars)[n - 1];
      assert Types(vars)[..n] == Types(vars)[..n - 1] + [ty];
      LocateMisses(vars, vr, n - 1);
      var g := GroupOf(vars, ty);
      var i := First(g.vrs, vr);
      if i < |g.vrs| {
        var j := EntryIsAVariable(vars, ty, i);
        assert false;
      }
    }
  }

  lemma {:induction false} LocateFinds(vars: seq<Variable>, j: nat, t: nat)
    requires DistinctRefs(vars) && j < |vars| && t < |Types(vars)| && Types(vars)[t] == vars[j].ty
    ensures Located(Groups(vars), t + 1, vars[j].vr) == Some((Start(vars, j), vars[j].count))
  {
    TypesAreDistinct(vars);
    assert vars[j].ty !in Types(vars)[..t];
    LocateMisses(vars, vars[j].vr, t);
    VariableIsInItsGroup(vars, j);
    var g := GroupOf(vars, vars[j].ty);
    var i := First(g.vrs, vars[j].vr);
    var e := EntryIsAVariable(vars, vars[j].ty, i);
    assert e == j;
  }

  lemma {:induction false} LocateFindsAmongAll(vars: seq<Variable>, j: nat)
    requires DistinctRefs(vars) && j < |vars|
    ensures Located(Groups(vars), |Groups(vars)|, vars[j].vr) == Some((Start(vars, j), vars[j].count))
  {
    TypesAreDistinct(vars);
    assert vars[j] in vars;
    var t :| 0 <= t < |Types(vars)| && Types(vars)[t] == vars[j].ty;
    LocateFinds(vars, j, t);
    LocatedStays(Groups(vars), t + 1, |Groups(vars)|, vars[j].vr);
  }

  /** Looking a variable up gives its first port and size; a reference that is no port is not found. */
  lemma {:induction false} LocateAgrees(vars: seq<Variable>, vr: nat)
    requires DistinctRefs(vars)
    ensures var r := Located(Groups(vars), |Groups(vars)|, vr);
            && (r.Some? <==> exists j | 0 <= j < |vars| :: vars[j].vr == vr)
            && (forall j: nat {:trigger Start(vars, j)} | j < |vars| && vars[j].vr == vr ::
                  r == Some((Start(vars, j), vars[j].count)))
  {
    forall j: nat | j < |vars| && vars[j].vr == vr
      ensures Located(Groups(vars), |Groups(vars)|, vr) == Some((Start(vars, j), vars[j].count))
    {
      LocateFindsAmongAll(vars, j);
    }
    if forall j | 0 <= j < |vars| :: vars[j].vr != vr {
      LocateMisses(vars, vr, |Types(vars)|);
    } else {
      var j: nat :| j < |vars| && vars[j].vr == vr;
      assert Located(Groups(vars), |Groups(vars)|, vr) == Some((Start(vars, j), vars[j].count));
    }
  }
}

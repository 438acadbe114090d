/** Writing port values into an FMU and reading them back (`src/blocks/fmu.rs`, FMI 3.0, section 2.2.6): every
    port gets its own value back, as far as its type can hold it. */
module FmuRoundTrip {
  import opened FmuPorts
  import opened FmuTransfer

  /** The FMU has every variable, sized as the model description says. */
  ghost predicate Sized(vars: seq<Variable>, sizes: map<nat, nat>) {
    forall j | 0 <= j < |vars| :: vars[j].vr in sizes && sizes[vars[j].vr] == vars[j].count
  }

  lemma {:induction false} EntryFits(vars: seq<Variable>, ty: VarType, i: nat)
    requires i < |GroupOf(vars, ty).vrs|
    ensures GroupOf(vars, ty).offsets[i] + GroupOf(vars, ty).counts[i] <= Start(vars, |vars|)
  {
    var j := EntryIsAVariable(vars, ty, i);
    StartGrows(vars, j + 1, |vars|);
  }

  /** The collected ports stay within the port count. */
  lemma {:induction false} CollectedFits(vars: seq<Variable>)
    ensures AllFit(Groups(vars), Start(vars, |vars|))
  {
    forall t | 0 <= t < |Groups(vars)| ensures Fits(Groups(vars)[t], Start(vars, |vars|)) {
      var g := GroupOf(vars, Types(vars)[t]);
      forall i | 0 <= i < |g.vrs| ensures g.offsets[i] + g.counts[i] <= Start(vars, |vars|) {
        EntryFits(vars, Types(vars)[t], i);
      }
    }
  }

  // ---------------------------------------------------------------------------------------
  // One group
  // ---------------------------------------------------------------------------------------

  ghost predicate GroupSized(g: Group, sizes: map<nat, nat>) {
    g.Even() && forall i | 0 <= i < |g.vrs| :: g.vrs[i] in sizes && sizes[g.vrs[i]] == g.counts[i]
  }

  ghost predicate GroupDistinct(g: Group) {
    forall i, k | 0 <= i < k < |g.vrs| :: g.vrs[i] != g.vrs[k]
  }

  lemma {:induction false} GroupIsSized(vars: seq<Variable>, ty: VarType, sizes: map<nat, nat>)
    requires DistinctRefs(vars) && Sized(vars, sizes)
    ensures GroupSized(GroupOf(vars, ty), sizes) && GroupDistinct(GroupOf(vars, ty))
  {
    var g := GroupOf(vars, ty);
    forall i | 0 <= i < |g.vrs| ensures g.vrs[i] in sizes && sizes[g.vrs[i]] == g.counts[i] {
      var j := EntryIsAVariable(vars, ty, i);
    }
    forall i, k | 0 <= i < k < |g.vrs| ensures g.vrs[i] != g.vrs[k] {
      var a := EntryIsAVariable(vars, ty, i);
      var b := EntryIsAVariable(vars, ty, k);
      assert a != b;
    }
  }

  lemma {:induction false} ExtentIsTotal(g: Group, sizes: map<nat, nat>, n: nat)
    requires GroupSized(g, sizes) && n <= |g.vrs|
    ensures Extent(sizes, g.vrs, n) == Total(g.counts, n)
    decreases n
  {
    if n > 0 { ExtentIsTotal(g, sizes, n - 1); }
  }

  lemma {:induction false} TotalGrows(counts: seq<nat>, i: nat, n: nat)
    requires i <= n <= |counts|
    ensures Total(counts, i) <= Total(counts, n)
    decreases n
  {
    if i < n { TotalGrows(counts, i, n - 1); }
  }

  lemma {:induction false} GatheredAt(g: Group, n: nat, i: nat, k: nat, values: seq<real>, single: real -> real)
    requires g.Even() && i < n <= |g.vrs| && k < g.counts[i]
    ensures Total(g.counts, i) + k < Total(g.counts, n)
    ensures Gathered(g, n, values, single)[Total(g.counts, i) + k] ==
            Narrow(g.ty, ValueAt(values, g.offsets[i] + k), single)
    decreases n
  {
    TotalGrows(g.counts, i + 1, n);
    if i < n - 1 { GatheredAt(g, n - 1, i, k, values, single); }
  }

  /** A variable of the group that was set holds its part of the buffer. */
  lemma {:induction false} AssignedAt(
      sizes: map<nat, nat>, store: map<nat, seq<Elem>>, g: Group, n: nat, buf: seq<Elem>, i: nat)
    requires GroupSized(g, sizes) && GroupDistinct(g) && i < n <= |g.vrs|
    requires Extent(sizes, g.vrs, n) <= |buf|
    ensures Total(g.counts, i) + g.counts[i] <= |buf|
    ensures g.vrs[i] in Assigned(sizes, store, g.vrs, n, buf)
    ensures Assigned(sizes, store, g.vrs, n, buf)[g.vrs[i]] == buf[Total(g.counts, i)..Total(g.counts, i) + g.counts[i]]
    decreases n
  {
    ExtentIsTotal(g, sizes, n - 1);
    ExtentIsTotal(g, sizes, n);
    TotalGrows(g.counts, i + 1, n);
    if i < n - 1 {
      assert g.vrs[i] != g.vrs[n - 1];
      AssignedAt(sizes, store, g, n - 1, buf, i);
    }
  }

  /** Every other variable holds what it held. */
  lemma {:induction false} AssignedElsewhere(
      sizes: map<nat, nat>, store: map<nat, seq<Elem>>, g: Group, n: nat, buf: seq<Elem>, vr: nat)
    requires GroupSized(g, sizes) && n <= |g.vrs| && Extent(sizes, g.vrs, n) <= |buf|
    requires vr in store && forall i | 0 <= i < n :: g.vrs[i] != vr
    ensures vr in Assigned(sizes, store, g.vrs, n, buf) && Assigned(sizes, store, g.vrs, n, buf)[vr] == store[vr]
    decreases n
  {
    if n > 0 {
      ExtentGrows(sizes, g.vrs, n - 1, n);
      AssignedElsewhere(sizes, store, g, n - 1, buf, vr);
    }
  }

  lemma {:induction false} ConcatenatedAt(
      g: Group, sizes: map<nat, nat>, store: map<nat, seq<Elem>>, n: nat, i: nat, k: nat)
    requires GroupSized(g, sizes) && i < n <= |g.vrs| && k < g.counts[i]
    requires forall m | 0 <= m < |g.vrs| :: g.vrs[m] in store && |store[g.vrs[m]]| == g.counts[m]
    ensures |Concatenated(store, g.vrs, n)| == Total(g.counts, n)
    ensures Total(g.counts, i) + k < Total(g.counts, n)
    ensures Concatenated(store, g.vrs, n)[Total(g.counts, i) + k] == store[g.vrs[i]][k]
    decreases n
  {
    TotalGrows(g.counts, i + 1, n);
    ConcatenatedSize(g, store, n - 1);
    if i < n - 1 { ConcatenatedAt(g, sizes, store, n - 1, i, k); }
  }

  lemma {:induction false} ConcatenatedSize(g: Group, store: map<nat, seq<Elem>>, n: nat)
    requires g.Even() && n <= |g.vrs| && forall m | 0 <= m < |g.vrs| ::
             g.vrs[m] in store && |store[g.vrs[m]]| == g.counts[m]
    ensures |Concatenated(store, g.vrs, n)| == Total(g.counts, n)
    decreases n
  {
    if n > 0 { ConcatenatedSize(g, store, n - 1); }
  }

  ghost predicate InSlot(g: Group, i: nat, p: nat)
    requires g.Even() && i < |g.vrs|
  {
    g.offsets[i] <= p < g.offsets[i] + g.counts[i]
  }

  lemma {:induction false} ScatteredElsewhere(g: Group, n: nat, buf: seq<Elem>, out: seq<real>, p: nat)
    requires Fits(g, |out|) && n <= |g.vrs| && p < |out|
    requires forall m: nat | m < n :: !InSlot(g, m, p)
    ensures ScatteredGroup(g, n, buf, out)[p] == out[p]
    decreases n
  {
    if n > 0 {
      assert !InSlot(g, n - 1, p);
      ScatteredElsewhere(g, n - 1, buf, out, p);
    }
  }

  lemma {:induction false} ScatteredAt(g: Group, n: nat, buf: seq<Elem>, out: seq<real>, i: nat, p: nat)
    requires Fits(g, |out|) && i < n <= |g.vrs| && p < |out| && InSlot(g, i, p)
    requires forall m: nat | m < n && m != i :: !InSlot(g, m, p)
    ensures ScatteredGroup(g, n, buf, out)[p] == Widen(ElemAt(buf, Total(g.counts, i) + p - g.offsets[i]))
    decreases n
  {
    if i < n - 1 {
      assert !InSlot(g, n - 1, p);
      ScatteredAt(g, n - 1, buf, out, i, p);
    }
  }

  /** Within a group only the owner's slot contains its port; other types' groups do not contain it at all. */
  lemma {:induction false} SlotsOfPort(vars: seq<Variable>, ty: VarType, j: nat, p: nat)
    requires j < |vars| && Owns(vars, j, p)
    ensures var g := GroupOf(vars, ty);
            && (vars[j].ty != ty ==> forall m: nat | m < |g.vrs| :: !InSlot(g, m, p))
            && (vars[j].ty == ty ==> Place(vars, ty, j) < |g.vrs| && InSlot(g, Place(vars, ty, j), p)
                                     && forall m: nat | m < |g.vrs| && m != Place(vars, ty, j) :: !InSlot(g, m, p))
  {
    var g := GroupOf(vars, ty);
    VariableIsInItsGroup(vars, j);
    StartGrows(vars, j + 1, |vars|);
    var owner := PortHasOneOwner(vars, |vars|, p);
    forall m: nat | m < |g.vrs| && InSlot(g, m, p) ensures vars[j].ty == ty && m == Place(vars, ty, j) {
      var e := EntryIsAVariable(vars, ty, m);
      assert Owns(vars, e, p);
    }
  }

  // ---------------------------------------------------------------------------------------
  // All groups
  // ---------------------------------------------------------------------------------------

  lemma {:induction false} GroupIsServed(vars: seq<Variable>, ty: VarType, refused: set<VarType>, sizes: map<nat, nat>)
    requires DistinctRefs(vars) && Sized(vars, sizes)
    ensures var g := GroupOf(vars, ty); Serves(refused, sizes, ty, g.vrs, Total(g.counts, |g.vrs|)) <==> ty !in refused
  {
    var g := GroupOf(vars, ty);
    GroupIsSized(vars, ty, sizes);
    ExtentIsTotal(g, sizes, |g.vrs|);
  }

  /** What variable `j` is given: its ports' values, narrowed. */
  function PortsOf(vars: seq<Variable>, j: nat, values: seq<real>, single: real -> real): seq<Elem>
    requires j < |vars|
  {
    NarrowedPorts(vars[j].ty, Start(vars, j), vars[j].count, values, single)
  }

  /** A type among the first `t` is either among those before or the last of them, and not both. */
  lemma {:induction false} TypeComesNext(vars: seq<Variable>, t: nat, ty: VarType)
    requires 0 < t <= |Types(vars)|
    ensures ty in Types(vars)[..t] <==> ty in Types(vars)[..t - 1] || ty == Types(vars)[t - 1]
    ensures Types(vars)[t - 1] !in Types(vars)[..t - 1]
  {
    TypesAreDistinct(vars);
    assert Types(vars)[..t] == Types(vars)[..t - 1] + [Types(vars)[t - 1]];
  }

  /** After the first `t` groups were written, a variable of a type among them holds its ports' values, unless
      the FMU refused the type; any other variable holds what it held. */
  lemma {:induction false} WrittenHolds(
      vars: seq<Variable>, refused: set<VarType>, sizes: map<nat, nat>, store: map<nat, seq<Elem>>, t: nat,
      values: seq<real>, single: real -> real, j: nat)
    requires DistinctRefs(vars) && Sized(vars, sizes) && t <= |Types(vars)| && j < |vars| && vars[j].vr in store
    ensures var r := Written(refused, sizes, store, Groups(vars), t, values, single);
            vars[j].vr in r && r[vars[j].vr] ==
              if vars[j].ty in Types(vars)[..t] && vars[j].ty !in refused then PortsOf(vars, j, values, single)
              else store[vars[j].vr]
    decreases t
  {
    if t > 0 {
      WrittenHolds(vars, refused, sizes, store, t - 1, values, single, j);
      var before := Written(refused, sizes, store, Groups(vars), t - 1, values, single);
      var ty := Types(vars)[t - 1];
      TypeComesNext(vars, t, vars[j].ty);
      GroupWrites(vars, refused, sizes, before, ty, values, single, j);
    }
  }

  /** A variable is given its own ports' values by its group. */
  lemma {:induction false} OwnGroupWrites(vars: seq<Variable>, sizes: map<nat, nat>, store: map<nat, seq<Elem>>,
                                          values: seq<real>, single: real -> real, j: nat)
    requires DistinctRefs(vars) && Sized(vars, sizes) && j < |vars|
    ensures var g := GroupOf(vars, vars[j].ty);
            var buf := Gathered(g, |g.vrs|, values, single);
            && (forall i | 0 <= i < |g.vrs| :: g.vrs[i] in sizes) && Extent(sizes, g.vrs, |g.vrs|) <= |buf|
            && vars[j].vr in Assigned(sizes, store, g.vrs, |g.vrs|, buf)
            && Assigned(sizes, store, g.vrs, |g.vrs|, buf)[vars[j].vr] == PortsOf(vars, j, values, single)
  {
    var g := GroupOf(vars, vars[j].ty);
    var buf := Gathered(g, |g.vrs|, values, single);
    GroupIsSized(vars, vars[j].ty, sizes);
    ExtentIsTotal(g, sizes, |g.vrs|);
    VariableIsInItsGroup(vars, j);
    var i := Place(vars, vars[j].ty, j);
    AssignedAt(sizes, store, g, |g.vrs|, buf, i);
    forall k | 0 <= k < vars[j].count
      ensures buf[Total(g.counts, i) + k] == PortsOf(vars, j, values, single)[k]
    {
      GatheredAt(g, |g.vrs|, i, k, values, single);
    }
  }

  /** No other group touches it. */
  lemma {:induction false} OtherGroupKeeps(vars: seq<Variable>, sizes: map<nat, nat>, store: map<nat, seq<Elem>>,
                                           ty: VarType, values: seq<real>, single: real -> real, j: nat)
    requires DistinctRefs(vars) && Sized(vars, sizes) && j < |vars| && vars[j].vr in store && vars[j].ty != ty
    ensures var g := GroupOf(vars, ty);
            var buf := Gathered(g, |g.vrs|, values, single);
            && (forall i | 0 <= i < |g.vrs| :: g.vrs[i] in sizes) && Extent(sizes, g.vrs, |g.vrs|) <= |buf|
            && vars[j].vr in Assigned(sizes, store, g.vrs, |g.vrs|, buf)
            && Assigned(sizes, store, g.vrs, |g.vrs|, buf)[vars[j].vr] == store[vars[j].vr]
  {
    var g := GroupOf(vars, ty);
    var buf := Gathered(g, |g.vrs|, values, single);
    GroupIsSized(vars, ty, sizes);
    ExtentIsTotal(g, sizes, |g.vrs|);
    forall i | 0 <= i < |g.vrs| ensures g.vrs[i] != vars[j].vr {
      var e := EntryIsAVariable(vars, ty, i);
    }
    AssignedElsewhere(sizes, store, g, |g.vrs|, buf, vars[j].vr);
  }

  lemma {:induction false} GroupWrites(
      vars: seq<Variable>, refused: set<VarType>, sizes: map<nat, nat>, store: map<nat, seq<Elem>>, ty: VarType,
      values: seq<real>, single: real -> real, j: nat)
    requires DistinctRefs(vars) && Sized(vars, sizes) && j < |vars| && vars[j].vr in store
    ensures var g := GroupOf(vars, ty);
            var r := Taken(refused, sizes, store, ty, g.vrs, Gathered(g, |g.vrs|, values, single));
            vars[j].vr in r && r[vars[j].vr] ==
              if vars[j].ty == ty && ty !in refused then PortsOf(vars, j, values, single) else store[vars[j].vr]
  {
    GroupIsServed(vars, ty, refused, sizes);
    if ty !in refused {
      if vars[j].ty == ty {
        OwnGroupWrites(vars, sizes, store, values, single, j);
      } else {
        OtherGroupKeeps(vars, sizes, store, ty, values, single, j);
      }
    }
  }

  ghost predicate StoreSized(vars: seq<Variable>, store: map<nat, seq<Elem>>) {
    forall j | 0 <= j < |vars| :: vars[j].vr in store && |store[vars[j].vr]| == vars[j].count
  }

  /** Port `p` of variable `j` after the first `t` groups were read. */
  lemma {:induction false} ScatteredPort(
      vars: seq<Variable>, refused: set<VarType>, sizes: map<nat, nat>, store: map<nat, seq<Elem>>, t: nat,
      out: seq<real>, j: nat, p: nat)
    requires DistinctRefs(vars) && Sized(vars, sizes) && StoreSized(vars, store)
    requires t <= |Types(vars)| && AllFit(Groups(vars), |out|) && j < |vars| && Owns(vars, j, p) && p < |out|
    ensures Scattered(refused, sizes, store, Groups(vars), t, out)[p] ==
            if vars[j].ty in Types(vars)[..t] && vars[j].ty !in refused then
              Widen(store[vars[j].vr][p - Start(vars, j)])
            else out[p]
    decreases t
  {
    if t > 0 {
      ScatteredPort(vars, refused, sizes, store, t - 1, out, j, p);
      var ty := Types(vars)[t - 1];
      TypeComesNext(vars, t, vars[j].ty);
      assert Fits(Groups(vars)[t - 1], |out|);
      GroupScatters(vars, refused, sizes, store, ty, Scattered(refused, sizes, store, Groups(vars), t - 1, out), j, p);
    }
  }

  lemma {:induction false} GroupScatters(
      vars: seq<Variable>, refused: set<VarType>, sizes: map<nat, nat>, store: map<nat, seq<Elem>>, ty: VarType,
      out: seq<real>, j: nat, p: nat)
    requires DistinctRefs(vars) && Sized(vars, sizes) && StoreSized(vars, store)
    requires Fits(GroupOf(vars, ty), |out|) && j < |vars| && Owns(vars, j, p) && p < |out|
    ensures var g := GroupOf(vars, ty);
            var reply := Reply(refused, sizes, store, ty, g.vrs, Total(g.counts, |g.counts|));
            && (reply.Some? <==> ty !in refused)
            && (reply.Some? ==> ScatteredGroup(g, |g.vrs|, reply.value, out)[p] ==
                                if vars[j].ty == ty then Widen(store[vars[j].vr][p - Start(vars, j)]) else out[p])
  {
    var g := GroupOf(vars, ty);
    GroupIsSized(vars, ty, sizes);
    GroupIsServed(vars, ty, refused, sizes);
    SlotsOfPort(vars, ty, j, p);
    forall m | 0 <= m < |g.vrs| ensures g.vrs[m] in store && |store[g.vrs[m]]| == g.counts[m] {
      var e := EntryIsAVariable(vars, ty, m);
    }
    if ty !in refused {
      var buf := Concatenated(store, g.vrs, |g.vrs|);
      if vars[j].ty == ty {
        var i := Place(vars, ty, j);
        VariableIsInItsGroup(vars, j);
        ScatteredAt(g, |g.vrs|, buf, out, i, p);
        ConcatenatedAt(g, sizes, store, |g.vrs|, i, p - Start(vars, j));
      } else {
        ScatteredElsewhere(g, |g.vrs|, buf, out, p);
      }
    }
  }

  lemma {:induction false} WritingKeepsSizes(
      vars: seq<Variable>, refused: set<VarType>, sizes: map<nat, nat>, store: map<nat, seq<Elem>>, values: seq<real>,
      single: real -> real)
    requires DistinctRefs(vars) && Sized(vars, sizes) && StoreSized(vars, store)
    ensures StoreSized(vars, Written(refused, sizes, store, Groups(vars), |Groups(vars)|, values, single))
  {
    var written := Written(refused, sizes, store, Groups(vars), |Groups(vars)|, values, single);
    forall i | 0 <= i < |vars| ensures vars[i].vr in written && |written[vars[i].vr]| == vars[i].count {
      WrittenHolds(vars, refused, sizes, store, |Types(vars)|, values, single, i);
    }
  }

  lemma {:induction false} TypeIsListed(vars: seq<Variable>, j: nat)
    requires j < |vars|
    ensures vars[j].ty in Types(vars)[..|Types(vars)|]
  {
    assert Types(vars)[..|Types(vars)|] == Types(vars) && vars[j] in vars;
    TypesAreDistinct(vars);
  }

  /** `got` are the values at the variable's ports, narrowed, in order; a missing value counts as 0. */
  ghost predicate GivenPorts(v: Variable, first: nat, values: seq<real>, single: real -> real, got: seq<Elem>) {
    |got| == v.count && forall k: nat {:trigger got[k]} | k < v.count ::
      got[k] == Narrow(v.ty, if first + k < |values| then values[first + k] else 0.0, single)
  }

  lemma {:induction false} PortsAreGiven(vars: seq<Variable>, j: nat, values: seq<real>, single: real -> real)
    requires j < |vars|
    ensures GivenPorts(vars[j], Start(vars, j), values, single, PortsOf(vars, j, values, single))
  {
  }

  /** After a transfer to the FMU each variable holds the values of its own ports; variables of a refused type hold
      what they held. */
  lemma {:induction false} WritingMeans(
      vars: seq<Variable>, refused: set<VarType>, sizes: map<nat, nat>, store: map<nat, seq<Elem>>, values: seq<real>,
      single: real -> real, j: nat, r: map<nat, seq<Elem>>)
    requires DistinctRefs(vars) && Sized(vars, sizes) && j < |vars| && vars[j].vr in store
    requires r == Written(refused, sizes, store, Groups(vars), |Groups(vars)|, values, single)
    ensures vars[j].vr in r
    ensures if vars[j].ty in refused then r[vars[j].vr] == store[vars[j].vr]
            else GivenPorts(vars[j], Start(vars, j), values, single, r[vars[j].vr])
  {
    TypeIsListed(vars, j);
    PortsAreGiven(vars, j, values, single);
    WrittenHolds(vars, refused, sizes, store, |Types(vars)|, values, single, j);
  }

  /** After a transfer from the FMU each port has the value its variable holds for it, widened; ports of a refused type
      keep what they had. */
  lemma {:induction false} ReadingMeans(
      vars: seq<Variable>, refused: set<VarType>, sizes: map<nat, nat>, store: map<nat, seq<Elem>>, out: seq<real>,
      j: nat, k: nat, r: seq<real>)
    requires DistinctRefs(vars) && Sized(vars, sizes) && StoreSized(vars, store)
    requires |out| == Start(vars, |vars|) && j < |vars| && k < vars[j].count && Start(vars, j) + k < |out|
    requires AllFit(Groups(vars), |out|) && r == Scattered(refused, sizes, store, Groups(vars), |Groups(vars)|, out)
    ensures |r| == |out| && vars[j].vr in store && k < |store[vars[j].vr]|
    ensures r[Start(vars, j) + k] ==
            if vars[j].ty in refused then out[Start(vars, j) + k] else Widen(store[vars[j].vr][k])
  {
    TypeIsListed(vars, j);
    assert Owns(vars, j, Start(vars, j) + k);
    ScatteredPort(vars, refused, sizes, store, |Types(vars)|, out, j, Start(vars, j) + k);
  }

  /** The round trip: values written to an FMU that keeps what it is given and read back come out at the port they
      went in, narrowed to the variable's type and widened again. Ports of a refused type keep what they had. */
  lemma {:induction false} WriteThenRead(
      vars: seq<Variable>, refused: set<VarType>, sizes: map<nat, nat>, store: map<nat, seq<Elem>>, values: seq<real>,
      single: real -> real, out: seq<real>, p: nat, written: map<nat, seq<Elem>>)
    returns (j: nat)
    requires DistinctRefs(vars) && Sized(vars, sizes) && StoreSized(vars, store)
    requires |out| == Start(vars, |vars|) && p < |out|
    requires written == Written(refused, sizes, store, Groups(vars), |Groups(vars)|, values, single)
    ensures AllFit(Groups(vars), |out|) && j < |vars| && Owns(vars, j, p)
    ensures Scattered(refused, sizes, written, Groups(vars), |Groups(vars)|, out)[p] ==
            if vars[j].ty in refused then out[p]
            else Widen(Narrow(vars[j].ty, if p < |values| then values[p] else 0.0, single))
  {
    CollectedFits(vars);
    j := PortHasOneOwner(vars, |vars|, p);
    var k := p - Start(vars, j);
    var read := Scattered(refused, sizes, written, Groups(vars), |Groups(vars)|, out);
    WritingKeepsSizes(vars, refused, sizes, store, values, single);
    ReadingMeans(vars, refused, sizes, written, out, j, k, read);
    if vars[j].ty !in refused { WritingMeans(vars, refused, sizes, store, values, single, j, written); }
  }
}

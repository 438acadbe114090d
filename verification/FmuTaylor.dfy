/** Output interpolation of a co-simulation FMU (`src/blocks/fmu.rs`, `update_fn`): between communication points
    each output is extended by its Taylor polynomial up to its declared order, with the derivatives that
    `fmi3GetOutputDerivatives` of FMI 3.0 returns. */
module FmuTaylor {
  import opened Wrappers
  import opened FmuPorts
  import opened FmuTransfer

  const TOLERANCE := 0.0000000000000001

  /** An output with declared derivatives: its first port, its elements, and the order it declares. */
  datatype OutputVar = OutputVar(vr: nat, offset: nat, count: nat, order: nat)

  function Power(b: real, n: nat): real {
    if n == 0 then 1.0 else Power(b, n - 1) * b
  }

  function Factorial(n: nat): real {
    if n == 0 then 1.0 else Factorial(n - 1) * n as real
  }

  lemma {:induction false} FactorialIsPositive(n: nat)
    ensures Factorial(n) > 0.0
    decreases n
  {
    if n > 0 { FactorialIsPositive(n - 1); }
  }

  /** The weight of the derivative of order `n`. */
  function Weight(dt: real, n: nat): real {
    FactorialIsPositive(n);
    Power(dt, n) / Factorial(n)
  }

  /** The FMU's answer for one order: the derivatives of the variables asked for, one after the other. */
  datatype Derivatives = Derivatives(fails: nat -> bool, value: (nat, nat) -> seq<real>) {
    function Element(order: nat, v: OutputVar, k: nat): real {
      ValueAt(value(order, v.vr), k)
    }
  }

  /** The product of a derivative and its weight, under a name of its own. */
  function Weighted(derivative: real, weight: real): real {
    derivative * weight
  }

  /** What is added to element `k` of a variable for one order. */
  function TaylorTerm(d: Derivatives, dt: real, order: nat, v: OutputVar, k: nat): real {
    Weighted(d.Element(order, v, k), Weight(dt, order))
  }

  function MaxOrder(vars: seq<OutputVar>): nat {
    if vars == [] then 0
    else
      var front := MaxOrder(vars[..|vars| - 1]);
      if vars[|vars| - 1].order > front then vars[|vars| - 1].order else front
  }

  ghost predicate Fit(vars: seq<OutputVar>, ports: nat) {
    forall i | 0 <= i < |vars| :: vars[i].offset + vars[i].count <= ports
  }

  ghost predicate Apart(vars: seq<OutputVar>) {
    forall i, j | 0 <= i < |vars| && 0 <= j < |vars| && i != j ::
      vars[i].offset + vars[i].count <= vars[j].offset || vars[j].offset + vars[j].count <= vars[i].offset
  }

  // ---------------------------------------------------------------------------------------
  // The correction
  // ---------------------------------------------------------------------------------------

  /** The variables that declare at least `order`, by index. */
  function Selected(vars: seq<OutputVar>, n: nat, order: nat): (r: seq<nat>)
    requires n <= |vars|
    ensures forall i | 0 <= i < |r| :: r[i] < n
  {
    if n == 0 then []
    else if vars[n - 1].order >= order then Selected(vars, n - 1, order) + [n - 1]
    else Selected(vars, n - 1, order)
  }

  lemma {:induction false} SelectedAscends(vars: seq<OutputVar>, n: nat, order: nat, i: nat, j: nat)
    requires n <= |vars| && i < j < |Selected(vars, n, order)|
    ensures Selected(vars, n, order)[i] < Selected(vars, n, order)[j]
    decreases n
  {
    if n > 0 && j < |Selected(vars, n - 1, order)| { SelectedAscends(vars, n - 1, order, i, j); }
  }

  lemma {:induction false} SelectedDeclares(vars: seq<OutputVar>, n: nat, order: nat, i: nat)
    requires n <= |vars| && i < |Selected(vars, n, order)|
    ensures vars[Selected(vars, n, order)[i]].order >= order
    decreases n
  {
    if n > 0 && i < |Selected(vars, n - 1, order)| { SelectedDeclares(vars, n - 1, order, i); }
  }

  lemma {:induction false} SelectedHas(vars: seq<OutputVar>, n: nat, order: nat, j: nat)
    requires j < n <= |vars| && vars[j].order >= order
    ensures j in Selected(vars, n, order)
    decreases n
  {
    if j < n - 1 { SelectedHas(vars, n - 1, order, j); }
  }

  /** `out` with `n` elements of variable `v` moved by one order. */
  function Moved(out: seq<real>, v: OutputVar, n: nat, d: Derivatives, dt: real, order: nat): (r: seq<real>)
    requires n <= v.count && v.offset + v.count <= |out|
    ensures |r| == |out|
    ensures forall p | 0 <= p < |out| ::
            r[p] == if v.offset <= p < v.offset + n then out[p] + TaylorTerm(d, dt, order, v, p - v.offset) else out[p]
  {
    if n == 0 then out
    else
      var before := Moved(out, v, n - 1, d, dt, order);
      var p := v.offset + n - 1;
      before[p := before[p] + TaylorTerm(d, dt, order, v, n - 1)]
  }

  /** The selected variables' elements, one variable after the other. */
  function Fetched(d: Derivatives, vars: seq<OutputVar>, idx: seq<nat>, n: nat, order: nat): (r: seq<real>)
    requires n <= |idx| && forall i | 0 <= i < |idx| :: idx[i] < |vars|
    ensures |r| == Span(vars, idx, n)
  {
    if n == 0 then []
    else
      var v := vars[idx[n - 1]];
      Fetched(d, vars, idx, n - 1, order) + seq(v.count, k requires 0 <= k < v.count => d.Element(order, v, k))
  }

  function Span(vars: seq<OutputVar>, idx: seq<nat>, n: nat): nat
    requires n <= |idx| && forall i | 0 <= i < |idx| :: idx[i] < |vars|
  {
    if n == 0 then 0 else Span(vars, idx, n - 1) + vars[idx[n - 1]].count
  }

  lemma {:induction false} FetchedAt(
      d: Derivatives, vars: seq<OutputVar>, idx: seq<nat>, n: nat, order: nat, i: nat, k: nat)
    requires i < n <= |idx| && (forall m | 0 <= m < |idx| :: idx[m] < |vars|) && k < vars[idx[i]].count
    ensures Span(vars, idx, i) + k < Span(vars, idx, n)
    ensures Fetched(d, vars, idx, n, order)[Span(vars, idx, i) + k] == d.Element(order, vars[idx[i]], k)
    decreases n
  {
    if i < n - 1 { FetchedAt(d, vars, idx, n - 1, order, i, k); }
  }

  /** The correction of one order: each selected variable moved by its derivative. */
  function Corrected(
      out: seq<real>, vars: seq<OutputVar>, idx: seq<nat>, n: nat, d: Derivatives, dt: real, order: nat): (r: seq<real>)
    requires n <= |idx| && (forall i | 0 <= i < |idx| :: idx[i] < |vars|) && Fit(vars, |out|)
    ensures |r| == |out|
  {
    if n == 0 then out
    else
      var v := vars[idx[n - 1]];
      Moved(Corrected(out, vars, idx, n - 1, d, dt, order), v, v.count, d, dt, order)
  }

  /** The correction of one order for every variable that declares it. */
  function OneMore(out: seq<real>, vars: seq<OutputVar>, d: Derivatives, dt: real, order: nat): (r: seq<real>)
    requires Fit(vars, |out|)
    ensures |r| == |out|
  {
    var idx := Selected(vars, |vars|, order);
    Corrected(out, vars, idx, |idx|, d, dt, order)
  }

  /** The corrections of the orders `1..n`. */
  function Extended(out: seq<real>, vars: seq<OutputVar>, d: Derivatives, dt: real, n: nat): (r: seq<real>)
    requires Fit(vars, |out|)
    ensures |r| == |out|
  {
    if n == 0 then out
    else OneMore(Extended(out, vars, d, dt, n - 1), vars, d, dt, n)
  }

  ghost predicate AllDelivered(d: Derivatives, n: nat) {
    forall o | 1 <= o <= n :: !d.fails(o)
  }

  /** The orders up to `max` that come before the first the FMU fails to deliver. */
  function Delivered(d: Derivatives, max: nat): (n: nat)
    ensures n <= max && AllDelivered(d, n) && (n < max ==> d.fails(n + 1))
  {
    if max == 0 then 0
    else
      var before := Delivered(d, max - 1);
      if before == max - 1 && !d.fails(max) then max else before
  }

  lemma {:induction false} DeliveredIs(d: Derivatives, max: nat, n: nat)
    requires n <= max && AllDelivered(d, n) && (n < max ==> d.fails(n + 1))
    ensures Delivered(d, max) == n
  {
  }

  // ---------------------------------------------------------------------------------------
  // What the correction adds
  // ---------------------------------------------------------------------------------------

  /** The Taylor terms of element `k` of a variable, of the orders `1..n` that it declares. */
  function Series(d: Derivatives, dt: real, v: OutputVar, k: nat, n: nat): real {
    if n == 0 then 0.0 else Series(d, dt, v, k, n - 1) + if v.order >= n then TaylorTerm(d, dt, n, v, k) else 0.0
  }

  ghost predicate InSlot(v: OutputVar, p: nat) {
    v.offset <= p < v.offset + v.count
  }

  lemma {:induction false} CorrectedElsewhere(
      out: seq<real>, vars: seq<OutputVar>, idx: seq<nat>, n: nat, d: Derivatives, dt: real, order: nat, p: nat)
    requires n <= |idx| && (forall i | 0 <= i < |idx| :: idx[i] < |vars|) && Fit(vars, |out|) && p < |out|
    requires forall i | 0 <= i < n :: !InSlot(vars[idx[i]], p)
    ensures Corrected(out, vars, idx, n, d, dt, order)[p] == out[p]
    decreases n
  {
    if n > 0 { CorrectedElsewhere(out, vars, idx, n - 1, d, dt, order, p); }
  }

  lemma {:induction false} CorrectedAt(
      out: seq<real>, vars: seq<OutputVar>, idx: seq<nat>, n: nat, d: Derivatives, dt: real, order: nat, i: nat, p: nat)
    requires i < n <= |idx| && (forall m | 0 <= m < |idx| :: idx[m] < |vars|) && Fit(vars, |out|) && p < |out|
    requires InSlot(vars[idx[i]], p) && forall m | 0 <= m < n && m != i :: !InSlot(vars[idx[m]], p)
    ensures Corrected(out, vars, idx, n, d, dt, order)[p] ==
            out[p] + TaylorTerm(d, dt, order, vars[idx[i]], p - vars[idx[i]].offset)
    decreases n
  {
    if i == n - 1 {
      CorrectedElsewhere(out, vars, idx, n - 1, d, dt, order, p);
    } else {
      assert !InSlot(vars[idx[n - 1]], p);
      CorrectedAt(out, vars, idx, n - 1, d, dt, order, i, p);
    }
  }

  lemma {:induction false} OneOrder(
      out: seq<real>, vars: seq<OutputVar>, d: Derivatives, dt: real, order: nat, j: nat, p: nat)
    requires Fit(vars, |out|) && Apart(vars) && p < |out| && j < |vars| && InSlot(vars[j], p)
    ensures OneMore(out, vars, d, dt, order)[p] ==
            out[p] + if vars[j].order >= order then TaylorTerm(d, dt, order, vars[j], p - vars[j].offset) else 0.0
  {
    var idx := Selected(vars, |vars|, order);
    assert forall m | 0 <= m < |vars| && m != j :: !InSlot(vars[m], p);
    if vars[j].order >= order {
      SelectedHas(vars, |vars|, order, j);
      var i :| 0 <= i < |idx| && idx[i] == j;
      forall m | 0 <= m < |idx| && m != i ensures idx[m] != j {
        if m < i { SelectedAscends(vars, |vars|, order, m, i); } else { SelectedAscends(vars, |vars|, order, i, m); }
      }
      CorrectedAt(out, vars, idx, |idx|, d, dt, order, i, p);
    } else {
      forall i | 0 <= i < |idx| ensures idx[i] != j {
        SelectedDeclares(vars, |vars|, order, i);
      }
      CorrectedElsewhere(out, vars, idx, |idx|, d, dt, order, p);
    }
  }

  /** Each element of an output with derivatives ends at its Taylor polynomial, up to the order that is declared
      and delivered. */
  lemma {:induction false} ExtendedIsTaylor(
      out: seq<real>, vars: seq<OutputVar>, d: Derivatives, dt: real, n: nat, j: nat, p: nat)
    requires Fit(vars, |out|) && Apart(vars) && p < |out| && j < |vars| && InSlot(vars[j], p)
    ensures Extended(out, vars, d, dt, n)[p] == out[p] + Series(d, dt, vars[j], p - vars[j].offset, n)
    decreases n
  {
    if n > 0 {
      ExtendedIsTaylor(out, vars, d, dt, n - 1, j, p);
      OneOrder(Extended(out, vars, d, dt, n - 1), vars, d, dt, n, j, p);
    }
  }

  /** Ports without derivatives are left alone. */
  lemma {:induction false} ExtendedElsewhere(
      out: seq<real>, vars: seq<OutputVar>, d: Derivatives, dt: real, n: nat, p: nat)
    requires Fit(vars, |out|) && p < |out| && forall j | 0 <= j < |vars| :: !InSlot(vars[j], p)
    ensures Extended(out, vars, d, dt, n)[p] == out[p]
    decreases n
  {
    if n > 0 {
      ExtendedElsewhere(out, vars, d, dt, n - 1, p);
      var idx := Selected(vars, |vars|, n);
      CorrectedElsewhere(Extended(out, vars, d, dt, n - 1), vars, idx, |idx|, d, dt, n, p);
    }
  }

  ghost predicate IsInterpolated(
      before: seq<real>, after: seq<real>, vars: seq<OutputVar>, d: Derivatives, dt: real)
    requires |after| == |before|
  {
    && (forall j: nat, p: nat | j < |vars| && p < |before| && InSlot(vars[j], p) ::
          after[p] == before[p] + Series(d, dt, vars[j], p - vars[j].offset, Delivered(d, MaxOrder(vars))))
    && (forall p: nat | p < |before| && (forall j | 0 <= j < |vars| :: !InSlot(vars[j], p)) :: after[p] == before[p])
  }

  lemma {:induction false} ExtendedIsInterpolated(out: seq<real>, vars: seq<OutputVar>, d: Derivatives, dt: real)
    requires Fit(vars, |out|) && Apart(vars)
    ensures IsInterpolated(out, Extended(out, vars, d, dt, Delivered(d, MaxOrder(vars))), vars, d, dt)
  {
    var n := Delivered(d, MaxOrder(vars));
    forall j: nat, p: nat | j < |vars| && p < |out| && InSlot(vars[j], p)
      ensures Extended(out, vars, d, dt, n)[p] == out[p] + Series(d, dt, vars[j], p - vars[j].offset, n)
    {
      ExtendedIsTaylor(out, vars, d, dt, n, j, p);
    }
    forall p: nat | p < |out| && forall j | 0 <= j < |vars| :: !InSlot(vars[j], p)
      ensures Extended(out, vars, d, dt, n)[p] == out[p]
    {
      ExtendedElsewhere(out, vars, d, dt, n, p);
    }
  }

  // ---------------------------------------------------------------------------------------
  // Which outputs have Taylor terms
  // ---------------------------------------------------------------------------------------

  /** A declared output and the derivative order it offers. */
  datatype Output = Output(variable: Variable, order: nat)

  function Variables(outs: seq<Output>): (r: seq<Variable>)
    ensures |r| == |outs| && forall i | 0 <= i < |r| :: r[i] == outs[i].variable
  {
    seq(|outs|, i requires 0 <= i < |outs| => outs[i].variable)
  }

  predicate OffersDerivatives(o: Output) {
    (o.variable.ty.Float64? || o.variable.ty.Float32?) && o.order > 0
  }

  /** The floating-point outputs that offer derivatives, where the ports say they are. */
  function TaylorVars(outs: seq<Output>, groups: seq<Group>): (r: seq<OutputVar>)
    requires forall g | 0 <= g < |groups| :: groups[g].Even()
  {
    if outs == [] then []
    else
      var front, o := TaylorVars(outs[..|outs| - 1], groups), outs[|outs| - 1];
      var place := Located(groups, |groups|, o.variable.vr);
      if OffersDerivatives(o) && place.Some? then
        front + [OutputVar(o.variable.vr, place.value.0, place.value.1, o.order)]
      else front
  }

  /** What `TaylorVars` keeps of a declared output. */
  ghost predicate Describes(v: OutputVar, o: Output, groups: seq<Group>)
    requires forall g | 0 <= g < |groups| :: groups[g].Even()
  {
    && OffersDerivatives(o)
    && v.vr == o.variable.vr && v.order == o.order
    && Located(groups, |groups|, v.vr) == Some((v.offset, v.count))
  }

  lemma {:induction false} TaylorVarIsAnOutput(outs: seq<Output>, groups: seq<Group>, i: nat) returns (m: nat)
    requires forall g | 0 <= g < |groups| :: groups[g].Even()
    requires i < |TaylorVars(outs, groups)|
    ensures m < |outs| && Describes(TaylorVars(outs, groups)[i], outs[m], groups)
    decreases |outs|
  {
    var front := outs[..|outs| - 1];
    if i < |TaylorVars(front, groups)| {
      m := TaylorVarIsAnOutput(front, groups, i);
    } else {
      m := |front|;
    }
  }

  lemma {:induction false} OutputIsATaylorVar(outs: seq<Output>, groups: seq<Group>, m: nat) returns (i: nat)
    requires forall g | 0 <= g < |groups| :: groups[g].Even()
    requires m < |outs| && OffersDerivatives(outs[m])
    requires Located(groups, |groups|, outs[m].variable.vr).Some?
    ensures i < |TaylorVars(outs, groups)| && Describes(TaylorVars(outs, groups)[i], outs[m], groups)
    decreases |outs|
  {
    var front := outs[..|outs| - 1];
    if m < |front| {
      i := OutputIsATaylorVar(front, groups, m);
    } else {
      i := |TaylorVars(front, groups)|;
    }
  }

  ghost predicate DistinctOutputs(outs: seq<Output>) {
    forall i, j | 0 <= i < j < |outs| :: outs[i].variable.vr != outs[j].variable.vr
  }

  /** Distinct references stay so when one that is not among them is added. */
  lemma {:induction false} DistinctSnoc(front: seq<OutputVar>, all: seq<OutputVar>, vr: nat)
    requires forall i, j | 0 <= i < j < |front| :: front[i].vr != front[j].vr
    requires forall i | 0 <= i < |front| :: front[i].vr != vr
    requires all == front || (|all| == |front| + 1 && all[..|front|] == front && all[|front|].vr == vr)
    ensures forall i, j | 0 <= i < j < |all| :: all[i].vr != all[j].vr
  {
    forall i, j | 0 <= i < j < |all| ensures all[i].vr != all[j].vr {
      assert all[i] == front[i];
      if j < |front| { assert all[j] == front[j]; }
    }
  }

  lemma {:induction false} TaylorRefsAreDistinct(outs: seq<Output>, groups: seq<Group>)
    requires forall g | 0 <= g < |groups| :: groups[g].Even()
    requires DistinctOutputs(outs)
    ensures var vars := TaylorVars(outs, groups); forall i, j | 0 <= i < j < |vars| :: vars[i].vr != vars[j].vr
    decreases |outs|
  {
    if outs != [] {
      var front := outs[..|outs| - 1];
      TaylorRefsAreDistinct(front, groups);
      forall i | 0 <= i < |TaylorVars(front, groups)|
        ensures TaylorVars(front, groups)[i].vr != outs[|outs| - 1].variable.vr
      {
        var m := TaylorVarIsAnOutput(front, groups, i);
      }
      DistinctSnoc(TaylorVars(front, groups), TaylorVars(outs, groups), outs[|outs| - 1].variable.vr);
    }
  }

  /** The variables with ports come from the declared ones, in their order. */
  lemma {:induction false} KeptIsDeclared(vars: seq<Variable>, i: nat) returns (m: nat)
    requires i < |Kept(vars)|
    ensures m < |vars| && Kept(vars)[i] == vars[m]
    decreases |vars|
  {
    var front := vars[..|vars| - 1];
    if i < |Kept(front)| {
      m := KeptIsDeclared(front, i);
    } else {
      m := |front|;
    }
  }

  lemma {:induction false} KeptIsDistinct(vars: seq<Variable>)
    requires DistinctRefs(vars)
    ensures DistinctRefs(Kept(vars))
    decreases |vars|
  {
    if vars != [] {
      var front := vars[..|vars| - 1];
      KeptIsDistinct(front);
      forall i | 0 <= i < |Kept(front)| ensures Kept(front)[i].vr != vars[|vars| - 1].vr {
        var m := KeptIsDeclared(front, i);
      }
    }
  }

  /** Where the ports put a variable that is found among them. */
  lemma {:induction false} LocatedInItsSlot(kept: seq<Variable>, v: OutputVar) returns (j: nat)
    requires DistinctRefs(kept) && Located(Groups(kept), |Groups(kept)|, v.vr) == Some((v.offset, v.count))
    ensures j < |kept| && kept[j].vr == v.vr && v.offset == Start(kept, j) && v.count == kept[j].count
    ensures v.offset + v.count == Start(kept, j + 1) <= Start(kept, |kept|)
  {
    LocateAgrees(kept, v.vr);
    j :| j < |kept| && kept[j].vr == v.vr;
    LocateFindsAmongAll(kept, j);
    StartGrows(kept, j + 1, |kept|);
  }

  /** A Taylor variable occupies exactly the ports of its declared output. */
  lemma {:induction false} TaylorVarHasASlot(outs: seq<Output>, kept: seq<Variable>, i: nat) returns (j: nat)
    requires DistinctRefs(kept) && i < |TaylorVars(outs, Groups(kept))|
    ensures var v := TaylorVars(outs, Groups(kept))[i];
            && j < |kept| && kept[j].vr == v.vr && v.offset == Start(kept, j)
            && v.offset + v.count == Start(kept, j + 1) <= Start(kept, |kept|)
  {
    var m := TaylorVarIsAnOutput(outs, Groups(kept), i);
    j := LocatedInItsSlot(kept, TaylorVars(outs, Groups(kept))[i]);
  }

  lemma {:induction false} SlotsAreApart(kept: seq<Variable>, a: nat, b: nat)
    requires a < |kept| && b < |kept| && a != b
    ensures Start(kept, a + 1) <= Start(kept, b) || Start(kept, b + 1) <= Start(kept, a)
  {
    if a < b { StartGrows(kept, a + 1, b); } else { StartGrows(kept, b + 1, a); }
  }

  /** The outputs with derivatives are apart and inside the buffer of all ports. */
  lemma {:induction false} TaylorVarsFitApart(outs: seq<Output>, kept: seq<Variable>)
    requires DistinctOutputs(outs) && kept == Kept(Variables(outs))
    ensures Fit(TaylorVars(outs, Groups(kept)), Start(kept, |kept|)) && Apart(TaylorVars(outs, Groups(kept)))
  {
    var vars := TaylorVars(outs, Groups(kept));
    KeptIsDistinct(Variables(outs));
    TaylorRefsAreDistinct(outs, Groups(kept));
    forall i | 0 <= i < |vars| ensures vars[i].offset + vars[i].count <= Start(kept, |kept|) {
      var a := TaylorVarHasASlot(outs, kept, i);
    }
    forall i, j | 0 <= i < |vars| && 0 <= j < |vars| && i != j
      ensures vars[i].offset + vars[i].count <= vars[j].offset || vars[j].offset + vars[j].count <= vars[i].offset
    {
      var a := TaylorVarHasASlot(outs, kept, i);
      var b := TaylorVarHasASlot(outs, kept, j);
      SlotsAreApart(kept, a, b);
    }
  }

  /** What port `p` of a declared output gains: the Taylor terms of its element up to the order the output declares
      and the FMU delivers, and nothing if it is not floating point or offers no derivatives. */
  function Correction(o: Output, start: nat, d: Derivatives, dt: real, p: nat, n: nat): real
    requires start <= p
  {
    if OffersDerivatives(o) then
      Series(d, dt, OutputVar(o.variable.vr, start, o.variable.count, o.order), p - start, n)
    else 0.0
  }

  lemma {:induction false} OfferedIsInterpolated(
      outs: seq<Output>, kept: seq<Variable>, before: seq<real>, after: seq<real>, d: Derivatives, dt: real, m: nat,
      j: nat, p: nat)
    requires DistinctRefs(kept) && m < |outs| && j < |kept| && kept[j] == outs[m].variable && Owns(kept, j, p)
    requires |before| == |after| && p < |before| && OffersDerivatives(outs[m])
    requires IsInterpolated(before, after, TaylorVars(outs, Groups(kept)), d, dt)
    ensures after[p] == before[p] +
            Correction(outs[m], Start(kept, j), d, dt, p,
                       Delivered(d, MaxOrder(TaylorVars(outs, Groups(kept)))))
  {
    LocateFindsAmongAll(kept, j);
    var i := OutputIsATaylorVar(outs, Groups(kept), m);
    assert InSlot(TaylorVars(outs, Groups(kept))[i], p);
  }

  lemma {:induction false} OthersAreLeftAlone(
      outs: seq<Output>, kept: seq<Variable>, before: seq<real>, after: seq<real>, d: Derivatives, dt: real, m: nat,
      j: nat, p: nat)
    requires DistinctOutputs(outs) && DistinctRefs(kept) && m < |outs| && j < |kept|
    requires kept[j] == outs[m].variable && Owns(kept, j, p)
    requires |before| == |after| && p < |before| && !OffersDerivatives(outs[m])
    requires IsInterpolated(before, after, TaylorVars(outs, Groups(kept)), d, dt)
    ensures after[p] == before[p]
  {
    var vars := TaylorVars(outs, Groups(kept));
    forall i | 0 <= i < |vars| ensures !InSlot(vars[i], p) {
      var o := TaylorVarIsAnOutput(outs, Groups(kept), i);
      var a := TaylorVarHasASlot(outs, kept, i);
      SlotsAreApart(kept, a, j);
    }
  }

  /** Past the communication point every port moves by exactly the correction of the one output it belongs to. */
  lemma {:induction false} EveryPortIsCorrected(
      outs: seq<Output>, kept: seq<Variable>, before: seq<real>, after: seq<real>, d: Derivatives, dt: real, p: nat)
    returns (j: nat, m: nat)
    requires DistinctOutputs(outs) && kept == Kept(Variables(outs))
    requires |before| == |after| == Start(kept, |kept|) && p < |before|
    requires IsInterpolated(before, after, TaylorVars(outs, Groups(kept)), d, dt)
    ensures j < |kept| && m < |outs| && kept[j] == outs[m].variable && Owns(kept, j, p)
    ensures after[p] == before[p] +
            Correction(outs[m], Start(kept, j), d, dt, p, Delivered(d, MaxOrder(TaylorVars(outs, Groups(kept)))))
  {
    KeptIsDistinct(Variables(outs));
    j := PortHasOneOwner(kept, |kept|, p);
    m := KeptIsDeclared(Variables(outs), j);
    if OffersDerivatives(outs[m]) {
      OfferedIsInterpolated(outs, kept, before, after, d, dt, m, j, p);
    } else {
      OthersAreLeftAlone(outs, kept, before, after, d, dt, m, j, p);
    }
  }

  // ---------------------------------------------------------------------------------------
  // The loop
  // ---------------------------------------------------------------------------------------

  class Outputs {
    const vars: seq<OutputVar>
    const buffer: array<real>

    constructor (vars: seq<OutputVar>, buffer: array<real>)
      ensures this.vars == vars && this.buffer == buffer
    {
      this.vars, this.buffer := vars, buffer;
    }

    /** Extend the outputs just read by `dt`, order by order, until the declared orders or the FMU give out. */
    method Extrapolate(d: Derivatives, dt: real)
      requires Fit(vars, buffer.Length)
      modifies buffer
      ensures buffer[..] == Extended(old(buffer[..]), vars, d, dt, Delivered(d, MaxOrder(vars)))
    {
      var factorial, order, max := 1.0, 1, MaxOrder(vars);
      while order <= max
        invariant 1 <= order <= max + 1 && factorial == Factorial(order - 1) && AllDelivered(d, order - 1)
        invariant buffer[..] == Extended(old(buffer[..]), vars, d, dt, order - 1)
      {
        var failed: bool;
        factorial, failed := CorrectOrder(d, dt, order, factorial);
        if failed {
          DeliveredIs(d, max, order - 1);
          return;
        }
        assert Extended(old(buffer[..]), vars, d, dt, order) ==
               OneMore(Extended(old(buffer[..]), vars, d, dt, order - 1), vars, d, dt, order);
        order := order + 1;
      }
      DeliveredIs(d, max, max);
    }

    /** Outputs are extended only past the communication point they were read at. An element of an output with
        derivatives then moves by its Taylor terms, up to the order that is declared and delivered. */
    method Interpolate(d: Derivatives, t: real, communicationTime: real)
      requires Fit(vars, buffer.Length)
      modifies buffer
      ensures var dt := t - communicationTime;
              buffer[..] == if dt > TOLERANCE then Extended(old(buffer[..]), vars, d, dt, Delivered(d, MaxOrder(vars)))
                            else old(buffer[..])
      ensures var dt := t - communicationTime;
              dt > TOLERANCE && Apart(vars) ==> IsInterpolated(old(buffer[..]), buffer[..], vars, d, dt)
    {
      var dt := t - communicationTime;
      if dt > TOLERANCE {
        Extrapolate(d, dt);
        if Apart(vars) { ExtendedIsInterpolated(old(buffer[..]), vars, d, dt); }
      }
    }

    /** One turn: ask for the derivatives of this order and apply them, unless the FMU does not deliver them. */
    method CorrectOrder(d: Derivatives, dt: real, order: nat, factorial: real) returns (next: real, failed: bool)
      requires Fit(vars, buffer.Length) && order > 0 && factorial == Factorial(order - 1)
      modifies buffer
      ensures next == Factorial(order) && failed == d.fails(order)
      ensures buffer[..] == if failed then old(buffer[..]) else OneMore(old(buffer[..]), vars, d, dt, order)
    {
      var factor: real;
      next, factor := NextWeight(factorial, dt, order);
      var idx := Select(order);
      failed := d.fails(order);
      if !failed {
        Apply(idx, d, order, dt, factor);
      }
    }

    static method NextWeight(factorial: real, dt: real, order: nat) returns (next: real, factor: real)
      requires order > 0 && factorial == Factorial(order - 1)
      ensures next == Factorial(order) && factor == Weight(dt, order)
    {
      next := factorial * order as real;
      FactorialIsPositive(order);
      factor := Power(dt, order) / next;
    }

    method Select(order: nat) returns (idx: seq<nat>)
      ensures idx == Selected(vars, |vars|, order)
    {
      idx := [];
      for i := 0 to |vars|
        invariant idx == Selected(vars, i, order)
      {
        if vars[i].order >= order {
          idx := idx + [i];
        }
      }
    }

    /** Scatter the derivative block back to the selected variables' ports. */
    method Apply(idx: seq<nat>, d: Derivatives, order: nat, dt: real, factor: real)
      requires Fit(vars, buffer.Length) && (forall i | 0 <= i < |idx| :: idx[i] < |vars|) && factor == Weight(dt, order)
      modifies buffer
      ensures buffer[..] == Corrected(old(buffer[..]), vars, idx, |idx|, d, dt, order)
    {
      var block := Fetched(d, vars, idx, |idx|, order);
      var src := 0;
      for i := 0 to |idx|
        invariant src == Span(vars, idx, i)
        invariant buffer[..] == Corrected(old(buffer[..]), vars, idx, i, d, dt, order)
      {
        ghost var before := buffer[..];
        var v := vars[idx[i]];
        for k := 0 to v.count
          invariant buffer[..] == Moved(before, v, k, d, dt, order)
        {
          FetchedAt(d, vars, idx, |idx|, order, i, k);
          var moved := Increase(buffer[v.offset + k], block[src + k], factor, d, order, dt, v, k);
          buffer[v.offset + k] := moved;
        }
        src := src + v.count;
      }
    }

    static method Increase(
        value: real, derivative: real, factor: real, ghost d: Derivatives, ghost order: nat, ghost dt: real,
        ghost v: OutputVar, ghost k: nat)
      returns (moved: real)
      requires derivative == d.Element(order, v, k) && factor == Weight(dt, order)
      ensures moved == value + TaylorTerm(d, dt, order, v, k)
    {
      moved := value + derivative * factor;
    }
  }
}

/** Polynomials in one variable as coefficient lists, lowest first: the exact expansions along a
    direction that forward-mode differentiation has to match. */
module Polynomial {
  import opened Ir
  import opened Products

  type Poly = seq<real>

  function Coef(f: Poly, k: nat): real { if k < |f| then f[k] else 0.0 }

  function At(p: Prims, f: Poly, h: real): real {
    if f == [] then 0.0 else f[0] + Prod(p, h, At(p, f[1..], h))
  }

  function Plus(f: Poly, g: Poly): Poly {
    if f == [] then g else if g == [] then f else [f[0] + g[0]] + Plus(f[1..], g[1..])
  }

  function Scaled(p: Prims, c: real, f: Poly): Poly {
    if f == [] then [] else [Prod(p, c, f[0])] + Scaled(p, c, f[1..])
  }

  function Times(p: Prims, f: Poly, g: Poly): Poly {
    if f == [] then [] else Plus(Scaled(p, f[0], g), [0.0] + Times(p, f[1..], g))
  }

  lemma {:induction false} PlusAt(p: Prims, f: Poly, g: Poly, h: real)
    requires Multiplies(p)
    ensures At(p, Plus(f, g), h) == At(p, f, h) + At(p, g, h)
  {
    if f != [] && g != [] {
      PlusAt(p, f[1..], g[1..], h);
      assert Plus(f, g)[1..] == Plus(f[1..], g[1..]);
      LeftDistributes(p, h, At(p, f[1..], h), At(p, g[1..], h));
    }
  }

  lemma {:induction false} ScaledAt(p: Prims, c: real, f: Poly, h: real)
    requires Multiplies(p)
    ensures At(p, Scaled(p, c, f), h) == Prod(p, c, At(p, f, h))
  {
    if f == [] {
      TimesZero(p, c);
    } else {
      var t := At(p, f[1..], h);
      ScaledAt(p, c, f[1..], h);
      assert Scaled(p, c, f)[1..] == Scaled(p, c, f[1..]);
      LeftDistributes(p, c, f[0], Prod(p, h, t));
      Associates(p, c, h, t);
      Associates(p, h, c, t);
      Commutes(p, c, h);
    }
  }

  lemma {:induction false} TimesAt(p: Prims, f: Poly, g: Poly, h: real)
    requires Multiplies(p)
    ensures At(p, Times(p, f, g), h) == Prod(p, At(p, f, h), At(p, g, h))
  {
    if f == [] {
      TimesZero(p, At(p, g, h));
    } else {
      var t, q := At(p, f[1..], h), At(p, g, h);
      TimesAt(p, f[1..], g, h);
      var shifted := [0.0] + Times(p, f[1..], g);
      PlusAt(p, Scaled(p, f[0], g), shifted, h);
      ScaledAt(p, f[0], g, h);
      assert shifted[1..] == Times(p, f[1..], g);
      Associates(p, h, t, q);
      RightDistributes(p, f[0], Prod(p, h, t), q);
    }
  }

  lemma {:induction false} Shift(f: Poly, k: nat)
    requires f != [] && k > 0
    ensures Coef(f, k) == Coef(f[1..], k - 1)
  {
  }

  lemma {:induction false} PlusCoef(f: Poly, g: Poly, k: nat)
    ensures Coef(Plus(f, g), k) == Coef(f, k) + Coef(g, k)
    decreases |f|
  {
    if f != [] && g != [] && k > 0 {
      PlusCoef(f[1..], g[1..], k - 1);
      assert Plus(f, g)[1..] == Plus(f[1..], g[1..]);
      Shift(f, k);
      Shift(g, k);
      Shift(Plus(f, g), k);
    }
  }

  lemma {:induction false} ScaledCoef(p: Prims, c: real, f: Poly, k: nat)
    requires Multiplies(p)
    ensures Coef(Scaled(p, c, f), k) == Prod(p, c, Coef(f, k))
    decreases |f|
  {
    if f == [] {
      TimesZero(p, c);
    } else if k > 0 {
      ScaledCoef(p, c, f[1..], k - 1);
      assert Scaled(p, c, f)[1..] == Scaled(p, c, f[1..]);
      Shift(f, k);
      Shift(Scaled(p, c, f), k);
    }
  }

  /** The product rule. */
  lemma {:induction false} TimesCoefs(p: Prims, f: Poly, g: Poly)
    requires Multiplies(p)
    ensures Coef(Times(p, f, g), 0) == Prod(p, Coef(f, 0), Coef(g, 0))
    ensures Coef(Times(p, f, g), 1) == Prod(p, Coef(f, 0), Coef(g, 1)) + Prod(p, Coef(f, 1), Coef(g, 0))
  {
    TimesZero(p, Coef(g, 0));
    TimesZero(p, Coef(g, 1));
    if f != [] {
      var shifted := [0.0] + Times(p, f[1..], g);
      TimesCoefs(p, f[1..], g);
      PlusCoef(Scaled(p, f[0], g), shifted, 0);
      PlusCoef(Scaled(p, f[0], g), shifted, 1);
      ScaledCoef(p, f[0], g, 0);
      ScaledCoef(p, f[0], g, 1);
      Shift(shifted, 1);
      assert shifted[1..] == Times(p, f[1..], g);
      Shift(f, 1);
    }
  }

  /** At 0 only the constant term is left. */
  lemma {:induction false} AtZero(p: Prims, f: Poly)
    requires Multiplies(p)
    ensures At(p, f, 0.0) == Coef(f, 0)
  {
    if f != [] { TimesZero(p, At(p, f[1..], 0.0)); }
  }

  /** The coefficients from the second order up. */
  function Remainder(f: Poly): Poly { if |f| >= 2 then f[2..] else [] }

  /** `v + h d + h^2 r` */
  function SecondOrder(h: real, v: real, d: real, r: real): real { v + h * d + h * h * r }

  /** Value, first-order term, and a remainder of second order. */
  lemma {:induction false} Expansion(p: Prims, f: Poly, h: real)
    requires Multiplies(p)
    ensures At(p, f, h) == SecondOrder(h, Coef(f, 0), Coef(f, 1), At(p, Remainder(f), h))
  {
    TimesNothing(h);
    TimesZero(p, h);
    if |f| >= 2 {
      var a, rest := f[1], At(p, f[2..], h);
      assert f[1..][1..] == f[2..];
      var inner := At(p, f[1..], h);
      assert inner == a + Prod(p, h, rest);
      assert Multiplied(h, rest) && Multiplied(h, inner);
      Factor(h, a, rest, inner);
    } else if |f| == 1 {
      assert f[1..] == [];
    }
  }

  lemma {:induction false} Factor(h: real, a: real, rest: real, inner: real)
    requires inner == a + h * rest
    ensures h * inner == h * a + h * h * rest
  {
  }

  lemma {:induction false} TimesNothing(h: real)
    ensures h * 0.0 == 0.0 && h * h * 0.0 == 0.0
  {
  }

  // ---------------------------------------------------------------------------------------
  // Sums and products of lists
  // ---------------------------------------------------------------------------------------

  function SumOf(xs: seq<real>): real {
    if xs == [] then 0.0 else SumOf(xs[..|xs| - 1]) + xs[|xs| - 1]
  }

  function ProductOf(p: Prims, xs: seq<real>): real {
    if xs == [] then 1.0 else Prod(p, ProductOf(p, xs[..|xs| - 1]), xs[|xs| - 1])
  }

  function DotOf(p: Prims, xs: seq<real>, ys: seq<real>): real
    requires |xs| == |ys|
  {
    if xs == [] then 0.0
    else DotOf(p, xs[..|xs| - 1], ys[..|ys| - 1]) + Prod(p, xs[|xs| - 1], ys[|ys| - 1])
  }

  function PolySum(fs: seq<Poly>): Poly {
    if fs == [] then [] else Plus(PolySum(fs[..|fs| - 1]), fs[|fs| - 1])
  }

  function PolyProduct(p: Prims, fs: seq<Poly>): Poly {
    if fs == [] then [1.0] else Times(p, PolyProduct(p, fs[..|fs| - 1]), fs[|fs| - 1])
  }

  function PolyDot(p: Prims, fs: seq<Poly>, gs: seq<Poly>): Poly
    requires |fs| == |gs|
  {
    if fs == [] then []
    else Plus(PolyDot(p, fs[..|fs| - 1], gs[..|gs| - 1]), Times(p, fs[|fs| - 1], gs[|gs| - 1]))
  }

  function AllAt(p: Prims, fs: seq<Poly>, h: real): (vs: seq<real>)
    ensures |vs| == |fs| && forall k | 0 <= k < |fs| :: vs[k] == At(p, fs[k], h)
  {
    seq(|fs|, k requires 0 <= k < |fs| => At(p, fs[k], h))
  }

  function Coefs(fs: seq<Poly>, c: nat): (vs: seq<real>)
    ensures |vs| == |fs| && forall k | 0 <= k < |fs| :: vs[k] == Coef(fs[k], c)
  {
    seq(|fs|, k requires 0 <= k < |fs| => Coef(fs[k], c))
  }

  lemma {:induction false} SumSnoc(xs: seq<real>, x: real)
    ensures SumOf(xs + [x]) == SumOf(xs) + x
  {
    assert (xs + [x])[..|xs|] == xs;
  }

  lemma {:induction false} ProductSnoc(p: Prims, xs: seq<real>, x: real)
    ensures ProductOf(p, xs + [x]) == Prod(p, ProductOf(p, xs), x)
  {
    assert (xs + [x])[..|xs|] == xs;
  }

  lemma {:induction false} DotSnoc(p: Prims, xs: seq<real>, ys: seq<real>, x: real, y: real)
    requires |xs| == |ys|
    ensures DotOf(p, xs + [x], ys + [y]) == DotOf(p, xs, ys) + Prod(p, x, y)
  {
    assert (xs + [x])[..|xs|] == xs && (ys + [y])[..|ys|] == ys;
  }

  lemma {:induction false} AllAtSnoc(p: Prims, fs: seq<Poly>, h: real)
    requires fs != []
    ensures AllAt(p, fs, h) == AllAt(p, fs[..|fs| - 1], h) + [At(p, fs[|fs| - 1], h)]
  {
  }

  lemma {:induction false} CoefsSnoc(fs: seq<Poly>, c: nat)
    requires fs != []
    ensures Coefs(fs, c) == Coefs(fs[..|fs| - 1], c) + [Coef(fs[|fs| - 1], c)]
  {
  }

  lemma {:induction false} PolySumAt(p: Prims, fs: seq<Poly>, h: real)
    requires Multiplies(p)
    ensures At(p, PolySum(fs), h) == SumOf(AllAt(p, fs, h))
  {
    if fs != [] {
      var init, last := fs[..|fs| - 1], fs[|fs| - 1];
      PolySumAt(p, init, h);
      PlusAt(p, PolySum(init), last, h);
      AllAtSnoc(p, fs, h);
      SumSnoc(AllAt(p, init, h), At(p, last, h));
    }
  }

  lemma {:induction false} PolyProductAt(p: Prims, fs: seq<Poly>, h: real)
    requires Multiplies(p)
    ensures At(p, PolyProduct(p, fs), h) == ProductOf(p, AllAt(p, fs, h))
  {
    if fs == [] {
      assert [1.0][1..] == [];
      TimesZero(p, h);
    } else {
      var init, last := fs[..|fs| - 1], fs[|fs| - 1];
      PolyProductAt(p, init, h);
      TimesAt(p, PolyProduct(p, init), last, h);
      AllAtSnoc(p, fs, h);
      ProductSnoc(p, AllAt(p, init, h), At(p, last, h));
    }
  }

  lemma {:induction false} PolyDotAt(p: Prims, fs: seq<Poly>, gs: seq<Poly>, h: real)
    requires |fs| == |gs| && Multiplies(p)
    ensures At(p, PolyDot(p, fs, gs), h) == DotOf(p, AllAt(p, fs, h), AllAt(p, gs, h))
  {
    if fs != [] {
      var n := |fs| - 1;
      var f, g := fs[n], gs[n];
      PolyDotAt(p, fs[..n], gs[..n], h);
      TimesAt(p, f, g, h);
      PlusAt(p, PolyDot(p, fs[..n], gs[..n]), Times(p, f, g), h);
      AllAtSnoc(p, fs, h);
      AllAtSnoc(p, gs, h);
      DotSnoc(p, AllAt(p, fs[..n], h), AllAt(p, gs[..n], h), At(p, f, h), At(p, g, h));
    }
  }

  lemma {:induction false} PolySumTangent(fs: seq<Poly>, c: nat)
    ensures Coef(PolySum(fs), c) == SumOf(Coefs(fs, c))
  {
    if fs != [] {
      var init, last := fs[..|fs| - 1], fs[|fs| - 1];
      PolySumTangent(init, c);
      PlusCoef(PolySum(init), last, c);
      CoefsSnoc(fs, c);
      SumSnoc(Coefs(init, c), Coef(last, c));
    }
  }

  /** All elements but the `j`-th. */
  function Without(xs: seq<real>, j: nat): seq<real>
    requires j < |xs|
  {
    xs[..j] + xs[j + 1..]
  }

  /** The terms of the derivative of a product: one factor differentiated, all others kept. */
  function ProductTerms(p: Prims, vs: seq<real>, ds: seq<real>): (ts: seq<real>)
    requires |vs| == |ds|
    ensures |ts| == |vs| && forall j | 0 <= j < |vs| :: ts[j] == Prod(p, ds[j], ProductOf(p, Without(vs, j)))
  {
    seq(|vs|, j requires 0 <= j < |vs| => Prod(p, ds[j], ProductOf(p, Without(vs, j))))
  }

  lemma {:induction false} WithoutSnoc(p: Prims, vs: seq<real>, v: real, j: nat)
    requires j <= |vs|
    ensures j == |vs| ==> Without(vs + [v], j) == vs
    ensures j < |vs| ==> ProductOf(p, Without(vs + [v], j)) == Prod(p, ProductOf(p, Without(vs, j)), v)
  {
    if j < |vs| {
      assert Without(vs + [v], j) == Without(vs, j) + [v];
      ProductSnoc(p, Without(vs, j), v);
    }
  }

  function ScaledBy(p: Prims, ts: seq<real>, c: real): (us: seq<real>)
    ensures |us| == |ts| && forall j | 0 <= j < |ts| :: us[j] == Prod(p, ts[j], c)
  {
    seq(|ts|, j requires 0 <= j < |ts| => Prod(p, ts[j], c))
  }

  lemma {:induction false} ScaledSnoc(p: Prims, ts: seq<real>, c: real)
    requires ts != []
    ensures ScaledBy(p, ts, c) == ScaledBy(p, ts[..|ts| - 1], c) + [Prod(p, ts[|ts| - 1], c)]
  {
  }

  lemma {:induction false} SumScales(p: Prims, ts: seq<real>, c: real)
    requires Multiplies(p)
    ensures SumOf(ScaledBy(p, ts, c)) == Prod(p, SumOf(ts), c)
  {
    if ts == [] {
      TimesZero(p, c);
    } else {
      var n := |ts| - 1;
      SumScales(p, ts[..n], c);
      ScaledSnoc(p, ts, c);
      SumSnoc(ScaledBy(p, ts[..n], c), Prod(p, ts[n], c));
      RightDistributes(p, SumOf(ts[..n]), ts[n], c);
    }
  }

  /** A further factor scales the old terms and adds one of its own. */
  lemma {:induction false} ProductTermsSnoc(p: Prims, vs: seq<real>, ds: seq<real>, v: real, d: real)
    requires |vs| == |ds| && Multiplies(p)
    ensures SumOf(ProductTerms(p, vs + [v], ds + [d])) ==
            Prod(p, SumOf(ProductTerms(p, vs, ds)), v) + Prod(p, d, ProductOf(p, vs))
  {
    var n := |vs|;
    var ts, us, last := ProductTerms(p, vs, ds), ProductTerms(p, vs + [v], ds + [d]), Prod(p, d, ProductOf(p, vs));
    forall j | 0 <= j < n ensures us[j] == ScaledBy(p, ts, v)[j] {
      WithoutSnoc(p, vs, v, j);
      Associates(p, ds[j], ProductOf(p, Without(vs, j)), v);
    }
    WithoutSnoc(p, vs, v, n);
    assert us == ScaledBy(p, ts, v) + [last];
    SumSnoc(ScaledBy(p, ts, v), last);
    SumScales(p, ts, v);
  }

  /** The all-but-one product rule. */
  lemma {:induction false} PolyProductTangent(p: Prims, fs: seq<Poly>)
    requires Multiplies(p)
    ensures Coef(PolyProduct(p, fs), 0) == ProductOf(p, Coefs(fs, 0))
    ensures Coef(PolyProduct(p, fs), 1) == SumOf(ProductTerms(p, Coefs(fs, 0), Coefs(fs, 1)))
  {
    if fs != [] {
      var init, last := fs[..|fs| - 1], fs[|fs| - 1];
      PolyProductTangent(p, init);
      var vs, ds, v, d := Coefs(init, 0), Coefs(init, 1), Coef(last, 0), Coef(last, 1);
      TimesCoefs(p, PolyProduct(p, init), last);
      CoefsSnoc(fs, 0);
      CoefsSnoc(fs, 1);
      ProductSnoc(p, vs, v);
      ProductTermsSnoc(p, vs, ds, v, d);
      Commutes(p, ProductOf(p, vs), d);
    }
  }

  /** The terms of the derivative of a dot product. */
  function DotTerms(p: Prims, vs: seq<real>, dvs: seq<real>, ws: seq<real>, dws: seq<real>): (ts: seq<real>)
    requires |vs| == |dvs| == |ws| == |dws|
    ensures |ts| == |vs| && forall j | 0 <= j < |vs| :: ts[j] == Prod(p, vs[j], dws[j]) + Prod(p, dvs[j], ws[j])
  {
    seq(|vs|, j requires 0 <= j < |vs| => Prod(p, vs[j], dws[j]) + Prod(p, dvs[j], ws[j]))
  }

  lemma {:induction false} DotTermsSnoc(
      p: Prims, vs: seq<real>, dvs: seq<real>, ws: seq<real>, dws: seq<real>, v: real, dv: real, w: real, dw: real)
    requires |vs| == |dvs| == |ws| == |dws|
    ensures SumOf(DotTerms(p, vs + [v], dvs + [dv], ws + [w], dws + [dw])) ==
            SumOf(DotTerms(p, vs, dvs, ws, dws)) + (Prod(p, v, dw) + Prod(p, dv, w))
  {
    var last := Prod(p, v, dw) + Prod(p, dv, w);
    assert DotTerms(p, vs + [v], dvs + [dv], ws + [w], dws + [dw]) == DotTerms(p, vs, dvs, ws, dws) + [last];
    SumSnoc(DotTerms(p, vs, dvs, ws, dws), last);
  }

  lemma {:induction false} PolyDotTangent(p: Prims, fs: seq<Poly>, gs: seq<Poly>)
    requires |fs| == |gs| && Multiplies(p)
    ensures Coef(PolyDot(p, fs, gs), 1) == SumOf(DotTerms(p, Coefs(fs, 0), Coefs(fs, 1), Coefs(gs, 0), Coefs(gs, 1)))
  {
    if fs != [] {
      var n := |fs| - 1;
      var f, g := fs[n], gs[n];
      PolyDotTangent(p, fs[..n], gs[..n]);
      TimesCoefs(p, f, g);
      PlusCoef(PolyDot(p, fs[..n], gs[..n]), Times(p, f, g), 1);
      CoefsSnoc(fs, 0);
      CoefsSnoc(fs, 1);
      CoefsSnoc(gs, 0);
      CoefsSnoc(gs, 1);
      DotTermsSnoc(p, Coefs(fs[..n], 0), Coefs(fs[..n], 1), Coefs(gs[..n], 0), Coefs(gs[..n], 1),
                   Coef(f, 0), Coef(f, 1), Coef(g, 0), Coef(g, 1));
    }
  }
}

/** Exact multiplication.  Products are written with the interpretation's own operator, and its law is
    invoked explicitly where it is needed. */
module Products {
  import opened Ir

  function Prod(p: Prims, a: real, b: real): real { p.bin(BinOp.Mul, a, b) }

  /** Asks for the law of multiplication at `a` and `b`. */
  predicate Multiplied(a: real, b: real) { true }

  ghost predicate Multiplies(p: Prims) {
    forall a, b {:trigger Multiplied(a, b)} :: Multiplied(a, b) ==> Prod(p, a, b) == a * b
  }

  lemma {:induction false} LeftDistributes(p: Prims, a: real, b: real, c: real)
    requires Multiplies(p)
    ensures Prod(p, a, b + c) == Prod(p, a, b) + Prod(p, a, c)
  {
    assert Multiplied(a, b + c) && Multiplied(a, b) && Multiplied(a, c);
  }

  lemma {:induction false} RightDistributes(p: Prims, a: real, b: real, c: real)
    requires Multiplies(p)
    ensures Prod(p, a + b, c) == Prod(p, a, c) + Prod(p, b, c)
  {
    assert Multiplied(a + b, c) && Multiplied(a, c) && Multiplied(b, c);
  }

  lemma {:induction false} Associates(p: Prims, a: real, b: real, c: real)
    requires Multiplies(p)
    ensures Prod(p, Prod(p, a, b), c) == Prod(p, a, Prod(p, b, c))
  {
    assert Multiplied(a, b) && Multiplied(b, c) && Multiplied(a * b, c) && Multiplied(a, b * c);
  }

  lemma {:induction false} Commutes(p: Prims, a: real, b: real)
    requires Multiplies(p)
    ensures Prod(p, a, b) == Prod(p, b, a)
  {
    assert Multiplied(a, b) && Multiplied(b, a);
  }

  lemma {:induction false} TimesZero(p: Prims, a: real)
    requires Multiplies(p)
    ensures Prod(p, a, 0.0) == 0.0 && Prod(p, 0.0, a) == 0.0 && Prod(p, 1.0, a) == a
  {
    assert Multiplied(a, 0.0) && Multiplied(0.0, a) && Multiplied(1.0, a);
  }
}

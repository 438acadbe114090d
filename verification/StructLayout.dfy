/** The memory layout of the generated model struct (`src/codegen/system.rs`, `model_struct_fields`): fields in
    declaration order, each at the next multiple of its element size. */
module StructLayout {
  datatype FieldName =
    | Clock | StateVec | SignalVec | ParamVec | InputVec | MemoryVec
    | Counter(block: nat, event: nat)
    | Cursor(block: nat, event: nat)
    | Previous(block: nat, event: nat)
    | Initialised(block: nat, event: nat)
    | Started | StepSize

  datatype Spec = Spec(name: FieldName, count: nat, size: nat)

  datatype Field = Field(name: FieldName, count: nat, size: nat, offset: nat)

  ghost predicate Sized(specs: seq<Spec>) {
    forall i | 0 <= i < |specs| :: specs[i].size > 0
  }

  // ---------------------------------------------------------------------------------------
  // Rounding up
  // ---------------------------------------------------------------------------------------

  /** `n * a`, as repeated addition. */
  function Times(n: nat, a: nat): nat {
    if n == 0 then 0 else Times(n - 1, a) + a
  }

  lemma {:induction false} TimesIsProduct(n: nat, a: nat)
    ensures Times(n, a) == n * a
    decreases n
  {
    if n > 0 {
      TimesIsProduct(n - 1, a);
      assert n * a == (n - 1) * a + a;
    }
  }

  lemma {:induction false} TimesAdds(m: nat, n: nat, a: nat)
    ensures Times(m + n, a) == Times(m, a) + Times(n, a)
    decreases n
  {
    if n > 0 { TimesAdds(m, n - 1, a); }
  }

  predicate Multiple(n: nat, a: nat)
    requires a > 0
  {
    n % a == 0
  }

  function AlignUp(n: nat, a: nat): nat
    requires a > 0
  {
    Times((n + a - 1) / a, a)
  }

  lemma {:induction false} DivMod(n: nat, a: nat)
    requires a > 0
    ensures Times(n / a, a) + n % a == n && 0 <= n % a < a
  {
    TimesIsProduct(n / a, a);
  }

  lemma {:induction false} ScaledSign(d: int, a: int)
    requires a > 0
    ensures d <= 0 ==> d * a <= 0
    ensures d >= 1 ==> d * a >= a
  {
  }

  /** The quotient and remainder of a division are the only ones. */
  lemma {:induction false} DivModIs(q: nat, r: nat, a: nat)
    requires r < a
    ensures (Times(q, a) + r) % a == r
  {
    var n := Times(q, a) + r;
    var d := n / a - q;
    DivMod(n, a);
    TimesIsProduct(n / a, a);
    TimesIsProduct(q, a);
    assert d * a == r - n % a;
    ScaledSign(d, a);
    ScaledSign(-d, a);
    assert (-d) * a == n % a - r;
  }

  lemma {:induction false} TimesIsMultiple(q: nat, a: nat)
    requires a > 0
    ensures Multiple(Times(q, a), a)
  {
    DivModIs(q, 0, a);
  }

  /** The least multiple of `a` that is not below `n`. */
  lemma {:induction false} AlignUpIsLeast(n: nat, a: nat)
    requires a > 0
    ensures Multiple(AlignUp(n, a), a) && n <= AlignUp(n, a) < n + a
    ensures forall m: nat | Multiple(m, a) && n <= m :: AlignUp(n, a) <= m
  {
    DivMod(n + a - 1, a);
    TimesIsMultiple((n + a - 1) / a, a);
    forall m: nat | Multiple(m, a) && n <= m ensures AlignUp(n, a) <= m {
      MultiplesAreApart(m, AlignUp(n, a), a);
    }
  }

  lemma {:induction false} MultiplesAreApart(m: nat, k: nat, a: nat)
    requires a > 0 && Multiple(m, a) && Multiple(k, a)
    ensures m < k ==> m + a <= k
  {
    DivMod(m, a);
    DivMod(k, a);
    TimesIsProduct(m / a, a);
    TimesIsProduct(k / a, a);
    var d := k / a - m / a;
    assert d * a == k - m;
    ScaledSign(d, a);
  }

  // ---------------------------------------------------------------------------------------
  // Field offsets
  // ---------------------------------------------------------------------------------------

  /** The first byte after the first `i` fields. */
  function End(specs: seq<Spec>, i: nat): nat
    requires Sized(specs) && i <= |specs|
    decreases i, 0
  {
    if i == 0 then 0 else Offset(specs, i - 1) + Times(specs[i - 1].count, specs[i - 1].size)
  }

  function Offset(specs: seq<Spec>, i: nat): nat
    requires Sized(specs) && i < |specs|
    decreases i, 1
  {
    AlignUp(End(specs, i), specs[i].size)
  }

  function MaxAlign(specs: seq<Spec>, i: nat): nat
    requires i <= |specs|
  {
    if i == 0 then 1
    else if specs[i - 1].size > MaxAlign(specs, i - 1) then specs[i - 1].size
    else MaxAlign(specs, i - 1)
  }

  lemma {:induction false} MaxAlignIsPositive(specs: seq<Spec>, i: nat)
    requires i <= |specs|
    ensures MaxAlign(specs, i) >= 1
    decreases i
  {
    if i > 0 { MaxAlignIsPositive(specs, i - 1); }
  }

  function FieldAt(specs: seq<Spec>, i: nat): Field
    requires Sized(specs) && i < |specs|
  {
    Field(specs[i].name, specs[i].count, specs[i].size, Offset(specs, i))
  }

  function Fields(specs: seq<Spec>): (r: seq<Field>)
    requires Sized(specs)
    ensures |r| == |specs| && forall i | 0 <= i < |r| :: r[i] == FieldAt(specs, i)
  {
    seq(|specs|, i requires 0 <= i < |specs| => FieldAt(specs, i))
  }

  /** Assign every field its offset and pad the total to the largest alignment. */
  method LayFields(specs: seq<Spec>) returns (fields: seq<Field>, total: nat)
    requires Sized(specs)
    ensures fields == Fields(specs)
    ensures MaxAlign(specs, |specs|) >= 1 && total == AlignUp(End(specs, |specs|), MaxAlign(specs, |specs|))
  {
    fields := [];
    var off, maxAlign := 0, 1;
    for i := 0 to |specs|
      invariant |fields| == i && forall k | 0 <= k < i :: fields[k] == FieldAt(specs, k)
      invariant off == End(specs, i) && maxAlign == MaxAlign(specs, i) && maxAlign >= 1
    {
      var s := specs[i];
      if s.size > maxAlign {
        maxAlign := s.size;
      }
      off := AlignUp(off, s.size);
      fields := fields + [Field(s.name, s.count, s.size, off)];
      off := off + Times(s.count, s.size);
    }
    total := AlignUp(off, maxAlign);
  }

  // ---------------------------------------------------------------------------------------
  // What the layout guarantees
  // ---------------------------------------------------------------------------------------

  /** Fields are aligned, come in order without overlap, and end by `End`. */
  lemma {:induction false} FieldsAreApart(specs: seq<Spec>, i: nat, j: nat)
    requires Sized(specs) && i < j <= |specs|
    ensures Multiple(Offset(specs, i), specs[i].size)
    ensures Offset(specs, i) + Times(specs[i].count, specs[i].size) <= End(specs, j)
    ensures j < |specs| ==> Offset(specs, i) + Times(specs[i].count, specs[i].size) <= Offset(specs, j)
    decreases j
  {
    AlignUpIsLeast(End(specs, i), specs[i].size);
    if i < j - 1 {
      FieldsAreApart(specs, i, j - 1);
    }
    if j < |specs| {
      AlignUpIsLeast(End(specs, j), specs[j].size);
    }
  }

  /** Some placement of the fields in order, aligned and without overlap. */
  ghost predicate Places(specs: seq<Spec>, offsets: seq<nat>)
    requires Sized(specs)
  {
    && |offsets| == |specs|
    && (forall i | 0 <= i < |specs| :: Multiple(offsets[i], specs[i].size))
    && (forall i | 0 < i < |specs| :: offsets[i - 1] + Times(specs[i - 1].count, specs[i - 1].size) <= offsets[i])
  }

  /** No placement in order puts any field earlier. */
  lemma {:induction false} OffsetsAreMinimal(specs: seq<Spec>, offsets: seq<nat>, i: nat)
    requires Sized(specs) && Places(specs, offsets) && i < |specs|
    ensures Offset(specs, i) <= offsets[i]
    decreases i
  {
    AlignUpIsLeast(End(specs, i), specs[i].size);
    if i > 0 {
      OffsetsAreMinimal(specs, offsets, i - 1);
    }
  }

  /** The padded total covers every field and wastes less than one alignment unit; if every size divides the
      largest, an array of such structs keeps every field aligned. */
  lemma {:induction false} TotalCovers(specs: seq<Spec>, i: nat, n: nat)
    requires Sized(specs) && i < |specs| && MaxAlign(specs, |specs|) >= 1
    ensures var total := AlignUp(End(specs, |specs|), MaxAlign(specs, |specs|));
            && Offset(specs, i) + Times(specs[i].count, specs[i].size) <= total
            && total < End(specs, |specs|) + MaxAlign(specs, |specs|)
            && (Multiple(MaxAlign(specs, |specs|), specs[i].size) ==>
                 Multiple(Times(n, total) + Offset(specs, i), specs[i].size))
  {
    var max, a := MaxAlign(specs, |specs|), specs[i].size;
    var total := AlignUp(End(specs, |specs|), max);
    FieldsAreApart(specs, i, |specs|);
    AlignUpIsLeast(End(specs, |specs|), max);
    if Multiple(max, a) {
      MultipleOfMultiple(total, max, a);
      MultipleTimes(n, total, a);
      MultiplesAdd(Times(n, total), Offset(specs, i), a);
    }
  }

  lemma {:induction false} MultiplesAdd(m: nat, k: nat, a: nat)
    requires a > 0 && Multiple(m, a) && Multiple(k, a)
    ensures Multiple(m + k, a)
  {
    DivMod(m, a);
    DivMod(k, a);
    TimesAdds(m / a, k / a, a);
    TimesIsMultiple(m / a + k / a, a);
  }

  lemma {:induction false} MultipleTimes(n: nat, m: nat, a: nat)
    requires a > 0 && Multiple(m, a)
    ensures Multiple(Times(n, m), a)
    decreases n
  {
    if n > 0 {
      MultipleTimes(n - 1, m, a);
      MultiplesAdd(Times(n - 1, m), m, a);
    }
  }

  lemma {:induction false} MultipleOfMultiple(m: nat, b: nat, a: nat)
    requires a > 0 && b > 0 && Multiple(m, b) && Multiple(b, a)
    ensures Multiple(m, a)
  {
    DivMod(m, b);
    MultipleTimes(m / b, b, a);
  }
}

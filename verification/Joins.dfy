/** Laying sequences end to end, and where each one starts. */
module Joins {
  function Joined<T>(parts: seq<seq<T>>): seq<T> {
    if parts == [] then [] else Joined(parts[..|parts| - 1]) + parts[|parts| - 1]
  }

  /** The index at which part `i` begins. */
  function Start<T>(parts: seq<seq<T>>, i: nat): nat
    requires i <= |parts|
  {
    |Joined(parts[..i])|
  }

  lemma {:induction false} JoinedSnoc<T>(parts: seq<seq<T>>, i: nat)
    requires i < |parts|
    ensures Joined(parts[..i + 1]) == Joined(parts[..i]) + parts[i]
    ensures Start(parts, i + 1) == Start(parts, i) + |parts[i]|
  {
    assert parts[..i + 1][..i] == parts[..i];
  }

  lemma {:induction false} JoinedAll<T>(parts: seq<seq<T>>)
    ensures Joined(parts[..|parts|]) == Joined(parts) && Start(parts, |parts|) == |Joined(parts)|
    ensures Joined(parts[..0]) == [] && Start(parts, 0) == 0
  {
    assert parts[..|parts|] == parts;
  }

  lemma {:induction false} PrefixStays<T>(parts: seq<seq<T>>, i: nat, j: nat)
    requires i <= j <= |parts|
    ensures Joined(parts[..i]) <= Joined(parts[..j])
    decreases j
  {
    if i < j {
      JoinedSnoc(parts, j - 1);
      PrefixStays(parts, i, j - 1);
    }
  }

  /** Element `k` of part `i` is found at the part's start plus `k`. */
  lemma {:induction false} JoinedAt<T>(parts: seq<seq<T>>, i: nat, k: nat)
    requires i < |parts| && k < |parts[i]|
    ensures Start(parts, i) + k < |Joined(parts)| && Joined(parts)[Start(parts, i) + k] == parts[i][k]
  {
    JoinedSnoc(parts, i);
    PrefixStays(parts, i + 1, |parts|);
    JoinedAll(parts);
  }

  /** Different elements are found at different indices. */
  lemma {:induction false} PartsAreApart<T>(parts: seq<seq<T>>, i: nat, j: nat, k: nat, l: nat)
    requires i < |parts| && j < |parts| && k < |parts[i]| && l < |parts[j]|
    requires Start(parts, i) + k == Start(parts, j) + l
    ensures i == j && k == l
  {
    if i < j {
      JoinedSnoc(parts, i);
      PrefixStays(parts, i + 1, j);
    } else if j < i {
      JoinedSnoc(parts, j);
      PrefixStays(parts, j + 1, i);
    }
  }

  /** Every index belongs to some element. */
  lemma {:induction false} Locate<T>(parts: seq<seq<T>>, g: nat) returns (i: nat, k: nat)
    requires g < |Joined(parts)|
    ensures i < |parts| && k < |parts[i]| && g == Start(parts, i) + k
    decreases |parts|
  {
    var n := |parts| - 1;
    var init := parts[..n];
    if g < |Joined(init)| {
      i, k := Locate(init, g);
      assert init[..i] == parts[..i];
    } else {
      i, k := n, g - |Joined(init)|;
    }
  }

  lemma {:induction false} SameStarts<S, T>(xs: seq<seq<S>>, ys: seq<seq<T>>, i: nat)
    requires |xs| == |ys| && i <= |xs|
    requires forall j | 0 <= j < |xs| :: |xs[j]| == |ys[j]|
    ensures Start(xs, i) == Start(ys, i)
    decreases i
  {
    if i > 0 {
      SameStarts(xs, ys, i - 1);
      JoinedSnoc(xs, i - 1);
      JoinedSnoc(ys, i - 1);
    }
  }
}

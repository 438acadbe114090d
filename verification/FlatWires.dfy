/** Wires between leaf elements, numbered by flat block index (`src/codegen/system.rs`). */
module FlatWires {
  /** Element `elem` of the concatenated input (or output) ports of a flat block. */
  datatype ElemRef = ElemRef(block: nat, elem: nat)

  datatype FlatWire = FlatWire(src: ElemRef, dst: ElemRef)

  /** The sum of the first `n` port sizes. */
  function SizeSum(sizes: seq<nat>, n: nat): nat
    requires n <= |sizes|
  {
    if n == 0 then 0 else SizeSum(sizes, n - 1) + sizes[n - 1]
  }

  /** Flat element `e` is element `elem` of port `port`. */
  ghost predicate IsElement(sizes: seq<nat>, port: nat, elem: nat, e: nat) {
    port < |sizes| && elem < sizes[port] && e == SizeSum(sizes, port) + elem
  }

  /** The flat elements are the ports' own, port after port: each belongs to exactly one. */
  lemma {:induction false} ElementHasOnePort(sizes: seq<nat>, n: nat, e: nat) returns (port: nat, elem: nat)
    requires n <= |sizes| && e < SizeSum(sizes, n)
    ensures port < n && IsElement(sizes, port, elem, e)
    ensures forall q: nat, k: nat {:trigger IsElement(sizes, q, k, e)} | IsElement(sizes, q, k, e) ::
              q == port && k == elem
    decreases n
  {
    if e >= SizeSum(sizes, n - 1) {
      port, elem := n - 1, e - SizeSum(sizes, n - 1);
      forall q: nat, k: nat {:trigger IsElement(sizes, q, k, e)} | IsElement(sizes, q, k, e)
        ensures q == port && k == elem
      {
        if q < n - 1 { SumsGrow(sizes, q + 1, n - 1); }
        if q > n - 1 { SumsGrow(sizes, n, q); }
      }
    } else {
      port, elem := ElementHasOnePort(sizes, n - 1, e);
    }
  }

  lemma {:induction false} SumsGrow(sizes: seq<nat>, m: nat, n: nat)
    requires m <= n <= |sizes|
    ensures SizeSum(sizes, m) <= SizeSum(sizes, n)
    decreases n
  {
    if m < n { SumsGrow(sizes, m, n - 1); }
  }

  /** The elements of port `port` follow each other from its start, and the next port starts after them. */
  lemma {:induction false} PortsFollow(sizes: seq<nat>, port: nat)
    requires port < |sizes|
    ensures SizeSum(sizes, 0) == 0 && SizeSum(sizes, port + 1) - SizeSum(sizes, port) == sizes[port]
  {
  }
}

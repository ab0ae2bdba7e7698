/** Octets and the few conversions the rest of the model shares. */
module Bytes {
  type byte = x: int | 0 <= x < 256

  type u16 = x: int | 0 <= x < 65536

  datatype Option<+T> = None | Some(value: T)
}

/** Counting elements. */
module Counting {
  /** The numbers below n. */
  function UpTo(n: nat): (r: set<int>)
    ensures forall i :: i in r <==> 0 <= i < n
    ensures |r| == n
  {
    if n == 0 then {} else UpTo(n - 1) + {n - 1}
  }

  /** The elements of a sequence. */
  function Elements(xs: seq<nat>): (r: set<int>)
    ensures forall x :: x in r <==> x in xs
    ensures |r| <= |xs|
  {
    if xs == [] then {} else Elements(xs[..|xs| - 1]) + {xs[|xs| - 1]}
  }

  lemma SubsetSize<T>(a: set<T>, b: set<T>)
    requires a <= b
    ensures |a| <= |b|
  {
    assert b == a + (b - a);
  }
}

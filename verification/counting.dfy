/** Sizes of sets, and the arithmetic that bounds need. */
module Counting {
  lemma SubsetSize<T>(a: set<T>, b: set<T>)
    requires a <= b
    ensures |a| <= |b| && (|a| == |b| ==> a == b)
  {
    assert b == a + (b - a);
  }

  function Min(a: nat, b: nat): nat {
    if a < b then a else b
  }

  function Max(a: nat, b: nat): nat {
    if a < b then b else a
  }

  lemma MulStep(a: nat, b: nat)
    ensures a * (b + 1) == a * b + a
  {
  }

  lemma Scale(f: nat, a: nat, b: nat)
    requires a <= b
    ensures f * a <= f * b
  {
  }

  lemma Compound(f: nat, a: nat, b: nat)
    requires a <= b
    ensures a + f * a <= (1 + f) * b
  {
    Scale(f, a, b);
  }
}

/** Small facts that several components need. */
module Basics {
  function Min(a: int, b: int): int { if a <= b then a else b }

  function Max(a: int, b: int): int { if a >= b then a else b }

  ghost predicate NoDuplicates<T>(xs: seq<T>) {
    forall i, j :: 0 <= i < j < |xs| ==> xs[i] != xs[j]
  }

  predicate OccursAt(text: string, pattern: string, p: int) {
    0 <= p && p + |pattern| <= |text| && text[p..p + |pattern|] == pattern
  }

  lemma ConcatAssociates<T>(a: seq<T>, b: seq<T>, c: seq<T>)
    ensures a + (b + c) == (a + b) + c
  {}

  lemma SubsetSize<T>(a: set<T>, b: set<T>)
    requires a <= b
    ensures |a| <= |b|
    ensures |a| == |b| ==> a == b
  {
    assert b == a + (b - a);
  }

  lemma Scale(x: real, y: real, c: real)
    requires c > 0.0
    ensures x < y ==> x * c < y * c
    ensures x <= y ==> x * c <= y * c
  {}
}

/** Multiset facts about removing one element from a sequence. */
module Multisets {

  /** Taking the element at `j` out of a sequence takes one copy of it out
      of the multiset. */
  lemma MultisetWithout<T>(b: seq<T>, j: nat)
    requires j < |b|
    ensures multiset(b) == multiset(b[..j] + b[j + 1..]) + multiset{b[j]}
  {
    assert b[j..] == [b[j]] + b[j + 1..];
    assert b == b[..j] + b[j..];
  }

  /** Removing the head of `a` and a matching element of `b` keeps two
      permutations permutations of each other. */
  lemma RemoveMatching<T>(a: seq<T>, b: seq<T>, j: nat)
    requires multiset(a) == multiset(b)
    requires 0 < |a| && j < |b| && b[j] == a[0]
    ensures multiset(a[1..]) == multiset(b[..j] + b[j + 1..])
  {
    MultisetWithout(a, 0);
    assert a[..0] + a[1..] == a[1..];
    MultisetWithout(b, j);
    var rest := multiset(b[..j] + b[j + 1..]);
    forall y ensures multiset(a[1..])[y] == rest[y] {
      assert multiset(a)[y] == multiset(b)[y];
    }
  }
}

/** Sequences that are permutations of each other. */
module Permutations {

  lemma Without<T>(s: seq<T>, k: nat)
    requires k < |s|
    ensures multiset(s) == multiset(s[..k] + s[k + 1..]) + multiset{s[k]}
  {
    assert s == s[..k] + ([s[k]] + s[k + 1..]);
    assert multiset(s) == multiset(s[..k]) + (multiset{s[k]} + multiset(s[k + 1..]));
  }

  lemma Cancel<T>(a: multiset<T>, b: multiset<T>, x: T)
    requires a + multiset{x} == b + multiset{x}
    ensures a == b
  {
    assert a == (a + multiset{x}) - multiset{x};
    assert b == (b + multiset{x}) - multiset{x};
  }

  /** The last element of a sequence in a permutation of it: taking both out leaves permutations. */
  lemma FindLast<T>(a: seq<T>, b: seq<T>) returns (k: nat)
    requires multiset(a) == multiset(b) && a != []
    ensures k < |b| && b[k] == a[|a| - 1]
    ensures multiset(a[..|a| - 1]) == multiset(b[..k] + b[k + 1..])
  {
    var front, last := a[..|a| - 1], a[|a| - 1];
    assert a == front + [last];
    assert multiset(a) == multiset(front) + multiset{last};
    assert last in multiset(b);
    k :| 0 <= k < |b| && b[k] == last;
    Without(b, k);
    Cancel(multiset(front), multiset(b[..k] + b[k + 1..]), last);
  }

  lemma SameLength<T>(a: seq<T>, b: seq<T>)
    requires multiset(a) == multiset(b)
    ensures |a| == |b|
  {
    assert |multiset(a)| == |a| && |multiset(b)| == |b|;
  }
}

/** Rearranged sequences. */
module Sequences {
  lemma SameSize<T>(a: seq<T>, b: seq<T>)
    requires multiset(a) == multiset(b)
    ensures |a| == |b|
  {
    assert |multiset(a)| == |a| && |multiset(b)| == |b|;
  }

  lemma SameMembers<T>(a: seq<T>, b: seq<T>)
    requires multiset(a) == multiset(b)
    ensures forall x :: x in a <==> x in b
  {
    forall x ensures x in a <==> x in b {
      assert x in a <==> x in multiset(a);
      assert x in b <==> x in multiset(b);
    }
  }

  /** Where the first value of one arrangement sits in the other. */
  lemma Without<T>(a: seq<T>, b: seq<T>) returns (pre: seq<T>, post: seq<T>)
    requires a != [] && multiset(a) == multiset(b)
    ensures b == pre + ([a[0]] + post) && multiset(a[1..]) == multiset(pre + post)
  {
    assert a[0] in multiset(a);
    assert a[0] in b;
    var i :| 0 <= i < |b| && b[i] == a[0];
    pre, post := b[..i], b[i + 1..];
    assert b == pre + ([a[0]] + post);
    Extract(pre, a[0], post);
    First(a);
    Cancel(multiset(a[1..]), multiset(pre + post), a[0]);
  }

  lemma First<T>(a: seq<T>)
    requires a != []
    ensures multiset(a) == multiset(a[1..]) + multiset{a[0]}
  {
    assert a == [a[0]] + a[1..];
  }

  lemma Cancel<T>(m: multiset<T>, n: multiset<T>, x: T)
    requires m + multiset{x} == n + multiset{x}
    ensures m == n
  {
    assert (m + multiset{x}) - multiset{x} == m;
    assert (n + multiset{x}) - multiset{x} == n;
  }

  lemma Extract<T>(pre: seq<T>, x: T, post: seq<T>)
    ensures multiset(pre + ([x] + post)) == multiset(pre + post) + multiset{x}
  {
    assert multiset(pre + ([x] + post)) == multiset(pre) + multiset([x] + post);
    assert multiset([x] + post) == multiset{x} + multiset(post);
  }
}

/** Orders of the same elements. */
module Permutations {

  function Without<T>(s: seq<T>, i: nat): (r: seq<T>)
    requires i < |s|
    ensures multiset(s) == multiset(r) + multiset{s[i]}
  {
    assert s == s[..i] + [s[i]] + s[i + 1..];
    s[..i] + s[i + 1..]
  }

  lemma WithoutLast<T>(s: seq<T>)
    requires s != []
    ensures Without(s, |s| - 1) == s[..|s| - 1]
  {
  }

  /** Taking out an element and then the last one is taking them out in the other order. */
  lemma WithoutThenLast<T>(s: seq<T>, i: nat)
    requires i < |s| - 1
    ensures var n, rest := |s| - 1, Without(s, i);
            |rest| == n && rest[..n - 1] == Without(s[..n], i) && rest[n - 1] == s[n]
  {
    var n, rest := |s| - 1, Without(s, i);
    assert forall j :: 0 <= j < n ==> rest[j] == if j < i then s[j] else s[j + 1];
  }

  /** Two orders of the same elements: element `i` of one stands somewhere in the other, and the rest agree. */
  lemma Matching<T>(a: seq<T>, i: nat, b: seq<T>) returns (j: nat)
    requires multiset(a) == multiset(b) && i < |a|
    ensures j < |b| && b[j] == a[i] && multiset(Without(a, i)) == multiset(Without(b, j))
  {
    assert a[i] in multiset(b);
    j :| 0 <= j < |b| && b[j] == a[i];
    var x := multiset{a[i]};
    assert multiset(Without(a, i)) == multiset(a) - x;
    assert multiset(Without(b, j)) == multiset(b) - x;
  }

  lemma SameLength<T>(a: seq<T>, b: seq<T>)
    requires multiset(a) == multiset(b)
    ensures |a| == |b|
  {
    assert |a| == |multiset(a)| == |b|;
  }
}

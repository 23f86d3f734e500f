/** Facts about taking one element out of a sequence, shared by the permutation proofs. */
module Multisets {

  lemma RemoveAt<T>(b: seq<T>, j: nat)
    requires j < |b|
    ensures b == b[..j] + [b[j]] + b[j + 1..]
    ensures multiset(b[..j] + b[j + 1..]) == multiset(b) - multiset{b[j]}
  {
    assert b == b[..j] + [b[j]] + b[j + 1..];
    assert multiset(b) == multiset(b[..j]) + multiset{b[j]} + multiset(b[j + 1..]);
  }

  lemma DropLast<T>(a: seq<T>)
    requires a != []
    ensures a == a[..|a| - 1] + [a[|a| - 1]]
    ensures multiset(a[..|a| - 1]) == multiset(a) - multiset{a[|a| - 1]}
  {
    assert a == a[..|a| - 1] + [a[|a| - 1]];
    assert multiset(a) == multiset(a[..|a| - 1]) + multiset{a[|a| - 1]};
  }

  /** A permutation of a non-empty sequence holds its last element somewhere. */
  lemma MatchLast<T>(a: seq<T>, b: seq<T>) returns (j: nat)
    requires a != [] && multiset(a) == multiset(b)
    ensures j < |b| && b[j] == a[|a| - 1]
    ensures multiset(a[..|a| - 1]) == multiset(b[..j] + b[j + 1..])
  {
    assert a[|a| - 1] in multiset(b);
    j :| 0 <= j < |b| && b[j] == a[|a| - 1];
    DropLast(a);
    RemoveAt(b, j);
  }

  lemma EmptyPermutation<T>(a: seq<T>, b: seq<T>)
    requires a == [] && multiset(a) == multiset(b)
    ensures b == []
  {
    assert |b| == |multiset(b)| == 0;
  }

  /** In a sequence without repeats every element occurs at most once. */
  lemma {:induction false} DistinctCount<T>(s: seq<T>, x: T)
    requires forall i, j :: 0 <= i < j < |s| ==> s[i] != s[j]
    ensures multiset(s)[x] <= 1
    decreases |s|
  {
    if s != [] {
      var init, last := s[..|s| - 1], s[|s| - 1];
      DropLast(s);
      DistinctCount(init, x);
      forall k | 0 <= k < |init| ensures init[k] != last {
        assert init[k] == s[k];
      }
      assert last !in multiset(init);
    }
  }

  /** An element found at two positions occurs at least twice. */
  lemma RepeatCount<T>(s: seq<T>, i: nat, j: nat)
    requires i < j < |s| && s[i] == s[j]
    ensures multiset(s)[s[i]] >= 2
  {
    RemoveAt(s, i);
    var rest := s[..i] + s[i + 1..];
    assert rest[j - 1] == s[j];
    assert s[i] in multiset(rest);
  }
}

/**
 * `sort.Strings`: the slice ends up in ascending order and holds the same
 * strings as before. Go sorts in place with its own algorithm; since a sorted
 * permutation is unique (`SortedPermutationUnique`), any sort gives the same
 * slice, and an insertion sort on values stands for it here.
 */
module Sorting {
  import opened GoStrings
  import opened Multisets

  function Insert(x: string, s: seq<string>): seq<string>
  {
    if s == [] then [x]
    else if LessEq(x, s[0]) then [x] + s
    else [s[0]] + Insert(x, s[1..])
  }

  /** A string no greater than any element of a sorted slice can go in front of it. */
  lemma ConsSorted(h: string, t: seq<string>)
    requires Sorted(t)
    requires forall k :: 0 <= k < |t| ==> LessEq(h, t[k])
    ensures Sorted([h] + t)
  {
    var r := [h] + t;
    forall i, j | 0 <= i < j < |r|
      ensures LessEq(r[i], r[j])
    {
      assert r[j] == t[j - 1];
      if i > 0 {
        assert r[i] == t[i - 1];
      }
    }
  }

  lemma {:induction false} InsertSorted(x: string, s: seq<string>)
    requires Sorted(s)
    ensures Sorted(Insert(x, s))
    ensures multiset(Insert(x, s)) == multiset(s) + multiset{x}
    decreases |s|
  {
    if s == [] {
    } else if LessEq(x, s[0]) {
      forall k | 0 <= k < |s|
        ensures LessEq(x, s[k])
      {
        if k > 0 {
          LessEqTransitive(x, s[0], s[k]);
        }
      }
      ConsSorted(x, s);
    } else {
      InsertSorted(x, s[1..]);
      assert s == [s[0]] + s[1..];
      InsertedAbove(x, s);
      ConsSorted(s[0], Insert(x, s[1..]));
    }
  }

  /** When `x` goes behind the head, the head stays no greater than anything after it. */
  lemma InsertedAbove(x: string, s: seq<string>)
    requires Sorted(s) && s != [] && !LessEq(x, s[0])
    requires multiset(Insert(x, s[1..])) == multiset(s[1..]) + multiset{x}
    ensures forall k :: 0 <= k < |Insert(x, s[1..])| ==> LessEq(s[0], Insert(x, s[1..])[k])
  {
    LessEqTotal(x, s[0]);
    var t := Insert(x, s[1..]);
    forall k | 0 <= k < |t|
      ensures LessEq(s[0], t[k])
    {
      assert t[k] in multiset(t);
      if t[k] != x {
        assert t[k] in multiset(s[1..]);
        var j :| 0 <= j < |s[1..]| && s[1..][j] == t[k];
        assert s[j + 1] == t[k];
      }
    }
  }

  lemma {:induction false} InsertLength(x: string, s: seq<string>)
    ensures |Insert(x, s)| == |s| + 1
    decreases |s|
  {
    if s != [] && !LessEq(x, s[0]) {
      InsertLength(x, s[1..]);
    }
  }

  /** The slice `sort.Strings` leaves behind. */
  function SortStrings(s: seq<string>): (r: seq<string>)
    ensures Sorted(r)
    ensures multiset(r) == multiset(s)
    ensures |r| == |s|
  {
    if s == [] then []
    else
      var rest := SortStrings(s[1..]);
      InsertSorted(s[0], rest);
      InsertLength(s[0], rest);
      assert s == [s[0]] + s[1..];
      Insert(s[0], rest)
  }

  /** The first element of a sorted slice is no greater than any of its elements. */
  lemma SortedHeadIsLeast(a: seq<string>, x: string)
    requires Sorted(a) && x in a
    ensures LessEq(a[0], x)
  {
    var i :| 0 <= i < |a| && a[i] == x;
    if i == 0 {
      LessEqReflexive(x);
    }
  }

  /** Two sorted slices with the same strings are the same slice. */
  lemma {:induction false} SortedPermutationUnique(a: seq<string>, b: seq<string>)
    requires Sorted(a) && Sorted(b)
    requires multiset(a) == multiset(b)
    ensures a == b
    decreases |a|
  {
    if a == [] {
      EmptyPermutation(a, b);
    } else {
      assert |b| == |multiset(b)| == |multiset(a)| == |a|;
      assert a[0] in multiset(b) && b[0] in multiset(a);
      SortedHeadIsLeast(b, a[0]);
      SortedHeadIsLeast(a, b[0]);
      LessEqAntisymmetric(a[0], b[0]);
      RemoveAt(a, 0);
      RemoveAt(b, 0);
      assert a[..0] + a[1..] == a[1..] && b[..0] + b[1..] == b[1..];
      SortedPermutationUnique(a[1..], b[1..]);
    }
  }

  /** Sorting depends only on which strings are present, not on their order. */
  lemma SortIgnoresOrder(a: seq<string>, b: seq<string>)
    requires multiset(a) == multiset(b)
    ensures SortStrings(a) == SortStrings(b)
  {
    SortedPermutationUnique(SortStrings(a), SortStrings(b));
  }
}

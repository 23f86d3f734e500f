/**
 * Go strings, seen one rune per element.
 *
 * Go compares strings byte by byte. For valid UTF-8, byte order and
 * code-point order agree, so comparing the rune sequences element by element
 * gives the same answer; that is the order used by `sort.Strings` and
 * modelled by `LessEq` here. Strings are taken to be valid UTF-8.
 */
module GoStrings {

  /** `a <= b` in Go's string order: lexicographic, a proper prefix first. */
  predicate LessEq(a: string, b: string): (r: bool)
    ensures r && |a| > 0 ==> |b| > 0 && a[0] <= b[0]
    decreases |a|
  {
    |a| == 0 || (|b| > 0 && (a[0] < b[0] || (a[0] == b[0] && LessEq(a[1..], b[1..]))))
  }

  /** A string sorts at or before every string it is a prefix of. */
  lemma {:induction false} PrefixFirst(a: string, b: string)
    requires a <= b
    ensures LessEq(a, b)
    decreases |a|
  {
    if |a| > 0 {
      assert a[1..] <= b[1..];
      PrefixFirst(a[1..], b[1..]);
    }
  }

  /** Ascending order, as `sort.Strings` leaves a slice. */
  predicate Sorted(s: seq<string>)
  {
    forall i, j :: 0 <= i < j < |s| ==> LessEq(s[i], s[j])
  }

  /** `strings.HasPrefix(s, prefix)`. */
  predicate HasPrefix(s: string, prefix: string)
  {
    |prefix| <= |s| && s[..|prefix|] == prefix
  }

  lemma {:induction false} LessEqReflexive(a: string)
    ensures LessEq(a, a)
    decreases |a|
  {
    if |a| > 0 {
      LessEqReflexive(a[1..]);
    }
  }

  lemma {:induction false} LessEqTotal(a: string, b: string)
    ensures LessEq(a, b) || LessEq(b, a)
    decreases |a|
  {
    if |a| > 0 && |b| > 0 && a[0] == b[0] {
      LessEqTotal(a[1..], b[1..]);
    }
  }

  lemma {:induction false} LessEqAntisymmetric(a: string, b: string)
    requires LessEq(a, b) && LessEq(b, a)
    ensures a == b
    decreases |a|
  {
    if |a| > 0 && |b| > 0 {
      LessEqAntisymmetric(a[1..], b[1..]);
      assert a == [a[0]] + a[1..] && b == [b[0]] + b[1..];
    }
  }

  lemma {:induction false} LessEqTransitive(a: string, b: string, c: string)
    requires LessEq(a, b) && LessEq(b, c)
    ensures LessEq(a, c)
    decreases |a|
  {
    if |a| > 0 && a[0] == b[0] && b[0] == c[0] {
      LessEqTransitive(a[1..], b[1..], c[1..]);
    }
  }
}

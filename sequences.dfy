/** Order-preserving sequence relations, and LINQ's `Enumerable.Except` on value-equal elements. */
module Sequences {

  /** `a` can be obtained from `b` by deleting elements (order kept, nothing added). */
  predicate IsSubsequence<T(==)>(a: seq<T>, b: seq<T>)
    decreases |b|
  {
    if a == [] then true
    else if b == [] then false
    else if a[|a| - 1] == b[|b| - 1] then IsSubsequence(a[..|a| - 1], b[..|b| - 1])
    else IsSubsequence(a, b[..|b| - 1])
  }

  predicate NoDuplicates<T(==)>(s: seq<T>) {
    forall i, j :: 0 <= i < j < |s| ==> s[i] != s[j]
  }

  /** The position of the first occurrence of `x` in `s`. */
  function IndexOf<T(==)>(s: seq<T>, x: T): (k: nat)
    requires x in s
    ensures k < |s| && s[k] == x && x !in s[..k]
  {
    if s[0] == x then 0
    else
      var k := 1 + IndexOf(s[1..], x);
      assert s[..k] == [s[0]] + s[1..][..k - 1];
      k
  }

  lemma {:induction false} SubsequenceDropLast<T>(a: seq<T>, b: seq<T>)
    requires a != [] && IsSubsequence(a, b)
    ensures IsSubsequence(a[..|a| - 1], b)
    decreases |b|, 0
  {
    if a[|a| - 1] == b[|b| - 1] {
      SubsequenceExtend(a[..|a| - 1], b[..|b| - 1], b[|b| - 1]);
      assert b[..|b| - 1] + [b[|b| - 1]] == b;
    } else {
      SubsequenceDropLast(a, b[..|b| - 1]);
      SubsequenceExtend(a[..|a| - 1], b[..|b| - 1], b[|b| - 1]);
      assert b[..|b| - 1] + [b[|b| - 1]] == b;
    }
  }

  lemma {:induction false} SubsequenceExtend<T>(a: seq<T>, b: seq<T>, z: T)
    requires IsSubsequence(a, b)
    ensures IsSubsequence(a, b + [z])
    decreases |b|, 1
  {
    assert (b + [z])[..|b|] == b;
    if a != [] && a[|a| - 1] == z {
      SubsequenceDropLast(a, b);
    }
  }

  /**
   * `xs.Except(second)`: the elements of `xs` that are not in `second`, each once, in the order of
   * their first occurrence in `xs`.
   */
  function Except<T(==, !new)>(xs: seq<T>, second: seq<T>): (r: seq<T>)
    ensures forall y :: y in r <==> y in xs && y !in second
    ensures NoDuplicates(r)
    ensures IsSubsequence(r, xs)
  {
    if xs == [] then []
    else
      var prefix := xs[..|xs| - 1];
      var last := xs[|xs| - 1];
      var rest := Except(prefix, second);
      assert xs == prefix + [last];
      SubsequenceExtend(rest, prefix, last);
      if last in second || last in rest then rest else rest + [last]
  }

  /** A position holding `x` with no earlier `x` is the first occurrence. */
  lemma {:induction false} IndexOfUnique<T>(s: seq<T>, x: T, k: nat)
    requires k < |s| && s[k] == x && x !in s[..k]
    ensures IndexOf(s, x) == k
  {
    if k > 0 {
      assert s[..k][0] == s[0];
      assert s[1..][..k - 1] == s[..k][1..];
      IndexOfUnique(s[1..], x, k - 1);
    }
  }

  lemma IndexOfPrefix<T>(xs: seq<T>, z: T, y: T)
    requires y in xs
    ensures IndexOf(xs + [z], y) == IndexOf(xs, y)
  {
    var k := IndexOf(xs, y);
    assert (xs + [z])[..k] == xs[..k];
    IndexOfUnique(xs + [z], y, k);
  }

  /** The elements Except keeps come out in the order of their first occurrence in the input. */
  lemma {:induction false} ExceptKeepsFirstOccurrenceOrder<T(!new)>(xs: seq<T>, second: seq<T>, i: nat, j: nat)
    requires i < j < |Except(xs, second)|
    ensures IndexOf(xs, Except(xs, second)[i]) < IndexOf(xs, Except(xs, second)[j])
  {
    var prefix := xs[..|xs| - 1];
    var last := xs[|xs| - 1];
    var rest := Except(prefix, second);
    var r := Except(xs, second);
    assert xs == prefix + [last];
    IndexOfPrefix(prefix, last, r[i]);
    if j < |rest| {
      ExceptKeepsFirstOccurrenceOrder(prefix, second, i, j);
      IndexOfPrefix(prefix, last, r[j]);
    } else {
      assert r[j] == last && last !in prefix;
      assert IndexOf(xs, last) == |prefix|;
    }
  }

  /** Except changes nothing when there is nothing to remove and no repetition to collapse. */
  lemma {:induction false} ExceptUnchanged<T(!new)>(xs: seq<T>, second: seq<T>)
    requires NoDuplicates(xs)
    requires forall y :: y in second ==> y !in xs
    ensures Except(xs, second) == xs
  {
    if xs != [] {
      var prefix := xs[..|xs| - 1];
      ExceptUnchanged(prefix, second);
      assert xs == prefix + [xs[|xs| - 1]];
    }
  }
}

/** Facts about sequences that the other modules share. */
module Sequences {

  ghost predicate Distinct<T>(s: seq<T>) {
    forall i, j :: 0 <= i < j < |s| ==> s[i] != s[j]
  }

  /** Where `x` first occurs. */
  function Position<T(==)>(s: seq<T>, x: T): (p: nat)
    requires x in s
    ensures p < |s| && s[p] == x
  {
    if s[0] == x then 0 else 1 + Position(s[1..], x)
  }

  lemma Associative<T>(a: seq<T>, b: seq<T>, c: seq<T>)
    ensures a + b + c == a + (b + c)
  {
  }

  /** `a` can be had from `b` by leaving elements out. */
  ghost predicate Subsequence<T>(a: seq<T>, b: seq<T>) {
    a == [] || (b != [] && ((a[0] == b[0] && Subsequence(a[1..], b[1..])) || Subsequence(a, b[1..])))
  }

  lemma {:induction false} SubsequenceLater<T>(a: seq<T>, front: seq<T>, b: seq<T>)
    requires Subsequence(a, b)
    ensures Subsequence(a, front + b)
  {
    if front == [] {
      assert front + b == b;
    } else {
      SubsequenceLater(a, front[1..], b);
      assert (front + b)[1..] == front[1..] + b;
    }
  }

  lemma {:induction false} SubsequenceAppend<T>(a: seq<T>, b: seq<T>, c: seq<T>, d: seq<T>)
    requires Subsequence(a, b) && Subsequence(c, d)
    ensures Subsequence(a + c, b + d)
    decreases |b|
  {
    if a == [] {
      assert a + c == c;
      SubsequenceLater(c, b, d);
    } else {
      assert (b + d)[1..] == b[1..] + d && (a + c)[0] == a[0] && (b + d)[0] == b[0];
      if a[0] == b[0] && Subsequence(a[1..], b[1..]) {
        SubsequenceAppend(a[1..], b[1..], c, d);
        assert (a + c)[1..] == a[1..] + c;
      } else {
        SubsequenceAppend(a, b[1..], c, d);
      }
    }
  }

  lemma SubsequenceJoin<T>(x: seq<T>, y: seq<T>, z: seq<T>, m: seq<T>, n: seq<T>)
    requires x <= y <= z && Subsequence(m, y[|x|..]) && Subsequence(n, z[|y|..])
    ensures Subsequence(m + n, z[|x|..])
  {
    SubsequenceAppend(m, y[|x|..], n, z[|y|..]);
    assert z[|x|..] == y[|x|..] + z[|y|..];
  }

  lemma SubsequenceFirst<T>(x: seq<T>, e: T, z: seq<T>)
    requires x + [e] <= z
    ensures x <= z && Subsequence([e], z[|x|..])
  {
    assert z[|x|..][0] == (x + [e])[|x|] == e;
    assert [e][1..] == [] && Subsequence([e][1..], z[|x|..][1..]);
    assert x == (x + [e])[..|x|];
  }
}

/**
 * Rearrangements of a sequence, the model of what `random.shuffle` may
 * produce. Two definitions are kept: multiset equality, and a recursive one
 * (pick each item of the first sequence out of the second) whose unfolding
 * the verifier can control; the two are proved equivalent.
 */
module Permutations {

  /** `a` holds the same items as `b`, each as often. */
  predicate IsPermutation<T(==)>(a: seq<T>, b: seq<T>) {
    multiset(a) == multiset(b)
  }

  /** `b` with the first occurrence of `x` removed (unchanged when there is none). */
  function Without<T(==)>(b: seq<T>, x: T): (r: seq<T>)
    ensures x in b ==> |r| == |b| - 1
    ensures x !in b ==> r == b
  {
    if b == [] then []
    else if b[0] == x then b[1..]
    else [b[0]] + Without(b[1..], x)
  }

  /** `a` is obtained by taking the items of `b` out one at a time in some order. */
  predicate IsRearrangement<T(==)>(a: seq<T>, b: seq<T>)
    decreases |a|
  {
    if a == [] then b == []
    else a[0] in b && IsRearrangement(a[1..], Without(b, a[0]))
  }

  lemma {:induction false} WithoutMultiset<T>(b: seq<T>, x: T)
    requires x in b
    ensures multiset(Without(b, x)) == multiset(b) - multiset{x}
  {
    if b[0] != x {
      WithoutMultiset(b[1..], x);
      assert b == [b[0]] + b[1..];
    } else {
      assert b == [x] + b[1..];
    }
  }

  /** The recursive definition and multiset equality agree, in both directions. */
  lemma {:induction false} RearrangementIsPermutation<T>(a: seq<T>, b: seq<T>)
    ensures IsRearrangement(a, b) <==> IsPermutation(a, b)
    decreases |a|
  {
    if a == [] {
      if multiset(a) == multiset(b) {
        assert |multiset(b)| == 0;
      }
    } else {
      assert a == [a[0]] + a[1..];
      assert multiset(a) == multiset{a[0]} + multiset(a[1..]);
      if a[0] in b {
        WithoutMultiset(b, a[0]);
        RearrangementIsPermutation(a[1..], Without(b, a[0]));
        assert a[0] in multiset(b);
      } else {
        assert a[0] in multiset(a);
        assert a[0] !in multiset(b);
      }
    }
  }
}

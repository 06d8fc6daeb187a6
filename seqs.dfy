/**
 * Facts about sequences that the merge proofs need: duplicate-free
 * sequences, element-wise images and sums, and their behaviour under
 * permutation (equal multisets).
 */
module Seqs {
  ghost predicate Distinct<T>(s: seq<T>) {
    forall i, j :: 0 <= i < j < |s| ==> s[i] != s[j]
  }

  /** The element-wise image of `s` under `f`. */
  function MapSeq<A, B>(f: A -> B, s: seq<A>): (r: seq<B>)
    ensures |r| == |s|
    ensures forall i :: 0 <= i < |s| ==> r[i] == f(s[i])
  {
    seq(|s|, i requires 0 <= i < |s| => f(s[i]))
  }

  function Sum(s: seq<int>): int {
    if s == [] then 0 else Sum(s[..|s| - 1]) + s[|s| - 1]
  }

  /** A prefix one longer is the prefix followed by the next element. */
  lemma PrefixSnoc<T>(s: seq<T>, i: nat)
    requires i < |s|
    ensures s[..i + 1] == s[..i] + [s[i]]
  {}

  /** A sequence without repeats has as many elements as its set of elements. */
  lemma {:induction false} DistinctCardinality<T>(s: seq<T>)
    requires Distinct(s)
    ensures |set x | x in s| == |s|
    decreases |s|
  {
    if s != [] {
      var init := s[..|s| - 1];
      DistinctCardinality(init);
      SplitLast(s);
      assert (set x | x in s) == (set x | x in init) + {s[|s| - 1]};
    }
  }

  /** A non-empty sequence is its prefix followed by its last element. */
  lemma SplitLast<T>(s: seq<T>)
    requires s != []
    ensures s == s[..|s| - 1] + [s[|s| - 1]]
  {
  }

  lemma {:induction false} SumAppend(a: seq<int>, b: seq<int>)
    ensures Sum(a + b) == Sum(a) + Sum(b)
    decreases |b|
  {
    if b != [] {
      var b' := b[..|b| - 1];
      assert (a + b)[..|a + b| - 1] == a + b';
      SumAppend(a, b');
    } else {
      assert a + b == a;
    }
  }

  /** Removing the element at `k` takes it out of the multiset. */
  lemma RemoveAt<T>(b: seq<T>, k: nat)
    requires k < |b|
    ensures b == b[..k] + [b[k]] + b[k + 1..]
    ensures multiset(b) == multiset(b[..k] + b[k + 1..]) + multiset{b[k]}
  {
    assert b == b[..k] + [b[k]] + b[k + 1..];
  }

  lemma SumRemoveAt(b: seq<int>, k: nat)
    requires k < |b|
    ensures Sum(b) == Sum(b[..k] + b[k + 1..]) + b[k]
  {
    var p, x, q := b[..k], b[k], b[k + 1..];
    assert b == p + [x] + q;
    SumAppend(p + [x], q);
    SumAppend(p, [x]);
    SumAppend(p, q);
    SumSingleton(x);
  }

  lemma SumSingleton(x: int)
    ensures Sum([x]) == x
  {
    assert [x][..0] == [];
  }

  /** Equal multisets stay equal when one occurrence of the same element is taken from both. */
  lemma MultisetCancel<T>(a: multiset<T>, b: multiset<T>, x: T)
    requires a + multiset{x} == b + multiset{x}
    ensures a == b
  {
    forall y
      ensures a[y] == b[y]
    {
      assert (a + multiset{x})[y] == a[y] + multiset{x}[y];
      assert (b + multiset{x})[y] == b[y] + multiset{x}[y];
    }
  }

  /**
   * The last element of `a` occurs in its rearrangement `b`, at some `k`; the
   * rest of `a` is a rearrangement of `b` without position `k`.
   */
  lemma PermutationWithout<T>(a: seq<T>, b: seq<T>) returns (k: nat)
    requires a != [] && multiset(a) == multiset(b)
    ensures k < |b| && b[k] == a[|a| - 1]
    ensures multiset(a[..|a| - 1]) == multiset(b[..k] + b[k + 1..])
  {
    var x, a' := a[|a| - 1], a[..|a| - 1];
    assert a == a' + [x];
    assert multiset(a) == multiset(a') + multiset{x};
    assert x in multiset(b);
    k :| 0 <= k < |b| && b[k] == x;
    RemoveAt(b, k);
    MultisetCancel(multiset(a'), multiset(b[..k] + b[k + 1..]), x);
  }

  /** Rearranging a sequence does not change its sum. */
  lemma {:induction false} SumPermutation(a: seq<int>, b: seq<int>)
    requires multiset(a) == multiset(b)
    ensures Sum(a) == Sum(b)
    decreases |a|
  {
    if a == [] {
      assert |b| == |multiset(b)| == 0;
    } else {
      var k := PermutationWithout(a, b);
      SumPermutation(a[..|a| - 1], b[..k] + b[k + 1..]);
      SumRemoveAt(b, k);
    }
  }

  lemma MapAppend<A, B>(f: A -> B, a: seq<A>, b: seq<A>)
    ensures MapSeq(f, a + b) == MapSeq(f, a) + MapSeq(f, b)
  {
  }

  /** Rearranging a sequence rearranges its image the same way. */
  lemma {:induction false} MapPermutation<A, B>(f: A -> B, a: seq<A>, b: seq<A>)
    requires multiset(a) == multiset(b)
    ensures multiset(MapSeq(f, a)) == multiset(MapSeq(f, b))
    decreases |a|
  {
    if a == [] {
      assert |b| == |multiset(b)| == 0;
    } else {
      var n := |a| - 1;
      var k := PermutationWithout(a, b);
      assert a[..n] + a[n + 1..] == a[..n];
      MapPermutation(f, a[..n], b[..k] + b[k + 1..]);
      MapRemoveAt(f, a, n);
      MapRemoveAt(f, b, k);
    }
  }

  /** Removing the element at `k` takes its image out of the image's multiset. */
  lemma MapRemoveAt<A, B>(f: A -> B, b: seq<A>, k: nat)
    requires k < |b|
    ensures multiset(MapSeq(f, b)) == multiset(MapSeq(f, b[..k] + b[k + 1..])) + multiset{f(b[k])}
  {
    assert b == b[..k] + [b[k]] + b[k + 1..];
    MapAppend(f, b[..k] + [b[k]], b[k + 1..]);
    MapAppend(f, b[..k], [b[k]]);
    MapAppend(f, b[..k], b[k + 1..]);
  }

  /** Removing one element of a duplicate-free sequence leaves it duplicate-free, minus that element. */
  lemma RemoveAtDistinct<T>(b: seq<T>, k: nat)
    requires k < |b| && Distinct(b)
    ensures Distinct(b[..k] + b[k + 1..])
    ensures forall y :: y in b[..k] + b[k + 1..] <==> y in b && y != b[k]
  {
    var b' := b[..k] + b[k + 1..];
    forall i, j | 0 <= i < j < |b'|
      ensures b'[i] != b'[j]
    {
      var i' := if i < k then i else i + 1;
      var j' := if j < k then j else j + 1;
      assert b'[i] == b[i'] && b'[j] == b[j'];
    }
    forall y
      ensures y in b' <==> y in b && y != b[k]
    {
      if y in b' {
        var j :| 0 <= j < |b'| && b'[j] == y;
        var j' := if j < k then j else j + 1;
        assert b[j'] == y && j' != k;
      }
      if y in b && y != b[k] {
        var j :| 0 <= j < |b| && b[j] == y;
        if j < k { assert b'[j] == y; } else { assert b'[j - 1] == y; }
      }
    }
  }

  /** Two duplicate-free sequences of one length with the same elements are permutations of each other. */
  lemma {:induction false} DistinctSameElements<T>(a: seq<T>, b: seq<T>)
    requires Distinct(a) && Distinct(b) && |a| == |b|
    requires forall x :: x in a <==> x in b
    ensures multiset(a) == multiset(b)
    decreases |a|
  {
    if a != [] {
      var n, x := |a| - 1, a[|a| - 1];
      var a' := a[..n];
      assert x in b;
      var k :| 0 <= k < |b| && b[k] == x;
      var b' := b[..k] + b[k + 1..];
      RemoveAt(b, k);
      RemoveAt(a, n);
      assert a[..n] + a[n + 1..] == a';
      RemoveAtDistinct(b, k);
      RemoveAtDistinct(a, n);
      SameElementsWithout(a, b, a', b', x);
      DistinctSameElements(a', b');
    }
  }

  lemma SameElementsWithout<T>(a: seq<T>, b: seq<T>, a': seq<T>, b': seq<T>, x: T)
    requires forall y :: y in a <==> y in b
    requires forall y :: y in a' <==> y in a && y != x
    requires forall y :: y in b' <==> y in b && y != x
    ensures forall y :: y in a' <==> y in b'
  {
  }

}

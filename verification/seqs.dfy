/** Order-preserving filtering, subsequences, flattening and distinctness of sequences. */
module Seqs {

  /** `a` is obtained from `b` by deleting elements, keeping the order of the rest. */
  predicate Subseq<T(==)>(a: seq<T>, b: seq<T>)
    decreases |b|
  {
    |a| == 0 || (|b| > 0 && ((a[0] == b[0] && Subseq(a[1..], b[1..])) || Subseq(a, b[1..])))
  }

  /** No element occurs twice. */
  predicate Distinct<T(==)>(xs: seq<T>)
  {
    forall i, j :: 0 <= i < j < |xs| ==> xs[i] != xs[j]
  }

  /** The `n` consecutive integers starting at `lo`. */
  function Range(lo: nat, n: nat): (r: seq<nat>)
    ensures |r| == n
    ensures forall i :: 0 <= i < n ==> r[i] == lo + i
  {
    seq(n, i requires 0 <= i < n => lo + i)
  }

  /** The elements of `xs` that satisfy `p`, in their original order. */
  function Keep<T(!new)>(xs: seq<T>, p: T -> bool): (r: seq<T>)
    ensures forall x :: x in r <==> x in xs && p(x)
    ensures Subseq(r, xs)
    ensures (forall x :: x in xs ==> p(x)) ==> r == xs
  {
    if |xs| == 0 then []
    else
      assert xs == [xs[0]] + xs[1..];
      if p(xs[0]) then [xs[0]] + Keep(xs[1..], p) else Keep(xs[1..], p)
  }

  /** The concatenation of `f(x)` over the elements `x` of `xs`, in order. */
  function FlatMap<T, U>(xs: seq<T>, f: T -> seq<U>): seq<U>
  {
    if |xs| == 0 then [] else f(xs[0]) + FlatMap(xs[1..], f)
  }

  lemma {:induction false} SubseqRefl<T>(a: seq<T>)
    ensures Subseq(a, a)
    decreases |a|
  {
    if |a| > 0 {
      SubseqRefl(a[1..]);
    }
  }

  /** Every element of a subsequence is an element of the whole. */
  lemma {:induction false} SubseqMembers<T>(a: seq<T>, b: seq<T>)
    requires Subseq(a, b)
    ensures forall x :: x in a ==> x in b
    decreases |b|
  {
    if |a| > 0 {
      if a[0] == b[0] && Subseq(a[1..], b[1..]) {
        SubseqMembers(a[1..], b[1..]);
        assert a == [a[0]] + a[1..];
        assert b == [b[0]] + b[1..];
      } else {
        SubseqMembers(a, b[1..]);
        assert b == [b[0]] + b[1..];
      }
    }
  }

  /** Prepending anything to the whole keeps a subsequence a subsequence. */
  lemma {:induction false} SubseqPrepend<T>(a: seq<T>, pre: seq<T>, b: seq<T>)
    requires Subseq(a, b)
    ensures Subseq(a, pre + b)
    decreases |pre|
  {
    if |pre| == 0 {
      assert pre + b == b;
    } else {
      SubseqPrepend(a, pre[1..], b);
      assert (pre + b)[1..] == pre[1..] + b;
    }
  }

  lemma {:induction false} SubseqConcat<T>(a1: seq<T>, b1: seq<T>, a2: seq<T>, b2: seq<T>)
    requires Subseq(a1, b1) && Subseq(a2, b2)
    ensures Subseq(a1 + a2, b1 + b2)
    decreases |b1|
  {
    if |a1| == 0 {
      assert a1 + a2 == a2;
      SubseqPrepend(a2, b1, b2);
    } else if a1[0] == b1[0] && Subseq(a1[1..], b1[1..]) {
      SubseqConcat(a1[1..], b1[1..], a2, b2);
      assert (a1 + a2)[1..] == a1[1..] + a2;
      assert (b1 + b2)[1..] == b1[1..] + b2;
    } else {
      SubseqConcat(a1, b1[1..], a2, b2);
      assert (b1 + b2)[1..] == b1[1..] + b2;
    }
  }

  lemma {:induction false} SubseqTrans<T>(a: seq<T>, b: seq<T>, c: seq<T>)
    requires Subseq(a, b) && Subseq(b, c)
    ensures Subseq(a, c)
    decreases |c|
  {
    if |a| > 0 {
      if b[0] == c[0] && Subseq(b[1..], c[1..]) {
        if a[0] == b[0] && Subseq(a[1..], b[1..]) {
          SubseqTrans(a[1..], b[1..], c[1..]);
        } else {
          SubseqTrans(a, b[1..], c[1..]);
        }
      } else {
        SubseqTrans(a, b, c[1..]);
      }
    }
  }

  /** Distinctness, one element at a time. */
  lemma DistinctCons<T>(xs: seq<T>)
    requires |xs| > 0
    ensures Distinct(xs) <==> xs[0] !in xs[1..] && Distinct(xs[1..])
  {
    if xs[0] !in xs[1..] && Distinct(xs[1..]) {
      forall i, j | 0 <= i < j < |xs|
        ensures xs[i] != xs[j]
      {
        if i == 0 {
          assert xs[j] == xs[1..][j - 1];
        } else {
          assert xs[i] == xs[1..][i - 1] && xs[j] == xs[1..][j - 1];
        }
      }
    }
  }

  /** A subsequence of a sequence without repetitions has none either. */
  lemma {:induction false} DistinctSubseq<T>(a: seq<T>, b: seq<T>)
    requires Distinct(b) && Subseq(a, b)
    ensures Distinct(a)
    decreases |b|
  {
    if |a| > 0 {
      DistinctCons(b);
      if a[0] == b[0] && Subseq(a[1..], b[1..]) {
        DistinctSubseq(a[1..], b[1..]);
        SubseqMembers(a[1..], b[1..]);
        DistinctCons(a);
      } else {
        DistinctSubseq(a, b[1..]);
      }
    }
  }

  /** A concatenation is free of repetitions iff both parts are and they share nothing. */
  lemma DistinctConcat<T>(a: seq<T>, b: seq<T>)
    ensures Distinct(a + b) <==> Distinct(a) && Distinct(b) && (forall x :: x in a ==> x !in b)
  {
    var ab := a + b;
    if Distinct(ab) {
      assert Distinct(a) by {
        forall i, j | 0 <= i < j < |a| ensures a[i] != a[j] {
          assert a[i] == ab[i] && a[j] == ab[j];
        }
      }
      assert Distinct(b) by {
        forall i, j | 0 <= i < j < |b| ensures b[i] != b[j] {
          assert b[i] == ab[|a| + i] && b[j] == ab[|a| + j];
        }
      }
      forall i, j | 0 <= i < |a| && 0 <= j < |b| ensures a[i] != b[j] {
        assert a[i] == ab[i] && b[j] == ab[|a| + j];
      }
    }
    if Distinct(a) && Distinct(b) && (forall x :: x in a ==> x !in b) {
      forall i, j | 0 <= i < j < |ab| ensures ab[i] != ab[j] {
        if j < |a| {
          assert ab[i] == a[i] && ab[j] == a[j];
        } else if i >= |a| {
          assert ab[i] == b[i - |a|] && ab[j] == b[j - |a|];
        } else {
          assert ab[i] == a[i] && ab[j] == b[j - |a|];
          assert a[i] in a;
        }
      }
    }
  }

  /** Consecutive ranges join into one range. */
  lemma RangeConcat(lo: nat, m: nat, n: nat)
    ensures Range(lo, m) + Range(lo + m, n) == Range(lo, m + n)
  {
  }

  /** A range never repeats a value. */
  lemma RangeMembers(lo: nat, n: nat)
    ensures forall x :: x in Range(lo, n) <==> lo <= x < lo + n
  {
    forall x | lo <= x < lo + n
      ensures x in Range(lo, n)
    {
      assert Range(lo, n)[x - lo] == x;
    }
  }

  lemma RangeDistinct(lo: nat, n: nat)
    ensures Distinct(Range(lo, n))
  {
  }

  lemma {:induction false} FlatMapConcat<T, U>(a: seq<T>, b: seq<T>, f: T -> seq<U>)
    ensures FlatMap(a + b, f) == FlatMap(a, f) + FlatMap(b, f)
    decreases |a|
  {
    if |a| == 0 {
      assert a + b == b;
    } else {
      assert (a + b)[1..] == a[1..] + b;
      FlatMapConcat(a[1..], b, f);
    }
  }

  /** Flattening a subsequence gives a subsequence of the flattened whole. */
  lemma {:induction false} FlatMapSubseq<T, U>(a: seq<T>, b: seq<T>, f: T -> seq<U>)
    requires Subseq(a, b)
    ensures Subseq(FlatMap(a, f), FlatMap(b, f))
    decreases |b|
  {
    if |a| > 0 {
      if a[0] == b[0] && Subseq(a[1..], b[1..]) {
        FlatMapSubseq(a[1..], b[1..], f);
        SubseqRefl(f(a[0]));
        SubseqConcat(f(a[0]), f(b[0]), FlatMap(a[1..], f), FlatMap(b[1..], f));
      } else {
        FlatMapSubseq(a, b[1..], f);
        SubseqPrepend(FlatMap(a, f), f(b[0]), FlatMap(b[1..], f));
      }
    }
  }

  /** Each piece `f(x)` of an element `x` shows up in the flattening. */
  lemma {:induction false} FlatMapMember<T, U>(xs: seq<T>, f: T -> seq<U>, x: T, y: U)
    requires x in xs && y in f(x)
    ensures y in FlatMap(xs, f)
    decreases |xs|
  {
    if xs[0] != x {
      FlatMapMember(xs[1..], f, x, y);
    }
  }

  /** The two halves of a repetition-free concatenation repeat nothing and share nothing. */
  lemma DistinctSplit<T>(a: seq<T>, b: seq<T>)
    requires Distinct(a + b)
    ensures Distinct(a) && Distinct(b) && forall x :: x in a ==> x !in b
  {
    DistinctConcat(a, b);
  }

  /** Old ids below `lo` that repeat nothing, merged with the fresh ids `lo .. hi - 1`,
      repeat nothing and stay below `hi`. */
  lemma DistinctFreshMerge(a: seq<nat>, b: seq<nat>, c: seq<nat>, d: seq<nat>, lo: nat, hi: nat)
    requires Distinct(a + c) && forall x :: x in a + c ==> x < lo
    requires lo <= hi && b + d == Range(lo, hi - lo)
    ensures Distinct(a + b + c + d)
    ensures forall x :: x in a + b + c + d ==> x < hi
  {
    RangeDistinct(lo, hi - lo);
    RangeMembers(lo, hi - lo);
    DistinctMerge(a, b, c, d, lo);
    assert forall x :: x in a + b + c + d ==> x in a + c || x in b + d;
  }

  /** Interleaving two repetition-free groups that lie on either side of `n` repeats nothing. */
  lemma DistinctMerge(a: seq<nat>, b: seq<nat>, c: seq<nat>, d: seq<nat>, n: nat)
    requires Distinct(a + c) && Distinct(b + d)
    requires forall x :: x in a + c ==> x < n
    requires forall x :: x in b + d ==> n <= x
    ensures Distinct(a + b + c + d)
  {
    DistinctConcat(a, c);
    DistinctConcat(b, d);
    assert forall x :: x in a ==> x in a + c;
    assert forall x :: x in c ==> x in a + c;
    assert forall x :: x in b ==> x in b + d;
    assert forall x :: x in d ==> x in b + d;
    DistinctConcat(a, b);
    DistinctConcat(c, d);
    assert Distinct(a + b) && Distinct(c + d);
    forall x | x in a + b ensures x !in c + d {
      if x in a {
        assert x in a + c;
        assert x !in c;
        assert forall y :: y in d ==> y in b + d;
      } else {
        assert x in b + d;
        assert x !in d;
        assert forall y :: y in c ==> y in a + c;
      }
    }
    DistinctConcat(a + b, c + d);
    assert a + b + c + d == (a + b) + (c + d);
  }
}

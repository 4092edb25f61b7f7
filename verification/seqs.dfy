/** Sequence utilities shared by the list views: order-preserving filtering,
    counting, summing, the first `n` elements, and a stable sort by a key. */
module Seqs {

  /** `a` is `b` with some elements left out, the rest in their order. */
  predicate IsSubseq<T(==)>(a: seq<T>, b: seq<T>)
    decreases |b|
  {
    a == [] ||
    (b != [] && ((a[0] == b[0] && IsSubseq(a[1..], b[1..])) || IsSubseq(a, b[1..])))
  }

  /** Dropping the first element of a subsequence keeps it a subsequence. */
  lemma {:induction false} SubseqTail<T>(a: seq<T>, b: seq<T>)
    requires a != [] && IsSubseq(a, b)
    ensures IsSubseq(a[1..], b)
    decreases |b|
  {
    if a[0] == b[0] && IsSubseq(a[1..], b[1..]) {
      SubseqSkip(a[1..], b);
    } else {
      SubseqTail(a, b[1..]);
      SubseqSkip(a[1..], b);
    }
  }

  /** A subsequence of the tail is a subsequence of the whole. */
  lemma SubseqSkip<T>(a: seq<T>, b: seq<T>)
    requires b != [] && IsSubseq(a, b[1..])
    ensures IsSubseq(a, b)
  {
  }

  /** Every element of a subsequence is an element of the sequence. */
  lemma {:induction false} SubseqMembers<T>(a: seq<T>, b: seq<T>)
    requires IsSubseq(a, b)
    ensures forall x :: x in a ==> x in b
    decreases |b|
  {
    if a != [] {
      if a[0] == b[0] && IsSubseq(a[1..], b[1..]) {
        SubseqMembers(a[1..], b[1..]);
        assert forall x :: x in a ==> x == a[0] || x in a[1..];
      } else {
        SubseqMembers(a, b[1..]);
      }
    }
  }

  /** `s.filter(p)`: the elements satisfying `p`, in their order. */
  function Filter<T>(p: T -> bool, s: seq<T>): (r: seq<T>)
    ensures |r| <= |s|
    ensures forall i :: 0 <= i < |r| ==> r[i] in s && p(r[i])
    ensures forall i :: 0 <= i < |s| && p(s[i]) ==> s[i] in r
  {
    if s == [] then []
    else
      var rest := Filter(p, s[1..]);
      assert forall i :: 1 <= i < |s| ==> s[i] == s[1..][i - 1];
      if p(s[0]) then [s[0]] + rest else rest
  }

  /** The filter keeps the order of the elements it keeps. */
  lemma {:induction false} FilterIsSubseq<T>(p: T -> bool, s: seq<T>)
    ensures IsSubseq(Filter(p, s), s)
  {
    if s != [] {
      FilterIsSubseq(p, s[1..]);
      var rest := Filter(p, s[1..]);
      if p(s[0]) {
        assert Filter(p, s)[1..] == rest;
      } else {
        SubseqSkip(rest, s);
      }
    }
  }

  /** A filter that rejects nothing returns its input. */
  lemma {:induction false} FilterAll<T>(p: T -> bool, s: seq<T>)
    requires forall i :: 0 <= i < |s| ==> p(s[i])
    ensures Filter(p, s) == s
  {
    if s != [] {
      FilterAll(p, s[1..]);
      assert [s[0]] + s[1..] == s;
    }
  }

  /** Filtering twice by the same predicate is filtering once. */
  lemma FilterIdempotent<T>(p: T -> bool, s: seq<T>)
    ensures Filter(p, Filter(p, s)) == Filter(p, s)
  {
    var r := Filter(p, s);
    assert forall i :: 0 <= i < |r| ==> r[i] in r;
    FilterAll(p, r);
  }

  /** Filtering distributes over concatenation. */
  lemma {:induction false} FilterAppend<T>(p: T -> bool, a: seq<T>, b: seq<T>)
    ensures Filter(p, a + b) == Filter(p, a) + Filter(p, b)
  {
    if a != [] {
      var c := a + b;
      assert c[0] == a[0] && c[1..] == a[1..] + b;
      var head := if p(a[0]) then [a[0]] else [];
      assert Filter(p, c) == head + Filter(p, a[1..] + b);
      assert Filter(p, a) == head + Filter(p, a[1..]);
      FilterAppend(p, a[1..], b);
    } else {
      assert a + b == b;
    }
  }

  /** Filters by equivalent predicates agree. */
  lemma {:induction false} FilterExt<T>(p: T -> bool, q: T -> bool, s: seq<T>)
    requires forall x :: p(x) <==> q(x)
    ensures Filter(p, s) == Filter(q, s)
  {
    if s != [] {
      FilterExt(p, q, s[1..]);
    }
  }

  /** A filter by a conjunction is the filter by one conjunct applied to
      the filter by the other. */
  lemma {:induction false} FilterConj<T>(p: T -> bool, q: T -> bool, r: T -> bool, s: seq<T>)
    requires forall x :: r(x) <==> p(x) && q(x)
    ensures Filter(r, s) == Filter(q, Filter(p, s))
  {
    if s != [] {
      FilterConj(p, q, r, s[1..]);
      if p(s[0]) {
        assert Filter(p, s) == [s[0]] + Filter(p, s[1..]);
        assert Filter(p, s)[1..] == Filter(p, s[1..]);
      }
    }
  }

  /** Splitting a filter's result by `q` and by its negation loses
      nothing and counts nothing twice. */
  lemma {:induction false} FilterSplit<T>(q: T -> bool, nq: T -> bool, s: seq<T>)
    requires forall x :: nq(x) <==> !q(x)
    ensures |Filter(q, s)| + |Filter(nq, s)| == |s|
  {
    if s != [] {
      FilterSplit(q, nq, s[1..]);
    }
  }

  /** The number of elements satisfying `p`. */
  function Count<T>(p: T -> bool, s: seq<T>): (n: nat)
    ensures n <= |s|
  {
    if s == [] then 0 else (if p(s[0]) then 1 else 0) + Count(p, s[1..])
  }

  /** Counting is the length of the filter. */
  lemma {:induction false} CountIsFilterLength<T>(p: T -> bool, s: seq<T>)
    ensures Count(p, s) == |Filter(p, s)|
  {
    if s != [] {
      CountIsFilterLength(p, s[1..]);
    }
  }

  /** Keys are pairwise distinct. */
  predicate Distinct<T, K(==)>(key: T -> K, s: seq<T>) {
    forall i, j :: 0 <= i < j < |s| ==> key(s[i]) != key(s[j])
  }

  /** Filtering keeps distinct keys distinct. */
  lemma {:induction false} FilterKeepsDistinct<T, K>(key: T -> K, p: T -> bool, s: seq<T>)
    requires Distinct(key, s)
    ensures Distinct(key, Filter(p, s))
  {
    if s != [] {
      assert Distinct(key, s[1..]) by {
        forall i, j | 0 <= i < j < |s| - 1
          ensures key(s[1..][i]) != key(s[1..][j])
        {
          assert s[1..][i] == s[i + 1] && s[1..][j] == s[j + 1];
        }
      }
      FilterKeepsDistinct(key, p, s[1..]);
      var rest := Filter(p, s[1..]);
      if p(s[0]) {
        var r := [s[0]] + rest;
        forall i, j | 0 <= i < j < |r|
          ensures key(r[i]) != key(r[j])
        {
          if i == 0 {
            assert r[j] == rest[j - 1] && r[j] in s[1..];
            var k :| 0 <= k < |s[1..]| && s[1..][k] == r[j];
            assert s[k + 1] == r[j];
          } else {
            assert r[i] == rest[i - 1] && r[j] == rest[j - 1];
          }
        }
      }
    }
  }

  /** The first `n` elements, or all of them if there are fewer: `slice(0, n)`. */
  function Take<T>(s: seq<T>, n: nat): (r: seq<T>)
    ensures |r| <= n && |r| <= |s|
    ensures |r| == if |s| < n then |s| else n
    ensures r == s[..|r|]
  {
    if |s| <= n then s else s[..n]
  }

  /** The sum of `f` over the elements, added left to right as
      `reduce((t, x) => t + f(x), 0)` does. */
  function Sum<T>(f: T -> real, s: seq<T>): real {
    if s == [] then 0.0 else Sum(f, s[..|s| - 1]) + f(s[|s| - 1])
  }

  /** Summing distributes over concatenation. */
  lemma {:induction false} SumAppend<T>(f: T -> real, a: seq<T>, b: seq<T>)
    ensures Sum(f, a + b) == Sum(f, a) + Sum(f, b)
    decreases |b|
  {
    if b == [] {
      assert a + b == a;
    } else {
      var c := a + b;
      assert c[..|c| - 1] == a + b[..|b| - 1];
      assert c[|c| - 1] == b[|b| - 1];
      SumAppend(f, a, b[..|b| - 1]);
    }
  }

  /** A sum of non-negative terms is non-negative. */
  lemma {:induction false} SumNonNegative<T>(f: T -> real, s: seq<T>)
    requires forall i :: 0 <= i < |s| ==> f(s[i]) >= 0.0
    ensures Sum(f, s) >= 0.0
  {
    if s != [] {
      SumNonNegative(f, s[..|s| - 1]);
    }
  }

  /** Terms outside the filter contribute nothing when they are zero. */
  lemma {:induction false} SumFilterZero<T>(f: T -> real, p: T -> bool, s: seq<T>)
    requires forall i :: 0 <= i < |s| && !p(s[i]) ==> f(s[i]) == 0.0
    ensures Sum(f, Filter(p, s)) == Sum(f, s)
  {
    if s != [] {
      SumFilterZero(f, p, s[1..]);
      assert s == [s[0]] + s[1..];
      SumAppend(f, [s[0]], s[1..]);
      if p(s[0]) {
        SumAppend(f, [s[0]], Filter(p, s[1..]));
      }
      assert Sum(f, [s[0]]) == f(s[0]) by {
        assert [s[0]][..0] == [];
      }
    }
  }
}

/** Stable sorting by a numeric key, the way `Array.prototype.sort` orders
    items under a comparator of the form `key(a) - key(b)`: ascending by
    key, with items of equal key kept in their original order. */
module Sorting {
  import opened Seqs

  /** Ascending by `key`. */
  predicate Sorted<T>(key: T -> real, s: seq<T>) {
    forall i, j :: 0 <= i < j < |s| ==> key(s[i]) <= key(s[j])
  }

  /** Places `x` into the sorted `t`, after every item whose key is not
      greater than its own. */
  function Insert<T>(key: T -> real, x: T, t: seq<T>): (r: seq<T>)
    ensures |r| == |t| + 1
  {
    if t == [] then [x]
    else if key(t[|t| - 1]) <= key(x) then t + [x]
    else Insert(key, x, t[..|t| - 1]) + [t[|t| - 1]]
  }

  /** The sorted arrangement of `s`. */
  function Sort<T>(key: T -> real, s: seq<T>): (r: seq<T>)
    ensures |r| == |s|
  {
    if s == [] then []
    else Insert(key, s[|s| - 1], Sort(key, s[..|s| - 1]))
  }

  /** Insertion adds `x` and loses nothing. */
  lemma {:induction false} InsertPermutes<T>(key: T -> real, x: T, t: seq<T>)
    ensures multiset(Insert(key, x, t)) == multiset(t) + multiset{x}
  {
    if t != [] && key(x) < key(t[|t| - 1]) {
      var front := t[..|t| - 1];
      assert t == front + [t[|t| - 1]];
      InsertPermutes(key, x, front);
    }
  }

  /** Sorting rearranges: the result has the same items, each as often. */
  lemma {:induction false} SortPermutes<T>(key: T -> real, s: seq<T>)
    ensures multiset(Sort(key, s)) == multiset(s)
  {
    if s != [] {
      var front := s[..|s| - 1];
      assert s == front + [s[|s| - 1]];
      SortPermutes(key, front);
      InsertPermutes(key, s[|s| - 1], Sort(key, front));
    }
  }

  /** The last item of an insertion is the larger of `x` and `t`'s last. */
  lemma {:induction false} InsertLast<T>(key: T -> real, x: T, t: seq<T>)
    ensures var r := Insert(key, x, t);
      r[|r| - 1] == (if t != [] && key(x) < key(t[|t| - 1]) then t[|t| - 1] else x)
  {
  }

  /** Inserting into a sorted sequence keeps it sorted. */
  lemma {:induction false} InsertSorted<T>(key: T -> real, x: T, t: seq<T>)
    requires Sorted(key, t)
    ensures Sorted(key, Insert(key, x, t))
  {
    if t == [] {
    } else if key(t[|t| - 1]) <= key(x) {
      var r := t + [x];
      forall i, j | 0 <= i < j < |r| ensures key(r[i]) <= key(r[j]) {
        if j == |t| && i < |t| - 1 {
          assert key(t[i]) <= key(t[|t| - 1]);
        }
      }
    } else {
      var front := t[..|t| - 1];
      var last := t[|t| - 1];
      InsertSorted(key, x, front);
      var ins := Insert(key, x, front);
      InsertLast(key, x, front);
      var r := ins + [last];
      assert key(ins[|ins| - 1]) <= key(last) by {
        if front != [] && key(x) < key(front[|front| - 1]) {
          assert key(t[|t| - 2]) <= key(t[|t| - 1]);
        }
      }
      forall i, j | 0 <= i < j < |r| ensures key(r[i]) <= key(r[j]) {
        if j == |ins| && i < |ins| - 1 {
          assert key(ins[i]) <= key(ins[|ins| - 1]);
        }
      }
    }
  }

  /** The result is sorted. */
  lemma {:induction false} SortSorted<T>(key: T -> real, s: seq<T>)
    ensures Sorted(key, Sort(key, s))
  {
    if s != [] {
      SortSorted(key, s[..|s| - 1]);
      InsertSorted(key, s[|s| - 1], Sort(key, s[..|s| - 1]));
    }
  }

  /** An already sorted sequence comes back unchanged; in particular a
      comparator that always answers 0 (every key equal) keeps the order. */
  lemma {:induction false} SortOfSorted<T>(key: T -> real, s: seq<T>)
    requires Sorted(key, s)
    ensures Sort(key, s) == s
  {
    if s != [] {
      var front := s[..|s| - 1];
      assert Sorted(key, front);
      SortOfSorted(key, front);
      if front != [] {
        assert key(front[|front| - 1]) <= key(s[|s| - 1]);
      }
      assert front + [s[|s| - 1]] == s;
    }
  }

  /** With a constant key the order is kept. */
  lemma ConstantKeyKeepsOrder<T>(key: T -> real, s: seq<T>)
    requires forall i :: 0 <= i < |s| ==> key(s[i]) == key(s[0])
    ensures Sort(key, s) == s
  {
    SortOfSorted(key, s);
  }

  /** Membership is kept: every item of `s` is in the result and the other
      way round. */
  lemma SortSameMembers<T>(key: T -> real, s: seq<T>, x: T)
    ensures x in Sort(key, s) <==> x in s
  {
    SortPermutes(key, s);
    assert x in Sort(key, s) <==> x in multiset(Sort(key, s));
  }

  /** Filtering a one-item sequence. */
  lemma FilterOne<T>(p: T -> bool, x: T)
    ensures Filter(p, [x]) == if p(x) then [x] else []
  {
    assert [x][1..] == [];
  }

  /** Keeping only the items of one key class `p` (the items whose key is
      `k`) after an insertion: `x` joins that class at its end. */
  lemma {:induction false} InsertKeepsClassOrder<T>(key: T -> real, p: T -> bool, k: real, x: T, t: seq<T>)
    requires Sorted(key, t)
    requires forall y :: p(y) <==> key(y) == k
    ensures Filter(p, Insert(key, x, t)) == if p(x) then Filter(p, t) + [x] else Filter(p, t)
  {
    FilterOne(p, x);
    if t == [] {
      assert Insert(key, x, t) == [x];
    } else if key(t[|t| - 1]) <= key(x) {
      assert Insert(key, x, t) == t + [x];
      FilterAppend(p, t, [x]);
    } else {
      var front := t[..|t| - 1];
      var last := t[|t| - 1];
      assert t == front + [last];
      assert Insert(key, x, t) == Insert(key, x, front) + [last];
      assert Sorted(key, front);
      InsertKeepsClassOrder(key, p, k, x, front);
      ClassAfterLast(p, x, front, last, Insert(key, x, front));
    }
  }

  /** Appending an item outside `x`'s class after an insertion whose class
      filter ends with `x` keeps `x` at the end of its class. */
  lemma {:induction false} ClassAfterLast<T>(p: T -> bool, x: T, front: seq<T>, last: T, ins: seq<T>)
    requires Filter(p, ins) == if p(x) then Filter(p, front) + [x] else Filter(p, front)
    requires p(x) ==> !p(last)
    ensures Filter(p, ins + [last]) == if p(x) then Filter(p, front + [last]) + [x] else Filter(p, front + [last])
  {
    FilterAppend(p, ins, [last]);
    FilterAppend(p, front, [last]);
    FilterOne(p, last);
    if p(x) {
      assert Filter(p, [last]) == [];
      assert Filter(p, front) + [x] + [] == Filter(p, front) + [] + [x];
    }
  }

  /** Stability: the items of any one key, taken on their own, appear in
      the result in the order they had in `s`. */
  lemma {:induction false} SortIsStable<T>(key: T -> real, p: T -> bool, k: real, s: seq<T>)
    requires forall y :: p(y) <==> key(y) == k
    ensures Filter(p, Sort(key, s)) == Filter(p, s)
  {
    if s != [] {
      var front := s[..|s| - 1];
      var last := s[|s| - 1];
      assert s == front + [last];
      SortIsStable(key, p, k, front);
      SortSorted(key, front);
      InsertKeepsClassOrder(key, p, k, last, Sort(key, front));
      FilterAppend(p, front, [last]);
      FilterOne(p, last);
    }
  }

  /** The first `n` of the sorted sequence are the `n` smallest keys:
      an item of `s` left out of them has a key no smaller than any item
      kept. */
  lemma TopIsMinimal<T>(key: T -> real, s: seq<T>, n: nat, x: T)
    requires x in s && x !in Take(Sort(key, s), n)
    ensures forall i :: 0 <= i < |Take(Sort(key, s), n)| ==> key(Take(Sort(key, s), n)[i]) <= key(x)
  {
    var sorted := Sort(key, s);
    var top := Take(sorted, n);
    SortSameMembers(key, s, x);
    SortSorted(key, s);
    var j :| 0 <= j < |sorted| && sorted[j] == x;
    assert j >= |top|;
    forall i | 0 <= i < |top| ensures key(top[i]) <= key(x) {
      assert top[i] == sorted[i];
    }
  }
}

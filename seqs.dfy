/** Sequence helpers shared by the catalogue lookups: an order-preserving
    filter (the model of JavaScript's `Array.prototype.filter`) and the
    subsequence relation it lives in. */
module Seqs {

  /** `SubsequenceOf(a, b)`: the elements of `a` occur in `b` in the same order,
      possibly with other elements between them. */
  predicate SubsequenceOf<T(==)>(a: seq<T>, b: seq<T>)
    decreases |b|
  {
    if a == [] then true
    else if b == [] then false
    else if a[0] == b[0] then SubsequenceOf(a[1..], b[1..])
    else SubsequenceOf(a, b[1..])
  }

  /** The elements of `s` that satisfy `p`, in their original order. */
  function Filter<T(!new)>(s: seq<T>, p: T -> bool): (r: seq<T>)
    ensures |r| <= |s|
    ensures forall i :: 0 <= i < |r| ==> p(r[i])
  {
    if s == [] then []
    else if p(s[0]) then [s[0]] + Filter(s[1..], p)
    else Filter(s[1..], p)
  }

  /** The filter keeps exactly the elements that satisfy `p`. */
  lemma {:induction false} FilterMembers<T(!new)>(s: seq<T>, p: T -> bool)
    ensures forall x :: x in Filter(s, p) <==> x in s && p(x)
  {
    if s != [] {
      FilterMembers(s[1..], p);
      assert forall x :: x in s <==> x == s[0] || x in s[1..];
    }
  }

  /** The filter keeps every selected element as often as it occurs in `s`,
      and no other element. */
  lemma {:induction false} FilterMultiset<T(!new)>(s: seq<T>, p: T -> bool)
    ensures forall x :: multiset(Filter(s, p))[x] == if p(x) then multiset(s)[x] else 0
  {
    if s != [] {
      FilterMultiset(s[1..], p);
      assert s == [s[0]] + s[1..];
      assert multiset(s) == multiset{s[0]} + multiset(s[1..]);
    }
  }

  /** The filter keeps the catalogue order. */
  lemma {:induction false} FilterIsSubsequence<T(!new)>(s: seq<T>, p: T -> bool)
    ensures SubsequenceOf(Filter(s, p), s)
  {
    if s != [] {
      FilterIsSubsequence(s[1..], p);
      if !p(s[0]) {
        SubsequenceOfCons(Filter(s[1..], p), s[0], s[1..]);
      }
    }
  }

  /** Skipping a head element of the longer sequence keeps a subsequence. */
  lemma {:induction false} SubsequenceOfCons<T>(a: seq<T>, x: T, b: seq<T>)
    requires SubsequenceOf(a, b)
    ensures SubsequenceOf(a, [x] + b)
    decreases |b|, 1
  {
    assert ([x] + b)[1..] == b;
    if a != [] && a[0] == x {
      SubsequenceOfDrop(a, b);
    }
  }

  /** Dropping the first element of a non-empty subsequence keeps a subsequence. */
  lemma {:induction false} SubsequenceOfDrop<T>(a: seq<T>, b: seq<T>)
    requires a != [] && SubsequenceOf(a, b)
    ensures SubsequenceOf(a[1..], b)
    decreases |b|, 0
  {
    assert b != [];
    assert [b[0]] + b[1..] == b;
    if a[0] == b[0] {
      SubsequenceOfCons(a[1..], b[0], b[1..]);
    } else {
      SubsequenceOfDrop(a, b[1..]);
      SubsequenceOfCons(a[1..], b[0], b[1..]);
    }
  }

  /** Two predicates that agree on every element of `s` select the same
      elements in the same order. */
  lemma {:induction false} FilterExtensional<T(!new)>(s: seq<T>, p: T -> bool, q: T -> bool)
    requires forall i :: 0 <= i < |s| ==> p(s[i]) == q(s[i])
    ensures Filter(s, p) == Filter(s, q)
  {
    if s != [] {
      assert p(s[0]) == q(s[0]);
      FilterExtensional(s[1..], p, q);
    }
  }

  /** A predicate that holds of no element selects nothing. */
  lemma {:induction false} FilterNone<T(!new)>(s: seq<T>, p: T -> bool)
    requires forall i :: 0 <= i < |s| ==> !p(s[i])
    ensures Filter(s, p) == []
  {
    if s != [] {
      assert !p(s[0]);
      FilterNone(s[1..], p);
    }
  }

  /** A predicate that holds of every element selects the whole sequence. */
  lemma {:induction false} FilterAll<T(!new)>(s: seq<T>, p: T -> bool)
    requires forall i :: 0 <= i < |s| ==> p(s[i])
    ensures Filter(s, p) == s
  {
    if s != [] {
      assert p(s[0]);
      FilterAll(s[1..], p);
      assert [s[0]] + s[1..] == s;
    }
  }

  /** Filtering a concatenation filters each part. */
  lemma {:induction false} FilterAppend<T(!new)>(a: seq<T>, b: seq<T>, p: T -> bool)
    ensures Filter(a + b, p) == Filter(a, p) + Filter(b, p)
  {
    if a == [] {
      assert a + b == b;
    } else {
      assert (a + b)[0] == a[0] && (a + b)[1..] == a[1..] + b;
      FilterAppend(a[1..], b, p);
    }
  }

  /** When exactly the elements at indices `i` to `j - 1` satisfy `p`, the
      filter is that slice. */
  lemma {:induction false} FilterSlice<T(!new)>(s: seq<T>, i: nat, j: nat, p: T -> bool)
    requires i <= j <= |s|
    requires forall k :: 0 <= k < |s| ==> (p(s[k]) <==> i <= k < j)
    ensures Filter(s, p) == s[i..j]
  {
    if j == 0 {
      FilterNone(s, p);
    } else {
      assert p(s[0]) <==> i == 0;
      assert forall k :: 0 <= k < |s[1..]| ==> s[1..][k] == s[k + 1];
      if i == 0 {
        FilterSlice(s[1..], 0, j - 1, p);
        assert [s[0]] + s[1..][0..j - 1] == s[0..j];
      } else {
        FilterSlice(s[1..], i - 1, j - 1, p);
        assert s[1..][i - 1..j - 1] == s[i..j];
      }
    }
  }
}

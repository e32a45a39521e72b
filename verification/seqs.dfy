/** Order-preserving selection over sequences: the behaviour of JavaScript's
    `Array.prototype.filter`, stated once and used by every filter the hooks
    perform. */
module Seqs {

  /** `sub` can be obtained from `s` by deleting elements, keeping the order
      of those that remain. */
  predicate IsSubsequence<T(==)>(sub: seq<T>, s: seq<T>)
  {
    sub == [] ||
    (s != [] && ((sub[0] == s[0] && IsSubsequence(sub[1..], s[1..])) || IsSubsequence(sub, s[1..])))
  }

  /** `s.filter(p)`: the elements of `s` that satisfy `p`, in their order,
      each kept as often as it occurs in `s`. */
  function Filter<T>(s: seq<T>, p: T -> bool): (r: seq<T>)
    ensures |r| <= |s|
    ensures forall i :: 0 <= i < |r| ==> p(r[i])
  {
    if s == [] then []
    else if p(s[0]) then [s[0]] + Filter(s[1..], p) else Filter(s[1..], p)
  }

  /** The filtered sequence keeps the order of `s`. */
  lemma {:induction false} FilterIsSubsequence<T(!new)>(s: seq<T>, p: T -> bool)
    ensures IsSubsequence(Filter(s, p), s)
  {
    if s != [] {
      FilterIsSubsequence(s[1..], p);
      var r := Filter(s[1..], p);
      if !p(s[0]) && r != [] {
        assert IsSubsequence(r, s);
      }
    }
  }

  /** Every element satisfying `p` is kept exactly as often as it occurs in
      `s`, and no other element is kept. */
  lemma {:induction false} FilterCounts<T(!new)>(s: seq<T>, p: T -> bool, x: T)
    ensures multiset(Filter(s, p))[x] == if p(x) then multiset(s)[x] else 0
  {
    if s != [] {
      assert s == [s[0]] + s[1..];
      FilterCounts(s[1..], p, x);
    }
  }

  lemma FilterCountsAll<T(!new)>(s: seq<T>, p: T -> bool)
    ensures forall x :: multiset(Filter(s, p))[x] == if p(x) then multiset(s)[x] else 0
  {
    forall x {
      FilterCounts(s, p, x);
    }
  }

  /** Membership in a filtered sequence. */
  lemma {:induction false} FilterMembers<T(!new)>(s: seq<T>, p: T -> bool, x: T)
    ensures x in Filter(s, p) <==> x in s && p(x)
  {
    FilterCounts(s, p, x);
    assert x in Filter(s, p) <==> multiset(Filter(s, p))[x] > 0;
    assert x in s <==> multiset(s)[x] > 0;
  }

  /** Filtering a concatenation filters each part. */
  lemma {:induction false} FilterAppend<T(!new)>(a: seq<T>, b: seq<T>, p: T -> bool)
    ensures Filter(a + b, p) == Filter(a, p) + Filter(b, p)
  {
    if a == [] {
      assert a + b == b;
    } else {
      assert (a + b)[0] == a[0];
      assert (a + b)[1..] == a[1..] + b;
      FilterAppend(a[1..], b, p);
      if p(a[0]) {
        calc {
          Filter(a + b, p);
          [a[0]] + Filter(a[1..] + b, p);
          [a[0]] + (Filter(a[1..], p) + Filter(b, p));
          ([a[0]] + Filter(a[1..], p)) + Filter(b, p);
        }
      }
    }
  }

  /** Removing an element that the predicate rejects does not change the result. */
  lemma {:induction false} DropRejected<T(!new)>(s: seq<T>, j: int, p: T -> bool)
    requires 0 <= j < |s| && !p(s[j])
    ensures Filter(s[..j] + s[j + 1..], p) == Filter(s, p)
  {
    var t := s[..j] + s[j + 1..];
    if j == 0 {
      assert t == s[1..];
    } else {
      var u := s[1..];
      DropRejected(u, j - 1, p);
      assert t[0] == s[0];
      assert t[1..] == u[..j - 1] + u[j..];
    }
  }

}

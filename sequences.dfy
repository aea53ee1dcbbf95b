/** Order-preserving selection from sequences, the semantics of Array.prototype.filter. */
module Sequences {

  /** `a` can be obtained from `b` by deleting elements, so `a` keeps the order of `b`. */
  predicate IsSubsequence<T(==)>(a: seq<T>, b: seq<T>)
    decreases |b|
  {
    if b == [] then a == []
    else (a != [] && a[0] == b[0] && IsSubsequence(a[1..], b[1..])) || IsSubsequence(a, b[1..])
  }

  /** The elements of `s` that satisfy `keep`, in their order in `s`. */
  function Filter<T(==,!new)>(s: seq<T>, keep: T -> bool): (r: seq<T>)
    ensures |r| <= |s|
    ensures forall x :: x in r <==> x in s && keep(x)
    ensures IsSubsequence(r, s)
  {
    if s == [] then []
    else
      assert s == [s[0]] + s[1..];
      if keep(s[0]) then [s[0]] + Filter(s[1..], keep) else Filter(s[1..], keep)
  }

  /** Filtering keeps every occurrence of a kept value and none of a dropped one. */
  lemma {:induction false} FilterMultiplicity<T(!new)>(s: seq<T>, keep: T -> bool, x: T)
    ensures multiset(Filter(s, keep))[x] == if keep(x) then multiset(s)[x] else 0
  {
    if s != [] {
      FilterMultiplicity(s[1..], keep, x);
      assert s == [s[0]] + s[1..];
    }
  }

  /** Putting more elements in front of `c` keeps `a` a subsequence of it. */
  lemma {:induction false} SubsequenceOfLonger<T>(a: seq<T>, b: seq<T>, c: seq<T>)
    requires IsSubsequence(a, c)
    ensures IsSubsequence(a, b + c)
  {
    if b == [] {
      assert b + c == c;
    } else {
      SubsequenceOfLonger(a, b[1..], c);
      assert (b + c)[1..] == b[1..] + c;
    }
  }

  lemma {:induction false} FilterConcat<T(!new)>(a: seq<T>, b: seq<T>, keep: T -> bool)
    ensures Filter(a + b, keep) == Filter(a, keep) + Filter(b, keep)
  {
    if a == [] {
      assert a + b == b;
    } else {
      var ab := a + b;
      assert ab[0] == a[0] && ab[1..] == a[1..] + b;
      FilterConcat(a[1..], b, keep);
      if keep(a[0]) {
        calc {
          Filter(ab, keep);
          [a[0]] + Filter(a[1..] + b, keep);
          [a[0]] + (Filter(a[1..], keep) + Filter(b, keep));
          ([a[0]] + Filter(a[1..], keep)) + Filter(b, keep);
        }
      }
    }
  }

  /** Filtering with the same test keeps the subsequence relation. */
  lemma {:induction false} FilterKeepsSubsequence<T(!new)>(a: seq<T>, b: seq<T>, keep: T -> bool)
    requires IsSubsequence(a, b)
    ensures IsSubsequence(Filter(a, keep), Filter(b, keep))
    decreases |b|
  {
    if b == [] {
    } else if a != [] && a[0] == b[0] && IsSubsequence(a[1..], b[1..]) {
      FilterKeepsSubsequence(a[1..], b[1..], keep);
      assert a == [a[0]] + a[1..];
      if keep(a[0]) {
        var fa, fb := Filter(a, keep), Filter(b, keep);
        assert fa[0] == fb[0] && fa[1..] == Filter(a[1..], keep) && fb[1..] == Filter(b[1..], keep);
      }
    } else {
      FilterKeepsSubsequence(a, b[1..], keep);
    }
  }

  /** Filtering with a weaker test keeps at least the same elements, in the same order. */
  lemma {:induction false} FilterWeaker<T(!new)>(s: seq<T>, strong: T -> bool, weak: T -> bool)
    requires forall x :: x in s && strong(x) ==> weak(x)
    ensures IsSubsequence(Filter(s, strong), Filter(s, weak))
  {
    if s == [] {
    } else {
      FilterWeaker(s[1..], strong, weak);
      var fs, fw := Filter(s, strong), Filter(s, weak);
      if strong(s[0]) {
        assert fs[0] == fw[0] && fs[1..] == Filter(s[1..], strong) && fw[1..] == Filter(s[1..], weak);
      } else if weak(s[0]) {
        assert fw[1..] == Filter(s[1..], weak);
      }
    }
  }
}

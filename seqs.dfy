/** The two array operations the component uses on its list: `filter` (keep
    the elements a predicate accepts, in order) and `map` (transform every
    element in place), with the notion of an order-preserving subsequence. */
module Seqs {

  /** `sub` is `s` with some elements dropped and the rest kept in order. */
  predicate IsSubsequence<T(==)>(sub: seq<T>, s: seq<T>)
    decreases |s|
  {
    if sub == [] then true
    else if s == [] then false
    else (sub[0] == s[0] && IsSubsequence(sub[1..], s[1..])) || IsSubsequence(sub, s[1..])
  }

  /** `s.filter(keep)`. */
  function FilterBy<T>(s: seq<T>, keep: T -> bool): (r: seq<T>)
    ensures |r| <= |s|
    ensures forall i :: 0 <= i < |r| ==> keep(r[i])
  {
    if s == [] then [] else (if keep(s[0]) then [s[0]] else []) + FilterBy(s[1..], keep)
  }

  /** `s.map(f)`. */
  function MapSeq<A, B>(s: seq<A>, f: A -> B): (r: seq<B>)
    ensures |r| == |s|
    ensures forall i :: 0 <= i < |s| ==> r[i] == f(s[i])
  {
    if s == [] then [] else [f(s[0])] + MapSeq(s[1..], f)
  }

  /** Dropping the first element of the longer sequence keeps a subsequence. */
  lemma SubsequenceOfTail<T>(sub: seq<T>, s: seq<T>)
    requires s != [] && IsSubsequence(sub, s[1..])
    ensures IsSubsequence(sub, s)
  {
  }

  /** The filter keeps its survivors in their original relative order. */
  lemma {:induction false} FilterBySubsequence<T>(s: seq<T>, keep: T -> bool)
    ensures IsSubsequence(FilterBy(s, keep), s)
  {
    if s != [] {
      FilterBySubsequence(s[1..], keep);
      var rest := FilterBy(s[1..], keep);
      if keep(s[0]) {
        assert FilterBy(s, keep) == [s[0]] + rest;
        assert ([s[0]] + rest)[1..] == rest;
      } else {
        assert FilterBy(s, keep) == rest;
        SubsequenceOfTail(rest, s);
      }
    }
  }

  /** The filter keeps every occurrence of an accepted value and none of a
      rejected one: together with FilterBySubsequence this determines it. */
  lemma {:induction false} FilterByCount<T>(s: seq<T>, keep: T -> bool, x: T)
    ensures multiset(FilterBy(s, keep))[x] == if keep(x) then multiset(s)[x] else 0
  {
    if s != [] {
      FilterByCount(s[1..], keep, x);
      assert s == [s[0]] + s[1..];
      var rest := FilterBy(s[1..], keep);
      assert FilterBy(s, keep) == (if keep(s[0]) then [s[0]] else []) + rest;
    }
  }

  /** An element is in the filtered sequence exactly when it is in the input
      and the predicate accepts it. */
  lemma FilterByMember<T>(s: seq<T>, keep: T -> bool, x: T)
    ensures x in FilterBy(s, keep) <==> x in s && keep(x)
  {
    FilterByCount(s, keep, x);
  }

  /** A filter that accepts every element returns the input unchanged. */
  lemma {:induction false} FilterByKeepsAll<T>(s: seq<T>, keep: T -> bool)
    requires forall i :: 0 <= i < |s| ==> keep(s[i])
    ensures FilterBy(s, keep) == s
  {
    if s != [] {
      FilterByKeepsAll(s[1..], keep);
      assert s == [s[0]] + s[1..];
    }
  }

  /** Filtering with a stronger predicate selects a subsequence of what the
      weaker one selects. */
  lemma {:induction false} FilterByNarrower<T>(s: seq<T>, strong: T -> bool, weak: T -> bool)
    requires forall x :: strong(x) ==> weak(x)
    ensures IsSubsequence(FilterBy(s, strong), FilterBy(s, weak))
  {
    if s != [] {
      FilterByNarrower(s[1..], strong, weak);
      var a, b := FilterBy(s[1..], strong), FilterBy(s[1..], weak);
      if strong(s[0]) {
        assert FilterBy(s, strong) == [s[0]] + a;
        assert FilterBy(s, weak) == [s[0]] + b;
        assert ([s[0]] + a)[1..] == a;
        assert ([s[0]] + b)[1..] == b;
      } else if weak(s[0]) {
        assert FilterBy(s, strong) == a;
        assert FilterBy(s, weak) == [s[0]] + b;
        assert ([s[0]] + b)[1..] == b;
        SubsequenceOfTail(a, [s[0]] + b);
      } else {
        assert FilterBy(s, strong) == a;
        assert FilterBy(s, weak) == b;
      }
    }
  }

  /** Two predicates that agree on every element filter alike. */
  lemma {:induction false} FilterBySamePredicate<T>(s: seq<T>, p: T -> bool, q: T -> bool)
    requires forall x :: p(x) == q(x)
    ensures FilterBy(s, p) == FilterBy(s, q)
  {
    if s != [] {
      FilterBySamePredicate(s[1..], p, q);
    }
  }
}

/** Order-preserving list building blocks shared by the pipeline's loops:
    keeping the elements that pass a test, and concatenating per-element lists.
    Both are defined on the prefix, the way the loops that compute them grow. */
module Seqs {

  /** The elements of `s` that pass `keep`, in their order. */
  function Filter<T>(s: seq<T>, keep: T -> bool): (r: seq<T>)
    ensures |r| <= |s|
  {
    if s == [] then [] else
      var last := s[|s| - 1];
      Filter(s[..|s| - 1], keep) + (if keep(last) then [last] else [])
  }

  /** `xs` is `ys` with some elements left out and the others in their order:
      `idx` gives, for each element of `xs`, its position in `ys`, strictly increasing. */
  ghost predicate SubsequenceBy<T>(xs: seq<T>, ys: seq<T>, idx: seq<int>) {
    && |idx| == |xs|
    && (forall k :: 0 <= k < |idx| ==> 0 <= idx[k] < |ys| && xs[k] == ys[idx[k]])
    && (forall k, l :: 0 <= k < l < |idx| ==> idx[k] < idx[l])
  }

  lemma FilterStep<T>(s: seq<T>, i: int, keep: T -> bool)
    requires 0 <= i < |s|
    ensures Filter(s[..i + 1], keep) == Filter(s[..i], keep) + (if keep(s[i]) then [s[i]] else [])
  {
    assert s[..i + 1][..i] == s[..i];
  }

  lemma {:induction false} FilterMembers<T>(s: seq<T>, keep: T -> bool, x: T)
    ensures x in Filter(s, keep) <==> x in s && keep(x)
  {
    if s != [] {
      var n := |s| - 1;
      FilterMembers(s[..n], keep, x);
      assert s == s[..n] + [s[n]];
    }
  }

  lemma {:induction false} FilterIsSubsequence<T>(s: seq<T>, keep: T -> bool) returns (idx: seq<int>)
    ensures SubsequenceBy(Filter(s, keep), s, idx)
  {
    if s == [] {
      idx := [];
    } else {
      var n := |s| - 1;
      idx := FilterIsSubsequence(s[..n], keep);
      if keep(s[n]) {
        idx := idx + [n];
      }
    }
  }

  lemma {:induction false} FilterKeepsAll<T>(s: seq<T>, keep: T -> bool)
    ensures Filter(s, keep) == s <==> forall x :: x in s ==> keep(x)
  {
    if Filter(s, keep) == s {
      forall x | x in s ensures keep(x) {
        FilterMembers(s, keep, x);
      }
    }
    if s != [] && forall x :: x in s ==> keep(x) {
      var n := |s| - 1;
      assert forall x :: x in s[..n] ==> x in s;
      FilterKeepsAll(s[..n], keep);
      assert s == s[..n] + [s[n]];
    }
  }

  /** The lists `f` gives for each element of `s`, concatenated in order. */
  function FlatMap<T, U>(s: seq<T>, f: T -> seq<U>): seq<U> {
    if s == [] then [] else FlatMap(s[..|s| - 1], f) + f(s[|s| - 1])
  }

  lemma FlatMapStep<T, U>(s: seq<T>, i: int, f: T -> seq<U>)
    requires 0 <= i < |s|
    ensures FlatMap(s[..i + 1], f) == FlatMap(s[..i], f) + f(s[i])
  {
    assert s[..i + 1][..i] == s[..i];
  }

  lemma {:induction false} FlatMapMembers<T, U>(s: seq<T>, f: T -> seq<U>, y: U)
    ensures y in FlatMap(s, f) <==> exists i :: 0 <= i < |s| && y in f(s[i])
  {
    if s != [] {
      var n := |s| - 1;
      FlatMapMembers(s[..n], f, y);
      if y in FlatMap(s[..n], f) {
        var i :| 0 <= i < n && y in f(s[..n][i]);
        assert s[i] == s[..n][i];
      }
      if exists i :: 0 <= i < |s| && y in f(s[i]) {
        var i :| 0 <= i < |s| && y in f(s[i]);
        if i < n {
          assert s[..n][i] == s[i];
        }
      }
    }
  }

  lemma {:induction false} FlatMapAppend<T, U>(s: seq<T>, t: seq<T>, f: T -> seq<U>)
    ensures FlatMap(s + t, f) == FlatMap(s, f) + FlatMap(t, f)
  {
    if t == [] {
      assert s + t == s;
    } else {
      var m := |t| - 1;
      FlatMapAppend(s, t[..m], f);
      assert (s + t)[..|s + t| - 1] == s + t[..m];
      assert (s + t)[|s + t| - 1] == t[m];
      AppendAssociative(FlatMap(s, f), FlatMap(t[..m], f), f(t[m]));
    }
  }

  lemma {:induction false} FlatMapBound<T, U>(s: seq<T>, f: T -> seq<U>, bound: nat)
    requires forall x :: x in s ==> |f(x)| <= bound
    ensures |FlatMap(s, f)| <= |s| * bound
  {
    if s != [] {
      var n := |s| - 1;
      assert forall x :: x in s[..n] ==> x in s;
      FlatMapBound(s[..n], f, bound);
      assert s[n] in s;
      assert n * bound + bound == |s| * bound;
    }
  }

  lemma AppendAssociative<T>(a: seq<T>, b: seq<T>, c: seq<T>)
    ensures (a + b) + c == a + (b + c)
  {
  }
}

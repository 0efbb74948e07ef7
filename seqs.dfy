/** Sequence combinators standing for pandas boolean-mask selection
    (`df[mask]`), element-wise mapping, `dropna` and positional indices. */
module Seqs {
  import opened Wrappers

  /** The elements of `s` that satisfy `p`, in their original order. */
  function Filter<T(!new)>(p: T -> bool, s: seq<T>): (r: seq<T>)
    ensures |r| <= |s|
    ensures forall x :: x in r <==> x in s && p(x)
    decreases |s|
  {
    if s == [] then []
    else (if p(s[0]) then [s[0]] else []) + Filter(p, s[1..])
  }

  /** `f` applied to every element of `s`. */
  function Map<T, U>(f: T -> U, s: seq<T>): (r: seq<U>)
    ensures |r| == |s|
    ensures forall i :: 0 <= i < |s| ==> r[i] == f(s[i])
  {
    seq(|s|, i requires 0 <= i < |s| => f(s[i]))
  }

  /** The values `f` yields on the elements of `s`, in order, skipping the
      elements on which it yields `None`. */
  function FilterMap<T(!new), U(!new)>(f: T -> Option<U>, s: seq<T>): (r: seq<U>)
    ensures |r| <= |s|
    ensures forall y :: y in r <==> exists x :: x in s && f(x) == Some(y)
    decreases |s|
  {
    if s == [] then []
    else
      var rest := FilterMap(f, s[1..]);
      assert forall x :: x in s[1..] ==> x in s;
      assert forall x :: x in s ==> x == s[0] || x in s[1..];
      match f(s[0])
      case Some(y) => [y] + rest
      case None => rest
  }

  /** The positions `i` of `s` at which `p(s[i])` holds. */
  function Indices<T>(p: T -> bool, s: seq<T>): (r: seq<nat>)
    ensures forall k :: 0 <= k < |r| ==> r[k] < |s| && p(s[r[k]])
    ensures forall i :: 0 <= i < |s| && p(s[i]) ==> i in r
    ensures forall k, l :: 0 <= k < l < |r| ==> r[k] < r[l]
    decreases |s|
  {
    if s == [] then []
    else
      var n := |s| - 1;
      var front := Indices(p, s[..n]);
      assert forall k :: 0 <= k < |front| ==> s[..n][front[k]] == s[front[k]];
      assert forall i :: 0 <= i < n ==> s[..n][i] == s[i];
      var r := front + (if p(s[n]) then [n] else []);
      assert forall k :: 0 <= k < |front| ==> r[k] == front[k];
      assert forall k :: |front| <= k < |r| ==> r[k] == n && p(s[n]);
      r
  }

  /** The first element of `wanted` that is not in `present`. */
  function FirstMissing<T>(wanted: seq<T>, present: set<T>): (m: Option<T>)
    ensures m.None? <==> forall k :: 0 <= k < |wanted| ==> wanted[k] in present
    ensures m.Some? ==> m.value in wanted && m.value !in present
    decreases |wanted|
  {
    if wanted == [] then None
    else if wanted[0] !in present then Some(wanted[0])
    else
      var rest := FirstMissing(wanted[1..], present);
      assert forall k :: 1 <= k < |wanted| ==> wanted[k] == wanted[1..][k - 1];
      rest
  }

  /** A value `f` yields on an element is kept. */
  lemma FilterMapKeeps<T(!new), U(!new)>(f: T -> Option<U>, s: seq<T>, x: T)
    requires x in s && f(x).Some?
    ensures f(x).value in FilterMap(f, s)
  {
  }

  /** No position is listed when no element satisfies `p`. */
  lemma {:induction false} IndicesNone<T>(p: T -> bool, s: seq<T>)
    requires forall i :: 0 <= i < |s| ==> !p(s[i])
    ensures Indices(p, s) == []
    decreases |s|
  {
    if s != [] {
      IndicesNone(p, s[..|s| - 1]);
    }
  }

  /** `a` is an order-preserving subsequence of `b`. */
  ghost predicate Subsequence<T>(a: seq<T>, b: seq<T>)
    decreases |b|
  {
    a == [] ||
    (b != [] && ((a[0] == b[0] && Subsequence(a[1..], b[1..])) || Subsequence(a, b[1..])))
  }

  // ---------------------------------------------------------------------

  /** Selecting from a concatenation selects from each part, in order. */
  lemma {:induction false} FilterConcat<T(!new)>(p: T -> bool, a: seq<T>, b: seq<T>)
    ensures Filter(p, a + b) == Filter(p, a) + Filter(p, b)
    decreases |a|
  {
    if a == [] {
      assert a + b == b;
    } else {
      assert (a + b)[1..] == a[1..] + b;
      FilterConcat(p, a[1..], b);
    }
  }

  /** Selecting from a non-empty sequence selects from its front, then
      keeps or drops its last element. */
  lemma {:induction false} FilterSnoc<T(!new)>(p: T -> bool, s: seq<T>)
    requires s != []
    ensures Filter(p, s) == Filter(p, s[..|s| - 1]) + (if p(s[|s| - 1]) then [s[|s| - 1]] else [])
  {
    var n := |s| - 1;
    assert s == s[..n] + [s[n]];
    FilterConcat(p, s[..n], [s[n]]);
  }

  lemma {:induction false} FilterMapConcat<T(!new), U(!new)>(f: T -> Option<U>, a: seq<T>, b: seq<T>)
    ensures FilterMap(f, a + b) == FilterMap(f, a) + FilterMap(f, b)
    decreases |a|
  {
    if a == [] {
      assert a + b == b;
    } else {
      assert (a + b)[1..] == a[1..] + b;
      FilterMapConcat(f, a[1..], b);
    }
  }

  lemma MapConcat<T, U>(f: T -> U, a: seq<T>, b: seq<T>)
    ensures Map(f, a + b) == Map(f, a) + Map(f, b)
  {
  }

  /** Selecting never reorders: the selection is a subsequence of its source. */
  lemma {:induction false} FilterSubsequence<T(!new)>(p: T -> bool, s: seq<T>)
    ensures Subsequence(Filter(p, s), s)
    decreases |s|
  {
    if s != [] {
      FilterSubsequence(p, s[1..]);
      if p(s[0]) {
        var r := Filter(p, s);
        assert r == [s[0]] + Filter(p, s[1..]);
        assert r[0] == s[0] && r[1..] == Filter(p, s[1..]);
      } else {
        assert Filter(p, s) == [] + Filter(p, s[1..]) == Filter(p, s[1..]);
      }
    }
  }
}

/**
 * List comprehensions, loops that stop at the first exception, and the
 * order facts they keep.
 */
module Sequences {
  import opened Wrappers

  predicate Distinct<T(==)>(s: seq<T>) {
    forall i, j :: 0 <= i < j < |s| ==> s[i] != s[j]
  }

  function SetOf<T>(s: seq<T>): set<T> {
    set x | x in s
  }

  /** A sequence without repeats has as many elements as its set. */
  lemma {:induction false} DistinctCard<T>(s: seq<T>)
    requires Distinct(s)
    ensures |SetOf(s)| == |s|
  {
    if s != [] {
      var init := s[..|s| - 1];
      assert Distinct(init);
      DistinctCard(init);
      assert s == init + [s[|s| - 1]];
      assert SetOf(s) == SetOf(init) + {s[|s| - 1]};
      assert s[|s| - 1] !in SetOf(init);
    }
  }

  /** `[f(x) for x in s]`. */
  function Map<T, U>(s: seq<T>, f: T -> U): (r: seq<U>)
    ensures |r| == |s| && forall i :: 0 <= i < |s| ==> r[i] == f(s[i])
  {
    seq(|s|, i requires 0 <= i < |s| => f(s[i]))
  }

  lemma MapAppend<T, U>(a: seq<T>, b: seq<T>, f: T -> U)
    ensures Map(a + b, f) == Map(a, f) + Map(b, f)
  {
  }

  /** `[x for x in s if p(x)]`. */
  function Filter<T>(s: seq<T>, p: T -> bool): (r: seq<T>)
    ensures |r| <= |s|
    ensures forall i :: 0 <= i < |r| ==> p(r[i])
  {
    if s == [] then []
    else if p(s[|s| - 1]) then Filter(s[..|s| - 1], p) + [s[|s| - 1]]
    else Filter(s[..|s| - 1], p)
  }

  /** `a` is `b` with some elements left out, the rest in their order. */
  predicate IsSubsequence<T(==)>(a: seq<T>, b: seq<T>)
    decreases |b|
  {
    if a == [] then true
    else if b == [] then false
    else if a[|a| - 1] == b[|b| - 1] then IsSubsequence(a[..|a| - 1], b[..|b| - 1])
    else IsSubsequence(a, b[..|b| - 1])
  }

  lemma {:induction false} FilterIsSubsequence<T>(s: seq<T>, p: T -> bool)
    ensures IsSubsequence(Filter(s, p), s)
  {
    if s != [] {
      FilterIsSubsequence(s[..|s| - 1], p);
      var r := Filter(s, p);
      if p(s[|s| - 1]) {
        assert r[..|r| - 1] == Filter(s[..|s| - 1], p);
      } else {
        SubsequenceExtend(Filter(s[..|s| - 1], p), s[..|s| - 1], s[|s| - 1]);
        assert s[..|s| - 1] + [s[|s| - 1]] == s;
      }
    }
  }

  /** An element of `s` is kept exactly when it passes the condition. */
  lemma {:induction false} FilterMembers<T>(s: seq<T>, p: T -> bool, x: T)
    ensures x in Filter(s, p) <==> x in s && p(x)
  {
    if s != [] {
      FilterMembers(s[..|s| - 1], p, x);
      assert s == s[..|s| - 1] + [s[|s| - 1]];
    }
  }

  /** Splitting by a condition and by its negation loses and duplicates nothing. */
  lemma {:induction false} FilterPartition<T>(s: seq<T>, p: T -> bool, q: T -> bool)
    requires forall x :: q(x) <==> !p(x)
    ensures |Filter(s, p)| + |Filter(s, q)| == |s|
  {
    if s != [] {
      FilterPartition(s[..|s| - 1], p, q);
    }
  }

  lemma FilterSnoc<T>(s: seq<T>, x: T, p: T -> bool)
    ensures Filter(s + [x], p) == if p(x) then Filter(s, p) + [x] else Filter(s, p)
  {
    assert (s + [x])[..|s|] == s;
  }

  /** Filtering distributes over concatenation. */
  lemma {:induction false} FilterAppend<T>(a: seq<T>, b: seq<T>, p: T -> bool)
    ensures Filter(a + b, p) == Filter(a, p) + Filter(b, p)
    decreases |b|
  {
    if b != [] {
      var b' := b[..|b| - 1];
      assert (a + b)[..|a + b| - 1] == a + b';
      FilterAppend(a, b', p);
    } else {
      assert a + b == a;
    }
  }

  /** The images of a filtered sequence are a subsequence of the images of the whole. */
  lemma {:induction false} FilterMapSubsequence<T, U>(s: seq<T>, p: T -> bool, f: T -> U)
    ensures IsSubsequence(Map(Filter(s, p), f), Map(s, f))
  {
    if s != [] {
      var init := s[..|s| - 1];
      FilterMapSubsequence(init, p, f);
      var a, b := Map(Filter(init, p), f), Map(init, f);
      assert Map(s, f) == b + [f(s[|s| - 1])];
      if p(s[|s| - 1]) {
        assert Map(Filter(s, p), f) == a + [f(s[|s| - 1])];
        SubsequenceSnoc(a, b, f(s[|s| - 1]));
      } else {
        SubsequenceExtend(a, b, f(s[|s| - 1]));
      }
    }
  }

  /** Filtering keeps a sequence whose every element passes. */
  lemma {:induction false} FilterAllPass<T>(s: seq<T>, p: T -> bool)
    requires forall i :: 0 <= i < |s| ==> p(s[i])
    ensures Filter(s, p) == s
  {
    if s != [] {
      FilterAllPass(s[..|s| - 1], p);
    }
  }

  /** A kept element's image is among the images of the kept elements. */
  lemma FilterMapMember<T, U>(s: seq<T>, p: T -> bool, f: T -> U, x: T)
    requires x in s && p(x)
    ensures f(x) in Map(Filter(s, p), f)
  {
    FilterMembers(s, p, x);
    var k :| 0 <= k < |Filter(s, p)| && Filter(s, p)[k] == x;
    assert Map(Filter(s, p), f)[k] == f(x);
  }

  lemma SubsequenceSnoc<T>(a: seq<T>, b: seq<T>, x: T)
    requires IsSubsequence(a, b)
    ensures IsSubsequence(a + [x], b + [x])
  {
    assert (a + [x])[..|a|] == a;
    assert (b + [x])[..|b|] == b;
  }

  /** Appending to the longer sequence keeps a subsequence one. */
  lemma {:induction false} SubsequenceExtend<T>(a: seq<T>, b: seq<T>, x: T)
    requires IsSubsequence(a, b)
    ensures IsSubsequence(a, b + [x])
    decreases |b|, 1
  {
    assert (b + [x])[..|b|] == b;
    if a != [] && a[|a| - 1] == x {
      SubsequenceDropLast(a, b);
    }
  }

  /** Dropping the last element of a subsequence leaves a subsequence. */
  lemma {:induction false} SubsequenceDropLast<T>(a: seq<T>, b: seq<T>)
    requires a != [] && IsSubsequence(a, b)
    ensures IsSubsequence(a[..|a| - 1], b)
    decreases |b|, 0
  {
    var a', b' := a[..|a| - 1], b[..|b| - 1];
    if a[|a| - 1] != b[|b| - 1] {
      SubsequenceDropLast(a, b');
    }
    SubsequenceExtend(a', b', b[|b| - 1]);
    assert b' + [b[|b| - 1]] == b;
  }

  lemma {:induction false} SubsequenceTransitive<T>(a: seq<T>, b: seq<T>, c: seq<T>)
    requires IsSubsequence(a, b) && IsSubsequence(b, c)
    ensures IsSubsequence(a, c)
    decreases |c|
  {
    if a != [] {
      var a', b', c' := a[..|a| - 1], b[..|b| - 1], c[..|c| - 1];
      if b[|b| - 1] == c[|c| - 1] {
        if a[|a| - 1] == b[|b| - 1] {
          SubsequenceTransitive(a', b', c');
          return;
        }
        SubsequenceTransitive(a, b', c');
      } else {
        SubsequenceTransitive(a, b, c');
      }
      // `a` is a subsequence of `c'`, so of `c` too
      if a[|a| - 1] == c[|c| - 1] {
        SubsequenceDropLast(a, c');
      }
    }
  }

  lemma {:induction false} SubsequenceMembers<T>(a: seq<T>, b: seq<T>)
    requires IsSubsequence(a, b)
    ensures forall i :: 0 <= i < |a| ==> a[i] in b
    decreases |b|
  {
    if a != [] {
      var a', b' := a[..|a| - 1], b[..|b| - 1];
      if a[|a| - 1] == b[|b| - 1] {
        SubsequenceMembers(a', b');
        assert forall i :: 0 <= i < |a'| ==> a[i] == a'[i];
      } else {
        SubsequenceMembers(a, b');
      }
    }
  }

  /** A subsequence of a sequence without repeats has no repeats. */
  lemma {:induction false} SubsequenceDistinct<T>(a: seq<T>, b: seq<T>)
    requires IsSubsequence(a, b) && Distinct(b)
    ensures Distinct(a)
    decreases |b|
  {
    if a != [] {
      var a', b' := a[..|a| - 1], b[..|b| - 1];
      assert Distinct(b');
      if a[|a| - 1] == b[|b| - 1] {
        SubsequenceDistinct(a', b');
        SubsequenceMembers(a', b');
        assert forall i :: 0 <= i < |a'| ==> a[i] == a'[i] && a'[i] != b[|b| - 1];
      } else {
        SubsequenceDistinct(a, b');
      }
    }
  }

  /** The values of the elements for which `f` gives one, in order. */
  function Somes<A, B>(xs: seq<A>, f: A -> Option<B>): seq<B> {
    if xs == [] then []
    else
      match f(xs[|xs| - 1])
      case Some(y) => Somes(xs[..|xs| - 1], f) + [y]
      case None => Somes(xs[..|xs| - 1], f)
  }

  lemma {:induction false} SomesAppend<A, B>(a: seq<A>, b: seq<A>, f: A -> Option<B>)
    ensures Somes(a + b, f) == Somes(a, f) + Somes(b, f)
    decreases |b|
  {
    if b == [] {
      assert a + b == a;
    } else {
      var b' := b[..|b| - 1];
      assert (a + b)[..|a + b| - 1] == a + b';
      SomesAppend(a, b', f);
    }
  }

  lemma {:induction false} SomesMembers<A, B>(xs: seq<A>, f: A -> Option<B>, y: B)
    ensures y in Somes(xs, f) <==> exists i :: 0 <= i < |xs| && f(xs[i]) == Some(y)
  {
    if xs != [] {
      var init := xs[..|xs| - 1];
      SomesMembers(init, f, y);
      assert forall i :: 0 <= i < |init| ==> init[i] == xs[i];
    }
  }

  // ------------------------------------------------- loops that may raise

  /**
   * A loop over `xs` that appends what `step` gives for each element and lets
   * the first exception escape: the concatenated outputs, or that exception.
   */
  function ConcatResults<A, B, E>(xs: seq<A>, step: A -> Result<seq<B>, E>): Result<seq<B>, E>
  {
    if xs == [] then Ok([])
    else
      match ConcatResults(xs[..|xs| - 1], step)
      case Err(e) => Err(e)
      case Ok(acc) =>
        match step(xs[|xs| - 1])
        case Err(e) => Err(e)
        case Ok(out) => Ok(acc + out)
  }

  /** One more turn of the loop. */
  lemma ConcatResultsStep<A, B, E>(xs: seq<A>, i: nat, step: A -> Result<seq<B>, E>)
    requires i < |xs| && ConcatResults(xs[..i], step).Ok?
    ensures step(xs[i]).Err? ==> ConcatResults(xs[..i + 1], step) == Err(step(xs[i]).error)
    ensures step(xs[i]).Ok? ==> ConcatResults(xs[..i + 1], step) == Ok(ConcatResults(xs[..i], step).value + step(xs[i]).value)
  {
    assert xs[..i + 1][..i] == xs[..i];
  }

  /** Once an exception has escaped, later elements change nothing. */
  lemma {:induction false} ConcatResultsErrStays<A, B, E>(xs: seq<A>, i: nat, step: A -> Result<seq<B>, E>)
    requires i <= |xs| && ConcatResults(xs[..i], step).Err?
    ensures ConcatResults(xs, step) == ConcatResults(xs[..i], step)
    decreases |xs| - i
  {
    if i < |xs| {
      assert xs[..i + 1][..i] == xs[..i];
      ConcatResultsErrStays(xs, i + 1, step);
    } else {
      assert xs[..i] == xs;
    }
  }

  /** The loop raises exactly when some element raises. */
  lemma {:induction false} ConcatResultsErrIff<A, B, E>(xs: seq<A>, step: A -> Result<seq<B>, E>)
    ensures ConcatResults(xs, step).Err? <==> exists i :: 0 <= i < |xs| && step(xs[i]).Err?
  {
    if xs != [] {
      var init := xs[..|xs| - 1];
      ConcatResultsErrIff(init, step);
      assert forall i :: 0 <= i < |init| ==> init[i] == xs[i];
    }
  }

  /** When the loop completes, every element's output is part of the result. */
  lemma {:induction false} ConcatResultsContains<A, B, E>(xs: seq<A>, step: A -> Result<seq<B>, E>, i: nat)
    requires i < |xs| && ConcatResults(xs, step).Ok?
    ensures step(xs[i]).Ok?
    ensures forall y :: y in step(xs[i]).value ==> y in ConcatResults(xs, step).value
  {
    var init := xs[..|xs| - 1];
    if i < |init| {
      assert init[i] == xs[i];
      ConcatResultsContains(init, step, i);
    }
  }

  /** When the loop completes, every part of the result comes from some element's output. */
  lemma {:induction false} ConcatResultsFrom<A, B, E>(xs: seq<A>, step: A -> Result<seq<B>, E>, y: B)
    requires ConcatResults(xs, step).Ok? && y in ConcatResults(xs, step).value
    ensures exists i :: 0 <= i < |xs| && step(xs[i]).Ok? && y in step(xs[i]).value
  {
    var init := xs[..|xs| - 1];
    var acc := ConcatResults(init, step).value;
    if y in acc {
      ConcatResultsFrom(init, step, y);
      var i :| 0 <= i < |init| && step(init[i]).Ok? && y in step(init[i]).value;
      assert init[i] == xs[i];
    }
  }

  /**
   * When every element yields at most one result, tagged with the element's
   * own key, the results' keys follow the elements' keys in order.
   */
  lemma {:induction false} ConcatResultsFollowKeys<A, B, E, K>(xs: seq<A>, step: A -> Result<seq<B>, E>, key: A -> K, keyOf: B -> K)
    requires forall x :: step(x).Ok? ==> |step(x).value| <= 1
    requires forall x, y :: step(x).Ok? && y in step(x).value ==> keyOf(y) == key(x)
    requires ConcatResults(xs, step).Ok?
    ensures IsSubsequence(Map(ConcatResults(xs, step).value, keyOf), Map(xs, key))
  {
    if xs != [] {
      var n := |xs| - 1;
      ConcatResultsFollowKeys(xs[..n], step, key, keyOf);
      var acc := ConcatResults(xs[..n], step).value;
      var out := step(xs[n]).value;
      var a, b := Map(acc, keyOf), Map(xs[..n], key);
      assert Map(xs, key) == b + [key(xs[n])];
      if out == [] {
        assert acc + out == acc;
        SubsequenceExtend(a, b, key(xs[n]));
      } else {
        assert out[0] in out;
        assert Map(acc + out, keyOf) == a + [key(xs[n])];
        SubsequenceSnoc(a, b, key(xs[n]));
      }
    }
  }
}

/**
 * Sequence operations the dashboard borrows from JavaScript arrays and sets:
 * `filter`, `Array.from(new Set(xs))`, and taking the most recent elements.
 */
module SeqUtils {

  /** `idx` lists, in increasing order, positions of `b` that spell out `a`. */
  ghost predicate Embeds<T>(idx: seq<int>, a: seq<T>, b: seq<T>)
  {
    && |idx| == |a|
    && (forall i :: 0 <= i < |idx| ==> 0 <= idx[i] < |b| && a[i] == b[idx[i]])
    && (forall i, j :: 0 <= i < j < |idx| ==> idx[i] < idx[j])
  }

  /** `a` is obtained from `b` by dropping elements, keeping the order of the rest. */
  ghost predicate IsSubsequence<T>(a: seq<T>, b: seq<T>)
  {
    exists idx :: Embeds(idx, a, b)
  }

  predicate NoDuplicates<T(==)>(s: seq<T>)
  {
    forall i, j :: 0 <= i < j < |s| ==> s[i] != s[j]
  }

  /** `s.filter(f)`: the elements of `s` that satisfy `f`, in their original order. */
  function Filter<T>(s: seq<T>, f: T -> bool): (r: seq<T>)
    ensures |r| <= |s|
    ensures forall x :: x in r ==> x in s && f(x)
  {
    if s == [] then [] else (if f(s[0]) then [s[0]] else []) + Filter(s[1..], f)
  }

  /** No element that satisfies `f` is dropped, none that fails it is kept, multiplicities included. */
  lemma {:induction false} FilterCount<T>(s: seq<T>, f: T -> bool, x: T)
    ensures multiset(Filter(s, f))[x] == if f(x) then multiset(s)[x] else 0
  {
    if s != [] {
      FilterCount(s[1..], f, x);
      assert s == [s[0]] + s[1..];
      assert multiset(s) == multiset([s[0]]) + multiset(s[1..]);
    }
  }

  function Shift(idx: seq<int>): (r: seq<int>)
    ensures |r| == |idx| && forall i :: 0 <= i < |idx| ==> r[i] == idx[i] + 1
  {
    seq(|idx|, i requires 0 <= i < |idx| => idx[i] + 1)
  }

  lemma EmbedsSkip<T>(idx: seq<int>, a: seq<T>, b: seq<T>, x: T)
    requires Embeds(idx, a, b)
    ensures Embeds(Shift(idx), a, [x] + b)
  {
  }

  lemma EmbedsKeep<T>(idx: seq<int>, a: seq<T>, b: seq<T>, x: T)
    requires Embeds(idx, a, b)
    ensures Embeds([0] + Shift(idx), [x] + a, [x] + b)
  {
    var r := [0] + Shift(idx);
    forall i | 0 <= i < |r|
      ensures 0 <= r[i] < |b| + 1 && ([x] + a)[i] == ([x] + b)[r[i]]
    {
      if i > 0 {
        assert r[i] == idx[i - 1] + 1;
      }
    }
  }

  /** Filtering keeps the order of what it keeps. */
  lemma {:induction false} FilterIsSubsequence<T>(s: seq<T>, f: T -> bool)
    ensures IsSubsequence(Filter(s, f), s)
  {
    if s == [] {
      assert Embeds([], Filter(s, f), s);
    } else {
      FilterIsSubsequence(s[1..], f);
      var rest := Filter(s[1..], f);
      var idx :| Embeds(idx, rest, s[1..]);
      assert s == [s[0]] + s[1..];
      if f(s[0]) {
        EmbedsKeep(idx, rest, s[1..], s[0]);
        assert Filter(s, f) == [s[0]] + rest;
        assert Embeds([0] + Shift(idx), Filter(s, f), s);
      } else {
        EmbedsSkip(idx, rest, s[1..], s[0]);
        assert Filter(s, f) == rest;
        assert Embeds(Shift(idx), Filter(s, f), s);
      }
    }
  }

  /** A filter that every element passes is the identity. */
  lemma {:induction false} FilterAll<T>(s: seq<T>, f: T -> bool)
    requires forall i :: 0 <= i < |s| ==> f(s[i])
    ensures Filter(s, f) == s
  {
    if s != [] {
      FilterAll(s[1..], f);
    }
  }

  /** A filter that no element passes gives the empty sequence. */
  lemma {:induction false} FilterNone<T>(s: seq<T>, f: T -> bool)
    requires forall i :: 0 <= i < |s| ==> !f(s[i])
    ensures Filter(s, f) == []
  {
    if s != [] {
      FilterNone(s[1..], f);
    }
  }

  /**
   * `Array.from(new Set(s))`: each element once, in order of first occurrence
   * (a JavaScript Set iterates in insertion order and ignores re-insertions).
   */
  function Distinct<T(==,!new)>(s: seq<T>): (r: seq<T>)
    ensures NoDuplicates(r)
    ensures forall x :: x in r <==> x in s
  {
    if s == [] then []
    else
      var d := Distinct(s[..|s| - 1]);
      assert forall x :: x in s <==> x in s[..|s| - 1] || x == s[|s| - 1] by {
        assert s == s[..|s| - 1] + [s[|s| - 1]];
      }
      if s[|s| - 1] in d then d else d + [s[|s| - 1]]
  }

  /** `a` occurs in `s` before any occurrence of `b`. */
  ghost predicate OccursBefore<T>(s: seq<T>, a: T, b: T)
  {
    exists k :: 0 <= k < |s| && s[k] == a && b !in s[..k]
  }

  /** `Distinct` lists the elements in order of their first occurrence. */
  lemma {:induction false} DistinctOrder<T(!new)>(s: seq<T>)
    ensures forall i, j :: 0 <= i < j < |Distinct(s)| ==> OccursBefore(s, Distinct(s)[i], Distinct(s)[j])
  {
    if s != [] {
      var n := |s| - 1;
      var init := s[..n];
      var x := s[n];
      var d := Distinct(init);
      var r := Distinct(s);
      DistinctOrder(init);
      assert forall i, j :: 0 <= i < j < |d| ==> OccursBefore(init, d[i], d[j]);
      forall i, j | 0 <= i < j < |r|
        ensures OccursBefore(s, r[i], r[j])
      {
        assert s == init + [x];
        assert r == if x in d then d else d + [x];
        assert r[i] == d[i];
        if j < |d| {
          assert r[j] == d[j];
          assert OccursBefore(init, d[i], d[j]);
          var k :| 0 <= k < |init| && init[k] == d[i] && d[j] !in init[..k];
          assert s[..k] == init[..k];
        } else {
          assert r[j] == x && x !in init;
          assert d[i] in init;
          var k :| 0 <= k < |init| && init[k] == d[i];
          assert s[..k] == init[..k];
          assert x !in s[..k];
        }
      }
    }
  }

  /** The last `min(|s|, k)` elements of `s`. */
  function Last<T>(s: seq<T>, k: nat): (r: seq<T>)
    ensures |r| == if |s| < k then |s| else k
  {
    if |s| < k then s else s[|s| - k..]
  }

  ghost predicate IsSuffix<T>(a: seq<T>, b: seq<T>)
  {
    |a| <= |b| && a == b[|b| - |a|..]
  }

  lemma SuffixTransitive<T>(a: seq<T>, b: seq<T>, c: seq<T>)
    requires IsSuffix(a, b) && IsSuffix(b, c)
    ensures IsSuffix(a, c)
  {
    assert a == c[|c| - |a|..] by {
      assert b == c[|c| - |b|..];
      assert forall i :: 0 <= i < |a| ==> a[i] == b[|b| - |a| + i] == c[|c| - |a| + i];
    }
  }

  lemma SuffixAppend<T>(a: seq<T>, b: seq<T>, x: T)
    requires IsSuffix(a, b)
    ensures IsSuffix(a + [x], b + [x])
  {
    assert (b + [x])[|b| + 1 - (|a| + 1)..] == b[|b| - |a|..] + [x];
  }
}

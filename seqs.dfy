/** Order-preserving list operations shared by the frontend (`Array.prototype.filter`,
    `map`, `reduce`) and the backend (list comprehensions, `sum`). */
module Seqs {
  import opened Wrappers

  /** `s.filter(p)`: the elements satisfying `p`, in their original order. */
  function Filter<T>(s: seq<T>, p: T -> bool): (r: seq<T>)
    ensures |r| <= |s|
    ensures forall i :: 0 <= i < |r| ==> r[i] in s && p(r[i])
    ensures forall i :: 0 <= i < |s| && p(s[i]) ==> s[i] in r
  {
    if |s| == 0 then [] else (if p(s[0]) then [s[0]] else []) + Filter(s[1..], p)
  }

  /** `s.filter(p).length` */
  function Count<T>(s: seq<T>, p: T -> bool): nat
  {
    |Filter(s, p)|
  }

  /** `s.map(f)` */
  function Map<A, B>(s: seq<A>, f: A -> B): (r: seq<B>)
    ensures |r| == |s|
    ensures forall i :: 0 <= i < |s| ==> r[i] == f(s[i])
  {
    seq(|s|, i requires 0 <= i < |s| => f(s[i]))
  }

  lemma MapAppend<A, B>(a: seq<A>, b: seq<A>, f: A -> B)
    ensures Map(a + b, f) == Map(a, f) + Map(b, f)
  {
  }

  /** `s[:n]` for a non-negative `n`. */
  function Take<T>(s: seq<T>, n: nat): (r: seq<T>)
    ensures |r| == (if |s| <= n then |s| else n)
    ensures r == s[..|r|]
  {
    if |s| <= n then s else s[..n]
  }

  /** A value is in the image of the filtered list iff some element passing the
      filter maps to it. */
  lemma MapFilterMember<A, B>(s: seq<A>, p: A -> bool, f: A -> B, b: B)
    ensures b in Map(Filter(s, p), f) <==> exists i :: 0 <= i < |s| && p(s[i]) && f(s[i]) == b
  {
    var r := Filter(s, p);
    var m := Map(r, f);
    if b in m {
      var k :| 0 <= k < |m| && m[k] == b;
      assert r[k] in s;
      var i :| 0 <= i < |s| && s[i] == r[k];
      assert p(s[i]) && f(s[i]) == b;
    }
    if exists i :: 0 <= i < |s| && p(s[i]) && f(s[i]) == b {
      var i :| 0 <= i < |s| && p(s[i]) && f(s[i]) == b;
      assert s[i] in r;
      var k :| 0 <= k < |r| && r[k] == s[i];
      assert m[k] == b;
    }
  }

  /** The defined results of `f` over `s`, in order: a loop that appends
      `f(x)` whenever there is one. */
  function Collect<A, B>(s: seq<A>, f: A -> Option<B>): (r: seq<B>)
    ensures |r| <= |s|
  {
    if |s| == 0 then []
    else
      var y := f(s[|s| - 1]);
      Collect(s[..|s| - 1], f) + (if y.Some? then [y.value] else [])
  }

  /** Each collected value comes from some element. */
  lemma {:induction false} CollectOrigin<A, B>(s: seq<A>, f: A -> Option<B>, i: nat)
    requires i < |Collect(s, f)|
    ensures exists a :: 0 <= a < |s| && f(s[a]) == Some(Collect(s, f)[i])
  {
    var n := |s| - 1;
    if i < |Collect(s[..n], f)| {
      CollectOrigin(s[..n], f, i);
      var a :| 0 <= a < |s[..n]| && f(s[..n][a]) == Some(Collect(s[..n], f)[i]);
      assert s[a] == s[..n][a];
    } else {
      assert f(s[n]) == Some(Collect(s, f)[i]);
    }
  }

  /** A value is collected iff some element yields it. */
  lemma {:induction false} CollectMember<A, B>(s: seq<A>, f: A -> Option<B>, e: B)
    ensures e in Collect(s, f) <==> exists j :: 0 <= j < |s| && f(s[j]) == Some(e)
  {
    if |s| > 0 {
      var n := |s| - 1;
      CollectMember(s[..n], f, e);
      if e in Collect(s, f) {
        var i :| 0 <= i < |Collect(s, f)| && Collect(s, f)[i] == e;
        CollectOrigin(s, f, i);
      }
      if exists j :: 0 <= j < |s| && f(s[j]) == Some(e) {
        var j :| 0 <= j < |s| && f(s[j]) == Some(e);
        if j < n {
          assert s[..n][j] == s[j];
        }
      }
    }
  }

  /** Values collected in order come from elements in the same order. */
  lemma {:induction false} CollectOrdered<A, B>(s: seq<A>, f: A -> Option<B>, i: nat, j: nat)
    requires i < j < |Collect(s, f)|
    ensures exists a, b :: 0 <= a < b < |s| && f(s[a]) == Some(Collect(s, f)[i]) && f(s[b]) == Some(Collect(s, f)[j])
  {
    var n := |s| - 1;
    var c := Collect(s[..n], f);
    if j < |c| {
      CollectOrdered(s[..n], f, i, j);
      var a, b :| 0 <= a < b < |s[..n]| && f(s[..n][a]) == Some(c[i]) && f(s[..n][b]) == Some(c[j]);
      assert s[a] == s[..n][a] && s[b] == s[..n][b];
    } else {
      CollectOrigin(s[..n], f, i);
      var a :| 0 <= a < |s[..n]| && f(s[..n][a]) == Some(c[i]);
      assert s[a] == s[..n][a];
      assert f(s[n]) == Some(Collect(s, f)[j]);
    }
  }

  /** `sum(s)` (a left fold, as `reduce` and Python's `sum` compute it). */
  function Sum(s: seq<real>): real
  {
    if |s| == 0 then 0.0 else Sum(s[..|s| - 1]) + s[|s| - 1]
  }

  /** `a` is obtained from `b` by deleting elements (greedy matching is complete). */
  predicate IsSubsequence<T(==)>(a: seq<T>, b: seq<T>)
  {
    if |a| == 0 then true
    else if |b| == 0 then false
    else if a[0] == b[0] then IsSubsequence(a[1..], b[1..])
    else IsSubsequence(a, b[1..])
  }

  lemma {:induction false} FilterAppend<T>(a: seq<T>, b: seq<T>, p: T -> bool)
    ensures Filter(a + b, p) == Filter(a, p) + Filter(b, p)
  {
    if |a| == 0 {
      assert a + b == b;
    } else {
      assert (a + b)[1..] == a[1..] + b;
      FilterAppend(a[1..], b, p);
    }
  }

  /** Filtering the prefix one element further extends the filtered prefix. */
  lemma FilterSnoc<T>(s: seq<T>, i: nat, p: T -> bool)
    requires i < |s|
    ensures Filter(s[..i + 1], p) == Filter(s[..i], p) + (if p(s[i]) then [s[i]] else [])
  {
    assert s[..i + 1] == s[..i] + [s[i]];
    FilterAppend(s[..i], [s[i]], p);
    assert Filter([s[i]], p) == (if p(s[i]) then [s[i]] else []) + Filter([s[i]][1..], p);
  }

  /** Filtering one more element at the end. */
  lemma FilterLast<T>(s: seq<T>, x: T, p: T -> bool)
    ensures Filter(s + [x], p) == Filter(s, p) + (if p(x) then [x] else [])
  {
    FilterAppend(s, [x], p);
    assert Filter([x], p) == (if p(x) then [x] else []) + Filter([x][1..], p);
  }

  /** When every element passes, filtering is the identity. */
  lemma {:induction false} FilterAllPass<T>(s: seq<T>, p: T -> bool)
    requires forall x :: x in s ==> p(x)
    ensures Filter(s, p) == s
  {
    if |s| > 0 {
      assert s[0] in s;
      forall x | x in s[1..] ensures p(x) {
        assert x in s;
      }
      FilterAllPass(s[1..], p);
      assert s == [s[0]] + s[1..];
    }
  }

  /** When no element passes, filtering leaves nothing. */
  lemma {:induction false} FilterNonePass<T>(s: seq<T>, p: T -> bool)
    requires forall x :: x in s ==> !p(x)
    ensures Filter(s, p) == []
  {
    if |s| > 0 {
      assert s[0] in s;
      forall x | x in s[1..] ensures !p(x) {
        assert x in s;
      }
      FilterNonePass(s[1..], p);
    }
  }

  /** Applying the same filter twice equals applying it once. */
  lemma FilterIdempotent<T>(s: seq<T>, p: T -> bool)
    ensures Filter(Filter(s, p), p) == Filter(s, p)
  {
    FilterAllPass(Filter(s, p), p);
  }

  /** A filter keeps the survivors in their original order. */
  lemma {:induction false} FilterIsSubsequence<T>(s: seq<T>, p: T -> bool)
    ensures IsSubsequence(Filter(s, p), s)
  {
    if |s| > 0 {
      FilterIsSubsequence(s[1..], p);
      if p(s[0]) {
        var r := Filter(s, p);
        assert r == [s[0]] + Filter(s[1..], p);
        assert r[1..] == Filter(s[1..], p);
      } else {
        assert Filter(s, p) == Filter(s[1..], p);
        SubsequenceOfTail(Filter(s[1..], p), s);
      }
    }
  }

  /** Every sequence is a subsequence of itself. */
  lemma {:induction false} SubsequenceReflexive<T>(s: seq<T>)
    ensures IsSubsequence(s, s)
  {
    if |s| > 0 {
      SubsequenceReflexive(s[1..]);
    }
  }

  /** A subsequence of the tail is a subsequence of the whole. */
  lemma {:induction false} SubsequenceOfTail<T>(a: seq<T>, b: seq<T>)
    requires |b| > 0 && IsSubsequence(a, b[1..])
    ensures IsSubsequence(a, b)
  {
    if |a| > 0 && a[0] == b[0] {
      SubsequenceDropHead(a, b[1..]);
    }
  }

  /** Dropping the first element of a subsequence keeps it a subsequence. */
  lemma {:induction false} SubsequenceDropHead<T>(a: seq<T>, b: seq<T>)
    requires |a| > 0 && IsSubsequence(a, b)
    ensures IsSubsequence(a[1..], b)
  {
    assert |b| > 0;
    if a[0] == b[0] {
      if |a[1..]| > 0 {
        SubsequenceOfTail(a[1..], b);
      }
    } else {
      SubsequenceDropHead(a, b[1..]);
      if |a[1..]| > 0 {
        SubsequenceOfTail(a[1..], b);
      }
    }
  }

  lemma {:induction false} SumAppend(a: seq<real>, b: seq<real>)
    ensures Sum(a + b) == Sum(a) + Sum(b)
  {
    if |b| == 0 {
      assert a + b == a;
    } else {
      assert (a + b)[..|a + b| - 1] == a + b[..|b| - 1];
      SumAppend(a, b[..|b| - 1]);
    }
  }

  /** The sum of `n` copies of `v`. */
  lemma {:induction false} SumConstant(s: seq<real>, v: real)
    requires forall i :: 0 <= i < |s| ==> s[i] == v
    ensures Sum(s) == |s| as real * v
  {
    if |s| > 0 {
      SumConstant(s[..|s| - 1], v);
    }
  }

  /** A sum is bounded by the count times an upper bound of its terms. */
  lemma {:induction false} SumAtMost(s: seq<real>, m: real)
    requires forall i :: 0 <= i < |s| ==> s[i] <= m
    ensures Sum(s) <= |s| as real * m
  {
    if |s| > 0 {
      SumAtMost(s[..|s| - 1], m);
    }
  }

  lemma {:induction false} SumNonNegative(s: seq<real>)
    requires forall i :: 0 <= i < |s| ==> s[i] >= 0.0
    ensures Sum(s) >= 0.0
  {
    if |s| > 0 {
      SumNonNegative(s[..|s| - 1]);
    }
  }

  lemma {:induction false} SumZero(s: seq<real>)
    requires forall i :: 0 <= i < |s| ==> s[i] == 0.0
    ensures Sum(s) == 0.0
  {
    if |s| > 0 {
      SumZero(s[..|s| - 1]);
    }
  }

  /** A mean of values in [0, m] lies in [0, m]. */
  lemma MeanBounds(s: seq<real>, m: real)
    requires |s| > 0 && forall j :: 0 <= j < |s| ==> 0.0 <= s[j] <= m
    ensures 0.0 <= Sum(s) / |s| as real <= m
  {
    SumNonNegative(s);
    SumAtMost(s, m);
    var n := |s| as real;
    assert Sum(s) / n * n == Sum(s);
  }
}

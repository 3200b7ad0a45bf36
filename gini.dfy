/** `calculate_gini_coefficient` (backend/app.py): the Gini coefficient of the
    magnitudes of a list of balances, from their running sums. */
module Gini {
  import Seqs
  import Sorting

  function Abs(v: real): (r: real)
    ensures r >= 0.0 && (r == v || r == -v)
  {
    if v < 0.0 then -v else v
  }

  /** The sort key of a list of numbers: the number itself. */
  function Value(v: real): real
  {
    v
  }

  /** `sorted([abs(v) for v in values])` */
  function Magnitudes(values: seq<real>): seq<real>
  {
    Sorting.SortBy(Seqs.Map(values, Abs), Value)
  }

  /** The sorted magnitudes: the absolute values of the input, as a multiset, in
      ascending order. */
  lemma MagnitudesMeaning(values: seq<real>)
    ensures var m := Magnitudes(values);
      |m| == |values|
      && multiset(m) == multiset(Seqs.Map(values, Abs))
      && (forall i, j :: 0 <= i < j < |m| ==> m[i] <= m[j])
      && forall i :: 0 <= i < |m| ==> m[i] >= 0.0
  {
    var m := Magnitudes(values);
    var a := Seqs.Map(values, Abs);
    assert Sorting.SortedBy(m, Value);
    forall i | 0 <= i < |m| ensures m[i] >= 0.0 {
      Sorting.SortedElementFromInput(a, Value, i);
    }
  }

  /** The running totals of `s`, one per element. */
  function PrefixSums(s: seq<real>): (r: seq<real>)
    ensures |r| == |s|
  {
    if |s| == 0 then [] else PrefixSums(s[..|s| - 1]) + [Seqs.Sum(s)]
  }

  /** Entry `i` of the running totals is the sum of the first `i + 1` values. */
  lemma {:induction false} PrefixSumsAt(s: seq<real>, i: nat)
    requires i < |s|
    ensures PrefixSums(s)[i] == Seqs.Sum(s[..i + 1])
  {
    var n := |s| - 1;
    if i < n {
      PrefixSumsAt(s[..n], i);
      assert s[..n][..i + 1] == s[..i + 1];
    } else {
      assert s[..i + 1] == s;
    }
  }

  /** The `cumsum` loop. */
  method CumulativeSums(values: seq<real>) returns (cumsum: seq<real>)
    ensures cumsum == PrefixSums(values)
  {
    cumsum := [];
    var total := 0.0;
    var i := 0;
    while i < |values|
      invariant 0 <= i <= |values|
      invariant cumsum == PrefixSums(values[..i])
      invariant total == Seqs.Sum(values[..i])
    {
      assert values[..i + 1][..i] == values[..i];
      total := total + values[i];
      cumsum := cumsum + [total];
      i := i + 1;
    }
    assert values[..|values|] == values;
  }

  /** `(n + 1 - 2 * sum(cumsum) / cumsum[-1]) / n` */
  function Coefficient(n: nat, total: real, last: real): real
    requires n > 0 && last != 0.0
  {
    ((n + 1) as real - 2.0 * total / last) / n as real
  }

  /** The coefficient: 0 for no values or a zero total, else `Coefficient` of
      the count, the sum of the running totals and the last running total. */
  function GiniSpec(values: seq<real>): real
  {
    if |values| == 0 then 0.0
    else
      var c := PrefixSums(Magnitudes(values));
      var n := |c|;
      if c[n - 1] == 0.0 then 0.0
      else Coefficient(n, Seqs.Sum(c), c[n - 1])
  }

  method CalculateGini(values: seq<real>) returns (g: real)
    ensures g == GiniSpec(values)
  {
    if |values| == 0 {
      return 0.0;
    }
    var sortedValues := Magnitudes(values);
    var n := |sortedValues|;
    var cumsum := CumulativeSums(sortedValues);
    if cumsum[n - 1] == 0.0 {
      return 0.0;
    }
    g := Coefficient(n, Seqs.Sum(cumsum), cumsum[n - 1]);
  }

  /** The last running total is the total of the values. */
  lemma LastPrefixSum(s: seq<real>)
    requires |s| > 0
    ensures PrefixSums(s)[|s| - 1] == Seqs.Sum(s)
  {
  }

  /** The total of the magnitudes is 0 exactly when every value is 0. */
  lemma {:induction false} AbsTotalZero(values: seq<real>)
    ensures Seqs.Sum(Seqs.Map(values, Abs)) == 0.0 <==> forall i :: 0 <= i < |values| ==> values[i] == 0.0
  {
    if |values| > 0 {
      var n := |values| - 1;
      AbsTotalZero(values[..n]);
      assert Seqs.Map(values, Abs)[..n] == Seqs.Map(values[..n], Abs);
      Seqs.SumNonNegative(Seqs.Map(values[..n], Abs));
      if forall i :: 0 <= i < n ==> values[..n][i] == 0.0 {
        if values[n] == 0.0 {
          forall i | 0 <= i < |values| ensures values[i] == 0.0 {
            if i < n {
              assert values[..n][i] == values[i];
            }
          }
        }
      } else {
        var i :| 0 <= i < n && values[..n][i] != 0.0;
        assert values[i] != 0.0;
      }
    }
  }

  /** When every input magnitude is `w`, so is every sorted magnitude. */
  lemma ConstantMagnitudes(values: seq<real>, w: real)
    requires forall i :: 0 <= i < |values| ==> Abs(values[i]) == w
    ensures var m := Magnitudes(values); |m| == |values| && forall i :: 0 <= i < |m| ==> m[i] == w
  {
    var a := Seqs.Map(values, Abs);
    var m := Magnitudes(values);
    forall i | 0 <= i < |m| ensures m[i] == w {
      Sorting.SortedElementFromInput(a, Value, i);
      var k :| 0 <= k < |a| && a[k] == m[i];
    }
  }

  /** No values, or values whose magnitudes total 0 (all zero), give 0. */
  lemma GiniZero(values: seq<real>)
    requires |values| == 0 || Seqs.Sum(Seqs.Map(values, Abs)) == 0.0
    ensures GiniSpec(values) == 0.0
  {
    if |values| > 0 {
      AbsTotalZero(values);
      ConstantMagnitudes(values, 0.0);
      ZeroTotalRatio(Magnitudes(values));
    }
  }

  lemma ZeroTotalRatio(m: seq<real>)
    requires |m| > 0 && forall i :: 0 <= i < |m| ==> m[i] == 0.0
    ensures PrefixSums(m)[|m| - 1] == 0.0
  {
    Seqs.SumZero(m);
    LastPrefixSum(m);
  }

  /** `1 + 2 + ... + n` */
  function Triangle(n: nat): nat
  {
    if n == 0 then 0 else Triangle(n - 1) + n
  }

  lemma {:induction false} TriangleClosed(n: nat)
    ensures 2 * Triangle(n) == n * (n + 1)
  {
    if n > 0 {
      TriangleClosed(n - 1);
    }
  }

  /** `k` copies of `w` added up; kept apart from multiplication so that the
      constant-list lemmas below stay linear. */
  function Copies(k: nat, w: real): real
  {
    if k == 0 then 0.0 else Copies(k - 1, w) + w
  }

  lemma {:induction false} CopiesIsProduct(k: nat, w: real)
    ensures Copies(k, w) == k as real * w
  {
    if k > 0 {
      CopiesIsProduct(k - 1, w);
    }
  }

  lemma {:induction false} CopiesAdd(a: nat, b: nat, w: real)
    ensures Copies(a + b, w) == Copies(a, w) + Copies(b, w)
  {
    if b > 0 {
      CopiesAdd(a, b - 1, w);
    }
  }

  lemma {:induction false} SumOfCopies(s: seq<real>, w: real)
    requires forall i :: 0 <= i < |s| ==> s[i] == w
    ensures Seqs.Sum(s) == Copies(|s|, w)
  {
    if |s| > 0 {
      SumOfCopies(s[..|s| - 1], w);
    }
  }

  /** The running totals of `n` copies of `w` add up to `1 + 2 + ... + n`
      copies of `w`. */
  lemma {:induction false} PrefixSumsOfConstant(s: seq<real>, w: real)
    requires forall i :: 0 <= i < |s| ==> s[i] == w
    ensures Seqs.Sum(PrefixSums(s)) == Copies(Triangle(|s|), w)
  {
    if |s| > 0 {
      var n := |s| - 1;
      var c := PrefixSums(s);
      var pre := PrefixSums(s[..n]);
      PrefixSumsOfConstant(s[..n], w);
      SumOfCopies(s, w);
      assert c[..n] == pre;
      assert Seqs.Sum(c) == Seqs.Sum(pre) + Seqs.Sum(s);
      CopiesAdd(Triangle(n), |s|, w);
    }
  }

  /** A list whose values all have the same non-zero magnitude `w` (in
      particular, a list of equal non-zero values) is perfectly equal: its
      coefficient is 0. */
  lemma GiniEqual(values: seq<real>, w: real)
    requires |values| > 0 && w > 0.0
    requires forall i :: 0 <= i < |values| ==> Abs(values[i]) == w
    ensures GiniSpec(values) == 0.0
  {
    MagnitudeTotals(values, w);
    var c := PrefixSums(Magnitudes(values));
    EqualShareRatio(|c|, w, Seqs.Sum(c), c[|c| - 1]);
  }

  /** The two totals the formula reads, for magnitudes that all equal `w`. */
  lemma MagnitudeTotals(values: seq<real>, w: real)
    requires |values| > 0 && forall i :: 0 <= i < |values| ==> Abs(values[i]) == w
    ensures var c := PrefixSums(Magnitudes(values));
      |c| > 0 && c[|c| - 1] == Copies(|c|, w) && Seqs.Sum(c) == Copies(Triangle(|c|), w)
  {
    var m := Magnitudes(values);
    ConstantMagnitudes(values, w);
    SumOfCopies(m, w);
    LastPrefixSum(m);
    PrefixSumsOfConstant(m, w);
  }

  lemma EqualShareRatio(n: nat, w: real, total: real, last: real)
    requires n > 0 && w > 0.0
    requires total == Copies(Triangle(n), w) && last == Copies(n, w)
    ensures last != 0.0
    ensures Coefficient(n, total, last) == 0.0
  {
    var r := n as real;
    var t := Triangle(n) as real;
    CopiesIsProduct(Triangle(n), w);
    CopiesIsProduct(n, w);
    TriangleClosed(n);
    assert 2.0 * t == r * (r + 1.0);
    PositiveProduct(r, w);
    assert 2.0 * total == (r + 1.0) * last by {
      assert 2.0 * total == (2.0 * t) * w;
      assert (r + 1.0) * last == (r * (r + 1.0)) * w;
    }
    ExactQuotient(2.0 * total, r + 1.0, last);
  }

  lemma PositiveProduct(x: real, y: real)
    requires x > 0.0 && y > 0.0
    ensures x * y > 0.0
  {
  }

  lemma ExactQuotient(x: real, y: real, d: real)
    requires d != 0.0 && x == y * d
    ensures x / d == y
  {
  }
}

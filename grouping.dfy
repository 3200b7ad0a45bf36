/** `d = defaultdict(list); for x in xs: d[key(x)].append(val(x))`, the grouping
    loop behind `tx_by_wallet`, the tracing graph and `region_risk`
    (backend/app.py). Groups appear in the order their key is first met. */
module Grouping {
  import opened Dicts
  import Seqs

  /** `x => key(x) == k` */
  function KeyIs<T>(key: T -> string, k: string): T -> bool
  {
    (x: T) => key(x) == k
  }

  /** The dictionary after the loop has seen all of `xs`. */
  function GroupSpec<T, V>(xs: seq<T>, key: T -> string, val: T -> V): seq<(string, seq<V>)>
  {
    if |xs| == 0 then []
    else
      var g := GroupSpec(xs[..|xs| - 1], key, val);
      var x := xs[|xs| - 1];
      Put(g, key(x), Get(g, key(x), []) + [val(x)])
  }

  /** The loop itself. */
  method GroupBy<T, V>(xs: seq<T>, key: T -> string, val: T -> V) returns (groups: seq<(string, seq<V>)>)
    ensures groups == GroupSpec(xs, key, val)
  {
    groups := [];
    var i := 0;
    while i < |xs|
      invariant 0 <= i <= |xs|
      invariant groups == GroupSpec(xs[..i], key, val)
    {
      assert xs[..i + 1][..i] == xs[..i];
      var x := xs[i];
      groups := Put(groups, key(x), Get(groups, key(x), []) + [val(x)]);
      i := i + 1;
    }
    assert xs[..|xs|] == xs;
  }

  /** The keys are distinct, as in every dictionary. */
  lemma {:induction false} GroupSpecUnique<T, V>(xs: seq<T>, key: T -> string, val: T -> V)
    ensures UniqueKeys(GroupSpec(xs, key, val))
  {
    if |xs| > 0 {
      var g := GroupSpec(xs[..|xs| - 1], key, val);
      var x := xs[|xs| - 1];
      GroupSpecUnique(xs[..|xs| - 1], key, val);
      PutKeepsUnique(g, key(x), Get(g, key(x), []) + [val(x)]);
    }
  }

  /** The keys are exactly the keys met. */
  lemma {:induction false} GroupSpecKeys<T, V>(xs: seq<T>, key: T -> string, val: T -> V, k: string)
    ensures k in Keys(GroupSpec(xs, key, val)) <==> exists i :: 0 <= i < |xs| && key(xs[i]) == k
  {
    if |xs| > 0 {
      var n := |xs| - 1;
      var pre := xs[..n];
      var x := xs[n];
      var g := GroupSpec(pre, key, val);
      var e := Get(g, key(x), []) + [val(x)];
      GroupSpecKeys(pre, key, val, k);
      KeysAfterPut(g, key(x), e, k);
      assert GroupSpec(xs, key, val) == Put(g, key(x), e);
      KeyOccursSnoc(xs, pre, key, k);
    }
  }

  lemma KeyOccursSnoc<T>(xs: seq<T>, pre: seq<T>, key: T -> string, k: string)
    requires |xs| > 0 && pre == xs[..|xs| - 1]
    ensures (exists i :: 0 <= i < |xs| && key(xs[i]) == k)
      <==> key(xs[|xs| - 1]) == k || exists i :: 0 <= i < |pre| && key(pre[i]) == k
  {
    var n := |xs| - 1;
    if exists i :: 0 <= i < |xs| && key(xs[i]) == k {
      var i :| 0 <= i < |xs| && key(xs[i]) == k;
      if i < n {
        assert key(pre[i]) == k;
      }
    }
    if exists i :: 0 <= i < |pre| && key(pre[i]) == k {
      var i :| 0 <= i < |pre| && key(pre[i]) == k;
      assert key(xs[i]) == k;
    }
  }

  /** The group of `k` holds the values of exactly the elements with key `k`, in
      input order. */
  lemma {:induction false} GroupSpecGet<T, V>(xs: seq<T>, key: T -> string, val: T -> V, k: string)
    ensures Get(GroupSpec(xs, key, val), k, []) == Seqs.Map(Seqs.Filter(xs, KeyIs(key, k)), val)
  {
    var p := KeyIs(key, k);
    if |xs| > 0 {
      var n := |xs| - 1;
      var pre := xs[..n];
      var x := xs[n];
      var g := GroupSpec(pre, key, val);
      GroupSpecGet(pre, key, val, k);
      Seqs.FilterSnoc(xs, n, p);
      assert xs[..n + 1] == xs;
      if key(x) == k {
        GetPutSame(g, k, Get(g, k, []) + [val(x)], []);
        Seqs.MapAppend(Seqs.Filter(pre, p), [x], val);
      } else {
        GetPutOther(g, key(x), Get(g, key(x), []) + [val(x)], k, []);
      }
    }
  }

  /** Every group is non-empty. */
  lemma GroupsNonEmpty<T, V>(xs: seq<T>, key: T -> string, val: T -> V, i: nat)
    requires i < |GroupSpec(xs, key, val)|
    ensures |GroupSpec(xs, key, val)[i].1| > 0
  {
    var g := GroupSpec(xs, key, val);
    var k := g[i].0;
    assert k in Keys(g);
    GroupSpecKeys(xs, key, val, k);
    GroupSpecGet(xs, key, val, k);
    GroupSpecUnique(xs, key, val);
    var j :| 0 <= j < |xs| && key(xs[j]) == k;
    assert KeyIs(key, k)(xs[j]);
    assert xs[j] in Seqs.Filter(xs, KeyIs(key, k));
    FirstOccurrence(g, i);
  }

  /** With distinct keys, the entry at `i` is what `Get` returns for its key. */
  lemma FirstOccurrence<V>(g: seq<(string, V)>, i: nat)
    requires UniqueKeys(g) && i < |g|
    ensures forall d :: Get(g, g[i].0, d) == g[i].1
  {
    forall d ensures Get(g, g[i].0, d) == g[i].1 {
      GetMeaning(g, g[i].0, d);
    }
  }

  /** Every group of the dictionary is non-empty. */
  lemma GroupsAllNonEmpty<T, V>(xs: seq<T>, key: T -> string, val: T -> V)
    ensures forall i :: 0 <= i < |GroupSpec(xs, key, val)| ==> |GroupSpec(xs, key, val)[i].1| > 0
  {
    forall i | 0 <= i < |GroupSpec(xs, key, val)| ensures |GroupSpec(xs, key, val)[i].1| > 0 {
      GroupsNonEmpty(xs, key, val, i);
    }
  }

  /** `d = defaultdict(int); for x in xs: d[key(x)] += 1` */
  function TallySpec<T>(xs: seq<T>, key: T -> string): seq<(string, nat)>
  {
    if |xs| == 0 then []
    else
      var d := TallySpec(xs[..|xs| - 1], key);
      var k := key(xs[|xs| - 1]);
      Put(d, k, Get(d, k, 0) + 1)
  }

  /** One more element bumps its key's count. */
  lemma TallySnoc<T>(xs: seq<T>, x: T, key: T -> string)
    ensures var d := TallySpec(xs, key);
      TallySpec(xs + [x], key) == Put(d, key(x), Get(d, key(x), 0) + 1)
  {
    assert (xs + [x])[..|xs|] == xs;
  }

  /** The tally of `k` is the number of elements with key `k`. */
  lemma {:induction false} TallyGet<T>(xs: seq<T>, key: T -> string, k: string)
    ensures Get(TallySpec(xs, key), k, 0) == Seqs.Count(xs, KeyIs(key, k))
  {
    var p := KeyIs(key, k);
    if |xs| > 0 {
      var n := |xs| - 1;
      var d := TallySpec(xs[..n], key);
      var x := xs[n];
      TallyGet(xs[..n], key, k);
      Seqs.FilterSnoc(xs, n, p);
      assert xs[..n + 1] == xs;
      if key(x) == k {
        GetPutSame(d, k, Get(d, k, 0) + 1, 0);
      } else {
        GetPutOther(d, key(x), Get(d, key(x), 0) + 1, k, 0);
      }
    }
  }

  /** A tally lists its keys in the order the grouping of the same loop does. */
  lemma {:induction false} TallyKeys<T, V>(xs: seq<T>, key: T -> string, val: T -> V)
    ensures Keys(TallySpec(xs, key)) == Keys(GroupSpec(xs, key, val))
  {
    if |xs| > 0 {
      var n := |xs| - 1;
      var d, g := TallySpec(xs[..n], key), GroupSpec(xs[..n], key, val);
      var k := key(xs[n]);
      TallyKeys(xs[..n], key, val);
      PutSameKeys(d, g, k, Get(d, k, 0) + 1, Get(g, k, []) + [val(xs[n])]);
    }
  }
}

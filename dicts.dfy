/** Python dictionaries keep their keys in insertion order, and that order is
    observable (`.items()`, `.values()`, JSON output, ties in a stable sort). A
    dictionary is therefore an association list; `Put` overwrites a present key in
    place and appends a new one, exactly as `d[k] = v` does. */
module Dicts {

  /** The keys, in insertion order (`list(d.keys())`). */
  function Keys<K, V>(d: seq<(K, V)>): (r: seq<K>)
    ensures |r| == |d|
    ensures forall i :: 0 <= i < |d| ==> r[i] == d[i].0
  {
    seq(|d|, i requires 0 <= i < |d| => d[i].0)
  }

  /** The values, in insertion order (`list(d.values())`). */
  function Values<K, V>(d: seq<(K, V)>): (r: seq<V>)
    ensures |r| == |d|
    ensures forall i :: 0 <= i < |d| ==> r[i] == d[i].1
  {
    seq(|d|, i requires 0 <= i < |d| => d[i].1)
  }

  /** No key occurs twice: what every dict satisfies. */
  ghost predicate UniqueKeys<K, V>(d: seq<(K, V)>)
  {
    forall i, j :: 0 <= i < j < |d| ==> d[i].0 != d[j].0
  }

  /** `d.get(k, default)`; also what reading a `defaultdict` returns. */
  function Get<K(==), V>(d: seq<(K, V)>, k: K, default: V): (v: V)
  {
    if |d| == 0 then default
    else if d[0].0 == k then d[0].1
    else Get(d[1..], k, default)
  }

  /** A missing key reads as the default; a present one as its first entry. */
  lemma {:induction false} GetMeaning<K, V>(d: seq<(K, V)>, k: K, default: V)
    ensures k !in Keys(d) ==> Get(d, k, default) == default
    ensures forall i :: 0 <= i < |d| && d[i].0 == k && (forall j :: 0 <= j < i ==> d[j].0 != k) ==> Get(d, k, default) == d[i].1
  {
    if |d| > 0 && d[0].0 != k {
      assert Keys(d[1..]) == Keys(d)[1..];
      GetMeaning(d[1..], k, default);
      forall i | 0 <= i < |d| && d[i].0 == k && (forall j :: 0 <= j < i ==> d[j].0 != k)
        ensures Get(d, k, default) == d[i].1
      {
        assert d[1..][i - 1] == d[i];
      }
    }
  }

  /** `d[k] = v` */
  function Put<K(==), V>(d: seq<(K, V)>, k: K, v: V): (r: seq<(K, V)>)
  {
    if |d| == 0 then [(k, v)]
    else if d[0].0 == k then [(k, v)] + d[1..]
    else [d[0]] + Put(d[1..], k, v)
  }

  /** Overwriting keeps the key order; a new key goes last. */
  lemma {:induction false} PutMeaning<K, V>(d: seq<(K, V)>, k: K, v: V)
    ensures k in Keys(d) ==> Keys(Put(d, k, v)) == Keys(d)
    ensures k !in Keys(d) ==> Put(d, k, v) == d + [(k, v)]
  {
    if |d| > 0 {
      KeysSplit(d);
      if d[0].0 == k {
        KeysCons((k, v), d[1..]);
      } else {
        PutMeaning(d[1..], k, v);
        var rest := Put(d[1..], k, v);
        KeysCons(d[0], rest);
        if k !in Keys(d) {
          assert [d[0]] + (d[1..] + [(k, v)]) == d + [(k, v)];
        }
      }
    }
  }

  /** The keys of a non-empty list: its first key, then the keys of the rest. */
  lemma KeysSplit<K, V>(d: seq<(K, V)>)
    requires |d| > 0
    ensures Keys(d) == [d[0].0] + Keys(d[1..])
  {
  }

  lemma KeysCons<K, V>(x: (K, V), rest: seq<(K, V)>)
    ensures Keys([x] + rest) == [x.0] + Keys(rest)
  {
  }

  lemma {:induction false} GetPutSame<K, V>(d: seq<(K, V)>, k: K, v: V, default: V)
    ensures Get(Put(d, k, v), k, default) == v
  {
    if |d| > 0 && d[0].0 != k {
      GetPutSame(d[1..], k, v, default);
    }
  }

  lemma {:induction false} GetPutOther<K, V>(d: seq<(K, V)>, k: K, v: V, k': K, default: V)
    requires k' != k
    ensures Get(Put(d, k, v), k', default) == Get(d, k', default)
  {
    if |d| > 0 && d[0].0 != k {
      GetPutOther(d[1..], k, v, k', default);
    }
  }

  lemma {:induction false} PutKeepsUnique<K, V>(d: seq<(K, V)>, k: K, v: V)
    requires UniqueKeys(d)
    ensures UniqueKeys(Put(d, k, v))
  {
    var r := Put(d, k, v);
    PutMeaning(d, k, v);
    if k in Keys(d) {
      assert forall i :: 0 <= i < |r| ==> r[i].0 == Keys(r)[i] == Keys(d)[i] == d[i].0;
    } else {
      forall i, j | 0 <= i < j < |r| ensures r[i].0 != r[j].0 {
        if j == |d| {
          assert r[i].0 == Keys(d)[i];
        }
      }
    }
  }

  /** `k in d` */
  lemma KeysAfterPut<K, V>(d: seq<(K, V)>, k: K, v: V, k': K)
    ensures k' in Keys(Put(d, k, v)) <==> k' == k || k' in Keys(d)
  {
    PutMeaning(d, k, v);
    if k !in Keys(d) {
      assert Keys(d + [(k, v)]) == Keys(d) + [k];
    }
  }

  /** The sum of the values of a numeric dictionary (`sum(d.values())`). */
  function SumValues<K>(d: seq<(K, real)>): real
  {
    if |d| == 0 then 0.0 else SumValues(d[..|d| - 1]) + d[|d| - 1].1
  }

  lemma {:induction false} SumValuesAppend<K>(a: seq<(K, real)>, b: seq<(K, real)>)
    ensures SumValues(a + b) == SumValues(a) + SumValues(b)
  {
    if |b| == 0 {
      assert a + b == a;
    } else {
      assert (a + b)[..|a + b| - 1] == a + b[..|b| - 1];
      SumValuesAppend(a, b[..|b| - 1]);
    }
  }

  /** Overwriting one entry changes the total by the difference. */
  lemma {:induction false} SumValuesPut<K>(d: seq<(K, real)>, k: K, v: real)
    requires UniqueKeys(d)
    ensures SumValues(Put(d, k, v)) == SumValues(d) - Get(d, k, 0.0) + v
  {
    if |d| == 0 {
    } else if d[0].0 == k {
      SumValuesAppend([d[0]], d[1..]);
      SumValuesAppend([(k, v)], d[1..]);
      assert d == [d[0]] + d[1..];
    } else {
      SumValuesPut(d[1..], k, v);
      SumValuesAppend([d[0]], d[1..]);
      SumValuesAppend([d[0]], Put(d[1..], k, v));
      assert d == [d[0]] + d[1..];
    }
  }

  /** Reading a concatenation reads the first part when the key is there. */
  lemma {:induction false} GetAppend<K, V>(d: seq<(K, V)>, e: seq<(K, V)>, k: K, default: V)
    ensures Get(d + e, k, default) == if k in Keys(d) then Get(d, k, default) else Get(e, k, default)
  {
    if |d| > 0 {
      assert (d + e)[1..] == d[1..] + e;
      assert Keys(d[1..]) == Keys(d)[1..];
      GetAppend(d[1..], e, k, default);
    } else {
      assert d + e == e;
    }
  }

  /** In a dictionary, an entry is what its key reads. */
  lemma MemberGet<K, V>(d: seq<(K, V)>, entry: (K, V), default: V)
    requires UniqueKeys(d) && entry in d
    ensures Get(d, entry.0, default) == entry.1
  {
    var i :| 0 <= i < |d| && d[i] == entry;
    GetMeaning(d, entry.0, default);
  }

  /** Which keys `Put` leaves depends only on the keys before it, not on the values. */
  lemma {:induction false} PutSameKeys<K, V, W>(d: seq<(K, V)>, e: seq<(K, W)>, k: K, v: V, w: W)
    requires Keys(d) == Keys(e)
    ensures Keys(Put(d, k, v)) == Keys(Put(e, k, w))
  {
    if |d| > 0 {
      KeysSplit(d);
      KeysSplit(e);
      assert d[0].0 == e[0].0 && Keys(d[1..]) == Keys(e[1..]);
      if d[0].0 == k {
        KeysCons((k, v), d[1..]);
        KeysCons((k, w), e[1..]);
      } else {
        PutSameKeys(d[1..], e[1..], k, v, w);
        KeysCons(d[0], Put(d[1..], k, v));
        KeysCons(e[0], Put(e[1..], k, w));
      }
    }
  }
}

/** Python's `sorted(xs, key=k)` and `list.sort(key=k)`: a stable sort in
    ascending key order. `reverse=True` is the same stable sort on the negated key
    (Python keeps equal elements in input order in both directions). */
module Sorting {

  /** Ascending by `key`. */
  ghost predicate SortedBy<T>(s: seq<T>, key: T -> real)
  {
    forall i, j :: 0 <= i < j < |s| ==> key(s[i]) <= key(s[j])
  }

  /** Places `x` after every element whose key is not larger, so that earlier
      elements with an equal key stay in front of it. */
  function Insert<T>(x: T, s: seq<T>, key: T -> real): (r: seq<T>)
    ensures |r| == |s| + 1
    ensures multiset(r) == multiset(s) + multiset{x}
  {
    if |s| == 0 then [x]
    else if key(x) < key(s[0]) then [x] + s
    else
      assert s == [s[0]] + s[1..];
      [s[0]] + Insert(x, s[1..], key)
  }

  lemma {:induction false} InsertSorted<T>(x: T, s: seq<T>, key: T -> real)
    requires SortedBy(s, key)
    ensures SortedBy(Insert(x, s, key), key)
  {
    if |s| > 0 && key(s[0]) <= key(x) {
      var rest := Insert(x, s[1..], key);
      InsertSorted(x, s[1..], key);
      forall i | 0 <= i < |rest| ensures key(s[0]) <= key(rest[i]) {
        assert rest[i] in multiset(rest);
        if rest[i] != x {
          assert rest[i] in multiset(s[1..]);
          var k :| 0 <= k < |s[1..]| && s[1..][k] == rest[i];
          assert s[k + 1] == rest[i];
        }
      }
      var r := Insert(x, s, key);
      assert r == [s[0]] + rest;
      forall i, j | 0 <= i < j < |r| ensures key(r[i]) <= key(r[j]) {
        if i > 0 {
          assert r[i] == rest[i - 1] && r[j] == rest[j - 1];
        } else {
          assert r[j] == rest[j - 1];
        }
      }
    }
  }

  /** The stable sort, processing the input from left to right. */
  function SortBy<T>(s: seq<T>, key: T -> real): (r: seq<T>)
    ensures |r| == |s|
    ensures multiset(r) == multiset(s)
    ensures SortedBy(r, key)
  {
    if |s| == 0 then []
    else
      assert s == s[..|s| - 1] + [s[|s| - 1]];
      var sortedPrefix := SortBy(s[..|s| - 1], key);
      InsertSorted(s[|s| - 1], sortedPrefix, key);
      Insert(s[|s| - 1], sortedPrefix, key)
  }

  /** Everything in the sorted list came from the input. */
  lemma SortedElementFromInput<T>(s: seq<T>, key: T -> real, i: nat)
    requires i < |s|
    ensures SortBy(s, key)[i] in s
  {
    var r := SortBy(s, key);
    assert r[i] in multiset(r);
  }

  /** Everything in the input is in the sorted list. */
  lemma InputElementSorted<T>(s: seq<T>, key: T -> real, i: nat)
    requires i < |s|
    ensures s[i] in SortBy(s, key)
  {
    assert s[i] in multiset(s);
  }

  /** The first element of the sorted list has the least key of the input. */
  lemma SortedFirstLeast<T>(s: seq<T>, key: T -> real, i: nat)
    requires i < |s|
    ensures key(SortBy(s, key)[0]) <= key(s[i])
  {
    var r := SortBy(s, key);
    InputElementSorted(s, key, i);
    var j :| 0 <= j < |r| && r[j] == s[i];
    assert j == 0 || key(r[0]) <= key(r[j]);
  }
  /** Cutting the sorted list after `n` elements leaves out only elements whose
      key is no smaller than that of any element kept. */
  lemma SortedPrefixLeast<T>(s: seq<T>, key: T -> real, n: nat, x: T)
    requires n <= |s| && x in s
    ensures x in SortBy(s, key)[..n] || forall i :: 0 <= i < n ==> key(SortBy(s, key)[i]) <= key(x)
  {
    var r := SortBy(s, key);
    assert x in multiset(s);
    assert x in r;
    var j :| 0 <= j < |r| && r[j] == x;
    if j < n {
      assert r[..n][j] == x;
    } else {
      forall i | 0 <= i < n ensures key(r[i]) <= key(x) {
        assert i < j;
      }
    }
  }
}

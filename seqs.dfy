/**
 * List operations the store performs on query results: row filtering,
 * ordering by a timestamp column (newest first) and `limit`.
 */
module Seqs {

  /** The elements of `s` that satisfy `p`, in their original order. */
  function Filter<T(!new)>(s: seq<T>, p: T -> bool): (r: seq<T>)
    ensures |r| <= |s|
    ensures forall x :: x in r <==> x in s && p(x)
    ensures forall k :: 0 <= k < |r| ==> p(r[k])
    ensures multiset(r) <= multiset(s)
  {
    if s == [] then []
    else
      var rest := Filter(s[1..], p);
      assert s == [s[0]] + s[1..];
      (if p(s[0]) then [s[0]] else []) + rest
  }

  /**
   * Filtering keeps every element that satisfies `p` exactly as often as it
   * occurs in `s`, and no other element.
   */
  lemma {:induction false} FilterMultiplicity<T(!new)>(s: seq<T>, p: T -> bool)
    ensures forall x :: multiset(Filter(s, p))[x] == if p(x) then multiset(s)[x] else 0
  {
    if s != [] {
      FilterMultiplicity(s[1..], p);
      assert s == [s[0]] + s[1..];
      assert multiset(s) == multiset{s[0]} + multiset(s[1..]);
    }
  }

  /** Filtering with two predicates that agree on every element gives the same rows. */
  lemma {:induction false} FilterCongruent<T(!new)>(s: seq<T>, p: T -> bool, q: T -> bool)
    requires forall k :: 0 <= k < |s| ==> p(s[k]) == q(s[k])
    ensures Filter(s, p) == Filter(s, q)
  {
    if s != [] {
      FilterCongruent(s[1..], p, q);
    }
  }

  /** Filtering commutes with appending. */
  lemma {:induction false} FilterAppend<T(!new)>(a: seq<T>, b: seq<T>, p: T -> bool)
    ensures Filter(a + b, p) == Filter(a, p) + Filter(b, p)
  {
    if a == [] {
      assert a + b == b;
    } else {
      assert (a + b)[1..] == a[1..] + b;
      FilterAppend(a[1..], b, p);
    }
  }

  /** `s` ordered by `key`, largest first. */
  ghost predicate SortedDesc<T>(s: seq<T>, key: T -> int) {
    forall i, j :: 0 <= i < j < |s| ==> key(s[i]) >= key(s[j])
  }

  /** Puts `x` in front of the first element whose key is not larger than its own. */
  function InsertDesc<T>(x: T, s: seq<T>, key: T -> int): (r: seq<T>)
    requires SortedDesc(s, key)
    ensures SortedDesc(r, key)
    ensures multiset(r) == multiset(s) + multiset{x}
    ensures |r| == |s| + 1
    ensures key(r[0]) == key(x) || (s != [] && key(r[0]) == key(s[0]))
  {
    if s == [] || key(s[0]) <= key(x) then [x] + s
    else
      var rest := InsertDesc(x, s[1..], key);
      assert s == [s[0]] + s[1..];
      var r := [s[0]] + rest;
      assert key(s[0]) >= key(rest[0]);
      assert forall j :: 0 < j < |r| ==> key(r[0]) >= key(r[j]) by {
        forall j | 0 < j < |r| ensures key(r[0]) >= key(r[j]) {
          if j > 1 {
            assert key(rest[0]) >= key(rest[j - 1]);
          }
        }
      }
      r
  }

  /** `order(column, { ascending: false })`: the same rows, newest first. */
  function SortDesc<T>(s: seq<T>, key: T -> int): (r: seq<T>)
    ensures SortedDesc(r, key)
    ensures multiset(r) == multiset(s)
    ensures |r| == |s|
  {
    if s == [] then []
    else
      assert s == [s[0]] + s[1..];
      InsertDesc(s[0], SortDesc(s[1..], key), key)
  }

  /** `limit(n)` / `slice(0, n)`: the first `n` elements, or all of them when there are fewer. */
  function Take<T>(s: seq<T>, n: nat): (r: seq<T>)
    ensures |r| == if |s| <= n then |s| else n
    ensures r <= s
  {
    if |s| <= n then s else s[..n]
  }

  /**
   * `order(column, { ascending: false }).limit(n)`: the `n` rows with the
   * largest keys, largest first. Every row left out has a key no larger than
   * any row kept.
   */
  function Top<T>(s: seq<T>, key: T -> int, n: nat): (r: seq<T>)
    ensures SortedDesc(r, key)
    ensures |r| == if |s| <= n then |s| else n
    ensures multiset(r) <= multiset(s)
    ensures forall y, i :: y in multiset(s) - multiset(r) && 0 <= i < |r| ==> key(r[i]) >= key(y)
  {
    var t := SortDesc(s, key);
    var r := Take(t, n);
    PrefixOfSorted(t, key, |r|);
    assert r == t[..|r|];
    r
  }

  /** A prefix of a sorted sequence is sorted, and dominates the rest. */
  lemma PrefixOfSorted<T>(t: seq<T>, key: T -> int, m: nat)
    requires SortedDesc(t, key) && m <= |t|
    ensures SortedDesc(t[..m], key)
    ensures multiset(t[..m]) <= multiset(t)
    ensures forall y, i :: y in multiset(t) - multiset(t[..m]) && 0 <= i < m ==> key(t[i]) >= key(y)
  {
    var r := t[..m];
    var rest := t[m..];
    assert t == r + rest;
    assert multiset(t) == multiset(r) + multiset(rest);
    forall y, i | y in multiset(t) - multiset(r) && 0 <= i < m ensures key(t[i]) >= key(y) {
      assert y in multiset(rest);
      var j :| 0 <= j < |rest| && rest[j] == y;
      assert t[m + j] == y;
    }
  }
}

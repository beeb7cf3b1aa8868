/**
  Python's `list.sort(reverse=True)` and `sorted(..., reverse=True)`: a stable
  sort into descending order of a key. The key is a score followed by a
  tie-break; a sort by the score alone gives every element the same tie-break.
 */
module Sorting {

  /** An element with its sort key. */
  datatype Ranked<T> = Ranked(score: real, tie: int, item: T)

  /** `a`'s key is smaller than `b`'s (Python's tuple comparison on `(score, tie)`). */
  predicate RankLt<T>(a: Ranked<T>, b: Ranked<T>) {
    a.score < b.score || (a.score == b.score && a.tie < b.tie)
  }

  predicate SameKey<T>(a: Ranked<T>, b: Ranked<T>) {
    a.score == b.score && a.tie == b.tie
  }

  ghost predicate SortedDesc<T>(s: seq<Ranked<T>>) {
    forall i, j | 0 <= i < j < |s| :: !RankLt(s[i], s[j])
  }

  /** Places `x` after every element whose key is at least `x`'s. */
  function Insert<T>(x: Ranked<T>, s: seq<Ranked<T>>): seq<Ranked<T>> {
    if s == [] then [x]
    else if RankLt(s[0], x) then [x] + s
    else [s[0]] + Insert(x, s[1..])
  }

  /** Stable descending sort: insert each element, in input order, into the sorted prefix. */
  function SortDesc<T>(s: seq<Ranked<T>>): seq<Ranked<T>> {
    if s == [] then []
    else
      var n := |s| - 1;
      Insert(s[n], SortDesc(s[..n]))
  }

  function Items<T>(s: seq<Ranked<T>>): (r: seq<T>)
    ensures |r| == |s| && forall i | 0 <= i < |s| :: r[i] == s[i].item
  {
    seq(|s|, i requires 0 <= i < |s| => s[i].item)
  }

  /** `s[:n]` for `n >= 0`. */
  function Take<T>(s: seq<T>, n: nat): (r: seq<T>)
    ensures |r| == if n < |s| then n else |s|
    ensures r <= s
  {
    if n < |s| then s[..n] else s
  }

  /** The elements of `s` whose key equals `key`'s, in order. */
  function WithKey<T>(s: seq<Ranked<T>>, key: Ranked<T>): seq<Ranked<T>> {
    if s == [] then []
    else
      var n := |s| - 1;
      WithKey(s[..n], key) + (if SameKey(s[n], key) then [s[n]] else [])
  }

  lemma {:induction false} InsertPerm<T>(x: Ranked<T>, s: seq<Ranked<T>>)
    ensures multiset(Insert(x, s)) == multiset(s) + multiset{x}
    ensures |Insert(x, s)| == |s| + 1
  {
    if s != [] && !RankLt(s[0], x) {
      InsertPerm(x, s[1..]);
      assert s == [s[0]] + s[1..];
    }
  }

  lemma {:induction false} InsertSorted<T>(x: Ranked<T>, s: seq<Ranked<T>>)
    requires SortedDesc(s)
    ensures SortedDesc(Insert(x, s))
  {
    if s != [] && !RankLt(s[0], x) {
      InsertSorted(x, s[1..]);
      InsertPerm(x, s[1..]);
      var r := Insert(x, s[1..]);
      forall j | 0 <= j < |r| ensures !RankLt(s[0], r[j]) {
        assert r[j] in multiset(r);
        assert r[j] == x || r[j] in s[1..];
      }
    }
  }

  /** The sort returns a permutation of its input, in descending key order. */
  lemma {:induction false} SortDescSpec<T>(s: seq<Ranked<T>>)
    ensures multiset(SortDesc(s)) == multiset(s)
    ensures |SortDesc(s)| == |s|
    ensures SortedDesc(SortDesc(s))
  {
    if s != [] {
      var n := |s| - 1;
      SortDescSpec(s[..n]);
      InsertPerm(s[n], SortDesc(s[..n]));
      InsertSorted(s[n], SortDesc(s[..n]));
      assert s == s[..n] + [s[n]];
    }
  }

  lemma {:induction false} WithKeyAppend<T>(s: seq<Ranked<T>>, t: seq<Ranked<T>>, key: Ranked<T>)
    ensures WithKey(s + t, key) == WithKey(s, key) + WithKey(t, key)
    decreases |t|
  {
    if t == [] {
      assert s + t == s;
    } else {
      var n := |t| - 1;
      WithKeyAppend(s, t[..n], key);
      assert (s + t)[..|s| + n] == s + t[..n];
      assert (s + t)[|s| + n] == t[n];
    }
  }

  lemma {:induction false} WithKeyNone<T>(s: seq<Ranked<T>>, key: Ranked<T>)
    requires forall i | 0 <= i < |s| :: !SameKey(s[i], key)
    ensures WithKey(s, key) == []
  {
    if s != [] {
      WithKeyNone(s[..|s| - 1], key);
    }
  }

  lemma {:induction false} InsertWithKey<T>(x: Ranked<T>, s: seq<Ranked<T>>, key: Ranked<T>)
    requires SortedDesc(s)
    ensures WithKey(Insert(x, s), key) == WithKey(s, key) + (if SameKey(x, key) then [x] else [])
  {
    if s == [] {
      assert WithKey([x], key) == WithKey([], key) + (if SameKey(x, key) then [x] else []);
    } else if RankLt(s[0], x) {
      WithKeyAppend([x], s, key);
      assert WithKey([x], key) == WithKey([], key) + (if SameKey(x, key) then [x] else []);
      if SameKey(x, key) {
        WithKeyNone(s, key);
      }
    } else {
      InsertWithKey(x, s[1..], key);
      WithKeyAppend([s[0]], Insert(x, s[1..]), key);
      WithKeyAppend([s[0]], s[1..], key);
      assert [s[0]] + s[1..] == s;
    }
  }

  /**
    Stability: for every key, the elements carrying that key come out of the
    sort in the order they went in.
   */
  lemma {:induction false} SortDescStable<T>(s: seq<Ranked<T>>, key: Ranked<T>)
    ensures WithKey(SortDesc(s), key) == WithKey(s, key)
  {
    if s != [] {
      var n := |s| - 1;
      SortDescStable(s[..n], key);
      SortDescSpec(s[..n]);
      InsertWithKey(s[n], SortDesc(s[..n]), key);
    }
  }

  ghost predicate DistinctItems<T>(s: seq<Ranked<T>>) {
    forall i, j | 0 <= i < j < |s| :: s[i].item != s[j].item
  }

  lemma {:induction false} DistinctItemsOnce<T>(s: seq<Ranked<T>>, e: Ranked<T>)
    requires DistinctItems(s)
    ensures multiset(s)[e] <= 1
  {
    if s != [] {
      var n := |s| - 1;
      DistinctItemsOnce(s[..n], e);
      assert s == s[..n] + [s[n]];
      assert s[n] !in s[..n];
    }
  }

  lemma DistinctItemsPerm<T>(s: seq<Ranked<T>>, r: seq<Ranked<T>>)
    requires multiset(r) == multiset(s)
    requires DistinctItems(s)
    ensures DistinctItems(r)
  {
    forall i, j | 0 <= i < j < |r| ensures r[i].item != r[j].item {
      assert r[i] in multiset(s) && r[j] in multiset(s);
      if r[i] == r[j] {
        assert r == r[..j] + [r[j]] + r[j + 1..];
        assert r[i] in r[..j];
        assert multiset(r)[r[i]] >= 2;
        DistinctItemsOnce(s, r[i]);
      } else {
        var a :| 0 <= a < |s| && s[a] == r[i];
        var b :| 0 <= b < |s| && s[b] == r[j];
        assert a != b;
      }
    }
  }

  /**
    The first `m` elements of the sort are a greatest `m`: none of them ranks
    below any element left out, and they are in descending order.
   */
  lemma TopPrefix<T>(s: seq<Ranked<T>>, m: nat)
    ensures var r := SortDesc(s);
            && |Take(r, m)| == (if m < |s| then m else |s|)
            && multiset(Take(r, m)) <= multiset(s)
            && SortedDesc(Take(r, m))
            && (forall i, j | 0 <= i < |Take(r, m)| <= j < |r| :: !RankLt(r[i], r[j]))
  {
    var r := SortDesc(s);
    SortDescSpec(s);
    assert r == Take(r, m) + r[|Take(r, m)|..];
    assert multiset(r) == multiset(Take(r, m)) + multiset(r[|Take(r, m)|..]);
  }

  /**
    The first `m` entries of the stable descending sort: `min(m, |s|)` entries of `s`, in
    order, none below an entry left out, and with the entries of each key in
    their original relative order.
   */
  lemma TopOfSort<T>(s: seq<Ranked<T>>, m: nat)
    ensures var r := SortDesc(s);
            var t := Take(r, m);
            && |t| == (if m < |s| then m else |s|)
            && (forall i | 0 <= i < |t| :: t[i] in s)
            && SortedDesc(t)
            && (forall i, j | 0 <= i < |t| <= j < |r| :: !RankLt(t[i], r[j]))
            && (forall key :: WithKey(t, key) <= WithKey(s, key))
  {
    var r := SortDesc(s);
    var t := Take(r, m);
    SortDescSpec(s);
    TopPrefix(s, m);
    forall i | 0 <= i < |t| ensures t[i] in s {
      assert t[i] == r[i];
      assert r[i] in multiset(s);
    }
    forall key ensures WithKey(t, key) <= WithKey(s, key) {
      assert r == t + r[|t|..];
      WithKeyAppend(t, r[|t|..], key);
      SortDescStable(s, key);
    }
  }
}

/** The optional value returned by a dictionary lookup. */
module Wrappers {
  datatype Option<+T> = None | Some(value: T)
}

/**
  Python dictionaries, which remember insertion order, as sequences of
  (key, value) entries. Assigning to a present key keeps its position;
  assigning to an absent key appends it.
 */
module Dicts {
  import opened Wrappers

  type Dict<K, V> = seq<(K, V)>

  function Keys<K, V>(d: Dict<K, V>): (ks: seq<K>)
    ensures |ks| == |d|
    ensures forall i | 0 <= i < |d| :: ks[i] == d[i].0
  {
    seq(|d|, i requires 0 <= i < |d| => d[i].0)
  }

  ghost predicate Distinct<T>(s: seq<T>) {
    forall i, j | 0 <= i < j < |s| :: s[i] != s[j]
  }

  ghost predicate DistinctKeys<K, V>(d: Dict<K, V>) {
    Distinct(Keys(d))
  }

  /** Position of the first occurrence of `x` in `s`, or `|s|` when absent. */
  function IndexOf<T(==)>(s: seq<T>, x: T): (i: nat)
    ensures i <= |s|
    ensures i < |s| ==> s[i] == x
    ensures i == |s| <==> x !in s
    ensures forall j | 0 <= j < i :: s[j] != x
  {
    if s == [] then 0
    else if s[0] == x then 0
    else 1 + IndexOf(s[1..], x)
  }

  /** `d.get(k)` */
  function Get<K(==), V>(d: Dict<K, V>, k: K): (r: Option<V>)
    ensures r.Some? <==> k in Keys(d)
  {
    var i := IndexOf(Keys(d), k);
    if i < |d| then Some(d[i].1) else None
  }

  /** `d.get(k, default)` */
  function GetOr<K(==), V>(d: Dict<K, V>, k: K, default: V): V {
    match Get(d, k)
    case Some(v) => v
    case None => default
  }

  lemma GetAt<K, V>(d: Dict<K, V>, i: nat)
    requires DistinctKeys(d) && i < |d|
    ensures Get(d, d[i].0) == Some(d[i].1)
  {
    var ks := Keys(d);
    assert ks[i] == d[i].0;
  }

  /** `d[k] = v` */
  function Put<K(==), V>(d: Dict<K, V>, k: K, v: V): (r: Dict<K, V>)
    ensures Get(r, k) == Some(v)
    ensures k in Keys(d) ==> Keys(r) == Keys(d)
    ensures k !in Keys(d) ==> r == d + [(k, v)] && Keys(r) == Keys(d) + [k]
    ensures DistinctKeys(d) ==> DistinctKeys(r)
  {
    var ks := Keys(d);
    var i := IndexOf(ks, k);
    if i < |d| then
      var r := d[i := (k, v)];
      assert Keys(r) == ks;
      r
    else
      var r := d + [(k, v)];
      assert Keys(r) == ks + [k];
      r
  }

  /** Assigning to one key leaves every other key's value alone. */
  lemma GetPutOther<K, V>(d: Dict<K, V>, k: K, v: V, k': K)
    requires k' != k
    ensures Get(Put(d, k, v), k') == Get(d, k')
  {
    var ks := Keys(d);
    if k !in ks && k' in ks {
      IndexOfPrefix(ks, [k], k');
    }
  }

  lemma {:induction false} IndexOfPrefix<T>(s: seq<T>, t: seq<T>, x: T)
    requires x in s
    ensures IndexOf(s + t, x) == IndexOf(s, x)
  {
    if s[0] != x {
      assert (s + t)[1..] == s[1..] + t;
      IndexOfPrefix(s[1..], t, x);
    }
  }

  /** `defaultdict(list)`: `d[k].append(v)`. */
  function Append<K(==), V>(d: Dict<K, seq<V>>, k: K, v: V): Dict<K, seq<V>> {
    Put(d, k, GetOr(d, k, []) + [v])
  }

  /** The dictionary a loop of `d[k].append(v)` over `ps` builds from an empty `defaultdict(list)`. */
  function GroupPairs<K(==), V>(ps: seq<(K, V)>): Dict<K, seq<V>> {
    if ps == [] then []
    else
      var n := |ps| - 1;
      Append(GroupPairs(ps[..n]), ps[n].0, ps[n].1)
  }

  /** One more pair appends its value to its key's list. */
  lemma GroupPairsSnoc<K, V>(ps: seq<(K, V)>, p: (K, V))
    ensures GroupPairs(ps + [p]) == Append(GroupPairs(ps), p.0, p.1)
  {
    assert (ps + [p])[..|ps|] == ps;
  }

  /** The values paired with `k` in `ps`, in order. */
  function ValuesWithKey<K(==), V>(ps: seq<(K, V)>, k: K): seq<V> {
    if ps == [] then []
    else
      var n := |ps| - 1;
      ValuesWithKey(ps[..n], k) + (if ps[n].0 == k then [ps[n].1] else [])
  }

  /** The elements of `s` without repetitions, each where it first appears. */
  function Dedup<T(==)>(s: seq<T>): seq<T> {
    if s == [] then []
    else
      var n := |s| - 1;
      var r := Dedup(s[..n]);
      if s[n] in r then r else r + [s[n]]
  }

  lemma {:induction false} DedupSpec<T>(s: seq<T>)
    ensures Distinct(Dedup(s))
    ensures forall x :: x in Dedup(s) <==> x in s
  {
    if s != [] {
      var n := |s| - 1;
      DedupSpec(s[..n]);
      assert s == s[..n] + [s[n]];
    }
  }

  lemma {:induction false} ValuesWithKeyEmpty<K, V>(ps: seq<(K, V)>, k: K)
    ensures ValuesWithKey(ps, k) == [] <==> k !in Keys(ps)
  {
    if ps != [] {
      var n := |ps| - 1;
      ValuesWithKeyEmpty(ps[..n], k);
      assert Keys(ps) == Keys(ps[..n]) + [ps[n].0];
    }
  }

  /**
    Grouping with `defaultdict(list)` keeps the keys of `ps` in order of first
    appearance, each once.
   */
  lemma {:induction false} GroupPairsKeys<K, V>(ps: seq<(K, V)>)
    ensures Keys(GroupPairs(ps)) == Dedup(Keys(ps))
    ensures DistinctKeys(GroupPairs(ps))
  {
    if ps != [] {
      var n := |ps| - 1;
      GroupPairsKeys(ps[..n]);
      assert Keys(ps)[..n] == Keys(ps[..n]);
    }
    DedupSpec(Keys(ps));
  }

  /** Each key of a grouping holds exactly the values paired with it, in their original order. */
  lemma {:induction false} GroupPairsGet<K, V>(ps: seq<(K, V)>, k: K)
    ensures Get(GroupPairs(ps), k) == if k in Keys(ps) then Some(ValuesWithKey(ps, k)) else None
  {
    if ps != [] {
      var n := |ps| - 1;
      var g0 := GroupPairs(ps[..n]);
      GroupPairsGet(ps[..n], k);
      ValuesWithKeyEmpty(ps[..n], k);
      assert Keys(ps) == Keys(ps[..n]) + [ps[n].0];
      assert GroupPairs(ps) == Append(g0, ps[n].0, ps[n].1);
      if k != ps[n].0 {
        GetPutOther(g0, ps[n].0, GetOr(g0, ps[n].0, []) + [ps[n].1], k);
        assert ValuesWithKey(ps, k) == ValuesWithKey(ps[..n], k) + [];
        assert ValuesWithKey(ps, k) == ValuesWithKey(ps[..n], k);
        assert Get(GroupPairs(ps), k) == Get(g0, k);
        assert (k in Keys(ps)) == (k in Keys(ps[..n]));
      } else {
        assert GetOr(g0, k, []) == ValuesWithKey(ps[..n], k);
        assert ValuesWithKey(ps, k) == ValuesWithKey(ps[..n], k) + [ps[n].1];
      }
    }
  }

  /** Every entry of a grouping holds the values paired with its key. */
  lemma GroupPairsEntry<K, V>(ps: seq<(K, V)>, i: nat)
    requires i < |GroupPairs(ps)|
    ensures GroupPairs(ps)[i].0 in Keys(ps)
    ensures GroupPairs(ps)[i].1 == ValuesWithKey(ps, GroupPairs(ps)[i].0)
    ensures GroupPairs(ps)[i].1 != []
  {
    var g := GroupPairs(ps);
    GroupPairsKeys(ps);
    GetAt(g, i);
    GroupPairsGet(ps, g[i].0);
    ValuesWithKeyEmpty(ps, g[i].0);
  }

  /** A dict comprehension `{k: v for (k, v) in ps}`: later pairs overwrite earlier ones. */
  function FromPairs<K(==), V>(ps: seq<(K, V)>): Dict<K, V> {
    if ps == [] then []
    else
      var n := |ps| - 1;
      Put(FromPairs(ps[..n]), ps[n].0, ps[n].1)
  }

  /** The value of the last pair in `ps` whose key is `k`. */
  function LastValue<K(==), V>(ps: seq<(K, V)>, k: K): Option<V> {
    if ps == [] then None
    else
      var n := |ps| - 1;
      if ps[n].0 == k then Some(ps[n].1) else LastValue(ps[..n], k)
  }

  /** A comprehension keeps, for every key, the value of the last pair with that key. */
  lemma {:induction false} FromPairsGet<K, V>(ps: seq<(K, V)>, k: K)
    ensures Get(FromPairs(ps), k) == LastValue(ps, k)
    ensures LastValue(ps, k).Some? <==> k in Keys(ps)
    ensures DistinctKeys(FromPairs(ps))
  {
    if ps != [] {
      var n := |ps| - 1;
      FromPairsGet(ps[..n], k);
      assert Keys(ps) == Keys(ps[..n]) + [ps[n].0];
      if k != ps[n].0 {
        GetPutOther(FromPairs(ps[..n]), ps[n].0, ps[n].1, k);
      }
    }
  }

  /** The value found is that of the last pair carrying the key. */
  lemma {:induction false} LastValueIn<K, V>(ps: seq<(K, V)>, k: K)
    requires LastValue(ps, k).Some?
    ensures exists i | 0 <= i < |ps| :: ps[i] == (k, LastValue(ps, k).value) && forall j | i < j < |ps| :: ps[j].0 != k
  {
    var n := |ps| - 1;
    if ps[n].0 != k {
      LastValueIn(ps[..n], k);
      var i :| 0 <= i < n && ps[..n][i] == (k, LastValue(ps, k).value) && forall j | i < j < n :: ps[..n][j].0 != k;
      assert ps[i] == ps[..n][i];
      forall j | i < j < |ps| ensures ps[j].0 != k {
        if j < n {
          assert ps[..n][j] == ps[j];
        }
      }
    } else {
      assert ps[n] == (k, LastValue(ps, k).value);
    }
  }
}

/**
  The bookkeeping around K-means in src/robotics_digest/clustering/clustering.py:
  which messages are clustered, how labels become clusters, how cluster-local
  indices are mapped back, and how each cluster's representatives are chosen.

  The K-means fit is not modelled: wherever the source calls `fit_predict`,
  the model takes the label sequence it would return as a parameter, one
  label per clustered message. The embedding matrix only feeds that fit, so
  it is not a parameter here.
 */
module Clustering {
  import opened Wrappers
  import opened Dicts
  import opened Models
  import opened Sorting

  /** Cluster id -> indices of its member messages, in insertion order of the ids. */
  type Clusters = Dict<nat, seq<nat>>

  /** Minimum number of window messages `cluster_relevant_period` clusters at all. */
  const MIN_WINDOW: nat := 50

  /** Number of representatives `cluster_for_day` keeps per cluster. */
  const MAX_PER_CLUSTER: nat := 3

  ghost predicate StrictlyAscending(s: seq<nat>) {
    forall i, j | 0 <= i < j < |s| :: s[i] < s[j]
  }

  /** `list(range(n))` */
  function Iota(n: nat): (r: seq<nat>)
    ensures |r| == n && forall i | 0 <= i < n :: r[i] == i
  {
    seq(n, i requires 0 <= i < n => i as nat)
  }

  /** Every member of every cluster is below `n`. */
  ghost predicate MembersBelow(c: Clusters, n: int) {
    forall k, j | 0 <= k < |c| && 0 <= j < |c[k].1| :: c[k].1[j] < n
  }

  /**
    `c` splits `universe`: distinct ids, every list non-empty and strictly
    ascending, every member in the universe, every element of the universe in
    some list, and no element in two lists.
   */
  ghost predicate PartitionOf(c: Clusters, universe: seq<nat>) {
    && DistinctKeys(c)
    && DisjointLists(c)
    && (forall k | 0 <= k < |c| :: c[k].1 != [])
    && (forall k, j | 0 <= k < |c| && 0 <= j < |c[k].1| :: c[k].1[j] in universe)
    && (forall x | x in universe :: exists k | 0 <= k < |c| :: x in c[k].1)
  }

  /** Every list strictly ascending, and no element in two lists. */
  ghost predicate DisjointLists(c: Clusters) {
    && (forall k | 0 <= k < |c| :: StrictlyAscending(c[k].1))
    && (forall k1, k2, x | 0 <= k1 < k2 < |c| && x in c[k1].1 :: x !in c[k2].1)
  }

  /** `[i for i, f in enumerate(flags) if f]` */
  function IndicesWhere(flags: seq<bool>): (r: seq<nat>)
    ensures StrictlyAscending(r)
    ensures forall j | 0 <= j < |r| :: r[j] < |flags|
    ensures forall i :: i in r <==> 0 <= i < |flags| && flags[i]
  {
    if flags == [] then []
    else
      var n := |flags| - 1;
      IndicesWhere(flags[..n]) + (if flags[n] then [n] else [])
  }

  /** `[s[i] for i in idxs]` */
  function Gather<T>(s: seq<T>, idxs: seq<nat>): (r: seq<T>)
    requires forall j | 0 <= j < |idxs| :: idxs[j] < |s|
    ensures |r| == |idxs|
  {
    seq(|idxs|, j requires 0 <= j < |idxs| => s[idxs[j]])
  }

  /** `day_filter`: the messages whose day offset from 2025-01-01 00:00 is `day`. */
  function DayFilter(messages: seq<Message>, day: int): (idxs: seq<nat>)
    ensures StrictlyAscending(idxs)
    ensures forall j | 0 <= j < |idxs| :: idxs[j] < |messages|
    ensures forall i :: i in idxs <==> 0 <= i < |messages| && DayOffset(messages[i].ts, EPOCH_2025) == day
  {
    IndicesWhere(seq(|messages|, i requires 0 <= i < |messages| => DayOffset(messages[i].ts, EPOCH_2025) == day))
  }

  /**
    The window of `cluster_relevant_period`: the messages whose day offset from
    the first message is in `[startDay, startDay + days)`.
   */
  function WindowIdxs(messages: seq<Message>, startDay: int, days: int): (idxs: seq<nat>)
    requires |messages| > 0
    ensures StrictlyAscending(idxs)
    ensures forall j | 0 <= j < |idxs| :: idxs[j] < |messages|
    ensures forall i :: i in idxs <==>
      0 <= i < |messages| && startDay <= DayOffset(messages[i].ts, messages[0].ts) < startDay + days
  {
    IndicesWhere(seq(|messages|, i requires 0 <= i < |messages| =>
      startDay <= DayOffset(messages[i].ts, messages[0].ts) < startDay + days))
  }

  // ---------------------------------------------------------------------
  // cluster_messages

  /** `{i: [i] for i in range(n)}` */
  function TrivialPartition(n: nat): Clusters {
    seq(n, i requires 0 <= i < n => (i as nat, [i as nat]))
  }

  /** The (label, index) pairs the grouping loop visits. */
  function LabelPairs(labels: seq<nat>): seq<(nat, nat)> {
    seq(|labels|, i requires 0 <= i < |labels| => (labels[i], i as nat))
  }

  /** The `defaultdict(list)` the label loop builds. */
  function GroupByLabel(labels: seq<nat>): Clusters {
    GroupPairs(LabelPairs(labels))
  }

  /** The clusters `cluster_messages` returns for `n` messages and the fit's `labels`. */
  function ClusterSpec(n: nat, nClusters: int, labels: seq<nat>): Clusters
    requires |labels| == n
  {
    if n <= nClusters then TrivialPartition(n) else GroupByLabel(labels)
  }

  /** With no more messages than clusters, every message is its own cluster, keyed by its index. */
  lemma TrivialPartitionSpec(n: nat)
    ensures |TrivialPartition(n)| == n
    ensures Keys(TrivialPartition(n)) == Iota(n)
    ensures forall i: nat | i < n :: Get(TrivialPartition(n), i) == Some([i])
    ensures forall i: nat | i >= n :: Get(TrivialPartition(n), i) == None
    ensures PartitionOf(TrivialPartition(n), Iota(n))
  {
    var c := TrivialPartition(n);
    assert DistinctKeys(c);
    forall i: nat | i < n ensures Get(c, i) == Some([i]) {
      GetAt(c, i);
    }
    forall x | x in Iota(n) ensures exists k | 0 <= k < |c| :: x in c[k].1 {
      assert x in c[x].1;
    }
  }

  /** The members of label `k` are the indices labelled `k`, in ascending order. */
  lemma {:induction false} LabelMembers(labels: seq<nat>, k: nat)
    ensures StrictlyAscending(ValuesWithKey(LabelPairs(labels), k))
    ensures forall x: nat :: x in ValuesWithKey(LabelPairs(labels), k) <==> x < |labels| && labels[x] == k
  {
    if labels != [] {
      var n := |labels| - 1;
      LabelMembers(labels[..n], k);
      assert LabelPairs(labels)[..n] == LabelPairs(labels[..n]);
      var pre := ValuesWithKey(LabelPairs(labels[..n]), k);
      forall j | 0 <= j < |pre| ensures pre[j] < n {
        assert pre[j] in pre;
      }
    }
  }

  /** Cluster `k` of the grouping is non-empty and holds exactly the indices labelled with its id, ascending. */
  lemma GroupByLabelEntry(labels: seq<nat>, k: nat)
    requires k < |GroupByLabel(labels)|
    ensures GroupByLabel(labels)[k].1 != []
    ensures StrictlyAscending(GroupByLabel(labels)[k].1)
    ensures forall x: nat :: x in GroupByLabel(labels)[k].1 <==> x < |labels| && labels[x] == GroupByLabel(labels)[k].0
  {
    var c := GroupByLabel(labels);
    GroupPairsEntry(LabelPairs(labels), k);
    assert c[k].1 == ValuesWithKey(LabelPairs(labels), c[k].0);
    LabelMembers(labels, c[k].0);
  }

  /** The cluster ids are the labels that occur, each once, in order of first occurrence. */
  lemma GroupByLabelKeys(labels: seq<nat>)
    ensures Keys(GroupByLabel(labels)) == Dedup(labels)
    ensures DistinctKeys(GroupByLabel(labels))
    ensures forall l :: l in Keys(GroupByLabel(labels)) <==> l in labels
  {
    assert Keys(LabelPairs(labels)) == labels;
    GroupPairsKeys(LabelPairs(labels));
    DedupSpec(labels);
  }

  /**
    Grouping by label partitions the message indices; the cluster ids are the
    labels that occur, in order of first occurrence, and each cluster holds
    exactly the indices labelled with its id.
   */
  lemma GroupByLabelSpec(labels: seq<nat>)
    ensures Keys(GroupByLabel(labels)) == Dedup(labels)
    ensures forall k, x: nat | 0 <= k < |GroupByLabel(labels)| ::
      x in GroupByLabel(labels)[k].1 <==> x < |labels| && labels[x] == GroupByLabel(labels)[k].0
    ensures PartitionOf(GroupByLabel(labels), Iota(|labels|))
  {
    var c := GroupByLabel(labels);
    GroupByLabelKeys(labels);
    forall k | 0 <= k < |c|
      ensures c[k].1 != [] && StrictlyAscending(c[k].1)
      ensures forall x: nat :: x in c[k].1 <==> x < |labels| && labels[x] == c[k].0
    {
      GroupByLabelEntry(labels, k);
    }
    GroupByLabelCovers(labels);
  }

  /** Every list holds indices only, and every index is in some list. */
  lemma GroupByLabelCovers(labels: seq<nat>)
    ensures var c := GroupByLabel(labels);
            forall k, j | 0 <= k < |c| && 0 <= j < |c[k].1| :: c[k].1[j] in Iota(|labels|)
    ensures var c := GroupByLabel(labels);
            forall x | x in Iota(|labels|) :: exists k | 0 <= k < |c| :: x in c[k].1
  {
    var c := GroupByLabel(labels);
    GroupByLabelKeys(labels);
    forall k, j | 0 <= k < |c| && 0 <= j < |c[k].1| ensures c[k].1[j] in Iota(|labels|) {
      GroupByLabelEntry(labels, k);
      assert c[k].1[j] in c[k].1;
      assert Iota(|labels|)[c[k].1[j]] == c[k].1[j];
    }
    forall x | x in Iota(|labels|) ensures exists k | 0 <= k < |c| :: x in c[k].1 {
      assert labels[x] in Keys(c);
      var k :| 0 <= k < |c| && Keys(c)[k] == labels[x];
      GroupByLabelEntry(labels, k);
    }
  }

  /** Whichever branch `cluster_messages` takes, its clusters partition the message indices. */
  lemma ClusterSpecPartition(n: nat, nClusters: int, labels: seq<nat>)
    requires |labels| == n
    ensures PartitionOf(ClusterSpec(n, nClusters, labels), Iota(n))
    ensures MembersBelow(ClusterSpec(n, nClusters, labels), n)
  {
    if n <= nClusters {
      TrivialPartitionSpec(n);
    } else {
      GroupByLabelSpec(labels);
    }
    var c := ClusterSpec(n, nClusters, labels);
    forall k, j | 0 <= k < |c| && 0 <= j < |c[k].1| ensures c[k].1[j] < n {
      assert c[k].1[j] in Iota(n);
    }
  }

  /** One more label adds one more (label, index) pair at the end. */
  lemma LabelPairsStep(labels: seq<nat>, idx: nat)
    requires idx < |labels|
    ensures LabelPairs(labels[..idx + 1]) == LabelPairs(labels[..idx]) + [(labels[idx], idx)]
  {
    var a, b := LabelPairs(labels[..idx + 1]), LabelPairs(labels[..idx]) + [(labels[idx], idx)];
    assert forall j | 0 <= j < |a| :: a[j] == b[j];
  }

  lemma GroupByLabelStep(labels: seq<nat>, idx: nat)
    requires idx < |labels|
    ensures GroupByLabel(labels[..idx + 1]) == Append(GroupByLabel(labels[..idx]), labels[idx], idx)
  {
    LabelPairsStep(labels, idx);
    GroupPairsSnoc(LabelPairs(labels[..idx]), (labels[idx], idx));
  }

  /** The label loop of `cluster_messages`: `clusters[int(label)].append(idx)`. */
  method GroupLabels(labels: seq<nat>) returns (clusters: Clusters)
    ensures clusters == GroupByLabel(labels)
  {
    clusters := [];
    for idx := 0 to |labels|
      invariant clusters == GroupByLabel(labels[..idx])
    {
      GroupByLabelStep(labels, idx);
      clusters := Append(clusters, labels[idx], idx);
    }
    assert labels[..|labels|] == labels;
  }

  /** `cluster_messages`, with `labels` standing for `KMeans.fit_predict`'s result. */
  method ClusterMessages(messages: seq<Message>, nClusters: int, labels: seq<nat>) returns (clusters: Clusters)
    requires |labels| == |messages|
    ensures clusters == ClusterSpec(|messages|, nClusters, labels)
    ensures PartitionOf(clusters, Iota(|messages|))
  {
    ClusterSpecPartition(|messages|, nClusters, labels);
    if |messages| <= nClusters {
      return TrivialPartition(|messages|);
    }
    clusters := GroupLabels(labels);
  }

  // ---------------------------------------------------------------------
  // cluster_relevant_period

  /** Replaces every window-local index by the global index it stands for. */
  function Remap(c: Clusters, window: seq<nat>): (g: Clusters)
    requires MembersBelow(c, |window|)
    ensures |g| == |c|
  {
    seq(|c|, k requires 0 <= k < |c| => (c[k].0, Gather(window, c[k].1)))
  }

  /** The map `cluster_relevant_period` returns, given the fit's labels for the window. */
  function RelevantPeriod(messages: seq<Message>, startDay: int, days: int, nClusters: int,
                          windowLabels: seq<nat>): Clusters
    requires |messages| > 0
    requires |windowLabels| == |WindowIdxs(messages, startDay, days)|
  {
    var w := WindowIdxs(messages, startDay, days);
    if |w| < MIN_WINDOW then []
    else
      ClusterSpecPartition(|w|, nClusters, windowLabels);
      Remap(ClusterSpec(|w|, nClusters, windowLabels), w)
  }

  /** Mapping a partition of the window positions through the window partitions the window. */
  lemma RemapPartition(c: Clusters, window: seq<nat>)
    requires PartitionOf(c, Iota(|window|))
    requires StrictlyAscending(window)
    ensures Keys(Remap(c, window)) == Keys(c)
    ensures PartitionOf(Remap(c, window), window)
  {
    var g := Remap(c, window);
    assert Keys(g) == Keys(c);
    RemapLists(c, window);
    RemapCovers(c, window);
    RemapDisjoint(c, window);
  }

  /** Every remapped list is non-empty, strictly ascending and inside the window. */
  lemma RemapLists(c: Clusters, window: seq<nat>)
    requires PartitionOf(c, Iota(|window|))
    requires StrictlyAscending(window)
    ensures var g := Remap(c, window);
            forall k | 0 <= k < |g| :: g[k].1 != [] && StrictlyAscending(g[k].1)
    ensures var g := Remap(c, window);
            forall k, j | 0 <= k < |g| && 0 <= j < |g[k].1| :: g[k].1[j] in window
  {
    var g := Remap(c, window);
    forall k | 0 <= k < |g| ensures g[k].1 != [] && StrictlyAscending(g[k].1) {
      assert c[k].1[0] in c[k].1;
    }
  }

  /** Every window index lands in some remapped list. */
  lemma RemapCovers(c: Clusters, window: seq<nat>)
    requires PartitionOf(c, Iota(|window|))
    ensures var g := Remap(c, window);
            forall y | y in window :: exists k | 0 <= k < |g| :: y in g[k].1
  {
    var g := Remap(c, window);
    forall y | y in window ensures exists k | 0 <= k < |g| :: y in g[k].1 {
      var x: nat :| x < |window| && window[x] == y;
      assert Iota(|window|)[x] == x && Iota(|window|)[x] in Iota(|window|);
      var k :| 0 <= k < |c| && x in c[k].1;
      var j :| 0 <= j < |c[k].1| && c[k].1[j] == x;
      assert g[k].1[j] == y;
    }
  }

  /** Different remapped lists share no index. */
  lemma RemapDisjoint(c: Clusters, window: seq<nat>)
    requires PartitionOf(c, Iota(|window|))
    requires StrictlyAscending(window)
    ensures var g := Remap(c, window);
            forall k1, k2, y | 0 <= k1 < k2 < |g| && y in g[k1].1 :: y !in g[k2].1
  {
    var g := Remap(c, window);
    forall k1, k2, y | 0 <= k1 < k2 < |g| && y in g[k1].1 ensures y !in g[k2].1 {
      var a :| 0 <= a < |g[k1].1| && g[k1].1[a] == y;
      forall b | 0 <= b < |g[k2].1| ensures g[k2].1[b] != y {
        RemapApart(c, window, k1, k2, a, b);
      }
    }
  }

  /** Members of two different clusters land on different window entries. */
  lemma RemapApart(c: Clusters, window: seq<nat>, k1: nat, k2: nat, a: nat, b: nat)
    requires DisjointLists(c) && StrictlyAscending(window) && MembersBelow(c, |window|)
    requires k1 < k2 < |c| && a < |c[k1].1| && b < |c[k2].1|
    ensures window[c[k1].1[a]] != window[c[k2].1[b]]
  {
    var x1, x2 := c[k1].1[a], c[k2].1[b];
    assert x1 in c[k1].1 && x2 in c[k2].1;
    assert x1 != x2;
  }

  /**
    `cluster_relevant_period` returns nothing when fewer than 50 messages fall
    in the window; otherwise its clusters partition exactly the window's
    messages, under the ids the local clustering chose.
   */
  lemma RelevantPeriodSpec(messages: seq<Message>, startDay: int, days: int, nClusters: int,
                           windowLabels: seq<nat>)
    requires |messages| > 0
    requires |windowLabels| == |WindowIdxs(messages, startDay, days)|
    ensures var w := WindowIdxs(messages, startDay, days);
            var r := RelevantPeriod(messages, startDay, days, nClusters, windowLabels);
            && (|w| < MIN_WINDOW ==> r == [])
            && (|w| >= MIN_WINDOW ==>
                  && Keys(r) == Keys(ClusterSpec(|w|, nClusters, windowLabels))
                  && PartitionOf(r, w))
  {
    var w := WindowIdxs(messages, startDay, days);
    if |w| >= MIN_WINDOW {
      ClusterSpecPartition(|w|, nClusters, windowLabels);
      RemapPartition(ClusterSpec(|w|, nClusters, windowLabels), w);
    }
  }

  /** `cluster_relevant_period`, with `windowLabels` standing for the fit on the window. */
  method ClusterRelevantPeriod(messages: seq<Message>, startDay: int, days: int, nClusters: int,
                               windowLabels: seq<nat>) returns (globalClusters: Clusters)
    requires |messages| > 0
    requires |windowLabels| == |WindowIdxs(messages, startDay, days)|
    ensures globalClusters == RelevantPeriod(messages, startDay, days, nClusters, windowLabels)
  {
    var windowIdxs := WindowIdxs(messages, startDay, days);
    if |windowIdxs| < MIN_WINDOW {
      return [];
    }
    var clusters := ClusterMessages(Gather(messages, windowIdxs), nClusters, windowLabels);
    ClusterSpecPartition(|windowIdxs|, nClusters, windowLabels);
    globalClusters := RemapToGlobal(clusters, windowIdxs);
  }

  /** Remapping one more cluster appends its remapped entry, since its id is new. */
  lemma RemapStep(c: Clusters, window: seq<nat>, k: nat)
    requires MembersBelow(c, |window|) && DistinctKeys(c) && k < |c|
    ensures Put(Remap(c[..k], window), c[k].0, Gather(window, c[k].1)) == Remap(c[..k + 1], window)
  {
    var g := Remap(c[..k], window);
    assert Keys(g) == Keys(c)[..k];
    assert c[k].0 == Keys(c)[k];
    assert c[k].0 !in Keys(g);
    assert c[..k + 1] == c[..k] + [c[k]];
  }

  /** The loop `global_clusters[cid] = [window_idxs[i] for i in local_idxs]`. */
  method RemapToGlobal(clusters: Clusters, windowIdxs: seq<nat>) returns (globalClusters: Clusters)
    requires MembersBelow(clusters, |windowIdxs|) && DistinctKeys(clusters)
    ensures globalClusters == Remap(clusters, windowIdxs)
  {
    globalClusters := [];
    for k := 0 to |clusters|
      invariant globalClusters == Remap(clusters[..k], windowIdxs)
    {
      RemapStep(clusters, windowIdxs, k);
      globalClusters := Put(globalClusters, clusters[k].0, Gather(windowIdxs, clusters[k].1));
    }
    assert clusters[..|clusters|] == clusters;
  }

  // ---------------------------------------------------------------------
  // select_representatives

  /** A message's salience: 3 for a decision, 2 for a risk, 2 for a blocker, 1 per reaction. */
  function Salience(m: Message): int {
    (if m.isDecision then 3 else 0) + (if m.isRisk then 2 else 0) + (if m.isBlocker then 2 else 0)
    + |m.reactions|
  }

  function Scores(messages: seq<Message>): (scores: seq<int>)
    ensures |scores| == |messages|
  {
    seq(|messages|, i requires 0 <= i < |messages| => Salience(messages[i]))
  }

  /** Every element carries its own index's score and no tie-break. */
  ghost predicate ScoredBy(rs: seq<Ranked<nat>>, scores: seq<int>) {
    forall e | e in rs :: e.item < |scores| && e.score == scores[e.item] as real && e.tie == 0
  }

  /** The indices of a cluster with their scores as sort keys (no tie-break). */
  function RankByScore(scores: seq<int>, idxs: seq<nat>): (rs: seq<Ranked<nat>>)
    requires forall j | 0 <= j < |idxs| :: idxs[j] < |scores|
    ensures Items(rs) == idxs
    ensures ScoredBy(rs, scores)
  {
    seq(|idxs|, j requires 0 <= j < |idxs| => Ranked(scores[idxs[j]] as real, 0, idxs[j]))
  }

  /** Sorting keeps every element, so it keeps the elements' scores. */
  lemma SortScoredBy(rs: seq<Ranked<nat>>, scores: seq<int>)
    requires ScoredBy(rs, scores)
    ensures |SortDesc(rs)| == |rs|
    ensures forall i | 0 <= i < |rs| :: SortDesc(rs)[i] in rs
    ensures ScoredBy(SortDesc(rs), scores)
  {
    SortDescSpec(rs);
    var r := SortDesc(rs);
    forall i | 0 <= i < |rs| ensures r[i] in rs {
      assert r[i] in multiset(rs);
    }
    forall e | e in r ensures e in rs {
      assert e in multiset(rs);
    }
  }

  /**
    `sorted(idxs, key=lambda i: scores[i], reverse=True)[:maxPer]`: at most
    `maxPer` of the cluster's own members.
   */
  function TopOfCluster(scores: seq<int>, idxs: seq<nat>, maxPer: nat): (top: seq<nat>)
    requires forall j | 0 <= j < |idxs| :: idxs[j] < |scores|
    ensures |top| == if maxPer < |idxs| then maxPer else |idxs|
    ensures forall i | 0 <= i < |top| :: top[i] in idxs && top[i] < |scores|
  {
    var rs := RankByScore(scores, idxs);
    SortScoredBy(rs, scores);
    Take(Items(SortDesc(rs)), maxPer)
  }

  /** The representatives of every cluster, cluster blocks in the dict's order. */
  function Representatives(scores: seq<int>, c: Clusters, maxPer: nat): (reps: seq<nat>)
    requires MembersBelow(c, |scores|)
    ensures forall j | 0 <= j < |reps| :: reps[j] < |scores|
    ensures forall j | 0 <= j < |reps| :: exists k | 0 <= k < |c| :: reps[j] in c[k].1
  {
    if c == [] then []
    else
      var n := |c| - 1;
      Representatives(scores, c[..n], maxPer) + TopOfCluster(scores, c[n].1, maxPer)
  }

  /** The members of `xs` whose score is `s`, in order. */
  function WithScore(xs: seq<nat>, scores: seq<int>, s: int): seq<nat>
    requires forall j | 0 <= j < |xs| :: xs[j] < |scores|
  {
    if xs == [] then []
    else
      var n := |xs| - 1;
      WithScore(xs[..n], scores, s) + (if scores[xs[n]] == s then [xs[n]] else [])
  }

  lemma {:induction false} WithScoreItems(rs: seq<Ranked<nat>>, scores: seq<int>, s: int)
    requires ScoredBy(rs, scores)
    ensures WithScore(Items(rs), scores, s) == Items(WithKey(rs, Ranked(s as real, 0, 0)))
  {
    if rs != [] {
      var n := |rs| - 1;
      assert rs[n] in rs;
      WithScoreItems(rs[..n], scores, s);
      assert Items(rs)[..n] == Items(rs[..n]);
      var key := Ranked(s as real, 0, 0);
      var pre := WithKey(rs[..n], key);
      var last := if SameKey(rs[n], key) then [rs[n]] else [];
      assert Items(pre + last) == Items(pre) + Items(last);
    }
  }

  /**
    A cluster's representatives are in non-increasing score order, and none
    scores below a member of the cluster that was left out.
   */
  lemma TopOfClusterOrder(scores: seq<int>, idxs: seq<nat>, maxPer: nat)
    requires forall j | 0 <= j < |idxs| :: idxs[j] < |scores|
    ensures var top := TopOfCluster(scores, idxs, maxPer);
            && (forall i, j | 0 <= i < j < |top| :: scores[top[i]] >= scores[top[j]])
            && (forall i, x | 0 <= i < |top| && x in idxs && x !in top :: scores[top[i]] >= scores[x])
  {
    var rs := RankByScore(scores, idxs);
    var r := SortDesc(rs);
    var top := TopOfCluster(scores, idxs, maxPer);
    SortDescSpec(rs);
    SortScoredBy(rs, scores);
    TopPrefix(rs, maxPer);
    forall i | 0 <= i < |top| ensures top[i] == r[i].item && r[i].score == scores[top[i]] as real {
      assert r[i] in r;
    }
    forall i, x | 0 <= i < |top| && x in idxs && x !in top ensures scores[top[i]] >= scores[x] {
      var j :| 0 <= j < |idxs| && idxs[j] == x;
      assert rs[j] in multiset(r);
      var p :| 0 <= p < |r| && r[p] == rs[j];
    }
  }

  /** The elements of a key in a prefix of `r` are a prefix of that key's elements in `r`. */
  lemma WithKeyTake(r: seq<Ranked<nat>>, m: nat, key: Ranked<nat>)
    requires m <= |r|
    ensures WithKey(r[..m], key) <= WithKey(r, key)
  {
    assert r == r[..m] + r[m..];
    WithKeyAppend(r[..m], r[m..], key);
  }

  lemma ItemsPrefix(a: seq<Ranked<nat>>, b: seq<Ranked<nat>>)
    requires a <= b
    ensures Items(a) <= Items(b)
  {
    assert Items(b) == Items(a) + Items(b[|a|..]);
  }

  /**
    Equal scores keep their order: the representatives scoring `s` are the
    first members of the cluster scoring `s`, in the cluster's order.
   */
  lemma TopOfClusterStable(scores: seq<int>, idxs: seq<nat>, maxPer: nat, s: int)
    requires forall j | 0 <= j < |idxs| :: idxs[j] < |scores|
    ensures WithScore(TopOfCluster(scores, idxs, maxPer), scores, s) <= WithScore(idxs, scores, s)
  {
    var rs := RankByScore(scores, idxs);
    var r := SortDesc(rs);
    SortScoredBy(rs, scores);
    var key := Ranked(s as real, 0, 0);
    var m := if maxPer < |r| then maxPer else |r|;
    var tk := r[..m];
    assert Items(tk) == TopOfCluster(scores, idxs, maxPer);
    assert ScoredBy(tk, scores) by {
      forall e | e in tk ensures e in r {
      }
    }
    WithScoreItems(tk, scores, s);
    WithScoreItems(rs, scores, s);
    WithKeyTake(r, m, key);
    SortDescStable(rs, key);
    ItemsPrefix(WithKey(tk, key), WithKey(r, key));
  }

  /** Distinct members give distinct representatives. */
  lemma TopOfClusterDistinct(scores: seq<int>, idxs: seq<nat>, maxPer: nat)
    requires forall j | 0 <= j < |idxs| :: idxs[j] < |scores|
    requires Distinct(idxs)
    ensures Distinct(TopOfCluster(scores, idxs, maxPer))
  {
    var rs := RankByScore(scores, idxs);
    var r := SortDesc(rs);
    SortDescSpec(rs);
    assert DistinctItems(rs);
    DistinctItemsPerm(rs, r);
  }

  /** Over clusters whose lists are strictly ascending and pairwise disjoint, no index is selected twice. */
  lemma {:induction false} RepresentativesDistinct(scores: seq<int>, c: Clusters, maxPer: nat)
    requires DisjointLists(c)
    requires MembersBelow(c, |scores|)
    ensures Distinct(Representatives(scores, c, maxPer))
  {
    if c != [] {
      var n := |c| - 1;
      DisjointPrefix(c, n);
      RepresentativesDistinct(scores, c[..n], maxPer);
      AscendingDistinct(c[n].1);
      TopOfClusterDistinct(scores, c[n].1, maxPer);
      RepresentativesApart(scores, c, maxPer);
      DistinctConcat(Representatives(scores, c[..n], maxPer), TopOfCluster(scores, c[n].1, maxPer));
    }
  }

  lemma DisjointPrefix(c: Clusters, n: nat)
    requires DisjointLists(c) && n <= |c|
    ensures DisjointLists(c[..n])
  {
  }

  lemma AscendingDistinct(s: seq<nat>)
    requires StrictlyAscending(s)
    ensures Distinct(s)
  {
    forall i, j | 0 <= i < j < |s| ensures s[i] != s[j] {
      assert s[i] < s[j];
    }
  }

  /** The last cluster's representatives are apart from the earlier clusters' ones. */
  lemma RepresentativesApart(scores: seq<int>, c: Clusters, maxPer: nat)
    requires DisjointLists(c) && MembersBelow(c, |scores|) && c != []
    ensures var n := |c| - 1;
            var a := Representatives(scores, c[..n], maxPer);
            var b := TopOfCluster(scores, c[n].1, maxPer);
            forall i, j | 0 <= i < |a| && 0 <= j < |b| :: a[i] != b[j]
  {
    var n := |c| - 1;
    var pre := c[..n];
    var a := Representatives(scores, pre, maxPer);
    var b := TopOfCluster(scores, c[n].1, maxPer);
    forall i, j | 0 <= i < |a| && 0 <= j < |b| ensures a[i] != b[j] {
      var k :| 0 <= k < |pre| && a[i] in pre[k].1;
      assert a[i] in c[k].1 && b[j] in c[n].1;
    }
  }

  lemma DistinctConcat(a: seq<nat>, b: seq<nat>)
    requires Distinct(a) && Distinct(b)
    requires forall i, j | 0 <= i < |a| && 0 <= j < |b| :: a[i] != b[j]
    ensures Distinct(a + b)
  {
    forall i, j | 0 <= i < j < |a + b| ensures (a + b)[i] != (a + b)[j] {
      if j >= |a| {
        assert (a + b)[j] == b[j - |a|];
        if i >= |a| {
          assert (a + b)[i] == b[i - |a|];
        }
      }
    }
  }

  /** `select_representatives` */
  method SelectRepresentatives(messages: seq<Message>, clusters: Clusters, maxPerCluster: nat)
    returns (selected: seq<nat>)
    requires MembersBelow(clusters, |messages|)
    ensures selected == Representatives(Scores(messages), clusters, maxPerCluster)
  {
    var scores: seq<int> := [];
    for i := 0 to |messages|
      invariant scores == Scores(messages[..i])
    {
      var m := messages[i];
      var score := 0;
      if m.isDecision {
        score := score + 3;
      }
      if m.isRisk {
        score := score + 2;
      }
      if m.isBlocker {
        score := score + 2;
      }
      score := score + |m.reactions|;
      scores := scores + [score];
    }
    assert messages[..|messages|] == messages;
    selected := [];
    for k := 0 to |clusters|
      invariant selected == Representatives(scores, clusters[..k], maxPerCluster)
    {
      var idxs := clusters[k].1;
      assert forall j | 0 <= j < |idxs| :: idxs[j] in idxs;
      var idxsSorted := Items(SortDesc(RankByScore(scores, idxs)));
      selected := selected + Take(idxsSorted, maxPerCluster);
      assert clusters[..k + 1][..k] == clusters[..k];
    }
    assert clusters[..|clusters|] == clusters;
  }

  // ---------------------------------------------------------------------
  // cluster_for_day

  /** The global indices `cluster_for_day` returns, given the fit's labels for the day's messages. */
  function ForDay(day: int, messages: seq<Message>, nClusters: int, dayLabels: seq<nat>): seq<nat>
    requires |dayLabels| == |DayFilter(messages, day)|
  {
    var idxs := DayFilter(messages, day);
    if idxs == [] then []
    else
      var dayMsgs := Gather(messages, idxs);
      var c := ClusterSpec(|idxs|, nClusters, dayLabels);
      ClusterSpecPartition(|idxs|, nClusters, dayLabels);
      Gather(idxs, Representatives(Scores(dayMsgs), c, MAX_PER_CLUSTER))
  }

  /**
    `cluster_for_day` returns nothing on a day without messages; otherwise only
    messages of that day, none twice.
   */
  lemma ForDaySpec(day: int, messages: seq<Message>, nClusters: int, dayLabels: seq<nat>)
    requires |dayLabels| == |DayFilter(messages, day)|
    ensures DayFilter(messages, day) == [] ==> ForDay(day, messages, nClusters, dayLabels) == []
    ensures forall i | i in ForDay(day, messages, nClusters, dayLabels) ::
      0 <= i < |messages| && DayOffset(messages[i].ts, EPOCH_2025) == day
    ensures Distinct(ForDay(day, messages, nClusters, dayLabels))
  {
    var idxs := DayFilter(messages, day);
    if idxs != [] {
      var c := ClusterSpec(|idxs|, nClusters, dayLabels);
      ClusterSpecPartition(|idxs|, nClusters, dayLabels);
      var reps := Representatives(Scores(Gather(messages, idxs)), c, MAX_PER_CLUSTER);
      RepresentativesDistinct(Scores(Gather(messages, idxs)), c, MAX_PER_CLUSTER);
      var r := ForDay(day, messages, nClusters, dayLabels);
      assert r == Gather(idxs, reps);
      forall i | i in r ensures 0 <= i < |messages| && DayOffset(messages[i].ts, EPOCH_2025) == day {
        var j :| 0 <= j < |r| && r[j] == i;
        assert idxs[reps[j]] in idxs;
      }
      forall a, b | 0 <= a < b < |r| ensures r[a] != r[b] {
        assert reps[a] != reps[b];
      }
    }
  }

  /** `cluster_for_day`, with `dayLabels` standing for the fit on the day's messages. */
  method ClusterForDay(day: int, messages: seq<Message>, nClusters: int, dayLabels: seq<nat>)
    returns (reps: seq<nat>)
    requires |dayLabels| == |DayFilter(messages, day)|
    ensures reps == ForDay(day, messages, nClusters, dayLabels)
  {
    var idxs := DayFilter(messages, day);
    if idxs == [] {
      return [];
    }
    var dayMsgs := Gather(messages, idxs);
    var clusters := ClusterMessages(dayMsgs, nClusters, dayLabels);
    var repLocal := SelectRepresentatives(dayMsgs, clusters, MAX_PER_CLUSTER);
    reps := Gather(idxs, repLocal);
  }
}

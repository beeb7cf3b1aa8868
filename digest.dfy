/**
  The ranking and text side of src/robotics_digest/digest/digest.py: a
  user's interest vector, the clusters closest to it, the focus index, the
  role/phase weighting of messages, the candidate scoring of a day's digest,
  and the two digest texts the code writes itself.

  The LLM call is not modelled: its reply is a parameter, `Some(text)` when the
  call returned `text` and `None` when it raised, in which case the rule-based
  digest is returned.
 */
module Digest {
  import opened Wrappers
  import opened Dicts
  import opened Models
  import opened Sorting
  import opened Text
  import opened Vectors
  import opened FakeData
  import opened Clustering

  /** The look-back window `get_user_top_clusters` uses. */
  const DEFAULT_LOOKBACK_DAYS: int := 14

  /** Number of clusters `get_user_top_clusters` returns at most. */
  const TOP_CLUSTERS: nat := 4

  /** Number of bullets a project section of the rule-based digest shows at most. */
  const BULLETS_PER_PROJECT: nat := 4

  // ---------------------------------------------------------------------
  // user_interest_vector

  predicate Authored(user: User, m: Message) {
    m.authorId == user.id
  }

  /** `msg.thread_root_id and any(r.author_id == user.id for r in msg.replies)` */
  predicate Replied(user: User, m: Message) {
    && m.threadRootId.Some? && m.threadRootId.value != ""
    && exists j | 0 <= j < |m.replies| :: m.replies[j].authorId == user.id
  }

  /** `msg.reacting_users and any(user.id in reactors for reactors in msg.reacting_users.values())` */
  predicate Reacted(user: User, m: Message) {
    && m.reactingUsers != []
    && exists j | 0 <= j < |m.reactingUsers| :: user.id in m.reactingUsers[j].1
  }

  /** `f"@{user.id}" in msg.text or user.name.lower() in msg.text.lower()` */
  predicate Mentioned(user: User, m: Message) {
    Contains(m.text, "@" + user.id) || Contains(Lower(m.text), Lower(user.name))
  }

  /** The engagement weight: the first of authored, replied, reacted, mentioned that holds decides. */
  function EngagementWeight(user: User, m: Message): real {
    if Authored(user, m) then 3.0
    else if Replied(user, m) then 2.0
    else if Reacted(user, m) then 1.5
    else if Mentioned(user, m) then 1.0
    else 0.0
  }

  /** `max(0.1, 1.0 - (days_old / lookback_days) * 0.9)` */
  function Freshness(daysOld: int, lookbackDays: int): real
    requires lookbackDays != 0
  {
    var f := 1.0 - (daysOld as real / lookbackDays as real) * 0.9;
    if 0.1 < f then f else 0.1
  }

  /** `base_ts + timedelta(days=lookback_days)` */
  function Cutoff(messages: seq<Message>, lookbackDays: int): int
    requires |messages| > 0
  {
    messages[0].ts + lookbackDays * SECONDS_PER_DAY
  }

  /** The weight a message is recorded with, if it is inside the cutoff. */
  function FinalWeight(user: User, m: Message, cutoffTs: int, lookbackDays: int): real
    requires lookbackDays != 0
  {
    EngagementWeight(user, m) * Freshness(DayOffset(cutoffTs, m.ts), lookbackDays)
  }

  /** `engagement_idxs`: (weight, index) for every message inside the cutoff with a positive weight. */
  function Engagements(user: User, messages: seq<Message>, cutoffTs: int, lookbackDays: int): (es: seq<(real, nat)>)
    requires lookbackDays != 0
    ensures forall k | 0 <= k < |es| :: es[k].0 > 0.0 && es[k].1 < |messages|
  {
    if messages == [] then []
    else
      var n := |messages| - 1;
      var w := FinalWeight(user, messages[n], cutoffTs, lookbackDays);
      Engagements(user, messages[..n], cutoffTs, lookbackDays)
      + (if messages[n].ts <= cutoffTs && w > 0.0 then [(w, n as nat)] else [])
  }

  function TotalWeight(es: seq<(real, nat)>): real {
    if es == [] then 0.0 else TotalWeight(es[..|es| - 1]) + es[|es| - 1].0
  }

  /** `sum(w * embeddings[i] for (w, i) in es)` */
  function WeightedSum(es: seq<(real, nat)>, embeddings: seq<Vector>, dim: nat): (v: Vector)
    requires forall k | 0 <= k < |es| :: es[k].1 < |embeddings| && |embeddings[es[k].1]| == dim
    ensures |v| == dim
  {
    if es == [] then Zero(dim)
    else
      var n := |es| - 1;
      Add(WeightedSum(es[..n], embeddings, dim), Scale(es[n].0, embeddings[es[n].1]))
  }

  /** An embedding row per message, each of width `dim`. */
  ghost predicate EmbeddingRows(messages: seq<Message>, embeddings: seq<Vector>, dim: nat) {
    |embeddings| == |messages| && forall i | 0 <= i < |embeddings| :: |embeddings[i]| == dim
  }

  /** The vector `user_interest_vector` returns. */
  function InterestVector(user: User, messages: seq<Message>, embeddings: seq<Vector>, dim: nat,
                          lookbackDays: int): (v: Vector)
    requires |messages| > 0 && lookbackDays != 0
    requires EmbeddingRows(messages, embeddings, dim)
    ensures |v| == dim
  {
    var es := Engagements(user, messages, Cutoff(messages, lookbackDays), lookbackDays);
    if es == [] then Zero(dim)
    else
      TotalWeightPositive(es);
      Scale(1.0 / TotalWeight(es), WeightedSum(es, embeddings, dim))
  }

  /**
    The first-match table: authored 3.0, else replied 2.0, else reacted 1.5,
    else mentioned 1.0, else 0.0; a weight is positive exactly when one of the
    four signals holds.
   */
  lemma EngagementWeightSpec(user: User, m: Message)
    ensures Authored(user, m) ==> EngagementWeight(user, m) == 3.0
    ensures !Authored(user, m) && Replied(user, m) ==> EngagementWeight(user, m) == 2.0
    ensures !Authored(user, m) && !Replied(user, m) && Reacted(user, m) ==> EngagementWeight(user, m) == 1.5
    ensures !Authored(user, m) && !Replied(user, m) && !Reacted(user, m) && Mentioned(user, m) ==>
      EngagementWeight(user, m) == 1.0
    ensures !(Authored(user, m) || Replied(user, m) || Reacted(user, m) || Mentioned(user, m)) ==>
      EngagementWeight(user, m) == 0.0
    ensures EngagementWeight(user, m) > 0.0 <==>
      Authored(user, m) || Replied(user, m) || Reacted(user, m) || Mentioned(user, m)
    ensures 0.0 <= EngagementWeight(user, m) <= 3.0
  {
  }

  /** The freshness multiplier never drops below 0.1, and for a non-negative age in a positive window never exceeds 1.0. */
  lemma FreshnessBounds(daysOld: int, lookbackDays: int)
    requires lookbackDays != 0
    ensures Freshness(daysOld, lookbackDays) >= 0.1
    ensures lookbackDays > 0 && daysOld >= 0 ==> Freshness(daysOld, lookbackDays) <= 1.0
    ensures lookbackDays > 0 && 0 <= daysOld ==> (daysOld == 0 <==> Freshness(daysOld, lookbackDays) == 1.0)
  {
    if lookbackDays > 0 && daysOld >= 0 {
      assert daysOld as real / lookbackDays as real >= 0.0;
      if daysOld > 0 {
        assert daysOld as real / lookbackDays as real > 0.0;
      }
    }
  }

  /** Freshness is at least 0.1, so a message's final weight is positive exactly when its engagement weight is. */
  lemma FinalWeightPositive(user: User, m: Message, cutoffTs: int, lookbackDays: int)
    requires lookbackDays != 0
    ensures FinalWeight(user, m, cutoffTs, lookbackDays) > 0.0 <==> EngagementWeight(user, m) > 0.0
  {
    var w, f := EngagementWeight(user, m), Freshness(DayOffset(cutoffTs, m.ts), lookbackDays);
    FreshnessBounds(DayOffset(cutoffTs, m.ts), lookbackDays);
    EngagementWeightSpec(user, m);
    if w > 0.0 {
      assert w * f >= w * 0.1;
    } else {
      assert w == 0.0;
    }
  }

  /** A message is recorded exactly when it is no later than the cutoff (the cutoff itself included) and its engagement weight is positive. */
  lemma {:induction false} EngagementsRecorded(user: User, messages: seq<Message>, cutoffTs: int, lookbackDays: int)
    requires lookbackDays != 0
    ensures var es := Engagements(user, messages, cutoffTs, lookbackDays);
            forall i: nat :: (exists k | 0 <= k < |es| :: es[k].1 == i) <==>
              i < |messages| && messages[i].ts <= cutoffTs && EngagementWeight(user, messages[i]) > 0.0
  {
    if messages != [] {
      var n := |messages| - 1;
      EngagementsRecorded(user, messages[..n], cutoffTs, lookbackDays);
      FinalWeightPositive(user, messages[n], cutoffTs, lookbackDays);
      var pre := Engagements(user, messages[..n], cutoffTs, lookbackDays);
      var es := Engagements(user, messages, cutoffTs, lookbackDays);
      var w := FinalWeight(user, messages[n], cutoffTs, lookbackDays);
      assert es == pre + (if messages[n].ts <= cutoffTs && w > 0.0 then [(w, n as nat)] else []);
      forall i: nat ensures (exists k | 0 <= k < |es| :: es[k].1 == i) <==>
        i < |messages| && messages[i].ts <= cutoffTs && EngagementWeight(user, messages[i]) > 0.0
      {
        if i < n {
          assert messages[..n][i] == messages[i];
          if exists k | 0 <= k < |es| :: es[k].1 == i {
            var k :| 0 <= k < |es| && es[k].1 == i;
            assert k < |pre|;
            assert pre[k].1 == i;
          }
          if exists k | 0 <= k < |pre| :: pre[k].1 == i {
            var k :| 0 <= k < |pre| && pre[k].1 == i;
            assert es[k] == pre[k];
          }
        } else if i == n && messages[n].ts <= cutoffTs && EngagementWeight(user, messages[n]) > 0.0 {
          assert es[|es| - 1].1 == n;
        }
      }
    }
  }

  /** Every entry of `es` carries its message's final weight, and the entries follow message order. */
  ghost predicate WeightedInOrder(es: seq<(real, nat)>, user: User, messages: seq<Message>, cutoffTs: int,
                                  lookbackDays: int)
    requires lookbackDays != 0
  {
    && (forall k | 0 <= k < |es| ::
          es[k].1 < |messages| && es[k].0 == FinalWeight(user, messages[es[k].1], cutoffTs, lookbackDays))
    && (forall k, l | 0 <= k < l < |es| :: es[k].1 < es[l].1)
  }

  /** Each message is recorded with its engagement weight times its freshness, in message order. */
  lemma {:induction false} EngagementsWeighted(user: User, messages: seq<Message>, cutoffTs: int, lookbackDays: int)
    requires lookbackDays != 0
    ensures WeightedInOrder(Engagements(user, messages, cutoffTs, lookbackDays), user, messages, cutoffTs, lookbackDays)
  {
    if messages != [] {
      var n := |messages| - 1;
      EngagementsWeighted(user, messages[..n], cutoffTs, lookbackDays);
      var pre := Engagements(user, messages[..n], cutoffTs, lookbackDays);
      var es := Engagements(user, messages, cutoffTs, lookbackDays);
      var w := FinalWeight(user, messages[n], cutoffTs, lookbackDays);
      assert es == pre + (if messages[n].ts <= cutoffTs && w > 0.0 then [(w, n as nat)] else []);
      forall k | 0 <= k < |es|
        ensures es[k].1 < |messages| && es[k].0 == FinalWeight(user, messages[es[k].1], cutoffTs, lookbackDays)
      {
        if k < |pre| {
          assert es[k] == pre[k];
          assert messages[..n][pre[k].1] == messages[pre[k].1];
        }
      }
      forall k, l | 0 <= k < l < |es| ensures es[k].1 < es[l].1 {
        assert es[k] == pre[k];
        if l < |pre| {
          assert es[l] == pre[l];
        }
      }
    }
  }

  lemma {:induction false} TotalWeightPositive(es: seq<(real, nat)>)
    requires es != []
    requires forall k | 0 <= k < |es| :: es[k].0 > 0.0
    ensures TotalWeight(es) > 0.0
  {
    var n := |es| - 1;
    if n > 0 {
      TotalWeightPositive(es[..n]);
    }
  }

  /** `v` is `sum / total`, stated without division. */
  ghost predicate AverageOf(v: Vector, sum: Vector, total: real) {
    |v| == |sum| && forall j | 0 <= j < |v| :: v[j] * total == sum[j]
  }

  /**
    With nothing recorded the interest vector is the zero vector of the
    embedding width; otherwise it is the weighted sum of the recorded rows
    divided by a positive total weight.
   */
  lemma InterestVectorSpec(user: User, messages: seq<Message>, embeddings: seq<Vector>, dim: nat,
                           lookbackDays: int)
    requires |messages| > 0 && lookbackDays != 0
    requires EmbeddingRows(messages, embeddings, dim)
    ensures var es := Engagements(user, messages, Cutoff(messages, lookbackDays), lookbackDays);
            var v := InterestVector(user, messages, embeddings, dim, lookbackDays);
            && (es == [] ==> v == Zero(dim) && IsZero(v))
            && (es != [] ==>
                  && TotalWeight(es) > 0.0
                  && AverageOf(v, WeightedSum(es, embeddings, dim), TotalWeight(es)))
  {
    var es := Engagements(user, messages, Cutoff(messages, lookbackDays), lookbackDays);
    if es != [] {
      TotalWeightPositive(es);
      ScaledAverage(TotalWeight(es), WeightedSum(es, embeddings, dim));
    }
  }

  /** Scaling `sum` by `1 / total` gives its average. */
  lemma ScaledAverage(total: real, sum: Vector)
    requires total > 0.0
    ensures AverageOf(Scale(1.0 / total, sum), sum, total)
  {
    var v := Scale(1.0 / total, sum);
    forall j | 0 <= j < |v| ensures v[j] * total == sum[j] {
      Unscale(total, sum[j]);
    }
  }

  lemma Unscale(t: real, x: real)
    requires t != 0.0
    ensures ((1.0 / t) * x) * t == x
  {
    calc {
      ((1.0 / t) * x) * t;
      ((1.0 / t) * t) * x;
      x;
    }
  }

  /** The `if`/`elif` cascade of `user_interest_vector` for one message, specified by `EngagementWeight`. */
  method WeighEngagement(user: User, msg: Message) returns (weight: real)
    ensures weight == EngagementWeight(user, msg)
  {
    weight := 0.0;
    if msg.authorId == user.id {
      weight := weight + 3.0;
    } else if msg.threadRootId.Some? && msg.threadRootId.value != "" && Replied(user, msg) {
      weight := weight + 2.0;
    } else if msg.reactingUsers != [] && Reacted(user, msg) {
      weight := weight + 1.5;
    } else if Mentioned(user, msg) {
      weight := weight + 1.0;
    }
  }

  /** Looking at one more message records it exactly when it is inside the cutoff with a positive weight. */
  lemma EngagementsStep(user: User, messages: seq<Message>, i: nat, cutoffTs: int, lookbackDays: int)
    requires lookbackDays != 0 && i < |messages|
    ensures var w := FinalWeight(user, messages[i], cutoffTs, lookbackDays);
            Engagements(user, messages[..i + 1], cutoffTs, lookbackDays)
            == Engagements(user, messages[..i], cutoffTs, lookbackDays)
               + (if messages[i].ts <= cutoffTs && w > 0.0 then [(w, i)] else [])
  {
    assert messages[..i + 1][..i] == messages[..i];
  }

  lemma FinalWeightOf(user: User, m: Message, cutoffTs: int, lookbackDays: int, weight: real, freshness: real)
    requires lookbackDays != 0
    requires weight == EngagementWeight(user, m)
    requires freshness == Freshness(DayOffset(cutoffTs, m.ts), lookbackDays)
    ensures weight * freshness == FinalWeight(user, m, cutoffTs, lookbackDays)
  {
  }

  /** The first loop of `user_interest_vector`: it fills `engagement_idxs`. */
  method CollectEngagements(user: User, messages: seq<Message>, cutoffTs: int, lookbackDays: int)
    returns (engagementIdxs: seq<(real, nat)>)
    requires lookbackDays != 0
    ensures engagementIdxs == Engagements(user, messages, cutoffTs, lookbackDays)
  {
    engagementIdxs := [];
    for i := 0 to |messages|
      invariant engagementIdxs == Engagements(user, messages[..i], cutoffTs, lookbackDays)
    {
      EngagementsStep(user, messages, i, cutoffTs, lookbackDays);
      var msg := messages[i];
      if msg.ts > cutoffTs {
        continue;
      }
      var weight := WeighEngagement(user, msg);
      var daysOld := DayOffset(cutoffTs, msg.ts);
      var freshnessWeight := Freshness(daysOld, lookbackDays);
      var finalWeight := weight * freshnessWeight;
      FinalWeightOf(user, msg, cutoffTs, lookbackDays, weight, freshnessWeight);
      if finalWeight > 0.0 {
        engagementIdxs := engagementIdxs + [(finalWeight, i)];
      }
    }
    assert messages[..|messages|] == messages;
  }

  /** The second loop of `user_interest_vector`: it sums the weighted rows and the weights. */
  method AccumulateWeighted(es: seq<(real, nat)>, embeddings: seq<Vector>, dim: nat)
    returns (weightedEmbs: Vector, totalWeight: real)
    requires forall k | 0 <= k < |es| :: es[k].1 < |embeddings| && |embeddings[es[k].1]| == dim
    ensures weightedEmbs == WeightedSum(es, embeddings, dim)
    ensures totalWeight == TotalWeight(es)
  {
    weightedEmbs := Zero(dim);
    totalWeight := 0.0;
    for k := 0 to |es|
      invariant weightedEmbs == WeightedSum(es[..k], embeddings, dim)
      invariant totalWeight == TotalWeight(es[..k])
    {
      assert es[..k + 1][..k] == es[..k];
      var (weight, idx) := es[k];
      weightedEmbs := Add(weightedEmbs, Scale(weight, embeddings[idx]));
      totalWeight := totalWeight + weight;
    }
    assert es[..|es|] == es;
  }

  /** `user_interest_vector` */
  method UserInterestVector(user: User, messages: seq<Message>, embeddings: seq<Vector>, dim: nat,
                            lookbackDays: int) returns (v: Vector)
    requires |messages| > 0 && lookbackDays != 0
    requires EmbeddingRows(messages, embeddings, dim)
    ensures v == InterestVector(user, messages, embeddings, dim, lookbackDays)
  {
    var baseTs := messages[0].ts;
    var cutoffTs := baseTs + lookbackDays * SECONDS_PER_DAY;
    var engagementIdxs := CollectEngagements(user, messages, cutoffTs, lookbackDays);
    if engagementIdxs == [] {
      return Zero(dim);
    }
    var weightedEmbs, totalWeight := AccumulateWeighted(engagementIdxs, embeddings, dim);
    TotalWeightPositive(engagementIdxs);
    v := Scale(1.0 / totalWeight, weightedEmbs);
  }

  // ---------------------------------------------------------------------
  // get_user_top_clusters

  /** Every cluster is non-empty and its members have embedding rows of width `dim`. */
  ghost predicate ClustersUsable(clusters: Clusters, embeddings: seq<Vector>, dim: nat) {
    forall k | 0 <= k < |clusters| ::
      clusters[k].1 != [] &&
      forall j | 0 <= j < |clusters[k].1| :: clusters[k].1[j] < |embeddings| && |embeddings[clusters[k].1[j]]| == dim
  }

  /** Zero when either vector has zero norm, the dot product otherwise. */
  function Similarity(centroid: Vector, userVec: Vector): real
    requires |centroid| == |userVec|
  {
    if IsZero(centroid) || IsZero(userVec) then 0.0 else Dot(centroid, userVec)
  }

  /** `cluster_scores`: `(similarity, cid)` per cluster, in the dict's order. */
  function ClusterScores(clusters: Clusters, embeddings: seq<Vector>, dim: nat, userVec: Vector)
    : (cs: seq<Ranked<nat>>)
    requires ClustersUsable(clusters, embeddings, dim) && |userVec| == dim
    ensures |cs| == |clusters|
    ensures forall k | 0 <= k < |cs| :: cs[k].item == clusters[k].0 && cs[k].tie == clusters[k].0 as int
  {
    seq(|clusters|, k requires 0 <= k < |clusters| =>
      var c := clusters[k];
      Ranked(Similarity(Centroid(embeddings, c.1, dim), userVec), c.0 as int, c.0))
  }

  /** The first four entries of `cluster_scores` after `sort(reverse=True)`. */
  function RankedTopClusters(clusters: Clusters, embeddings: seq<Vector>, dim: nat, userVec: Vector)
    : seq<Ranked<nat>>
    requires ClustersUsable(clusters, embeddings, dim) && |userVec| == dim
  {
    Take(SortDesc(ClusterScores(clusters, embeddings, dim, userVec)), TOP_CLUSTERS)
  }

  /** The ids `get_user_top_clusters` returns for a given interest vector. */
  function TopClusters(clusters: Clusters, embeddings: seq<Vector>, dim: nat, userVec: Vector): seq<nat>
    requires ClustersUsable(clusters, embeddings, dim) && |userVec| == dim
  {
    Items(RankedTopClusters(clusters, embeddings, dim, userVec))
  }

  /** Entries whose tie-break is their own id, with no id twice. */
  ghost predicate IdKeyed(cs: seq<Ranked<nat>>) {
    DistinctItems(cs) && forall e | e in cs :: e.tie == e.item as int
  }

  /**
    The first `m` entries of a descending sort of entries keyed by distinct
    ids: `min(m, |cs|)` distinct entries of `cs`, in strictly descending
    `(score, id)` order, each ranking above every entry left out.
   */
  lemma TopById(cs: seq<Ranked<nat>>, m: nat)
    requires IdKeyed(cs)
    ensures var t := Take(SortDesc(cs), m);
            && |t| == (if m < |cs| then m else |cs|)
            && (forall i | 0 <= i < |t| :: t[i] in cs)
            && DistinctItems(t)
            && (forall i, j | 0 <= i < j < |t| :: RankLt(t[j], t[i]))
            && (forall e, i | e in cs && e !in t && 0 <= i < |t| :: RankLt(e, t[i]))
  {
    var r := SortDesc(cs);
    var t := Take(r, m);
    SortDescSpec(cs);
    TopPrefix(cs, m);
    DistinctItemsPerm(cs, r);
    forall i | 0 <= i < |r| ensures r[i] in cs && r[i].tie == r[i].item as int {
      assert r[i] in multiset(cs);
    }
    forall e, i | e in cs && e !in t && 0 <= i < |t| ensures RankLt(e, t[i]) {
      assert e in multiset(r);
      var p :| 0 <= p < |r| && r[p] == e;
      assert p >= |t| && r[i] == t[i];
      assert !RankLt(r[i], r[p]);
    }
  }

  /** Distinct cluster ids make `cluster_scores` keyed by distinct ids. */
  lemma ClusterScoresIdKeyed(clusters: Clusters, embeddings: seq<Vector>, dim: nat, userVec: Vector)
    requires ClustersUsable(clusters, embeddings, dim) && |userVec| == dim
    requires DistinctKeys(clusters)
    ensures IdKeyed(ClusterScores(clusters, embeddings, dim, userVec))
  {
    var cs := ClusterScores(clusters, embeddings, dim, userVec);
    forall i, j | 0 <= i < j < |cs| ensures cs[i].item != cs[j].item {
      assert Keys(clusters)[i] != Keys(clusters)[j];
    }
  }

  /**
    `get_user_top_clusters` returns `min(4, |clusters|)` distinct cluster ids,
    ordered by (similarity, id) descending, each ranking above every cluster
    it leaves out.
   */
  lemma TopClustersSpec(clusters: Clusters, embeddings: seq<Vector>, dim: nat, userVec: Vector)
    requires ClustersUsable(clusters, embeddings, dim) && |userVec| == dim
    requires DistinctKeys(clusters)
    ensures var cs := ClusterScores(clusters, embeddings, dim, userVec);
            var t := RankedTopClusters(clusters, embeddings, dim, userVec);
            && TopClusters(clusters, embeddings, dim, userVec) == Items(t)
            && |t| == (if TOP_CLUSTERS < |clusters| then TOP_CLUSTERS else |clusters|)
            && (forall i | 0 <= i < |t| :: t[i] in cs && t[i].item in Keys(clusters))
            && DistinctItems(t)
            && (forall i, j | 0 <= i < j < |t| :: RankLt(t[j], t[i]))
            && (forall e, i | e in cs && e !in t && 0 <= i < |t| :: RankLt(e, t[i]))
  {
    var cs := ClusterScores(clusters, embeddings, dim, userVec);
    ClusterScoresIdKeyed(clusters, embeddings, dim, userVec);
    TopById(cs, TOP_CLUSTERS);
    var t := RankedTopClusters(clusters, embeddings, dim, userVec);
    forall i | 0 <= i < |t| ensures t[i].item in Keys(clusters) {
      var k :| 0 <= k < |cs| && cs[k] == t[i];
      assert Keys(clusters)[k] == t[i].item;
    }
  }

  /**
    Among entries of equal score keyed by distinct ids, the first `m` of the
    descending sort have strictly descending ids, above every id left out.
   */
  lemma TopByIdEqualScores(cs: seq<Ranked<nat>>, m: nat, score: real)
    requires IdKeyed(cs)
    requires forall k | 0 <= k < |cs| :: cs[k].score == score
    ensures var top := Items(Take(SortDesc(cs), m));
            && (forall i, j | 0 <= i < j < |top| :: top[i] > top[j])
            && (forall e, i | e in cs && e.item !in top && 0 <= i < |top| :: e.item < top[i])
  {
    var t := Take(SortDesc(cs), m);
    var top := Items(t);
    TopById(cs, m);
    forall i | 0 <= i < |t| ensures t[i].score == score && t[i].tie == t[i].item as int {
      var k :| 0 <= k < |cs| && cs[k] == t[i];
    }
    forall e, i | e in cs && e.item !in top && 0 <= i < |top| ensures e.item < top[i] {
      forall p | 0 <= p < |t| ensures t[p] != e {
        assert top[p] == t[p].item;
      }
      assert RankLt(e, t[i]);
    }
  }

  /**
    A cluster's score is exactly 0 when its centroid or the interest vector is
    the zero vector, and the dot product of the two otherwise.
   */
  lemma ClusterScoresZeroRule(clusters: Clusters, embeddings: seq<Vector>, dim: nat, userVec: Vector)
    requires ClustersUsable(clusters, embeddings, dim) && |userVec| == dim
    ensures var cs := ClusterScores(clusters, embeddings, dim, userVec);
            forall k | 0 <= k < |cs| ::
              var centroid := Centroid(embeddings, clusters[k].1, dim);
              && (IsZero(centroid) || IsZero(userVec) ==> cs[k].score == 0.0)
              && (!IsZero(centroid) && !IsZero(userVec) ==> cs[k].score == Dot(centroid, userVec))
  {
  }

  /**
    With a zero interest vector every similarity is 0, so the ids come out in
    strictly descending order and every id left out is below every id kept.
   */
  lemma ZeroInterestTopClusters(clusters: Clusters, embeddings: seq<Vector>, dim: nat, userVec: Vector)
    requires ClustersUsable(clusters, embeddings, dim) && |userVec| == dim
    requires DistinctKeys(clusters)
    requires IsZero(userVec)
    ensures var top := TopClusters(clusters, embeddings, dim, userVec);
            && (forall i, j | 0 <= i < j < |top| :: top[i] > top[j])
            && (forall cid, i | cid in Keys(clusters) && cid !in top && 0 <= i < |top| :: cid < top[i])
  {
    var cs := ClusterScores(clusters, embeddings, dim, userVec);
    ClusterScoresIdKeyed(clusters, embeddings, dim, userVec);
    ClusterScoresZeroRule(clusters, embeddings, dim, userVec);
    TopByIdEqualScores(cs, TOP_CLUSTERS, 0.0);
    var top := TopClusters(clusters, embeddings, dim, userVec);
    assert top == Items(Take(SortDesc(cs), TOP_CLUSTERS));
    forall cid, i | cid in Keys(clusters) && cid !in top && 0 <= i < |top| ensures cid < top[i] {
      var k :| 0 <= k < |clusters| && Keys(clusters)[k] == cid;
      assert cs[k] in cs && cs[k].item == cid;
    }
  }

  /** `get_user_top_clusters`, with the default look-back of 14 days. */
  method GetUserTopClusters(user: User, clusters: Clusters, messages: seq<Message>, embeddings: seq<Vector>,
                            dim: nat) returns (top: seq<nat>)
    requires |messages| > 0
    requires EmbeddingRows(messages, embeddings, dim)
    requires ClustersUsable(clusters, embeddings, dim)
    ensures top == TopClusters(clusters, embeddings, dim,
                               InterestVector(user, messages, embeddings, dim, DEFAULT_LOOKBACK_DAYS))
  {
    var userVec := UserInterestVector(user, messages, embeddings, dim, DEFAULT_LOOKBACK_DAYS);
    var clusterScores := ScoreClusters(clusters, embeddings, dim, userVec);
    clusterScores := SortDesc(clusterScores);
    top := Items(Take(clusterScores, TOP_CLUSTERS));
  }

  /** The loop of `get_user_top_clusters` that fills `cluster_scores`. */
  method ScoreClusters(clusters: Clusters, embeddings: seq<Vector>, dim: nat, userVec: Vector)
    returns (clusterScores: seq<Ranked<nat>>)
    requires ClustersUsable(clusters, embeddings, dim) && |userVec| == dim
    ensures clusterScores == ClusterScores(clusters, embeddings, dim, userVec)
  {
    ghost var spec := ClusterScores(clusters, embeddings, dim, userVec);
    clusterScores := [];
    for k := 0 to |clusters|
      invariant clusterScores == spec[..k]
    {
      var (cid, msgIdxs) := clusters[k];
      var centroid := Centroid(embeddings, msgIdxs, dim);
      var similarity: real;
      if IsZero(centroid) || IsZero(userVec) {
        similarity := 0.0;
      } else {
        similarity := Dot(centroid, userVec);
      }
      assert spec[k] == Ranked(similarity, cid as int, cid);
      assert spec[..k + 1] == spec[..k] + [spec[k]];
      clusterScores := clusterScores + [Ranked(similarity, cid as int, cid)];
    }
    assert spec[..|clusters|] == spec;
  }

  // ---------------------------------------------------------------------
  // build_focus_index

  type FocusIndex = Dict<(string, int), UserFocus>

  /** `((f.user_id, f.day), f)` for every record, in list order. */
  function FocusPairs(focusList: seq<UserFocus>): (ps: seq<((string, int), UserFocus)>)
    ensures |ps| == |focusList|
    ensures forall i | 0 <= i < |ps| :: ps[i] == ((focusList[i].userId, focusList[i].day), focusList[i])
  {
    seq(|focusList|, i requires 0 <= i < |focusList| => ((focusList[i].userId, focusList[i].day), focusList[i]))
  }

  /** `{(f.user_id, f.day): f for f in focus_list}` */
  function BuildFocusIndex(focusList: seq<UserFocus>): FocusIndex {
    FromPairs(FocusPairs(focusList))
  }

  /** The index holds a record for `(u, d)` exactly when the list has one. */
  lemma FocusIndexHas(focusList: seq<UserFocus>, u: string, d: int)
    ensures Get(BuildFocusIndex(focusList), (u, d)).Some? <==>
            exists i | 0 <= i < |focusList| :: focusList[i].userId == u && focusList[i].day == d
  {
    var ps := FocusPairs(focusList);
    FromPairsGet(ps, (u, d));
    if exists i | 0 <= i < |focusList| :: focusList[i].userId == u && focusList[i].day == d {
      var i :| 0 <= i < |focusList| && focusList[i].userId == u && focusList[i].day == d;
      assert Keys(ps)[i] == (u, d);
    }
    if (u, d) in Keys(ps) {
      var i :| 0 <= i < |ps| && Keys(ps)[i] == (u, d);
      assert focusList[i].userId == u && focusList[i].day == d;
    }
  }

  /** When the index holds a record for `(u, d)`, it is the last record of the list for that user and day. */
  lemma FocusIndexLast(focusList: seq<UserFocus>, u: string, d: int)
    requires Get(BuildFocusIndex(focusList), (u, d)).Some?
    ensures var f := Get(BuildFocusIndex(focusList), (u, d)).value;
            exists i | 0 <= i < |focusList| ::
              && focusList[i] == f && f.userId == u && f.day == d
              && forall j | i < j < |focusList| :: !(focusList[j].userId == u && focusList[j].day == d)
  {
    var ps := FocusPairs(focusList);
    FromPairsGet(ps, (u, d));
    LastValueIn(ps, (u, d));
    var f := Get(BuildFocusIndex(focusList), (u, d)).value;
    var i :| 0 <= i < |ps| && ps[i] == ((u, d), f) && forall j | i < j < |ps| :: ps[j].0 != (u, d);
    assert focusList[i] == f && f.userId == u && f.day == d;
    forall j | i < j < |focusList| ensures !(focusList[j].userId == u && focusList[j].day == d) {
      assert ps[j].0 != (u, d);
    }
  }

  /**
    On the generated fixtures, user `users[u]` on day `d < 30` is indexed with
    the focus rule's project list.
   */
  lemma FixtureFocus(users: seq<User>, focusList: seq<UserFocus>, u: nat, d: nat)
    requires forall i, j | 0 <= i < j < |users| :: users[i].id != users[j].id
    requires |focusList| == FOCUS_DAYS * |users|
    requires forall k | 0 <= k < |focusList| :: focusList[k] == FocusRecord(users, k)
    requires u < |users| && d < FOCUS_DAYS
    ensures Get(BuildFocusIndex(focusList), (users[u].id, d)) == Some(UserFocus(users[u].id, d, FocusProjects(d)))
  {
    var n := |users|;
    var k := d * n + u;
    DayMajor(n, d, u);
    MulAtLeast(FOCUS_DAYS - d, n);
    assert k < FOCUS_DAYS * n by {
      assert FOCUS_DAYS * n == (FOCUS_DAYS - d) * n + d * n;
    }
    assert focusList[k].userId == users[u].id && focusList[k].day == d;
    FocusIndexHas(focusList, users[u].id, d);
    FocusIndexLast(focusList, users[u].id, d);
    var r := Get(BuildFocusIndex(focusList), (users[u].id, d));
    var i :| 0 <= i < |focusList| && focusList[i] == r.value && r.value.userId == users[u].id && r.value.day == d
             && forall j | i < j < |focusList| :: !(focusList[j].userId == users[u].id && focusList[j].day == d);
    assert focusList[i] == FocusRecord(users, i);
    assert users[i % n].id == users[u].id;
    assert i % n == u;
  }

  // ---------------------------------------------------------------------
  // role_topic_weight

  /** The role/phase rule of `role_topic_weight` that applies to `m`, stated as one condition. */
  predicate RoleRelevant(m: Message, role: Role, phase: PhaseName) {
    match role
    case ME | EE =>
      (phase in {DetailedDesign, ProtoBuild} && (m.isDecision || m.isBlocker))
      || (phase in {Dvt, Pvt} && m.isRisk)
    case SCM => m.isBlocker || m.isRisk
    case EM | PM => m.isDecision || m.isRisk || m.isBlocker
  }

  /** `role_topic_weight`, accumulating into `w` as the source does. */
  function RoleTopicWeight(m: Message, role: Role, phase: PhaseName): real {
    var w := 1.0;
    var w := if role in {ME, EE} && phase in {DetailedDesign, ProtoBuild} && (m.isDecision || m.isBlocker)
             then w + 2.0 else w;
    var w := if role in {ME, EE} && phase in {Dvt, Pvt} && m.isRisk then w + 2.0 else w;
    var w := if role == SCM && (m.isBlocker || m.isRisk) then w + 2.0 else w;
    var w := if role in {EM, PM} && (m.isDecision || m.isRisk || m.isBlocker) then w + 2.0 else w;
    w + 0.2 * |m.reactions| as real
  }

  /**
    At most one rule fires: the weight is 3.0 when the role/phase rule
    applies and 1.0 otherwise, plus 0.2 per reaction; so it is at least 1.0.
   */
  lemma RoleTopicWeightSpec(m: Message, role: Role, phase: PhaseName)
    ensures RoleTopicWeight(m, role, phase) ==
            (if RoleRelevant(m, role, phase) then 3.0 else 1.0) + 0.2 * |m.reactions| as real
    ensures 1.0 <= RoleTopicWeight(m, role, phase) <= 3.0 + 0.2 * |m.reactions| as real
  {
  }

  /** A blocker without reactions, seen by supply chain, weighs exactly 3.0 in any phase. */
  lemma ScmBlockerWeight(m: Message, phase: PhaseName)
    requires m.isBlocker && m.reactions == []
    ensures RoleTopicWeight(m, SCM, phase) == 3.0
  {
    RoleTopicWeightSpec(m, SCM, phase);
  }

  // ---------------------------------------------------------------------
  // build_digest_for_user

  /** `{p.id: p for p in projects}` */
  function ProjById(projects: seq<Project>): Dict<string, Project> {
    FromPairs(seq(|projects|, i requires 0 <= i < |projects| => (projects[i].id, projects[i])))
  }

  /** `proj_by_id[pid]` exists and `current_phase` can be asked of it. */
  predicate KnownProject(projects: seq<Project>, pid: string) {
    Get(ProjById(projects), pid).Some? && |Get(ProjById(projects), pid).value.phases| > 0
  }

  function PhaseOf(projects: seq<Project>, pid: string, day: int): PhaseName
    requires KnownProject(projects, pid)
  {
    CurrentPhase(Get(ProjById(projects), pid).value, day)
  }

  /** The messages of `day` (counted from 2025-01-01) in one of the focused projects. */
  function CandidateIdxs(messages: seq<Message>, day: int, focusIds: seq<string>): (idxs: seq<nat>)
    ensures StrictlyAscending(idxs)
    ensures forall j | 0 <= j < |idxs| :: idxs[j] < |messages|
    ensures forall i :: i in idxs <==>
      0 <= i < |messages| && DayOffset(messages[i].ts, EPOCH_2025) == day && messages[i].projectId in focusIds
  {
    IndicesWhere(seq(|messages|, i requires 0 <= i < |messages| =>
      DayOffset(messages[i].ts, EPOCH_2025) == day && messages[i].projectId in focusIds))
  }

  /** Looking at one more message adds its index exactly when it is a candidate. */
  lemma CandidateIdxsStep(messages: seq<Message>, i: nat, day: int, focusIds: seq<string>)
    requires i < |messages|
    ensures CandidateIdxs(messages[..i + 1], day, focusIds) ==
            CandidateIdxs(messages[..i], day, focusIds)
            + (if DayOffset(messages[i].ts, EPOCH_2025) == day && messages[i].projectId in focusIds then [i] else [])
  {
    var pre, cur := messages[..i], messages[..i + 1];
    var flags := seq(|cur|, j requires 0 <= j < |cur| =>
      DayOffset(cur[j].ts, EPOCH_2025) == day && cur[j].projectId in focusIds);
    assert flags[..i] == seq(|pre|, j requires 0 <= j < |pre| =>
      DayOffset(pre[j].ts, EPOCH_2025) == day && pre[j].projectId in focusIds);
  }

  /** Every candidate's project can be looked up. */
  ghost predicate CandidatesKnown(projects: seq<Project>, messages: seq<Message>, day: int, focusIds: seq<string>) {
    forall i | 0 <= i < |messages| && DayOffset(messages[i].ts, EPOCH_2025) == day && messages[i].projectId in focusIds ::
      KnownProject(projects, messages[i].projectId)
  }

  /** +1.0 when message `i` is in one of the top clusters (the first hit breaks the loop). */
  function ClusterBonus(i: nat, topClusters: seq<nat>, clusters: Clusters): real {
    if topClusters == [] then 0.0
    else if i in GetOr(clusters, topClusters[0], []) then 1.0
    else ClusterBonus(i, topClusters[1..], clusters)
  }

  /** Some top cluster holds message `i`. */
  predicate InTopCluster(i: nat, topClusters: seq<nat>, clusters: Clusters) {
    exists k | 0 <= k < |topClusters| :: i in GetOr(clusters, topClusters[k], [])
  }

  /** The bonus is 1.0 exactly when some top cluster holds the message, and 0.0 otherwise. */
  lemma {:induction false} ClusterBonusSpec(i: nat, topClusters: seq<nat>, clusters: Clusters)
    ensures ClusterBonus(i, topClusters, clusters) == if InTopCluster(i, topClusters, clusters) then 1.0 else 0.0
  {
    if topClusters != [] && i !in GetOr(clusters, topClusters[0], []) {
      ClusterBonusSpec(i, topClusters[1..], clusters);
      if InTopCluster(i, topClusters, clusters) {
        var k :| 0 <= k < |topClusters| && i in GetOr(clusters, topClusters[k], []);
        assert topClusters[1..][k - 1] == topClusters[k];
      }
    }
  }

  /** `scored`: each candidate with `role_topic_weight` plus the cluster bonus. */
  function Scored(user: User, day: int, clusters: Clusters, projects: seq<Project>, messages: seq<Message>,
                  topClusters: seq<nat>, focusIds: seq<string>): (sc: seq<Ranked<Message>>)
    requires CandidatesKnown(projects, messages, day, focusIds)
    ensures |sc| == |CandidateIdxs(messages, day, focusIds)|
  {
    var cands := CandidateIdxs(messages, day, focusIds);
    seq(|cands|, k requires 0 <= k < |cands| =>
      var m := messages[cands[k]];
      assert cands[k] in cands;
      Ranked(RoleTopicWeight(m, user.role, PhaseOf(projects, m.projectId, day))
             + ClusterBonus(cands[k], topClusters, clusters), 0, m))
  }

  /** `scored[:max_items]` after the stable sort by score, descending. */
  function RankedTopMessages(user: User, day: int, clusters: Clusters, projects: seq<Project>,
                             messages: seq<Message>, topClusters: seq<nat>, focusIds: seq<string>,
                             maxItems: nat): seq<Ranked<Message>>
    requires CandidatesKnown(projects, messages, day, focusIds)
  {
    Take(SortDesc(Scored(user, day, clusters, projects, messages, topClusters, focusIds)), maxItems)
  }

  /**
    `top_msgs`: `min(max_items, len(candidates))` messages of `day`, each in a
    focused project that can be looked up.
   */
  function TopMessages(user: User, day: int, clusters: Clusters, projects: seq<Project>,
                       messages: seq<Message>, topClusters: seq<nat>, focusIds: seq<string>,
                       maxItems: nat): (top: seq<Message>)
    requires CandidatesKnown(projects, messages, day, focusIds)
    ensures var n := |CandidateIdxs(messages, day, focusIds)|;
            |top| == if maxItems < n then maxItems else n
    ensures forall i | 0 <= i < |top| ::
      && top[i] in messages
      && DayOffset(top[i].ts, EPOCH_2025) == day
      && top[i].projectId in focusIds
      && KnownProject(projects, top[i].projectId)
  {
    TopMessagesSpec(user, day, clusters, projects, messages, topClusters, focusIds, maxItems);
    ScoredSpec(user, day, clusters, projects, messages, topClusters, focusIds);
    Items(RankedTopMessages(user, day, clusters, projects, messages, topClusters, focusIds, maxItems))
  }

  /**
    The k-th scored entry is the k-th candidate message, in message order,
    with its role/phase weight plus 1.0 exactly when a top cluster holds it.
   */
  lemma ScoredSpec(user: User, day: int, clusters: Clusters, projects: seq<Project>,
                   messages: seq<Message>, topClusters: seq<nat>, focusIds: seq<string>)
    requires CandidatesKnown(projects, messages, day, focusIds)
    ensures var sc := Scored(user, day, clusters, projects, messages, topClusters, focusIds);
            var cands := CandidateIdxs(messages, day, focusIds);
            && |sc| == |cands|
            && forall k | 0 <= k < |sc| ::
              && sc[k].item == messages[cands[k]]
              && DayOffset(sc[k].item.ts, EPOCH_2025) == day
              && sc[k].item.projectId in focusIds
              && var r := RoleTopicWeight(sc[k].item, user.role, PhaseOf(projects, sc[k].item.projectId, day));
                 sc[k].score == r + (if InTopCluster(cands[k], topClusters, clusters) then 1.0 else 0.0)
  {
    var sc := Scored(user, day, clusters, projects, messages, topClusters, focusIds);
    var cands := CandidateIdxs(messages, day, focusIds);
    forall k | 0 <= k < |sc|
      ensures && sc[k].item == messages[cands[k]]
              && DayOffset(sc[k].item.ts, EPOCH_2025) == day
              && sc[k].item.projectId in focusIds
              && var r := RoleTopicWeight(sc[k].item, user.role, PhaseOf(projects, sc[k].item.projectId, day));
                 sc[k].score == r + (if InTopCluster(cands[k], topClusters, clusters) then 1.0 else 0.0)
    {
      assert cands[k] in cands;
      assert sc[k].item == messages[cands[k]];
      ClusterBonusSpec(cands[k], topClusters, clusters);
    }
  }

  /**
    The kept entries are `min(max_items, len(scored))` scored candidates, in
    non-increasing score order, none below a candidate left out; candidates
    of equal score keep their order.
   */
  lemma TopMessagesSpec(user: User, day: int, clusters: Clusters, projects: seq<Project>,
                        messages: seq<Message>, topClusters: seq<nat>, focusIds: seq<string>, maxItems: nat)
    requires CandidatesKnown(projects, messages, day, focusIds)
    ensures var sc := Scored(user, day, clusters, projects, messages, topClusters, focusIds);
            var t := RankedTopMessages(user, day, clusters, projects, messages, topClusters, focusIds, maxItems);
            && |t| == (if maxItems < |sc| then maxItems else |sc|)
            && (forall i | 0 <= i < |t| :: t[i] in sc)
            && SortedDesc(t)
            && (forall i, j | 0 <= i < |t| <= j < |SortDesc(sc)| :: !RankLt(t[i], SortDesc(sc)[j]))
            && (forall key :: WithKey(t, key) <= WithKey(sc, key))
  {
    var sc := Scored(user, day, clusters, projects, messages, topClusters, focusIds);
    TopOfSort(sc, maxItems);
  }

  /** What `build_digest_for_user` demands of its inputs once the user has a focus record. */
  ghost predicate DigestInputs(user: User, day: int, clusters: Clusters, projects: seq<Project>,
                               messages: seq<Message>, embeddings: seq<Vector>, dim: nat, focusIdx: FocusIndex) {
    Get(focusIdx, (user.id, day)).Some? ==>
      && EmbeddingRows(messages, embeddings, dim)
      && ClustersUsable(clusters, embeddings, dim)
      && |messages| > 0
      && CandidatesKnown(projects, messages, day, Get(focusIdx, (user.id, day)).value.projectIds)
  }

  /** `f"No digest for {user.name} on day {day}."` */
  function NoDigestText(user: User, day: int): string {
    "No digest for " + user.name + " on day " + IntToString(day) + "."
  }

  /** The candidate loop of `build_digest_for_user`. */
  method CollectCandidates(messages: seq<Message>, day: int, focusIds: seq<string>) returns (candidates: seq<nat>)
    ensures candidates == CandidateIdxs(messages, day, focusIds)
  {
    candidates := [];
    for i := 0 to |messages|
      invariant candidates == CandidateIdxs(messages[..i], day, focusIds)
    {
      CandidateIdxsStep(messages, i, day, focusIds);
      var m := messages[i];
      var mDay := DayOffset(m.ts, EPOCH_2025);
      if mDay != day {
        continue;
      }
      if m.projectId !in focusIds {
        continue;
      }
      candidates := candidates + [i];
    }
    assert messages[..|messages|] == messages;
  }

  /** The scoring loop of `build_digest_for_user`, the cluster bonus loop breaking at the first hit. */
  method ScoreCandidates(user: User, day: int, clusters: Clusters, projects: seq<Project>, messages: seq<Message>,
                         topClusters: seq<nat>, focusIds: seq<string>, candidates: seq<nat>)
    returns (scored: seq<Ranked<Message>>)
    requires CandidatesKnown(projects, messages, day, focusIds)
    requires candidates == CandidateIdxs(messages, day, focusIds)
    ensures scored == Scored(user, day, clusters, projects, messages, topClusters, focusIds)
  {
    ghost var spec := Scored(user, day, clusters, projects, messages, topClusters, focusIds);
    var projById := ProjById(projects);
    scored := [];
    for k := 0 to |candidates|
      invariant |scored| == k
      invariant forall j | 0 <= j < k :: scored[j] == spec[j]
    {
      var i := candidates[k];
      assert i in candidates;
      var m := messages[i];
      var phase := CurrentPhase(Get(projById, m.projectId).value, day);
      var score := RoleTopicWeight(m, user.role, phase);
      var bonus := 0.0;
      for c := 0 to |topClusters|
        invariant bonus == 0.0 ==> ClusterBonus(i, topClusters, clusters) == ClusterBonus(i, topClusters[c..], clusters)
        invariant bonus == 1.0 ==> ClusterBonus(i, topClusters, clusters) == 1.0
        invariant bonus == 0.0 || bonus == 1.0
      {
        if i in GetOr(clusters, topClusters[c], []) {
          bonus := 1.0;
          break;
        }
      }
      score := score + bonus;
      assert spec[k] == Ranked(score, 0, m);
      scored := scored + [Ranked(score, 0, m)];
    }
  }

  /** `build_digest_for_user`; `reply` is the LLM's answer, `None` when the call raised. */
  method BuildDigestForUser(user: User, day: int, clusters: Clusters, projects: seq<Project>,
                            messages: seq<Message>, embeddings: seq<Vector>, dim: nat,
                            focusIdx: FocusIndex, maxItems: nat, reply: Option<string>)
    returns (digest: string)
    requires DigestInputs(user, day, clusters, projects, messages, embeddings, dim, focusIdx)
    ensures Get(focusIdx, (user.id, day)).None? ==> digest == NoDigestText(user, day)
    ensures Get(focusIdx, (user.id, day)).Some? ==>
      var focus := Get(focusIdx, (user.id, day)).value;
      var top := TopClusters(clusters, embeddings, dim,
                             InterestVector(user, messages, embeddings, dim, DEFAULT_LOOKBACK_DAYS));
      var topMsgs := TopMessages(user, day, clusters, projects, messages, top, focus.projectIds, maxItems);
      digest == GenerateLlmDigest(user, topMsgs, projects, focus.projectIds, day, reply)
  {
    var found := Get(focusIdx, (user.id, day));
    if found.None? {
      return NoDigestText(user, day);
    }
    var focus := found.value;
    var topClusters := GetUserTopClusters(user, clusters, messages, embeddings, dim);

    var candidates := CollectCandidates(messages, day, focus.projectIds);
    var scored := ScoreCandidates(user, day, clusters, projects, messages, topClusters, focus.projectIds, candidates);
    scored := SortDesc(scored);
    var topMsgs := Items(Take(scored, maxItems));
    assert topMsgs == TopMessages(user, day, clusters, projects, messages, topClusters, focus.projectIds, maxItems);
    digest := GenerateLlmDigest(user, topMsgs, projects, focus.projectIds, day, reply);
  }

  // ---------------------------------------------------------------------
  // generate_llm_digest and build_rule_based_digest

  /** `f"**Daily digest for {user.name} ({user.role}) – Day {day}**"` */
  function Header(user: User, day: int): string {
    "**Daily digest for " + user.name + " (" + RoleName(user.role) + ") – Day " + IntToString(day) + "**"
  }

  const NO_UPDATES: string := "No high-priority updates for your focus projects today."

  /** `generate_llm_digest`, with the LLM's reply (or its failure) as `reply`. */
  function GenerateLlmDigest(user: User, messages: seq<Message>, projects: seq<Project>, focusIds: seq<string>,
                             day: int, reply: Option<string>): string
    requires forall i | 0 <= i < |messages| :: KnownProject(projects, messages[i].projectId)
  {
    if messages == [] then Header(user, day) + "\n\n" + NO_UPDATES
    else
      match reply
      case Some(response) => Header(user, day) + "\n\n" + response
      case None => RuleBasedDigest(user, messages, projects, day)
  }

  /**
    Every digest text opens with the header line; with no messages the LLM's
    reply plays no part and the header is followed by the no-updates line.
   */
  lemma DigestOpensWithHeader(user: User, messages: seq<Message>, projects: seq<Project>, focusIds: seq<string>,
                              day: int, reply: Option<string>)
    requires forall i | 0 <= i < |messages| :: KnownProject(projects, messages[i].projectId)
    ensures Header(user, day) <= GenerateLlmDigest(user, messages, projects, focusIds, day, reply)
    ensures messages == [] ==>
      GenerateLlmDigest(user, messages, projects, focusIds, day, reply)
      == GenerateLlmDigest(user, messages, projects, focusIds, day, None)
      == Header(user, day) + "\n\n" + NO_UPDATES
  {
    var h := Header(user, day);
    var d := GenerateLlmDigest(user, messages, projects, focusIds, day, reply);
    if messages == [] || reply.Some? {
      var rest := if messages == [] then "\n\n" + NO_UPDATES else "\n\n" + reply.value;
      assert d == h + rest;
    } else {
      var lines := RuleBasedLines(user, messages, projects, day);
      assert lines[0] == h;
      JoinStartsWith(lines, "\n");
    }
  }

  /** The one tag a bullet carries: decision, else risk, else blocker. */
  function Tag(m: Message): string {
    if m.isDecision then "[DECISION] "
    else if m.isRisk then "[RISK] "
    else if m.isBlocker then "[BLOCKER] "
    else ""
  }

  /** Each tag appears exactly when its flag is the highest-priority flag set. */
  lemma TagSpec(m: Message)
    ensures Tag(m) == "[DECISION] " <==> m.isDecision
    ensures Tag(m) == "[RISK] " <==> !m.isDecision && m.isRisk
    ensures Tag(m) == "[BLOCKER] " <==> !m.isDecision && !m.isRisk && m.isBlocker
    ensures Tag(m) == "" <==> !m.isDecision && !m.isRisk && !m.isBlocker
  {
    assert "[DECISION] " != "[RISK] " && "[DECISION] " != "[BLOCKER] " && "[RISK] " != "[BLOCKER] ";
    assert "[DECISION] "[1] == 'D' && "[RISK] "[1] == 'R' && "[BLOCKER] "[1] == 'B';
  }

  function Bullets(messages: seq<Message>): (lines: seq<string>)
    ensures |lines| == |messages|
  {
    seq(|messages|, i requires 0 <= i < |messages| => "- " + Tag(messages[i]) + messages[i].text)
  }

  /** `phase.replace('_', ' ').title()` */
  function PhaseTitle(phase: PhaseName): string {
    Title(ReplaceChar(PhaseLabel(phase), '_', ' '))
  }

  /** `detailed_design` becomes two capitalised words in a section heading. */
  lemma DetailedDesignTitle()
    ensures PhaseTitle(DetailedDesign) == "Detailed Design"
  {
    var r := ReplaceChar("detailed_design", '_', ' ');
    assert r == "detailed design";
    TitleOfDetailedDesign();
  }

  lemma TitleOfDetailedDesign()
    ensures Title("detailed design") == "Detailed Design"
  {
  }

  /** `proto_build` becomes two capitalised words in a section heading. */
  lemma ProtoBuildTitle()
    ensures PhaseTitle(ProtoBuild) == "Proto Build"
  {
    var r := ReplaceChar("proto_build", '_', ' ');
    assert r == "proto build";
    assert Title(r) == "Proto Build";
  }

  /** The one-word phases are capitalised; `dvt` and `pvt` are not upper-cased. */
  lemma OneWordPhaseTitles()
    ensures PhaseTitle(Concept) == "Concept"
    ensures PhaseTitle(Dvt) == "Dvt"
    ensures PhaseTitle(Pvt) == "Pvt"
    ensures PhaseTitle(Ramp) == "Ramp"
  {
    assert ReplaceChar("concept", '_', ' ') == "concept";
    assert ReplaceChar("dvt", '_', ' ') == "dvt";
    assert ReplaceChar("pvt", '_', ' ') == "pvt";
    assert ReplaceChar("ramp", '_', ' ') == "ramp";
  }

  /** A project's section: its heading, at most four bullets, and a blank line. */
  function Section(project: Project, day: int, messages: seq<Message>): seq<string>
    requires |project.phases| > 0
  {
    ["### " + project.name + " – " + PhaseTitle(CurrentPhase(project, day))]
    + Bullets(Take(messages, BULLETS_PER_PROJECT)) + [""]
  }

  /** (project id, message) pairs, the input of the grouping loop. */
  function ProjectPairs(messages: seq<Message>): seq<(string, Message)> {
    seq(|messages|, i requires 0 <= i < |messages| => (messages[i].projectId, messages[i]))
  }

  /** `grouped`: the messages by project, projects in order of first appearance. */
  function Grouped(messages: seq<Message>): Dict<string, seq<Message>> {
    GroupPairs(ProjectPairs(messages))
  }

  /** Every key of `grouped` can be looked up in `proj_by_id` and has a phase. */
  ghost predicate GroupsKnown(projById: Dict<string, Project>, grouped: Dict<string, seq<Message>>) {
    forall k | 0 <= k < |grouped| ::
      Get(projById, grouped[k].0).Some? && |Get(projById, grouped[k].0).value.phases| > 0
  }

  /** The sections of the first `k` entries of `grouped`, in the dict's order. */
  function SectionsUpTo(projById: Dict<string, Project>, grouped: Dict<string, seq<Message>>, k: nat, day: int)
    : seq<string>
    requires GroupsKnown(projById, grouped) && k <= |grouped|
  {
    if k == 0 then []
    else
      SectionsUpTo(projById, grouped, k - 1, day)
      + Section(Get(projById, grouped[k - 1].0).value, day, grouped[k - 1].1)
  }

  lemma GroupedKnown(projects: seq<Project>, messages: seq<Message>)
    requires forall i | 0 <= i < |messages| :: KnownProject(projects, messages[i].projectId)
    ensures GroupsKnown(ProjById(projects), Grouped(messages))
  {
    forall k | 0 <= k < |Grouped(messages)| ensures KnownProject(projects, Grouped(messages)[k].0) {
      GroupPairsEntry(ProjectPairs(messages), k);
      var i :| 0 <= i < |messages| && Keys(ProjectPairs(messages))[i] == Grouped(messages)[k].0;
    }
  }

  /** The lines of the rule-based digest. */
  function RuleBasedLines(user: User, messages: seq<Message>, projects: seq<Project>, day: int): seq<string>
    requires forall i | 0 <= i < |messages| :: KnownProject(projects, messages[i].projectId)
  {
    GroupedKnown(projects, messages);
    [Header(user, day), ""] + SectionsUpTo(ProjById(projects), Grouped(messages), |Grouped(messages)|, day)
  }

  /** `build_rule_based_digest` */
  function RuleBasedDigest(user: User, messages: seq<Message>, projects: seq<Project>, day: int): string
    requires forall i | 0 <= i < |messages| :: KnownProject(projects, messages[i].projectId)
  {
    Join(RuleBasedLines(user, messages, projects, day), "\n")
  }

  /**
    The rule-based digest opens with the header and a blank line; it has one
    section per project, in order of the project's first message; a section
    holds that project's messages in their digest order, at most four of them.
   */
  lemma RuleBasedSpec(user: User, messages: seq<Message>, projects: seq<Project>, day: int)
    requires forall i | 0 <= i < |messages| :: KnownProject(projects, messages[i].projectId)
    ensures RuleBasedLines(user, messages, projects, day)[..2] == [Header(user, day), ""]
    ensures Keys(Grouped(messages)) == Dedup(seq(|messages|, i requires 0 <= i < |messages| => messages[i].projectId))
    ensures forall k | 0 <= k < |Grouped(messages)| ::
      && Grouped(messages)[k].1 != []
      && Grouped(messages)[k].1 == ValuesWithKey(ProjectPairs(messages), Grouped(messages)[k].0)
    ensures forall p: Project, ms: seq<Message> | |p.phases| > 0 ::
      |Section(p, day, ms)| == 2 + (if |ms| < BULLETS_PER_PROJECT then |ms| else BULLETS_PER_PROJECT)
  {
    var ps := ProjectPairs(messages);
    GroupPairsKeys(ps);
    assert Keys(ps) == seq(|messages|, i requires 0 <= i < |messages| => messages[i].projectId);
    forall k | 0 <= k < |Grouped(messages)|
      ensures Grouped(messages)[k].1 != [] && Grouped(messages)[k].1 == ValuesWithKey(ps, Grouped(messages)[k].0)
    {
      GroupPairsEntry(ps, k);
    }
  }

  lemma BulletsStep(messages: seq<Message>, j: nat)
    requires j < |messages|
    ensures Bullets(messages[..j + 1]) == Bullets(messages[..j]) + ["- " + Tag(messages[j]) + messages[j].text]
  {
  }

  /** One pass of the project loop of `build_rule_based_digest`: heading, at most four bullets, blank line. */
  method AddSection(lines: seq<string>, project: Project, day: int, messages: seq<Message>)
    returns (out: seq<string>)
    requires |project.phases| > 0
    ensures out == lines + Section(project, day, messages)
  {
    var phase := CurrentPhase(project, day);
    out := lines + ["### " + project.name + " – " + Title(ReplaceChar(PhaseLabel(phase), '_', ' '))];
    var shown := Take(messages, BULLETS_PER_PROJECT);
    for j := 0 to |shown|
      invariant out == lines + ["### " + project.name + " – " + PhaseTitle(phase)] + Bullets(shown[..j])
    {
      var m := shown[j];
      var tag := "";
      if m.isDecision {
        tag := "[DECISION] ";
      } else if m.isRisk {
        tag := "[RISK] ";
      } else if m.isBlocker {
        tag := "[BLOCKER] ";
      }
      assert tag == Tag(m);
      BulletsStep(shown, j);
      out := out + ["- " + tag + m.text];
    }
    assert shown[..|shown|] == shown;
    out := out + [""];
  }

  lemma GroupedStep(messages: seq<Message>, i: nat)
    requires i < |messages|
    ensures Grouped(messages[..i + 1]) == Append(Grouped(messages[..i]), messages[i].projectId, messages[i])
  {
    assert ProjectPairs(messages[..i + 1]) == ProjectPairs(messages[..i]) + [(messages[i].projectId, messages[i])];
    GroupPairsSnoc(ProjectPairs(messages[..i]), (messages[i].projectId, messages[i]));
  }

  /** The `defaultdict(list)` loop of `build_rule_based_digest`. */
  method GroupByProject(messages: seq<Message>) returns (grouped: Dict<string, seq<Message>>)
    ensures grouped == Grouped(messages)
  {
    grouped := [];
    for i := 0 to |messages|
      invariant grouped == Grouped(messages[..i])
    {
      GroupedStep(messages, i);
      grouped := Append(grouped, messages[i].projectId, messages[i]);
    }
    assert messages[..|messages|] == messages;
  }

  lemma SectionsUpToStep(projById: Dict<string, Project>, grouped: Dict<string, seq<Message>>, k: nat, day: int)
    requires GroupsKnown(projById, grouped) && k < |grouped|
    ensures SectionsUpTo(projById, grouped, k + 1, day)
            == SectionsUpTo(projById, grouped, k, day) + Section(Get(projById, grouped[k].0).value, day, grouped[k].1)
  {
  }

  lemma AppendAssoc(a: seq<string>, b: seq<string>, c: seq<string>)
    ensures (a + b) + c == a + (b + c)
  {
  }

  /** The project loop of `build_rule_based_digest`: one section per entry of `grouped`, in order. */
  method AddSections(lines: seq<string>, projById: Dict<string, Project>, grouped: Dict<string, seq<Message>>,
                     day: int) returns (out: seq<string>)
    requires GroupsKnown(projById, grouped)
    ensures out == lines + SectionsUpTo(projById, grouped, |grouped|, day)
  {
    out := lines;
    for k := 0 to |grouped|
      invariant out == lines + SectionsUpTo(projById, grouped, k, day)
    {
      var project := Get(projById, grouped[k].0).value;
      ghost var done := SectionsUpTo(projById, grouped, k, day);
      out := AddSection(out, project, day, grouped[k].1);
      SectionsUpToStep(projById, grouped, k, day);
      AppendAssoc(lines, done, Section(project, day, grouped[k].1));
    }
  }

  /** The `lines` that `build_rule_based_digest` builds. */
  method BuildRuleBasedLines(user: User, messages: seq<Message>, projects: seq<Project>, day: int)
    returns (lines: seq<string>)
    requires forall i | 0 <= i < |messages| :: KnownProject(projects, messages[i].projectId)
    ensures lines == RuleBasedLines(user, messages, projects, day)
  {
    var projById := ProjById(projects);
    var grouped := GroupByProject(messages);
    GroupedKnown(projects, messages);
    lines := [Header(user, day)];
    lines := lines + [""];
    lines := AddSections(lines, projById, grouped, day);
  }

  /** `build_rule_based_digest` */
  method BuildRuleBasedDigest(user: User, messages: seq<Message>, projects: seq<Project>, day: int)
    returns (text: string)
    requires forall i | 0 <= i < |messages| :: KnownProject(projects, messages[i].projectId)
    ensures text == RuleBasedDigest(user, messages, projects, day)
  {
    var lines := BuildRuleBasedLines(user, messages, projects, day);
    text := Join(lines, "\n");
  }
}

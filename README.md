# pdigest ranking core in Dafny

This project models the deterministic ranking pipeline of *pdigest*, a
daily-digest generator for robotics engineering teams. The pipeline turns a
stream of chat messages into a short, ordered digest for each user. It has
three parts.

- **Clustering bookkeeping** (`clustering.dfy`). It covers:
  - the day filter, keyed by days since 2025-01-01;
  - the sliding window, keyed by days since the first message, and its
    50-message guard;
  - the trivial-partition fallback, and the grouping of K-means labels into
    clusters;
  - the remapping of window-local indices to global ones;
  - salience scoring, and the per-cluster top-k selection of
    representatives;
  - their composition for one day.
- **Relevance ranking** (`digest.dfy`). It covers:
  - the engagement cascade, look-back cutoff and freshness multiplier that
    build a user's interest vector;
  - the ranking of the top four clusters by similarity, with the
    zero-vector rule and the `(similarity, id)` tie-break;
  - the focus index;
  - the role/phase topic weight;
  - candidate filtering, scoring, stable sorting and truncation for one
    user and day;
  - the two deterministic digest texts: the empty-digest header and the
    rule-based fallback digest.
- **Fixtures** (`fake_data.dfy`). It covers:
  - phase lookup (first match, with a fall-back to the last phase);
  - the ten generated users and the two projects' phase calendars;
  - the 30-day focus records.

## Supporting modules

- **Dictionaries** (`dicts.dfy`): a Python `dict` is an insertion-ordered
  sequence of key/value pairs.
  - `Put` keeps an existing key in its place.
  - `GroupPairs` is a loop of `defaultdict(list)` appends.
  - `FromPairs` is a dict comprehension; the last pair with a key wins.
- **Sorting** (`sorting.dfy`): `list.sort(reverse=True)` and
  `sorted(..., reverse=True)` are one stable descending insertion sort,
  `SortDesc`, over `Ranked(score, tie, item)` entries.
  - A score-only sort uses tie 0.
  - The `(similarity, cid)` tuple sort uses the cluster id as the tie.
- **Vectors** (`vectors.dfy`): numpy vectors are `seq<real>`. A norm of 0 is
  "every component is 0" (`IsZero`).
- **Text** (`text.dfy`): the string operations the digest text needs
  (`in`, `lower`, `title`, `join`, `str` of an integer).
- **Records** (`models.dfy`): the records of
  `src/robotics_digest/models/models.py`.
  - Timestamps are whole seconds.
  - `DayOffset` is `timedelta.days`, a floor division by 86400.

## Foreign calls as parameters

Foreign calls become parameters of the model:

- the K-means fit's labels (`labels`, `windowLabels`, `dayLabels`);
- the message embeddings (`embeddings`, rows of width `dim`);
- the LLM's answer (`reply: Option<string>`, where `None` means the call
  raised and the rule-based fallback runs).

## Day anchors

The two day anchors of the source are kept apart:

- `DayFilter`, `CandidateIdxs` and the candidate filter count days from
  `EPOCH_2025` (2025-01-01 00:00).
- `WindowIdxs` and the interest vector's cutoff count days from the first
  message's timestamp.

## Model

| member | source | states |
|---|---|---|
| Models.DayOffset | src/robotics_digest/clustering/clustering.py:49 | the day offset is the floor of the time difference in days: `d*86400 <= ts-origin < (d+1)*86400` |
| Dicts.GroupPairsGet | src/robotics_digest/clustering/clustering.py:77-80 | after the `defaultdict(list)` append loop, a key maps to exactly the values paired with it, in order, and only keys that occur are present |
| Dicts.FromPairsGet | src/robotics_digest/digest/digest.py:96-97 | a dict comprehension maps each key to the value of the last pair with that key; keys are distinct; a key is present iff some pair carries it |
| Sorting.SortDescSpec | src/robotics_digest/digest/digest.py:90 | `sort(reverse=True)` returns a permutation of its input in non-increasing order |
| Sorting.SortDescStable | src/robotics_digest/digest/digest.py:161 | the sort is stable: entries with equal sort keys keep their relative input order |
| Sorting.TopOfSort | src/robotics_digest/digest/digest.py:161-162 | the first `m` entries of the sorted list are exactly `min(m, len(s))` input entries, sorted, none below an entry cut off, and entries of equal key keep their input order |
| Text.ContainsAt | src/robotics_digest/digest/digest.py:49 | `needle in haystack` holds iff the needle occurs at some position of the haystack |
| Clustering.DayFilter | src/robotics_digest/clustering/clustering.py:45-50 | exactly the indices whose day offset from 2025-01-01 equals `day`, strictly ascending |
| Clustering.WindowIdxs | src/robotics_digest/clustering/clustering.py:20-24 | exactly the indices whose day offset from the first message lies in `[startDay, startDay+days)`, strictly ascending |
| Clustering.TrivialPartitionSpec | src/robotics_digest/clustering/clustering.py:73-74 | the fallback maps every `i < n` to `[i]` and nothing else: `n` singleton clusters partitioning `0..n-1` |
| Clustering.GroupByLabelSpec | src/robotics_digest/clustering/clustering.py:77-80 | label grouping has the occurring labels as keys in first-occurrence order; cluster `l` holds exactly the indices labelled `l`; the clusters partition `0..n-1` |
| Clustering.ClusterSpecPartition | src/robotics_digest/clustering/clustering.py:68-80 | whichever branch runs, `cluster_messages` partitions the message indices |
| Clustering.GroupLabels | src/robotics_digest/clustering/clustering.py:77-80 | the label loop builds exactly the label grouping `GroupByLabel`, whose properties `GroupByLabelSpec` states |
| Clustering.ClusterMessages | src/robotics_digest/clustering/clustering.py:68-80 | the loop builds the fallback or the label grouping, and its result partitions `0..len(messages)-1` |
| Clustering.RemapPartition | src/robotics_digest/clustering/clustering.py:36-41 | mapping local indices back through the window keeps the cluster ids and partitions exactly the window's global indices |
| Clustering.RemapToGlobal | src/robotics_digest/clustering/clustering.py:37-39 | the loop over the local clusters builds exactly the remapped dict `Remap`, ids in the local dict's order |
| Clustering.RelevantPeriodSpec | src/robotics_digest/clustering/clustering.py:20-41 | fewer than 50 window messages give the empty map; otherwise the global clusters keep the local ids and partition exactly the window indices |
| Clustering.ClusterRelevantPeriod | src/robotics_digest/clustering/clustering.py:12-41 | the remapping loop computes `RelevantPeriod`, whose properties `RelevantPeriodSpec` states |
| Clustering.TopOfCluster | src/robotics_digest/clustering/clustering.py:103-104 | a cluster contributes `min(maxPer, len(cluster))` of its own members |
| Clustering.TopOfClusterOrder | src/robotics_digest/clustering/clustering.py:103-104 | kept members are in non-increasing score order and none scores below a dropped member |
| Clustering.TopOfClusterStable | src/robotics_digest/clustering/clustering.py:103-104 | for every score, the kept members with that score are a prefix of the cluster's members with that score, in list order |
| Clustering.TopOfClusterDistinct | src/robotics_digest/clustering/clustering.py:103-104 | a cluster without repeated indices yields representatives without repeats |
| Clustering.Representatives | src/robotics_digest/clustering/clustering.py:101-105 | every selected index is a valid message index and a member of some cluster |
| Clustering.RepresentativesDistinct | src/robotics_digest/clustering/clustering.py:101-105 | disjoint clusters yield a selection without repeated indices |
| Clustering.SelectRepresentatives | src/robotics_digest/clustering/clustering.py:82-105 | the scoring loop (3 per decision, 2 per risk, 2 per blocker, 1 per reaction) and the `extend` loop compute `Representatives` of the `Salience` scores, cluster blocks in dict order |
| Clustering.ForDaySpec | src/robotics_digest/clustering/clustering.py:58-65 | a day without messages yields `[]`; every returned index is a message of that day; no index is returned twice |
| Clustering.ClusterForDay | src/robotics_digest/clustering/clustering.py:52-65 | the composition computes `ForDay`, whose properties `ForDaySpec` states |
| FakeData.GenerateUsers | src/robotics_digest/fake_data/fake_data.py:10-17 | ten users; user `i` has id `"U"+str(i)`, name `names[i]` and role `roles[i mod 5]`; ids are distinct |
| FakeData.FirstPhaseHolding | src/robotics_digest/fake_data/fake_data.py:38-40 | finds the first phase in list order whose day range holds `day`, or reports that none does |
| FakeData.CurrentPhase | src/robotics_digest/fake_data/fake_data.py:37-41 | the result is always the name of one of the project's phases |
| FakeData.CurrentPhaseFirstMatch | src/robotics_digest/fake_data/fake_data.py:38-40 | the first phase holding `day` decides, whatever later phases say |
| FakeData.CurrentPhaseFallback | src/robotics_digest/fake_data/fake_data.py:41 | with no phase holding `day`, the last phase's name is returned |
| FakeData.GenerateProjects | src/robotics_digest/fake_data/fake_data.py:19-35 | two projects, P1 and P2; each has at least one phase, and its phases' day ranges are non-empty, ascending and disjoint |
| FakeData.MobileBaseCalendar | src/robotics_digest/fake_data/fake_data.py:27-41 | P2 maps days 10-14, 15-19 and 20-29 to concept, detailed_design and proto_build; every other day falls back to proto_build |
| FakeData.MobileBaseBeforeDayTen | src/robotics_digest/fake_data/fake_data.py:27-41 | for P2 every day before 10 falls back to `proto_build` |
| FakeData.RobotArmCalendar | src/robotics_digest/fake_data/fake_data.py:21-41 | P1 maps days 0-4, 5-14, 15-24, 25-29 to concept, detailed_design, proto_build, dvt, and every other day to dvt |
| FakeData.FocusProjects | src/robotics_digest/fake_data/fake_data.py:48-53 | P1 is focused iff day < 20, P2 iff day >= 10; the list is `["P1"]`, `["P1","P2"]` or `["P2"]` |
| FakeData.GenerateUserFocus | src/robotics_digest/fake_data/fake_data.py:43-55 | `30*len(users)` records; record `k` is user `k mod len(users)` on day `k div len(users)` with the focus rule's list (day-major order) |
| Digest.EngagementWeightSpec | src/robotics_digest/digest/digest.py:34-50 | of `EngagementWeight`, the per-message weight: first match wins: authored 3.0 (even if also reacted or mentioned), else reply 2.0, else reactor 1.5, else mention 1.0, else 0.0; positive iff some signal holds; within [0, 3] |
| Digest.FreshnessBounds | src/robotics_digest/digest/digest.py:53-54 | the multiplier is at least 0.1; at most 1.0 for a non-negative age; exactly 1.0 iff the age is 0 |
| Digest.FinalWeightPositive | src/robotics_digest/digest/digest.py:55-56 | the final weight is positive iff the engagement weight is |
| Digest.Engagements | src/robotics_digest/digest/digest.py:30-57 | every recorded weight is positive and points at a message |
| Digest.EngagementsRecorded | src/robotics_digest/digest/digest.py:25-57 | a message is recorded iff it is not after the cutoff (the cutoff itself included) and its engagement weight is positive |
| Digest.EngagementsWeighted | src/robotics_digest/digest/digest.py:53-57 | each record carries engagement weight times freshness of its message, in message order |
| Digest.WeighEngagement | src/robotics_digest/digest/digest.py:34-50 | the `if`/`elif` cascade computes `EngagementWeight`, whose priorities `EngagementWeightSpec` states |
| Digest.CollectEngagements | src/robotics_digest/digest/digest.py:28-57 | the first loop, with its `continue` for messages after the cutoff, builds exactly `Engagements` |
| Digest.AccumulateWeighted | src/robotics_digest/digest/digest.py:63-68 | the second loop computes the weighted sum of the recorded rows and the total weight |
| Digest.TotalWeightPositive | src/robotics_digest/digest/digest.py:64-68 | a non-empty list of positive weights has a positive total |
| Digest.WeightedSum | src/robotics_digest/digest/digest.py:63-67 | the weighted sum has the embedding width |
| Digest.InterestVector | src/robotics_digest/digest/digest.py:59-70 | the interest vector has the embedding width |
| Digest.InterestVectorSpec | src/robotics_digest/digest/digest.py:59-70 | no record gives the zero vector; otherwise the total weight is positive and the vector times the total is the weighted sum |
| Digest.ScaledAverage | src/robotics_digest/digest/digest.py:70 | dividing the weighted sum by a positive total gives a vector that times the total is the sum |
| Digest.UserInterestVector | src/robotics_digest/digest/digest.py:12-70 | the two loops compute `InterestVector` with the given look-back |
| Digest.ClusterScores | src/robotics_digest/digest/digest.py:81-88 | one `(similarity, cid)` entry per cluster, in dict order, the id as tie-break |
| Digest.ScoreClusters | src/robotics_digest/digest/digest.py:81-88 | the loop over the clusters builds exactly `ClusterScores` |
| Digest.ClusterScoresZeroRule | src/robotics_digest/digest/digest.py:83-87 | the similarity is 0 when the centroid or the interest vector is zero, and the dot product otherwise |
| Digest.ClusterScoresIdKeyed | src/robotics_digest/digest/digest.py:82-88 | distinct cluster ids give score entries keyed by distinct ids |
| Digest.TopById | src/robotics_digest/digest/digest.py:90-91 | the first `m` of the sorted entries are `min(m, n)` distinct entries, strictly descending by (score, id), each above every entry left out |
| Digest.TopClustersSpec | src/robotics_digest/digest/digest.py:81-91 | `min(4, len(clusters))` distinct cluster ids, all keys of `clusters`, strictly descending by (similarity, id), none ranked below a cluster left out |
| Digest.TopByIdEqualScores | src/robotics_digest/digest/digest.py:90-91 | with equal scores the kept ids are strictly descending and every id left out is below every id kept |
| Digest.ZeroInterestTopClusters | src/robotics_digest/digest/digest.py:84-91 | for a zero interest vector the top clusters are the largest ids, in descending order |
| Digest.GetUserTopClusters | src/robotics_digest/digest/digest.py:72-91 | the loop and sort compute `TopClusters` of the 14-day interest vector |
| Digest.FocusPairs | src/robotics_digest/digest/digest.py:97 | one `((user, day), record)` pair per record, in list order |
| Digest.FocusIndexHas | src/robotics_digest/digest/digest.py:96-97 | the index `BuildFocusIndex` builds holds `(u, d)` iff some record is for user `u` on day `d` |
| Digest.FocusIndexLast | src/robotics_digest/digest/digest.py:96-97 | the indexed record for `(u, d)` is the last record for that user and day |
| Digest.FixtureFocus | src/robotics_digest/digest/digest.py:96-97 | on the generated focus records, each user and day below 30 is indexed with the focus rule's project list |
| Digest.RoleTopicWeightSpec | src/robotics_digest/digest/digest.py:99-116 | of `RoleTopicWeight`: at most one rule fires: 3.0 when the role/phase rule applies and 1.0 otherwise, plus 0.2 per reaction; hence at least 1.0 |
| Digest.ScmBlockerWeight | src/robotics_digest/digest/digest.py:108-115 | for SCM a blocker without reactions weighs exactly 3.0 in any phase |
| Digest.CandidateIdxs | src/robotics_digest/digest/digest.py:139-146 | exactly the messages of `day` (from 2025-01-01) in a focused project, ascending |
| Digest.CandidateIdxsStep | src/robotics_digest/digest/digest.py:140-146 | one more message adds its index exactly when it is a candidate |
| Digest.ClusterBonusSpec | src/robotics_digest/digest/digest.py:155-158 | the bonus is 1.0 iff some top cluster holds the message, else 0.0 |
| Digest.Scored | src/robotics_digest/digest/digest.py:151-159 | one scored entry per candidate |
| Digest.ScoredSpec | src/robotics_digest/digest/digest.py:151-159 | one entry per candidate: entry `k` is the `k`-th message of `day` in a focused project, in message order, scored with its role/phase weight plus 1.0 exactly when a top cluster holds it |
| Digest.TopMessages | src/robotics_digest/digest/digest.py:161-162 | exactly `min(max_items, len(candidates))` messages, each a message of `day` in a focused project whose project is known |
| Digest.TopMessagesSpec | src/robotics_digest/digest/digest.py:161-162 | the kept entries are exactly `min(max_items, len(scored))` scored candidates in non-increasing score order, none below a dropped one, equal scores in candidate order |
| Digest.CollectCandidates | src/robotics_digest/digest/digest.py:139-146 | the candidate loop computes `CandidateIdxs` |
| Digest.ScoreCandidates | src/robotics_digest/digest/digest.py:151-159 | the scoring loop, with its early `break`, computes `Scored` |
| Digest.BuildDigestForUser | src/robotics_digest/digest/digest.py:118-165 | a missing focus record gives `"No digest for {name} on day {day}."`; otherwise the digest of `TopMessages` for the top clusters of the 14-day interest vector |
| Digest.DigestOpensWithHeader | src/robotics_digest/digest/digest.py:176-230 | every digest `GenerateLlmDigest` produces (the reply, or `RuleBasedDigest` when the call failed) opens with the header; with no messages the reply plays no part and the text is the header, a blank line and the no-updates line |
| Digest.TagSpec | src/robotics_digest/digest/digest.py:247-253 | one tag per bullet, DECISION over RISK over BLOCKER, empty iff no flag is set |
| Digest.Bullets | src/robotics_digest/digest/digest.py:246-254 | one bullet line per message shown |
| Digest.DetailedDesignTitle | src/robotics_digest/digest/digest.py:245 | `detailed_design` is shown as "Detailed Design" |
| Digest.ProtoBuildTitle | src/robotics_digest/digest/digest.py:245 | `proto_build` is shown as "Proto Build" |
| Digest.OneWordPhaseTitles | src/robotics_digest/digest/digest.py:245 | the one-word phases are shown capitalised |
| Digest.GroupedKnown | src/robotics_digest/digest/digest.py:242-244 | when every message's project is known, so is every group's key |
| Digest.RuleBasedSpec | src/robotics_digest/digest/digest.py:232-257 | the lines `RuleBasedDigest` joins: header then blank line; one group per project in first-appearance order, holding that project's messages in order; each section is a title, at most four bullets and a blank line |
| Digest.GroupByProject | src/robotics_digest/digest/digest.py:235-237 | the grouping loop computes `Grouped` |
| Digest.AddSection | src/robotics_digest/digest/digest.py:243-255 | appends one project's section to the lines |
| Digest.AddSections | src/robotics_digest/digest/digest.py:242-255 | appends the sections of every group, in group order |
| Digest.BuildRuleBasedLines | src/robotics_digest/digest/digest.py:234-255 | the loops build `RuleBasedLines` |
| Digest.BuildRuleBasedDigest | src/robotics_digest/digest/digest.py:232-257 | the lines joined with newlines: `RuleBasedDigest` |

## Left out

- The K-means fit (src/robotics_digest/clustering/clustering.py:75-76) is a
  foreign library call. Its labels are a parameter.
  - The model does not constrain how the labels relate to `n_clusters` or
    to the embeddings.
  - `cluster_messages` therefore takes no embeddings.
- The LLM prompt and call:
  - Building the context and prompt (src/robotics_digest/digest/digest.py:179-214)
    and calling `ollama.generate` are foreign I/O.
  - The reply is the `reply` parameter.
  - The failure `print` is not modelled.
  - The project lookup while the context is built raises `KeyError` for an
    unknown project. `GenerateLlmDigest` requires every message's project
    to be known instead.
- Embeddings: `embeddings.py`, `vector_store.py`, `main.py` and `__init__.py`
  are not part of this model (model loading, database client, demo
  printing, re-exports).
- The random message generators `sample_message_text` and
  `generate_messages` draw from a seeded pseudo-random generator. They are
  not part of this model.
- Floating point: weights, similarities and vectors are exact reals.
  - IEEE-754 rounding (0.2·n, the freshness division, numpy mean and dot)
    is not modelled.
  - `np.linalg.norm(x) == 0` is "every component is 0".
- Empty clusters would make numpy's mean NaN. `ClustersUsable` requires
  every cluster to be non-empty, with embedding rows of width `dim`.
- Timestamps are whole seconds; sub-second parts of `datetime` are dropped.
- Text: `lower` and `title` act on ASCII letters only, with no Unicode case
  mapping.
- `max_items` and `max_per_cluster` are `nat`, so negative slice bounds are
  not modelled.
- Python default arguments are parameters without defaults: `max_items = 15`
  (src/robotics_digest/digest/digest.py:126), `days = 14` and `n_clusters = 12`
  of `cluster_relevant_period` (src/robotics_digest/clustering/clustering.py:16-17),
  `n_clusters = 6` of `cluster_for_day` (line 56), `n_clusters = 8` of
  `cluster_messages` (line 71) and `max_per_cluster = 3` of
  `select_representatives` (line 86). `ForDay` uses 3 for
  `max_per_cluster`, since `cluster_for_day` relies on that default.
- Look-back:
  - `UserInterestVector` and `InterestVector` require `lookbackDays != 0`;
    the source raises `ZeroDivisionError` there.
  - The interest vector requires a non-empty message list, where the source
    raises `IndexError` on `messages[0]`.
- Clustering.WindowIdxs, Clustering.RelevantPeriod, Clustering.RelevantPeriodSpec
  and Clustering.ClusterRelevantPeriod require a non-empty message list. On an
  empty list `cluster_relevant_period` raises `IndexError` at `messages[0]`
  (src/robotics_digest/clustering/clustering.py:20).
- `current_phase` on a project without phases raises `IndexError`:
  - `CurrentPhase` requires a phase.
  - `KnownProject` also demands one for every project the digest looks up.
- `BuildDigestForUser` requires, only when the user has a focus record for
  the day, every candidate's project to be known (`CandidatesKnown`), the
  messages to be non-empty and usable embeddings and clusters. The source raises
  `KeyError` and `IndexError` in those cases.
- In-place sorts (`list.sort`) are modelled as a pure stable sort whose
  result is reassigned. Aliasing of the sorted list is not captured.
- Clustering.Representatives: its contract says where each selected index
  comes from. The block-by-block concatenation in dict order is its
  definition, and no separate lemma restates it.
- Digest.Bullets: states only the number of lines. The bullet text
  (`"- " + tag + text`) is given by the definition and by `TagSpec`.

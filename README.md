# Risk-weighted evacuation routing and hazard-report validation, in Dafny

This project models the algorithmic core of an evacuation-support backend. The core has three parts.

- **Routing** (`backend/apps/routing/services/dijkstra.py`, `ModifiedDijkstraService`).
  - Road segments become an undirected adjacency dictionary. Each edge weighs `base_distance + predicted_risk × risk_multiplier`.
  - A lazy-deletion Dijkstra search finds the least-weight route. It stops when the destination is popped and rebuilds the path from parent links.
  - The route is classified Green, Yellow or Red by its accumulated risk.
  - The result list is the best route followed by two copies flagged `alternative`, cut to `k` by Python slicing.
  - The public entry point snaps each coordinate that is not a node to the nearest node, by squared planar distance.
- **Plausibility scoring** (`backend/apps/validation/services/naive_bayes.py`, `NaiveBayesValidator`).
  - Training computes class priors and per-class counts of hazard type and description-length bucket.
  - `validate_report` scores a report by the normalised posterior of the valid class, with the source's smoothing `(count + 0.5) / (class_total + 2)`.
  - An untrained validator trains itself from its default training data first.
- **Consensus scoring** (`backend/apps/validation/services/consensus.py`, `ConsensusScoringService`).
  - Counts the reports within a radius of a location, optionally skipping one report id.
  - Blends the count with the plausibility score as `alpha × score + (1 − alpha) × (0.5 + min(0.3, 0.1 × count))`.

Files:

- `wrappers.dfy`: `Option`.
- `road_graph.dfy`: module `RoadGraph`, `build_graph` and the shape of the graph it builds.
- `route_search.dfy`: module `RouteSearch`. It holds the search, its correctness proof, the k routes, nearest-node snapping and `get_safest_routes`.
- `scenario.dfy`: module `RouteScenario`, an illustrative three-segment instance.
- `test_scenario.dfy`: module `RouteTestScenario`, the routing tests' own four-node geometry.
- `naive_bayes.dfy`: module `NaiveBayes`.
- `consensus.dfy`: module `Consensus`.

Modelling choices:

- Node keys are `Key(lat, lng)` in millionths of a degree. They stand for the source's six-decimal `"lat,lng"` strings, so squared distances are exact integers.
- Floating-point values are `real`.
- The validator is a `class` whose fields `train` overwrites.
- The search loop and its inner relaxation loop are methods with loop invariants.
- The search state is four dictionaries (`dist`, `risk_sum`, `path_dist`, `parent`) and a queue of `(priority, node)` entries.
- The search is proved correct:
  - a returned route is a walk of the graph whose weight, distance and risk are the sums over its edges;
  - no walk from the start to the destination weighs less;
  - no route is returned exactly when the destination cannot be reached.

## Model

| member | source | states |
|---|---|---|
| RoadGraph.SegmentWeight | backend/apps/routing/services/dijkstra.py:48 | With non-negative risk and multiplier an entry weighs at least its distance; with a zero multiplier or zero risk it weighs exactly its distance. |
| RoadGraph.Append | backend/apps/routing/services/dijkstra.py:52-54 | `adj[k].append(e)` on the `defaultdict`: `k` becomes a key, its list gains `e` at the end, and every other list is unchanged. |
| RoadGraph.GraphOf | backend/apps/routing/services/dijkstra.py:41-55 | The adjacency is empty exactly when there are no segments; the lemmas below characterise its keys and entries. |
| RoadGraph.BuildGraph | backend/apps/routing/services/dijkstra.py:33-55 | The adjacency is the one obtained by appending, per segment in order, the forward entry at its start and the backward entry at its end. The node set is the set of segment endpoints, and it equals the adjacency's keys. |
| RoadGraph.GraphKeysAreEndpoints | backend/apps/routing/services/dijkstra.py:50-54 | A node has adjacency entries exactly when it is an endpoint of some segment. |
| RoadGraph.EdgeHasOrigin | backend/apps/routing/services/dijkstra.py:52-54 | Every entry in a node's list was put there by a segment that starts or ends at that node. |
| RoadGraph.OriginHasEdge | backend/apps/routing/services/dijkstra.py:52-54 | Every segment's forward entry is in its start's list, and its backward entry is in its end's list. |
| RoadGraph.EdgeOrigin | backend/apps/routing/services/dijkstra.py:52-54 | An entry is in a node's list if and only if some segment contributes it there. |
| RoadGraph.BuiltGraphClosed | backend/apps/routing/services/dijkstra.py:50-54 | Every entry points to a node of the graph, so `graph[u]` never misses during the search. |
| RoadGraph.BuiltGraphWeights | backend/apps/routing/services/dijkstra.py:46-52 | Every entry's weight is its distance plus its risk times the multiplier. |
| RoadGraph.BuiltGraphSymmetric | backend/apps/routing/services/dijkstra.py:52-54 | The graph is bidirectional: each entry u→v is mirrored by an entry v→u with the same weight, distance and risk. |
| RoadGraph.BuiltGraphNonNegative | backend/apps/routing/services/dijkstra.py:46-48 | With non-negative distances, risks and multiplier, every entry's weight, distance and risk are non-negative. |
| RouteSearch.RiskLevel | backend/apps/routing/services/dijkstra.py:128-133 | Green if and only if risk < 0.3. Yellow if and only if 0.3 ≤ risk < 0.7. Red if and only if risk ≥ 0.7. |
| RouteSearch.RiskLevelMonotone | backend/apps/routing/services/dijkstra.py:128-133 | More accumulated risk never gives a milder level. |
| RouteSearch.RiskLevelBoundaries | backend/apps/routing/tests/test_dijkstra.py:71-78 | The boundary values give the expected levels: 0.0 and 0.29 are Green, 0.3 and 0.69 Yellow, 0.7 and 1.0 Red. |
| RouteSearch.PopMin | backend/apps/routing/services/dijkstra.py:83 | `heappop` removes one entry of least priority; the rest plus the removed entry are the old queue as a multiset. |
| RouteSearch.Reconstruct | backend/apps/routing/services/dijkstra.py:87-92 | Following parent links from the destination back to the start yields exactly the walk the search recorded for it, start first. |
| RouteSearch.Relax | backend/apps/routing/services/dijkstra.py:107-111 | An improving relaxation gives its target a distance, risk and length entry, and records `u` as its parent. |
| RouteSearch.RelaxEdges | backend/apps/routing/services/dijkstra.py:103-112 | Relaxing all entries of the popped node keeps the search invariant, and that node is then relaxed. A node already relaxed leaves state and queue unchanged. |
| RouteSearch.RelaxEntry | backend/apps/routing/services/dijkstra.py:104-112 | One entry updates distance, risk, length and parent of its target, and pushes it, exactly when `dist[u] + w` beats the target's distance or it has none; the loop invariant is kept either way. |
| RouteSearch.Frontier | backend/apps/routing/services/dijkstra.py:82-112 | Any walk from the start to a node not yet settled has a queued entry no heavier than the walk. |
| RouteSearch.SettleOptimal | backend/apps/routing/services/dijkstra.py:83-86 | A node popped with the least queued priority, equal to its distance, has its true shortest distance. |
| RouteSearch.ExhaustedUnreachable | backend/apps/routing/services/dijkstra.py:82-115 | When the queue runs dry before the destination is popped, no walk reaches the destination. |
| RouteSearch.Search | backend/apps/routing/services/dijkstra.py:77-112 | A found route is a walk from start to destination. Its weight, distance and risk are the sums over its entries, its level is the level of its risk, and no walk weighs less. Nothing is found if and only if the destination is unreachable. |
| RouteSearch.OutsideUnreachable | backend/apps/routing/services/dijkstra.py:68-70 | A destination outside the graph cannot be reached. |
| RouteSearch.SlicePrefix | backend/apps/routing/services/dijkstra.py:126 | `xs[:k]` is a prefix of `xs`. Its length is `min(k, len)` for `k ≥ 0`, and `max(0, len + k)` for negative `k`. |
| RouteSearch.DijkstraKRoutes | backend/apps/routing/services/dijkstra.py:57-126 | With the start or destination outside the graph, or the destination unreachable, the list is empty. Otherwise it has `len([0,1,2][:k])` routes, each a shortest route. The first is not an alternative, and the others are its copies flagged `alternative`. |
| RouteSearch.NearestNode | backend/apps/routing/services/dijkstra.py:161-180 | With no nodes the key itself is returned. Otherwise the result is a node whose squared distance to the key is no larger than any other node's. |
| RouteSearch.SqDist | backend/apps/routing/services/dijkstra.py:174 | The squared planar distance is never negative. |
| RouteSearch.SqDistZero | backend/apps/routing/services/dijkstra.py:174 | The squared distance is non-negative and is zero exactly between equal keys. |
| RouteSearch.NearestOfNode | backend/apps/routing/services/dijkstra.py:151-154 | A key that is itself a node is its own unique nearest node, so snapping it would not move it. |
| RouteSearch.Snap | backend/apps/routing/services/dijkstra.py:151-154 | A key that is a node is kept; otherwise it moves to a nearest node (or stays when there are none). |
| RouteSearch.BuiltGraphReady | backend/apps/routing/services/dijkstra.py:33-55 | The built graph with non-negative segments is closed and has non-negative weights. Every entry splits its weight as distance plus risk times the multiplier. |
| RouteSearch.WalkWeightSplit | backend/apps/routing/services/dijkstra.py:104-106 | On such a graph every walk weighs its distance plus its risk times the multiplier. |
| RouteSearch.WalkNonNegative | backend/apps/routing/services/dijkstra.py:93-98 | On a graph with non-negative attributes, every walk's distance and risk are non-negative. |
| RouteSearch.RoutesSplit | backend/apps/routing/services/dijkstra.py:95-101 | Every shortest route's `weight` is `total_distance + total_risk × multiplier`, with non-negative totals. |
| RouteSearch.GetSafestRoutes | backend/apps/routing/services/dijkstra.py:135-159 | The endpoints are snapped as above and no segments give no routes. An unreachable destination gives no routes. Otherwise the routes are as `DijkstraKRoutes` states on the built graph, and each weighs its distance plus its risk times the multiplier. |
| RouteScenario.ScenarioGraph | backend/apps/routing/services/dijkstra.py:39-55 | Segments A–B (100, 0.1), B–C (100, 0.2) and A–C (150, 0.5) with multiplier 100 build the lists A: [B/110, C/200], B: [A/110, C/120], C: [B/120, A/200]. |
| RouteScenario.WalkWeightAtLeast | backend/apps/routing/services/dijkstra.py:103-107 | When every entry weighs at least `w`, a walk of `n` hops weighs at least `n·w`. |
| RouteScenario.ScenarioBest | backend/apps/routing/services/dijkstra.py:77-101 | On that instance every shortest A→C route is the direct segment: weight 200, distance 150, risk 0.5, Yellow. |
| RouteScenario.ScenarioRoutes | backend/apps/routing/services/dijkstra.py:135-159 | `get_safest_routes` from A to C returns three routes, all the direct segment, the last two flagged as alternatives. |
| RouteTestScenario.TestGraph | backend/apps/routing/tests/test_dijkstra.py:24-31 | The tests' segments A–B (100, 0.1), B–C (100, 0.2) and A–D (150, 0.5), D a fourth node east of C, with multiplier 100 build A: [B/110, D/200], B: [A/110, C/120], C: [B/120], D: [A/200]. |
| RouteTestScenario.TestBest | backend/apps/routing/services/dijkstra.py:77-101 | On the tests' graph every shortest A→C route is A, B, C: weight 230, distance 200, risk 0.3, Yellow. |
| RouteTestScenario.TestRoutes | backend/apps/routing/tests/test_dijkstra.py:50-56 | `get_safest_routes` from A to C with `k=3`, as the test calls it, returns three routes, all A, B, C, the last two flagged as alternatives. |
| NaiveBayes.BucketDescLen | backend/apps/validation/services/naive_bayes.py:42-47 | Short if and only if length < 20. Medium if and only if 20 ≤ length < 60. Long if and only if length ≥ 60. |
| NaiveBayes.Inc | backend/apps/validation/services/naive_bayes.py:73-77 | `counts[k] = counts.get(k, 0) + 1` raises the count of `k` by one, adds `k` as a key and leaves every other count alone. |
| NaiveBayes.ClassCount | backend/apps/validation/services/naive_bayes.py:60 | The number of records with a given label is at most the number of records. |
| NaiveBayes.ClassCountsPartition | backend/apps/validation/services/naive_bayes.py:60-61 | The valid and invalid records together are all the records. |
| NaiveBayes.TrainedPriors | backend/apps/validation/services/naive_bayes.py:60-63 | The stored priors cover both classes, P(valid) lies in [0, 1] and P(invalid) is 1 − P(valid). |
| NaiveBayes.TrainedPriorsAreFrequencies | backend/apps/validation/services/naive_bayes.py:60-63 | On non-empty data, P(valid) and P(invalid) are the label frequencies, both lie in [0, 1] and they sum to 1. |
| NaiveBayes.HazardCounts | backend/apps/validation/services/naive_bayes.py:68-77 | Every hazard type with a count has a positive count no larger than the size of its class. |
| NaiveBayes.BucketCounts | backend/apps/validation/services/naive_bayes.py:68-77 | Every length bucket with a count has a positive count no larger than the size of its class. |
| NaiveBayes.HazardCountsTotal | backend/apps/validation/services/naive_bayes.py:68-77 | Each class's hazard-type counts sum to the class size. |
| NaiveBayes.BucketCountsTotal | backend/apps/validation/services/naive_bayes.py:68-77 | Each class's short, medium and long counts sum to the class size. |
| NaiveBayes.TrainedStats | backend/apps/validation/services/naive_bayes.py:84-89 | Both classes have an entry, and each stores `valid_total` as the number of valid records and `invalid_total` as the number of invalid ones. |
| NaiveBayes.TrainedStatsConsistent | backend/apps/validation/services/naive_bayes.py:84-89 | The stored class totals are the class sizes, and each class's feature counts add up to its own total. |
| NaiveBayes.CountFeatures | backend/apps/validation/services/naive_bayes.py:65-77 | The counting loop produces, per class, the hazard-type and length-bucket counts of that class's records. A missing hazard type counts as `'unknown'` and a missing length as 0. |
| NaiveBayes.ReportLength | backend/apps/validation/services/naive_bayes.py:100-103 | Without a supplied `description_length` the length is that of the description, so it is non-negative, and a report with neither falls in the short bucket. |
| NaiveBayes.PriorOf | backend/apps/validation/services/naive_bayes.py:105-106 | `_class_prior.get(cls, 0.5)` lies in [0, 1] whenever the stored priors are well formed. |
| NaiveBayes.StatsOf | backend/apps/validation/services/naive_bayes.py:108-109 | A stored class reads as its entry; an empty table reads as no counts and zero totals. |
| NaiveBayes.Likelihood | backend/apps/validation/services/naive_bayes.py:111-115 | The smoothed likelihood is positive. |
| NaiveBayes.FeatureScore | backend/apps/validation/services/naive_bayes.py:105-120 | With non-negative priors, the normalised posterior of the valid class lies in [0, 1]. |
| NaiveBayes.Score | backend/apps/validation/services/naive_bayes.py:100-120 | The same for a report, whose hazard type defaults to `'unknown'` and whose length is the supplied length or that of the description. |
| NaiveBayes.UntrainedScoreIsNeutral | backend/apps/validation/services/naive_bayes.py:97-120 | A validator with no priors and no counts scores every report exactly 0.5. |
| NaiveBayes.SuppliedLengthWins | backend/apps/validation/services/naive_bayes.py:101-103 | A supplied `description_length` decides the bucket; the description text then does not change the score. |
| NaiveBayes.SampleCounts | backend/apps/validation/tests/test_naive_bayes.py:15-23 | On the tests' seven records: 4 valid, two valid floods, one invalid `'unknown'`, four valid medium and three invalid short descriptions. |
| NaiveBayes.SampleScores | backend/apps/validation/tests/test_naive_bayes.py:38-64 | After training on those records, the flood report with a 45-character description scores above 0.5 and the `'unknown'` report described as `'bad'` below 0.5. |
| NaiveBayes.NaiveBayesValidator.constructor | backend/apps/validation/services/naive_bayes.py:25-28 | A new validator has empty priors and counts and is untrained. |
| NaiveBayes.NaiveBayesValidator.Train | backend/apps/validation/services/naive_bayes.py:49-90 | Without data the default training data is used. Empty data marks the validator untrained and keeps its old priors and counts. Otherwise the priors and counts are recomputed from the data and the validator is trained. |
| NaiveBayes.NaiveBayesValidator.ValidateReport | backend/apps/validation/services/naive_bayes.py:92-120 | A trained validator keeps its state. An untrained one first trains from the default data. The score is the normalised posterior for the report under the resulting state, and always lies in [0, 1]. A fresh validator with no default data scores 0.5. |
| Consensus.CountNearbyReports | backend/apps/validation/services/consensus.py:24-45 | The count is the number of candidates that are not the excluded id and lie within the radius, and is at most the number of candidates. |
| Consensus.NearbyCount | backend/apps/validation/services/consensus.py:37-45 | The number of counted candidates is at most the number of candidates. |
| Consensus.NearbyCountBound | backend/apps/validation/services/consensus.py:37-45 | The count is at most the number of candidates within the radius, which is at most the number of candidates. |
| Consensus.NoExclusionCountsAll | backend/apps/validation/services/consensus.py:39 | Without an excluded id every candidate within the radius is counted. |
| Consensus.ExclusionSkipsExactlyThatId | backend/apps/validation/services/consensus.py:38-44 | The exclusion skips exactly the candidates within the radius that carry the excluded id. |
| Consensus.AtMostOneWithId | backend/apps/validation/services/consensus.py:39-40 | With unique ids at most one candidate within the radius carries a given id. |
| Consensus.ExcludingOneReport | backend/apps/validation/services/consensus.py:29-40 | With unique ids, excluding the current report lowers the count by at most one and never raises it. |
| Consensus.ConsensusBoost | backend/apps/validation/services/consensus.py:58-59 | The boost is at most 0.3 and at most 0.1 per nearby report, and lies in [0, 0.3] for non-negative counts. |
| Consensus.CombinedScore | backend/apps/validation/services/consensus.py:47-60 | For a score and alpha in [0, 1] and a non-negative count the result lies in [0, 1], though the source does not clamp it. |
| Consensus.BoostMonotone | backend/apps/validation/services/consensus.py:59 | The boost never decreases as the count grows. |
| Consensus.CombinedScoreMonotone | backend/apps/validation/services/consensus.py:53-60 | For alpha ≤ 1 the combined score never decreases as the count grows. |
| Consensus.CombinedScoreStrictlyIncreasing | backend/apps/validation/services/consensus.py:58-60 | Below three nearby reports each additional one strictly raises the score when alpha < 1. |
| Consensus.CombinedScoreSaturates | backend/apps/validation/services/consensus.py:58-59 | Three or more nearby reports all give the score of three. |
| Consensus.CombinedScoreExtremes | backend/apps/validation/services/consensus.py:56-60 | With alpha = 1 the result is the plausibility score; with alpha = 0 it is 0.5 plus the boost. |
| Consensus.DefaultConsensusLift | backend/apps/validation/services/consensus.py:47-60 | With the default alpha 0.7, nearby reports raise a score by at most 0.09 over an isolated report, and by exactly 0.09 from three reports on. |

## Left out

- Floating point: every `float` is a `real`, so IEEE rounding is not modelled. The `Decimal` conversions of `_float` and of the consensus inputs are not modelled either.
- Node-key strings are not modelled. `_key` formatting, parsing keys back into numbers, and the parse-failure branches of `_nearest_node` are out, because a `Key` is always well formed.
- `_key_to_coords` is not modelled, and neither is the `'path'` field that `get_safest_routes` adds to each route; `GetSafestRoutes` returns the routes without it.
- `getattr(seg, 'predicted_risk_score', 0)` is not modelled: every `Segment` carries its risk.
- Heap layout and tie-breaking. The queue is a sequence and `PopMin` takes the first entry of least priority. Python's heap breaks ties by comparing key strings, so among equally light routes the model may return a different one. The contracts speak of any shortest route.
- RouteSearch.Search: it requires every entry to point to a node of the graph and every weight to be non-negative. On other graphs the source raises `KeyError` or, with a negative segment (a negative two-edge cycle), need not terminate. `get_safest_routes` therefore requires non-negative segment distances, risks and multiplier; `BuiltGraphReady` shows the built graph then meets both conditions.
- RouteSearch.Reconstruct: it prepends each node instead of appending and reversing. `while cur:` is read as "has a parent link", since node keys are never empty strings.
- RouteSearch.DijkstraKRoutes: the walk (`hops`) behind the routes is a ghost out-parameter. The source's two alternatives are copies of the best route, and the model keeps them as copies.
- The alternatives' `path_keys[:]` copy is a value copy here, so list aliasing is not modelled.
- `within_radius` (great-circle distance) is a function parameter of `CountNearbyReports`, because its source is not part of this model. The radius is a parameter too.
- `_load_mock_training` (reading the JSON training file) is out. The validator's constant `mockTraining` stands for the file's contents, `[]` when the file is missing.
- Training records are typed. `r.get('valid')` is a `bool`, and a missing hazard type or description length is `None`; a field present with the value `None` is treated as missing.
- NaiveBayes.NaiveBayesValidator.ValidateReport: reports are typed (`Report`), and a field present with the value `None` is treated as missing, which is not what `validate_report` does with it (lines 100-103). `{'hazard_type': None}` looks up the key `None`, which has count 0 in both classes, where the model looks up `'unknown'`. `{'description': None}` makes `len(desc)` raise `TypeError`, even when `description_length` is supplied, because the default of `.get` is evaluated first; the model uses the empty text. `{'description_length': None}` makes `_bucket_desc_len` raise `TypeError` at line 43. The callers in the repository never send these: `report_service.py` passes `len(description or '')`, and the serializer's `CharField` rejects null.
- The services' constructor defaults are not constants of the model: the risk multiplier (`DEFAULT_RISK_MULTIPLIER`) and the consensus radius (`CONSENSUS_RADIUS_METERS`, 50 m) are parameters of the operations that use them. The default alpha 0.7 is `DefaultAlpha`.
- The `likelihood` helper defined inside `train` (lines 80-82) is never called by the source, so it is not modelled.
- The random-forest risk predictor, the Django models, views, serializers and mobile-sync services are outside the modelled core.
- `train([])` only clears the trained flag and keeps the priors and counts of an earlier training, so a later `validate_report` retrains from the default data or scores with that stale state. The model follows the code (`NaiveBayes.NaiveBayesValidator.Train`), and `UntrainedScoreIsNeutral` covers a validator with no earlier state.

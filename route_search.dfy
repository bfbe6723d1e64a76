/** Route search of the risk-weighted router (`ModifiedDijkstraService` in
    backend/apps/routing/services/dijkstra.py): lazy-deletion Dijkstra from the start node,
    stopping when the destination is popped, the padded list of k routes, the
    Green/Yellow/Red classification, nearest-node snapping and the public entry point. */
module RouteSearch {
  import opened Wrappers
  import opened RoadGraph

  /** Risk-level thresholds. */
  const GreenBelow: real := 0.3
  const YellowBelow: real := 0.7
  /** The best route plus two alternative copies. */
  const RoutesReturned: nat := 3

  datatype Level = Green | Yellow | Red

  /** A route candidate as the service returns it; `alternative` is false for the best route. */
  datatype Route = Route(pathKeys: seq<Key>, totalDistance: real, totalRisk: real, weight: real,
                         riskLevel: Level, alternative: bool)

  /** A priority-queue entry `(distance, node)`. */
  datatype Entry = Entry(prio: real, node: Key)

  // ---------------------------------------------------------------------------
  // Risk level

  /** `_risk_level`. */
  function RiskLevel(totalRisk: real): (l: Level)
    ensures l == Green <==> totalRisk < GreenBelow
    ensures l == Yellow <==> GreenBelow <= totalRisk < YellowBelow
    ensures l == Red <==> YellowBelow <= totalRisk
  {
    if totalRisk < GreenBelow then Green
    else if totalRisk < YellowBelow then Yellow
    else Red
  }

  function Severity(l: Level): nat
  {
    match l
    case Green => 0
    case Yellow => 1
    case Red => 2
  }

  /** More accumulated risk never gives a milder level. */
  lemma RiskLevelMonotone(r1: real, r2: real)
    requires r1 <= r2
    ensures Severity(RiskLevel(r1)) <= Severity(RiskLevel(r2))
  {
  }

  /** The boundary values the service's tests check. */
  lemma RiskLevelBoundaries()
    ensures RiskLevel(0.0) == Green && RiskLevel(0.29) == Green
    ensures RiskLevel(0.3) == Yellow && RiskLevel(0.69) == Yellow
    ensures RiskLevel(0.7) == Red && RiskLevel(1.0) == Red
  {
  }

  // ---------------------------------------------------------------------------
  // Walks in the adjacency graph

  /** `hops[i]` is an entry of node `path[i]` leading to `path[i + 1]`. */
  predicate Realizes(g: Graph, path: seq<Key>, hops: seq<Edge>)
  {
    |path| == |hops| + 1 &&
    forall i {:trigger hops[i]} :: 0 <= i < |hops| ==> path[i] in g && hops[i] in g[path[i]] && hops[i].to == path[i + 1]
  }

  /** A walk of the graph from node `from` to node `to`. */
  predicate IsRoute(g: Graph, path: seq<Key>, hops: seq<Edge>, from: Key, to: Key)
  {
    Realizes(g, path, hops) && path[0] == from && path[|path| - 1] == to && from in g
  }

  ghost predicate Reachable(g: Graph, from: Key, to: Key)
  {
    exists path, hops :: IsRoute(g, path, hops, from, to)
  }

  function SumWeight(hops: seq<Edge>): real
  {
    if hops == [] then 0.0 else SumWeight(hops[..|hops| - 1]) + hops[|hops| - 1].weight
  }

  function SumDist(hops: seq<Edge>): real
  {
    if hops == [] then 0.0 else SumDist(hops[..|hops| - 1]) + hops[|hops| - 1].dist
  }

  function SumRisk(hops: seq<Edge>): real
  {
    if hops == [] then 0.0 else SumRisk(hops[..|hops| - 1]) + hops[|hops| - 1].risk
  }

  /** Every entry points to a node of the graph. */
  predicate Closed(g: Graph)
  {
    forall u, e :: u in g && e in g[u] ==> e.to in g
  }

  predicate NonNegativeWeights(g: Graph)
  {
    forall u, e :: u in g && e in g[u] ==> 0.0 <= e.weight
  }

  /** No walk from `start` to `v` weighs less than `d`. */
  ghost predicate OptimalAt(g: Graph, start: Key, v: Key, d: real)
  {
    forall path, hops :: IsRoute(g, path, hops, start, v) ==> d <= SumWeight(hops)
  }

  /** A route that follows `hops` from `start` to `end`, carries their summed weight, distance
      and risk, is classified by its risk, and weighs no more than any walk from `start` to `end`. */
  ghost predicate ShortestRoute(g: Graph, start: Key, end: Key, r: Route, hops: seq<Edge>)
  {
    IsRoute(g, r.pathKeys, hops, start, end) &&
    r.weight == SumWeight(hops) && r.totalDistance == SumDist(hops) && r.totalRisk == SumRisk(hops) &&
    r.riskLevel == RiskLevel(r.totalRisk) &&
    OptimalAt(g, start, end, r.weight)
  }

  lemma SumsSnoc(hops: seq<Edge>, e: Edge)
    ensures SumWeight(hops + [e]) == SumWeight(hops) + e.weight
    ensures SumDist(hops + [e]) == SumDist(hops) + e.dist
    ensures SumRisk(hops + [e]) == SumRisk(hops) + e.risk
  {
    assert (hops + [e])[..|hops|] == hops;
  }

  lemma RealizesSnoc(g: Graph, path: seq<Key>, hops: seq<Edge>, e: Edge)
    requires Realizes(g, path, hops)
    requires path[|path| - 1] in g && e in g[path[|path| - 1]]
    ensures Realizes(g, path + [e.to], hops + [e])
  {
    var path', hops' := path + [e.to], hops + [e];
    forall i | 0 <= i < |hops'|
      ensures path'[i] in g && hops'[i] in g[path'[i]] && hops'[i].to == path'[i + 1]
    {
      if i < |hops| {
        assert hops'[i] == hops[i];
      }
    }
  }

  /** The last hop of a walk leaves its second-to-last node along one of that node's entries. */
  lemma LastHop(g: Graph, path: seq<Key>, hops: seq<Edge>, n: nat)
    requires Realizes(g, path, hops) && n == |hops| && 0 < n
    ensures path[n - 1] in g && hops[n - 1] in g[path[n - 1]] && hops[n - 1].to == path[n]
  {
    var i := n - 1;
    assert path[i] in g && hops[i] in g[path[i]] && hops[i].to == path[i + 1];
  }

  lemma RealizesPrefix(g: Graph, path: seq<Key>, hops: seq<Edge>)
    requires Realizes(g, path, hops) && hops != []
    ensures Realizes(g, path[..|hops|], hops[..|hops| - 1])
  {
    var path', hops' := path[..|hops|], hops[..|hops| - 1];
    forall i | 0 <= i < |hops'|
      ensures path'[i] in g && hops'[i] in g[path'[i]] && hops'[i].to == path'[i + 1]
    {
      assert hops'[i] == hops[i];
    }
  }

  // ---------------------------------------------------------------------------
  // Search state and Dijkstra's invariant

  /** The dictionaries of `dijkstra_k_routes`: best distance, accumulated risk and metres
      per reached node, and parent links. The priority queue is kept beside them. */
  datatype SearchState = SearchState(dist: map<Key, real>, riskSum: map<Key, real>, pathDist: map<Key, real>,
                                     parent: map<Key, Key>)

  /** The proof's record of a walk (nodes and the entries followed) for every reached node. */
  datatype Ledger = Ledger(trail: map<Key, seq<Key>>, hopsTo: map<Key, seq<Edge>>)

  /** Whether `path`/`hops` is a walk from `start` to `v` with the given sums. */
  ghost predicate Tracked(g: Graph, start: Key, v: Key, path: seq<Key>, hops: seq<Edge>, w: real, d: real, r: real)
  {
    IsRoute(g, path, hops, start, v) && SumWeight(hops) == w && SumDist(hops) == d && SumRisk(hops) == r
  }

  /** `parent.get(v)` is None. */
  predicate NoParent(parent: map<Key, Key>, v: Key)
  {
    v !in parent
  }

  /** The maps share one key set, inside the graph, holding the start at distance 0. */
  ghost predicate Shape(g: Graph, start: Key, st: SearchState, lg: Ledger)
  {
    start in st.dist && st.dist[start] == 0.0 && start !in st.parent &&
    st.dist.Keys <= g.Keys &&
    st.riskSum.Keys == st.dist.Keys && st.pathDist.Keys == st.dist.Keys &&
    lg.trail.Keys == st.dist.Keys && lg.hopsTo.Keys == st.dist.Keys && lg.trail[start] == [start]
  }

  /** Every recorded distance, risk and length belongs to an actual walk from the start. */
  ghost predicate Walks(g: Graph, start: Key, st: SearchState, lg: Ledger)
    requires Shape(g, start, st, lg)
  {
    forall v {:trigger v in st.dist} :: v in st.dist ==>
      0.0 <= st.dist[v] &&
      Tracked(g, start, v, lg.trail[v], lg.hopsTo[v], st.dist[v], st.pathDist[v], st.riskSum[v])
  }

  /** The parent links spell the walks out and end at the start. */
  ghost predicate Links(start: Key, st: SearchState, lg: Ledger)
  {
    (forall v {:trigger v in st.parent} :: v in st.parent ==>
       v in lg.trail && st.parent[v] in lg.trail && lg.trail[v] == lg.trail[st.parent[v]] + [v]) &&
    (forall v {:trigger NoParent(st.parent, v)} :: v in st.dist && NoParent(st.parent, v) ==> v == start)
  }

  ghost predicate Sound(g: Graph, start: Key, st: SearchState, lg: Ledger)
  {
    Shape(g, start, st, lg) && Walks(g, start, st, lg) && Links(start, st, lg)
  }

  /** Settled nodes lie below the last popped priority `floor`, queued entries above it; every
      queued entry is no better than its node's distance, every unsettled node is queued at it,
      and parents are settled. */
  ghost predicate Queued(st: SearchState, pq: seq<Entry>, settled: set<Key>, floor: real)
  {
    (forall s {:trigger s in settled} :: s in settled ==> s in st.dist && st.dist[s] <= floor) &&
    (forall x {:trigger x in pq} :: x in pq ==> floor <= x.prio) &&
    (forall x {:trigger x in pq} :: x in pq ==> x.node in st.dist && st.dist[x.node] <= x.prio) &&
    (forall v {:trigger v in st.dist} :: v in st.dist && v !in settled ==> Entry(st.dist[v], v) in pq) &&
    (forall v {:trigger v in st.parent} :: v in st.parent ==> st.parent[v] in settled)
  }

  /** Whether every entry of `s` has been relaxed: its target has a distance no larger than
      the distance of `s` plus the entry's weight. */
  predicate Relaxed(g: Graph, dist: map<Key, real>, s: Key)
  {
    s in g && s in dist && forall e {:trigger e in g[s]} :: e in g[s] ==> e.to in dist && dist[e.to] <= dist[s] + e.weight
  }

  predicate AllRelaxed(g: Graph, dist: map<Key, real>, settled: set<Key>)
  {
    forall s :: s in settled ==> Relaxed(g, dist, s)
  }

  ghost predicate AllOptimal(g: Graph, start: Key, dist: map<Key, real>, settled: set<Key>)
  {
    forall s {:trigger s in settled} :: s in settled ==> s in dist && OptimalAt(g, start, s, dist[s])
  }

  /** Any walk from the start to a node not yet settled crosses the frontier: some queued
      entry has a priority no larger than the walk's weight. */
  lemma {:induction false} Frontier(g: Graph, start: Key, settled: set<Key>, dist: map<Key, real>, pq: seq<Entry>,
                                    path: seq<Key>, hops: seq<Edge>)
    requires NonNegativeWeights(g)
    requires start in dist && dist[start] == 0.0
    requires AllRelaxed(g, dist, settled) && AllOptimal(g, start, dist, settled)
    requires forall v :: v in dist && v !in settled ==> Entry(dist[v], v) in pq
    requires Realizes(g, path, hops) && path[0] == start && start in g && path[|path| - 1] !in settled
    ensures exists k :: 0 <= k < |pq| && pq[k].prio <= SumWeight(hops)
    decreases |hops|
  {
    var n := |hops|;
    if n == 0 {
      assert Entry(dist[start], start) in pq;
    } else {
      var front, frontHops := path[..n], hops[..n - 1];
      RealizesPrefix(g, path, hops);
      var x, e := path[n - 1], hops[n - 1];
      assert front[n - 1] == x;
      assert e in g[x] && 0.0 <= e.weight;
      if x !in settled {
        Frontier(g, start, settled, dist, pq, front, frontHops);
      } else {
        assert Relaxed(g, dist, x);
        assert IsRoute(g, front, frontHops, start, x);
        assert dist[x] <= SumWeight(frontHops);
        assert e.to == path[n] && e.to in dist && dist[e.to] <= dist[x] + e.weight;
        assert Entry(dist[e.to], e.to) in pq;
      }
    }
  }

  /** A node popped with the least queued priority, equal to its distance, is settled
      at its true distance. */
  lemma SettleOptimal(g: Graph, start: Key, settled: set<Key>, dist: map<Key, real>, pq: seq<Entry>, u: Key)
    requires NonNegativeWeights(g)
    requires start in dist && dist[start] == 0.0
    requires AllRelaxed(g, dist, settled) && AllOptimal(g, start, dist, settled)
    requires forall v :: v in dist && v !in settled ==> Entry(dist[v], v) in pq
    requires u in dist && u !in settled
    requires forall k :: 0 <= k < |pq| ==> dist[u] <= pq[k].prio
    ensures OptimalAt(g, start, u, dist[u])
  {
    forall path, hops | IsRoute(g, path, hops, start, u)
      ensures dist[u] <= SumWeight(hops)
    {
      Frontier(g, start, settled, dist, pq, path, hops);
    }
  }

  /** With an empty queue, every walk from the start stays among the settled nodes. */
  lemma ExhaustedUnreachable(g: Graph, start: Key, end: Key, settled: set<Key>, dist: map<Key, real>)
    requires NonNegativeWeights(g)
    requires start in dist && dist[start] == 0.0
    requires AllRelaxed(g, dist, settled) && AllOptimal(g, start, dist, settled)
    requires forall v :: v in dist ==> v in settled
    requires end !in settled
    ensures !Reachable(g, start, end)
  {
    forall path: seq<Key>, hops: seq<Edge> | IsRoute(g, path, hops, start, end)
      ensures false
    {
      var n := |hops|;
      if 0 < n {
        LastHop(g, path, hops, n);
      }
      Frontier(g, start, settled, dist, [], path, hops);
    }
  }

  // ---------------------------------------------------------------------------
  // One relaxation

  /** One relaxation through entry `e` of `u`: its target gets distance `dist[u] + weight`,
      the accumulated risk and metres through `u`, and parent `u` (lines 108-111). */
  function Relax(st: SearchState, u: Key, e: Edge): (r: SearchState)
    requires u in st.dist && u in st.riskSum && u in st.pathDist
    ensures e.to in r.dist && e.to in r.riskSum && e.to in r.pathDist && e.to in r.parent && r.parent[e.to] == u
  {
    SearchState(st.dist[e.to := st.dist[u] + e.weight], st.riskSum[e.to := st.riskSum[u] + e.risk],
                st.pathDist[e.to := st.pathDist[u] + e.dist], st.parent[e.to := u])
  }

  /** The walk the proof records for the relaxed target. */
  function Extend(lg: Ledger, u: Key, e: Edge): Ledger
    requires u in lg.trail && u in lg.hopsTo
  {
    Ledger(lg.trail[e.to := lg.trail[u] + [e.to]], lg.hopsTo[e.to := lg.hopsTo[u] + [e]])
  }

  /** Preconditions of a relaxation that improves the target's distance. */
  ghost predicate Improves(g: Graph, start: Key, st: SearchState, lg: Ledger, settled: set<Key>, u: Key, e: Edge)
  {
    Shape(g, start, st, lg) && u in settled && u in st.dist && 0.0 <= st.dist[u] &&
    u in g && e in g[u] && e.to in g && e.to !in settled &&
    (e.to !in st.dist || st.dist[u] + e.weight < st.dist[e.to])
  }

  lemma RelaxShape(g: Graph, start: Key, st: SearchState, lg: Ledger, settled: set<Key>, u: Key, e: Edge,
                    next: SearchState, nextLg: Ledger)
    requires Improves(g, start, st, lg, settled, u, e) && 0.0 <= e.weight
    requires next == Relax(st, u, e) && nextLg == Extend(lg, u, e)
    ensures Shape(g, start, next, nextLg)
  {
  }

  lemma RelaxWalks(g: Graph, start: Key, st: SearchState, lg: Ledger, settled: set<Key>, u: Key, e: Edge,
                   next: SearchState, nextLg: Ledger)
    requires Improves(g, start, st, lg, settled, u, e) && 0.0 <= e.weight
    requires Walks(g, start, st, lg)
    requires next == Relax(st, u, e) && nextLg == Extend(lg, u, e)
    ensures Shape(g, start, next, nextLg) && Walks(g, start, next, nextLg)
  {
    RelaxShape(g, start, st, lg, settled, u, e, next, nextLg);
    forall v | v in next.dist
      ensures 0.0 <= next.dist[v]
      ensures Tracked(g, start, v, nextLg.trail[v], nextLg.hopsTo[v], next.dist[v], next.pathDist[v], next.riskSum[v])
    {
      if v != e.to {
        assert Tracked(g, start, v, lg.trail[v], lg.hopsTo[v], st.dist[v], st.pathDist[v], st.riskSum[v]);
      } else {
        TrackedExtend(g, start, u, lg.trail[u], lg.hopsTo[u], st.dist[u], st.pathDist[u], st.riskSum[u], e);
      }
    }
  }

  /** A tracked walk to `u` followed by one of `u`'s entries is a tracked walk to its target. */
  lemma TrackedExtend(g: Graph, start: Key, u: Key, path: seq<Key>, hops: seq<Edge>, w: real, d: real, r: real, e: Edge)
    requires Tracked(g, start, u, path, hops, w, d, r) && u in g && e in g[u]
    ensures Tracked(g, start, e.to, path + [e.to], hops + [e], w + e.weight, d + e.dist, r + e.risk)
  {
    RealizesSnoc(g, path, hops, e);
    SumsSnoc(hops, e);
  }

  lemma RelaxLinks(g: Graph, start: Key, st: SearchState, lg: Ledger, settled: set<Key>, u: Key, e: Edge,
                   next: SearchState, nextLg: Ledger)
    requires Improves(g, start, st, lg, settled, u, e)
    requires Links(start, st, lg) && forall v :: v in st.parent ==> st.parent[v] in settled
    requires next == Relax(st, u, e) && nextLg == Extend(lg, u, e)
    ensures Links(start, next, nextLg)
  {
    forall v {:trigger NoParent(next.parent, v)} | v in next.dist && NoParent(next.parent, v)
      ensures v == start
    {
      assert NoParent(st.parent, v);
    }
  }

  lemma RelaxQueued(g: Graph, start: Key, st: SearchState, lg: Ledger, pq: seq<Entry>, settled: set<Key>,
                    floor: real, u: Key, e: Edge, next: SearchState, nextPq: seq<Entry>)
    requires Improves(g, start, st, lg, settled, u, e) && 0.0 <= e.weight
    requires Queued(st, pq, settled, floor) && st.dist[u] == floor
    requires next == Relax(st, u, e) && nextPq == pq + [Entry(st.dist[u] + e.weight, e.to)]
    ensures Queued(next, nextPq, settled, floor)
  {
  }

  lemma RelaxSettled(g: Graph, start: Key, st: SearchState, lg: Ledger, settled: set<Key>, u: Key, e: Edge,
                     next: SearchState)
    requires Improves(g, start, st, lg, settled, u, e)
    requires AllRelaxed(g, st.dist, settled - {u}) && AllOptimal(g, start, st.dist, settled)
    requires next == Relax(st, u, e)
    ensures AllRelaxed(g, next.dist, settled - {u}) && AllOptimal(g, start, next.dist, settled)
    ensures Lowered(st.dist, next.dist)
    ensures next.dist[u] == st.dist[u] && next.dist[e.to] == st.dist[u] + e.weight
  {
    forall s | s in settled - {u}
      ensures Relaxed(g, next.dist, s)
    {
      assert Relaxed(g, st.dist, s);
    }
  }

  // ---------------------------------------------------------------------------
  // The inner loop

  /** The first `j` entries of `u` are relaxed. */
  predicate RelaxedPrefix(g: Graph, dist: map<Key, real>, u: Key, j: nat)
    requires u in g && j <= |g[u]|
  {
    u in dist &&
    forall m :: 0 <= m < j ==> g[u][m].to in dist && dist[g[u][m].to] <= dist[u] + g[u][m].weight
  }

  /** Every node of `dist` keeps a distance in `lowered`, no larger than before. */
  predicate Lowered(dist: map<Key, real>, lowered: map<Key, real>)
  {
    forall x :: x in dist ==> x in lowered && lowered[x] <= dist[x]
  }

  /** Lowering distances other than `u`'s keeps a relaxed prefix relaxed. */
  lemma RelaxedPrefixStep(g: Graph, u: Key, dist: map<Key, real>, lowered: map<Key, real>, j: nat)
    requires u in g && j < |g[u]| && RelaxedPrefix(g, dist, u, j)
    requires u in lowered && lowered[u] == dist[u]
    requires Lowered(dist, lowered)
    requires g[u][j].to in lowered && lowered[g[u][j].to] <= lowered[u] + g[u][j].weight
    ensures RelaxedPrefix(g, lowered, u, j + 1)
  {
    forall m | 0 <= m < j + 1
      ensures g[u][m].to in lowered && lowered[g[u][m].to] <= lowered[u] + g[u][m].weight
    {
      if m < j {
        assert dist[g[u][m].to] <= dist[u] + g[u][m].weight;
      }
    }
  }

  /** The invariant of the inner loop after the first `j` entries of `u` (a node just
      settled at distance `floor`) have been relaxed, starting from `st` and `pq`. */
  ghost predicate Expanding(g: Graph, start: Key, end: Key, settled: set<Key>, floor: real, u: Key,
                            st: SearchState, pq: seq<Entry>, cur: SearchState, curPq: seq<Entry>,
                            curLg: Ledger, j: nat)
  {
    Closed(g) && NonNegativeWeights(g) && start in g && end in g && u in g && j <= |g[u]| &&
    Sound(g, start, cur, curLg) && Queued(cur, curPq, settled, floor) && end !in settled &&
    u in settled && u in cur.dist && cur.dist[u] == floor &&
    AllRelaxed(g, cur.dist, settled - {u}) && AllOptimal(g, start, cur.dist, settled) &&
    RelaxedPrefix(g, cur.dist, u, j) &&
    (Relaxed(g, st.dist, u) ==> cur == st && curPq == pq)
  }

  /** The inner loop of `dijkstra_k_routes` (lines 103-112): every entry of the popped node
      `u` whose target gets a shorter distance through `u` updates that target and is pushed. */
  method RelaxEdges(g: Graph, start: Key, end: Key, ghost settled: set<Key>, ghost floor: real, u: Key,
                    st: SearchState, pq: seq<Entry>, ghost lg: Ledger)
    returns (next: SearchState, nextPq: seq<Entry>, ghost nextLg: Ledger)
    requires u in g && Expanding(g, start, end, settled, floor, u, st, pq, st, pq, lg, 0)
    ensures Searching(g, start, end, next, nextPq, nextLg, settled, floor)
    ensures Relaxed(g, st.dist, u) ==> next == st && nextPq == pq
  {
    next, nextPq, nextLg := st, pq, lg;
    for j := 0 to |g[u]|
      invariant Expanding(g, start, end, settled, floor, u, st, pq, next, nextPq, nextLg, j)
    {
      var e := g[u][j];
      next, nextPq, nextLg := RelaxEntry(g, start, end, settled, floor, u, st, pq, next, nextPq, nextLg, j, e);
    }
    Expanded(g, start, end, settled, floor, u, st, pq, next, nextPq, nextLg);
  }

  /** After all entries of `u` are relaxed, `u` joins the relaxed nodes. */
  lemma Expanded(g: Graph, start: Key, end: Key, settled: set<Key>, floor: real, u: Key,
                 st: SearchState, pq: seq<Entry>, cur: SearchState, curPq: seq<Entry>, curLg: Ledger)
    requires u in g && Expanding(g, start, end, settled, floor, u, st, pq, cur, curPq, curLg, |g[u]|)
    ensures Searching(g, start, end, cur, curPq, curLg, settled, floor)
    ensures Relaxed(g, st.dist, u) ==> cur == st && curPq == pq
  {
    assert Relaxed(g, cur.dist, u) by {
      forall e | e in g[u]
        ensures e.to in cur.dist && cur.dist[e.to] <= cur.dist[u] + e.weight
      {
        var m :| 0 <= m < |g[u]| && g[u][m] == e;
      }
    }
  }

  /** One iteration of the inner loop: the `j`-th entry `e` of `u` improves its target when
      `dist[u] + weight` beats the target's distance (or it has none); the target is then
      updated and pushed. */
  method RelaxEntry(g: Graph, start: Key, end: Key, ghost settled: set<Key>, ghost floor: real, u: Key,
                    ghost st: SearchState, ghost pq: seq<Entry>, cur: SearchState, curPq: seq<Entry>,
                    ghost curLg: Ledger, j: nat, e: Edge)
    returns (next: SearchState, nextPq: seq<Entry>, ghost nextLg: Ledger)
    requires u in g && j < |g[u]| && e == g[u][j]
    requires Expanding(g, start, end, settled, floor, u, st, pq, cur, curPq, curLg, j)
    ensures Expanding(g, start, end, settled, floor, u, st, pq, next, nextPq, nextLg, j + 1)
    ensures e.to !in cur.dist || cur.dist[u] + e.weight < cur.dist[e.to] ==>
              next == Relax(cur, u, e) && nextPq == curPq + [Entry(cur.dist[u] + e.weight, e.to)]
    ensures e.to in cur.dist && cur.dist[u] + e.weight >= cur.dist[e.to] ==> next == cur && nextPq == curPq
  {
    if e.to !in cur.dist || cur.dist[u] + e.weight < cur.dist[e.to] {
      next, nextPq, nextLg := Relax(cur, u, e), curPq + [Entry(cur.dist[u] + e.weight, e.to)], Extend(curLg, u, e);
      ImproveStep(g, start, end, settled, floor, u, st, pq, cur, curPq, curLg, j, e, next, nextPq, nextLg);
    } else {
      next, nextPq, nextLg := cur, curPq, curLg;
      SkipStep(g, start, end, settled, floor, u, st, pq, next, nextPq, nextLg, j, e);
    }
  }

  /** An entry that does not improve its target leaves the state as it is. */
  lemma SkipStep(g: Graph, start: Key, end: Key, settled: set<Key>, floor: real, u: Key,
                 st: SearchState, pq: seq<Entry>, cur: SearchState, curPq: seq<Entry>, curLg: Ledger,
                 j: nat, e: Edge)
    requires u in g && j < |g[u]| && e == g[u][j]
    requires Expanding(g, start, end, settled, floor, u, st, pq, cur, curPq, curLg, j)
    requires e.to in cur.dist && cur.dist[e.to] <= cur.dist[u] + e.weight
    ensures Expanding(g, start, end, settled, floor, u, st, pq, cur, curPq, curLg, j + 1)
  {
    RelaxedPrefixStep(g, u, cur.dist, cur.dist, j);
  }

  /** An improving relaxation keeps the inner loop's invariant. */
  lemma ImproveStep(g: Graph, start: Key, end: Key, settled: set<Key>, floor: real, u: Key,
                    st: SearchState, pq: seq<Entry>, cur: SearchState, curPq: seq<Entry>, curLg: Ledger,
                    j: nat, e: Edge, next: SearchState, nextPq: seq<Entry>, nextLg: Ledger)
    requires u in g && j < |g[u]| && e == g[u][j]
    requires Expanding(g, start, end, settled, floor, u, st, pq, cur, curPq, curLg, j)
    requires e.to !in cur.dist || cur.dist[u] + e.weight < cur.dist[e.to]
    requires next == Relax(cur, u, e) && nextPq == curPq + [Entry(cur.dist[u] + e.weight, e.to)]
    requires nextLg == Extend(curLg, u, e)
    ensures Expanding(g, start, end, settled, floor, u, st, pq, next, nextPq, nextLg, j + 1)
  {
    assert e in g[u];
    assert Improves(g, start, cur, curLg, settled, u, e);
    RelaxWalks(g, start, cur, curLg, settled, u, e, next, nextLg);
    RelaxLinks(g, start, cur, curLg, settled, u, e, next, nextLg);
    RelaxQueued(g, start, cur, curLg, curPq, settled, floor, u, e, next, nextPq);
    RelaxSettled(g, start, cur, curLg, settled, u, e, next);
    RelaxedPrefixStep(g, u, cur.dist, next.dist, j);
  }

  // ---------------------------------------------------------------------------
  // The search

  /** `heapq.heappop`: removes one entry with the least priority. */
  method PopMin(pq: seq<Entry>) returns (top: Entry, rest: seq<Entry>)
    requires pq != []
    ensures multiset(rest) + multiset{top} == multiset(pq) && |rest| == |pq| - 1
    ensures forall k :: 0 <= k < |pq| ==> top.prio <= pq[k].prio
  {
    var i := 0;
    for k := 1 to |pq|
      invariant i < |pq|
      invariant forall m :: 0 <= m < k ==> pq[i].prio <= pq[m].prio
    {
      if pq[k].prio < pq[i].prio {
        i := k;
      }
    }
    top, rest := pq[i], pq[..i] + pq[i + 1..];
    assert pq == pq[..i] + [pq[i]] + pq[i + 1..];
  }

  /** `top` was popped from `pq`, leaving `rest`. */
  ghost predicate Popped(pq: seq<Entry>, top: Entry, rest: seq<Entry>)
  {
    multiset(rest) + multiset{top} == multiset(pq) && |rest| == |pq| - 1 &&
    forall k :: 0 <= k < |pq| ==> top.prio <= pq[k].prio
  }

  /** What a pop leaves in the queue: every other entry, and nothing new. */
  lemma PopKeeps(pq: seq<Entry>, top: Entry, rest: seq<Entry>)
    requires multiset(rest) + multiset{top} == multiset(pq)
    ensures top in pq
    ensures forall x :: x in rest ==> x in pq
    ensures forall x :: x in pq && x != top ==> x in rest
  {
    assert top in multiset(pq);
    forall x | x in rest ensures x in pq {
      assert x in multiset(rest);
      assert x in multiset(pq);
    }
    forall x | x in pq && x != top ensures x in rest {
      assert x in multiset(pq);
      assert x in multiset(rest);
    }
  }

  /** The destination's path, rebuilt by following parent links back to the start
      (prepending here where the source appends and reverses). */
  method Reconstruct(parent: map<Key, Key>, ghost trail: map<Key, seq<Key>>, u: Key) returns (path: seq<Key>)
    requires u in trail
    requires forall v :: v in parent ==> v in trail && parent[v] in trail && trail[v] == trail[parent[v]] + [v]
    requires forall v {:trigger NoParent(parent, v)} :: v in trail && NoParent(parent, v) ==> trail[v] == [v]
    ensures path == trail[u]
  {
    path := [];
    var cur: Option<Key> := Some(u);
    while cur.Some?
      invariant cur.Some? ==> cur.value in trail && trail[cur.value] + path == trail[u]
      invariant cur.None? ==> path == trail[u]
      decreases if cur.Some? then |trail[cur.value]| else 0
    {
      var c := cur.value;
      path := [c] + path;
      if c in parent {
        assert trail[parent[c]] + path == trail[u];
        cur := Some(parent[c]);
      } else {
        assert NoParent(parent, c);
        cur := None;
      }
    }
  }

  /** The invariant of the search loop. */
  ghost predicate Searching(g: Graph, start: Key, end: Key, st: SearchState, pq: seq<Entry>, lg: Ledger,
                            settled: set<Key>, floor: real)
  {
    Closed(g) && NonNegativeWeights(g) && start in g && end in g &&
    Sound(g, start, st, lg) && Queued(st, pq, settled, floor) && end !in settled &&
    AllRelaxed(g, st.dist, settled) && AllOptimal(g, start, st.dist, settled)
  }

  /** The search starts with the start at distance 0 and queued at priority 0. */
  lemma SearchStarts(g: Graph, start: Key, end: Key, st: SearchState, pq: seq<Entry>, lg: Ledger)
    requires start in g && end in g
    requires Closed(g) && NonNegativeWeights(g)
    requires st == SearchState(map[start := 0.0], map[start := 0.0], map[start := 0.0], map[])
    requires pq == [Entry(0.0, start)] && lg == Ledger(map[start := [start]], map[start := []])
    ensures Searching(g, start, end, st, pq, lg, {}, 0.0)
  {
    assert Tracked(g, start, start, [start], [], 0.0, 0.0, 0.0);
  }

  /** A popped entry names a reached node and is no better than its distance. */
  lemma PoppedEntry(st: SearchState, pq: seq<Entry>, settled: set<Key>, floor: real, top: Entry, rest: seq<Entry>)
    requires Queued(st, pq, settled, floor) && Popped(pq, top, rest)
    ensures top.node in st.dist && st.dist[top.node] <= top.prio
  {
    PopKeeps(pq, top, rest);
  }

  /** Skipping a stale entry keeps the search invariant. */
  lemma SkipStale(g: Graph, start: Key, end: Key, st: SearchState, pq: seq<Entry>, lg: Ledger,
                  settled: set<Key>, floor: real, top: Entry, rest: seq<Entry>)
    requires Searching(g, start, end, st, pq, lg, settled, floor) && Popped(pq, top, rest)
    requires top.node in st.dist && st.dist[top.node] < top.prio
    ensures Searching(g, start, end, st, rest, lg, settled, floor)
  {
    PopKeeps(pq, top, rest);
  }

  /** At the destination, the parent links lead back to the start along its recorded walk. */
  lemma ReachedEnd(g: Graph, start: Key, end: Key, st: SearchState, pq: seq<Entry>, lg: Ledger,
                   settled: set<Key>, floor: real)
    requires Searching(g, start, end, st, pq, lg, settled, floor) && end in st.dist
    ensures end in lg.trail && end in lg.hopsTo && end in st.pathDist && end in st.riskSum
    ensures forall v :: v in st.parent ==> v in lg.trail && st.parent[v] in lg.trail && lg.trail[v] == lg.trail[st.parent[v]] + [v]
    ensures forall v {:trigger NoParent(st.parent, v)} :: v in lg.trail && NoParent(st.parent, v) ==> lg.trail[v] == [v]
  {
  }

  /** Popping the destination at its distance yields a shortest route. */
  lemma Arrive(g: Graph, start: Key, end: Key, st: SearchState, pq: seq<Entry>, lg: Ledger,
               settled: set<Key>, floor: real, top: Entry, rest: seq<Entry>, r: Route, hops: seq<Edge>)
    requires Searching(g, start, end, st, pq, lg, settled, floor) && Popped(pq, top, rest)
    requires top.node == end && end in st.dist && st.dist[end] == top.prio
    requires end in lg.trail && end in lg.hopsTo && end in st.pathDist && end in st.riskSum
    requires r == Route(lg.trail[end], st.pathDist[end], st.riskSum[end], st.dist[end], RiskLevel(st.riskSum[end]), false)
    requires hops == lg.hopsTo[end]
    ensures ShortestRoute(g, start, end, r, hops)
  {
    SettleOptimal(g, start, settled, st.dist, pq, end);
    assert Tracked(g, start, end, lg.trail[end], lg.hopsTo[end], st.dist[end], st.pathDist[end], st.riskSum[end]);
  }

  /** Settling the popped node at its distance keeps the queue invariant with the new floor. */
  lemma SettleQueued(st: SearchState, pq: seq<Entry>, settled: set<Key>, floor: real, top: Entry, rest: seq<Entry>,
                     settled': set<Key>, floor': real)
    requires Queued(st, pq, settled, floor) && Popped(pq, top, rest)
    requires top.node in st.dist && st.dist[top.node] == top.prio
    requires settled' == settled + {top.node} && floor' == top.prio
    ensures Queued(st, rest, settled', floor')
  {
    PopKeeps(pq, top, rest);
  }

  /** The settled nodes, the popped one included, are at their true distances, and all but
      the popped one are relaxed. */
  lemma SettleOptimalAll(g: Graph, start: Key, end: Key, st: SearchState, pq: seq<Entry>, lg: Ledger,
                         settled: set<Key>, floor: real, top: Entry, rest: seq<Entry>, settled': set<Key>)
    requires Searching(g, start, end, st, pq, lg, settled, floor) && Popped(pq, top, rest)
    requires top.node in st.dist && st.dist[top.node] == top.prio
    requires settled' == settled + {top.node}
    ensures AllRelaxed(g, st.dist, settled' - {top.node}) && AllOptimal(g, start, st.dist, settled')
  {
    if top.node !in settled {
      PopKeeps(pq, top, rest);
      SettleOptimal(g, start, settled, st.dist, pq, top.node);
    }
  }

  /** Settling the popped node at its distance sets up the inner loop; a node settled before
      has all its entries relaxed already, a new one shrinks the unsettled part of the graph. */
  lemma Settle(g: Graph, start: Key, end: Key, st: SearchState, pq: seq<Entry>, lg: Ledger,
               settled: set<Key>, floor: real, top: Entry, rest: seq<Entry>, settled': set<Key>, floor': real)
    requires Searching(g, start, end, st, pq, lg, settled, floor) && Popped(pq, top, rest)
    requires top.node != end && top.node in st.dist && st.dist[top.node] == top.prio
    requires settled' == settled + {top.node} && floor' == top.prio
    ensures top.node in g
    ensures Expanding(g, start, end, settled', floor', top.node, st, rest, st, rest, lg, 0)
  {
    SettleQueued(st, pq, settled, floor, top, rest, settled', floor');
    SettleOptimalAll(g, start, end, st, pq, lg, settled, floor, top, rest, settled');
  }

  /** Settling either adds a node of the graph not settled before, or pops a node whose
      entries are all relaxed already. */
  lemma SettleProgress(g: Graph, dist: map<Key, real>, settled: set<Key>, u: Key, settled': set<Key>)
    requires u in g && AllRelaxed(g, dist, settled) && settled' == settled + {u}
    ensures u in settled ==> settled' == settled && Relaxed(g, dist, u)
    ensures u !in settled ==> |g.Keys - settled'| < |g.Keys - settled|
  {
    if u !in settled {
      assert g.Keys - settled == (g.Keys - settled') + {u};
    }
  }

  /** An empty queue leaves the destination unreachable. */
  lemma Exhausted(g: Graph, start: Key, end: Key, st: SearchState, lg: Ledger, settled: set<Key>, floor: real)
    requires Searching(g, start, end, st, [], lg, settled, floor)
    ensures !Reachable(g, start, end)
  {
    ExhaustedUnreachable(g, start, end, settled, st.dist);
  }

  /** The search loop of `dijkstra_k_routes` (lines 77-112): pops the least entry, skips stale
      entries, stops at the destination and rebuilds its path from the parent links, and
      otherwise relaxes the popped node's entries. Returns None when the queue runs dry. */
  method Search(g: Graph, start: Key, end: Key) returns (best: Option<Route>, ghost hops: seq<Edge>)
    requires start in g && end in g
    requires Closed(g) && NonNegativeWeights(g)
    ensures best.Some? ==> ShortestRoute(g, start, end, best.value, hops) && !best.value.alternative
    ensures best.None? <==> !Reachable(g, start, end)
  {
    var st := SearchState(map[start := 0.0], map[start := 0.0], map[start := 0.0], map[]);
    var pq := [Entry(0.0, start)];
    ghost var lg := Ledger(map[start := [start]], map[start := []]);
    ghost var settled: set<Key> := {};
    ghost var floor := 0.0;
    SearchStarts(g, start, end, st, pq, lg);
    while pq != []
      invariant Searching(g, start, end, st, pq, lg, settled, floor)
      decreases |g.Keys - settled|, |pq|
    {
      var top, rest := PopMin(pq);
      PoppedEntry(st, pq, settled, floor, top, rest);
      if top.prio > st.dist[top.node] {
        SkipStale(g, start, end, st, pq, lg, settled, floor, top, rest);
        pq := rest;
        continue;
      }
      if top.node == end {
        ReachedEnd(g, start, end, st, pq, lg, settled, floor);
        var path := Reconstruct(st.parent, lg.trail, end);
        var r := Route(path, st.pathDist[end], st.riskSum[end], st.dist[end], RiskLevel(st.riskSum[end]), false);
        hops := lg.hopsTo[end];
        Arrive(g, start, end, st, pq, lg, settled, floor, top, rest, r, hops);
        best := Some(r);
        return;
      }
      ghost var settled', floor' := settled + {top.node}, top.prio;
      Settle(g, start, end, st, pq, lg, settled, floor, top, rest, settled', floor');
      SettleProgress(g, st.dist, settled, top.node, settled');
      st, pq, lg := RelaxEdges(g, start, end, settled', floor', top.node, st, rest, lg);
      settled, floor := settled', floor';
    }
    Exhausted(g, start, end, st, lg, settled, floor);
    best := None;
    hops := [];
  }

  // ---------------------------------------------------------------------------
  // The k routes

  /** Python's slice `xs[:k]`: a prefix of `xs`, of length `min(k, |xs|)` for `k >= 0` and
      `max(0, |xs| + k)` (all but the last `-k` elements) for negative `k`. */
  function SlicePrefix<T>(xs: seq<T>, k: int): (r: seq<T>)
    ensures |r| <= |xs| && r == xs[..|r|]
    ensures 0 <= k ==> |r| == (if k < |xs| then k else |xs|)
    ensures k < 0 ==> |r| == (if -k < |xs| then |xs| + k else 0)
  {
    if 0 <= k then (if k < |xs| then xs[..k] else xs)
    else if -k < |xs| then xs[..|xs| + k]
    else []
  }

  /** With no walk from `start`, a node outside the graph cannot be reached. */
  lemma OutsideUnreachable(g: Graph, start: Key, end: Key)
    requires Closed(g) && end !in g
    ensures !Reachable(g, start, end)
  {
    forall path: seq<Key>, hops: seq<Edge> | IsRoute(g, path, hops, start, end)
      ensures false
    {
      var n := |hops|;
      if 0 < n {
        LastHop(g, path, hops, n);
      }
    }
  }

  /** `dijkstra_k_routes` (lines 57-126): no routes when either node is outside the graph
      or the destination is unreachable; otherwise the shortest route followed by two
      copies flagged as alternatives, cut to the first `k` by Python slicing. */
  method DijkstraKRoutes(g: Graph, start: Key, end: Key, k: int) returns (routes: seq<Route>, ghost hops: seq<Edge>)
    requires Closed(g) && NonNegativeWeights(g)
    ensures !Reachable(g, start, end) ==> routes == []
    ensures Reachable(g, start, end) ==>
              |routes| == |SlicePrefix(seq(RoutesReturned, i => i), k)| &&
              forall i :: 0 <= i < |routes| ==>
                ShortestRoute(g, start, end, routes[i], hops) && routes[i].alternative == (0 < i) &&
                routes[i] == routes[0].(alternative := 0 < i)
  {
    if start !in g || end !in g {
      if end !in g {
        OutsideUnreachable(g, start, end);
      }
      return [], [];
    }
    var best;
    best, hops := Search(g, start, end);
    if best.None? {
      return [], hops;
    }
    var first := best.value;
    var result := [first];
    for i := 0 to RoutesReturned - 1
      invariant |result| == i + 1 && result[0] == first
      invariant forall m :: 1 <= m < |result| ==> result[m] == first.(alternative := true)
    {
      var alt := first.(pathKeys := first.pathKeys[..], alternative := true);
      result := result + [alt];
    }
    routes := SlicePrefix(result, k);
    assert |SlicePrefix(seq(RoutesReturned, i => i), k)| == |routes|;
  }

  // ---------------------------------------------------------------------------
  // Snapping to the nearest node

  /** `(lat - la) ** 2 + (lng - ln) ** 2`, in squared micro-degrees. */
  function SqDist(a: Key, b: Key): (d: int)
    ensures 0 <= d
  {
    (a.lat - b.lat) * (a.lat - b.lat) + (a.lng - b.lng) * (a.lng - b.lng)
  }

  /** `n` is a node of `nodes` at least as close to `key` as every other node. */
  predicate Nearest(key: Key, nodes: set<Key>, n: Key)
  {
    n in nodes && forall m :: m in nodes ==> SqDist(key, n) <= SqDist(key, m)
  }

  /** `_nearest_node` (lines 161-180): the key itself when there are no nodes, otherwise a
      node at the least squared distance (the first such node met, by a strict comparison). */
  method NearestNode(key: Key, nodes: set<Key>) returns (r: Key)
    ensures nodes == {} ==> r == key
    ensures nodes != {} ==> Nearest(key, nodes, r)
  {
    if nodes == {} {
      return key;
    }
    var best: Option<Key> := None;
    var bestD: Option<int> := None;
    var rest := nodes;
    while rest != {}
      invariant rest <= nodes
      invariant best.None? <==> bestD.None?
      invariant best.None? ==> rest == nodes
      invariant best.Some? ==> best.value in nodes && bestD.value == SqDist(key, best.value)
      invariant best.Some? ==> forall m :: m in nodes && m !in rest ==> SqDist(key, best.value) <= SqDist(key, m)
      decreases rest
    {
      var n :| n in rest;
      var d := SqDist(key, n);
      if bestD.None? || d < bestD.value {
        bestD := Some(d);
        best := Some(n);
      }
      rest := rest - {n};
    }
    r := best.GetOr(key);
  }

  /** Squared distances are zero exactly between equal keys. */
  lemma SqDistZero(a: Key, b: Key)
    ensures 0 <= SqDist(a, b)
    ensures SqDist(a, b) == 0 <==> a == b
  {
    var x, y := a.lat - b.lat, a.lng - b.lng;
    assert 0 <= x * x && 0 <= y * y;
    if x != 0 {
      assert 0 < x * x;
    }
    if y != 0 {
      assert 0 < y * y;
    }
  }

  /** A key that is itself a node is its own nearest node, and the only one. */
  lemma NearestOfNode(key: Key, nodes: set<Key>, n: Key)
    requires key in nodes && Nearest(key, nodes, n)
    ensures n == key
  {
    SqDistZero(key, key);
    SqDistZero(key, n);
  }

  // ---------------------------------------------------------------------------
  // The public entry point

  /** Every entry weighs its distance plus its risk times `multiplier`. */
  predicate WeightsSplit(g: Graph, multiplier: real)
  {
    forall u, e :: u in g && e in g[u] ==> e.weight == e.dist + e.risk * multiplier
  }

  /** Every entry's distance and risk are non-negative. */
  predicate NonNegativeAttributes(g: Graph)
  {
    forall u, e :: u in g && e in g[u] ==> 0.0 <= e.dist && 0.0 <= e.risk
  }

  /** The built graph can be searched: its entries stay inside it and, with non-negative
      segment distances, risks and multiplier, weigh no less than zero; each entry weighs
      its distance plus its risk times the multiplier. */
  lemma BuiltGraphReady(segs: seq<Segment>, multiplier: real, g: Graph)
    requires 0.0 <= multiplier
    requires forall s :: s in segs ==> 0.0 <= s.distance && 0.0 <= s.risk
    requires g == GraphOf(segs, multiplier)
    ensures Closed(g) && NonNegativeWeights(g)
    ensures WeightsSplit(g, multiplier) && NonNegativeAttributes(g)
  {
    forall u: Key, e: Edge | u in g && e in g[u]
      ensures e.to in g && 0.0 <= e.weight
      ensures e.weight == e.dist + e.risk * multiplier
      ensures 0.0 <= e.dist && 0.0 <= e.risk
    {
      BuiltGraphClosed(segs, multiplier, u, e);
      BuiltGraphNonNegative(segs, multiplier, u, e);
      BuiltGraphWeights(segs, multiplier, u, e);
    }
  }

  /** When every entry weighs its distance plus its risk times the multiplier, so does
      every walk. */
  lemma {:induction false} WalkWeightSplit(g: Graph, multiplier: real, path: seq<Key>, hops: seq<Edge>)
    requires WeightsSplit(g, multiplier) && Realizes(g, path, hops)
    ensures SumWeight(hops) == SumDist(hops) + SumRisk(hops) * multiplier
  {
    if hops != [] {
      var n := |hops|;
      RealizesPrefix(g, path, hops);
      WalkWeightSplit(g, multiplier, path[..n], hops[..n - 1]);
      LastHop(g, path, hops, n);
    }
  }

  /** When every entry's distance and risk are non-negative, so are every walk's. */
  lemma {:induction false} WalkNonNegative(g: Graph, path: seq<Key>, hops: seq<Edge>)
    requires NonNegativeAttributes(g) && Realizes(g, path, hops)
    ensures 0.0 <= SumDist(hops) && 0.0 <= SumRisk(hops)
  {
    if hops != [] {
      var n := |hops|;
      RealizesPrefix(g, path, hops);
      WalkNonNegative(g, path[..n], hops[..n - 1]);
      LastHop(g, path, hops, n);
    }
  }

  /** Every shortest route on a graph whose entries split their weight and carry
      non-negative attributes weighs its distance plus its risk times the multiplier,
      with non-negative distance and risk. */
  lemma RoutesSplit(g: Graph, multiplier: real, start: Key, end: Key, routes: seq<Route>, hops: seq<Edge>)
    requires WeightsSplit(g, multiplier) && NonNegativeAttributes(g)
    requires forall i :: 0 <= i < |routes| ==> ShortestRoute(g, start, end, routes[i], hops)
    ensures forall r :: r in routes ==>
              r.weight == r.totalDistance + r.totalRisk * multiplier &&
              0.0 <= r.totalDistance && 0.0 <= r.totalRisk
  {
    forall r | r in routes
      ensures r.weight == r.totalDistance + r.totalRisk * multiplier
      ensures 0.0 <= r.totalDistance && 0.0 <= r.totalRisk
    {
      var i :| 0 <= i < |routes| && routes[i] == r;
      assert ShortestRoute(g, start, end, r, hops);
      WalkWeightSplit(g, multiplier, r.pathKeys, hops);
      WalkNonNegative(g, r.pathKeys, hops);
    }
  }

  /** `start` is `key` when the key is a node, and otherwise the node snapped to. */
  predicate SnappedTo(key: Key, nodes: set<Key>, n: Key)
  {
    if key in nodes || nodes == {} then n == key else Nearest(key, nodes, n)
  }

  /** Snapping a key (lines 151-154): kept when it is a node, otherwise moved to the nearest. */
  method Snap(key: Key, nodes: set<Key>) returns (n: Key)
    ensures SnappedTo(key, nodes, n)
  {
    n := key;
    if n !in nodes {
      n := NearestNode(n, nodes);
    }
  }

  /** `get_safest_routes` (lines 135-159): builds the graph, snaps each end to the nearest
      node when it is not one, and returns the k routes between the snapped nodes. Each
      route's weight is its distance plus its risk times the multiplier. */
  method GetSafestRoutes(segs: seq<Segment>, multiplier: real, from: Key, to: Key, k: int)
    returns (routes: seq<Route>, ghost start: Key, ghost end: Key, ghost hops: seq<Edge>)
    requires 0.0 <= multiplier
    requires forall s :: s in segs ==> 0.0 <= s.distance && 0.0 <= s.risk
    ensures SnappedTo(from, Endpoints(segs), start) && SnappedTo(to, Endpoints(segs), end)
    ensures segs == [] ==> routes == []
    ensures !Reachable(GraphOf(segs, multiplier), start, end) ==> routes == []
    ensures Reachable(GraphOf(segs, multiplier), start, end) ==>
              |routes| == |SlicePrefix(seq(RoutesReturned, i => i), k)| &&
              forall i :: 0 <= i < |routes| ==>
                ShortestRoute(GraphOf(segs, multiplier), start, end, routes[i], hops) &&
                routes[i].alternative == (0 < i) && routes[i] == routes[0].(alternative := 0 < i)
    ensures forall r :: r in routes ==>
              r.weight == r.totalDistance + r.totalRisk * multiplier &&
              0.0 <= r.totalDistance && 0.0 <= r.totalRisk
  {
    var graph, nodes := BuildGraph(segs, multiplier);
    var startKey := Snap(from, nodes);
    var endKey := Snap(to, nodes);
    start, end := startKey, endKey;
    BuiltGraphReady(segs, multiplier, graph);
    routes, hops := DijkstraKRoutes(graph, startKey, endKey, k);
    if segs == [] {
      assert graph == map[];
      OutsideUnreachable(graph, startKey, endKey);
    }
    RoutesSplit(graph, multiplier, startKey, endKey, routes, hops);
  }
}

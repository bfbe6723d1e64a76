/** The router on the geometry of the repository's routing tests
    (backend/apps/routing/tests/test_dijkstra.py, lines 24-31 and 50-56), with risk
    multiplier 100. Segments A-B (100 m, risk 0.1) and B-C (100 m, risk 0.2) run north;
    the risky segment (150 m, risk 0.5) leaves A for a fourth node D east of C, not for C.
    From A to C the only way in is the entry B -> C, so the safest route is A, B, C:
    weight 110 + 120 = 230, distance 200, risk 0.3, Yellow. */
module RouteTestScenario {
  import opened RoadGraph
  import opened RouteSearch
  import RouteScenario

  /** The tests' coordinates in micro-degrees. */
  const A: Key := Key(14599500, 120984200)
  const B: Key := Key(14600000, 120984200)
  const C: Key := Key(14600500, 120984200)
  const D: Key := Key(14600500, 120984500)

  const AtoB: Edge := Edge(B, 110.0, 100.0, 0.1)
  const BtoA: Edge := Edge(A, 110.0, 100.0, 0.1)
  const BtoC: Edge := Edge(C, 120.0, 100.0, 0.2)
  const CtoB: Edge := Edge(B, 120.0, 100.0, 0.2)
  const AtoD: Edge := Edge(D, 200.0, 150.0, 0.5)
  const DtoA: Edge := Edge(A, 200.0, 150.0, 0.5)

  function Segments(): seq<Segment>
  {
    [Segment(A, B, 100.0, 0.1), Segment(B, C, 100.0, 0.2), Segment(A, D, 150.0, 0.5)]
  }

  /** The adjacency the tests' segments build, entries in insertion order. */
  predicate TestAdjacency(g: Graph)
  {
    g.Keys == {A, B, C, D} &&
    g[A] == [AtoB, AtoD] && g[B] == [BtoA, BtoC] && g[C] == [CtoB] && g[D] == [DtoA]
  }

  /** `build_graph` on the tests' segments gives that adjacency. */
  lemma TestGraph(g: Graph)
    requires g == GraphOf(Segments(), RouteScenario.Multiplier)
    ensures TestAdjacency(g)
  {
    var s := Segments();
    RouteScenario.GraphOfThree(s[0], s[1], s[2]);
    assert s == [s[0], s[1], s[2]];
    var g1 := RouteScenario.AddSegment(map[], s[0]);
    var g2 := RouteScenario.AddSegment(g1, s[1]);
    FirstSegment(g1);
    SecondSegment(g1, g2);
    ThirdSegment(g2, g);
  }

  lemma FirstSegment(g1: Graph)
    requires g1 == RouteScenario.AddSegment(map[], Segment(A, B, 100.0, 0.1))
    ensures g1.Keys == {A, B} && g1[A] == [AtoB] && g1[B] == [BtoA]
  {
  }

  lemma SecondSegment(g1: Graph, g2: Graph)
    requires g1.Keys == {A, B} && g1[A] == [AtoB] && g1[B] == [BtoA]
    requires g2 == RouteScenario.AddSegment(g1, Segment(B, C, 100.0, 0.2))
    ensures g2.Keys == {A, B, C} && g2[A] == [AtoB] && g2[B] == [BtoA, BtoC] && g2[C] == [CtoB]
  {
  }

  lemma ThirdSegment(g2: Graph, g: Graph)
    requires g2.Keys == {A, B, C} && g2[A] == [AtoB] && g2[B] == [BtoA, BtoC] && g2[C] == [CtoB]
    requires g == RouteScenario.AddSegment(g2, Segment(A, D, 150.0, 0.5))
    ensures TestAdjacency(g)
  {
  }

  /** Every entry weighs at least 110, and the only entry into C is B -> C. */
  lemma TestEntries(g: Graph)
    requires TestAdjacency(g)
    ensures forall u, e :: u in g && e in g[u] ==> 110.0 <= e.weight
    ensures forall u, e :: u in g && e in g[u] && e.to == C ==> u == B && e == BtoC
  {
  }

  /** The walk A, B, C and its sums. */
  lemma ViaB(g: Graph)
    requires TestAdjacency(g)
    ensures IsRoute(g, [A, B, C], [AtoB, BtoC], A, C)
    ensures SumWeight([AtoB, BtoC]) == 230.0 && SumDist([AtoB, BtoC]) == 200.0 && SumRisk([AtoB, BtoC]) == 0.3
  {
    assert AtoB == g[A][0] && BtoC == g[B][1];
    SumsSnoc([], AtoB);
    SumsSnoc([AtoB], BtoC);
    assert [] + [AtoB] == [AtoB] && [AtoB] + [BtoC] == [AtoB, BtoC];
  }

  /** A walk from A to C weighing at most 230 is A, B, C. */
  lemma OnlyViaB(g: Graph, path: seq<Key>, hops: seq<Edge>)
    requires TestAdjacency(g) && IsRoute(g, path, hops, A, C) && SumWeight(hops) <= 230.0
    ensures path == [A, B, C] && hops == [AtoB, BtoC]
  {
    var n := |hops|;
    assert 0 < n;
    TestEntries(g);
    LastHop(g, path, hops, n);
    assert path[n - 1] == B && hops[n - 1] == BtoC;
    RealizesPrefix(g, path, hops);
    assert 1 < n;
    RouteScenario.WalkWeightAtLeast(g, path[..n], hops[..n - 1], 110.0);
    assert SumWeight(hops) == SumWeight(hops[..n - 1]) + 120.0;
    assert n == 2;
    LastHop(g, path[..n], hops[..n - 1], 1);
    assert hops[0] == AtoB;
    assert hops == [AtoB, BtoC];
    assert path == [path[0], path[1], path[2]];
  }

  /** Every shortest route from A to C is A, B, C: weight 230, distance 200, risk 0.3, Yellow. */
  lemma TestBest(g: Graph, r: Route, hops: seq<Edge>)
    requires TestAdjacency(g) && ShortestRoute(g, A, C, r, hops)
    ensures r.pathKeys == [A, B, C] && hops == [AtoB, BtoC]
    ensures r.weight == 230.0 && r.totalDistance == 200.0 && r.totalRisk == 0.3 && r.riskLevel == Yellow
  {
    ViaB(g);
    OnlyViaB(g, r.pathKeys, hops);
  }

  /** C can be reached from A. */
  lemma TestReachable(g: Graph)
    requires TestAdjacency(g)
    ensures Reachable(g, A, C)
  {
    ViaB(g);
  }

  /** `get_safest_routes` as the tests call it, from A to C with k = 3: both coordinates are
      nodes, so nothing is snapped, and the three routes are A, B, C, the last two flagged. */
  method TestRoutes() returns (routes: seq<Route>)
    ensures |routes| == 3
    ensures forall i :: 0 <= i < 3 ==>
              routes[i].pathKeys == [A, B, C] && routes[i].weight == 230.0 && routes[i].totalDistance == 200.0 &&
              routes[i].totalRisk == 0.3 && routes[i].riskLevel == Yellow && routes[i].alternative == (0 < i)
  {
    var segs := Segments();
    assert A in Endpoints(segs) && C in Endpoints(segs) by {
      assert segs[0].start == A && segs[1].end == C;
    }
    ghost var start, end, hops;
    routes, start, end, hops := GetSafestRoutes(segs, RouteScenario.Multiplier, A, C, 3);
    ghost var g := GraphOf(segs, RouteScenario.Multiplier);
    TestGraph(g);
    TestReachable(g);
    assert |SlicePrefix(seq(RoutesReturned, i => i), 3)| == 3;
    TestRouteList(g, routes, hops);
  }

  /** Three shortest routes from A to C, flagged as alternatives after the first, are all A, B, C. */
  lemma TestRouteList(g: Graph, routes: seq<Route>, hops: seq<Edge>)
    requires TestAdjacency(g) && |routes| == 3
    requires forall i :: 0 <= i < 3 ==> ShortestRoute(g, A, C, routes[i], hops) && routes[i].alternative == (0 < i)
    ensures forall i :: 0 <= i < 3 ==>
              routes[i].pathKeys == [A, B, C] && routes[i].weight == 230.0 && routes[i].totalDistance == 200.0 &&
              routes[i].totalRisk == 0.3 && routes[i].riskLevel == Yellow && routes[i].alternative == (0 < i)
  {
    forall i | 0 <= i < 3
      ensures routes[i].pathKeys == [A, B, C] && routes[i].weight == 230.0 && routes[i].totalDistance == 200.0
      ensures routes[i].totalRisk == 0.3 && routes[i].riskLevel == Yellow
    {
      TestBest(g, routes[i], hops);
    }
  }
}

/** An illustrative instance of the router, not taken from the repository's tests (the
    tests' own geometry is in module RouteTestScenario): three collinear segments A-B, B-C
    and a direct A-C, with risk multiplier 100. The direct segment weighs 150 + 0.5 * 100 = 200, the detour
    (100 + 0.1 * 100) + (100 + 0.2 * 100) = 230, so the direct segment is the safest route. */
module RouteScenario {
  import opened RoadGraph
  import opened RouteSearch

  const A: Key := Key(0, 0)
  const B: Key := Key(0, 1000)
  const C: Key := Key(0, 2000)
  const Multiplier: real := 100.0

  function Segments(): seq<Segment>
  {
    [Segment(A, B, 100.0, 0.1), Segment(B, C, 100.0, 0.2), Segment(A, C, 150.0, 0.5)]
  }

  /** The adjacency the three segments build, entries in insertion order. */
  predicate ScenarioAdjacency(g: Graph)
  {
    g.Keys == {A, B, C} &&
    g[A] == [Edge(B, 110.0, 100.0, 0.1), Edge(C, 200.0, 150.0, 0.5)] &&
    g[B] == [Edge(A, 110.0, 100.0, 0.1), Edge(C, 120.0, 100.0, 0.2)] &&
    g[C] == [Edge(B, 120.0, 100.0, 0.2), Edge(A, 200.0, 150.0, 0.5)]
  }

  /** `build_graph` on the three segments gives that adjacency. */
  lemma ScenarioGraph(g: Graph)
    requires g == GraphOf(Segments(), Multiplier)
    ensures ScenarioAdjacency(g)
  {
    var s := Segments();
    GraphOfThree(s[0], s[1], s[2]);
    assert s == [s[0], s[1], s[2]];
    var g1 := AddSegment(map[], s[0]);
    var g2 := AddSegment(g1, s[1]);
    FirstSegment(g1);
    SecondSegment(g1, g2);
    ThirdSegment(g2, g);
  }

  /** Three segments are added one after the other. */
  lemma GraphOfThree(s0: Segment, s1: Segment, s2: Segment)
    ensures GraphOf([s0, s1, s2], Multiplier) == AddSegment(AddSegment(AddSegment(map[], s0), s1), s2)
  {
    GraphOfSnoc([], s0, Multiplier);
    GraphOfSnoc([s0], s1, Multiplier);
    GraphOfSnoc([s0, s1], s2, Multiplier);
    assert [] + [s0] == [s0] && [s0] + [s1] == [s0, s1] && [s0, s1] + [s2] == [s0, s1, s2];
  }

  /** Adding segment `s` to `g` as `build_graph` does. */
  function AddSegment(g: Graph, s: Segment): Graph
  {
    Append(Append(g, s.start, Forward(s, Multiplier)), s.end, Backward(s, Multiplier))
  }

  lemma FirstSegment(g1: Graph)
    requires g1 == AddSegment(map[], Segment(A, B, 100.0, 0.1))
    ensures g1.Keys == {A, B} && g1[A] == [Edge(B, 110.0, 100.0, 0.1)] && g1[B] == [Edge(A, 110.0, 100.0, 0.1)]
  {
  }

  lemma SecondSegment(g1: Graph, g2: Graph)
    requires g1.Keys == {A, B} && g1[A] == [Edge(B, 110.0, 100.0, 0.1)] && g1[B] == [Edge(A, 110.0, 100.0, 0.1)]
    requires g2 == AddSegment(g1, Segment(B, C, 100.0, 0.2))
    ensures g2.Keys == {A, B, C} && g2[A] == [Edge(B, 110.0, 100.0, 0.1)]
    ensures g2[B] == [Edge(A, 110.0, 100.0, 0.1), Edge(C, 120.0, 100.0, 0.2)] && g2[C] == [Edge(B, 120.0, 100.0, 0.2)]
  {
  }

  lemma ThirdSegment(g2: Graph, g: Graph)
    requires g2.Keys == {A, B, C} && g2[A] == [Edge(B, 110.0, 100.0, 0.1)]
    requires g2[B] == [Edge(A, 110.0, 100.0, 0.1), Edge(C, 120.0, 100.0, 0.2)] && g2[C] == [Edge(B, 120.0, 100.0, 0.2)]
    requires g == AddSegment(g2, Segment(A, C, 150.0, 0.5))
    ensures ScenarioAdjacency(g)
  {
  }

  /** Every entry of the instance weighs at least 110. */
  lemma ScenarioMinWeight(g: Graph)
    requires ScenarioAdjacency(g)
    ensures forall u, e :: u in g && e in g[u] ==> 110.0 <= e.weight
  {
  }

  /** When every entry weighs at least `w`, a walk of n hops weighs at least n * w. */
  lemma {:induction false} WalkWeightAtLeast(g: Graph, path: seq<Key>, hops: seq<Edge>, w: real)
    requires forall u, e :: u in g && e in g[u] ==> w <= e.weight
    requires Realizes(g, path, hops)
    ensures |hops| as real * w <= SumWeight(hops)
  {
    if hops != [] {
      var n := |hops|;
      RealizesPrefix(g, path, hops);
      WalkWeightAtLeast(g, path[..n], hops[..n - 1], w);
      LastHop(g, path, hops, n);
    }
  }

  /** Every shortest route from A to C is the direct segment: distance 150, risk 0.5,
      weight 200, and Yellow. */
  lemma ScenarioBest(g: Graph, r: Route, hops: seq<Edge>)
    requires ScenarioAdjacency(g) && ShortestRoute(g, A, C, r, hops)
    ensures r.pathKeys == [A, C] && hops == [Edge(C, 200.0, 150.0, 0.5)]
    ensures r.weight == 200.0 && r.totalDistance == 150.0 && r.totalRisk == 0.5 && r.riskLevel == Yellow
  {
    var direct := [Edge(C, 200.0, 150.0, 0.5)];
    assert IsRoute(g, [A, C], direct, A, C) by {
      assert direct[0] == g[A][1];
    }
    assert r.weight <= SumWeight(direct) == 200.0;
    ScenarioMinWeight(g);
    WalkWeightAtLeast(g, r.pathKeys, hops, 110.0);
    assert |hops| == 1;
    LastHop(g, r.pathKeys, hops, 1);
    assert hops[0] == direct[0];
    assert hops == direct;
    assert SumDist(direct) == 150.0 && SumRisk(direct) == 0.5;
    assert r.pathKeys == [r.pathKeys[0], r.pathKeys[1]];
  }

  /** C can be reached from A. */
  lemma ScenarioReachable(g: Graph)
    requires ScenarioAdjacency(g)
    ensures Reachable(g, A, C)
  {
    var direct := [Edge(C, 200.0, 150.0, 0.5)];
    assert direct[0] == g[A][1];
    assert IsRoute(g, [A, C], direct, A, C);
  }

  /** The whole service on the instance: A and C are nodes, so nothing is snapped, and the
      three routes returned are the direct segment, then twice its alternative copy. */
  method ScenarioRoutes() returns (routes: seq<Route>)
    ensures |routes| == 3
    ensures forall i :: 0 <= i < 3 ==>
              routes[i].pathKeys == [A, C] && routes[i].weight == 200.0 && routes[i].totalDistance == 150.0 &&
              routes[i].totalRisk == 0.5 && routes[i].riskLevel == Yellow && routes[i].alternative == (0 < i)
  {
    var segs := Segments();
    assert A in Endpoints(segs) && C in Endpoints(segs) by {
      assert segs[2].start == A && segs[2].end == C;
    }
    ghost var start, end, hops;
    routes, start, end, hops := GetSafestRoutes(segs, Multiplier, A, C, 3);
    ghost var g := GraphOf(segs, Multiplier);
    ScenarioGraph(g);
    ScenarioReachable(g);
    assert |SlicePrefix(seq(RoutesReturned, i => i), 3)| == 3;
    forall i | 0 <= i < 3
      ensures routes[i].pathKeys == [A, C] && routes[i].weight == 200.0 && routes[i].totalDistance == 150.0
      ensures routes[i].totalRisk == 0.5 && routes[i].riskLevel == Yellow && routes[i].alternative == (0 < i)
    {
      ScenarioBest(g, routes[i], hops);
    }
  }
}

/** Graph construction of the risk-weighted router (`build_graph` in
    backend/apps/routing/services/dijkstra.py). Node keys are coordinates in
    micro-degrees, standing for the source's six-decimal "lat,lng" strings; distances
    and risks are `real`. */
module RoadGraph {

  /** A node: latitude and longitude in millionths of a degree. */
  datatype Key = Key(lat: int, lng: int)

  /** A road segment: two endpoints, its base distance and its predicted risk score. */
  datatype Segment = Segment(start: Key, end: Key, distance: real, risk: real)

  /** An adjacency entry `(neighbour, weight, dist, risk)`. */
  datatype Edge = Edge(to: Key, weight: real, dist: real, risk: real)

  /** The adjacency dictionary: each node's outgoing entries, in insertion order. */
  type Graph = map<Key, seq<Edge>>

  /** The routing cost of a segment: `dist + risk * risk_multiplier`. */
  function SegmentWeight(s: Segment, multiplier: real): (w: real)
    ensures 0.0 <= s.risk && 0.0 <= multiplier ==> s.distance <= w
    ensures multiplier == 0.0 || s.risk == 0.0 ==> w == s.distance
  {
    s.distance + s.risk * multiplier
  }

  /** The entry a segment adds at its start node, pointing to its end. */
  function Forward(s: Segment, multiplier: real): Edge
  {
    Edge(s.end, SegmentWeight(s, multiplier), s.distance, s.risk)
  }

  /** The entry a segment adds at its end node, pointing back to its start. */
  function Backward(s: Segment, multiplier: real): Edge
  {
    Edge(s.start, SegmentWeight(s, multiplier), s.distance, s.risk)
  }

  /** The entries of node `k`; a node never appended to has none (the `defaultdict`). */
  function Adj(g: Graph, k: Key): seq<Edge>
  {
    if k in g then g[k] else []
  }

  /** `adj[k].append(e)`. */
  function Append(g: Graph, k: Key, e: Edge): (r: Graph)
    ensures r.Keys == g.Keys + {k}
    ensures Adj(r, k) == Adj(g, k) + [e]
    ensures forall j :: j in g && j != k ==> r[j] == g[j]
  {
    g[k := Adj(g, k) + [e]]
  }

  /** The adjacency `build_graph` produces from `segs`: segment by segment, the forward
      entry at the start node, then the backward entry at the end node. */
  function GraphOf(segs: seq<Segment>, multiplier: real): (g: Graph)
    ensures g == map[] <==> segs == []
  {
    if segs == [] then map[]
    else
      var s := segs[|segs| - 1];
      Append(Append(GraphOf(segs[..|segs| - 1], multiplier), s.start, Forward(s, multiplier)), s.end, Backward(s, multiplier))
  }

  /** The set of segment endpoints. */
  function Endpoints(segs: seq<Segment>): set<Key>
  {
    (set s | s in segs :: s.start) + (set s | s in segs :: s.end)
  }

  /** Whether segment `s` contributes entry `e` at node `u`. */
  predicate Contributes(s: Segment, multiplier: real, u: Key, e: Edge)
  {
    (u == s.start && e == Forward(s, multiplier)) || (u == s.end && e == Backward(s, multiplier))
  }

  /** `build_graph`: one pass over the segments, adding both endpoints to the node set and
      appending an entry in each direction with the same weight, distance and risk. */
  method BuildGraph(segs: seq<Segment>, multiplier: real) returns (adj: Graph, nodes: set<Key>)
    ensures adj == GraphOf(segs, multiplier)
    ensures nodes == Endpoints(segs)
    ensures adj.Keys == nodes
  {
    adj := map[];
    nodes := {};
    for i := 0 to |segs|
      invariant adj == GraphOf(segs[..i], multiplier)
      invariant nodes == Endpoints(segs[..i])
    {
      var seg := segs[i];
      var weight := seg.distance + seg.risk * multiplier;
      nodes := nodes + {seg.start};
      nodes := nodes + {seg.end};
      var forward := Edge(seg.end, weight, seg.distance, seg.risk);
      var backward := Edge(seg.start, weight, seg.distance, seg.risk);
      assert forward == Forward(seg, multiplier) && backward == Backward(seg, multiplier);
      GraphOfSnoc(segs[..i], seg, multiplier);
      adj := Append(adj, seg.start, forward);
      adj := Append(adj, seg.end, backward);
      assert segs[..i] + [seg] == segs[..i + 1];
      EndpointsSnoc(segs[..i], seg);
    }
    assert segs[..|segs|] == segs;
    GraphKeysAreEndpoints(segs, multiplier);
  }

  /** Adding a segment appends its two entries. */
  lemma GraphOfSnoc(segs: seq<Segment>, s: Segment, multiplier: real)
    ensures GraphOf(segs + [s], multiplier)
            == Append(Append(GraphOf(segs, multiplier), s.start, Forward(s, multiplier)), s.end, Backward(s, multiplier))
  {
    assert (segs + [s])[..|segs|] == segs;
  }

  /** Adding a segment adds its two endpoints. */
  lemma EndpointsSnoc(segs: seq<Segment>, s: Segment)
    ensures Endpoints(segs + [s]) == Endpoints(segs) + {s.start, s.end}
  {
    var t := segs + [s];
    forall x | x in t ensures x in segs || x == s { }
    forall x | x in segs ensures x in t { }
  }

  /** The graph's nodes are exactly the segment endpoints. */
  lemma {:induction false} GraphKeysAreEndpoints(segs: seq<Segment>, multiplier: real)
    ensures GraphOf(segs, multiplier).Keys == Endpoints(segs)
  {
    if segs != [] {
      var front := segs[..|segs| - 1];
      GraphKeysAreEndpoints(front, multiplier);
      EndpointsSnoc(front, segs[|segs| - 1]);
      assert front + [segs[|segs| - 1]] == segs;
    }
  }

  /** Every entry of a node's adjacency list was contributed there by some segment. */
  lemma {:induction false} EdgeHasOrigin(segs: seq<Segment>, multiplier: real, u: Key, e: Edge)
    requires e in Adj(GraphOf(segs, multiplier), u)
    ensures exists s :: s in segs && Contributes(s, multiplier, u, e)
  {
    var front, last := segs[..|segs| - 1], segs[|segs| - 1];
    if !Contributes(last, multiplier, u, e) {
      EdgeHasOrigin(front, multiplier, u, e);
      var s :| s in front && Contributes(s, multiplier, u, e);
      assert s in segs;
    }
  }

  /** Every segment's contribution is in the adjacency list of its node. */
  lemma {:induction false} OriginHasEdge(segs: seq<Segment>, multiplier: real, s: Segment, u: Key, e: Edge)
    requires s in segs && Contributes(s, multiplier, u, e)
    ensures e in Adj(GraphOf(segs, multiplier), u)
  {
    var front, last := segs[..|segs| - 1], segs[|segs| - 1];
    assert segs == front + [last];
    if s != last {
      assert s in front;
      OriginHasEdge(front, multiplier, s, u, e);
    }
  }

  /** An entry lies in a node's adjacency list exactly when some segment contributes it there:
      every segment adds an entry start -> end and an entry end -> start, and nothing else is added. */
  lemma EdgeOrigin(segs: seq<Segment>, multiplier: real, u: Key, e: Edge)
    ensures e in Adj(GraphOf(segs, multiplier), u) <==> exists s :: s in segs && Contributes(s, multiplier, u, e)
  {
    if e in Adj(GraphOf(segs, multiplier), u) {
      EdgeHasOrigin(segs, multiplier, u, e);
    }
    forall s | s in segs && Contributes(s, multiplier, u, e)
      ensures e in Adj(GraphOf(segs, multiplier), u)
    {
      OriginHasEdge(segs, multiplier, s, u, e);
    }
  }

  /** Every entry of the built graph points to a node of the graph. */
  lemma BuiltGraphClosed(segs: seq<Segment>, multiplier: real, u: Key, e: Edge)
    requires e in Adj(GraphOf(segs, multiplier), u)
    ensures e.to in GraphOf(segs, multiplier)
  {
    EdgeHasOrigin(segs, multiplier, u, e);
    GraphKeysAreEndpoints(segs, multiplier);
    var s :| s in segs && Contributes(s, multiplier, u, e);
    assert e.to in Endpoints(segs);
  }

  /** Every entry of the built graph carries the weight `dist + risk * multiplier`. */
  lemma BuiltGraphWeights(segs: seq<Segment>, multiplier: real, u: Key, e: Edge)
    requires e in Adj(GraphOf(segs, multiplier), u)
    ensures e.weight == e.dist + e.risk * multiplier
  {
    EdgeHasOrigin(segs, multiplier, u, e);
    var s :| s in segs && Contributes(s, multiplier, u, e);
  }

  /** Every entry of the built graph is mirrored by an entry back with the same attributes. */
  lemma BuiltGraphSymmetric(segs: seq<Segment>, multiplier: real, u: Key, e: Edge)
    requires e in Adj(GraphOf(segs, multiplier), u)
    ensures Edge(u, e.weight, e.dist, e.risk) in Adj(GraphOf(segs, multiplier), e.to)
  {
    EdgeHasOrigin(segs, multiplier, u, e);
    var s :| s in segs && Contributes(s, multiplier, u, e);
    OriginHasEdge(segs, multiplier, s, e.to, Edge(u, e.weight, e.dist, e.risk));
  }

  /** With non-negative distances, risks and multiplier, every entry's weight, distance and risk is non-negative. */
  lemma BuiltGraphNonNegative(segs: seq<Segment>, multiplier: real, u: Key, e: Edge)
    requires 0.0 <= multiplier
    requires forall s :: s in segs ==> 0.0 <= s.distance && 0.0 <= s.risk
    requires e in Adj(GraphOf(segs, multiplier), u)
    ensures 0.0 <= e.dist && 0.0 <= e.risk && 0.0 <= e.weight
  {
    EdgeHasOrigin(segs, multiplier, u, e);
    var s :| s in segs && Contributes(s, multiplier, u, e);
    assert e.dist == s.distance && e.risk == s.risk && e.weight == s.distance + s.risk * multiplier;
    ProductNonNegative(s.risk, multiplier);
  }

  lemma ProductNonNegative(a: real, b: real)
    requires 0.0 <= a && 0.0 <= b
    ensures 0.0 <= a * b
  {
  }
}

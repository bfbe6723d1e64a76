/** Consensus scoring of hazard reports (backend/apps/validation/services/consensus.py).
    Counts the corroborating reports near a location and blends that count with the
    Naive Bayes plausibility score. The great-circle proximity test is not modelled:
    it is the parameter `within`, standing for `within_radius(lat1, lng1, lat2, lng2, radius)`. */
module Consensus {
  import opened Wrappers

  /** Default weight of the Naive Bayes score in the blend. */
  const DefaultAlpha: real := 0.7
  /** Neutral score the consensus part starts from. */
  const Neutral: real := 0.5
  /** Boost per corroborating report, and its cap. */
  const BoostPerReport: real := 0.1
  const MaxBoost: real := 0.3

  /** A stored hazard report as the counter sees it: its id and its location. */
  datatype Candidate = Candidate(id: int, lat: real, lng: real)

  /** The proximity test: (lat1, lng1, lat2, lng2, radius) -> within radius. */
  type Proximity = (real, real, real, real, real) -> bool

  /** Whether the counting loop counts report `c`: it is not the excluded one and lies within the radius. */
  predicate Counted(c: Candidate, lat: real, lng: real, exclude: Option<int>, radius: real, within: Proximity)
  {
    !(exclude.Some? && c.id == exclude.value) && within(lat, lng, c.lat, c.lng, radius)
  }

  /** Number of reports of `rs` the loop counts. */
  function NearbyCount(lat: real, lng: real, rs: seq<Candidate>, exclude: Option<int>, radius: real, within: Proximity): (c: nat)
    ensures c <= |rs|
  {
    if rs == [] then 0
    else NearbyCount(lat, lng, rs[..|rs| - 1], exclude, radius, within)
         + (if Counted(rs[|rs| - 1], lat, lng, exclude, radius, within) then 1 else 0)
  }

  /** Number of reports of `rs` within the radius, whatever their id. */
  function WithinCount(lat: real, lng: real, rs: seq<Candidate>, radius: real, within: Proximity): nat
  {
    if rs == [] then 0
    else WithinCount(lat, lng, rs[..|rs| - 1], radius, within)
         + (if within(lat, lng, rs[|rs| - 1].lat, rs[|rs| - 1].lng, radius) then 1 else 0)
  }

  /** Number of reports of `rs` within the radius that carry the id `id`. */
  function WithinWithId(lat: real, lng: real, rs: seq<Candidate>, id: int, radius: real, within: Proximity): nat
  {
    if rs == [] then 0
    else WithinWithId(lat, lng, rs[..|rs| - 1], id, radius, within)
         + (if rs[|rs| - 1].id == id && within(lat, lng, rs[|rs| - 1].lat, rs[|rs| - 1].lng, radius) then 1 else 0)
  }

  /** `count_nearby_reports`: one pass over the candidates, skipping the excluded id and
      counting those within the radius. */
  method CountNearbyReports(lat: real, lng: real, reports: seq<Candidate>, exclude: Option<int>,
                            radius: real, within: Proximity) returns (count: nat)
    ensures count == NearbyCount(lat, lng, reports, exclude, radius, within)
    ensures count <= |reports|
  {
    count := 0;
    for i := 0 to |reports|
      invariant count == NearbyCount(lat, lng, reports[..i], exclude, radius, within)
    {
      assert reports[..i + 1][..i] == reports[..i];
      var r := reports[i];
      if exclude.Some? && r.id == exclude.value {
        continue;
      }
      if within(lat, lng, r.lat, r.lng, radius) {
        count := count + 1;
      }
    }
    assert reports[..|reports|] == reports;
    NearbyCountBound(lat, lng, reports, exclude, radius, within);
  }

  /** The count never exceeds the number of candidates. */
  lemma {:induction false} NearbyCountBound(lat: real, lng: real, rs: seq<Candidate>, exclude: Option<int>,
                                            radius: real, within: Proximity)
    ensures NearbyCount(lat, lng, rs, exclude, radius, within) <= WithinCount(lat, lng, rs, radius, within) <= |rs|
  {
    if rs != [] {
      NearbyCountBound(lat, lng, rs[..|rs| - 1], exclude, radius, within);
    }
  }

  /** Without an exclusion id no report is skipped: every report within the radius counts. */
  lemma {:induction false} NoExclusionCountsAll(lat: real, lng: real, rs: seq<Candidate>, radius: real, within: Proximity)
    ensures NearbyCount(lat, lng, rs, None, radius, within) == WithinCount(lat, lng, rs, radius, within)
  {
    if rs != [] {
      NoExclusionCountsAll(lat, lng, rs[..|rs| - 1], radius, within);
    }
  }

  /** The exclusion skips exactly the reports within the radius whose id is the excluded one. */
  lemma {:induction false} ExclusionSkipsExactlyThatId(lat: real, lng: real, rs: seq<Candidate>, id: int,
                                                       radius: real, within: Proximity)
    ensures NearbyCount(lat, lng, rs, Some(id), radius, within) + WithinWithId(lat, lng, rs, id, radius, within)
            == WithinCount(lat, lng, rs, radius, within)
  {
    if rs != [] {
      ExclusionSkipsExactlyThatId(lat, lng, rs[..|rs| - 1], id, radius, within);
    }
  }

  /** Report ids are unique, as the primary keys of stored reports are. */
  predicate UniqueIds(rs: seq<Candidate>)
  {
    forall i, j :: 0 <= i < j < |rs| ==> rs[i].id != rs[j].id
  }

  /** With unique ids at most one report carries a given id. */
  lemma {:induction false} AtMostOneWithId(lat: real, lng: real, rs: seq<Candidate>, id: int, radius: real, within: Proximity)
    requires UniqueIds(rs)
    ensures WithinWithId(lat, lng, rs, id, radius, within) <= 1
    ensures WithinWithId(lat, lng, rs, id, radius, within) == 1 ==> exists i :: 0 <= i < |rs| && rs[i].id == id
  {
    if rs != [] {
      var front := rs[..|rs| - 1];
      assert UniqueIds(front);
      AtMostOneWithId(lat, lng, front, id, radius, within);
    }
  }

  /** Excluding the current report lowers the count by at most one when ids are unique. */
  lemma ExcludingOneReport(lat: real, lng: real, rs: seq<Candidate>, id: int, radius: real, within: Proximity)
    requires UniqueIds(rs)
    ensures WithinCount(lat, lng, rs, radius, within) - 1 <= NearbyCount(lat, lng, rs, Some(id), radius, within)
            <= NearbyCount(lat, lng, rs, None, radius, within)
  {
    ExclusionSkipsExactlyThatId(lat, lng, rs, id, radius, within);
    AtMostOneWithId(lat, lng, rs, id, radius, within);
    NoExclusionCountsAll(lat, lng, rs, radius, within);
  }

  /** `consensus_boost = min(0.3, nearby_count * 0.1)`. */
  function ConsensusBoost(nearbyCount: int): (b: real)
    ensures nearbyCount >= 0 ==> 0.0 <= b <= MaxBoost
    ensures b <= MaxBoost && b <= nearbyCount as real * BoostPerReport
  {
    var raw := nearbyCount as real * BoostPerReport;
    if MaxBoost <= raw then MaxBoost else raw
  }

  /** `combined_score`: the Naive Bayes score weighted by `alpha`, blended with the neutral
      score raised by the consensus boost. The source does not clamp the result. */
  function CombinedScore(naiveBayesScore: real, nearbyCount: int, alpha: real): (r: real)
    ensures 0.0 <= naiveBayesScore <= 1.0 && 0.0 <= alpha <= 1.0 && nearbyCount >= 0 ==> 0.0 <= r <= 1.0
  {
    var consensus := Neutral + ConsensusBoost(nearbyCount);
    assert 0.0 <= naiveBayesScore <= 1.0 && 0.0 <= alpha <= 1.0 && nearbyCount >= 0 ==>
             0.0 <= alpha * naiveBayesScore + (1.0 - alpha) * consensus <= 1.0 by {
      if 0.0 <= naiveBayesScore <= 1.0 && 0.0 <= alpha <= 1.0 && nearbyCount >= 0 {
        BlendBounds(naiveBayesScore, consensus, alpha);
      }
    }
    alpha * naiveBayesScore + (1.0 - alpha) * consensus
  }

  /** A convex combination of two values in [0, 1] lies in [0, 1]. */
  lemma BlendBounds(x: real, y: real, alpha: real)
    requires 0.0 <= x <= 1.0 && 0.0 <= y <= 1.0 && 0.0 <= alpha <= 1.0
    ensures 0.0 <= alpha * x + (1.0 - alpha) * y <= 1.0
  {
    assert 0.0 <= alpha * x <= alpha by { MulBounds(alpha, x); }
    assert 0.0 <= (1.0 - alpha) * y <= 1.0 - alpha by { MulBounds(1.0 - alpha, y); }
  }

  /** x * y lies between 0 and x when x >= 0 and y lies in [0, 1]. */
  lemma MulBounds(x: real, y: real)
    requires 0.0 <= x && 0.0 <= y <= 1.0
    ensures 0.0 <= x * y <= x
  {
    assert x * y <= x * 1.0;
  }

  /** The boost never decreases as the number of nearby reports grows. */
  lemma BoostMonotone(n1: int, n2: int)
    requires n1 <= n2
    ensures ConsensusBoost(n1) <= ConsensusBoost(n2)
  {
  }

  /** The combined score is non-decreasing in the number of nearby reports when alpha <= 1. */
  lemma CombinedScoreMonotone(s: real, n1: int, n2: int, alpha: real)
    requires n1 <= n2 && alpha <= 1.0
    ensures CombinedScore(s, n1, alpha) <= CombinedScore(s, n2, alpha)
  {
    BoostMonotone(n1, n2);
    var c1, c2 := Neutral + ConsensusBoost(n1), Neutral + ConsensusBoost(n2);
    assert (1.0 - alpha) * c1 <= (1.0 - alpha) * c2 by { ScaleMonotone(1.0 - alpha, c1, c2); }
  }

  lemma ScaleMonotone(k: real, y1: real, y2: real)
    requires 0.0 <= k && y1 <= y2
    ensures k * y1 <= k * y2
  {
    assert k * y2 - k * y1 == k * (y2 - y1);
  }

  lemma ScaleStrict(k: real, y1: real, y2: real)
    requires 0.0 < k && y1 < y2
    ensures k * y1 < k * y2
  {
    assert k * y2 - k * y1 == k * (y2 - y1);
  }

  /** Below saturation each extra nearby report strictly raises the score when alpha < 1:
      two corroborating reports beat an isolated one, and three beat none. */
  lemma CombinedScoreStrictlyIncreasing(s: real, n1: int, n2: int, alpha: real)
    requires 0 <= n1 < n2 && n1 < 3 && alpha < 1.0
    ensures CombinedScore(s, n1, alpha) < CombinedScore(s, n2, alpha)
  {
    var c1, c2 := Neutral + ConsensusBoost(n1), Neutral + ConsensusBoost(n2);
    assert c1 < c2;
    assert (1.0 - alpha) * c1 < (1.0 - alpha) * c2 by { ScaleStrict(1.0 - alpha, c1, c2); }
  }

  /** The boost saturates: three or more nearby reports all give the score of three. */
  lemma CombinedScoreSaturates(s: real, n: int, alpha: real)
    requires n >= 3
    ensures CombinedScore(s, n, alpha) == CombinedScore(s, 3, alpha)
  {
    assert ConsensusBoost(n) == MaxBoost;
  }

  /** With alpha = 1 the result is the Naive Bayes score; with alpha = 0 it is the neutral score plus the boost. */
  lemma CombinedScoreExtremes(s: real, n: int)
    ensures CombinedScore(s, n, 1.0) == s
    ensures CombinedScore(s, n, 0.0) == Neutral + ConsensusBoost(n)
  {
  }

  /** With the default alpha the consensus part can lift a score by at most 0.09 over an
      isolated report, and three nearby reports lift it by exactly that much. */
  lemma DefaultConsensusLift(s: real, n: int)
    requires 0 <= n
    ensures CombinedScore(s, 0, DefaultAlpha) <= CombinedScore(s, n, DefaultAlpha) <= CombinedScore(s, 0, DefaultAlpha) + 0.09
    ensures 3 <= n ==> CombinedScore(s, n, DefaultAlpha) == CombinedScore(s, 0, DefaultAlpha) + 0.09
  {
    var b := ConsensusBoost(n);
    assert 0.0 <= b <= MaxBoost;
    assert CombinedScore(s, n, DefaultAlpha) - CombinedScore(s, 0, DefaultAlpha) == 0.3 * b;
  }
}

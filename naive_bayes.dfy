/** Naive Bayes plausibility score for crowdsourced hazard reports
    (backend/apps/validation/services/naive_bayes.py).
    Features: the hazard type and the bucketed description length; label: valid or not.
    Floating point is modelled by `real`. */
module NaiveBayes {
  import opened Wrappers

  /** Neutral probability: the default prior and the score when both posteriors vanish. */
  const Neutral: real := 0.5
  /** Laplace smoothing added to every feature count. */
  const Smoothing: real := 0.5
  /** Added to the class size in the likelihood's denominator. */
  const SmoothingDenominator: real := 2.0
  /** Hazard type assumed for a record that has none. */
  const UnknownHazard: string := "unknown"
  /** Description-length bucket boundaries. */
  const ShortBelow: int := 20
  const MediumBelow: int := 60

  datatype Bucket = Short | Medium | Long

  /** The two classes of the classifier (`'valid'` and `'invalid'` in the source). */
  datatype Label = ValidClass | InvalidClass

  /** A labelled training record; absent fields are `None`. A missing `valid` field reads as false. */
  datatype Example = Example(hazardType: Option<string>, descriptionLength: Option<int>, valid: bool)

  /** The fields of a report that inference reads. */
  datatype Report = Report(hazardType: Option<string>, description: Option<string>, descriptionLength: Option<int>)

  /** Per-class feature counts, with the sizes of both classes, as training stores them. */
  datatype ClassStats = ClassStats(hazardType: map<string, nat>, descBucket: map<Bucket, nat>,
                                   validTotal: nat, invalidTotal: nat)

  /** `_bucket_desc_len`. */
  function BucketDescLen(length: int): (b: Bucket)
    ensures b == Short <==> length < ShortBelow
    ensures b == Medium <==> ShortBelow <= length < MediumBelow
    ensures b == Long <==> MediumBelow <= length
  {
    if length < ShortBelow then Short
    else if length < MediumBelow then Medium
    else Long
  }

  /** A dictionary lookup with default 0. */
  function Get<K>(m: map<K, nat>, k: K): nat
  {
    if k in m then m[k] else 0
  }

  /** `counts[k] = counts.get(k, 0) + 1`. */
  function Inc<K(!new)>(m: map<K, nat>, k: K): (r: map<K, nat>)
    ensures r.Keys == m.Keys + {k}
    ensures Get(r, k) == Get(m, k) + 1
    ensures forall j :: j != k ==> Get(r, j) == Get(m, j)
  {
    m[k := Get(m, k) + 1]
  }

  /** The hazard type a training record contributes, `'unknown'` when missing. */
  function ExampleHazard(r: Example): string
  {
    r.hazardType.GetOr(UnknownHazard)
  }

  /** The length bucket a training record contributes, its length being 0 when missing. */
  function ExampleBucket(r: Example): Bucket
  {
    BucketDescLen(r.descriptionLength.GetOr(0))
  }

  /** Number of records whose label is `valid`. */
  function ClassCount(data: seq<Example>, valid: bool): (c: nat)
    ensures c <= |data|
  {
    if data == [] then 0
    else ClassCount(data[..|data| - 1], valid) + (if data[|data| - 1].valid == valid then 1 else 0)
  }

  /** Per-hazard-type counts of the records labelled `valid`. */
  function HazardCounts(data: seq<Example>, valid: bool): (m: map<string, nat>)
    ensures forall h :: h in m ==> 0 < m[h] <= ClassCount(data, valid)
  {
    if data == [] then map[]
    else
      var front := HazardCounts(data[..|data| - 1], valid);
      var r := data[|data| - 1];
      if r.valid == valid then Inc(front, ExampleHazard(r)) else front
  }

  /** Per-length-bucket counts of the records labelled `valid`. */
  function BucketCounts(data: seq<Example>, valid: bool): (m: map<Bucket, nat>)
    ensures forall b :: b in m ==> 0 < m[b] <= ClassCount(data, valid)
  {
    if data == [] then map[]
    else
      var front := BucketCounts(data[..|data| - 1], valid);
      var r := data[|data| - 1];
      if r.valid == valid then Inc(front, ExampleBucket(r)) else front
  }

  /** The class priors `train` stores for non-empty data. */
  function TrainedPriors(data: seq<Example>): (prior: map<Label, real>)
    ensures PriorsWellFormed(prior) && prior != map[]
  {
    var total := |data|;
    var pValid := if total != 0 then ClassCount(data, true) as real / total as real else Neutral;
    assert 0.0 <= pValid <= 1.0 by {
      if total != 0 { FractionBounds(ClassCount(data, true) as real, total as real); }
    }
    map[ValidClass := pValid, InvalidClass := 1.0 - pValid]
  }

  /** The likelihood table `train` stores for non-empty data. */
  function TrainedStats(data: seq<Example>): (table: map<Label, ClassStats>)
    ensures table.Keys == {ValidClass, InvalidClass}
    ensures forall cls :: cls in table ==>
              table[cls].validTotal == ClassCount(data, true) && table[cls].invalidTotal == ClassCount(data, false)
  {
    ClassCountsPartition(data);
    var validCount := ClassCount(data, true);
    var invalidCount := |data| - validCount;
    map[ValidClass := ClassStats(HazardCounts(data, true), BucketCounts(data, true), validCount, invalidCount),
        InvalidClass := ClassStats(HazardCounts(data, false), BucketCounts(data, false), validCount, invalidCount)]
  }

  /** `_class_prior.get(cls, 0.5)`. */
  function PriorOf(prior: map<Label, real>, cls: Label): (p: real)
    ensures PriorsWellFormed(prior) ==> 0.0 <= p <= 1.0
  {
    if cls in prior then prior[cls] else Neutral
  }

  /** `_feature_likelihood.get(cls, {})`, an absent class reading as empty counts and zero totals. */
  function StatsOf(table: map<Label, ClassStats>, cls: Label): (st: ClassStats)
    ensures cls in table ==> st == table[cls]
    ensures table == map[] ==> st.hazardType == map[] && st.descBucket == map[] && st.validTotal == 0 && st.invalidTotal == 0
  {
    if cls in table then table[cls] else ClassStats(map[], map[], 0, 0)
  }

  /** The smoothed likelihood `(count + 0.5) / (class_total + 2)`. */
  function Likelihood(count: nat, classTotal: nat): (p: real)
    ensures 0.0 < p
  {
    (count as real + Smoothing) / (classTotal as real + SmoothingDenominator)
  }

  /** The description length inference uses: a supplied `description_length` wins over
      the length of the description, which defaults to the empty text. */
  function ReportLength(report: Report): (n: int)
    ensures report.descriptionLength.None? ==> 0 <= n
    ensures report.descriptionLength.None? && report.description.None? ==> BucketDescLen(n) == Short
  {
    match report.descriptionLength
    case Some(n) => n
    case None => |report.description.GetOr("")|
  }

  /** Priors as the validator keeps them: not set yet, or P(valid) in [0, 1] and P(invalid) = 1 - P(valid). */
  predicate PriorsWellFormed(prior: map<Label, real>)
  {
    prior == map[] ||
    (prior.Keys == {ValidClass, InvalidClass} && 0.0 <= prior[ValidClass] <= 1.0 &&
     prior[InvalidClass] == 1.0 - prior[ValidClass])
  }

  /** The arithmetic of `validate_report` once the training guard has run: the normalised
      posterior of the valid class for the report's features, or 0.5 when both posteriors are zero. */
  function Score(prior: map<Label, real>, table: map<Label, ClassStats>, report: Report): (r: real)
    ensures 0.0 <= PriorOf(prior, ValidClass) && 0.0 <= PriorOf(prior, InvalidClass) ==> 0.0 <= r <= 1.0
  {
    FeatureScore(prior, table, report.hazardType.GetOr(UnknownHazard), BucketDescLen(ReportLength(report)))
  }

  /** The normalised posterior of the valid class for one hazard type and length bucket. */
  function FeatureScore(prior: map<Label, real>, table: map<Label, ClassStats>, hazard: string, bucket: Bucket): (r: real)
    ensures 0.0 <= PriorOf(prior, ValidClass) && 0.0 <= PriorOf(prior, InvalidClass) ==> 0.0 <= r <= 1.0
  {
    var v := StatsOf(table, ValidClass);
    var inv := StatsOf(table, InvalidClass);
    var vHazard := Likelihood(Get(v.hazardType, hazard), v.validTotal);
    var vBucket := Likelihood(Get(v.descBucket, bucket), v.validTotal);
    var iHazard := Likelihood(Get(inv.hazardType, hazard), inv.invalidTotal);
    var iBucket := Likelihood(Get(inv.descBucket, bucket), inv.invalidTotal);
    var postValid := PriorOf(prior, ValidClass) * vHazard * vBucket;
    var postInvalid := PriorOf(prior, InvalidClass) * iHazard * iBucket;
    var total := postValid + postInvalid;
    assert 0.0 <= PriorOf(prior, ValidClass) && 0.0 <= PriorOf(prior, InvalidClass) ==>
             0.0 <= postValid && 0.0 <= postInvalid by {
      if 0.0 <= PriorOf(prior, ValidClass) && 0.0 <= PriorOf(prior, InvalidClass) {
        Product3NonNeg(PriorOf(prior, ValidClass), vHazard, vBucket);
        Product3NonNeg(PriorOf(prior, InvalidClass), iHazard, iBucket);
      }
    }
    if total != 0.0 then
      assert 0.0 <= postValid && 0.0 <= postInvalid ==> 0.0 <= postValid / total <= 1.0 by {
        if 0.0 <= postValid && 0.0 <= postInvalid { ShareBounds(postValid, postInvalid); }
      }
      postValid / total
    else Neutral
  }

  lemma Product3NonNeg(a: real, b: real, c: real)
    requires 0.0 <= a && 0.0 < b && 0.0 < c
    ensures 0.0 <= a * b * c
  {
    assert 0.0 <= a * b;
  }

  /** a / (a + b) lies in [0, 1] for non-negative a, b with a positive sum. */
  lemma ShareBounds(a: real, b: real)
    requires 0.0 <= a && 0.0 <= b && a + b != 0.0
    ensures 0.0 <= a / (a + b) <= 1.0
  {
    var t := a + b;
    assert 0.0 < t;
    assert a / t * t == a;
  }

  // ---------------------------------------------------------------------------
  // Properties of training

  /** Every record falls in exactly one class. */
  lemma {:induction false} ClassCountsPartition(data: seq<Example>)
    ensures ClassCount(data, true) + ClassCount(data, false) == |data|
  {
    if data != [] {
      ClassCountsPartition(data[..|data| - 1]);
    }
  }

  /** After training on non-empty data, P(valid) is the fraction of valid records,
      both priors lie in [0, 1] and they sum to 1. */
  lemma TrainedPriorsAreFrequencies(data: seq<Example>)
    requires data != []
    ensures TrainedPriors(data)[ValidClass] == ClassCount(data, true) as real / |data| as real
    ensures TrainedPriors(data)[InvalidClass] == ClassCount(data, false) as real / |data| as real
    ensures 0.0 <= TrainedPriors(data)[ValidClass] <= 1.0 && 0.0 <= TrainedPriors(data)[InvalidClass] <= 1.0
    ensures TrainedPriors(data)[ValidClass] + TrainedPriors(data)[InvalidClass] == 1.0
    ensures PriorsWellFormed(TrainedPriors(data))
  {
    ClassCountsPartition(data);
    PriorsFromCounts(ClassCount(data, true), ClassCount(data, false), |data|);
  }

  /** The priors computed from class sizes `c` and `i` out of `n` records. */
  lemma PriorsFromCounts(c: nat, i: nat, n: nat)
    requires c + i == n && 0 < n
    ensures 0.0 <= c as real / n as real <= 1.0 && 0.0 <= i as real / n as real <= 1.0
    ensures 1.0 - c as real / n as real == i as real / n as real
  {
    FractionBounds(c as real, n as real);
    FractionBounds(i as real, n as real);
    Complement(c as real, n as real);
  }

  lemma Complement(c: real, n: real)
    requires 0.0 < n
    ensures 1.0 - c / n == (n - c) / n
  {
    var q := c / n;
    assert q * n == c;
    assert (1.0 - q) * n == n - c;
    assert ((n - c) / n) * n == n - c;
    var z := (1.0 - q) - (n - c) / n;
    assert z * n == 0.0;
  }

  /** c / n lies in [0, 1] when 0 <= c <= n and n > 0. */
  lemma FractionBounds(c: real, n: real)
    requires 0.0 <= c <= n && 0.0 < n
    ensures 0.0 <= c / n <= 1.0
  {
    assert c / n * n == c;
  }

  /** Any key to its value: the choice `MapSum` makes. */
  ghost function Pick<K>(m: map<K, nat>): K
    requires m != map[]
  {
    var k :| k in m; k
  }

  /** The sum of a count dictionary's values. */
  ghost function MapSum<K>(m: map<K, nat>): nat
    decreases m.Keys
  {
    if m == map[] then 0
    else
      var k := Pick(m);
      m[k] + MapSum(m - {k})
  }

  /** The sum does not depend on the key taken out first. */
  lemma {:induction false} MapSumRemove<K>(m: map<K, nat>, k: K)
    requires k in m
    ensures MapSum(m) == m[k] + MapSum(m - {k})
    decreases m.Keys
  {
    var j := Pick(m);
    if j != k {
      MapSumRemove(m - {j}, k);
      MapSumRemove(m - {k}, j);
      assert m - {j} - {k} == m - {k} - {j};
    }
  }

  /** Incrementing one count raises the sum by one. */
  lemma MapSumInc<K(!new)>(m: map<K, nat>, k: K)
    ensures MapSum(Inc(m, k)) == MapSum(m) + 1
  {
    MapSumRemove(Inc(m, k), k);
    assert Inc(m, k) - {k} == m - {k};
    if k in m {
      MapSumRemove(m, k);
    } else {
      assert m - {k} == m;
    }
  }

  /** For each class, the hazard-type counts sum to the class's number of records. */
  lemma {:induction false} HazardCountsTotal(data: seq<Example>, valid: bool)
    ensures MapSum(HazardCounts(data, valid)) == ClassCount(data, valid)
  {
    if data != [] {
      var front := data[..|data| - 1];
      HazardCountsTotal(front, valid);
      if data[|data| - 1].valid == valid {
        MapSumInc(HazardCounts(front, valid), ExampleHazard(data[|data| - 1]));
      }
    }
  }

  /** For each class, the length-bucket counts sum to the class's number of records. */
  lemma {:induction false} BucketCountsTotal(data: seq<Example>, valid: bool)
    ensures MapSum(BucketCounts(data, valid)) == ClassCount(data, valid)
    ensures Get(BucketCounts(data, valid), Short) + Get(BucketCounts(data, valid), Medium)
            + Get(BucketCounts(data, valid), Long) == ClassCount(data, valid)
  {
    if data != [] {
      var front := data[..|data| - 1];
      BucketCountsTotal(front, valid);
      if data[|data| - 1].valid == valid {
        MapSumInc(BucketCounts(front, valid), ExampleBucket(data[|data| - 1]));
      }
    }
  }

  /** The stored class totals are the class sizes, and each class's feature counts add up to its own total. */
  lemma TrainedStatsConsistent(data: seq<Example>)
    ensures StatsOf(TrainedStats(data), ValidClass).validTotal == ClassCount(data, true)
    ensures StatsOf(TrainedStats(data), InvalidClass).invalidTotal == ClassCount(data, false)
    ensures MapSum(StatsOf(TrainedStats(data), ValidClass).hazardType) == ClassCount(data, true)
    ensures MapSum(StatsOf(TrainedStats(data), InvalidClass).hazardType) == ClassCount(data, false)
    ensures MapSum(StatsOf(TrainedStats(data), ValidClass).descBucket) == ClassCount(data, true)
    ensures MapSum(StatsOf(TrainedStats(data), InvalidClass).descBucket) == ClassCount(data, false)
  {
    ClassCountsPartition(data);
    HazardCountsTotal(data, true);
    HazardCountsTotal(data, false);
    BucketCountsTotal(data, true);
    BucketCountsTotal(data, false);
  }

  // ---------------------------------------------------------------------------
  // Properties of inference

  /** An untrained validator with no priors and no counts scores every report exactly 0.5:
      both priors default to 0.5 and every smoothed likelihood is 0.5 / 2. */
  lemma UntrainedScoreIsNeutral(report: Report)
    ensures Score(map[], map[], report) == Neutral
  {
    var l := Likelihood(0, 0);
    assert l == 0.25;
    var post := Neutral * l * l;
    assert post > 0.0;
    assert post / (post + post) == 0.5;
  }

  /** A supplied description length decides the bucket: the description text is then irrelevant. */
  lemma SuppliedLengthWins(prior: map<Label, real>, table: map<Label, ClassStats>, report: Report,
                           otherDescription: Option<string>)
    requires report.descriptionLength.Some?
    ensures ReportLength(report) == report.descriptionLength.value
    ensures Score(prior, table, report) == Score(prior, table, report.(description := otherDescription))
  {
    assert ReportLength(report) == ReportLength(report.(description := otherDescription));
  }

  /** One more record extends every count the way the training loop does. */
  lemma PrefixStep(data: seq<Example>, k: nat, valid: bool)
    requires 0 < k <= |data|
    ensures ClassCount(data[..k], valid) == ClassCount(data[..k - 1], valid) + (if data[k - 1].valid == valid then 1 else 0)
    ensures HazardCounts(data[..k], valid) ==
              if data[k - 1].valid == valid then Inc(HazardCounts(data[..k - 1], valid), ExampleHazard(data[k - 1]))
              else HazardCounts(data[..k - 1], valid)
    ensures BucketCounts(data[..k], valid) ==
              if data[k - 1].valid == valid then Inc(BucketCounts(data[..k - 1], valid), ExampleBucket(data[k - 1]))
              else BucketCounts(data[..k - 1], valid)
  {
    assert data[..k][..k - 1] == data[..k - 1];
  }

  /** The training set used by the validator's tests. */
  function SampleTraining(): seq<Example>
  {
    [Example(Some("flood"), Some(50), true),
     Example(Some("flood"), Some(45), true),
     Example(Some("landslide"), Some(40), true),
     Example(Some("fire"), Some(30), true),
     Example(Some("unknown"), Some(5), false),
     Example(Some("fake"), Some(3), false),
     Example(Some("test"), Some(10), false)]
  }

  /** The counts training derives from the sample training set. */
  lemma SampleCounts()
    ensures |SampleTraining()| == 7 && ClassCount(SampleTraining(), true) == 4
    ensures Get(HazardCounts(SampleTraining(), true), "flood") == 2
    ensures Get(HazardCounts(SampleTraining(), false), "flood") == 0
    ensures Get(HazardCounts(SampleTraining(), true), "unknown") == 0
    ensures Get(HazardCounts(SampleTraining(), false), "unknown") == 1
    ensures Get(BucketCounts(SampleTraining(), true), Medium) == 4
    ensures Get(BucketCounts(SampleTraining(), false), Medium) == 0
    ensures Get(BucketCounts(SampleTraining(), true), Short) == 0
    ensures Get(BucketCounts(SampleTraining(), false), Short) == 3
  {
    SampleValidCounts(SampleTraining());
    SampleInvalidCounts(SampleTraining());
  }

  /** The counts of the five sample facts for the records labelled `valid`. */
  ghost predicate Tally(data: seq<Example>, valid: bool, count: nat, flood: nat, unknown: nat, medium: nat, short: nat)
  {
    ClassCount(data, valid) == count &&
    Get(HazardCounts(data, valid), "flood") == flood && Get(HazardCounts(data, valid), "unknown") == unknown &&
    Get(BucketCounts(data, valid), Medium) == medium && Get(BucketCounts(data, valid), Short) == short
  }

  /** The sample's counts for the valid class over its first two records. */
  lemma SampleValidFirstTwo(d: seq<Example>)
    requires d == SampleTraining()
    ensures Tally(d[..2], true, 2, 2, 0, 2, 0)
  {
    assert d[..0] == [];
    assert Tally(d[..1], true, 1, 1, 0, 1, 0) by { PrefixStep(d, 1, true); }
    PrefixStep(d, 2, true);
  }

  /** The sample's counts for the valid class over its first four records. */
  lemma SampleValidFirstFour(d: seq<Example>)
    requires d == SampleTraining()
    ensures Tally(d[..4], true, 4, 2, 0, 4, 0)
  {
    SampleValidFirstTwo(d);
    assert Tally(d[..3], true, 3, 2, 0, 3, 0) by { PrefixStep(d, 3, true); }
    PrefixStep(d, 4, true);
  }

  /** The sample's counts for the valid class, derived record by record. */
  lemma SampleValidCounts(d: seq<Example>)
    requires d == SampleTraining()
    ensures Tally(d, true, 4, 2, 0, 4, 0)
  {
    SampleValidFirstFour(d);
    assert Tally(d[..5], true, 4, 2, 0, 4, 0) by { PrefixStep(d, 5, true); }
    assert Tally(d[..6], true, 4, 2, 0, 4, 0) by { PrefixStep(d, 6, true); }
    assert Tally(d[..7], true, 4, 2, 0, 4, 0) by { PrefixStep(d, 7, true); }
    assert d[..7] == d;
  }

  /** The sample's counts for the invalid class over its first two records. */
  lemma SampleInvalidFirstTwo(d: seq<Example>)
    requires d == SampleTraining()
    ensures Tally(d[..2], false, 0, 0, 0, 0, 0)
  {
    assert d[..0] == [];
    assert Tally(d[..1], false, 0, 0, 0, 0, 0) by { PrefixStep(d, 1, false); }
    PrefixStep(d, 2, false);
  }

  /** The sample's counts for the invalid class over its first four records. */
  lemma SampleInvalidFirstFour(d: seq<Example>)
    requires d == SampleTraining()
    ensures Tally(d[..4], false, 0, 0, 0, 0, 0)
  {
    SampleInvalidFirstTwo(d);
    assert Tally(d[..3], false, 0, 0, 0, 0, 0) by { PrefixStep(d, 3, false); }
    PrefixStep(d, 4, false);
  }

  /** The sample's counts for the invalid class, derived record by record. */
  lemma SampleInvalidCounts(d: seq<Example>)
    requires d == SampleTraining()
    ensures Tally(d, false, 3, 0, 1, 0, 3)
  {
    SampleInvalidFirstFour(d);
    assert Tally(d[..5], false, 1, 0, 1, 0, 1) by { PrefixStep(d, 5, false); }
    assert Tally(d[..6], false, 2, 0, 1, 0, 2) by { PrefixStep(d, 6, false); }
    assert Tally(d[..7], false, 3, 0, 1, 0, 3) by { PrefixStep(d, 7, false); }
    assert d[..7] == d;
  }

  /** On the sample training set a flood report with a 45-character description is judged
      plausible and an 'unknown' report described as 'bad' implausible. */
  lemma SampleScores()
    ensures Score(TrainedPriors(SampleTraining()), TrainedStats(SampleTraining()),
                  Report(Some("flood"), Some("Heavy flooding on Main St, water level rising"), None)) > Neutral
    ensures Score(TrainedPriors(SampleTraining()), TrainedStats(SampleTraining()),
                  Report(Some("unknown"), Some("bad"), None)) < Neutral
  {
    var prior, table := TrainedPriors(SampleTraining()), TrainedStats(SampleTraining());
    SamplePriorsAndTotals(prior, table);
    assert |"Heavy flooding on Main St, water level rising"| == 45;
    assert |"bad"| == 3;
    SampleFloodScore(prior, table);
    SampleUnknownScore(prior, table);
  }

  /** The priors and class sizes training stores for the sample, with the counts it derives. */
  lemma SamplePriorsAndTotals(prior: map<Label, real>, table: map<Label, ClassStats>)
    requires prior == TrainedPriors(SampleTraining()) && table == TrainedStats(SampleTraining())
    ensures prior[ValidClass] == 4.0 / 7.0 && prior[InvalidClass] == 3.0 / 7.0
    ensures StatsOf(table, ValidClass).validTotal == 4 && StatsOf(table, InvalidClass).invalidTotal == 3
    ensures Get(StatsOf(table, ValidClass).hazardType, "flood") == 2 && Get(StatsOf(table, InvalidClass).hazardType, "flood") == 0
    ensures Get(StatsOf(table, ValidClass).hazardType, "unknown") == 0 && Get(StatsOf(table, InvalidClass).hazardType, "unknown") == 1
    ensures Get(StatsOf(table, ValidClass).descBucket, Medium) == 4 && Get(StatsOf(table, InvalidClass).descBucket, Medium) == 0
    ensures Get(StatsOf(table, ValidClass).descBucket, Short) == 0 && Get(StatsOf(table, InvalidClass).descBucket, Short) == 3
  {
    SampleCounts();
  }

  /** The flood report's posterior share, from the sample's priors and counts. */
  lemma SampleFloodScore(prior: map<Label, real>, table: map<Label, ClassStats>)
    requires prior == TrainedPriors(SampleTraining()) && table == TrainedStats(SampleTraining())
    ensures FeatureScore(prior, table, "flood", Medium) > Neutral
  {
    SamplePriorsAndTotals(prior, table);
    assert FeatureScore(prior, table, "flood", Medium) == (4.0 / 7.0 * (2.5 / 6.0) * (4.5 / 6.0))
                         / (4.0 / 7.0 * (2.5 / 6.0) * (4.5 / 6.0) + 3.0 / 7.0 * (0.5 / 5.0) * (0.5 / 5.0));
  }

  /** The 'unknown' report's posterior share, from the sample's priors and counts. */
  lemma SampleUnknownScore(prior: map<Label, real>, table: map<Label, ClassStats>)
    requires prior == TrainedPriors(SampleTraining()) && table == TrainedStats(SampleTraining())
    ensures FeatureScore(prior, table, "unknown", Short) < Neutral
  {
    SamplePriorsAndTotals(prior, table);
    assert FeatureScore(prior, table, "unknown", Short) == (4.0 / 7.0 * (0.5 / 6.0) * (0.5 / 6.0))
                           / (4.0 / 7.0 * (0.5 / 6.0) * (0.5 / 6.0) + 3.0 / 7.0 * (1.5 / 5.0) * (3.5 / 5.0));
  }

  /** The counting loop of `train`: one pass over the records, incrementing the hazard-type
      and length-bucket counts of each record's class. */
  method CountFeatures(data: seq<Example>)
    returns (validHazard: map<string, nat>, validBucket: map<Bucket, nat>,
             invalidHazard: map<string, nat>, invalidBucket: map<Bucket, nat>)
    ensures validHazard == HazardCounts(data, true) && validBucket == BucketCounts(data, true)
    ensures invalidHazard == HazardCounts(data, false) && invalidBucket == BucketCounts(data, false)
  {
    validHazard, validBucket, invalidHazard, invalidBucket := map[], map[], map[], map[];
    for i := 0 to |data|
      invariant validHazard == HazardCounts(data[..i], true) && validBucket == BucketCounts(data[..i], true)
      invariant invalidHazard == HazardCounts(data[..i], false) && invalidBucket == BucketCounts(data[..i], false)
    {
      PrefixStep(data, i + 1, true);
      PrefixStep(data, i + 1, false);
      var r := data[i];
      var hazard := r.hazardType.GetOr(UnknownHazard);
      var bucket := BucketDescLen(r.descriptionLength.GetOr(0));
      if r.valid {
        validHazard := Inc(validHazard, hazard);
        validBucket := Inc(validBucket, bucket);
      } else {
        invalidHazard := Inc(invalidHazard, hazard);
        invalidBucket := Inc(invalidBucket, bucket);
      }
    }
    assert data[..|data|] == data;
  }

  // ---------------------------------------------------------------------------
  // The validator object

  /** `NaiveBayesValidator`: the priors, the likelihood table and the trained flag are
      instance state that `train` overwrites and `validate_report` reads. */
  class NaiveBayesValidator {
    var classPrior: map<Label, real>
    var featureLikelihood: map<Label, ClassStats>
    var trained: bool
    /** What `_load_mock_training` reads from the default training file; [] when the file is missing. */
    const mockTraining: seq<Example>

    /** The priors are either unset or a distribution over the two classes, and a trained validator has them set. */
    ghost predicate Valid()
      reads this
    {
      PriorsWellFormed(classPrior) && (trained ==> classPrior != map[])
    }

    constructor (mockTraining: seq<Example>)
      ensures Valid()
      ensures classPrior == map[] && featureLikelihood == map[] && !trained
      ensures this.mockTraining == mockTraining
    {
      classPrior := map[];
      featureLikelihood := map[];
      trained := false;
      this.mockTraining := mockTraining;
    }

    /** `train`: with no data it reads the default training file. On empty data the validator is
        marked untrained and keeps whatever priors and counts it had; otherwise priors and
        per-class counts are recomputed from the data. */
    method Train(trainingData: Option<seq<Example>>)
      requires Valid()
      modifies this
      ensures Valid()
      ensures var data := trainingData.GetOr(mockTraining);
        if data == [] then
          !trained && classPrior == old(classPrior) && featureLikelihood == old(featureLikelihood)
        else
          trained && classPrior == TrainedPriors(data) && featureLikelihood == TrainedStats(data)
    {
      var data := if trainingData.None? then mockTraining else trainingData.value;
      assert data == trainingData.GetOr(mockTraining);
      if data == [] {
        trained := false;
        return;
      }
      var validCount := ClassCount(data, true);
      var total := |data|;
      var pValid := if total != 0 then validCount as real / total as real else Neutral;
      // The source sets both keys of the prior dictionary in place; as it never holds
      // any other key, that is the same as replacing it.
      classPrior := map[ValidClass := pValid, InvalidClass := 1.0 - pValid];

      var validHazard, validBucket, invalidHazard, invalidBucket := CountFeatures(data);
      featureLikelihood := map[
        ValidClass := ClassStats(validHazard, validBucket, validCount, total - validCount),
        InvalidClass := ClassStats(invalidHazard, invalidBucket, validCount, total - validCount)];
      trained := true;
      assert featureLikelihood == TrainedStats(data);
      TrainedPriorsAreFrequencies(data);
      assert classPrior == TrainedPriors(data);
    }

    /** `validate_report`: an untrained validator first trains itself from the default
        training file, then the report is scored. The score always lies in [0, 1]. */
    method ValidateReport(report: Report) returns (score: real)
      requires Valid()
      modifies this
      ensures Valid()
      ensures old(trained) ==> trained && classPrior == old(classPrior) && featureLikelihood == old(featureLikelihood)
      ensures !old(trained) && mockTraining == [] ==>
                !trained && classPrior == old(classPrior) && featureLikelihood == old(featureLikelihood)
      ensures !old(trained) && mockTraining != [] ==>
                trained && classPrior == TrainedPriors(mockTraining) && featureLikelihood == TrainedStats(mockTraining)
      ensures score == Score(classPrior, featureLikelihood, report)
      ensures 0.0 <= score <= 1.0
      ensures old(classPrior) == map[] && old(featureLikelihood) == map[] && mockTraining == [] ==> score == Neutral
    {
      if !trained {
        Train(None);
      }
      var hazard := report.hazardType.GetOr(UnknownHazard);
      var length := if report.descriptionLength.Some? then report.descriptionLength.value
                    else |report.description.GetOr("")|;
      var bucket := BucketDescLen(length);
      score := FeatureScore(classPrior, featureLikelihood, hazard, bucket);
      if old(classPrior) == map[] && old(featureLikelihood) == map[] && mockTraining == [] {
        UntrainedScoreIsNeutral(report);
      }
    }
  }
}

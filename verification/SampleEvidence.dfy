/** A smallest comparison that succeeds, for statements that need a real input. */
module SampleEvidence {
  import opened Text
  import opened Decimals
  import opened Uuids
  import opened Timestamps
  import opened Evidence
  import opened Snapshots
  import opened Comparisons
  import opened ComparisonLaws

  const PLAIN: string := "m"

  /** Lower-casing keeps a plain letter. */
  predicate PlainPlatform(p: Platform) { p.lower('m') == 'm' }

  lemma PlainText(p: Platform)
    requires PlainPlatform(p)
    ensures NormalizedRequired(PLAIN, 128) && NormalizedRequired(PLAIN, 256) && NormalizedRequired(PLAIN, 512)
    ensures NormalizedLower(p, PLAIN, 128)
  {
    assert TrimLeft(PLAIN) == PLAIN;
    assert TrimRight(PLAIN) == PLAIN;
    assert ByteLength(PLAIN) == 1 + ByteLength(PLAIN[1..]) == 1;
  }

  ghost function SomeChecksum(): (s: string)
    ensures |s| == 64 && forall i :: 0 <= i < 64 ==> s[i] == '0'
  {
    seq(64, i => '0')
  }

  lemma ChecksumValid()
    ensures ValidChecksum(SomeChecksum())
  {
    assert HexValue('0').Some?;
  }

  ghost function SampleHeader(source: string, account: Uuid, at: int): Header {
    Header(source, account, Time(at, 0), Time(at, 0), "USD", PLAIN, PLAIN, PLAIN, 1000, PLAIN, 1, PLAIN, SomeChecksum(),
      false, true)
  }

  ghost function ZeroMetrics(): (r: seq<Metric>)
    ensures |r| == |REQUIRED_METRICS|
    ensures forall i :: 0 <= i < |r| ==> r[i] == Metric(REQUIRED_METRICS[i], ZERO, "exact_decimal")
  {
    seq(|REQUIRED_METRICS|,
      i requires 0 <= i < |REQUIRED_METRICS| => Metric(REQUIRED_METRICS[i], ZERO, "exact_decimal"))
  }

  ghost function SampleInput(source: string, account: Uuid, at: int): SnapshotInput {
    SnapshotInput(SampleHeader(source, account, at), ZeroMetrics(), [], [])
  }

  lemma ZeroFits()
    ensures WithinContract(ZERO)
  {
    FitsBound(ZERO, 26, 18);
  }

  /** The required metrics are told apart by their length or first letter. */
  lemma RequiredDistinct(i: nat, j: nat)
    requires i < j < |REQUIRED_METRICS|
    ensures REQUIRED_METRICS[i] != REQUIRED_METRICS[j]
  {
    assert |REQUIRED_METRICS[i]| != |REQUIRED_METRICS[j]| || REQUIRED_METRICS[i][0] != REQUIRED_METRICS[j][0];
  }

  lemma ZeroMetricsDistinct()
    ensures DistinctKeys(ZeroMetrics(), MetricKey) && DistinctKeys(ZeroMetrics(), KindOf)
  {
    hide ZeroMetrics, MetricFactKey;
    var ms := ZeroMetrics();
    forall i, j | 0 <= i < j < |ms| ensures KindOf(ms[i]) != KindOf(ms[j]) { RequiredDistinct(i, j); }
    DistinctMetrics(ms);
  }

  lemma SampleAdmissible(p: Platform, source: string, account: Uuid, at: int)
    requires PlainPlatform(p) && (source == LEGACY || source == LEDGER) && account != NIL && at != 0 && at % 1000 == 0
    ensures Admissible(p, SampleInput(source, account, at))
  {
    hide NormalizedRequired, NormalizedLower, ValidChecksum, WithinContract, ZeroMetrics, DistinctKeys;
    PlainText(p);
    ChecksumValid();
    ZeroFits();
    ZeroMetricsDistinct();
    NothingRepeats();
    assert forall m :: m in ZeroMetrics() ==> ValidMetric(m);
  }

  lemma NothingRepeats()
    ensures DistinctKeys([], PositionKey) && DistinctKeys([], MissingKey)
  {
  }

  lemma ZeroKeys()
    ensures KeySet(ZeroMetrics(), MetricKey) == RequiredKeys()
  {
    hide ZeroMetrics, MetricFactKey;
    var ms := ZeroMetrics();
    forall i | 0 <= i < |ms| ensures MetricKey(ms[i]) in RequiredKeys() {
      assert MetricKey(ms[i]) == MetricFactKey(REQUIRED_METRICS[i]);
    }
    forall i | 0 <= i < |REQUIRED_METRICS| ensures MetricFactKey(REQUIRED_METRICS[i]) in KeySet(ms, MetricKey) {
      assert MetricKey(ms[i]) == MetricFactKey(REQUIRED_METRICS[i]);
    }
  }

  ghost function SampleSnapshot(p: Platform, source: string, account: Uuid, at: int): Snapshot {
    Build(p, SampleInput(source, account, at))
  }

  lemma SampleShape(p: Platform, source: string, account: Uuid, at: int)
    ensures var s := SampleSnapshot(p, source, account, at);
      && s.header == SampleHeader(source, account, at) && FullyCovered(s) && s.positions == []
      && forall m :: m in s.metrics ==> m.value == ZERO
  {
    hide PayloadFor;
    var s := SampleSnapshot(p, source, account, at);
    SortMultiset(ZeroMetrics(), KindOf);
    forall m | m in s.metrics ensures m.value == ZERO {
      assert m in multiset(s.metrics);
      assert m in multiset(ZeroMetrics());
    }
    KeySetPermutes(s.metrics, ZeroMetrics(), MetricKey);
    ZeroKeys();
  }

  /** Two captures of an account at midnight, all metrics zero and no positions, compared at once. */
  ghost function SampleComparison(p: Platform, account: Uuid, day: int): ComparisonInput {
    ComparisonInput(SampleSnapshot(p, LEGACY, account, day * DAY), SampleSnapshot(p, LEDGER, account, day * DAY), PLAIN,
      Time(day * DAY, 0), [])
  }

  lemma SampleHeaders(p: Platform, account: Uuid, day: int)
    ensures var input := SampleComparison(p, account, day);
      && input.legacy.header == SampleHeader(LEGACY, account, day * DAY)
      && input.ledger.header == SampleHeader(LEDGER, account, day * DAY)
  {
    hide SampleSnapshot;
    SampleShape(p, LEGACY, account, day * DAY);
    SampleShape(p, LEDGER, account, day * DAY);
  }

  lemma DayInstant(day: int)
    requires day != 0
    ensures day * DAY != 0 && (day * DAY) % 1000 == 0
  {
  }

  lemma SampleComparable(p: Platform, account: Uuid, day: int)
    requires PlainPlatform(p) && account != NIL && day != 0
    ensures var input := SampleComparison(p, account, day);
      && Comparable(p, input) && FullyCovered(input.legacy) && FullyCovered(input.ledger)
      && SameMetrics(input.legacy, input.ledger) && SameQuantities(input.legacy, input.ledger)
  {
    hide Admissible, Validates, Build, FullyCovered, NormalizedRequired;
    var at := day * DAY;
    DayInstant(day);
    SampleAdmissible(p, LEGACY, account, at);
    SampleAdmissible(p, LEDGER, account, at);
    SampleShape(p, LEGACY, account, at);
    SampleShape(p, LEDGER, account, at);
    PlainText(p);
    BuildValidates(p, SampleInput(LEGACY, account, at));
    BuildValidates(p, SampleInput(LEDGER, account, at));
    NoExplanations(p, SampleComparison(p, account, day));
  }

  lemma NoExplanations(p: Platform, input: ComparisonInput)
    requires input.explanations == []
    ensures ValidExplanations(p, input.explanations, input.generator, LatestObservation(input), input.generatedAt)
      && ExplanationsUsable(input)
  {
  }
}

/** The shipped sources cannot open the gate (source.go, gate.go). */
module FailClosed {
  import opened Text
  import opened Decimals
  import opened Timestamps
  import opened Evidence
  import opened Snapshots
  import opened Comparisons
  import opened Comparing
  import opened ComparisonLaws
  import opened RunValidation
  import opened CutoverGate
  import opened GateLaws
  import opened Sources

  /** Some legacy capture produced this snapshot. */
  ghost predicate FromLegacySource(p: Platform, s: Snapshot) {
    exists t: LegacyTools, synthetic: bool, request: SourceRequest, lease: Lease, capture: LegacyCapture ::
      LegacyReadable(request, capture) && CapturedLegacy(p, s, t, synthetic, request, lease, capture)
  }

  ghost predicate CapturedLegacy(p: Platform, s: Snapshot, t: LegacyTools, synthetic: bool, request: SourceRequest,
      lease: Lease, capture: LegacyCapture)
    requires LegacyReadable(request, capture)
  {
    s == Build(p, LegacyInput(t, synthetic, request, lease, capture))
  }

  /** Some ledger capture produced this snapshot. */
  ghost predicate FromLedgerSource(p: Platform, s: Snapshot) {
    exists synthetic: bool, lease: Lease, projection: Projection, checkpoint: Checkpoint ::
      s == Build(p, LedgerInput(synthetic, lease, projection, checkpoint))
  }

  ghost predicate Lacks(s: Snapshot, kind: string) { forall m :: m in s.metrics ==> m.kind != kind }

  lemma SortedLacks(p: Platform, input: SnapshotInput, kind: string)
    requires forall m :: m in input.metrics ==> m.kind != kind
    ensures Lacks(Build(p, input), kind)
  {
    hide PayloadFor, SnapshotID, SortBy;
    SortMultiset(input.metrics, KindOf);
    forall m | m in SortBy(input.metrics, KindOf) ensures m in input.metrics {
      assert m in multiset(SortBy(input.metrics, KindOf));
    }
  }

  lemma LegacyMetricKinds(cash: Decimal, buyingPower: Decimal, equity: Decimal)
    ensures forall m :: m in LegacyMetrics(cash, buyingPower, equity) ==>
      m.kind != "fees" && m.kind != "realized_pnl" && m.kind != "unrealized_pnl"
  {
    hide Sub;
  }

  lemma LedgerMetricKinds(x: ProjectionTotals)
    ensures forall m :: m in LedgerMetrics(x) ==> m.kind != "buying_power"
  {
  }

  lemma LegacyLacks(p: Platform, s: Snapshot)
    requires FromLegacySource(p, s)
    ensures Lacks(s, "fees") && Lacks(s, "realized_pnl") && Lacks(s, "unrealized_pnl")
  {
    hide LegacyReadable, PositionsOf, LegacyHeader, LegacyMetrics, Unresolved, Totals, Build, ExactFloat, Lacks;
    var t, synthetic, request, lease, capture :| LegacyReadable(request, capture)
      && CapturedLegacy(p, s, t, synthetic, request, lease, capture);
    var input := LegacyInput(t, synthetic, request, lease, capture);
    LegacyBalances(request, capture);
    LegacyMetricKinds(ExactFloat(capture.cash).value, ExactFloat(capture.buyingPower).value,
      ExactFloat(capture.equity).value);
    SortedLacks(p, input, "fees");
    SortedLacks(p, input, "realized_pnl");
    SortedLacks(p, input, "unrealized_pnl");
  }

  lemma LegacyBalances(request: SourceRequest, capture: LegacyCapture)
    requires LegacyReadable(request, capture)
    ensures ExactFloat(capture.cash).Some? && ExactFloat(capture.buyingPower).Some? && ExactFloat(capture.equity).Some?
  {
    hide ExactFloat;
  }

  lemma LedgerLacks(p: Platform, s: Snapshot)
    requires FromLedgerSource(p, s)
    ensures Lacks(s, "buying_power")
  {
    hide HeldPositions, LedgerMetrics, Build, Lacks;
    var synthetic, lease, projection, checkpoint :| s
      == Build(p, LedgerInput(synthetic, lease, projection, checkpoint));
    LedgerMetricKinds(projection.totals);
    SortedLacks(p, LedgerInput(synthetic, lease, projection, checkpoint), "buying_power");
  }

  lemma LackedMetricHasNoValue(s: Snapshot, other: Snapshot, kind: string)
    requires Lacks(s, kind)
    ensures FactValue(s, other, MetricFactKey(kind)) == None
  {
    hide FactValue;
    MetricFact(s, other, kind);
    IndexKeys(s.metrics, MetricKey);
    if MetricFactKey(kind) in IndexBy(s.metrics, MetricKey) {
      var m := IndexBy(s.metrics, MetricKey)[MetricFactKey(kind)];
      MetricFactKeyInjective(m.kind, kind);
    }
  }

  /** Keys with one status are at most as many as the results with it. */
  lemma {:induction false} KeysAtMostCount(rs: seq<Result>, status: string)
    ensures |KeysWithStatus(rs, status)| <= CountStatus(rs, status)
  {
    if rs == [] {
      assert KeysWithStatus(rs, status) == {};
    } else {
      var n := |rs| - 1;
      KeysAtMostCount(rs[..n], status);
      var prior := KeysWithStatus(rs[..n], status);
      forall k | k in KeysWithStatus(rs, status) ensures k in prior || (rs[n].status == status && k == rs[n].factKey) {
        var i :| 0 <= i < |rs| && rs[i].status == status && rs[i].factKey == k;
        if i < n { assert rs[..n][i] == rs[i]; }
      }
      AtLeast(KeysWithStatus(rs, status), if rs[n].status == status then prior + {rs[n].factKey} else prior);
    }
  }

  ghost function UnavailableFacts(): set<string> {
    {MetricFactKey("fees"), MetricFactKey("realized_pnl"), MetricFactKey("unrealized_pnl"),
      MetricFactKey("buying_power")}
  }

  lemma FourUnavailableFacts()
    ensures |UnavailableFacts()| == 4 && UnavailableFacts() <= RequiredKeys()
  {
    var a, b, c, d := MetricFactKey("fees"), MetricFactKey("realized_pnl"), MetricFactKey("unrealized_pnl"),
      MetricFactKey("buying_power");
    assert a[7] == 'f' && b[7] == 'r' && c[7] == 'u' && d[7] == 'b';
    assert REQUIRED_METRICS[3] == "fees" && REQUIRED_METRICS[5] == "realized_pnl"
      && REQUIRED_METRICS[6] == "unrealized_pnl" && REQUIRED_METRICS[0] == "buying_power";
    assert |{a, b, c, d}| == 4;
  }

  /** A fact that a side does not give is not comparable. */
  lemma UnavailableNotComparable(input: ComparisonInput, rs: seq<Result>, key: string)
    requires KeySet(rs, ResultKey) == FactKeys(input.legacy, input.ledger)
      && key in FactKeys(input.legacy, input.ledger)
    requires forall i :: 0 <= i < |rs| ==> Means(input.legacy, input.ledger, input.explanations, rs[i])
    requires FactValue(input.legacy, input.ledger, key) == None || FactValue(input.ledger, input.legacy, key) == None
    ensures key in KeysWithStatus(rs, NOT_COMPARABLE)
  {
    hide FactKeys, FactValue;
    var i :| 0 <= i < |rs| && ResultKey(rs[i]) == key;
    assert Means(input.legacy, input.ledger, input.explanations, rs[i]);
  }

  /** Whatever the data, a comparison of the two captures leaves at least four facts not comparable. */
  lemma AtLeastFourNotComparable(p: Platform, input: ComparisonInput)
    requires Comparable(p, input) && FromLegacySource(p, input.legacy) && FromLedgerSource(p, input.ledger)
    ensures BuildRun(p, input).body.notComparableCount >= 4
    ensures UnavailableFacts() <= KeysWithStatus(BuildRun(p, input).body.results, NOT_COMPARABLE)
  {
    hide *;
    LegacyLacks(p, input.legacy);
    LedgerLacks(p, input.ledger);
    EachFactOnce(p, input);
    CountsFromResults(p, input);
    var rs := BuildRun(p, input).body.results;
    UnavailableAll(input, rs);
    KeysAtMostCount(rs, NOT_COMPARABLE);
    FourUnavailableFacts();
    AtLeast(UnavailableFacts(), KeysWithStatus(rs, NOT_COMPARABLE));
  }

  lemma AtLeast(a: set<string>, b: set<string>)
    requires a <= b
    ensures |a| <= |b|
  {
    assert b == a + (b - a);
  }

  lemma UnavailableAll(input: ComparisonInput, rs: seq<Result>)
    requires Lacks(input.legacy, "fees") && Lacks(input.legacy, "realized_pnl")
      && Lacks(input.legacy, "unrealized_pnl") && Lacks(input.ledger, "buying_power")
    requires KeySet(rs, ResultKey) == FactKeys(input.legacy, input.ledger)
    requires forall i :: 0 <= i < |rs| ==> Means(input.legacy, input.ledger, input.explanations, rs[i])
    ensures UnavailableFacts() <= KeysWithStatus(rs, NOT_COMPARABLE)
  {
    hide FactKeys, FactValue, Means, KeysWithStatus, Lacks, MetricFactKey;
    FourUnavailableFacts();
    RequiredAreFacts(input.legacy, input.ledger);
    LackedMetricHasNoValue(input.legacy, input.ledger, "fees");
    LackedMetricHasNoValue(input.legacy, input.ledger, "realized_pnl");
    LackedMetricHasNoValue(input.legacy, input.ledger, "unrealized_pnl");
    LackedMetricHasNoValue(input.ledger, input.legacy, "buying_power");
    UnavailableNotComparable(input, rs, MetricFactKey("fees"));
    UnavailableNotComparable(input, rs, MetricFactKey("realized_pnl"));
    UnavailableNotComparable(input, rs, MetricFactKey("unrealized_pnl"));
    UnavailableNotComparable(input, rs, MetricFactKey("buying_power"));
  }

  /** A run over snapshots that the two shipped sources captured. */
  ghost predicate OverShippedSources(p: Platform, run: Run) {
    run.body.legacy.Some? && run.body.ledger.Some? && FromLegacySource(p, run.body.legacy.value)
      && FromLedgerSource(p, run.body.ledger.value)
  }

  lemma NeverQualifies(p: Platform, run: Run, verify: Run -> bool)
    requires OverShippedSources(p, run)
    ensures !Qualifies(p, run, verify)
  {
    hide RunValidates, FromLegacySource, FromLedgerSource;
    if RunValidates(p, run) {
      ValidatesInput(p, run);
      ValidResults(p, run);
      hide Comparable, BuildRun, Means, FactKeys, CountStatus;
      AtLeastFourNotComparable(p, InputOfRun(run.body));
      CountsFromResults(p, InputOfRun(run.body));
    }
  }

  /** No set of such runs makes the gate ready, for any window, clock, verifier or sort. */
  lemma GateStaysClosed(p: Platform, q: Question, sort: seq<Run> -> seq<Run>)
    requires IsSort(sort)
    requires forall r :: Some(r) in q.runs ==> OverShippedSources(p, r)
    ensures !Ready(p, q, sort)
  {
    hide IsSort, Ready, Qualifies, OverShippedSources, UtcDay, Candidates;
    if Ready(p, q, sort) {
      ReadyAsksForADay(p, q, sort);
      ReadyEvidence(p, q, sort, 0);
      NeverQualifies(p, ChosenOn(q, sort, WindowDay(q, 0)), q.verifier.value);
    }
  }

  lemma ReadyAsksForADay(p: Platform, q: Question, sort: seq<Run> -> seq<Run>)
    requires IsSort(sort) && Ready(p, q, sort)
    ensures q.days > 0 && q.verifier.Some?
  {
    hide IsSort, DayReady, Chosen, UtcDay, Candidates;
  }
}

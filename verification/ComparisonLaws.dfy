/** What a comparison run means, and that validating one pins it down (comparison.go). */
module ComparisonLaws {
  import opened Text
  import opened Decimals
  import opened Uuids
  import opened Timestamps
  import opened Evidence
  import opened Snapshots
  import opened Comparisons
  import opened Comparing

  // ---------------------------------------------------------------- counting

  ghost function WithStatus(rs: seq<Result>, status: string): set<int> {
    set i | 0 <= i < |rs| && rs[i].status == status
  }

  ghost function KeysWithStatus(rs: seq<Result>, status: string): set<string> {
    set i | 0 <= i < |rs| && rs[i].status == status :: rs[i].factKey
  }

  /** A count is the number of positions holding that status. */
  lemma {:induction false} CountIsCardinality(rs: seq<Result>, status: string)
    ensures CountStatus(rs, status) == |WithStatus(rs, status)|
  {
    var hits := WithStatus(rs, status);
    if rs == [] {
      assert hits == {};
    } else {
      var n := |rs| - 1;
      CountIsCardinality(rs[..n], status);
      var prior := WithStatus(rs[..n], status);
      assert hits == if rs[n].status == status then prior + {n} else prior;
    }
  }

  lemma {:induction false} CountPartition(rs: seq<Result>)
    requires forall i :: 0 <= i < |rs| ==> rs[i].status in [EQUAL, EXPLAINED, UNEXPLAINED, NOT_COMPARABLE]
    ensures CountStatus(rs, EQUAL) + CountStatus(rs, EXPLAINED) + CountStatus(rs, UNEXPLAINED)
      + CountStatus(rs, NOT_COMPARABLE) == |rs|
  {
    if rs != [] { CountPartition(rs[..|rs| - 1]); }
  }

  lemma {:induction false} CountZero(rs: seq<Result>, status: string)
    ensures CountStatus(rs, status) == 0 <==> forall i :: 0 <= i < |rs| ==> rs[i].status != status
  {
    if rs != [] {
      var n := |rs| - 1;
      CountZero(rs[..n], status);
      if CountStatus(rs, status) == 0 {
        forall i | 0 <= i < |rs| ensures rs[i].status != status { if i < n { assert rs[..n][i] == rs[i]; } }
      }
    }
  }

  // ---------------------------------------------------------------- meaning of a result

  /** What one result says about its fact. */
  ghost predicate Means(legacy: Snapshot, ledger: Snapshot, es: seq<Explanation>, r: Result) {
    var a, b := FactValue(legacy, ledger, r.factKey), FactValue(ledger, legacy, r.factKey);
    && r.legacyValue == a && r.ledgerValue == b
    && r.status in [EQUAL, EXPLAINED, UNEXPLAINED, NOT_COMPARABLE]
    && (r.status == NOT_COMPARABLE <==> a.None? || b.None?)
    && (r.status == EQUAL <==> a.Some? && b.Some? && a == b)
    && (r.status == EXPLAINED <==> r.factKey in KeySet(es, ExplanationKey))
    && (r.status == EXPLAINED <==> r.explanation.Some?)
    && (r.explanation.Some? ==> r.explanation.value in es && r.explanation.value.factKey == r.factKey)
    && (r.delta.Some? <==> a.Some? && b.Some?)
    && (r.delta.Some? ==> r.delta.value == Sub(b.value, a.value))
  }

  lemma OutcomeMeans(legacy: Snapshot, ledger: Snapshot, es: seq<Explanation>, key: string)
    requires forall e :: e in es ==> Differs(legacy, ledger, e.factKey)
    ensures Outcome(legacy, ledger, IndexBy(es, ExplanationKey), key).Some?
    ensures Outcome(legacy, ledger, IndexBy(es, ExplanationKey), key).value.factKey == key
    ensures Means(legacy, ledger, es, Outcome(legacy, ledger, IndexBy(es, ExplanationKey), key).value)
  {
    var index := IndexBy(es, ExplanationKey);
    IndexKeys(es, ExplanationKey);
    ExplanationsPermitOutcomes(legacy, ledger, es);
    var a, b := FactValue(legacy, ledger, key), FactValue(ledger, legacy, key);
    if a.Some? && b.Some? { SubZero(b.value, a.value); }
    hide FactValue, Sub, IndexBy;
    if key in index { assert Differs(legacy, ledger, index[key].factKey); }
  }

  /** Compare yields each fact exactly once, in key order, with the status its two values call for. */
  lemma EachFactOnce(p: Platform, input: ComparisonInput)
    requires Comparable(p, input)
    ensures var legacy, ledger, rs := input.legacy, input.ledger, BuildRun(p, input).body.results;
      && KeySet(rs, ResultKey) == FactKeys(legacy, ledger)
      && StrictlySorted(rs, ResultKey)
      && forall i :: 0 <= i < |rs| ==> Means(legacy, ledger, input.explanations, rs[i])
  {
    hide *;
    ResultsInKeyOrder(p, input);
    KeysInOrder(BuildRun(p, input).body.results, FactKeys(input.legacy, input.ledger));
  }

  lemma KeysInOrder(rs: seq<Result>, facts: set<string>)
    requires |rs| == |Ascending(facts)| && forall i :: 0 <= i < |rs| ==> rs[i].factKey == Ascending(facts)[i]
    ensures KeySet(rs, ResultKey) == facts && StrictlySorted(rs, ResultKey)
  {
    var keys := Ascending(facts);
    hide Ascending;
    forall i, j | 0 <= i < j < |rs| ensures Before(ResultKey(rs[i]), ResultKey(rs[j])) {
      assert Before(Identity(keys[i]), Identity(keys[j]));
    }
    forall k ensures k in KeySet(rs, ResultKey) <==> k in facts {
      if k in KeySet(rs, ResultKey) {
        var i :| 0 <= i < |rs| && ResultKey(rs[i]) == k;
        assert keys[i] in keys;
      }
      if k in facts {
        assert k in keys;
        var i :| 0 <= i < |keys| && keys[i] == k;
        assert ResultKey(rs[i]) == k;
      }
    }
  }

  lemma ResultsInKeyOrder(p: Platform, input: ComparisonInput)
    requires Comparable(p, input)
    ensures var legacy, ledger, rs := input.legacy, input.ledger, BuildRun(p, input).body.results;
      var keys := Ascending(FactKeys(legacy, ledger));
      && |rs| == |keys|
      && forall i :: 0 <= i < |rs| ==> rs[i].factKey == keys[i] && Means(legacy, ledger, input.explanations, rs[i])
  {
    hide *;
    ExplanationsTargetFacts(p, input);
    RunResults(p, input);
    var rs, keys := BuildRun(p, input).body.results, Ascending(FactKeys(input.legacy, input.ledger));
    forall i | 0 <= i < |rs|
      ensures rs[i].factKey == keys[i] && Means(input.legacy, input.ledger, input.explanations, rs[i]) {
      ResultForMeans(p, input, keys[i]);
    }
  }

  lemma RunResults(p: Platform, input: ComparisonInput)
    ensures BuildRun(p, input).body.results == ResultsFor(p, input)
  {
    hide ResultsFor, CanonicalRunPayload, RunID, CountStatus;
  }

  lemma ResultForMeans(p: Platform, input: ComparisonInput, key: string)
    requires forall e :: e in input.explanations ==> Differs(input.legacy, input.ledger, e.factKey)
    ensures ResultFor(p, input, key).factKey == key
      && Means(input.legacy, input.ledger, input.explanations, ResultFor(p, input, key))
  {
    hide Means, Outcome, IndexBy, Differs, Identified;
    OutcomeMeans(input.legacy, input.ledger, input.explanations, key);
    IdentifiedMeans(p, input.legacy, input.ledger, input.explanations,
      Outcome(input.legacy, input.ledger, IndexBy(input.explanations, ExplanationKey), key).value);
  }

  lemma IdentifiedMeans(p: Platform, legacy: Snapshot, ledger: Snapshot, es: seq<Explanation>, r: Result)
    requires Means(legacy, ledger, es, r)
    ensures Means(legacy, ledger, es, Identified(p, legacy.id, ledger.id, r))
      && Identified(p, legacy.id, ledger.id, r).factKey == r.factKey
  {
    hide FactValue, Sub;
  }

  /** The four counts partition the results, and the explained facts are exactly the explained keys. */
  lemma CountsPartition(p: Platform, input: ComparisonInput)
    requires Comparable(p, input)
    ensures var b := BuildRun(p, input).body;
      && b.equalCount + b.explainedCount + b.unexplainedCount + b.notComparableCount == |b.results|
      && b.equalCount == |WithStatus(b.results, EQUAL)|
      && b.explainedCount == |WithStatus(b.results, EXPLAINED)|
      && b.unexplainedCount == |WithStatus(b.results, UNEXPLAINED)|
      && b.notComparableCount == |WithStatus(b.results, NOT_COMPARABLE)|
      && KeysWithStatus(b.results, EXPLAINED) == KeySet(input.explanations, ExplanationKey)
  {
    hide Comparable, BuildRun, FactKeys, FactValue, WithStatus, KeysWithStatus, CountStatus;
    ExplanationsTargetFacts(p, input);
    CountsFromResults(p, input);
    EachFactOnce(p, input);
    PartitionOf(BuildRun(p, input).body.results, input.explanations);
  }

  lemma PartitionOf(rs: seq<Result>, es: seq<Explanation>)
    requires forall i :: 0 <= i < |rs| ==> rs[i].status in [EQUAL, EXPLAINED, UNEXPLAINED, NOT_COMPARABLE]
    requires forall i :: 0 <= i < |rs| ==> (rs[i].status == EXPLAINED <==> rs[i].factKey in KeySet(es, ExplanationKey))
    requires forall e :: e in es ==> e.factKey in KeySet(rs, ResultKey)
    ensures CountStatus(rs, EQUAL) + CountStatus(rs, EXPLAINED) + CountStatus(rs, UNEXPLAINED)
      + CountStatus(rs, NOT_COMPARABLE) == |rs|
    ensures CountStatus(rs, EQUAL) == |WithStatus(rs, EQUAL)|
    ensures CountStatus(rs, EXPLAINED) == |WithStatus(rs, EXPLAINED)|
    ensures CountStatus(rs, UNEXPLAINED) == |WithStatus(rs, UNEXPLAINED)|
    ensures CountStatus(rs, NOT_COMPARABLE) == |WithStatus(rs, NOT_COMPARABLE)|
    ensures KeysWithStatus(rs, EXPLAINED) == KeySet(es, ExplanationKey)
  {
    hide CountStatus;
    CountPartition(rs);
    CountIsCardinality(rs, EQUAL);
    CountIsCardinality(rs, EXPLAINED);
    CountIsCardinality(rs, UNEXPLAINED);
    CountIsCardinality(rs, NOT_COMPARABLE);
    ExplainedKeys(rs, es);
  }

  lemma ExplanationsTargetFacts(p: Platform, input: ComparisonInput)
    requires Comparable(p, input)
    ensures forall e :: e in input.explanations ==>
      e.factKey in FactKeys(input.legacy, input.ledger) && Differs(input.legacy, input.ledger, e.factKey)
  {
  }

  lemma CountsFromResults(p: Platform, input: ComparisonInput)
    ensures var b := BuildRun(p, input).body;
      && b.equalCount == CountStatus(b.results, EQUAL) && b.explainedCount == CountStatus(b.results, EXPLAINED)
      && b.unexplainedCount == CountStatus(b.results, UNEXPLAINED)
        && b.notComparableCount == CountStatus(b.results, NOT_COMPARABLE)
  {
    hide ResultsFor, CanonicalRunPayload, RunID, CountStatus;
  }

  lemma ExplainedKeys(rs: seq<Result>, es: seq<Explanation>)
    requires forall i :: 0 <= i < |rs| ==> (rs[i].status == EXPLAINED <==> rs[i].factKey in KeySet(es, ExplanationKey))
    requires forall e :: e in es ==> e.factKey in KeySet(rs, ResultKey)
    ensures KeysWithStatus(rs, EXPLAINED) == KeySet(es, ExplanationKey)
  {
    forall k | k in KeySet(es, ExplanationKey)
      ensures exists i :: 0 <= i < |rs| && rs[i].status == EXPLAINED && rs[i].factKey == k {
      var j :| 0 <= j < |es| && es[j].factKey == k;
      assert es[j] in es;
      var i :| 0 <= i < |rs| && ResultKey(rs[i]) == k;
    }
  }

  /** Every explanation in a run was reviewed by someone other than the generator, between the last observation and
      generation. */
  lemma ExplanationsReviewed(p: Platform, input: ComparisonInput, i: nat)
    requires Comparable(p, input) && i < |BuildRun(p, input).body.results|
    requires BuildRun(p, input).body.results[i].status == EXPLAINED
    ensures var e := BuildRun(p, input).body.results[i].explanation;
      && e.Some? && e.value.factKey == BuildRun(p, input).body.results[i].factKey
      && e.value.generator == input.generator && e.value.reviewer != input.generator
      && input.legacy.header.observedAt.nanos <= e.value.reviewedAt.nanos
      && input.ledger.header.observedAt.nanos <= e.value.reviewedAt.nanos
      && e.value.reviewedAt.nanos <= input.generatedAt.nanos
  {
    hide BuildRun, FactKeys, FactValue, Validates, SameBoundary, NormalizedRequired, ExplanationsUsable, ValidFactKey,
      ValidChecksum, UtcMicrosecond;
    EachFactOnce(p, input);
    var r := BuildRun(p, input).body.results[i];
    assert Means(input.legacy, input.ledger, input.explanations, r);
  }

  // ---------------------------------------------------------------- agreement

  /** Every required metric is given, every position is covered, and nothing is declared missing. */
  ghost predicate FullyCovered(s: Snapshot) {
    s.header.coverageComplete && s.missing == [] && KeySet(s.metrics, MetricKey) == RequiredKeys()
  }

  ghost predicate Holds(s: Snapshot, id: Uuid) { exists x :: x in s.positions && x.instrumentID == id }

  /** A sparse position list as a total function: what is not listed is zero. */
  ghost function Quantity(s: Snapshot, id: Uuid): Decimal {
    if Holds(s, id) then var x :| x in s.positions && x.instrumentID == id; x.quantity else ZERO
  }

  ghost predicate SameMetrics(a: Snapshot, b: Snapshot) {
    forall m, n :: m in a.metrics && n in b.metrics && m.kind == n.kind ==> m.value == n.value
  }

  ghost predicate SameQuantities(a: Snapshot, b: Snapshot) { forall id: Uuid :: Quantity(a, id) == Quantity(b, id) }

  lemma HeldKey(s: Snapshot, id: Uuid)
    ensures PositionFactKey(id) in KeySet(s.positions, PositionKey) <==> Holds(s, id)
  {
    hide PositionFactKey;
    if PositionFactKey(id) in KeySet(s.positions, PositionKey) {
      var i :| 0 <= i < |s.positions| && PositionKey(s.positions[i]) == PositionFactKey(id);
      PositionFactKeyInjective(s.positions[i].instrumentID, id);
      assert s.positions[i] in s.positions;
    }
    if Holds(s, id) {
      var x :| x in s.positions && x.instrumentID == id;
      KeySetMember(s.positions, PositionKey, x);
    }
  }

  lemma Distinctness(p: Platform, s: Snapshot)
    requires Validates(p, s)
    ensures DistinctKeys(s.metrics, MetricKey) && DistinctKeys(s.positions, PositionKey)
      && DistinctKeys(s.missing, MissingKey)
  {
    hide ValidHeader, ValidMetric, ValidPosition, ValidMissing, Build, CanonicalPayload;
  }

  lemma QuantityFact(s: Snapshot, other: Snapshot, id: Uuid)
    requires DistinctKeys(s.positions, PositionKey) && s.header.coverageComplete
    requires Holds(s, id) || Holds(other, id)
    ensures FactValue(s, other, PositionFactKey(id)) == Some(Quantity(s, id))
  {
    hide FactValue, PositionFactKey;
    HeldKey(s, id);
    HeldKey(other, id);
    PositionFact(s, other, PositionFactKey(id));
    IndexKeys(s.positions, PositionKey);
    if Holds(s, id) {
      var x :| x in s.positions && x.instrumentID == id && x.quantity == Quantity(s, id);
      IndexFinds(s.positions, PositionKey, x);
    }
  }

  lemma MetricValueFact(s: Snapshot, other: Snapshot, m: Metric)
    requires DistinctKeys(s.metrics, MetricKey) && m in s.metrics
    ensures FactValue(s, other, MetricFactKey(m.kind)) == Some(m.value)
  {
    IndexFinds(s.metrics, MetricKey, m);
  }

  /** The facts of fully covered snapshots agree exactly when metrics and quantities do. */
  lemma FactsAgree(a: Snapshot, b: Snapshot)
    requires FullyCovered(a) && FullyCovered(b)
    requires DistinctKeys(a.metrics, MetricKey) && DistinctKeys(a.positions, PositionKey)
    requires DistinctKeys(b.metrics, MetricKey) && DistinctKeys(b.positions, PositionKey)
    ensures (forall key :: key in FactKeys(a, b) ==>
      FactValue(a, b, key).Some? && FactValue(a, b, key) == FactValue(b, a, key))
       <==> SameMetrics(a, b) && SameQuantities(a, b)
  {
    hide FactValue, Quantity, RequiredKeys;
    if forall key :: key in FactKeys(a, b) ==>
      FactValue(a, b, key).Some? && FactValue(a, b, key) == FactValue(b, a, key) {
      forall m, n | m in a.metrics && n in b.metrics && m.kind == n.kind ensures m.value == n.value {
        MetricValueFact(a, b, m);
        MetricValueFact(b, a, n);
        KeySetMember(a.metrics, MetricKey, m);
        assert MetricFactKey(m.kind) in FactKeys(a, b);
      }
      forall id: Uuid ensures Quantity(a, id) == Quantity(b, id) { QuantitiesFromFacts(a, b, id); }
    }
    if SameMetrics(a, b) && SameQuantities(a, b) {
      forall key | key in FactKeys(a, b)
        ensures FactValue(a, b, key).Some? && FactValue(a, b, key) == FactValue(b, a, key) {
        FactFromAgreement(a, b, key);
      }
    }
  }

  lemma QuantitiesFromFacts(a: Snapshot, b: Snapshot, id: Uuid)
    requires a.header.coverageComplete && b.header.coverageComplete
    requires DistinctKeys(a.positions, PositionKey) && DistinctKeys(b.positions, PositionKey)
    requires forall key :: key in FactKeys(a, b) ==> FactValue(a, b, key) == FactValue(b, a, key)
    ensures Quantity(a, id) == Quantity(b, id)
  {
    hide FactValue, PositionFactKey, RequiredKeys;
    if Holds(a, id) || Holds(b, id) {
      HeldKey(a, id);
      HeldKey(b, id);
      QuantityFact(a, b, id);
      QuantityFact(b, a, id);
      assert PositionFactKey(id) in FactKeys(a, b);
    }
  }

  lemma FactFromAgreement(a: Snapshot, b: Snapshot, key: string)
    requires FullyCovered(a) && FullyCovered(b) && key in FactKeys(a, b)
    requires DistinctKeys(a.metrics, MetricKey) && DistinctKeys(a.positions, PositionKey)
    requires DistinctKeys(b.metrics, MetricKey) && DistinctKeys(b.positions, PositionKey)
    requires SameMetrics(a, b) && SameQuantities(a, b)
    ensures FactValue(a, b, key).Some? && FactValue(a, b, key) == FactValue(b, a, key)
  {
    hide FactValue, RequiredKeys, Quantity, MetricFactKey, PositionFactKey;
    if key in RequiredKeys() {
      var i :| 0 <= i < |a.metrics| && MetricKey(a.metrics[i]) == key;
      var j :| 0 <= j < |b.metrics| && MetricKey(b.metrics[j]) == key;
      MetricFactKeyInjective(a.metrics[i].kind, b.metrics[j].kind);
      MetricValueFact(a, b, a.metrics[i]);
      MetricValueFact(b, a, b.metrics[j]);
    } else {
      var id := HolderOf(a, b, key);
      QuantityFact(a, b, id);
      QuantityFact(b, a, id);
    }
  }

  lemma HolderOf(a: Snapshot, b: Snapshot, key: string) returns (id: Uuid)
    requires key in KeySet(a.positions, PositionKey) + KeySet(b.positions, PositionKey)
    ensures PositionFactKey(id) == key && (Holds(a, id) || Holds(b, id))
  {
    hide PositionFactKey;
    if key in KeySet(a.positions, PositionKey) {
      var i :| 0 <= i < |a.positions| && PositionKey(a.positions[i]) == key;
      assert a.positions[i] in a.positions;
      id := a.positions[i].instrumentID;
    } else {
      var i :| 0 <= i < |b.positions| && PositionKey(b.positions[i]) == key;
      assert b.positions[i] in b.positions;
      id := b.positions[i].instrumentID;
    }
  }

  ghost predicate AllEqual(rs: seq<Result>) { forall i :: 0 <= i < |rs| ==> rs[i].status == EQUAL }

  /** With full coverage and no explanations, every result is equal exactly when both sides
      agree on the metrics and hold the same quantity of every instrument. */
  lemma AllEqualExactly(p: Platform, input: ComparisonInput)
    requires Comparable(p, input) && FullyCovered(input.legacy) && FullyCovered(input.ledger)
    ensures AllEqual(BuildRun(p, input).body.results) <==>
      SameMetrics(input.legacy, input.ledger) && SameQuantities(input.legacy, input.ledger)
  {
    hide Validates, SameBoundary, ValidExplanations, ExplanationsUsable, FactKeys, FactValue, BuildRun, FullyCovered,
      SameMetrics, SameQuantities;
    Distinctness(p, input.legacy);
    Distinctness(p, input.ledger);
    FactsAgree(input.legacy, input.ledger);
    EachFactOnce(p, input);
    EqualResultsEqualFacts(input, BuildRun(p, input).body.results);
  }

  lemma EqualResultsEqualFacts(input: ComparisonInput, rs: seq<Result>)
    requires KeySet(rs, ResultKey) == FactKeys(input.legacy, input.ledger)
    requires forall i :: 0 <= i < |rs| ==> Means(input.legacy, input.ledger, input.explanations, rs[i])
    ensures AllEqual(rs)
       <==> forall key :: key in FactKeys(input.legacy, input.ledger) ==>
              FactValue(input.legacy, input.ledger, key).Some?
                && FactValue(input.legacy, input.ledger, key) == FactValue(input.ledger, input.legacy, key)
  {
    hide FactValue, FactKeys, Sub;
    forall key | key in FactKeys(input.legacy, input.ledger) ensures exists i :: 0 <= i < |rs| && rs[i].factKey == key {
      assert key in KeySet(rs, ResultKey);
      var i :| 0 <= i < |rs| && ResultKey(rs[i]) == key;
    }
    forall i | 0 <= i < |rs| ensures rs[i].factKey in FactKeys(input.legacy, input.ledger) {
      KeySetMember(rs, ResultKey, rs[i]);
    }
  }
}

/** Compare and its validators as the code runs them (comparison.go, snapshot.go). */
module Comparing {
  import opened Text
  import opened Decimals
  import opened Timestamps
  import opened Evidence
  import opened Snapshots
  import opened Comparisons

  method ValidateSnapshot(p: Platform, s: Snapshot) returns (ok: bool)
    ensures ok <==> Validates(p, s)
  {
    if CanonicalPayload(s) != s.payload { return false; }
    var rebuilt := NewSnapshot(p, InputOf(s));
    if rebuilt.None? { return false; }
    ok := rebuilt.value.id == s.id && rebuilt.value.checksum == s.checksum && rebuilt.value.payload == s.payload;
  }

  method ValidateExplanations(p: Platform, inputs: seq<Explanation>, generator: string, earliest: Time,
      generatedAt: Time)
    returns (r: Option<map<string, Explanation>>)
    ensures r == if ValidExplanations(p, inputs, generator, earliest, generatedAt)
      then Some(IndexBy(inputs, ExplanationKey)) else None
  {
    hide ValidExplanation;
    var out: map<string, Explanation> := map[];
    for i := 0 to |inputs|
      invariant out == IndexBy(inputs[..i], ExplanationKey) && DistinctKeys(inputs[..i], ExplanationKey)
      invariant forall j :: 0 <= j < i ==> ValidExplanation(p, inputs[j], generator, earliest, generatedAt)
    {
      DistinctSnoc(inputs, i, ExplanationKey);
      IndexKeys(inputs[..i], ExplanationKey);
      if !ValidExplanation(p, inputs[i], generator, earliest, generatedAt) || inputs[i].factKey in out { return None; }
      assert inputs[..i + 1][..i] == inputs[..i];
      out := out[inputs[i].factKey := inputs[i]];
    }
    assert inputs[..|inputs|] == inputs;
    return Some(out);
  }

  // ---------------------------------------------------------------- which value a fact has

  lemma MetricFact(s: Snapshot, other: Snapshot, kind: string)
    ensures FactValue(s, other, MetricFactKey(kind)) == MetricValue(IndexBy(s.metrics, MetricKey), MetricFactKey(kind))
  {
    NotAPosition(s.positions, kind);
    NotAPosition(other.positions, kind);
    IndexKeys(s.positions, PositionKey);
  }

  function MetricValue(metrics: map<string, Metric>, key: string): Option<Decimal> {
    if key in metrics then Some(metrics[key].value) else None
  }

  lemma MetricOutcome(legacy: Snapshot, ledger: Snapshot, explanations: map<string, Explanation>, kind: string)
    ensures var key := MetricFactKey(kind);
      Outcome(legacy, ledger, explanations, key) ==
      CompareFact(key, MetricValue(IndexBy(legacy.metrics, MetricKey), key),
                  MetricValue(IndexBy(ledger.metrics, MetricKey), key),
                  Lookup(IndexBy(legacy.missing, MissingKey), key), Lookup(IndexBy(ledger.missing, MissingKey), key),
                  Lookup(explanations, key))
  {
    hide CompareFact, MetricFactKey;
    MetricFact(legacy, ledger, kind);
    MetricFact(ledger, legacy, kind);
  }

  lemma NotAPosition(positions: seq<Position>, kind: string)
    ensures MetricFactKey(kind) !in KeySet(positions, PositionKey)
  {
    forall i | 0 <= i < |positions| ensures PositionKey(positions[i]) != MetricFactKey(kind) {
      FactKeysDisjoint(kind, positions[i].instrumentID);
    }
  }

  lemma NotAMetric(metrics: seq<Metric>, key: string, positions: seq<Position>)
    requires key in KeySet(positions, PositionKey)
    ensures key !in IndexBy(metrics, MetricKey)
  {
    IndexKeys(metrics, MetricKey);
    var j :| 0 <= j < |positions| && PositionKey(positions[j]) == key;
    forall i | 0 <= i < |metrics| ensures MetricKey(metrics[i]) != key {
      FactKeysDisjoint(metrics[i].kind, positions[j].instrumentID);
    }
  }

  lemma MetricsAreRequired(p: Platform, s: Snapshot)
    requires Validates(p, s)
    ensures KeySet(s.metrics, MetricKey) <= RequiredKeys()
  {
    hide MetricFactKey, WithinContract, ValidProvenance, ValidHeader, ValidPosition, ValidMissing, Build,
      CanonicalPayload;
    forall i | 0 <= i < |s.metrics| ensures MetricKey(s.metrics[i]) in RequiredKeys() {
      assert ValidMetric(s.metrics[i]);
      var j :| 0 <= j < |REQUIRED_METRICS| && REQUIRED_METRICS[j] == s.metrics[i].kind;
    }
  }

  /** A present metric is a required one, and a missing fact is not present on its own side. */
  lemma MissingOnlyFact(p: Platform, s: Snapshot, other: Snapshot, key: string)
    requires Validates(p, s) && Validates(p, other)
    requires key !in RequiredKeys() && key !in KeySet(s.positions, PositionKey)
      && key !in KeySet(other.positions, PositionKey)
    ensures FactValue(s, other, key) == None
  {
    IndexKeys(s.metrics, MetricKey);
    IndexKeys(s.positions, PositionKey);
    MetricsAreRequired(p, s);
  }

  // ---------------------------------------------------------------- comparing all facts

  /** The results collected so far: one per key in `done`, each the outcome `f` of its fact. */
  ghost predicate Collected(f: string -> Option<Result>, results: seq<Result>, done: set<string>) {
    && KeySet(results, ResultKey) == done && DistinctKeys(results, ResultKey)
    && forall i :: 0 <= i < |results| ==> f(results[i].factKey) == Some(results[i])
  }

  ghost function Outcomes(legacy: Snapshot, ledger: Snapshot, explanations: map<string, Explanation>)
    : string -> Option<Result>
  {
    key => Outcome(legacy, ledger, explanations, key)
  }

  lemma CollectOne(f: string -> Option<Result>, results: seq<Result>, done: set<string>, key: string, r: Result)
    requires Collected(f, results, done) && key !in done
    requires f(key) == Some(r) && r.factKey == key
    ensures Collected(f, results + [r], done + {key})
  {
    var next := results + [r];
    assert next[..|results|] == results && next[..|results| + 1] == next;
    DistinctSnoc(next, |results|, ResultKey);
  }

  method CompareMetrics(legacy: Snapshot, ledger: Snapshot, explanations: map<string, Explanation>,
      ghost f: string -> Option<Result>)
    returns (ok: bool, results: seq<Result>)
    requires f == Outcomes(legacy, ledger, explanations)
    ensures !ok ==> exists key :: key in FactKeys(legacy, ledger) && f(key) == None
    ensures ok ==> Collected(f, results, RequiredKeys())
  {
    hide CompareFact, Outcome, MetricFactKey;
    results := [];
    ghost var done: set<string> := {};
    var legacyMetrics, ledgerMetrics := IndexBy(legacy.metrics, MetricKey), IndexBy(ledger.metrics, MetricKey);
    var legacyMissing, ledgerMissing := IndexBy(legacy.missing, MissingKey), IndexBy(ledger.missing, MissingKey);
    for i := 0 to |REQUIRED_METRICS|
      invariant done == set j | 0 <= j < i :: MetricFactKey(REQUIRED_METRICS[j])
      invariant Collected(f, results, done)
    {
      var key := MetricFactKey(REQUIRED_METRICS[i]);
      MetricOutcome(legacy, ledger, explanations, REQUIRED_METRICS[i]);
      var r := CompareFact(key, MetricValue(legacyMetrics, key), MetricValue(ledgerMetrics, key),
                           Lookup(legacyMissing, key), Lookup(ledgerMissing, key), Lookup(explanations, key));
      assert key in RequiredKeys() && r == f(key);
      if r.None? { return false, results; }
      NewMetric(i);
      OutcomeKey(legacy, ledger, explanations, key);
      CollectOne(f, results, done, key, r.value);
      results, done := results + [r.value], done + {key};
    }
    return true, results;
  }

  lemma NewMetric(i: nat)
    requires i < |REQUIRED_METRICS|
    ensures forall j :: 0 <= j < i ==> MetricFactKey(REQUIRED_METRICS[j]) != MetricFactKey(REQUIRED_METRICS[i])
  {
    forall j | 0 <= j < i ensures MetricFactKey(REQUIRED_METRICS[j]) != MetricFactKey(REQUIRED_METRICS[i]) {
      assert MetricFactKey(REQUIRED_METRICS[j])[7..] == REQUIRED_METRICS[j];
      assert MetricFactKey(REQUIRED_METRICS[i])[7..] == REQUIRED_METRICS[i];
    }
  }

  lemma OutcomeKey(legacy: Snapshot, ledger: Snapshot, explanations: map<string, Explanation>, key: string)
    ensures Outcome(legacy, ledger, explanations, key).Some? ==>
      Outcome(legacy, ledger, explanations, key).value.factKey == key
  {
    hide Sub, FactValue;
  }

  ghost function HeldKeys(legacy: Snapshot, ledger: Snapshot): set<string> {
    KeySet(legacy.positions, PositionKey) + KeySet(ledger.positions, PositionKey)
  }

  lemma TakeOne(base: set<string>, all: set<string>, pending: set<string>, key: string)
    requires pending <= all && key in pending
    ensures base + (all - pending) + {key} == base + (all - (pending - {key}))
  {
  }

  method ComparePositions(legacy: Snapshot, ledger: Snapshot, explanations: map<string, Explanation>,
      ghost f: string -> Option<Result>, metrics: seq<Result>)
    returns (ok: bool, results: seq<Result>)
    requires f == Outcomes(legacy, ledger, explanations)
    requires Collected(f, metrics, RequiredKeys())
    ensures !ok ==> exists key :: key in FactKeys(legacy, ledger) && f(key) == None
    ensures ok ==> Collected(f, results, RequiredKeys() + HeldKeys(legacy, ledger))
  {
    hide CompareFact, Outcomes, RequiredKeys, PositionValue, Collected, KeySet, IndexBy, Lookup, FactKeys;
    results := metrics;
    ghost var done := RequiredKeys();
    var legacyPositions, ledgerPositions := IndexBy(legacy.positions, PositionKey),
      IndexBy(ledger.positions, PositionKey);
    var legacyMissing, ledgerMissing := IndexBy(legacy.missing, MissingKey), IndexBy(ledger.missing, MissingKey);
    IndexKeys(legacy.positions, PositionKey);
    IndexKeys(ledger.positions, PositionKey);
    var held := legacyPositions.Keys + ledgerPositions.Keys;
    var pending := held;
    RequiredNotHeld(legacy, ledger);
    while pending != {}
      invariant pending <= held
      invariant done == RequiredKeys() + (held - pending)
      invariant Collected(f, results, done)
      decreases pending
    {
      var key :| key in pending;
      var r := CompareFact(key, PositionValue(legacyPositions, legacy.header.coverageComplete, key),
                           PositionValue(ledgerPositions, ledger.header.coverageComplete, key),
                           Lookup(legacyMissing, key), Lookup(ledgerMissing, key), Lookup(explanations, key));
      PositionStep(legacy, ledger, explanations, f, results, done, key, r);
      if r.None? { return false, results; }
      TakeOne(RequiredKeys(), held, pending, key);
      results, done, pending := results + [r.value], done + {key}, pending - {key};
    }
    assert done == RequiredKeys() + HeldKeys(legacy, ledger);
    return true, results;
  }

  lemma RequiredNotHeld(legacy: Snapshot, ledger: Snapshot)
    ensures RequiredKeys() !! HeldKeys(legacy, ledger)
  {
    forall key | key in RequiredKeys() ensures key !in HeldKeys(legacy, ledger) {
      var i :| 0 <= i < |REQUIRED_METRICS| && MetricFactKey(REQUIRED_METRICS[i]) == key;
      NotAPosition(legacy.positions, REQUIRED_METRICS[i]);
      NotAPosition(ledger.positions, REQUIRED_METRICS[i]);
    }
  }

  function PositionValue(positions: map<string, Position>, complete: bool, key: string): Option<Decimal> {
    if key in positions then Some(positions[key].quantity) else if complete then Some(ZERO) else None
  }

  lemma PositionFact(s: Snapshot, other: Snapshot, key: string)
    requires key in KeySet(s.positions, PositionKey) + KeySet(other.positions, PositionKey)
    ensures FactValue(s, other, key) == PositionValue(IndexBy(s.positions, PositionKey), s.header.coverageComplete, key)
  {
    IndexKeys(s.positions, PositionKey);
    if key in KeySet(s.positions, PositionKey) {
      NotAMetric(s.metrics, key, s.positions);
    } else {
      NotAMetric(s.metrics, key, other.positions);
    }
  }

  lemma PositionOutcome(legacy: Snapshot, ledger: Snapshot, explanations: map<string, Explanation>, key: string)
    requires key in HeldKeys(legacy, ledger)
    ensures Outcome(legacy, ledger, explanations, key) ==
      CompareFact(key, PositionValue(IndexBy(legacy.positions, PositionKey), legacy.header.coverageComplete, key),
                  PositionValue(IndexBy(ledger.positions, PositionKey), ledger.header.coverageComplete, key),
                  Lookup(IndexBy(legacy.missing, MissingKey), key), Lookup(IndexBy(ledger.missing, MissingKey), key),
                  Lookup(explanations, key))
  {
    hide CompareFact, FactValue;
    PositionFact(legacy, ledger, key);
    PositionFact(ledger, legacy, key);
  }

  lemma PositionStep(legacy: Snapshot, ledger: Snapshot, explanations: map<string, Explanation>,
      f: string -> Option<Result>, results: seq<Result>, done: set<string>, key: string, r: Option<Result>)
    requires f == Outcomes(legacy, ledger, explanations) && Collected(f, results, done) && key !in done
    requires key in HeldKeys(legacy, ledger)
    requires r ==
      CompareFact(key, PositionValue(IndexBy(legacy.positions, PositionKey), legacy.header.coverageComplete, key),
                  PositionValue(IndexBy(ledger.positions, PositionKey), ledger.header.coverageComplete, key),
                  Lookup(IndexBy(legacy.missing, MissingKey), key), Lookup(IndexBy(ledger.missing, MissingKey), key),
                  Lookup(explanations, key))
    ensures key in FactKeys(legacy, ledger) && f(key) == r
    ensures r.Some? ==> Collected(f, results + [r.value], done + {key})
  {
    PositionOutcome(legacy, ledger, explanations, key);
    OutcomeKey(legacy, ledger, explanations, key);
    hide CompareFact, Outcome;
    if r.Some? { CollectOne(f, results, done, key, r.value); }
  }

  lemma MissingStep(p: Platform, legacy: Snapshot, ledger: Snapshot, explanations: map<string, Explanation>,
      f: string -> Option<Result>, results: seq<Result>, done: set<string>, key: string, r: Option<Result>)
    requires f == Outcomes(legacy, ledger, explanations) && Collected(f, results, done) && key !in done
    requires Validates(p, legacy) && Validates(p, ledger)
    requires key in KeySet(legacy.missing, MissingKey) + KeySet(ledger.missing, MissingKey)
    requires key !in RequiredKeys() + HeldKeys(legacy, ledger)
    requires r == CompareFact(key, None, None, Lookup(IndexBy(legacy.missing, MissingKey), key),
      Lookup(IndexBy(ledger.missing, MissingKey), key), Lookup(explanations, key))
    ensures key in FactKeys(legacy, ledger) && f(key) == r
    ensures r.Some? ==> Collected(f, results + [r.value], done + {key})
  {
    MissingOutcome(p, legacy, ledger, explanations, key);
    OutcomeKey(legacy, ledger, explanations, key);
    hide CompareFact, Outcome, Validates;
    if r.Some? { CollectOne(f, results, done, key, r.value); }
  }

  lemma MissingOutcome(p: Platform, legacy: Snapshot, ledger: Snapshot, explanations: map<string, Explanation>,
      key: string)
    requires Validates(p, legacy) && Validates(p, ledger)
    requires key !in RequiredKeys() + HeldKeys(legacy, ledger)
    ensures Outcome(legacy, ledger, explanations, key) ==
      CompareFact(key, None, None, Lookup(IndexBy(legacy.missing, MissingKey), key),
        Lookup(IndexBy(ledger.missing, MissingKey), key), Lookup(explanations, key))
  {
    hide CompareFact, FactValue, Validates, RequiredKeys;
    MissingOnlyFact(p, legacy, ledger, key);
    MissingOnlyFact(p, ledger, legacy, key);
  }

  method CompareMissing(p: Platform, legacy: Snapshot, ledger: Snapshot, explanations: map<string, Explanation>,
      ghost f: string -> Option<Result>, held: seq<Result>)
    returns (ok: bool, results: seq<Result>)
    requires Validates(p, legacy) && Validates(p, ledger) && f == Outcomes(legacy, ledger, explanations)
    requires Collected(f, held, RequiredKeys() + HeldKeys(legacy, ledger))
    ensures !ok ==> exists key :: key in FactKeys(legacy, ledger) && f(key) == None
    ensures ok ==> Collected(f, results, FactKeys(legacy, ledger))
  {
    hide CompareFact, Outcomes, RequiredKeys, Validates, IndexBy, Lookup, FactKeys, HeldKeys;
    results := held;
    var legacyMissing, ledgerMissing := IndexBy(legacy.missing, MissingKey), IndexBy(ledger.missing, MissingKey);
    IndexKeys(legacy.missing, MissingKey);
    IndexKeys(ledger.missing, MissingKey);
    var resultKeys := set i | 0 <= i < |held| :: held[i].factKey;
    assert resultKeys == KeySet(held, ResultKey);
    ghost var earlier := resultKeys;
    var declared := legacyMissing.Keys + ledgerMissing.Keys;
    var pending := declared;
    while pending != {}
      invariant pending <= declared
      invariant resultKeys == earlier + (declared - pending)
      invariant Collected(f, results, resultKeys)
      decreases pending
    {
      var key :| key in pending;
      TakeOne(earlier, declared, pending, key);
      pending := pending - {key};
      if key !in resultKeys {
        var r := CompareFact(key, None, None, Lookup(legacyMissing, key), Lookup(ledgerMissing, key),
          Lookup(explanations, key));
        MissingStep(p, legacy, ledger, explanations, f, results, resultKeys, key, r);
        if r.None? { return false, results; }
        results, resultKeys := results + [r.value], resultKeys + {key};
      }
    }
    DeclaredComplete(legacy, ledger, earlier, declared);
    return true, results;
  }

  lemma DeclaredComplete(legacy: Snapshot, ledger: Snapshot, earlier: set<string>, declared: set<string>)
    requires earlier == RequiredKeys() + HeldKeys(legacy, ledger)
    requires declared == KeySet(legacy.missing, MissingKey) + KeySet(ledger.missing, MissingKey)
    ensures earlier + (declared - {}) == FactKeys(legacy, ledger)
  {
    hide RequiredKeys, KeySet;
  }

  /** Sorting the collected results gives the outcomes of the facts in key order. */
  lemma SortCollected(f: string -> Option<Result>, results: seq<Result>, facts: set<string>)
    requires Collected(f, results, facts)
    ensures |SortBy(results, ResultKey)| == |Ascending(facts)|
    ensures forall i :: 0 <= i < |Ascending(facts)| ==> f(Ascending(facts)[i]) == Some(SortBy(results, ResultKey)[i])
  {
    var sorted, keys := SortBy(results, ResultKey), Ascending(facts);
    SortSorted(results, ResultKey);
    SortMultiset(results, ResultKey);
    var sortedKeys := Map(ResultKey, sorted);
    SortedKeysAreFacts(results, facts, sorted, sortedKeys);
    hide SortBy, Ascending;
    SortedUnique(sortedKeys, keys, Identity);
    forall i | 0 <= i < |keys| ensures f(keys[i]) == Some(sorted[i]) {
      assert sorted[i] in multiset(results);
      assert sortedKeys[i] == keys[i];
    }
  }

  lemma SortedKeysAreFacts(results: seq<Result>, facts: set<string>, sorted: seq<Result>, sortedKeys: seq<string>)
    requires KeySet(results, ResultKey) == facts && multiset(sorted) == multiset(results)
      && sortedKeys == Map(ResultKey, sorted)
    ensures forall k :: k in sortedKeys <==> k in facts
  {
    forall k ensures k in sortedKeys <==> k in facts {
      if k in sortedKeys {
        var i :| 0 <= i < |sortedKeys| && sortedKeys[i] == k;
        assert sorted[i] in multiset(results);
        KeySetMember(results, ResultKey, sorted[i]);
      }
      if k in facts {
        var i :| 0 <= i < |results| && results[i].factKey == k;
        assert results[i] in multiset(sorted);
        var j :| 0 <= j < |sorted| && sorted[j] == results[i];
        assert sortedKeys[j] == k;
      }
    }
  }

  lemma AllClassified(f: string -> Option<Result>, results: seq<Result>, facts: set<string>)
    requires Collected(f, results, facts)
    ensures forall key :: key in facts ==> f(key).Some?
  {
    forall key | key in facts ensures f(key).Some? {
      assert key in KeySet(results, ResultKey);
      var i :| 0 <= i < |results| && results[i].factKey == key;
    }
  }

  method CompareFacts(p: Platform, legacy: Snapshot, ledger: Snapshot, explanations: map<string, Explanation>,
      ghost f: string -> Option<Result>)
    returns (r: Option<seq<Result>>)
    requires Validates(p, legacy) && Validates(p, ledger) && f == Outcomes(legacy, ledger, explanations)
    ensures r.Some? <==>
      (forall key :: key in FactKeys(legacy, ledger) ==> f(key).Some?)
      && explanations.Keys <= FactKeys(legacy, ledger)
    ensures r.Some? ==> |r.value| == |Ascending(FactKeys(legacy, ledger))|
    ensures r.Some? ==> forall i :: 0 <= i < |r.value| ==> f(Ascending(FactKeys(legacy, ledger))[i]) == Some(r.value[i])
  {
    hide Outcomes, Validates, FactKeys, Ascending, SortBy;
    var ok, results := CompareMetrics(legacy, ledger, explanations, f);
    if !ok { return None; }
    ok, results := ComparePositions(legacy, ledger, explanations, f, results);
    if !ok { return None; }
    ok, results := CompareMissing(p, legacy, ledger, explanations, f, results);
    if !ok { return None; }
    AllClassified(f, results, FactKeys(legacy, ledger));
    var resultKeys := set i | 0 <= i < |results| :: results[i].factKey;
    assert resultKeys == KeySet(results, ResultKey);
    if !(explanations.Keys <= resultKeys) { return None; }
    SortCollected(f, results, FactKeys(legacy, ledger));
    return Some(SortBy(results, ResultKey));
  }

  // ---------------------------------------------------------------- the run

  method AssignIdentities(p: Platform, legacy: Snapshot, ledger: Snapshot, results: seq<Result>)
    returns (identified: seq<Result>, equal: nat, explained: nat, unexplained: nat, notComparable: nat)
    ensures |identified| == |results|
    ensures forall i :: 0 <= i < |results| ==> identified[i] == Identified(p, legacy.id, ledger.id, results[i])
    ensures equal == CountStatus(identified, EQUAL) && explained == CountStatus(identified, EXPLAINED)
    ensures unexplained == CountStatus(identified, UNEXPLAINED)
      && notComparable == CountStatus(identified, NOT_COMPARABLE)
  {
    hide Identified;
    identified, equal, explained, unexplained, notComparable := [], 0, 0, 0, 0;
    for i := 0 to |results|
      invariant |identified| == i
      invariant forall j :: 0 <= j < i ==> identified[j] == Identified(p, legacy.id, ledger.id, results[j])
      invariant equal == CountStatus(identified, EQUAL) && explained == CountStatus(identified, EXPLAINED)
      invariant unexplained == CountStatus(identified, UNEXPLAINED)
        && notComparable == CountStatus(identified, NOT_COMPARABLE)
    {
      var r := Identified(p, legacy.id, ledger.id, results[i]);
      assert (identified + [r])[..i] == identified;
      identified := identified + [r];
      if r.status == EQUAL { equal := equal + 1; }
      else if r.status == EXPLAINED { explained := explained + 1; }
      else if r.status == UNEXPLAINED { unexplained := unexplained + 1; }
      else if r.status == NOT_COMPARABLE { notComparable := notComparable + 1; }
    }
  }

  /** Some explanation targets no fact, or a fact that is missing or equal. */
  lemma UnusableExplanation(legacy: Snapshot, ledger: Snapshot, es: seq<Explanation>)
    ensures (forall key :: key in FactKeys(legacy, ledger) ==>
      Outcome(legacy, ledger, IndexBy(es, ExplanationKey), key).Some?)
            && IndexBy(es, ExplanationKey).Keys <= FactKeys(legacy, ledger)
       <==> forall e :: e in es ==> e.factKey in FactKeys(legacy, ledger) && Differs(legacy, ledger, e.factKey)
  {
    hide FactKeys, Outcome, Differs;
    var index := IndexBy(es, ExplanationKey);
    IndexKeys(es, ExplanationKey);
    forall key ensures Outcome(legacy, ledger, index, key).Some? <==> (key in index ==> Differs(legacy, ledger, key)) {
      OutcomeExists(legacy, ledger, index, key);
    }
    forall e | e in es ensures e.factKey in index { KeySetMember(es, ExplanationKey, e); }
    forall key | key in index ensures exists e :: e in es && e.factKey == key { assert index[key] in es; }
  }

  method Compare(p: Platform, legacy: Option<Snapshot>, ledger: Option<Snapshot>, generator: string, generatedAt: Time,
      explanations: seq<Explanation>)
    returns (r: Option<Run>)
    ensures legacy.None? || ledger.None? ==> r == None
    ensures legacy.Some? && ledger.Some? ==>
      var input := ComparisonInput(legacy.value, ledger.value, generator, generatedAt, explanations);
      r == if Comparable(p, input) then Some(BuildRun(p, input)) else None
  {
    hide Validates, ExplanationsUsable, ValidExplanations, IndexBy, NormalizedRequired, SameBoundary, BuildRun;
    if legacy.None? || ledger.None? { return None; }
    ghost var input := ComparisonInput(legacy.value, ledger.value, generator, generatedAt, explanations);
    var ok := ValidateSnapshot(p, legacy.value);
    if !ok { return None; }
    ok := ValidateSnapshot(p, ledger.value);
    if !ok { return None; }
    if !SameBoundary(legacy.value.header, ledger.value.header) { return None; }
    if !NormalizedRequired(generator, 256) || !UtcMicrosecond(generatedAt) { return None; }
    var latest := Latest(legacy.value.header.observedAt, ledger.value.header.observedAt);
    if generatedAt.nanos < latest.nanos { return None; }
    var index := ValidateExplanations(p, explanations, generator, latest, generatedAt);
    if index.None? { return None; }
    r := CompareWith(p, legacy.value, ledger.value, generator, generatedAt, index.value, input);
  }

  method CompareWith(p: Platform, legacy: Snapshot, ledger: Snapshot, generator: string, generatedAt: Time,
                     index: map<string, Explanation>, ghost input: ComparisonInput) returns (r: Option<Run>)
    requires Validates(p, legacy) && Validates(p, ledger)
    requires input.legacy == legacy && input.ledger == ledger && input.generator == generator
      && input.generatedAt == generatedAt
    requires index == IndexBy(input.explanations, ExplanationKey)
    ensures r == if ExplanationsUsable(input) then Some(BuildRun(p, input)) else None
  {
    hide Validates, FactKeys, Differs, EncloseCounted, CountStatus, IndexBy, Ascending, Identified, Outcome;
    ghost var f := Outcomes(legacy, ledger, index);
    var results := CompareFacts(p, legacy, ledger, index, f);
    UnusableExplanation(legacy, ledger, input.explanations);
    if results.None? { return None; }
    var identified, equal, explained, unexplained, notComparable := AssignIdentities(p, legacy, ledger, results.value);
    assert identified == ResultsFor(p, input);
    r := Some(EncloseCounted(p, legacy, ledger, generator, generatedAt, identified, equal, explained, unexplained,
      notComparable));
  }
}

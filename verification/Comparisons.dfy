/** Comparing a legacy and a ledger snapshot fact by fact (comparison.go). */
module Comparisons {
  import opened Text
  import opened Decimals
  import opened Uuids
  import opened Timestamps
  import opened Evidence
  import opened Snapshots

  const COMPARISON_VERSION := "accounting_comparison_v1"
  const POLICY_VERSION := "legacy_ledger_v1"

  const EQUAL := "equal"
  const EXPLAINED := "explained"
  const UNEXPLAINED := "unexplained"
  const NOT_COMPARABLE := "not_comparable"

  predicate ValidCode(code: string) {
    code in ["legacy_binary_float_representation", "legacy_mark_source_timing", "legacy_option_multiplier_semantics",
      "source_correction_evidence"]
  }

  datatype Explanation = Explanation(
    factKey: string, code: string, rationale: string, evidenceRef: string, evidenceChecksum: string,
    generator: string, reviewer: string, reviewedAt: Time)

  datatype ComparisonInput = ComparisonInput(
    legacy: Snapshot, ledger: Snapshot, generator: string, generatedAt: Time, explanations: seq<Explanation>)

  datatype Result = Result(
    id: Uuid, factKey: string, legacyValue: Option<Decimal>, ledgerValue: Option<Decimal>, delta: Option<Decimal>,
    status: string, reasonCode: string, explanation: Option<Explanation>)

  datatype RunBody = RunBody(
    version: string, policyVersion: string, accountID: Uuid, asOf: Time, generatedAt: Time, generator: string,
    projectionVersion: string, markSource: string, markNamespace: string, maxMarkAge: Duration,
    captureFenceID: string, captureEpoch: nat, legacy: Option<Snapshot>, ledger: Option<Snapshot>, results: seq<Result>,
    equalCount: nat, explainedCount: nat, unexplainedCount: nat, notComparableCount: nat, synthetic: bool)

  datatype Attestation = Attestation(kind: string, keyID: string, bytes: seq<nat>)

  datatype Run = Run(id: Uuid, body: RunBody, payload: RunPayload, checksum: string, attestation: Attestation)

  const UNATTESTED := Attestation("", "", [])

  // ---------------------------------------------------------------- one fact

  function MissingReason(m: Option<MissingFact>): string {
    match m case None => SOURCE_UNAVAILABLE case Some(f) => f.reasonCode
  }

  function MissingReasonSummary(legacy: Option<Decimal>, ledger: Option<Decimal>, legacyMissing: Option<MissingFact>,
      ledgerMissing: Option<MissingFact>): string {
    (if legacy.None? then "legacy:" + MissingReason(legacyMissing) else "") +
    (if legacy.None? && ledger.None? then "," else "") +
    (if ledger.None? then "ledger:" + MissingReason(ledgerMissing) else "")
  }

  /** compareFact; the result identity is assigned later. */
  function CompareFact(key: string, legacy: Option<Decimal>, ledger: Option<Decimal>,
                       legacyMissing: Option<MissingFact>, ledgerMissing: Option<MissingFact>,
                         explanation: Option<Explanation>): Option<Result> {
    if legacy.None? || ledger.None? then
      if explanation.Some? then None
      else Some(Result(NIL, key, legacy, ledger, None, NOT_COMPARABLE,
        MissingReasonSummary(legacy, ledger, legacyMissing, ledgerMissing), None))
    else
      var delta := Sub(ledger.value, legacy.value);
      if delta.coef == 0 then
        if explanation.Some? then None
        else Some(Result(NIL, key, legacy, ledger, Some(delta), EQUAL, "exact_match", None))
      else if explanation.None? then
        Some(Result(NIL, key, legacy, ledger, Some(delta), UNEXPLAINED, "exact_delta_unexplained", None))
      else Some(Result(NIL, key, legacy, ledger, Some(delta), EXPLAINED, explanation.value.code, explanation))
  }

  // ---------------------------------------------------------------- what is compared

  /** The value one side gives a fact: a metric, a position, or zero for an
      instrument only the other side holds when this side covers all positions. */
  ghost function FactValue(s: Snapshot, other: Snapshot, key: string): Option<Decimal> {
    if key in IndexBy(s.metrics, MetricKey) then Some(IndexBy(s.metrics, MetricKey)[key].value)
    else if key in IndexBy(s.positions, PositionKey) then Some(IndexBy(s.positions, PositionKey)[key].quantity)
    else if s.header.coverageComplete && key in KeySet(other.positions, PositionKey) then Some(ZERO)
    else None
  }

  ghost function RequiredKeys(): set<string> {
    set i | 0 <= i < |REQUIRED_METRICS| :: MetricFactKey(REQUIRED_METRICS[i])
  }

  /** Required metrics, positions held on either side, and declared missing facts. */
  ghost function FactKeys(legacy: Snapshot, ledger: Snapshot): set<string> {
    RequiredKeys() + KeySet(legacy.positions, PositionKey) + KeySet(ledger.positions, PositionKey)
    + KeySet(legacy.missing, MissingKey) + KeySet(ledger.missing, MissingKey)
  }

  ghost function Outcome(legacy: Snapshot, ledger: Snapshot, explanations: map<string, Explanation>, key: string)
    : Option<Result>
  {
    CompareFact(key, FactValue(legacy, ledger, key), FactValue(ledger, legacy, key),
                Lookup(IndexBy(legacy.missing, MissingKey), key), Lookup(IndexBy(ledger.missing, MissingKey), key),
                Lookup(explanations, key))
  }

  function ExplanationKey(e: Explanation): string { e.factKey }
  function ResultKey(r: Result): string { r.factKey }

  function Latest(a: Time, b: Time): Time { if b.nanos > a.nanos then b else a }

  predicate ValidExplanation(p: Platform, e: Explanation, generator: string, earliest: Time, generatedAt: Time) {
    && ValidFactKey(p, e.factKey) && ValidCode(e.code) && NormalizedRequired(e.rationale, 2000)
    && NormalizedRequired(e.evidenceRef, 512) && ValidChecksum(e.evidenceChecksum)
    && NormalizedRequired(e.generator, 256) && NormalizedRequired(e.reviewer, 256)
    && e.generator == generator && e.generator != e.reviewer
    && UtcMicrosecond(e.reviewedAt) && earliest.nanos <= e.reviewedAt.nanos <= generatedAt.nanos
  }

  /** Both sides give the fact a value, and the values differ. */
  ghost predicate Differs(legacy: Snapshot, ledger: Snapshot, key: string) {
    FactValue(legacy, ledger, key).Some? && FactValue(ledger, legacy, key).Some?
    && FactValue(legacy, ledger, key) != FactValue(ledger, legacy, key)
  }

  /** The snapshots play their roles and share one account, time, mark policy and capture fence. */
  predicate SameBoundary(a: Header, b: Header) {
    && a.source == LEGACY && b.source == LEDGER
    && a.accountID == b.accountID && a.asOf.nanos == b.asOf.nanos && a.currency == b.currency
    && a.projectionVersion == b.projectionVersion && a.markSource == b.markSource && a.markNamespace == b.markNamespace
    && a.maxMarkAge == b.maxMarkAge && a.captureFenceID == b.captureFenceID && a.captureEpoch == b.captureEpoch
  }

  ghost predicate ValidExplanations(p: Platform, es: seq<Explanation>, generator: string, earliest: Time,
      generatedAt: Time) {
    (forall e :: e in es ==> ValidExplanation(p, e, generator, earliest, generatedAt))
      && DistinctKeys(es, ExplanationKey)
  }

  ghost predicate ExplanationsUsable(input: ComparisonInput) {
    forall e :: e in input.explanations ==>
      e.factKey in FactKeys(input.legacy, input.ledger) && Differs(input.legacy, input.ledger, e.factKey)
  }

  function LatestObservation(input: ComparisonInput): Time {
    Latest(input.legacy.header.observedAt, input.ledger.header.observedAt)
  }

  /** What Compare accepts of two snapshots. */
  ghost predicate Comparable(p: Platform, input: ComparisonInput) {
    && Validates(p, input.legacy) && Validates(p, input.ledger)
      && SameBoundary(input.legacy.header, input.ledger.header)
    && NormalizedRequired(input.generator, 256) && UtcMicrosecond(input.generatedAt)
    && LatestObservation(input).nanos <= input.generatedAt.nanos
    && ValidExplanations(p, input.explanations, input.generator, LatestObservation(input), input.generatedAt)
    && ExplanationsUsable(input)
  }

  // ---------------------------------------------------------------- the run

  function PrintOptional(d: Option<Decimal>): string {
    match d case None => "missing" case Some(v) => Decimals.Print(v)
  }

  function TextOptional(d: Option<Decimal>): Option<string> {
    match d case None => None case Some(v) => Some(Decimals.Print(v))
  }

  function ExplanationIdentity(e: Option<Explanation>): string {
    match e
    case None => ""
    case Some(v) =>
      var u := "\U{1F}";
      v.factKey + u + v.code + u + v.rationale + u + v.evidenceRef + u + v.evidenceChecksum + u + v.generator + u
        + v.reviewer + u + Timestamps.Print(v.reviewedAt)
  }

  function Identified(p: Platform, legacyID: Uuid, ledgerID: Uuid, r: Result): Result {
    r.(id := p.identify("accounting-reconciliation-result", [
      Uuids.Print(legacyID), Uuids.Print(ledgerID), r.factKey, r.status,
      PrintOptional(r.legacyValue), PrintOptional(r.ledgerValue), PrintOptional(r.delta),
        ExplanationIdentity(r.explanation)]))
  }

  function CountStatus(rs: seq<Result>, status: string): nat {
    if rs == [] then 0 else CountStatus(rs[..|rs| - 1], status) + (if rs[|rs| - 1].status == status then 1 else 0)
  }

  function ExplanationText(e: Explanation): ExplanationPayload {
    ExplanationPayload(e.factKey, e.code, e.rationale, e.evidenceRef, e.evidenceChecksum, e.generator, e.reviewer,
      Timestamps.Print(e.reviewedAt))
  }

  function ResultText(r: Result): ResultPayload {
    ResultPayload(Uuids.Print(r.id), r.factKey, TextOptional(r.legacyValue), TextOptional(r.ledgerValue),
      TextOptional(r.delta), r.status, r.reasonCode,
                  match r.explanation case None => None case Some(e) => Some(ExplanationText(e)))
  }

  /** Run.canonicalPayload */
  function CanonicalRunPayload(b: RunBody): RunPayload
    requires b.legacy.Some? && b.ledger.Some?
  {
    RunPayload(
      b.version, b.policyVersion, Uuids.Print(b.accountID), Timestamps.Print(b.asOf), Timestamps.Print(b.generatedAt),
      b.generator, b.projectionVersion, b.markSource, b.markNamespace, Microseconds(b.maxMarkAge), b.captureFenceID,
      b.captureEpoch, b.legacy.value.payload, b.ledger.value.payload, b.synthetic,
      b.equalCount, b.explainedCount, b.unexplainedCount, b.notComparableCount, Map(ResultText, b.results))
  }

  /** The run around a list of results and their counts. */
  function EncloseCounted(p: Platform, legacy: Snapshot, ledger: Snapshot, generator: string, generatedAt: Time,
      results: seq<Result>, equal: nat, explained: nat, unexplained: nat, notComparable: nat): Run {
    var h := legacy.header;
    var body := RunBody(
      COMPARISON_VERSION, POLICY_VERSION, h.accountID, h.asOf, generatedAt, generator, h.projectionVersion,
      h.markSource, h.markNamespace, h.maxMarkAge, h.captureFenceID, h.captureEpoch, Some(legacy), Some(ledger),
      results, equal, explained, unexplained, notComparable, h.synthetic || ledger.header.synthetic);
    var payload := CanonicalRunPayload(body);
    var checksum := p.digest(RunDocument(payload));
    Run(RunID(p, body, checksum), body, payload, checksum, UNATTESTED)
  }

  function Enclose(p: Platform, legacy: Snapshot, ledger: Snapshot, generator: string, generatedAt: Time,
      results: seq<Result>): Run {
    EncloseCounted(p, legacy, ledger, generator, generatedAt, results,
                   CountStatus(results, EQUAL), CountStatus(results, EXPLAINED), CountStatus(results, UNEXPLAINED),
                   CountStatus(results, NOT_COMPARABLE))
  }

  function RunID(p: Platform, b: RunBody, checksum: string): Uuid
    requires b.legacy.Some? && b.ledger.Some?
  {
    p.identify("accounting-reconciliation-run",
      [b.version, b.policyVersion, Uuids.Print(b.accountID), b.legacy.value.checksum, b.ledger.value.checksum,
        checksum])
  }

  /** The identified result of one fact; facts that cannot be classified do not occur in a comparable input. */
  ghost function ResultFor(p: Platform, input: ComparisonInput, key: string): Result {
    match Outcome(input.legacy, input.ledger, IndexBy(input.explanations, ExplanationKey), key)
    case Some(r) => Identified(p, input.legacy.id, input.ledger.id, r)
    case None => Result(NIL, key, None, None, None, "", "", None)
  }

  /** One result for each fact, in key order. */
  ghost function ResultsFor(p: Platform, input: ComparisonInput): (rs: seq<Result>)
    ensures |rs| == |Ascending(FactKeys(input.legacy, input.ledger))|
    ensures forall i :: 0 <= i < |rs| ==>
      rs[i] == ResultFor(p, input, Ascending(FactKeys(input.legacy, input.ledger))[i])
  {
    var keys := Ascending(FactKeys(input.legacy, input.ledger));
    seq(|keys|, i requires 0 <= i < |keys| => ResultFor(p, input, keys[i]))
  }

  lemma ExplanationsPermitOutcomes(legacy: Snapshot, ledger: Snapshot, es: seq<Explanation>)
    requires forall e :: e in es ==> Differs(legacy, ledger, e.factKey)
    ensures forall key :: Outcome(legacy, ledger, IndexBy(es, ExplanationKey), key).Some?
  {
    IndexKeys(es, ExplanationKey);
    forall key ensures Outcome(legacy, ledger, IndexBy(es, ExplanationKey), key).Some? {
      OutcomeExists(legacy, ledger, IndexBy(es, ExplanationKey), key);
      if key in IndexBy(es, ExplanationKey) {
        assert Differs(legacy, ledger, IndexBy(es, ExplanationKey)[key].factKey);
      }
    }
  }

  /** A fact can be classified unless an explanation is given for one that is missing or equal. */
  lemma OutcomeExists(legacy: Snapshot, ledger: Snapshot, explanations: map<string, Explanation>, key: string)
    ensures Outcome(legacy, ledger, explanations, key).Some? <==> (key in explanations ==> Differs(legacy, ledger, key))
  {
    var a, b := FactValue(legacy, ledger, key), FactValue(ledger, legacy, key);
    if a.Some? && b.Some? { SubZero(b.value, a.value); }
  }

  ghost function BuildRun(p: Platform, input: ComparisonInput): Run {
    Enclose(p, input.legacy, input.ledger, input.generator, input.generatedAt, ResultsFor(p, input))
  }
}

/** The accounting evidence records, their payload trees, and the library
    functions they rest on.
 */
module Evidence {
  import opened Text
  import opened Uuids
  import opened Timestamps

  // ---------------------------------------------------------------- payload trees

  datatype MetricPayload = MetricPayload(kind: string, value: string, provenance: string)
  datatype PositionPayload = PositionPayload(instrumentID: string, quantity: string, provenance: string)
  datatype MissingPayload = MissingPayload(factKey: string, reasonCode: string, evidenceRef: string)

  /** The JSON object a snapshot serialises to; equal bytes are equal trees. */
  datatype SnapshotPayload = SnapshotPayload(
    version: string, source: string, accountID: string, asOf: string, observedAt: string, currency: string,
    projectionVersion: string, markSource: string, markNamespace: string, maxMarkAgeMicros: Duration,
    captureFenceID: string, captureEpoch: nat, evidenceID: string, evidenceChecksum: string,
    synthetic: bool, coverageComplete: bool,
    metrics: seq<MetricPayload>, positions: seq<PositionPayload>, missing: seq<MissingPayload>)

  datatype ExplanationPayload = ExplanationPayload(
    factKey: string, code: string, rationale: string, evidenceRef: string, evidenceChecksum: string,
    generator: string, reviewer: string, reviewedAt: string)

  datatype ResultPayload = ResultPayload(
    id: string, factKey: string, legacyValue: Option<string>, ledgerValue: Option<string>, delta: Option<string>,
    status: string, reasonCode: string, explanation: Option<ExplanationPayload>)

  datatype RunPayload = RunPayload(
    version: string, policyVersion: string, accountID: string, asOf: string, generatedAt: string, generator: string,
    projectionVersion: string, markSource: string, markNamespace: string, maxMarkAgeMicros: Duration,
    captureFenceID: string, captureEpoch: nat, legacySnapshot: SnapshotPayload, ledgerSnapshot: SnapshotPayload,
    synthetic: bool, equalCount: nat, explainedCount: nat, unexplainedCount: nat, notComparableCount: nat,
    results: seq<ResultPayload>)

  datatype Document = SnapshotDocument(snapshot: SnapshotPayload) | RunDocument(run: RunPayload)

  /** Library functions the evidence code calls: Unicode tables, SHA-256 and the
      deterministic UUID. Every result holds for any such functions. */
  datatype Platform = Platform(
    lower: char -> char, isLower: char -> bool, isDigit: char -> bool,
    digest: Document -> string, identify: (string, seq<string>) -> Uuid)

  // ---------------------------------------------------------------- field validators

  predicate NormalizedRequired(value: string, maxLength: nat) {
    value != "" && value == TrimSpace(value) && ByteLength(value) <= maxLength
    && forall i :: 0 <= i < |value| ==> value[i] !in "\r\n\0"
  }

  predicate NormalizedLower(p: Platform, value: string, maxLength: nat) {
    NormalizedRequired(value, maxLength) && forall i :: 0 <= i < |value| ==> p.lower(value[i]) == value[i]
  }

  predicate ValidFactKey(p: Platform, value: string) {
    NormalizedRequired(value, 256)
    && forall i :: 0 <= i < |value| ==> p.isLower(value[i]) || p.isDigit(value[i]) || value[i] in ":-_"
  }

  /** Sixty-four lower-case hexadecimal digits. */
  predicate ValidChecksum(value: string) {
    |value| == 64 && forall i :: 0 <= i < 64 ==> HexValue(value[i]).Some?
  }

  predicate ValidCurrency(value: string) {
    |value| == 3 && forall i :: 0 <= i < 3 ==> 'A' <= value[i] <= 'Z'
  }

  const LEGACY := "legacy_compatibility"
  const LEDGER := "immutable_ledger"

  const REQUIRED_METRICS := ["buying_power", "cash", "equity", "fees", "market_value", "realized_pnl", "unrealized_pnl"]

  predicate ValidProvenance(value: string) { value in ["exact_decimal", "binary_float"] }

  const SOURCE_UNAVAILABLE := "source_unavailable"

  predicate ValidReason(value: string) {
    value in [SOURCE_UNAVAILABLE, "unscoped_legacy_rows", "instrument_identity_unresolved", "capture_not_atomic"]
  }

  function MetricFactKey(kind: string): string { "metric:" + kind }

  function PositionFactKey(id: Uuid): string { "position:" + Uuids.Print(id) + ":quantity" }

  lemma MetricFactKeyInjective(a: string, b: string)
    requires MetricFactKey(a) == MetricFactKey(b)
    ensures a == b
  {
    assert MetricFactKey(a)[7..] == a && MetricFactKey(b)[7..] == b;
  }

  lemma PositionFactKeyInjective(a: Uuid, b: Uuid)
    requires PositionFactKey(a) == PositionFactKey(b)
    ensures a == b
  {
    assert PositionFactKey(a)[9..45] == Uuids.Print(a) && PositionFactKey(b)[9..45] == Uuids.Print(b);
    Uuids.PrintInjective(a, b);
  }

  lemma FactKeysDisjoint(kind: string, id: Uuid)
    ensures MetricFactKey(kind) != PositionFactKey(id)
  {
    assert MetricFactKey(kind)[0] == 'm' && PositionFactKey(id)[0] == 'p';
  }

  /** Duration.Microseconds, which truncates toward zero. */
  function Microseconds(nanos: Duration): Duration {
    var n: int := nanos;
    if n >= 0 then n / 1000 else -(-n / 1000)
  }
}

/** One side's accounting capture in canonical form (snapshot.go). */
module Snapshots {
  import opened Text
  import opened Decimals
  import opened Uuids
  import opened Timestamps
  import opened Evidence

  const SNAPSHOT_VERSION := "accounting_snapshot_v1"

  datatype Metric = Metric(kind: string, value: Decimal, provenance: string)
  datatype Position = Position(instrumentID: Uuid, quantity: Decimal, provenance: string)
  datatype MissingFact = MissingFact(factKey: string, reasonCode: string, evidenceRef: string)

  /** The scalar fields that a snapshot copies from its input. */
  datatype Header = Header(
    source: string, accountID: Uuid, asOf: Time, observedAt: Time, currency: string,
    projectionVersion: string, markSource: string, markNamespace: string, maxMarkAge: Duration,
    captureFenceID: string, captureEpoch: nat, evidenceID: string, evidenceChecksum: string,
    synthetic: bool, coverageComplete: bool)

  datatype SnapshotInput = SnapshotInput(header: Header, metrics: seq<Metric>, positions: seq<Position>,
      missing: seq<MissingFact>)

  datatype Snapshot = Snapshot(
    id: Uuid, version: string, header: Header,
    metrics: seq<Metric>, positions: seq<Position>, missing: seq<MissingFact>,
    payload: SnapshotPayload, checksum: string)

  predicate ValidHeader(p: Platform, h: Header) {
    && (h.source == LEGACY || h.source == LEDGER)
    && h.accountID != NIL
    && UtcMicrosecond(h.asOf) && UtcMicrosecond(h.observedAt) && h.asOf.nanos <= h.observedAt.nanos
    && ValidCurrency(h.currency)
    && NormalizedRequired(h.projectionVersion, 128) && NormalizedLower(p, h.markSource, 128)
      && NormalizedRequired(h.markNamespace, 256)
    && h.maxMarkAge > 0 && h.maxMarkAge % 1000 == 0
    && NormalizedRequired(h.captureFenceID, 256) && h.captureEpoch != 0
    && NormalizedRequired(h.evidenceID, 512) && ValidChecksum(h.evidenceChecksum)
  }

  predicate ValidMetric(m: Metric) {
    m.kind in REQUIRED_METRICS && ValidProvenance(m.provenance) && WithinContract(m.value)
  }

  predicate ValidPosition(x: Position) {
    x.instrumentID != NIL && ValidProvenance(x.provenance) && WithinContract(x.quantity)
  }

  predicate ValidMissing(p: Platform, m: MissingFact) {
    ValidFactKey(p, m.factKey) && ValidReason(m.reasonCode) && NormalizedRequired(m.evidenceRef, 512)
  }

  function KindOf(m: Metric): string { m.kind }
  function MetricKey(m: Metric): string { MetricFactKey(m.kind) }
  function InstrumentText(x: Position): string { Uuids.Print(x.instrumentID) }
  function PositionKey(x: Position): string { PositionFactKey(x.instrumentID) }
  function MissingKey(m: MissingFact): string { m.factKey }

  /** The fact keys a snapshot gives a value for. */
  ghost function PresentKeys(metrics: seq<Metric>, positions: seq<Position>): set<string> {
    KeySet(metrics, MetricKey) + KeySet(positions, PositionKey)
  }

  /** Facts are well formed, and no fact is given twice or both given and declared missing. */
  ghost predicate ConsistentFacts(p: Platform, input: SnapshotInput) {
    && (forall m :: m in input.metrics ==> ValidMetric(m))
    && DistinctKeys(input.metrics, MetricKey)
    && (forall x :: x in input.positions ==> ValidPosition(x))
    && DistinctKeys(input.positions, PositionKey)
    && (forall m :: m in input.missing ==>
      ValidMissing(p, m) && m.factKey !in PresentKeys(input.metrics, input.positions))
    && DistinctKeys(input.missing, MissingKey)
  }

  /** What NewSnapshot accepts, stated without an order on the lists. */
  ghost predicate Admissible(p: Platform, input: SnapshotInput) {
    ValidHeader(p, input.header) && ConsistentFacts(p, input)
  }

  // ---------------------------------------------------------------- payload

  function MetricText(m: Metric): MetricPayload { MetricPayload(m.kind, Decimals.Print(m.value), m.provenance) }
  function PositionText(x: Position): PositionPayload {
    PositionPayload(Uuids.Print(x.instrumentID), Decimals.Print(x.quantity), x.provenance)
  }
  function MissingText(m: MissingFact): MissingPayload { MissingPayload(m.factKey, m.reasonCode, m.evidenceRef) }

  function PayloadFor(version: string, h: Header, metrics: seq<Metric>, positions: seq<Position>,
      missing: seq<MissingFact>): SnapshotPayload {
    SnapshotPayload(
      version, h.source, Uuids.Print(h.accountID), Timestamps.Print(h.asOf), Timestamps.Print(h.observedAt), h.currency,
      h.projectionVersion, h.markSource, h.markNamespace, Microseconds(h.maxMarkAge),
      h.captureFenceID, h.captureEpoch, h.evidenceID, h.evidenceChecksum, h.synthetic, h.coverageComplete,
      Map(MetricText, metrics), Map(PositionText, positions), Map(MissingText, missing))
  }

  function CanonicalPayload(s: Snapshot): SnapshotPayload {
    PayloadFor(s.version, s.header, s.metrics, s.positions, s.missing)
  }

  function SnapshotID(p: Platform, version: string, h: Header, checksum: string): Uuid {
    p.identify("accounting-reconciliation-snapshot", [version, h.source, Uuids.Print(h.accountID), checksum])
  }

  /** The lists as given, with the payload they print to and the identity of that payload. */
  function Assemble(p: Platform, h: Header, metrics: seq<Metric>, positions: seq<Position>,
      missing: seq<MissingFact>): Snapshot {
    var payload := PayloadFor(SNAPSHOT_VERSION, h, metrics, positions, missing);
    var checksum := p.digest(SnapshotDocument(payload));
    Snapshot(SnapshotID(p, SNAPSHOT_VERSION, h, checksum), SNAPSHOT_VERSION, h, metrics, positions, missing, payload,
      checksum)
  }

  /** The snapshot of an input has each list in key order. */
  function Build(p: Platform, input: SnapshotInput): Snapshot {
    Assemble(p, input.header, SortBy(input.metrics, KindOf), SortBy(input.positions, InstrumentText),
      SortBy(input.missing, MissingKey))
  }

  // ---------------------------------------------------------------- construction

  method CollectMetrics(input: seq<Metric>) returns (ok: bool, keys: set<string>, metrics: seq<Metric>)
    ensures ok <==> (forall m :: m in input ==> ValidMetric(m)) && DistinctKeys(input, MetricKey)
    ensures ok ==> keys == KeySet(input, MetricKey) && metrics == SortBy(input, KindOf)
  {
    hide ValidMetric, SortBy;
    keys, metrics := {}, [];
    for i := 0 to |input|
      invariant metrics == input[..i]
      invariant keys == KeySet(metrics, MetricKey) && DistinctKeys(metrics, MetricKey)
      invariant forall j :: 0 <= j < i ==> ValidMetric(input[j])
    {
      DistinctSnoc(input, i, MetricKey);
      if !ValidMetric(input[i]) || MetricKey(input[i]) in keys { return false, keys, metrics; }
      keys := keys + {MetricKey(input[i])};
      metrics := metrics + [input[i]];
    }
    assert metrics == input;
    return true, keys, SortBy(metrics, KindOf);
  }

  method CollectPositions(input: seq<Position>) returns (ok: bool, keys: set<string>, positions: seq<Position>)
    ensures ok <==> (forall x :: x in input ==> ValidPosition(x)) && DistinctKeys(input, PositionKey)
    ensures ok ==> keys == KeySet(input, PositionKey) && positions == SortBy(input, InstrumentText)
  {
    hide ValidPosition, PositionFactKey, SortBy;
    keys, positions := {}, [];
    for i := 0 to |input|
      invariant positions == input[..i]
      invariant keys == KeySet(positions, PositionKey) && DistinctKeys(positions, PositionKey)
      invariant forall j :: 0 <= j < i ==> ValidPosition(input[j])
    {
      DistinctSnoc(input, i, PositionKey);
      if !ValidPosition(input[i]) || PositionKey(input[i]) in keys { return false, keys, positions; }
      keys := keys + {PositionKey(input[i])};
      positions := positions + [input[i]];
    }
    assert positions == input;
    return true, keys, SortBy(positions, InstrumentText);
  }

  method CollectMissing(p: Platform, input: seq<MissingFact>, present: set<string>)
    returns (ok: bool, missing: seq<MissingFact>)
    ensures ok <==> (forall m :: m in input ==>
      ValidMissing(p, m) && m.factKey !in present) && DistinctKeys(input, MissingKey)
    ensures ok ==> missing == SortBy(input, MissingKey)
  {
    hide ValidMissing, SortBy;
    var keys: set<string> := {};
    missing := [];
    for i := 0 to |input|
      invariant missing == input[..i]
      invariant keys == KeySet(missing, MissingKey) && DistinctKeys(missing, MissingKey)
      invariant forall j :: 0 <= j < i ==> ValidMissing(p, input[j]) && input[j].factKey !in present
    {
      DistinctSnoc(input, i, MissingKey);
      if !ValidMissing(p, input[i]) || input[i].factKey in present || input[i].factKey in keys {
        return false, missing;
      }
      keys := keys + {input[i].factKey};
      missing := missing + [input[i]];
    }
    assert missing == input;
    return true, SortBy(missing, MissingKey);
  }

  method CollectFacts(p: Platform, input: SnapshotInput)
    returns (ok: bool, metrics: seq<Metric>, positions: seq<Position>, missing: seq<MissingFact>)
    ensures ok <==> ConsistentFacts(p, input)
    ensures ok ==>
      metrics == SortBy(input.metrics, KindOf) && positions == SortBy(input.positions, InstrumentText)
      && missing == SortBy(input.missing, MissingKey)
  {
    positions, missing := [], [];
    var metricKeys, positionKeys;
    ok, metricKeys, metrics := CollectMetrics(input.metrics);
    if !ok { return; }
    ok, positionKeys, positions := CollectPositions(input.positions);
    if !ok { return; }
    ok, missing := CollectMissing(p, input.missing, metricKeys + positionKeys);
  }

  method NewSnapshot(p: Platform, input: SnapshotInput) returns (r: Option<Snapshot>)
    ensures r == if Admissible(p, input) then Some(Build(p, input)) else None
  {
    if !ValidHeader(p, input.header) { return None; }
    var ok, metrics, positions, missing := CollectFacts(p, input);
    if !ok { return None; }
    r := Some(Assemble(p, input.header, metrics, positions, missing));
  }

  // ---------------------------------------------------------------- canonical order

  lemma DistinctMetrics(ms: seq<Metric>)
    ensures DistinctKeys(ms, MetricKey) <==> DistinctKeys(ms, KindOf)
  {
    forall i, j | 0 <= i < j < |ms| ensures MetricKey(ms[i]) != MetricKey(ms[j]) <==> KindOf(ms[i]) != KindOf(ms[j]) {
      if MetricKey(ms[i]) == MetricKey(ms[j]) { MetricFactKeyInjective(ms[i].kind, ms[j].kind); }
    }
  }

  lemma DistinctPositions(xs: seq<Position>)
    ensures DistinctKeys(xs, PositionKey) <==> DistinctKeys(xs, InstrumentText)
  {
    forall i, j | 0 <= i < j < |xs|
      ensures PositionKey(xs[i]) != PositionKey(xs[j]) <==> InstrumentText(xs[i]) != InstrumentText(xs[j]) {
      if PositionKey(xs[i]) == PositionKey(xs[j]) { PositionFactKeyInjective(xs[i].instrumentID, xs[j].instrumentID); }
      if InstrumentText(xs[i]) == InstrumentText(xs[j]) {
        Uuids.PrintInjective(xs[i].instrumentID, xs[j].instrumentID);
      }
    }
  }

  lemma KeySetPermutes<T>(xs: seq<T>, ys: seq<T>, key: T -> string)
    requires multiset(xs) == multiset(ys)
    ensures KeySet(xs, key) == KeySet(ys, key)
  {
    MultisetMembers(xs, ys);
    forall s ensures s in KeySet(xs, key) <==> s in KeySet(ys, key) {
      if s in KeySet(xs, key) {
        var i :| 0 <= i < |xs| && key(xs[i]) == s;
        assert xs[i] in multiset(ys);
      }
      if s in KeySet(ys, key) {
        var i :| 0 <= i < |ys| && key(ys[i]) == s;
        assert ys[i] in multiset(xs);
      }
    }
  }

  /** Permuting the lists changes neither whether an input is accepted nor the snapshot. */
  lemma OrderIndependent(p: Platform, a: SnapshotInput, b: SnapshotInput)
    requires a.header == b.header
    requires multiset(a.metrics) == multiset(b.metrics)
    requires multiset(a.positions) == multiset(b.positions)
    requires multiset(a.missing) == multiset(b.missing)
    ensures Admissible(p, a) <==> Admissible(p, b)
    ensures Admissible(p, a) ==> Build(p, a) == Build(p, b)
  {
    if Admissible(p, a) { PermutationAdmissible(p, a, b); }
    if Admissible(p, b) { PermutationAdmissible(p, b, a); }
    if Admissible(p, a) {
      DistinctMetrics(a.metrics);
      SortUnique(a.metrics, b.metrics, KindOf);
      DistinctPositions(a.positions);
      SortUnique(a.positions, b.positions, InstrumentText);
      SortUnique(a.missing, b.missing, MissingKey);
    }
  }

  lemma PermutationAdmissible(p: Platform, a: SnapshotInput, b: SnapshotInput)
    requires a.header == b.header
    requires multiset(a.metrics) == multiset(b.metrics)
    requires multiset(a.positions) == multiset(b.positions)
    requires multiset(a.missing) == multiset(b.missing)
    requires Admissible(p, a)
    ensures Admissible(p, b)
  {
    MultisetMembers(a.metrics, b.metrics);
    MultisetMembers(a.positions, b.positions);
    MultisetMembers(a.missing, b.missing);
    DistinctPermutes(a.metrics, b.metrics, MetricKey);
    DistinctPermutes(a.positions, b.positions, PositionKey);
    DistinctPermutes(a.missing, b.missing, MissingKey);
    KeySetPermutes(a.metrics, b.metrics, MetricKey);
    KeySetPermutes(a.positions, b.positions, PositionKey);
  }

  /** What holds of every snapshot the constructor returns. */
  ghost predicate InCanonicalForm(s: Snapshot) {
    && StrictlySorted(s.metrics, KindOf) && StrictlySorted(s.positions, InstrumentText)
      && StrictlySorted(s.missing, MissingKey)
    && (forall m :: m in s.missing ==> m.factKey !in PresentKeys(s.metrics, s.positions))
  }

  lemma BuildCanonical(p: Platform, input: SnapshotInput)
    requires Admissible(p, input)
    ensures InCanonicalForm(Build(p, input))
    ensures Admissible(p, InputOf(Build(p, input))) && Build(p, InputOf(Build(p, input))) == Build(p, input)
  {
    var s := Build(p, input);
    SortMultiset(input.metrics, KindOf);
    SortMultiset(input.positions, InstrumentText);
    SortMultiset(input.missing, MissingKey);
    OrderIndependent(p, input, InputOf(s));
    DistinctMetrics(input.metrics);
    DistinctPositions(input.positions);
    SortSorted(input.metrics, KindOf);
    SortSorted(input.positions, InstrumentText);
    SortSorted(input.missing, MissingKey);
  }

  // ---------------------------------------------------------------- validation

  function InputOf(s: Snapshot): SnapshotInput { SnapshotInput(s.header, s.metrics, s.positions, s.missing) }

  /** Snapshot.Validate: the fields print to the stored payload, and rebuilding gives the stored identity. */
  ghost predicate Validates(p: Platform, s: Snapshot) {
    && CanonicalPayload(s) == s.payload
    && Admissible(p, InputOf(s))
    && Build(p, InputOf(s)).id == s.id
    && Build(p, InputOf(s)).checksum == s.checksum
    && Build(p, InputOf(s)).payload == s.payload
  }

  lemma MetricTextInjective(xs: seq<Metric>, ys: seq<Metric>)
    requires Map(MetricText, xs) == Map(MetricText, ys)
    ensures xs == ys
  {
    assert |xs| == |Map(MetricText, xs)| == |ys|;
    forall i | 0 <= i < |xs| ensures xs[i] == ys[i] {
      assert MetricText(xs[i]) == Map(MetricText, xs)[i] == MetricText(ys[i]);
      Decimals.PrintInjective(xs[i].value, ys[i].value);
    }
  }

  lemma PositionTextInjective(xs: seq<Position>, ys: seq<Position>)
    requires Map(PositionText, xs) == Map(PositionText, ys)
    ensures xs == ys
  {
    assert |xs| == |Map(PositionText, xs)| == |ys|;
    forall i | 0 <= i < |xs| ensures xs[i] == ys[i] {
      assert PositionText(xs[i]) == Map(PositionText, xs)[i] == PositionText(ys[i]);
      Uuids.PrintInjective(xs[i].instrumentID, ys[i].instrumentID);
      Decimals.PrintInjective(xs[i].quantity, ys[i].quantity);
    }
  }

  lemma MissingTextInjective(xs: seq<MissingFact>, ys: seq<MissingFact>)
    requires Map(MissingText, xs) == Map(MissingText, ys)
    ensures xs == ys
  {
    assert |xs| == |Map(MissingText, xs)| == |ys|;
    forall i | 0 <= i < |xs| ensures xs[i] == ys[i] {
      assert MissingText(xs[i]) == Map(MissingText, xs)[i] == MissingText(ys[i]);
    }
  }

  /** Validation is exact: a snapshot validates exactly when it is what the constructor would rebuild. */
  lemma ValidateExact(p: Platform, s: Snapshot)
    ensures Validates(p, s) <==> Admissible(p, InputOf(s)) && s == Build(p, InputOf(s))
    ensures Validates(p, s) ==> InCanonicalForm(s)
  {
    if Validates(p, s) {
      var b := Build(p, InputOf(s));
      assert b.payload == PayloadFor(b.version, b.header, b.metrics, b.positions, b.missing);
      MetricTextInjective(s.metrics, b.metrics);
      PositionTextInjective(s.positions, b.positions);
      MissingTextInjective(s.missing, b.missing);
      BuildCanonical(p, InputOf(s));
    }
  }

  lemma BuildValidates(p: Platform, input: SnapshotInput)
    requires Admissible(p, input)
    ensures Validates(p, Build(p, input))
  {
    BuildCanonical(p, input);
    ValidateExact(p, Build(p, input));
  }

  /** The payload determines a validating snapshot. */
  lemma PayloadDetermines(p: Platform, a: Snapshot, b: Snapshot)
    requires Validates(p, a) && Validates(p, b) && a.payload == b.payload
    ensures a == b
  {
    HeaderPrinted(p, a);
    HeaderPrinted(p, b);
    FieldsDetermined(a, b);
    IdentityFromPayload(p, a, b);
  }

  lemma FieldsDetermined(a: Snapshot, b: Snapshot)
    requires CanonicalPayload(a) == CanonicalPayload(b)
    requires UtcMicrosecond(a.header.asOf) && UtcMicrosecond(a.header.observedAt) && a.header.maxMarkAge > 0
      && a.header.maxMarkAge % 1000 == 0
    requires UtcMicrosecond(b.header.asOf) && UtcMicrosecond(b.header.observedAt) && b.header.maxMarkAge > 0
      && b.header.maxMarkAge % 1000 == 0
    ensures a.header == b.header && a.metrics == b.metrics && a.positions == b.positions && a.missing == b.missing
  {
    hide Uuids.Print, Timestamps.Print, MetricText, PositionText, MissingText, Map;
    Uuids.PrintInjective(a.header.accountID, b.header.accountID);
    Timestamps.PrintDetermines(a.header.asOf, b.header.asOf);
    Timestamps.PrintDetermines(a.header.observedAt, b.header.observedAt);
    MetricTextInjective(a.metrics, b.metrics);
    PositionTextInjective(a.positions, b.positions);
    MissingTextInjective(a.missing, b.missing);
  }

  lemma HeaderPrinted(p: Platform, s: Snapshot)
    requires Validates(p, s)
    ensures s.payload == CanonicalPayload(s) && s.version == SNAPSHOT_VERSION
    ensures UtcMicrosecond(s.header.asOf) && UtcMicrosecond(s.header.observedAt)
    ensures s.header.maxMarkAge > 0 && s.header.maxMarkAge % 1000 == 0
  {
    ValidateExact(p, s);
  }

  lemma IdentityFromPayload(p: Platform, a: Snapshot, b: Snapshot)
    requires Validates(p, a) && Validates(p, b) && a.header == b.header
    requires a.metrics == b.metrics && a.positions == b.positions && a.missing == b.missing
    ensures a == b
  {
    ValidateExact(p, a);
    ValidateExact(p, b);
    hide Validates, Build;
  }
}

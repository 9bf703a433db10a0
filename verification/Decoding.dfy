/** Reading evidence back from its payload (decode.go). */
module Decoding {
  import opened Text
  import opened Decimals
  import opened Uuids
  import opened Timestamps
  import opened Evidence
  import opened Snapshots
  import opened Comparisons
  import opened Comparing
  import opened RunValidation

  // ---------------------------------------------------------------- reading the fields

  function ReadMetrics(ms: seq<MetricPayload>): Option<seq<Metric>> {
    if ms == [] then Some([])
    else
      var n := |ms| - 1;
      match (ReadMetrics(ms[..n]), Decimals.Read(ms[n].value))
      case (Some(front), Some(value)) => Some(front + [Metric(ms[n].kind, value, ms[n].provenance)])
      case _ => None
  }

  function ReadPositions(xs: seq<PositionPayload>): Option<seq<Position>> {
    if xs == [] then Some([])
    else
      var n := |xs| - 1;
      match (ReadPositions(xs[..n]), Uuids.Read(xs[n].instrumentID), Decimals.Read(xs[n].quantity))
      case (Some(front), Some(id), Some(quantity)) => Some(front + [Position(id, quantity, xs[n].provenance)])
      case _ => None
  }

  function ReadMissing(m: MissingPayload): MissingFact { MissingFact(m.factKey, m.reasonCode, m.evidenceRef) }

  function ReadHeader(payload: SnapshotPayload): Option<Header> {
    match (Uuids.Read(payload.accountID), Timestamps.Read(payload.asOf), Timestamps.Read(payload.observedAt))
    case (Some(account), Some(asOf), Some(observedAt)) =>
      Some(Header(payload.source, account, asOf, observedAt, payload.currency, payload.projectionVersion,
        payload.markSource, payload.markNamespace,
                  Wrap(payload.maxMarkAgeMicros * 1000), payload.captureFenceID, payload.captureEpoch,
                    payload.evidenceID, payload.evidenceChecksum,
                  payload.synthetic, payload.coverageComplete))
    case _ => None
  }

  function ReadInput(payload: SnapshotPayload): Option<SnapshotInput> {
    match (ReadHeader(payload), ReadMetrics(payload.metrics), ReadPositions(payload.positions))
    case (Some(h), Some(metrics), Some(positions)) => Some(SnapshotInput(h, metrics, positions,
      Map(ReadMissing, payload.missing)))
    case _ => None
  }

  /** The snapshot a payload denotes: its fields read and rebuild to that very payload. */
  ghost function Decoded(p: Platform, payload: SnapshotPayload): Option<Snapshot> {
    match ReadInput(payload)
    case None => None
    case Some(input) =>
      if payload.version == SNAPSHOT_VERSION && Admissible(p, input)
        && Build(p, input).payload == payload then Some(Build(p, input)) else None
  }

  method DecodeSnapshot(p: Platform, payload: SnapshotPayload) returns (r: Option<Snapshot>)
    ensures r == Decoded(p, payload)
  {
    hide Admissible, Build, ReadHeader, Decimals.Read, Uuids.Read;
    if payload.version != SNAPSHOT_VERSION { return None; }
    var header := ReadHeader(payload);
    if header.None? { return None; }
    var metrics: seq<Metric> := [];
    for i := 0 to |payload.metrics|
      invariant ReadMetrics(payload.metrics[..i]) == Some(metrics)
    {
      assert payload.metrics[..i + 1][..i] == payload.metrics[..i];
      var value := Decimals.Read(payload.metrics[i].value);
      if value.None? {
        UnreadableMetric(payload.metrics, i);
        return None;
      }
      metrics := metrics + [Metric(payload.metrics[i].kind, value.value, payload.metrics[i].provenance)];
    }
    assert payload.metrics[..|payload.metrics|] == payload.metrics;
    var positions: seq<Position> := [];
    for i := 0 to |payload.positions|
      invariant ReadPositions(payload.positions[..i]) == Some(positions)
    {
      assert payload.positions[..i + 1][..i] == payload.positions[..i];
      var id, quantity := Uuids.Read(payload.positions[i].instrumentID), Decimals.Read(payload.positions[i].quantity);
      if id.None? || quantity.None? {
        UnreadablePosition(payload.positions, i);
        return None;
      }
      positions := positions + [Position(id.value, quantity.value, payload.positions[i].provenance)];
    }
    assert payload.positions[..|payload.positions|] == payload.positions;
    var input := SnapshotInput(header.value, metrics, positions, Map(ReadMissing, payload.missing));
    assert ReadInput(payload) == Some(input);
    var snapshot := NewSnapshot(p, input);
    if snapshot.None? || snapshot.value.payload != payload { return None; }
    return snapshot;
  }

  lemma {:induction false} UnreadableMetric(ms: seq<MetricPayload>, i: nat)
    requires i < |ms| && Decimals.Read(ms[i].value).None?
    ensures ReadMetrics(ms).None?
  {
    hide Decimals.Read;
    if i < |ms| - 1 { UnreadableMetric(ms[..|ms| - 1], i); }
  }

  lemma {:induction false} UnreadablePosition(xs: seq<PositionPayload>, i: nat)
    requires i < |xs| && (Uuids.Read(xs[i].instrumentID).None? || Decimals.Read(xs[i].quantity).None?)
    ensures ReadPositions(xs).None?
  {
    hide Decimals.Read, Uuids.Read;
    if i < |xs| - 1 { UnreadablePosition(xs[..|xs| - 1], i); }
  }

  // ---------------------------------------------------------------- snapshot round trip

  lemma {:induction false} ReadMetricsBack(ms: seq<Metric>)
    ensures ReadMetrics(Map(MetricText, ms)) == Some(ms)
  {
    hide Decimals.Read, Decimals.Print;
    if ms != [] {
      var n := |ms| - 1;
      ReadMetricsBack(ms[..n]);
      Decimals.ReadPrint(ms[n].value);
      assert Map(MetricText, ms)[..n] == Map(MetricText, ms[..n]);
      assert ms == ms[..n] + [ms[n]];
    }
  }

  lemma {:induction false} ReadPositionsBack(xs: seq<Position>)
    ensures ReadPositions(Map(PositionText, xs)) == Some(xs)
  {
    hide Decimals.Read, Decimals.Print, Uuids.Read, Uuids.Print;
    if xs != [] {
      var n := |xs| - 1;
      ReadPositionsBack(xs[..n]);
      Uuids.ReadPrint(xs[n].instrumentID);
      Decimals.ReadPrint(xs[n].quantity);
      assert Map(PositionText, xs)[..n] == Map(PositionText, xs[..n]);
      assert xs == xs[..n] + [xs[n]];
    }
  }

  lemma ReadMissingBack(ms: seq<MissingFact>)
    ensures Map(ReadMissing, Map(MissingText, ms)) == ms
  {
  }

  predicate FourDigitYear(t: Time) { 0 <= Year(t) <= 9999 }

  lemma ReadTimeBack(t: Time)
    requires UtcMicrosecond(t)
    ensures Timestamps.Read(Timestamps.Print(t)) == if FourDigitYear(t) then Some(t) else None
  {
    hide Timestamps.Read, Timestamps.Print, UtcMicrosecond;
    Timestamps.ReadPrint(t);
  }

  lemma ReadHeaderBack(h: Header, payload: SnapshotPayload)
    requires UtcMicrosecond(h.asOf) && UtcMicrosecond(h.observedAt) && h.maxMarkAge > 0 && h.maxMarkAge % 1000 == 0
    requires payload == PayloadFor(payload.version, h, [], [], []).(metrics := payload.metrics,
      positions := payload.positions, missing := payload.missing)
    ensures ReadHeader(payload) == if FourDigitYear(h.asOf) && FourDigitYear(h.observedAt) then Some(h) else None
  {
    hide Uuids.Read, Uuids.Print, Timestamps.Read, Timestamps.Print, UtcMicrosecond, FourDigitYear;
    Uuids.ReadPrint(h.accountID);
    ReadTimeBack(h.asOf);
    ReadTimeBack(h.observedAt);
    assert Wrap(Microseconds(h.maxMarkAge) * 1000) == h.maxMarkAge;
  }

  /** The years in which a snapshot's times can be read back. */
  predicate ReadableYears(h: Header) { FourDigitYear(h.asOf) && FourDigitYear(h.observedAt) }

  /** A validating snapshot decodes to itself exactly when its years have four digits. */
  lemma SnapshotRoundTrip(p: Platform, s: Snapshot)
    requires Validates(p, s)
    ensures Decoded(p, s.payload) == if ReadableYears(s.header) then Some(s) else None
  {
    hide Admissible, Build, ReadHeader, UtcMicrosecond, FourDigitYear, Uuids.Print, Timestamps.Print, MetricText,
      PositionText, MissingText;
    ValidateExact(p, s);
    HeaderPrinted(p, s);
    ReadMetricsBack(s.metrics);
    ReadPositionsBack(s.positions);
    ReadMissingBack(s.missing);
    ReadHeaderBack(s.header, s.payload);
  }

  /** Whatever decodes is a validating snapshot with that payload. */
  lemma SnapshotDecodeSound(p: Platform, payload: SnapshotPayload)
    ensures Decoded(p, payload).Some? ==>
      Validates(p, Decoded(p, payload).value) && Decoded(p, payload).value.payload == payload
                                          && ReadableYears(Decoded(p, payload).value.header)
  {
    hide Admissible, Build, ReadInput, Validates, ReadableYears;
    if Decoded(p, payload).Some? {
      BuildValidates(p, ReadInput(payload).value);
      SnapshotRoundTrip(p, Decoded(p, payload).value);
    }
  }

  /** A payload decodes exactly when it is that of some validating snapshot with readable years. */
  lemma SnapshotDecodeExact(p: Platform, payload: SnapshotPayload)
    ensures Decoded(p, payload).Some? <==>
      exists s :: Validates(p, s) && s.payload == payload && ReadableYears(s.header)
  {
    hide Decoded, Validates, ReadableYears;
    SnapshotDecodeSound(p, payload);
    if exists s :: Validates(p, s) && s.payload == payload && ReadableYears(s.header) {
      var s :| Validates(p, s) && s.payload == payload && ReadableYears(s.header);
      SnapshotRoundTrip(p, s);
    }
  }

  // ---------------------------------------------------------------- runs

  function ReadExplanation(e: ExplanationPayload): Option<Explanation> {
    match Timestamps.Read(e.reviewedAt)
    case None => None
    case Some(t) => Some(Explanation(e.factKey, e.code, e.rationale, e.evidenceRef, e.evidenceChecksum, e.generator,
      e.reviewer, t))
  }

  function ReadExplanations(rs: seq<ResultPayload>): Option<seq<Explanation>> {
    if rs == [] then Some([])
    else
      var n := |rs| - 1;
      match ReadExplanations(rs[..n])
      case None => None
      case Some(front) =>
        match rs[n].explanation
        case None => Some(front)
        case Some(e) => (match ReadExplanation(e) case None => None case Some(x) => Some(front + [x]))
  }

  ghost function ReadRunInput(p: Platform, payload: RunPayload): Option<ComparisonInput> {
    match (Decoded(p, payload.legacySnapshot), Decoded(p, payload.ledgerSnapshot), Timestamps.Read(payload.generatedAt),
      ReadExplanations(payload.results))
    case (Some(legacy), Some(ledger), Some(generatedAt),
      Some(es)) => Some(ComparisonInput(legacy, ledger, payload.generator, generatedAt, es))
    case _ => None
  }

  ghost function DecodedRun(p: Platform, payload: RunPayload): Option<Run> {
    match ReadRunInput(p, payload)
    case None => None
    case Some(input) =>
      if payload.version == COMPARISON_VERSION && payload.policyVersion == POLICY_VERSION && Comparable(p, input)
        && BuildRun(p, input).payload == payload
      then Some(BuildRun(p, input)) else None
  }

  method DecodeRun(p: Platform, payload: RunPayload) returns (r: Option<Run>)
    ensures r == DecodedRun(p, payload)
  {
    hide Decoded, Comparable, BuildRun, ReadExplanation, Timestamps.Read;
    if payload.version != COMPARISON_VERSION || payload.policyVersion != POLICY_VERSION { return None; }
    var legacy := DecodeSnapshot(p, payload.legacySnapshot);
    if legacy.None? { return None; }
    var ledger := DecodeSnapshot(p, payload.ledgerSnapshot);
    if ledger.None? { return None; }
    var generatedAt := Timestamps.Read(payload.generatedAt);
    if generatedAt.None? { return None; }
    var explanations: seq<Explanation> := [];
    for i := 0 to |payload.results|
      invariant ReadExplanations(payload.results[..i]) == Some(explanations)
    {
      assert payload.results[..i + 1][..i] == payload.results[..i];
      if payload.results[i].explanation.Some? {
        var e := ReadExplanation(payload.results[i].explanation.value);
        if e.None? {
          UnreadableExplanation(payload.results, i);
          return None;
        }
        explanations := explanations + [e.value];
      }
    }
    assert payload.results[..|payload.results|] == payload.results;
    var run := Compare(p, legacy, ledger, payload.generator, generatedAt.value, explanations);
    if run.None? || run.value.payload != payload { return None; }
    return run;
  }

  lemma {:induction false} UnreadableExplanation(rs: seq<ResultPayload>, i: nat)
    requires i < |rs| && rs[i].explanation.Some? && ReadExplanation(rs[i].explanation.value).None?
    ensures ReadExplanations(rs).None?
  {
    hide ReadExplanation;
    if i < |rs| - 1 { UnreadableExplanation(rs[..|rs| - 1], i); }
  }

  lemma {:induction false} ReadExplanationsBack(rs: seq<Result>)
    requires forall i :: 0 <= i < |rs| && rs[i].explanation.Some? ==>
      UtcMicrosecond(rs[i].explanation.value.reviewedAt) && FourDigitYear(rs[i].explanation.value.reviewedAt)
    ensures ReadExplanations(Map(ResultText, rs)) == Some(ExplanationsOf(rs))
  {
    hide Timestamps.Read, Timestamps.Print, UtcMicrosecond, FourDigitYear, Uuids.Print, TextOptional;
    if rs != [] {
      var n := |rs| - 1;
      ReadExplanationsBack(rs[..n]);
      assert Map(ResultText, rs)[..n] == Map(ResultText, rs[..n]);
      assert Map(ResultText, rs)[n] == ResultText(rs[n]);
      if rs[n].explanation.Some? {
        ReadTimeBack(rs[n].explanation.value.reviewedAt);
        assert ReadExplanation(ExplanationText(rs[n].explanation.value)) == rs[n].explanation;
      } else {
        assert ExplanationsOf(rs[..n]) + [] == ExplanationsOf(rs[..n]);
      }
    }
  }

  /** The first and last times of a run have four-digit years. */
  predicate ReadableRun(input: ComparisonInput) {
    0 <= Year(input.legacy.header.asOf) && Year(input.generatedAt) <= 9999
  }

  lemma BetweenYears(a: Time, t: Time, b: Time)
    requires UtcMicrosecond(a) && UtcMicrosecond(t) && UtcMicrosecond(b) && a.nanos <= t.nanos <= b.nanos
    ensures 0 <= Year(a) && Year(b) <= 9999 ==> FourDigitYear(t)
    ensures Year(a) <= Year(t) <= Year(b)
  {
    hide Year;
    YearMonotone(a, t);
    YearMonotone(t, b);
  }

  /** Every time in a run lies between its as-of and generation times. */
  lemma TimesInOrder(p: Platform, input: ComparisonInput)
    requires Comparable(p, input)
    ensures var a, g := input.legacy.header, input.ledger.header;
      && UtcMicrosecond(a.asOf) && UtcMicrosecond(a.observedAt) && UtcMicrosecond(g.asOf)
        && UtcMicrosecond(g.observedAt) && UtcMicrosecond(input.generatedAt)
      && a.asOf == g.asOf && a.asOf.nanos <= a.observedAt.nanos <= input.generatedAt.nanos
        && a.asOf.nanos <= g.observedAt.nanos <= input.generatedAt.nanos
      && forall e :: e in input.explanations ==>
        UtcMicrosecond(e.reviewedAt) && a.asOf.nanos <= e.reviewedAt.nanos <= input.generatedAt.nanos
  {
    hide ExplanationsUsable, NormalizedRequired, NormalizedLower, ValidFactKey, ValidChecksum, ValidCurrency, ValidCode,
      Build, CanonicalPayload, ConsistentFacts;
  }

  lemma ReadableTimes(p: Platform, input: ComparisonInput)
    requires Comparable(p, input)
    ensures ReadableRun(input) <==>
      ReadableYears(input.legacy.header) && ReadableYears(input.ledger.header) && FourDigitYear(input.generatedAt)
    ensures ReadableRun(input) ==> forall e :: e in input.explanations ==>
      UtcMicrosecond(e.reviewedAt) && FourDigitYear(e.reviewedAt)
  {
    hide Comparable, Year, UtcMicrosecond;
    TimesInOrder(p, input);
    var a, g := input.legacy.header, input.ledger.header;
    BetweenYears(a.asOf, a.asOf, input.generatedAt);
    BetweenYears(a.asOf, a.observedAt, input.generatedAt);
    BetweenYears(a.asOf, g.observedAt, input.generatedAt);
    BetweenYears(a.asOf, input.generatedAt, input.generatedAt);
    forall e | e in input.explanations
      ensures UtcMicrosecond(e.reviewedAt) && (ReadableRun(input) ==> FourDigitYear(e.reviewedAt)) {
      BetweenYears(a.asOf, e.reviewedAt, input.generatedAt);
    }
  }

  lemma PayloadParts(p: Platform, input: ComparisonInput)
    ensures var run := BuildRun(p, input);
      && run.payload.legacySnapshot == input.legacy.payload && run.payload.ledgerSnapshot == input.ledger.payload
      && run.payload.generatedAt == Timestamps.Print(input.generatedAt) && run.payload.generator == input.generator
      && run.payload.results == Map(ResultText, run.body.results)
      && run.payload.version == COMPARISON_VERSION && run.payload.policyVersion == POLICY_VERSION
  {
    hide ResultsFor, RunID, CountStatus, Timestamps.Print, Uuids.Print, ResultText;
  }

  lemma RunInputReadBack(p: Platform, input: ComparisonInput)
    requires Comparable(p, input)
    ensures ReadRunInput(p, BuildRun(p, input).payload) == if ReadableRun(input)
      then Some(InputOfRun(BuildRun(p, input).body)) else None
  {
    hide Comparable, BuildRun, Decoded, Validates, ReadableRun, ReadableYears, FourDigitYear, ResultText,
      Timestamps.Read, Timestamps.Print, ExplanationsOf, UtcMicrosecond;
    var run := BuildRun(p, input);
    ComparableSnapshots(p, input);
    PayloadParts(p, input);
    BuildShape(p, input);
    ReadableTimes(p, input);
    SnapshotRoundTrip(p, input.legacy);
    SnapshotRoundTrip(p, input.ledger);
    ReadTimeBack(input.generatedAt);
    if ReadableRun(input) {
      AttachedReadable(p, input);
      ReadExplanationsBack(run.body.results);
    }
  }

  lemma ComparableSnapshots(p: Platform, input: ComparisonInput)
    requires Comparable(p, input)
    ensures Validates(p, input.legacy) && Validates(p, input.ledger) && UtcMicrosecond(input.generatedAt)
  {
    hide Validates, ExplanationsUsable, ValidExplanations, NormalizedRequired, UtcMicrosecond, SameBoundary;
  }

  lemma AttachedReadable(p: Platform, input: ComparisonInput)
    requires Comparable(p, input) && ReadableRun(input)
    ensures forall i ::
      (0 <= i < |BuildRun(p, input).body.results| && BuildRun(p, input).body.results[i].explanation.Some?) ==>
        UtcMicrosecond(BuildRun(p, input).body.results[i].explanation.value.reviewedAt)
        && FourDigitYear(BuildRun(p, input).body.results[i].explanation.value.reviewedAt)
  {
    hide Comparable, BuildRun, ReadableRun, FourDigitYear, ExplanationsOf, UtcMicrosecond;
    ReadableTimes(p, input);
    AttachedExplanations(p, input);
    var rs := BuildRun(p, input).body.results;
    forall i | 0 <= i < |rs| && rs[i].explanation.Some?
      ensures UtcMicrosecond(rs[i].explanation.value.reviewedAt) && FourDigitYear(rs[i].explanation.value.reviewedAt)
    {
      ExplanationListed(rs, i);
      assert rs[i].explanation.value in multiset(ExplanationsOf(rs));
      assert rs[i].explanation.value in multiset(input.explanations);
    }
  }

  /** A constructed run decodes to itself exactly when its as-of year is not negative and its generation year has at
      most four digits. */
  lemma RunRoundTrip(p: Platform, input: ComparisonInput)
    requires Comparable(p, input)
    ensures DecodedRun(p, BuildRun(p, input).payload) == if ReadableRun(input) then Some(BuildRun(p, input)) else None
  {
    hide Comparable, BuildRun, ReadableRun, ReadRunInput, ExplanationsOf;
    RunInputReadBack(p, input);
    BuiltRunValidates(p, input);
    PayloadParts(p, input);
  }

  /** Whatever decodes is a validating run with that payload. */
  lemma RunDecodeSound(p: Platform, payload: RunPayload)
    ensures DecodedRun(p, payload).Some? ==>
      RunValidates(p, DecodedRun(p, payload).value) && DecodedRun(p, payload).value.payload == payload
  {
    hide Comparable, BuildRun, ReadRunInput, RunValidates;
    if DecodedRun(p, payload).Some? { BuiltRunValidates(p, ReadRunInput(p, payload).value); }
  }

  /** A payload decodes exactly when it is that of some comparison with readable years. */
  lemma RunDecodeExact(p: Platform, payload: RunPayload)
    ensures DecodedRun(p, payload).Some? <==>
      exists input :: Comparable(p, input) && ReadableRun(input) && BuildRun(p, input).payload == payload
  {
    hide Comparable, BuildRun, ReadableRun, ReadRunInput;
    if DecodedRun(p, payload).Some? {
      var input := ReadRunInput(p, payload).value;
      RunRoundTrip(p, input);
      assert ReadableRun(input);
    }
    if input :| Comparable(p, input) && ReadableRun(input) && BuildRun(p, input).payload == payload {
      RunRoundTrip(p, input);
    }
  }
}

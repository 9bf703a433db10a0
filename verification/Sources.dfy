/** The two captures that feed a comparison (source.go). */
module Sources {
  import opened Text
  import opened Digits
  import opened Decimals
  import opened Uuids
  import opened Timestamps
  import opened Evidence
  import opened Snapshots

  // ---------------------------------------------------------------- capture leases

  /** What a lease answers at one moment. */
  datatype Lease = Lease(accountID: Uuid, asOf: Time, acquiredAt: Time, fenceID: string, epoch: nat, active: bool,
      verified: bool)

  /** validateCaptureLease */
  predicate ValidLease(accountID: Uuid, asOf: Time, lease: Option<Lease>) {
    && lease.Some? && lease.value.verified && lease.value.active
    && lease.value.accountID == accountID && lease.value.asOf.nanos == asOf.nanos
    && NormalizedRequired(lease.value.fenceID, 256) && lease.value.epoch != 0
    && UtcMicrosecond(lease.value.acquiredAt) && asOf.nanos <= lease.value.acquiredAt.nanos
  }

  datatype SourceRequest = SourceRequest(
    accountID: Uuid, asOf: Time, projectionVersion: string, markSource: string, markNamespace: string,
      maxMarkAge: Duration)

  predicate ValidSourceLease(request: SourceRequest, lease: Option<Lease>) {
    request.accountID != NIL && !IsZero(request.asOf) && ValidLease(request.accountID, request.asOf, lease)
  }

  function TruncatedUtc(t: Time): Time { Time(t.nanos - t.nanos % 1000, 0) }

  // ---------------------------------------------------------------- legacy paper broker

  /** A float64 by the shortest decimal that denotes it. */
  datatype Float = NotFinite | Finite(value: Decimal)

  function ExactFloat(f: Float): Option<Decimal> {
    if f.Finite? && WithinContract(f.value) then Some(f.value) else None
  }

  datatype LegacyPosition = LegacyPosition(ticker: string, marketType: string, assetClass: string, side: string,
      quantity: Float)
  datatype LegacyCapture = LegacyCapture(
    currency: string, cash: Float, buyingPower: Float, equity: Float, positions: seq<LegacyPosition>, capturedAt: Time)

  /** Library functions and the identity resolver of the legacy source; a resolver error is None. */
  datatype LegacyTools = LegacyTools(
    platform: Platform, upper: string -> string, digestText: string -> string, digestCapture: LegacyCapture -> string,
    resolve: (LegacyPosition, Time) -> Option<Uuid>)

  predicate ReadablePosition(x: LegacyPosition) { ExactFloat(x.quantity).Some? && x.side in ["long", "short"] }

  function SignedQuantity(x: LegacyPosition): Decimal
    requires ReadablePosition(x)
  {
    if x.side == "long" then ExactFloat(x.quantity).value else Neg(ExactFloat(x.quantity).value)
  }

  predicate Resolved(t: LegacyTools, asOf: Time, x: LegacyPosition) {
    t.resolve(x, asOf).Some? && t.resolve(x, asOf).value != NIL
  }

  function PositionIdentity(x: LegacyPosition): string {
    var u := "\U{1F}";
    TrimSpace(x.ticker) + u + x.marketType + u + x.assetClass + u + x.side + u
      + (match x.quantity case NotFinite => "NaN" case Finite(v) => Decimals.Print(v))
  }

  function UnresolvedFact(t: LegacyTools, x: LegacyPosition): MissingFact {
    MissingFact("legacy_position:" + t.digestText(PositionIdentity(x)) + ":identity", "instrument_identity_unresolved",
                "legacy-paper-position:" + TrimSpace(x.ticker))
  }

  const LEGACY_GAPS := [
    MissingFact(MetricFactKey("fees"), SOURCE_UNAVAILABLE, "legacy-paper:fees-not-exposed"),
    MissingFact(MetricFactKey("realized_pnl"), SOURCE_UNAVAILABLE, "legacy-paper:realized-pnl-not-exposed"),
    MissingFact(MetricFactKey("unrealized_pnl"), SOURCE_UNAVAILABLE, "legacy-paper:unrealized-pnl-not-exposed")]

  /** Net quantity per resolved instrument. */
  function Totals(t: LegacyTools, asOf: Time, xs: seq<LegacyPosition>): map<Uuid, Decimal>
    requires forall x :: x in xs ==> ReadablePosition(x)
  {
    if xs == [] then map[]
    else
      var n := |xs| - 1;
      var prior := Totals(t, asOf, xs[..n]);
      if Resolved(t, asOf, xs[n]) then
        var id := t.resolve(xs[n], asOf).value;
        prior[id := Add(if id in prior then prior[id] else ZERO, SignedQuantity(xs[n]))]
      else prior
  }

  function Unresolved(t: LegacyTools, asOf: Time, xs: seq<LegacyPosition>): seq<MissingFact> {
    if xs == [] then []
    else
      var n := |xs| - 1;
      Unresolved(t, asOf, xs[..n]) + (if Resolved(t, asOf, xs[n]) then [] else [UnresolvedFact(t, xs[n])])
  }

  /** The signed units of 10^-k that a list holds of one instrument. */
  ghost function NetUnits(t: LegacyTools, asOf: Time, xs: seq<LegacyPosition>, id: Uuid, k: nat): int
    requires forall x :: x in xs ==> ReadablePosition(x) && SignedQuantity(x).scale <= k
  {
    if xs == [] then 0
    else
      var n := |xs| - 1;
      NetUnits(t, asOf, xs[..n], id, k) + (if t.resolve(xs[n], asOf) == Some(id) &&
        id != NIL then Units(SignedQuantity(xs[n]), k) else 0)
  }

  /** No quantity is lost: each instrument's total is the exact sum of the positions that resolve to it. */
  lemma {:induction false} TotalsConserve(t: LegacyTools, asOf: Time, xs: seq<LegacyPosition>, id: Uuid, k: nat)
    requires forall x :: x in xs ==> ReadablePosition(x) && SignedQuantity(x).scale <= k
    ensures var totals := Totals(t, asOf, xs);
      if id in totals then totals[id].scale <= k
        && Units(totals[id], k) == NetUnits(t, asOf, xs, id, k) else NetUnits(t, asOf, xs, id, k) == 0
  {
    hide Add, Units, SignedQuantity, ReadablePosition;
    if xs != [] {
      var n := |xs| - 1;
      TotalsConserve(t, asOf, xs[..n], id, k);
      var prior := Totals(t, asOf, xs[..n]);
      ZeroUnits(k);
      if t.resolve(xs[n], asOf) == Some(id) && id != NIL {
        AddUnits(if id in prior then prior[id] else ZERO, SignedQuantity(xs[n]), k);
      }
    }
  }

  lemma ZeroUnits(k: nat)
    ensures ZERO.scale <= k && Units(ZERO, k) == 0
  {
  }

  ghost predicate Lists(totals: map<Uuid, Decimal>, xs: seq<Position>) {
    && DistinctKeys(xs, InstrumentText)
    && forall x :: x in xs <==>
      x.instrumentID in totals && x == Position(x.instrumentID, totals[x.instrumentID], "binary_float")
  }

  /** The totals as a list; the order does not matter to a snapshot. */
  ghost function PositionsOf(totals: map<Uuid, Decimal>): (xs: seq<Position>)
    ensures Lists(totals, xs)
  {
    ListingExists(totals);
    var xs :| Lists(totals, xs);
    xs
  }

  lemma {:induction false} ListingExists(totals: map<Uuid, Decimal>)
    ensures exists xs :: Lists(totals, xs)
    decreases |totals|
  {
    if totals == map[] {
      assert Lists(totals, []);
    } else {
      var id :| id in totals;
      var rest := totals - {id};
      ListingExists(rest);
      var xs :| Lists(rest, xs);
      ListOneMore(totals, rest, xs, id);
    }
  }

  lemma ListOneMore(totals: map<Uuid, Decimal>, rest: map<Uuid, Decimal>, xs: seq<Position>, id: Uuid)
    requires id in totals && rest == totals - {id} && Lists(rest, xs)
    ensures Lists(totals, xs + [Position(id, totals[id], "binary_float")])
  {
    hide InstrumentText;
    var x := Position(id, totals[id], "binary_float");
    var ys := xs + [x];
    forall i | 0 <= i < |xs| ensures InstrumentText(xs[i]) != InstrumentText(x) {
      assert xs[i] in xs;
      DistinctInstruments(xs[i], x);
    }
    assert DistinctKeys(ys, InstrumentText);
  }

  lemma DistinctInstruments(x: Position, y: Position)
    requires x.instrumentID != y.instrumentID
    ensures InstrumentText(x) != InstrumentText(y)
  {
    hide Uuids.Print;
    if InstrumentText(x) == InstrumentText(y) { Uuids.PrintInjective(x.instrumentID, y.instrumentID); }
  }

  /** The capture can be read at all. */
  predicate LegacyReadable(request: SourceRequest, capture: LegacyCapture) {
    && !IsZero(capture.capturedAt) && request.asOf.nanos <= TruncatedUtc(capture.capturedAt).nanos
    && ExactFloat(capture.cash).Some? && ExactFloat(capture.buyingPower).Some? && ExactFloat(capture.equity).Some?
    && forall x :: x in capture.positions ==> ReadablePosition(x)
  }

  function LegacyHeader(t: LegacyTools, synthetic: bool, request: SourceRequest, lease: Lease, capture: LegacyCapture,
      complete: bool): Header {
    Header(LEGACY, request.accountID, request.asOf, TruncatedUtc(capture.capturedAt),
           t.upper(TrimSpace(capture.currency)), request.projectionVersion, request.markSource, request.markNamespace,
           request.maxMarkAge, lease.fenceID, lease.epoch, "legacy-paper:" + lease.fenceID + ":" + Show(lease.epoch),
           t.digestCapture(capture.(capturedAt := TruncatedUtc(capture.capturedAt))),
           synthetic, complete)
  }

  function LegacyMetrics(cash: Decimal, buyingPower: Decimal, equity: Decimal): seq<Metric> {
    [Metric("cash", cash, "binary_float"), Metric("buying_power", buyingPower, "binary_float"),
     Metric("market_value", Sub(equity, cash), "binary_float"), Metric("equity", equity, "binary_float")]
  }

  /** The snapshot input a readable legacy capture stands for. */
  ghost function LegacyInput(t: LegacyTools, synthetic: bool, request: SourceRequest, lease: Lease,
      capture: LegacyCapture): SnapshotInput
    requires LegacyReadable(request, capture)
  {
    SnapshotInput(
      LegacyHeader(t, synthetic, request, lease, capture, forall x :: x in capture.positions ==>
        Resolved(t, request.asOf, x)),
      LegacyMetrics(ExactFloat(capture.cash).value, ExactFloat(capture.buyingPower).value,
        ExactFloat(capture.equity).value),
      PositionsOf(Totals(t, request.asOf, capture.positions)),
      LEGACY_GAPS + Unresolved(t, request.asOf, capture.positions))
  }

  lemma TotalsNext(t: LegacyTools, asOf: Time, xs: seq<LegacyPosition>, i: nat)
    requires i < |xs| && forall j :: 0 <= j <= i ==> ReadablePosition(xs[j])
    ensures var prior, id := Totals(t, asOf, xs[..i]), t.resolve(xs[i], asOf);
      Totals(t, asOf, xs[..i + 1]) == if Resolved(t, asOf, xs[i])
        then prior[id.value := Add(if id.value in prior then prior[id.value] else ZERO, SignedQuantity(xs[i]))]
          else prior
    ensures Unresolved(t, asOf, xs[..i + 1]) == Unresolved(t, asOf, xs[..i])
      + (if Resolved(t, asOf, xs[i]) then [] else [UnresolvedFact(t, xs[i])])
  {
    hide Add, UnresolvedFact, ReadablePosition, SignedQuantity;
    assert xs[..i + 1][..i] == xs[..i];
  }

  method CapturePositions(t: LegacyTools, asOf: Time, xs: seq<LegacyPosition>)
    returns (ok: bool, totals: map<Uuid, Decimal>, missing: seq<MissingFact>, complete: bool)
    ensures ok <==> forall x :: x in xs ==> ReadablePosition(x)
    ensures ok ==> totals == Totals(t, asOf, xs) && missing == LEGACY_GAPS + Unresolved(t, asOf, xs)
    ensures ok ==> (complete <==> forall x :: x in xs ==> Resolved(t, asOf, x))
  {
    NoTotals(t, asOf);
    hide Add, UnresolvedFact, ExactFloat, Totals, Unresolved, ReadablePosition, Resolved, SignedQuantity, Neg;
    assert xs[..0] == [];
    totals, missing, complete := map[], LEGACY_GAPS, true;
    assert missing == LEGACY_GAPS + [];
    for i := 0 to |xs|
      invariant forall j :: 0 <= j < i ==> ReadablePosition(xs[j])
      invariant totals == Totals(t, asOf, xs[..i]) && missing == LEGACY_GAPS + Unresolved(t, asOf, xs[..i])
      invariant complete <==> forall j :: 0 <= j < i ==> Resolved(t, asOf, xs[j])
    {
      var quantity := ExactFloat(xs[i].quantity);
      PositionRead(t, asOf, xs[i]);
      if quantity.None? || (xs[i].side != "long" && xs[i].side != "short") {
        assert xs[i] in xs;
        return false, totals, missing, complete;
      }
      TotalsNext(t, asOf, xs, i);
      var signed := if xs[i].side == "long" then quantity.value else Neg(quantity.value);
      var id := t.resolve(xs[i], asOf);
      if id.None? || id.value == NIL {
        complete := false;
        missing := missing + [UnresolvedFact(t, xs[i])];
      } else {
        totals := totals[id.value := Add(if id.value in totals then totals[id.value] else ZERO, signed)];
      }
    }
    assert xs[..|xs|] == xs;
    return true, totals, missing, complete;
  }

  lemma NoTotals(t: LegacyTools, asOf: Time)
    ensures Totals(t, asOf, []) == map[] && Unresolved(t, asOf, []) == []
  {
  }

  /** What reading one position comes to. */
  lemma PositionRead(t: LegacyTools, asOf: Time, x: LegacyPosition)
    ensures ReadablePosition(x) <==> ExactFloat(x.quantity).Some? && (x.side == "long" || x.side == "short")
    ensures ReadablePosition(x) ==>
      SignedQuantity(x) == if x.side == "long" then ExactFloat(x.quantity).value else Neg(ExactFloat(x.quantity).value)
    ensures Resolved(t, asOf, x) <==> t.resolve(x, asOf).Some? && t.resolve(x, asOf).value != NIL
  {
    hide ExactFloat, Neg;
  }

  /** Listing a map in any order gives the same positions. */
  method ListPositions(totals: map<Uuid, Decimal>) returns (xs: seq<Position>)
    ensures multiset(xs) == multiset(PositionsOf(totals))
  {
    hide PositionsOf, InstrumentText;
    xs := [];
    var pending := totals.Keys;
    while pending != {}
      invariant pending <= totals.Keys
      invariant DistinctKeys(xs, InstrumentText)
      invariant forall x :: x in xs <==>
        x.instrumentID in totals.Keys - pending && x == Position(x.instrumentID, totals[x.instrumentID], "binary_float")
      decreases pending
    {
      var id :| id in pending;
      var x := Position(id, totals[id], "binary_float");
      forall i | 0 <= i < |xs| ensures InstrumentText(xs[i]) != InstrumentText(x) {
        assert xs[i] in xs;
        DistinctInstruments(xs[i], x);
      }
      xs, pending := xs + [x], pending - {id};
    }
    forall x ensures x in multiset(xs) <==> x in multiset(PositionsOf(totals)) {
      assert x in xs <==> x in PositionsOf(totals);
    }
    DistinctSameMembers(xs, PositionsOf(totals), InstrumentText);
  }

  /** LegacyPaperSource.Capture; a failed read is None. */
  method CaptureLegacy(t: LegacyTools, synthetic: bool, request: SourceRequest, lease: Option<Lease>,
      read: Option<LegacyCapture>)
    returns (r: Option<Snapshot>)
    ensures r.Some? <==> ValidSourceLease(request, lease) && read.Some? && LegacyReadable(request, read.value)
                         && Admissible(t.platform, LegacyInput(t, synthetic, request, lease.value, read.value))
    ensures r.Some? ==> r.value == Build(t.platform, LegacyInput(t, synthetic, request, lease.value, read.value))
  {
    hide Admissible, Build, LegacyHeader, LegacyMetrics, WithinContract, UtcMicrosecond, PositionsOf, Totals,
      Unresolved, Resolved, ReadablePosition, NormalizedRequired, TruncatedUtc;
    if !ValidSourceLease(request, lease) { return None; }
    if read.None? { return None; }
    var capture := read.value;
    if IsZero(capture.capturedAt) || TruncatedUtc(capture.capturedAt).nanos < request.asOf.nanos { return None; }
    var cash, buyingPower, equity := ExactFloat(capture.cash), ExactFloat(capture.buyingPower),
      ExactFloat(capture.equity);
    if cash.None? || buyingPower.None? || equity.None? { return None; }
    var ok, totals, missing, complete := CapturePositions(t, request.asOf, capture.positions);
    if !ok { return None; }
    var positions := ListPositions(totals);
    var input := SnapshotInput(LegacyHeader(t, synthetic, request, lease.value, capture, complete),
                               LegacyMetrics(cash.value, buyingPower.value, equity.value), positions, missing);
    OrderIndependent(t.platform, input, LegacyInput(t, synthetic, request, lease.value, capture));
    r := NewSnapshot(t.platform, input);
  }

  // ---------------------------------------------------------------- ledger projection

  datatype ProjectedPosition = ProjectedPosition(instrumentID: Uuid, quantity: Decimal)

  datatype ProjectionTotals = ProjectionTotals(
    cash: Decimal, fees: Decimal, realizedPnL: Decimal, unrealizedPnL: Decimal, marketValue: Decimal, equity: Decimal)

  datatype Projection = Projection(
    version: string, accountID: Uuid, asOf: Time, markSource: string, markNamespace: string, maxMarkAge: Duration,
    checkpointID: Uuid, outputChecksum: string, payload: string, baseCurrency: string, totals: ProjectionTotals,
      positions: seq<ProjectedPosition>)

  /** A stored checkpoint, and whether it passes its own validation. */
  datatype Checkpoint = Checkpoint(id: Uuid, outputChecksum: string, payload: string, createdAt: Time, valid: bool)

  const LEDGER_GAP := MissingFact(MetricFactKey("buying_power"), SOURCE_UNAVAILABLE,
    "ledger-fifo-v1:buying-power-not-modeled")

  predicate LedgerReadable(request: SourceRequest, projection: Projection, checkpoint: Checkpoint) {
    && projection.checkpointID != NIL && checkpoint.valid
    && projection.version == request.projectionVersion && projection.accountID == request.accountID
      && projection.asOf.nanos == request.asOf.nanos
    && projection.markSource == request.markSource && projection.markNamespace == request.markNamespace
      && projection.maxMarkAge == request.maxMarkAge
    && projection.checkpointID == checkpoint.id && projection.outputChecksum == checkpoint.outputChecksum
      && projection.payload == checkpoint.payload
    && request.asOf.nanos <= checkpoint.createdAt.nanos
  }

  function HeldPositions(xs: seq<ProjectedPosition>): seq<Position> {
    if xs == [] then []
    else
      var n := |xs| - 1;
      HeldPositions(xs[..n]) + (if xs[n].quantity == ZERO
        then [] else [Position(xs[n].instrumentID, xs[n].quantity, "exact_decimal")])
  }

  function LedgerMetrics(x: ProjectionTotals): seq<Metric> {
    [Metric("cash", x.cash, "exact_decimal"), Metric("fees", x.fees, "exact_decimal"),
      Metric("realized_pnl", x.realizedPnL, "exact_decimal"),
     Metric("unrealized_pnl", x.unrealizedPnL, "exact_decimal"), Metric("market_value", x.marketValue, "exact_decimal"),
       Metric("equity", x.equity, "exact_decimal")]
  }

  function LedgerInput(synthetic: bool, lease: Lease, projection: Projection, checkpoint: Checkpoint): SnapshotInput {
    SnapshotInput(
      Header(LEDGER, projection.accountID, projection.asOf, TruncatedUtc(checkpoint.createdAt), projection.baseCurrency,
             projection.version, projection.markSource, projection.markNamespace, projection.maxMarkAge,
             lease.fenceID, lease.epoch, Uuids.Print(checkpoint.id), checkpoint.outputChecksum, synthetic, true),
      LedgerMetrics(projection.totals), HeldPositions(projection.positions), [LEDGER_GAP])
  }

  /** LedgerProjectionSource.Capture; a failed or empty read is None. */
  method CaptureLedger(p: Platform, synthetic: bool, request: SourceRequest, lease: Option<Lease>,
      projected: Option<Projection>, loaded: Option<Checkpoint>)
    returns (r: Option<Snapshot>)
    ensures r.Some? <==>
      && ValidSourceLease(request, lease) && projected.Some? && loaded.Some?
      && LedgerReadable(request, projected.value, loaded.value)
      && Admissible(p, LedgerInput(synthetic, lease.value, projected.value, loaded.value))
    ensures r.Some? ==> r.value == Build(p, LedgerInput(synthetic, lease.value, projected.value, loaded.value))
  {
    hide Admissible, Build, LedgerMetrics, Uuids.Print, NormalizedRequired, TruncatedUtc, UtcMicrosecond;
    if !ValidSourceLease(request, lease) { return None; }
    if projected.None? || projected.value.checkpointID == NIL { return None; }
    if loaded.None? || !LedgerReadable(request, projected.value, loaded.value) { return None; }
    var projection, checkpoint := projected.value, loaded.value;
    var positions: seq<Position> := [];
    for i := 0 to |projection.positions|
      invariant positions == HeldPositions(projection.positions[..i])
    {
      assert projection.positions[..i + 1][..i] == projection.positions[..i];
      if projection.positions[i].quantity.coef != 0 {
        positions := positions
          + [Position(projection.positions[i].instrumentID, projection.positions[i].quantity, "exact_decimal")];
      }
    }
    assert projection.positions[..|projection.positions|] == projection.positions;
    r := NewSnapshot(p, LedgerInput(synthetic, lease.value, projection, checkpoint).(positions := positions));
  }
}

/** One dual run under a capture lease (runner.go). */
module CaptureRuns {
  import opened Text
  import opened Uuids
  import opened Timestamps
  import opened Evidence
  import opened Snapshots
  import opened Comparisons
  import opened Comparing
  import opened RunValidation
  import opened Sources

  datatype RunRequest = RunRequest(source: SourceRequest, generator: string, generatedAt: Time,
      explanations: seq<Explanation>)

  datatype Grant = Refused | Nothing | Granted
  datatype Captured = Failed | Returned(snapshot: Option<Snapshot>)
  datatype Stored = Rejected | Kept(run: Option<Run>)

  /** Everything the run meets outside. Time is the number of outside calls so far, and the lease
      may answer differently at each moment. */
  datatype World = World(
    wired: bool, grant: Grant, lease: nat -> Lease, legacy: nat -> Captured, ledger: nat -> Captured,
    release: nat -> bool, store: (nat, Run) -> Stored)

  datatype Event = Acquire(granted: bool) | Inspect | ReadLegacy | ReadLedger | Release(ok: bool) | Record(run: Run)

  // ---------------------------------------------------------------- discipline of a trace

  ghost predicate Released(trace: seq<Event>) { exists i :: 0 <= i < |trace| && trace[i].Release? }

  /** A release follows only failed releases, and a record follows a release that succeeded and is the only record. */
  ghost predicate Disciplined(trace: seq<Event>) {
    && (forall i, j :: 0 <= i < j < |trace| && trace[i].Release? && trace[j].Release? ==> trace[i] == Release(false))
    && (forall i :: 0 <= i < |trace| && trace[i].Record? ==> exists j :: 0 <= j < i && trace[j] == Release(true))
    && (forall i, j :: 0 <= i < j < |trace| ==> !(trace[i].Record? && trace[j].Record?))
    && (forall i :: 0 <= i < |trace| && (trace[i].ReadLegacy? || trace[i].ReadLedger?) ==> forall j :: 0 <= j < i ==>
      !trace[j].Release?)
  }

  /** validateCapturedLease */
  predicate BindsLease(snapshot: Option<Snapshot>, lease: Lease) {
    && snapshot.Some? && snapshot.value.header.accountID == lease.accountID
      && snapshot.value.header.asOf.nanos == lease.asOf.nanos
    && snapshot.value.header.captureFenceID == lease.fenceID && snapshot.value.header.captureEpoch == lease.epoch
  }

  /** The calls up to the release, in order; a run that stops early has made a prefix of them. */
  const CAPTURE_CALLS: seq<Event> := [Acquire(true), Inspect, Inspect, ReadLegacy, Inspect, ReadLedger, Inspect,
    Inspect, Inspect]

  /** What the outside answered when all capture checks passed. */
  ghost predicate CapturesHeld(w: World, request: RunRequest, legacy: Snapshot, ledger: Snapshot) {
    && ValidLease(request.source.accountID, request.source.asOf, Some(w.lease(1)))
    && w.lease(2).acquiredAt.nanos <= request.generatedAt.nanos
    && w.legacy(3) == Returned(Some(legacy)) && w.lease(4).active
    && w.ledger(5) == Returned(Some(ledger)) && w.lease(6).active
    && BindsLease(Some(legacy), w.lease(7)) && BindsLease(Some(ledger), w.lease(8))
  }

  /** The guarded part: from the granted lease to the two bound snapshots. */
  method CaptureBoth(w: World, request: RunRequest)
    returns (ok: bool, legacy: Option<Snapshot>, ledger: Option<Snapshot>, trace: seq<Event>)
    ensures trace <= CAPTURE_CALLS && trace != []
    ensures ok ==>
      trace == CAPTURE_CALLS && legacy.Some? && ledger.Some? && CapturesHeld(w, request, legacy.value, ledger.value)
    ensures !ok ==> forall a, b :: !CapturesHeld(w, request, a, b)
  {
    hide ValidLease;
    legacy, ledger, ok := None, None, false;
    trace := [Acquire(true), Inspect];
    if !ValidLease(request.source.accountID, request.source.asOf, Some(w.lease(1))) { return; }
    trace := trace + [Inspect];
    if request.generatedAt.nanos < w.lease(2).acquiredAt.nanos { return; }
    trace := trace + [ReadLegacy];
    if w.legacy(3).Failed? { return; }
    legacy := w.legacy(3).snapshot;
    trace := trace + [Inspect];
    if !w.lease(4).active { return; }
    trace := trace + [ReadLedger];
    if w.ledger(5).Failed? { return; }
    ledger := w.ledger(5).snapshot;
    trace := trace + [Inspect];
    if !w.lease(6).active { return; }
    trace := trace + [Inspect];
    if !BindsLease(legacy, w.lease(7)) { return; }
    trace := trace + [Inspect];
    if !BindsLease(ledger, w.lease(8)) { return; }
    ok := true;
  }

  lemma CaptureCallsOnly(trace: seq<Event>)
    requires trace <= CAPTURE_CALLS && trace != []
    ensures trace[0] == Acquire(true) && forall i :: 0 <= i < |trace| ==> !trace[i].Release? && !trace[i].Record?
  {
  }

  /** How a trace may end after the capture calls. */
  ghost predicate Ending(tail: seq<Event>) {
    || (|tail| == 1 && tail[0].Release?)
    || (|tail| == 2 && tail[0] == Release(false) && tail[1].Release?)
    || (|tail| == 2 && tail[0] == Release(true) && tail[1].Record?)
  }

  lemma EndingAt(trace: seq<Event>, tail: seq<Event>, i: nat)
    requires trace <= CAPTURE_CALLS && trace != [] && i < |trace + tail|
    ensures i < |trace| ==> !(trace + tail)[i].Release? && !(trace + tail)[i].Record?
    ensures i >= |trace| ==> (trace + tail)[i] == tail[i - |trace|]
  {
    CaptureCallsOnly(trace);
  }

  lemma EndingDisciplined(trace: seq<Event>, tail: seq<Event>)
    requires trace <= CAPTURE_CALLS && trace != [] && Ending(tail)
    ensures Disciplined(trace + tail) && Released(trace + tail) && Acquire(true) in trace + tail
    ensures forall run :: Record(run) in trace + tail ==>
      |tail| == 2 && tail[0] == Release(true) && tail[1] == Record(run)
  {
    CaptureCallsOnly(trace);
    var all, n := trace + tail, |trace|;
    forall i | 0 <= i < |all|
      ensures if i < n then !all[i].Release? && !all[i].Record? else all[i] == tail[i - n]
    {
      EndingAt(trace, tail, i);
    }
    assert all[0] == Acquire(true);
    assert all[n] == tail[0] && tail[0].Release?;
  }

  predicate RequestValid(w: World, request: RunRequest) {
    w.wired && request.source.accountID != NIL && !IsZero(request.source.asOf)
      && NormalizedRequired(request.generator, 256)
  }

  function InputFor(request: RunRequest, legacy: Snapshot, ledger: Snapshot): ComparisonInput {
    ComparisonInput(legacy, ledger, request.generator, request.generatedAt, request.explanations)
  }

  /** Runner.Run */
  method RunDual(p: Platform, request: RunRequest, w: World) returns (result: Option<Run>, trace: seq<Event>)
    ensures Disciplined(trace)
    // every path that obtains a lease releases it, and no other path touches one
    ensures Acquire(true) in trace <==> Released(trace)
    // storing happens once, with the comparison of two captures that were held by the lease
    ensures forall run :: Record(run) in trace ==> exists legacy, ledger ::
      CapturesHeld(w, request, legacy, ledger) && Comparable(p, InputFor(request, legacy, ledger))
        && run == BuildRun(p, InputFor(request, legacy, ledger))
    ensures forall run :: Record(run) in trace ==> trace == CAPTURE_CALLS + [Release(true), Record(run)]
    // a result is what the store kept of the recorded run
    ensures result.Some? ==> exists run ::
      Record(run) in trace && result.value.id == run.id && w.store(|CAPTURE_CALLS| + 1, run) == Kept(result)
  {
    hide Comparable, BuildRun, CapturesHeld, RequestValid, Disciplined, Released;
    NoLease();
    if !RequestValid(w, request) { return None, []; }
    if w.grant != Granted { return None, [Acquire(false)]; }
    var ok, legacy, ledger, calls := CaptureBoth(w, request);
    if !ok {
      // the deferred release
      EndingDisciplined(calls, [Release(w.release(|calls|))]);
      return None, calls + [Release(w.release(|calls|))];
    }
    if !w.release(|calls|) {
      // the deferred release tries once more
      EndingDisciplined(calls, [Release(false), Release(w.release(|calls| + 1))]);
      return None, calls + [Release(false), Release(w.release(|calls| + 1))];
    }
    var run := Compare(p, legacy, ledger, request.generator, request.generatedAt, request.explanations);
    if run.None? {
      EndingDisciplined(calls, [Release(true)]);
      return None, calls + [Release(true)];
    }
    assert run.value == BuildRun(p, InputFor(request, legacy.value, ledger.value));
    var kept := w.store(|calls| + 1, run.value);
    trace := calls + [Release(true), Record(run.value)];
    EndingDisciplined(calls, [Release(true), Record(run.value)]);
    if kept.Rejected? || kept.run.None? || kept.run.value.id != run.value.id { return None, trace; }
    assert trace[|calls| + 1] == Record(run.value);
    return kept.run, trace;
  }

  lemma NoLease()
    ensures Disciplined([]) && !Released([]) && Disciplined([Acquire(false)]) && !Released([Acquire(false)])
  {
  }

  /** Once inactive, a lease stays inactive. */
  ghost predicate NeverReactivates(w: World) {
    forall t: nat, u: nat :: t <= u && w.lease(u).active ==> w.lease(t).active
  }

  /** If the lease never reactivates, it is active from before the first capture until after the second. */
  lemma CapturesInsideLease(request: RunRequest, w: World, legacy: Snapshot, ledger: Snapshot)
    requires NeverReactivates(w) && CapturesHeld(w, request, legacy, ledger)
    ensures forall t: nat :: t <= 6 ==> w.lease(t).active
    ensures CAPTURE_CALLS[3] == ReadLegacy && CAPTURE_CALLS[5] == ReadLedger
  {
    hide ValidLease;
  }

  /** What is stored validates and carries the fence and epoch of the lease. */
  lemma StoredCarriesLease(p: Platform, request: RunRequest, w: World, legacy: Snapshot, ledger: Snapshot)
    requires CapturesHeld(w, request, legacy, ledger) && Comparable(p, InputFor(request, legacy, ledger))
    ensures var run := BuildRun(p, InputFor(request, legacy, ledger));
      && run.body.captureFenceID == w.lease(7).fenceID && run.body.captureEpoch == w.lease(7).epoch
      && run.body.accountID == w.lease(7).accountID
      && RunValidates(p, run)
  {
    hide Comparable, BuildRun, RunValidates, ValidLease;
    BuildShape(p, InputFor(request, legacy, ledger));
    BuiltRunValidates(p, InputFor(request, legacy, ledger));
  }
}

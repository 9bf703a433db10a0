/** The gate that judges many days of comparison runs (gate.go). */
module CutoverGate {
  import opened Text
  import opened Uuids
  import opened Timestamps
  import opened Evidence
  import opened Snapshots
  import opened Comparisons
  import opened Comparing
  import opened ComparisonLaws
  import opened RunValidation

  datatype Disqualification =
    | InvalidRun | SyntheticRun | IncompleteCoverage | DifferencesRemain
    | BadStatus | Unreviewed | MetricsIncomplete | NotAttested

  datatype Reason =
    | DaysNotPositive | ThroughMissing | ThroughNotMidnight | VerifierMissing | ClockMissing | ThroughNotCompleted
    | AfterCompleted(day: int) | AfterThrough(day: int)
    | NoEvidence(day: int) | Conflicting(day: int) | NotQualifying(day: int, why: Disqualification)
    | PolicyChanges

  datatype Gate = Gate(
    ready: bool, accountID: Uuid, throughDate: Time, evaluatedAt: Option<Time>, lastCompleted: Option<int>,
    requiredDays: int, runIDs: seq<Uuid>, reasons: seq<Reason>)

  /** sort.Slice by run identity, whatever it does with runs of equal identity. */
  ghost predicate IsSort(sort: seq<Run> -> seq<Run>) {
    forall cs :: multiset(sort(cs)) == multiset(cs)
      && forall i, j :: 0 <= i < j < |sort(cs)| ==> !Before(Uuids.Print(sort(cs)[j].id), Uuids.Print(sort(cs)[i].id))
  }

  // ---------------------------------------------------------------- one run

  /** A run that counts: it validates, is real, covers all positions, leaves no difference open, and is attested. */
  ghost predicate Qualifies(p: Platform, run: Run, verify: Run -> bool) {
    && RunValidates(p, run) && !run.body.synthetic
    && run.body.legacy.value.header.coverageComplete && run.body.ledger.value.header.coverageComplete
    && run.body.unexplainedCount == 0 && run.body.notComparableCount == 0
    && verify(run)
  }

  /** The results of a validating run are those of its rebuilt comparison. */
  lemma ValidResults(p: Platform, run: Run)
    requires RunValidates(p, run)
    ensures var input, rs := InputOfRun(run.body), run.body.results;
      && rs == BuildRun(p, input).body.results
      && KeySet(rs, ResultKey) == FactKeys(input.legacy, input.ledger)
      && (forall i :: 0 <= i < |rs| ==> Means(input.legacy, input.ledger, input.explanations, rs[i]))
      && run.body.unexplainedCount == CountStatus(rs, UNEXPLAINED)
        && run.body.notComparableCount == CountStatus(rs, NOT_COMPARABLE)
  {
    ValidatesInput(p, run);
    RunValidateExact(p, run);
    hide Comparable, BuildRun, FactKeys, FactValue, CanonicalRunPayload, ExplanationsOf, CountStatus;
    EachFactOnce(p, InputOfRun(run.body));
    CountsFromResults(p, InputOfRun(run.body));
  }

  ghost predicate Settled(r: Result) {
    r.status == EQUAL || (r.status == EXPLAINED && r.explanation.Some?)
  }

  /** With both open counts at zero, every result of a validating run is equal or carries a review. */
  lemma NothingOpen(p: Platform, run: Run)
    requires RunValidates(p, run) && run.body.unexplainedCount == 0 && run.body.notComparableCount == 0
    ensures forall i :: 0 <= i < |run.body.results| ==> Settled(run.body.results[i])
    ensures RequiredKeys() <= KeySet(run.body.results, ResultKey)
  {
    hide *;
    ValidRunHasSnapshots(p, run);
    ValidResults(p, run);
    var input := InputOfRun(run.body);
    RequiredAreFacts(input.legacy, input.ledger);
    AllSettled(input.legacy, input.ledger, input.explanations, run.body.results);
  }

  lemma RequiredAreFacts(legacy: Snapshot, ledger: Snapshot)
    ensures RequiredKeys() <= FactKeys(legacy, ledger)
  {
    hide RequiredKeys;
  }

  lemma AllSettled(legacy: Snapshot, ledger: Snapshot, es: seq<Explanation>, rs: seq<Result>)
    requires forall i :: 0 <= i < |rs| ==> Means(legacy, ledger, es, rs[i])
    requires CountStatus(rs, UNEXPLAINED) == 0 && CountStatus(rs, NOT_COMPARABLE) == 0
    ensures forall i :: 0 <= i < |rs| ==> Settled(rs[i])
  {
    hide FactValue, CountStatus;
    CountZero(rs, UNEXPLAINED);
    CountZero(rs, NOT_COMPARABLE);
  }

  method NonqualifyingReason(p: Platform, run: Run, verify: Run -> bool) returns (r: Option<Disqualification>)
    ensures r.None? <==> Qualifies(p, run, verify)
    ensures r == Some(InvalidRun) <==> !RunValidates(p, run)
    ensures r.Some? ==> r.value !in {BadStatus, Unreviewed, MetricsIncomplete}
  {
    hide RunValidates, RequiredKeys, CountStatus, MetricFactKey;
    var ok := ValidateRun(p, run);
    if !ok { return Some(InvalidRun); }
    ValidRunHasSnapshots(p, run);
    if run.body.synthetic { return Some(SyntheticRun); }
    if !run.body.legacy.value.header.coverageComplete || !run.body.ledger.value.header.coverageComplete {
      return Some(IncompleteCoverage);
    }
    if run.body.unexplainedCount != 0 || run.body.notComparableCount != 0 { return Some(DifferencesRemain); }
    NothingOpen(p, run);
    var seen: set<string> := {};
    var rs := run.body.results;
    for i := 0 to |rs|
      invariant seen == set j | 0 <= j < i && rs[j].factKey in RequiredFacts() :: rs[j].factKey
    {
      assert Settled(rs[i]);
      if rs[i].status != EQUAL && rs[i].status != EXPLAINED { return Some(BadStatus); }
      if rs[i].status == EXPLAINED && rs[i].explanation.None? { return Some(Unreviewed); }
      if rs[i].factKey in RequiredFacts() { seen := seen + {rs[i].factKey}; }
    }
    AllMetricsSeen(rs, seen);
    if |seen| != |REQUIRED_METRICS| { return Some(MetricsIncomplete); }
    if !verify(run) { return Some(NotAttested); }
    return None;
  }

  function RequiredFacts(): seq<string> { Map(MetricFactKey, REQUIRED_METRICS) }

  lemma ValidRunHasSnapshots(p: Platform, run: Run)
    requires RunValidates(p, run)
    ensures run.body.legacy.Some? && run.body.ledger.Some?
  {
    hide Comparable, BuildRun, CanonicalRunPayload;
  }

  lemma RequiredFactsAreKeys()
    ensures forall k :: k in RequiredFacts() <==> k in RequiredKeys()
    ensures |RequiredKeys()| == |REQUIRED_METRICS|
  {
    hide MetricFactKey;
    var facts := RequiredFacts();
    assert forall i :: 0 <= i < |facts| ==> facts[i] == MetricFactKey(REQUIRED_METRICS[i]);
    assert DistinctKeys(facts, Identity) by {
      forall i, j | 0 <= i < j < |facts| ensures Identity(facts[i]) != Identity(facts[j]) { NewMetric(j); }
    }
    KeySetSize(facts, Identity);
    assert KeySet(facts, Identity) == RequiredKeys();
  }

  lemma AllMetricsSeen(rs: seq<Result>, seen: set<string>)
    requires RequiredKeys() <= KeySet(rs, ResultKey)
    requires seen == set j | 0 <= j < |rs| && rs[j].factKey in RequiredFacts() :: rs[j].factKey
    ensures |seen| == |REQUIRED_METRICS|
  {
    hide RequiredKeys, RequiredFacts;
    RequiredFactsAreKeys();
    forall k | k in RequiredKeys() ensures k in seen {
      var j :| 0 <= j < |rs| && ResultKey(rs[j]) == k;
      assert rs[j].factKey in RequiredFacts();
    }
    assert seen == RequiredKeys();
  }

  // ---------------------------------------------------------------- one day

  /** The runs whose as-of time falls on a UTC day, in input order. */
  function Candidates(runs: seq<Option<Run>>, day: int): seq<Run> {
    if runs == [] then []
    else
      var n := |runs| - 1;
      Candidates(runs[..n], day) +
      (match runs[n] case None => [] case Some(r) => if UtcDay(r.body.asOf) == day then [r] else [])
  }

  /** The same evidence: identity, checksum, bytes and attestation. */
  predicate SameEvidence(a: Run, b: Run) {
    a.id == b.id && a.checksum == b.checksum && a.payload == b.payload && a.attestation == b.attestation
  }

  ghost predicate DayReady(p: Platform, cs: seq<Run>, verify: Run -> bool, sort: seq<Run> -> seq<Run>)
    requires IsSort(sort)
  {
    && cs != []
    && (forall c :: c in cs ==> SameEvidence(c, Chosen(cs, sort)))
    && Qualifies(p, Chosen(cs, sort), verify)
  }

  /** The candidate the sort puts first. */
  ghost function Chosen(cs: seq<Run>, sort: seq<Run> -> seq<Run>): (r: Run)
    requires IsSort(sort) && cs != []
    ensures r in cs
  {
    MultisetMembers(sort(cs), cs);
    assert sort(cs)[0] in multiset(cs);
    sort(cs)[0]
  }

  method JudgeDay(p: Platform, day: int, cs: seq<Run>, verify: Run -> bool, sort: seq<Run> -> seq<Run>)
    returns (choice: Option<Run>, reason: Option<Reason>)
    requires IsSort(sort)
    ensures choice.Some? <==> reason.None?
    ensures choice.Some? <==> DayReady(p, cs, verify, sort)
    ensures choice.Some? ==> choice.value == Chosen(cs, sort)
    ensures reason == Some(NoEvidence(day)) <==> cs == []
    ensures reason == Some(Conflicting(day)) <==> cs != [] && exists c :: c in cs && !SameEvidence(c, Chosen(cs, sort))
    ensures reason.Some? ==>
      reason.value in {NoEvidence(day), Conflicting(day)} || (reason.value.NotQualifying? && reason.value.day == day)
  {
    hide Qualifies, RunValidates, IsSort;
    if cs == [] { return None, Some(NoEvidence(day)); }
    var candidates := sort(cs);
    Sorted(cs, sort);
    var candidate := candidates[0];
    for i := 1 to |candidates|
      invariant forall j :: 0 <= j < i ==> SameEvidence(candidates[j], candidate)
    {
      if !SameEvidence(candidates[i], candidate) {
        assert candidates[i] in multiset(cs);
        return None, Some(Conflicting(day));
      }
    }
    forall c | c in cs ensures SameEvidence(c, candidate) {
      assert c in multiset(candidates);
    }
    var why := NonqualifyingReason(p, candidate, verify);
    if why.Some? { return None, Some(NotQualifying(day, why.value)); }
    return Some(candidate), None;
  }

  lemma Sorted(cs: seq<Run>, sort: seq<Run> -> seq<Run>)
    requires IsSort(sort) && cs != []
    ensures multiset(sort(cs)) == multiset(cs) && |sort(cs)| == |cs| && sort(cs)[0] == Chosen(cs, sort)
  {
    MultisetMembers(sort(cs), cs);
  }

  // ---------------------------------------------------------------- the window

  /** What one evaluation is asked; a missing clock or verifier is None. */
  datatype Question = Question(runs: seq<Option<Run>>, through: Time, days: int, clock: Option<Time>,
      verifier: Option<Run -> bool>)

  function ThroughDay(q: Question): int { UtcDay(q.through) }

  /** The last completed UTC day before the evaluation time. */
  function LastCompleted(now: Time): int { UtcDay(now) - 1 }

  predicate Midnight(t: Time) { t.offset == 0 && t.nanos % DAY == 0 }

  /** The request itself is in order. */
  predicate WellPosed(q: Question) {
    && q.days > 0 && !IsZero(q.through) && Midnight(q.through)
    && q.verifier.Some? && q.clock.Some? && !IsZero(q.clock.value)
    && ThroughDay(q) <= LastCompleted(q.clock.value)
  }

  predicate LateRun(q: Question, run: Option<Run>) { run.Some? && UtcDay(run.value.body.asOf) > ThroughDay(q) }

  predicate SamePolicy(a: Run, b: Run) {
    && a.body.accountID == b.body.accountID && a.body.policyVersion == b.body.policyVersion
    && a.body.projectionVersion == b.body.projectionVersion && a.body.markSource == b.body.markSource
    && a.body.markNamespace == b.body.markNamespace && a.body.maxMarkAge == b.body.maxMarkAge
  }

  /** The i-th day of the window, oldest first. */
  function WindowDay(q: Question, i: int): int { ThroughDay(q) - (q.days - 1) + i }

  ghost predicate DayHolds(p: Platform, q: Question, sort: seq<Run> -> seq<Run>, day: int)
    requires IsSort(sort) && q.verifier.Some?
  {
    DayReady(p, Candidates(q.runs, day), q.verifier.value, sort)
  }

  ghost function ChosenOn(q: Question, sort: seq<Run> -> seq<Run>, day: int): Run
    requires IsSort(sort) && Candidates(q.runs, day) != []
  {
    Chosen(Candidates(q.runs, day), sort)
  }

  /** Every day of the window ends in an uncontested qualifying run, nothing is later, and all share one policy. */
  ghost predicate Ready(p: Platform, q: Question, sort: seq<Run> -> seq<Run>)
    requires IsSort(sort)
  {
    && WellPosed(q)
    && (forall r :: r in q.runs ==> !LateRun(q, r))
    && (forall i :: 0 <= i < q.days ==> DayHolds(p, q, sort, WindowDay(q, i)))
    && (forall i, j :: 0 <= i < q.days && 0 <= j < q.days ==>
      SamePolicy(ChosenOn(q, sort, WindowDay(q, i)), ChosenOn(q, sort, WindowDay(q, j))))
  }

  method Preliminary(q: Question) returns (reason: Option<Reason>)
    ensures reason.None? <==> WellPosed(q)
  {
    if q.days <= 0 { return Some(DaysNotPositive); }
    if IsZero(q.through) { return Some(ThroughMissing); }
    if !Midnight(q.through) { return Some(ThroughNotMidnight); }
    if q.verifier.None? { return Some(VerifierMissing); }
    if q.clock.None? || IsZero(q.clock.value) { return Some(ClockMissing); }
    if ThroughDay(q) > LastCompleted(q.clock.value) { return Some(ThroughNotCompleted); }
    return None;
  }

  lemma CandidatesNext(runs: seq<Option<Run>>, i: nat)
    requires i < |runs|
    ensures forall day ::
      Candidates(runs[..i + 1], day) == Candidates(runs[..i], day)
      + (if runs[i].Some? && UtcDay(runs[i].value.body.asOf) == day then [runs[i].value] else [])
  {
    hide UtcDay;
    assert runs[..i + 1][..i] == runs[..i];
  }

  function ListedOn(byDay: map<int, seq<Run>>, day: int): seq<Run> { if day in byDay then byDay[day] else [] }

  /** Up to the through day, the map lists each day's runs. */
  ghost predicate Groups(runs: seq<Option<Run>>, byDay: map<int, seq<Run>>, through: int) {
    forall day :: day <= through ==> Candidates(runs, day) == ListedOn(byDay, day)
  }

  lemma GroupsNothing(through: int)
    ensures Groups([], map[], through)
  {
  }

  lemma GroupsSkip(runs: seq<Option<Run>>, i: nat, byDay: map<int, seq<Run>>, through: int)
    requires i < |runs| && Groups(runs[..i], byDay, through)
      && (runs[i].Some? ==> UtcDay(runs[i].value.body.asOf) > through)
    ensures Groups(runs[..i + 1], byDay, through)
  {
    hide UtcDay, Candidates;
    CandidatesNext(runs, i);
  }

  lemma GroupsAdd(runs: seq<Option<Run>>, i: nat, byDay: map<int, seq<Run>>, through: int, day: int)
    requires i < |runs| && Groups(runs[..i], byDay, through) && runs[i].Some?
      && day == UtcDay(runs[i].value.body.asOf) <= through
    ensures Groups(runs[..i + 1], byDay[day := ListedOn(byDay, day) + [runs[i].value]], through)
  {
    hide UtcDay, Candidates;
    CandidatesNext(runs, i);
    var next := byDay[day := ListedOn(byDay, day) + [runs[i].value]];
    forall d | d <= through ensures Candidates(runs[..i + 1], d) == ListedOn(next, d) {
      assert Candidates(runs[..i], d) == ListedOn(byDay, d);
      assert Candidates(runs[..i], d) + [] == Candidates(runs[..i], d);
    }
  }

  /** A reason for a run that is too late says by which date. */
  predicate LateReason(q: Question, r: Reason)
    requires q.clock.Some?
  {
    || (r.AfterCompleted? && r.day > LastCompleted(q.clock.value))
    || (r.AfterThrough? && ThroughDay(q) < r.day <= LastCompleted(q.clock.value))
  }

  /** Group the runs by day; runs after the through date or the last completed day are reasons instead. */
  method GroupByDay(q: Question) returns (byDay: map<int, seq<Run>>, reasons: seq<Reason>)
    requires WellPosed(q)
    ensures Groups(q.runs, byDay, ThroughDay(q))
    ensures reasons == [] <==> forall r :: r in q.runs ==> !LateRun(q, r)
    ensures forall r :: r in reasons ==> LateReason(q, r)
  {
    hide UtcDay, Candidates, LastCompleted, Groups, ListedOn;
    byDay, reasons := map[], [];
    GroupsNothing(ThroughDay(q));
    assert q.runs[..0] == [];
    for i := 0 to |q.runs|
      invariant Groups(q.runs[..i], byDay, ThroughDay(q))
      invariant reasons == [] <==> forall j :: 0 <= j < i ==> !LateRun(q, q.runs[j])
      invariant forall r :: r in reasons ==> LateReason(q, r)
    {
      if q.runs[i].None? {
        GroupsSkip(q.runs, i, byDay, ThroughDay(q));
        continue;
      }
      var day := UtcDay(q.runs[i].value.body.asOf);
      if day > LastCompleted(q.clock.value) {
        GroupsSkip(q.runs, i, byDay, ThroughDay(q));
        reasons := reasons + [AfterCompleted(day)];
      } else if day > ThroughDay(q) {
        GroupsSkip(q.runs, i, byDay, ThroughDay(q));
        reasons := reasons + [AfterThrough(day)];
      } else {
        GroupsAdd(q.runs, i, byDay, ThroughDay(q), day);
        byDay := byDay[day := ListedOn(byDay, day) + [q.runs[i].value]];
      }
    }
    assert q.runs[..|q.runs|] == q.runs;
  }

  /** One verdict per day of the window, oldest first. */
  method SelectDays(p: Platform, q: Question, byDay: map<int, seq<Run>>, sort: seq<Run> -> seq<Run>)
    returns (selected: seq<Run>, reasons: seq<Reason>)
    requires IsSort(sort) && WellPosed(q)
    requires Groups(q.runs, byDay, ThroughDay(q))
    ensures reasons == [] <==> forall i :: 0 <= i < q.days ==> DayHolds(p, q, sort, WindowDay(q, i))
    ensures reasons == [] ==> |selected| == q.days
    ensures reasons == [] ==> forall i :: 0 <= i < q.days ==>
      Candidates(q.runs, WindowDay(q, i)) != [] && selected[i] == ChosenOn(q, sort, WindowDay(q, i))
    ensures |selected| == q.days ==> reasons == []
  {
    hide IsSort, Qualifies, Candidates, Chosen;
    selected, reasons := [], [];
    for i := 0 to q.days
      invariant |selected| + |reasons| == i
      invariant reasons == [] <==> forall j :: 0 <= j < i ==> DayHolds(p, q, sort, WindowDay(q, j))
      invariant reasons == [] ==> forall j :: 0 <= j < i ==>
        Candidates(q.runs, WindowDay(q, j)) != [] && selected[j] == ChosenOn(q, sort, WindowDay(q, j))
    {
      var day := WindowDay(q, i);
      var choice, reason := JudgeDay(p, day, if day in byDay then byDay[day] else [], q.verifier.value, sort);
      if choice.Some? { selected := selected + [choice.value]; } else { reasons := reasons + [reason.value]; }
    }
  }

  method EvaluateCutover(p: Platform, q: Question, sort: seq<Run> -> seq<Run>) returns (gate: Gate)
    requires IsSort(sort)
    ensures gate.ready <==> gate.reasons == []
    ensures gate.ready <==> Ready(p, q, sort)
    ensures gate.ready ==> |gate.runIDs| == q.days
    ensures gate.ready ==> forall i :: 0 <= i < q.days ==> gate.runIDs[i] == ChosenOn(q, sort, WindowDay(q, i)).id
    ensures gate.ready ==> gate.accountID == ChosenOn(q, sort, WindowDay(q, 0)).body.accountID
    ensures gate.throughDate == q.through && gate.requiredDays == q.days
  {
    hide IsSort, DayHolds, ChosenOn, Candidates;
    gate := Gate(false, NIL, q.through, None, None, q.days, [], []);
    var refusal := Preliminary(q);
    if refusal.Some? {
      gate := gate.(reasons := [refusal.value]);
      return;
    }
    gate := gate.(evaluatedAt := Some(q.clock.value), lastCompleted := Some(LastCompleted(q.clock.value)));
    var byDay, late := GroupByDay(q);
    var selected, dayReasons := SelectDays(p, q, byDay, sort);
    gate := gate.(reasons := late + dayReasons);
    if |selected| != q.days || gate.reasons != [] { return; }
    var baseline := selected[0];
    gate := gate.(accountID := baseline.body.accountID);
    for i := 0 to |selected|
      invariant gate == Gate(false, baseline.body.accountID, q.through, Some(q.clock.value),
        Some(LastCompleted(q.clock.value)), q.days, gate.runIDs, [])
      invariant |gate.runIDs| == i
      invariant forall j :: 0 <= j < i ==> SamePolicy(selected[j], baseline) && gate.runIDs[j] == selected[j].id
    {
      if !SamePolicy(selected[i], baseline) {
        gate := gate.(reasons := [PolicyChanges]);
        assert selected[i] == ChosenOn(q, sort, WindowDay(q, i)) && baseline == ChosenOn(q, sort, WindowDay(q, 0));
        return;
      }
      gate := gate.(runIDs := gate.runIDs + [selected[i].id]);
    }
    gate := gate.(ready := true);
  }
}

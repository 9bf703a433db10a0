/** The gate does open: agreement on consecutive days is enough. */
module GateOpens {
  import opened Text
  import opened Uuids
  import opened Timestamps
  import opened Evidence
  import opened Snapshots
  import opened Comparisons
  import opened ComparisonLaws
  import opened RunValidation
  import opened CutoverGate
  import opened GateLaws
  import opened SampleEvidence

  /** Two real, fully covered captures that agree on every metric and every quantity. */
  ghost predicate Agreement(p: Platform, input: ComparisonInput) {
    && Comparable(p, input) && FullyCovered(input.legacy) && FullyCovered(input.ledger)
    && SameMetrics(input.legacy, input.ledger) && SameQuantities(input.legacy, input.ledger)
    && !input.legacy.header.synthetic && !input.ledger.header.synthetic
  }

  /** An attested comparison of an agreement counts. */
  lemma AgreementQualifies(p: Platform, input: ComparisonInput, verify: Run -> bool)
    requires Agreement(p, input) && verify(BuildRun(p, input))
    ensures Qualifies(p, BuildRun(p, input), verify)
  {
    hide Comparable, BuildRun, RunValidates, SameMetrics, SameQuantities, CountStatus, InputOfRun, KeySet, RequiredKeys;
    BuiltRunValidates(p, input);
    RunShape(p, input);
    NothingLeft(p, input);
  }

  lemma RunShape(p: Platform, input: ComparisonInput)
    ensures var b := BuildRun(p, input).body;
      && b.legacy == Some(input.legacy) && b.ledger == Some(input.ledger) && b.asOf == input.legacy.header.asOf
      && b.synthetic == (input.legacy.header.synthetic || input.ledger.header.synthetic)
  {
    hide ResultsFor, CanonicalRunPayload, RunID, CountStatus;
  }

  lemma NothingLeft(p: Platform, input: ComparisonInput)
    requires Agreement(p, input)
    ensures BuildRun(p, input).body.unexplainedCount == 0 && BuildRun(p, input).body.notComparableCount == 0
  {
    hide Comparable, BuildRun, SameMetrics, SameQuantities, CountStatus, KeySet, RequiredKeys;
    AllEqualExactly(p, input);
    CountsFromResults(p, input);
    CountZero(BuildRun(p, input).body.results, UNEXPLAINED);
    CountZero(BuildRun(p, input).body.results, NOT_COMPARABLE);
  }

  ghost predicate OneDayEach(inputs: seq<ComparisonInput>, first: int) {
    forall i :: 0 <= i < |inputs| ==> UtcDay(inputs[i].legacy.header.asOf) == first + i
  }

  ghost predicate OnePolicy(inputs: seq<ComparisonInput>) {
    forall i, j :: 0 <= i < |inputs| && 0 <= j < |inputs| ==>
      SamePolicyHeader(inputs[i].legacy.header, inputs[j].legacy.header)
  }

  predicate SamePolicyHeader(a: Header, b: Header) {
    a.accountID == b.accountID && a.projectionVersion == b.projectionVersion && a.markSource == b.markSource
    && a.markNamespace == b.markNamespace && a.maxMarkAge == b.maxMarkAge
  }

  ghost function RunsOf(p: Platform, inputs: seq<ComparisonInput>): (r: seq<Option<Run>>)
    ensures |r| == |inputs| && forall i :: 0 <= i < |r| ==> r[i] == Some(BuildRun(p, inputs[i]))
  {
    seq(|inputs|, i requires 0 <= i < |inputs| => Some(BuildRun(p, inputs[i])))
  }

  function Asked(runs: seq<Option<Run>>, first: int, verify: Run -> bool): Question {
    Question(runs, Time((first + |runs| - 1) * DAY, 0), |runs|, Some(Time((first + |runs|) * DAY, 0)), Some(verify))
  }

  lemma Midnights(day: int)
    ensures UtcDay(Time(day * DAY, 0)) == day && Midnight(Time(day * DAY, 0))
      && (IsZero(Time(day * DAY, 0)) <==> day == 0)
  {
  }

  lemma AskedWell(runs: seq<Option<Run>>, first: int, verify: Run -> bool)
    requires |runs| > 0 && first > 0
    ensures var q := Asked(runs, first, verify);
      && WellPosed(q) && ThroughDay(q) == first + |runs| - 1
      && forall i :: WindowDay(q, i) == first + i
  {
    hide UtcDay, Midnight, IsZero;
    Midnights(first + |runs| - 1);
    Midnights(first + |runs|);
  }

  /** Agreements on consecutive days, under one policy and all attested, open the gate for that many days, whatever the
      sort. */
  lemma AgreementOpensGate(p: Platform, inputs: seq<ComparisonInput>, first: int, verify: Run -> bool,
      sort: seq<Run> -> seq<Run>)
    requires IsSort(sort) && inputs != [] && first > 0 && OneDayEach(inputs, first) && OnePolicy(inputs)
    requires forall i :: 0 <= i < |inputs| ==> Agreement(p, inputs[i]) && verify(BuildRun(p, inputs[i]))
    ensures Ready(p, Asked(RunsOf(p, inputs), first, verify), sort)
  {
    hide IsSort, WellPosed, Agreement, BuildRun, UtcDay, OnePolicy, OneDayEach, DayHolds, SamePolicy, Candidates,
      LateRun, ThroughDay, WindowDay, Asked;
    var runs := RunsOf(p, inputs);
    var q := Asked(runs, first, verify);
    AskedWell(runs, first, verify);
    AskedFields(runs, first, verify);
    forall i | 0 <= i < |inputs| ensures OnDay(p, q, sort, BuildRun(p, inputs[i]), first + i) {
      DayOpens(p, inputs, first, verify, sort, i);
    }
    forall r | r in q.runs ensures !LateRun(q, r) {
      var i :| 0 <= i < |runs| && runs[i] == r;
      NotLate(p, q, inputs, first, i);
    }
    forall i | 0 <= i < q.days
      ensures DayHolds(p, q, sort, WindowDay(q, i)) && Candidates(q.runs, WindowDay(q, i)) != [] {
      assert OnDay(p, q, sort, BuildRun(p, inputs[i]), first + i);
    }
    forall i, j | 0 <= i < q.days && 0 <= j < q.days
      ensures SamePolicy(ChosenOn(q, sort, WindowDay(q, i)), ChosenOn(q, sort, WindowDay(q, j))) {
      assert OnDay(p, q, sort, BuildRun(p, inputs[i]), first + i)
        && OnDay(p, q, sort, BuildRun(p, inputs[j]), first + j);
      PolicyKept(p, inputs, i, j);
    }
  }

  lemma AskedFields(runs: seq<Option<Run>>, first: int, verify: Run -> bool)
    ensures var q := Asked(runs, first, verify); q.runs == runs && q.days == |runs| && q.verifier == Some(verify)
  {
  }

  /** The day holds, with this run chosen. */
  ghost predicate OnDay(p: Platform, q: Question, sort: seq<Run> -> seq<Run>, run: Run, day: int)
    requires IsSort(sort) && q.verifier.Some?
  {
    DayHolds(p, q, sort, day) && Candidates(q.runs, day) != [] && ChosenOn(q, sort, day) == run
  }

  lemma NotLate(p: Platform, q: Question, inputs: seq<ComparisonInput>, first: int, i: nat)
    requires i < |inputs| && OneDayEach(inputs, first) && ThroughDay(q) == first + |inputs| - 1
    ensures !LateRun(q, Some(BuildRun(p, inputs[i])))
  {
    hide BuildRun, UtcDay;
    RunShape(p, inputs[i]);
  }

  lemma DayOpens(p: Platform, inputs: seq<ComparisonInput>, first: int, verify: Run -> bool, sort: seq<Run> -> seq<Run>,
      i: nat)
    requires IsSort(sort) && i < |inputs| && OneDayEach(inputs, first) && Agreement(p, inputs[i])
      && verify(BuildRun(p, inputs[i]))
    ensures OnDay(p, Asked(RunsOf(p, inputs), first, verify), sort, BuildRun(p, inputs[i]), first + i)
  {
    hide IsSort, Agreement, BuildRun, UtcDay, Candidates, Qualifies;
    var runs, run, day := RunsOf(p, inputs), BuildRun(p, inputs[i]), first + i;
    RunShape(p, inputs[i]);
    assert runs[i] == Some(run);
    CandidatesMember(runs, day, run);
    forall c | c in Candidates(runs, day) ensures c == run {
      CandidatesMember(runs, day, c);
      var j :| 0 <= j < |runs| && runs[j] == Some(c);
      RunShape(p, inputs[j]);
    }
    assert run in Candidates(runs, day);
    assert Chosen(Candidates(runs, day), sort) == run;
    AgreementQualifies(p, inputs[i], verify);
  }

  lemma PolicyKept(p: Platform, inputs: seq<ComparisonInput>, i: nat, j: nat)
    requires i < |inputs| && j < |inputs| && OnePolicy(inputs)
    ensures SamePolicy(BuildRun(p, inputs[i]), BuildRun(p, inputs[j]))
  {
    hide ResultsFor, CanonicalRunPayload, RunID, CountStatus;
    assert SamePolicyHeader(inputs[i].legacy.header, inputs[j].legacy.header);
  }

  // ---------------------------------------------------------------- such agreements exist

  lemma SampleAgrees(p: Platform, account: Uuid, day: int)
    requires PlainPlatform(p) && account != NIL && day > 0
    ensures Agreement(p, SampleComparison(p, account, day))
      && UtcDay(SampleComparison(p, account, day).legacy.header.asOf) == day
  {
    hide Comparable, FullyCovered, SameMetrics, SameQuantities, SampleSnapshot, UtcDay;
    SampleComparable(p, account, day);
    SampleHeaders(p, account, day);
    Midnights(day);
  }

  /** Every account has an agreement on every day after the first. */
  lemma AgreementExists(p: Platform, account: Uuid, day: int)
    requires PlainPlatform(p) && account != NIL && day > 0
    ensures exists input ::
      Agreement(p, input) && UtcDay(input.legacy.header.asOf) == day && input.legacy.header.accountID == account
  {
    hide Agreement, SampleSnapshot, UtcDay;
    SampleAgrees(p, account, day);
    SampleHeaders(p, account, day);
    assert Agreement(p, SampleComparison(p, account, day));
  }
}

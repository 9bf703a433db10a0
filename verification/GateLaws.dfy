/** What readiness implies, and what it does not depend on (gate.go). */
module GateLaws {
  import opened Text
  import opened Timestamps
  import opened Evidence
  import opened Comparisons
  import opened ComparisonLaws
  import opened RunValidation
  import opened CutoverGate

  lemma {:induction false} CandidatesMember(runs: seq<Option<Run>>, day: int, r: Run)
    ensures r in Candidates(runs, day) <==> Some(r) in runs && UtcDay(r.body.asOf) == day
  {
    hide UtcDay;
    if runs != [] {
      var n := |runs| - 1;
      CandidatesMember(runs[..n], day, r);
      assert runs == runs[..n] + [runs[n]];
    }
  }

  // ---------------------------------------------------------------- what readiness implies

  /** Equal on both sides, or explained by a reviewer who is not the generator, inside the evidence window. */
  ghost predicate Accounted(run: Run, r: Result)
    requires run.body.legacy.Some? && run.body.ledger.Some?
  {
    || (r.status == EQUAL && r.legacyValue.Some? && r.legacyValue == r.ledgerValue)
    || (r.status == EXPLAINED && r.explanation.Some?
        && r.explanation.value.factKey == r.factKey
        && r.explanation.value.generator == run.body.generator && r.explanation.value.reviewer != run.body.generator
        && run.body.legacy.value.header.observedAt.nanos <= r.explanation.value.reviewedAt.nanos
        && run.body.ledger.value.header.observedAt.nanos <= r.explanation.value.reviewedAt.nanos
        && r.explanation.value.reviewedAt.nanos <= run.body.generatedAt.nanos)
  }

  lemma QualifiedAccounts(p: Platform, run: Run, verify: Run -> bool)
    requires Qualifies(p, run, verify)
    ensures run.body.legacy.Some? && run.body.ledger.Some?
    ensures forall i :: 0 <= i < |run.body.results| ==> Accounted(run, run.body.results[i])
    ensures RequiredKeys() <= KeySet(run.body.results, ResultKey)
  {
    hide RunValidates, RequiredKeys;
    ValidatesInput(p, run);
    NothingOpen(p, run);
    ValidResults(p, run);
    hide Comparable, BuildRun, FactKeys, ExplanationsOf, InputOfRun, CountStatus;
    forall i | 0 <= i < |run.body.results| ensures Accounted(run, run.body.results[i]) {
      AccountedAt(p, run, InputOfRun(run.body), i);
    }
  }

  lemma AccountedAt(p: Platform, run: Run, input: ComparisonInput, i: nat)
    requires Comparable(p, input) && i < |run.body.results| && run.body.results == BuildRun(p, input).body.results
    requires run.body.legacy == Some(input.legacy) && run.body.ledger == Some(input.ledger)
    requires run.body.generator == input.generator && run.body.generatedAt == input.generatedAt
    requires Means(input.legacy, input.ledger, input.explanations, run.body.results[i]) && Settled(run.body.results[i])
    ensures Accounted(run, run.body.results[i])
  {
    hide Comparable, BuildRun, FactValue;
    if run.body.results[i].status == EXPLAINED { ExplanationsReviewed(p, input, i); }
  }

  /** A day of the window with a run of that day that counts, accounts for every fact, and shares the policy of the
      first day. */
  ghost predicate Evidenced(p: Platform, q: Question, sort: seq<Run> -> seq<Run>, i: int)
    requires IsSort(sort) && q.verifier.Some?
  {
    && Candidates(q.runs, WindowDay(q, i)) != [] && Candidates(q.runs, WindowDay(q, 0)) != []
    && var run := ChosenOn(q, sort, WindowDay(q, i));
    && Some(run) in q.runs && UtcDay(run.body.asOf) == WindowDay(q, i) && AccountsForAll(p, run, q.verifier.value)
    && SamePolicy(run, ChosenOn(q, sort, WindowDay(q, 0)))
  }

  ghost predicate AccountsForAll(p: Platform, run: Run, verify: Run -> bool) {
    && Qualifies(p, run, verify) && run.body.legacy.Some? && run.body.ledger.Some?
    && (forall k :: 0 <= k < |run.body.results| ==> Accounted(run, run.body.results[k]))
    && RequiredKeys() <= KeySet(run.body.results, ResultKey)
  }

  lemma QualifyingAccounts(p: Platform, run: Run, verify: Run -> bool)
    requires Qualifies(p, run, verify)
    ensures AccountsForAll(p, run, verify)
  {
    hide Qualifies, Accounted, KeySet, RequiredKeys;
    QualifiedAccounts(p, run, verify);
  }

  /** Readiness gives, for each day of the window, a run of that day that counts and accounts for every fact,
      all of them for one account and policy, with nothing later than the through date. */
  lemma ReadyEvidence(p: Platform, q: Question, sort: seq<Run> -> seq<Run>, i: int)
    requires IsSort(sort) && Ready(p, q, sort) && 0 <= i < q.days
    ensures q.verifier.Some? && Evidenced(p, q, sort, i)
    ensures forall r :: Some(r) in q.runs ==> UtcDay(r.body.asOf) <= WindowDay(q, q.days - 1)
  {
    hide IsSort, Qualifies, UtcDay, Candidates, AccountsForAll, SamePolicy, Chosen;
    ReadyHasEvidence(p, q, sort, i);
    ReadyHasEvidence(p, q, sort, 0);
    var run := ChosenOn(q, sort, WindowDay(q, i));
    assert DayHolds(p, q, sort, WindowDay(q, i));
    CandidatesMember(q.runs, WindowDay(q, i), run);
    QualifyingAccounts(p, run, q.verifier.value);
    forall r | Some(r) in q.runs ensures UtcDay(r.body.asOf) <= WindowDay(q, q.days - 1) {
      assert !LateRun(q, Some(r));
    }
  }

  // ---------------------------------------------------------------- fewer days

  /** Ready for n days is ready for any fewer. */
  lemma ReadyForFewerDays(p: Platform, q: Question, sort: seq<Run> -> seq<Run>, m: int)
    requires IsSort(sort) && Ready(p, q, sort) && 1 <= m <= q.days
    ensures Ready(p, q.(days := m), sort)
  {
    hide IsSort, Qualifies, UtcDay, Candidates;
    var fewer := q.(days := m);
    forall i | 0 <= i < m ensures DayHolds(p, fewer, sort, WindowDay(fewer, i)) {
      assert WindowDay(fewer, i) == WindowDay(q, i + q.days - m);
      assert DayHolds(p, q, sort, WindowDay(q, i + q.days - m));
    }
    forall r | r in fewer.runs ensures !LateRun(fewer, r) { assert !LateRun(q, r); }
    forall i, j | 0 <= i < m && 0 <= j < m
      ensures SamePolicy(ChosenOn(fewer, sort, WindowDay(fewer, i)), ChosenOn(fewer, sort, WindowDay(fewer, j)))
    {
      assert WindowDay(fewer, i) == WindowDay(q, i + q.days - m) && WindowDay(fewer, j) == WindowDay(q, j + q.days - m);
      assert SamePolicy(ChosenOn(q, sort, WindowDay(q, i + q.days - m)),
        ChosenOn(q, sort, WindowDay(q, j + q.days - m)));
    }
  }

  // ---------------------------------------------------------------- order, duplicates, older runs

  /** A run on or after the first day of the window. */
  predicate Recent(q: Question, r: Run) { UtcDay(r.body.asOf) >= WindowDay(q, 0) }

  /** The same recent runs, in any order and any number of copies; older runs are free. */
  ghost predicate SameRecent(q: Question, runs: seq<Option<Run>>) {
    forall r: Run :: Recent(q, r) ==> (Some(r) in q.runs <==> Some(r) in runs)
  }

  /** Every recent run validates and has its loosely checked fields pinned. */
  ghost predicate RecentValid(p: Platform, q: Question) {
    forall r: Run :: Some(r) in q.runs && Recent(q, r) ==> RunValidates(p, r) && Pinned(r.body)
  }

  lemma SameEvidenceSameRun(p: Platform, a: Run, b: Run)
    requires RunValidates(p, a) && Pinned(a.body) && RunValidates(p, b) && Pinned(b.body) && SameEvidence(a, b)
    ensures a == b
  {
    hide RunValidates, Pinned;
    RunPayloadDetermines(p, a, b);
  }

  /** A day's verdict and choice depend only on which valid runs it has. */
  lemma DayIgnoresOrder(p: Platform, cs: seq<Run>, ds: seq<Run>, verify: Run -> bool, sort: seq<Run> -> seq<Run>,
      other: seq<Run> -> seq<Run>)
    requires IsSort(sort) && IsSort(other)
    requires forall r :: r in cs <==> r in ds
    requires forall r :: r in cs ==> RunValidates(p, r) && Pinned(r.body)
    requires DayReady(p, cs, verify, sort)
    ensures DayReady(p, ds, verify, other) && Chosen(ds, other) == Chosen(cs, sort)
  {
    hide IsSort, Qualifies, RunValidates, Pinned, SameEvidence;
    var chosen := Chosen(cs, sort);
    forall r | r in cs ensures r == chosen { SameEvidenceSameRun(p, r, chosen); }
    assert chosen in ds;
    var again := Chosen(ds, other);
    assert again in cs;
    forall r | r in ds ensures r == chosen { assert r in cs; }
  }

  lemma CandidatesSame(q: Question, runs: seq<Option<Run>>, day: int)
    requires SameRecent(q, runs) && day >= WindowDay(q, 0)
    ensures forall r :: r in Candidates(q.runs, day) <==> r in Candidates(runs, day)
  {
    hide UtcDay, WindowDay;
    forall r ensures r in Candidates(q.runs, day) <==> r in Candidates(runs, day) {
      CandidatesMember(q.runs, day, r);
      CandidatesMember(runs, day, r);
      assert UtcDay(r.body.asOf) == day ==> Recent(q, r);
    }
  }

  lemma ReadyTransfers(p: Platform, q: Question, runs: seq<Option<Run>>, sort: seq<Run> -> seq<Run>,
      other: seq<Run> -> seq<Run>)
    requires IsSort(sort) && IsSort(other) && SameRecent(q, runs) && RecentValid(p, q) && Ready(p, q, sort)
    ensures Ready(p, q.(runs := runs), other)
    ensures forall i :: 0 <= i < q.days ==>
      Candidates(runs, WindowDay(q, i)) != []
        && ChosenOn(q.(runs := runs), other, WindowDay(q, i)) == ChosenOn(q, sort, WindowDay(q, i))
  {
    hide IsSort, Qualifies, UtcDay, Candidates, RunValidates, Pinned;
    var again := q.(runs := runs);
    forall i | 0 <= i < q.days
      ensures DayHolds(p, again, other, WindowDay(again, i)) && Candidates(runs, WindowDay(q, i)) != []
      ensures ChosenOn(again, other, WindowDay(q, i)) == ChosenOn(q, sort, WindowDay(q, i))
    {
      DayAgain(p, q, runs, sort, other, i);
    }
    forall r | r in runs ensures !LateRun(again, r) {
      assert LateRun(q, r) ==> Recent(q, r.value);
      assert LateRun(q, r) ==> r in q.runs;
    }
    forall i, j | 0 <= i < q.days && 0 <= j < q.days
      ensures SamePolicy(ChosenOn(again, other, WindowDay(again, i)), ChosenOn(again, other, WindowDay(again, j)))
    {
      assert WindowDay(again, i) == WindowDay(q, i) && WindowDay(again, j) == WindowDay(q, j);
      assert SamePolicy(ChosenOn(q, sort, WindowDay(q, i)), ChosenOn(q, sort, WindowDay(q, j)));
    }
  }

  lemma DayAgain(p: Platform, q: Question, runs: seq<Option<Run>>, sort: seq<Run> -> seq<Run>,
      other: seq<Run> -> seq<Run>, i: int)
    requires IsSort(sort) && IsSort(other) && SameRecent(q, runs) && RecentValid(p, q) && Ready(p, q, sort)
      && 0 <= i < q.days
    ensures DayHolds(p, q.(runs := runs), other, WindowDay(q, i)) && Candidates(runs, WindowDay(q, i)) != []
    ensures ChosenOn(q.(runs := runs), other, WindowDay(q, i)) == ChosenOn(q, sort, WindowDay(q, i))
  {
    hide IsSort, Qualifies, UtcDay, Candidates, RunValidates, Pinned, SameEvidence, Chosen;
    var day := WindowDay(q, i);
    assert DayHolds(p, q, sort, day);
    CandidatesSame(q, runs, day);
    forall r | r in Candidates(q.runs, day) ensures RunValidates(p, r) && Pinned(r.body) {
      CandidatesMember(q.runs, day, r);
      assert Recent(q, r);
    }
    DayIgnoresOrder(p, Candidates(q.runs, day), Candidates(runs, day), q.verifier.value, sort, other);
  }

  /** For valid recent runs, readiness and the chosen runs survive reordering, duplication and any change to
      older runs. */
  lemma ReadinessStable(p: Platform, q: Question, runs: seq<Option<Run>>, sort: seq<Run> -> seq<Run>,
      other: seq<Run> -> seq<Run>)
    requires IsSort(sort) && IsSort(other) && SameRecent(q, runs) && RecentValid(p, q)
    ensures Ready(p, q, sort) <==> Ready(p, q.(runs := runs), other)
    ensures Ready(p, q, sort) ==> forall i :: 0 <= i < q.days ==>
      Candidates(runs, WindowDay(q, i)) != [] && Candidates(q.runs, WindowDay(q, i)) != []
      && ChosenOn(q.(runs := runs), other, WindowDay(q, i)).id == ChosenOn(q, sort, WindowDay(q, i)).id
  {
    hide IsSort, Ready, RunValidates, Pinned, Candidates, UtcDay, Chosen;
    var again := q.(runs := runs);
    if Ready(p, q, sort) {
      ReadyTransfers(p, q, runs, sort, other);
      forall i | 0 <= i < q.days ensures Candidates(q.runs, WindowDay(q, i)) != [] { ReadyHasEvidence(p, q, sort, i); }
    }
    if Ready(p, again, other) {
      assert forall r: Run :: Recent(again, r) <==> Recent(q, r);
      ReadyTransfers(p, again, q.runs, other, sort);
      assert again.(runs := q.runs) == q;
    }
  }

  lemma ReadyHasEvidence(p: Platform, q: Question, sort: seq<Run> -> seq<Run>, i: int)
    requires IsSort(sort) && Ready(p, q, sort) && 0 <= i < q.days
    ensures Candidates(q.runs, WindowDay(q, i)) != []
  {
    hide IsSort, Qualifies, Candidates, UtcDay;
    assert DayHolds(p, q, sort, WindowDay(q, i));
  }
}

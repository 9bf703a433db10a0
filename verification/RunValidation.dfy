/** Run.Validate: rebuilding a run from its own fields (comparison.go). */
module RunValidation {
  import opened Text
  import opened Decimals
  import opened Uuids
  import opened Timestamps
  import opened Evidence
  import opened Snapshots
  import opened Comparisons
  import opened Comparing
  import opened ComparisonLaws

  // ---------------------------------------------------------------- order independence

  /** The order of the explanations changes neither acceptance nor the run. */
  lemma RunOrderIndependent(p: Platform, input: ComparisonInput, es: seq<Explanation>)
    requires multiset(es) == multiset(input.explanations)
    ensures Comparable(p, input) <==> Comparable(p, input.(explanations := es))
    ensures Comparable(p, input) ==> BuildRun(p, input) == BuildRun(p, input.(explanations := es))
  {
    hide Validates, SameBoundary, NormalizedRequired, UtcMicrosecond, ValidExplanation, FactKeys, Differs, BuildRun;
    var other := input.(explanations := es);
    MultisetMembers(es, input.explanations);
    DistinctPermutes(es, input.explanations, ExplanationKey);
    forall e ensures e in es <==> e in input.explanations {
      assert e in es <==> e in multiset(es);
      assert e in input.explanations <==> e in multiset(input.explanations);
    }
    assert LatestObservation(other) == LatestObservation(input);
    if Comparable(p, input) {
      IndexPermutes(input.explanations, es, ExplanationKey);
      SameResults(p, input, other);
    }
  }

  lemma SameResults(p: Platform, a: ComparisonInput, b: ComparisonInput)
    requires a.(explanations := b.explanations) == b
    requires IndexBy(a.explanations, ExplanationKey) == IndexBy(b.explanations, ExplanationKey)
    ensures BuildRun(p, a) == BuildRun(p, b)
  {
    hide IndexBy, Outcome, FactKeys, Ascending, Enclose;
    assert ResultsFor(p, a) == ResultsFor(p, b);
  }

  // ---------------------------------------------------------------- validation

  /** The explanations attached to a list of results, in order. */
  function ExplanationsOf(rs: seq<Result>): seq<Explanation> {
    if rs == [] then []
    else ExplanationsOf(rs[..|rs| - 1]) + (match rs[|rs| - 1].explanation case None => [] case Some(e) => [e])
  }

  function InputOfRun(b: RunBody): ComparisonInput
    requires b.legacy.Some? && b.ledger.Some?
  {
    ComparisonInput(b.legacy.value, b.ledger.value, b.generator, b.generatedAt, ExplanationsOf(b.results))
  }

  ghost predicate SameIdentity(run: Run, rebuilt: Run) {
    && rebuilt.id == run.id && rebuilt.checksum == run.checksum && rebuilt.payload == run.payload
    && rebuilt.body.equalCount == run.body.equalCount && rebuilt.body.explainedCount == run.body.explainedCount
    && rebuilt.body.unexplainedCount == run.body.unexplainedCount
      && rebuilt.body.notComparableCount == run.body.notComparableCount
  }

  ghost predicate RunValidates(p: Platform, run: Run) {
    && run.body.legacy.Some? && run.body.ledger.Some?
    && CanonicalRunPayload(run.body) == run.payload
    && Comparable(p, InputOfRun(run.body))
    && SameIdentity(run, BuildRun(p, InputOfRun(run.body)))
  }

  method ValidateRun(p: Platform, run: Run) returns (ok: bool)
    ensures ok <==> RunValidates(p, run)
  {
    hide Comparable, BuildRun, CanonicalRunPayload;
    if run.body.legacy.None? || run.body.ledger.None? { return false; }
    if CanonicalRunPayload(run.body) != run.payload { return false; }
    var explanations: seq<Explanation> := [];
    for i := 0 to |run.body.results|
      invariant explanations == ExplanationsOf(run.body.results[..i])
    {
      assert run.body.results[..i + 1][..i] == run.body.results[..i];
      if run.body.results[i].explanation.Some? {
        explanations := explanations + [run.body.results[i].explanation.value];
      }
    }
    assert run.body.results[..|run.body.results|] == run.body.results;
    var rebuilt := Compare(p, run.body.legacy, run.body.ledger, run.body.generator, run.body.generatedAt, explanations);
    if rebuilt.None? { return false; }
    var again := rebuilt.value;
    ok := again.id == run.id && again.checksum == run.checksum && again.payload == run.payload
      && again.body.equalCount == run.body.equalCount && again.body.explainedCount == run.body.explainedCount
      && again.body.unexplainedCount == run.body.unexplainedCount
        && again.body.notComparableCount == run.body.notComparableCount;
  }

  // ---------------------------------------------------------------- what a payload determines

  lemma OptionalTextInjective(a: Option<Decimal>, b: Option<Decimal>)
    requires TextOptional(a) == TextOptional(b)
    ensures a == b
  {
    hide Decimals.Print;
    if a.Some? && b.Some? { Decimals.PrintInjective(a.value, b.value); }
  }

  ghost predicate Timely(e: Option<Explanation>) { e.Some? ==> UtcMicrosecond(e.value.reviewedAt) }

  lemma ResultTextInjective(a: Result, b: Result)
    requires ResultText(a) == ResultText(b) && Timely(a.explanation) && Timely(b.explanation)
    ensures a == b
  {
    hide Uuids.Print, TextOptional, Timestamps.Print, UtcMicrosecond;
    Uuids.PrintInjective(a.id, b.id);
    OptionalTextInjective(a.legacyValue, b.legacyValue);
    OptionalTextInjective(a.ledgerValue, b.ledgerValue);
    OptionalTextInjective(a.delta, b.delta);
    if a.explanation.Some? && b.explanation.Some? {
      Timestamps.PrintDetermines(a.explanation.value.reviewedAt, b.explanation.value.reviewedAt);
    }
  }

  lemma ResultsTextInjective(xs: seq<Result>, ys: seq<Result>)
    requires Map(ResultText, xs) == Map(ResultText, ys)
    requires forall i :: 0 <= i < |xs| ==> Timely(xs[i].explanation)
    requires forall i :: 0 <= i < |ys| ==> Timely(ys[i].explanation)
    ensures xs == ys
  {
    hide ResultText, Timely;
    assert |xs| == |Map(ResultText, xs)| == |ys|;
    forall i | 0 <= i < |xs| ensures xs[i] == ys[i] {
      assert ResultText(xs[i]) == Map(ResultText, xs)[i] == ResultText(ys[i]);
      ResultTextInjective(xs[i], ys[i]);
    }
  }

  lemma {:induction false} ExplanationListed(rs: seq<Result>, i: nat)
    requires i < |rs| && rs[i].explanation.Some?
    ensures rs[i].explanation.value in ExplanationsOf(rs)
  {
    if i < |rs| - 1 {
      ExplanationListed(rs[..|rs| - 1], i);
    }
  }

  lemma ValidReviewTimes(p: Platform, es: seq<Explanation>, generator: string, earliest: Time, generatedAt: Time)
    requires ValidExplanations(p, es, generator, earliest, generatedAt)
    ensures forall e :: e in es ==> UtcMicrosecond(e.reviewedAt)
  {
    hide ValidFactKey, ValidCode, NormalizedRequired, ValidChecksum, UtcMicrosecond;
  }

  lemma ComparableTimely(p: Platform, input: ComparisonInput)
    requires Comparable(p, input)
    ensures forall e :: e in input.explanations ==> UtcMicrosecond(e.reviewedAt)
    ensures forall i :: 0 <= i < |BuildRun(p, input).body.results| ==>
      Timely(BuildRun(p, input).body.results[i].explanation)
  {
    hide Validates, SameBoundary, NormalizedRequired, ValidExplanations, ExplanationsUsable, FactKeys, BuildRun,
      FactValue, UtcMicrosecond;
    ValidReviewTimes(p, input.explanations, input.generator, LatestObservation(input), input.generatedAt);
    EachFactOnce(p, input);
  }

  lemma SelfTimely(rs: seq<Result>)
    requires forall e :: e in ExplanationsOf(rs) ==> UtcMicrosecond(e.reviewedAt)
    ensures forall i :: 0 <= i < |rs| ==> Timely(rs[i].explanation)
  {
    hide UtcMicrosecond;
    forall i | 0 <= i < |rs| ensures Timely(rs[i].explanation) {
      if rs[i].explanation.Some? { ExplanationListed(rs, i); }
    }
  }

  /** The fields Validate compares only in printed form. */
  ghost predicate PrintsAlike(b: RunBody, c: RunBody) {
    Timestamps.Print(b.asOf) == Timestamps.Print(c.asOf) && Microseconds(b.maxMarkAge) == Microseconds(c.maxMarkAge)
  }

  ghost predicate SameButPrinted(b: RunBody, c: RunBody) {
    b == c.(asOf := b.asOf, maxMarkAge := b.maxMarkAge) && PrintsAlike(b, c)
  }

  lemma SamePayloadSameBody(b: RunBody, c: RunBody)
    requires b.legacy.Some? && b.ledger.Some? && b.legacy == c.legacy && b.ledger == c.ledger
      && b.generatedAt == c.generatedAt
    requires CanonicalRunPayload(b) == CanonicalRunPayload(c)
    requires forall i :: 0 <= i < |b.results| ==> Timely(b.results[i].explanation)
    requires forall i :: 0 <= i < |c.results| ==> Timely(c.results[i].explanation)
    ensures SameButPrinted(b, c)
  {
    hide Uuids.Print, Timestamps.Print, ResultText, Timely, Map, Microseconds;
    Uuids.PrintInjective(b.accountID, c.accountID);
    ResultsTextInjective(b.results, c.results);
  }

  /** A run validates exactly when it is what Compare rebuilds from it, except that its as-of time and
      maximum mark age need only print like the rebuilt ones; its attestation is not looked at. */
  lemma RunValidateExact(p: Platform, run: Run)
    requires run.body.legacy.Some? && run.body.ledger.Some?
    ensures RunValidates(p, run) <==>
      var rebuilt := BuildRun(p, InputOfRun(run.body));
      Comparable(p, InputOfRun(run.body)) && SameButPrinted(run.body, rebuilt.body)
      && run == rebuilt.(body := run.body, attestation := run.attestation)
  {
    hide Comparable, BuildRun, SameButPrinted, ExplanationsOf;
    var input := InputOfRun(run.body);
    var rebuilt := BuildRun(p, input);
    BuildShape(p, input);
    if RunValidates(p, run) {
      ComparableTimely(p, input);
      SelfTimely(run.body.results);
      hide CanonicalRunPayload;
      SamePayloadSameBody(run.body, rebuilt.body);
    }
    if Comparable(p, input) && SameButPrinted(run.body, rebuilt.body)
      && run == rebuilt.(body := run.body, attestation := run.attestation) {
      PrintedAlikePayload(run.body, rebuilt.body);
    }
  }

  lemma PrintedAlikePayload(b: RunBody, c: RunBody)
    requires SameButPrinted(b, c) && c.legacy.Some? && c.ledger.Some?
    ensures b.legacy.Some? && b.ledger.Some? && CanonicalRunPayload(b) == CanonicalRunPayload(c)
    ensures b.equalCount == c.equalCount && b.explainedCount == c.explainedCount
    ensures b.unexplainedCount == c.unexplainedCount && b.notComparableCount == c.notComparableCount
  {
    hide Uuids.Print, Timestamps.Print, ResultText, Map, Microseconds;
  }

  lemma BuildShape(p: Platform, input: ComparisonInput)
    ensures var run := BuildRun(p, input);
      && run.body.legacy == Some(input.legacy) && run.body.ledger == Some(input.ledger)
      && run.body.generator == input.generator && run.body.generatedAt == input.generatedAt
      && run.body.asOf == input.legacy.header.asOf && run.body.maxMarkAge == input.legacy.header.maxMarkAge
      && run.body.accountID == input.legacy.header.accountID
      && run.body.captureFenceID == input.legacy.header.captureFenceID
        && run.body.captureEpoch == input.legacy.header.captureEpoch
      && run.payload == CanonicalRunPayload(run.body) && run.attestation == UNATTESTED
  {
    hide ResultsFor, CanonicalRunPayload, RunID, CountStatus;
  }

  // ---------------------------------------------------------------- constructor output validates

  lemma {:induction false} ExplanationsSorted(rs: seq<Result>)
    requires StrictlySorted(rs, ResultKey)
    requires forall i :: 0 <= i < |rs| && rs[i].explanation.Some? ==> rs[i].explanation.value.factKey == rs[i].factKey
    ensures StrictlySorted(ExplanationsOf(rs), ExplanationKey)
    ensures forall e :: e in ExplanationsOf(rs) ==> exists i :: 0 <= i < |rs| && rs[i].explanation == Some(e)
  {
    if rs != [] {
      var n := |rs| - 1;
      var front := ExplanationsOf(rs[..n]);
      ExplanationsSorted(rs[..n]);
      forall e | e in front
        ensures Before(e.factKey, rs[n].factKey) && exists i :: 0 <= i < |rs| && rs[i].explanation == Some(e) {
        var i :| 0 <= i < n && rs[..n][i].explanation == Some(e);
        assert rs[i].explanation == Some(e) && Before(ResultKey(rs[i]), ResultKey(rs[n]));
      }
    }
  }

  /** The explanations attached to a run are the ones it was given. */
  lemma AttachedExplanations(p: Platform, input: ComparisonInput)
    requires Comparable(p, input)
    ensures multiset(ExplanationsOf(BuildRun(p, input).body.results)) == multiset(input.explanations)
  {
    hide Validates, SameBoundary, NormalizedRequired, UtcMicrosecond, ValidExplanation, FactKeys, Differs, BuildRun,
      FactValue, ExplanationsOf;
    EachFactOnce(p, input);
    AttachedAre(input, BuildRun(p, input).body.results);
  }

  lemma AttachedAre(input: ComparisonInput, rs: seq<Result>)
    requires KeySet(rs, ResultKey) == FactKeys(input.legacy, input.ledger) && StrictlySorted(rs, ResultKey)
    requires forall i :: 0 <= i < |rs| ==> Means(input.legacy, input.ledger, input.explanations, rs[i])
    requires DistinctKeys(input.explanations, ExplanationKey) && ExplanationsUsable(input)
    ensures multiset(ExplanationsOf(rs)) == multiset(input.explanations)
  {
    hide FactKeys, FactValue, Differs, ExplanationsOf, Means, ExplanationsUsable, StrictlySorted, DistinctKeys, KeySet;
    var es, found := input.explanations, ExplanationsOf(rs);
    OwnExplanations(input, rs);
    ExplanationsSorted(rs);
    StrictlySortedDistinct(found, ExplanationKey);
    forall e ensures e in multiset(found) <==> e in multiset(es) {
      if e in found { AttachedWasGiven(input, rs, e); }
      if e in es { GivenIsAttached(input, rs, e); }
    }
    DistinctSameMembers(found, es, ExplanationKey);
  }

  lemma OwnExplanations(input: ComparisonInput, rs: seq<Result>)
    requires forall i :: 0 <= i < |rs| ==> Means(input.legacy, input.ledger, input.explanations, rs[i])
    ensures forall i :: 0 <= i < |rs| && rs[i].explanation.Some? ==>
      rs[i].explanation.value.factKey == rs[i].factKey && rs[i].explanation.value in input.explanations
  {
    hide FactKeys, FactValue, Differs;
    forall i | 0 <= i < |rs| && rs[i].explanation.Some?
      ensures rs[i].explanation.value.factKey == rs[i].factKey && rs[i].explanation.value in input.explanations
    {
      assert Means(input.legacy, input.ledger, input.explanations, rs[i]);
    }
  }

  lemma AttachedWasGiven(input: ComparisonInput, rs: seq<Result>, e: Explanation)
    requires StrictlySorted(rs, ResultKey)
    requires forall i :: 0 <= i < |rs| ==> Means(input.legacy, input.ledger, input.explanations, rs[i])
    requires e in ExplanationsOf(rs)
    ensures e in input.explanations
  {
    hide Means, ExplanationsOf, StrictlySorted;
    OwnExplanations(input, rs);
    ExplanationsSorted(rs);
    var i :| 0 <= i < |rs| && rs[i].explanation == Some(e);
  }

  lemma GivenIsAttached(input: ComparisonInput, rs: seq<Result>, e: Explanation)
    requires KeySet(rs, ResultKey) == FactKeys(input.legacy, input.ledger)
    requires forall i :: 0 <= i < |rs| ==> Means(input.legacy, input.ledger, input.explanations, rs[i])
    requires DistinctKeys(input.explanations, ExplanationKey) && ExplanationsUsable(input) && e in input.explanations
    ensures e in ExplanationsOf(rs)
  {
    hide FactKeys, FactValue, Differs, ExplanationsOf, DistinctKeys;
    var es := input.explanations;
    assert e.factKey in KeySet(rs, ResultKey);
    var i :| 0 <= i < |rs| && ResultKey(rs[i]) == e.factKey;
    KeySetMember(es, ExplanationKey, e);
    assert Means(input.legacy, input.ledger, es, rs[i]);
    IndexFinds(es, ExplanationKey, e);
    IndexFinds(es, ExplanationKey, rs[i].explanation.value);
    ExplanationListed(rs, i);
  }

  /** Rebuilding a constructed run gives the same run, so it validates. */
  lemma BuiltRunValidates(p: Platform, input: ComparisonInput)
    requires Comparable(p, input)
    ensures Comparable(p, InputOfRun(BuildRun(p, input).body))
    ensures BuildRun(p, InputOfRun(BuildRun(p, input).body)) == BuildRun(p, input)
    ensures RunValidates(p, BuildRun(p, input))
  {
    hide Comparable, BuildRun, ExplanationsOf;
    var run := BuildRun(p, input);
    BuildShape(p, input);
    AttachedExplanations(p, input);
    var es := ExplanationsOf(run.body.results);
    RunOrderIndependent(p, input, es);
    assert InputOfRun(run.body) == input.(explanations := es);
  }

  // ---------------------------------------------------------------- the two loosely checked fields

  /** As-of time in UTC to the microsecond, and a whole number of microseconds of mark age. */
  predicate Pinned(b: RunBody) { UtcMicrosecond(b.asOf) && b.maxMarkAge % 1000 == 0 }

  lemma SnapshotTimes(p: Platform, input: ComparisonInput)
    requires Comparable(p, input)
    ensures UtcMicrosecond(input.legacy.header.asOf) && input.legacy.header.maxMarkAge > 0
      && input.legacy.header.maxMarkAge % 1000 == 0
    ensures UtcMicrosecond(input.generatedAt)
  {
    hide ValidExplanations, ExplanationsUsable, SameBoundary, NormalizedRequired, UtcMicrosecond, Build,
      CanonicalPayload, ConsistentFacts;
    HeaderPrinted(p, input.legacy);
  }

  /** A validating run is wholly determined by rebuilding exactly when those two fields are pinned. */
  lemma ValidateDetermines(p: Platform, run: Run)
    requires RunValidates(p, run)
    ensures run == BuildRun(p, InputOfRun(run.body)).(attestation := run.attestation) <==> Pinned(run.body)
  {
    hide *;
    ValidatesInput(p, run);
    RunValidateExact(p, run);
    BuildShape(p, InputOfRun(run.body));
    SnapshotTimes(p, InputOfRun(run.body));
    PinnedBody(run.body, BuildRun(p, InputOfRun(run.body)).body);
  }

  lemma ValidatesInput(p: Platform, run: Run)
    requires RunValidates(p, run)
    ensures run.body.legacy.Some? && run.body.ledger.Some? && Comparable(p, InputOfRun(run.body))
    ensures InputOfRun(run.body).legacy == run.body.legacy.value && InputOfRun(run.body).ledger == run.body.ledger.value
    ensures InputOfRun(run.body).generator == run.body.generator
      && InputOfRun(run.body).generatedAt == run.body.generatedAt
  {
    hide Comparable, BuildRun, CanonicalRunPayload;
  }

  lemma PinnedBody(b: RunBody, c: RunBody)
    requires SameButPrinted(b, c) && UtcMicrosecond(c.asOf) && c.maxMarkAge > 0 && c.maxMarkAge % 1000 == 0
    ensures b == c <==> Pinned(b)
  {
    hide Timestamps.Print, UtcMicrosecond;
    if Pinned(b) { PrintDetermines(b.asOf, c.asOf); }
  }

  /** Any as-of time that prints alike passes validation. */
  lemma AnyAsOfThatPrintsAlike(p: Platform, input: ComparisonInput, asOf: Time)
    requires Comparable(p, input) && Timestamps.Print(asOf) == Timestamps.Print(input.legacy.header.asOf)
    ensures var run := BuildRun(p, input); RunValidates(p, run.(body := run.body.(asOf := asOf)))
  {
    hide Comparable, BuildRun, ExplanationsOf, CanonicalRunPayload, Timestamps.Print;
    var built := BuildRun(p, input);
    var run := built.(body := built.body.(asOf := asOf));
    BuiltRunValidates(p, input);
    BuildShape(p, input);
    assert InputOfRun(run.body) == InputOfRun(built.body);
    RunValidateExact(p, run);
  }

  /** Any mark age that prints alike passes validation. */
  lemma AnyMarkAgeThatPrintsAlike(p: Platform, input: ComparisonInput, age: Duration)
    requires Comparable(p, input) && Microseconds(age) == Microseconds(input.legacy.header.maxMarkAge)
    ensures var run := BuildRun(p, input); RunValidates(p, run.(body := run.body.(maxMarkAge := age)))
  {
    hide Comparable, BuildRun, ExplanationsOf, CanonicalRunPayload, Timestamps.Print, Microseconds;
    var built := BuildRun(p, input);
    var run := built.(body := built.body.(maxMarkAge := age));
    BuiltRunValidates(p, input);
    BuildShape(p, input);
    assert InputOfRun(run.body) == InputOfRun(built.body);
    RunValidateExact(p, run);
  }

  /** Validation does not pin the as-of time: one nanosecond more still validates, and an hour earlier in a
      zone one hour ahead validates too, although its UTC day is the day before. */
  lemma ValidateMissesDrift(p: Platform, input: ComparisonInput)
    requires Comparable(p, input)
    ensures var run, t := BuildRun(p, input), input.legacy.header.asOf;
      && RunValidates(p, run.(body := run.body.(asOf := Time(t.nanos + 1, 0))))
      && RunValidates(p, run.(body := run.body.(asOf := Time(t.nanos - 3600 * SECOND, 3600))))
      && (t.nanos % DAY < 3600 * SECOND ==> UtcDay(Time(t.nanos - 3600 * SECOND, 3600)) == UtcDay(t) - 1)
  {
    hide *;
    var t := input.legacy.header.asOf;
    SnapshotTimes(p, input);
    DriftPrintsAlike(t);
    AnyAsOfThatPrintsAlike(p, input, Time(t.nanos + 1, 0));
    AnyAsOfThatPrintsAlike(p, input, Time(t.nanos - 3600 * SECOND, 3600));
  }

  lemma DriftPrintsAlike(t: Time)
    requires UtcMicrosecond(t)
    ensures Timestamps.Print(Time(t.nanos + 1, 0)) == Timestamps.Print(t)
    ensures Timestamps.Print(Time(t.nanos - 3600 * SECOND, 3600)) == Timestamps.Print(t)
    ensures t.nanos % DAY < 3600 * SECOND ==> UtcDay(Time(t.nanos - 3600 * SECOND, 3600)) == UtcDay(t) - 1
  {
    hide Timestamps.Print;
    Timestamps.PrintInjective(Time(t.nanos + 1, 0), t);
    Timestamps.PrintInjective(Time(t.nanos - 3600 * SECOND, 3600), t);
    assert (t.nanos + 1) / 1000 == t.nanos / 1000;
  }

  // ---------------------------------------------------------------- payload determines the run

  lemma SnapshotsDetermined(p: Platform, a: ComparisonInput, b: ComparisonInput)
    requires Comparable(p, a) && Comparable(p, b)
    requires a.legacy.payload == b.legacy.payload && a.ledger.payload == b.ledger.payload
    ensures a.legacy == b.legacy && a.ledger == b.ledger
  {
    hide ValidExplanations, ExplanationsUsable, SameBoundary, NormalizedRequired, UtcMicrosecond, Validates;
    PayloadDetermines(p, a.legacy, b.legacy);
    PayloadDetermines(p, a.ledger, b.ledger);
  }

  /** Two validating, pinned runs with the same payload are the same run up to attestation. */
  lemma RunPayloadDetermines(p: Platform, a: Run, b: Run)
    requires RunValidates(p, a) && Pinned(a.body) && RunValidates(p, b) && Pinned(b.body)
    requires a.payload == b.payload
    ensures a == b.(attestation := a.attestation)
  {
    hide Comparable, BuildRun, ExplanationsOf, UtcMicrosecond, Timestamps.Print, Map, ResultText, Uuids.Print;
    SnapshotsDetermined(p, InputOfRun(a.body), InputOfRun(b.body));
    SnapshotTimes(p, InputOfRun(a.body));
    SnapshotTimes(p, InputOfRun(b.body));
    PrintDetermines(a.body.generatedAt, b.body.generatedAt);
    ComparableTimely(p, InputOfRun(a.body));
    ComparableTimely(p, InputOfRun(b.body));
    SelfTimely(a.body.results);
    SelfTimely(b.body.results);
    hide CanonicalRunPayload;
    SamePayloadSameBody(a.body, b.body);
    SameInput(a.body, b.body);
    ValidateDetermines(p, a);
    ValidateDetermines(p, b);
  }

  lemma SameInput(a: RunBody, b: RunBody)
    requires SameButPrinted(a, b) && a.legacy.Some? && a.ledger.Some?
    ensures b.legacy.Some? && b.ledger.Some? && InputOfRun(a) == InputOfRun(b)
  {
    hide ExplanationsOf;
  }
}

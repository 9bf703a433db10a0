/** Exactly when readiness does not depend on how ties are broken, and a tie that decides it (gate.go). */
module GateTies {
  import opened Text
  import opened Uuids
  import opened Timestamps
  import opened Evidence
  import opened Comparisons
  import opened ComparisonLaws
  import opened RunValidation
  import opened CutoverGate
  import opened GateLaws
  import opened GateOpens
  import opened SampleEvidence

  // ---------------------------------------------------------------- sorts that favour given runs

  function RunKey(r: Run): string { Uuids.Print(r.id) }

  /** One occurrence moved to the end. */
  ghost function MovedLast(cs: seq<Run>, r: Run): (ds: seq<Run>)
    requires r in cs
    ensures multiset(ds) == multiset(cs) && |ds| == |cs| && ds[|ds| - 1] == r
  {
    var i :| 0 <= i < |cs| && cs[i] == r;
    assert cs == cs[..i] + [cs[i]] + cs[i + 1..];
    cs[..i] + cs[i + 1..] + [r]
  }

  /** The first of the given runs that is among the candidates goes to the end, where sorting finds it first. */
  ghost function Favoured(choice: seq<Run>, cs: seq<Run>): (ds: seq<Run>)
    ensures multiset(ds) == multiset(cs)
  {
    if choice == [] then cs else if choice[0] in cs then MovedLast(cs, choice[0]) else Favoured(choice[1..], cs)
  }

  ghost function FavouringSort(choice: seq<Run>): seq<Run> -> seq<Run> { cs => SortBy(Favoured(choice, cs), RunKey) }

  /** Favouring some runs in ties is still sorting by identity. */
  lemma FavouringIsSort(choice: seq<Run>)
    ensures IsSort(FavouringSort(choice))
  {
    hide SortBy, Favoured, Before, Uuids.Print;
    var sort := FavouringSort(choice);
    forall cs ensures multiset(sort(cs)) == multiset(cs)
      && forall i, j :: 0 <= i < j < |sort(cs)| ==> !Before(Uuids.Print(sort(cs)[j].id), Uuids.Print(sort(cs)[i].id))
    {
      SortMultiset(Favoured(choice, cs), RunKey);
      SortAscends(Favoured(choice, cs), RunKey);
    }
  }

  lemma {:induction false} FavouredLast(choice: seq<Run>, cs: seq<Run>, r: Run)
    requires r in choice && r in cs && forall x :: x in choice && x in cs ==> x == r
    ensures |Favoured(choice, cs)| == |cs| && Favoured(choice, cs)[|cs| - 1] == r
  {
    if choice[0] !in cs {
      assert r in choice[1..];
      FavouredLast(choice[1..], cs, r);
    }
  }

  /** Among runs of one identity, a favoured one is chosen. */
  lemma FavouredChosen(choice: seq<Run>, cs: seq<Run>, r: Run)
    requires r in choice && r in cs && forall x :: x in choice && x in cs ==> x == r
    requires forall c :: c in cs ==> c.id == r.id
    ensures IsSort(FavouringSort(choice)) && Chosen(cs, FavouringSort(choice)) == r
  {
    hide SortBy, Favoured, IsSort;
    FavouringIsSort(choice);
    FavouredLast(choice, cs, r);
    var ds := Favoured(choice, cs);
    MultisetMembers(ds, cs);
    forall i, j | 0 <= i < |ds| && 0 <= j < |ds| ensures RunKey(ds[i]) == RunKey(ds[j]) {
      assert ds[i] in cs && ds[j] in cs;
    }
    SortLastFirst(ds, RunKey);
  }

  // ---------------------------------------------------------------- ready for some sort, ready for every sort

  ghost predicate Uncontested(cs: seq<Run>) { cs != [] && forall a, b :: a in cs && b in cs ==> SameEvidence(a, b) }

  /** The request is in order, nothing is late, and every day of the window has evidence that is not contested. */
  ghost predicate Standing(q: Question) {
    && WellPosed(q) && (forall r :: r in q.runs ==> !LateRun(q, r))
    && (forall i :: 0 <= i < q.days ==> Uncontested(Candidates(q.runs, WindowDay(q, i))))
  }

  ghost predicate Candidate(q: Question, i: int, c: Run) { 0 <= i < q.days && c in Candidates(q.runs, WindowDay(q, i)) }

  /** One qualifying run a day, all under one policy. */
  ghost predicate GoodChoice(p: Platform, q: Question, choice: seq<Run>)
    requires q.verifier.Some?
  {
    && |choice| == q.days
    && (forall i :: 0 <= i < q.days ==> Candidate(q, i, choice[i]) && Qualifies(p, choice[i], q.verifier.value))
    && (forall i, j :: 0 <= i < q.days && 0 <= j < q.days ==> SamePolicy(choice[i], choice[j]))
  }

  ghost predicate PossiblyReady(p: Platform, q: Question) {
    Standing(q) && q.verifier.Some? && exists choice :: GoodChoice(p, q, choice)
  }

  /** Every candidate of every day qualifies, and candidates of different days share one policy. */
  ghost predicate SurelyReady(p: Platform, q: Question) {
    && Standing(q) && q.verifier.Some?
    && (forall i, c :: Candidate(q, i, c) ==> Qualifies(p, c, q.verifier.value))
    && (forall i, j, c, d :: i != j && Candidate(q, i, c) && Candidate(q, j, d) ==> SamePolicy(c, d))
  }

  lemma CandidateDay(q: Question, i: int, c: Run)
    ensures Candidate(q, i, c) <==> 0 <= i < q.days && Some(c) in q.runs && UtcDay(c.body.asOf) == WindowDay(q, i)
  {
    hide UtcDay;
    if 0 <= i < q.days { CandidatesMember(q.runs, WindowDay(q, i), c); }
  }

  lemma ReadyStands(p: Platform, q: Question, sort: seq<Run> -> seq<Run>)
    requires IsSort(sort) && Ready(p, q, sort)
    ensures Standing(q)
  {
    hide IsSort, Qualifies, UtcDay, Candidates, LateRun;
    forall i | 0 <= i < q.days ensures Uncontested(Candidates(q.runs, WindowDay(q, i))) {
      assert DayHolds(p, q, sort, WindowDay(q, i));
    }
  }

  /** On the i-th day of the window the sort puts this run first. */
  ghost predicate Picks(q: Question, sort: seq<Run> -> seq<Run>, i: int, c: Run) {
    IsSort(sort) && Candidates(q.runs, WindowDay(q, i)) != [] && ChosenOn(q, sort, WindowDay(q, i)) == c
  }

  lemma DayFromChoice(p: Platform, q: Question, sort: seq<Run> -> seq<Run>, i: int, c: Run)
    requires q.verifier.Some? && 0 <= i < q.days && Uncontested(Candidates(q.runs, WindowDay(q, i)))
    requires Picks(q, sort, i, c) && Qualifies(p, c, q.verifier.value)
    ensures IsSort(sort) && DayHolds(p, q, sort, WindowDay(q, i))
  {
    hide IsSort, Qualifies, UtcDay, Candidates, SameEvidence;
  }

  /** Some sort makes the gate ready exactly when some choice of qualifying candidates shares one policy. */
  lemma ReadyForSomeSort(p: Platform, q: Question)
    ensures (exists sort :: IsSort(sort) && Ready(p, q, sort)) <==> PossiblyReady(p, q)
  {
    hide IsSort, Ready, Standing, GoodChoice;
    if sort :| IsSort(sort) && Ready(p, q, sort) { ReadyGivesChoice(p, q, sort); }
    if PossiblyReady(p, q) {
      PossibleVerifier(q);
      var choice :| GoodChoice(p, q, choice);
      ChoiceGivesReady(p, q, choice);
    }
  }

  lemma PossibleVerifier(q: Question)
    requires Standing(q)
    ensures q.verifier.Some? && q.days > 0
  {
    hide UtcDay, Candidates;
  }

  lemma ReadyGivesChoice(p: Platform, q: Question, sort: seq<Run> -> seq<Run>)
    requires IsSort(sort) && Ready(p, q, sort)
    ensures PossiblyReady(p, q)
  {
    hide IsSort, Qualifies, UtcDay, Candidates, LateRun, SamePolicy, Chosen;
    ReadyStands(p, q, sort);
    forall i | 0 <= i < q.days ensures Candidates(q.runs, WindowDay(q, i)) != [] {
      assert DayHolds(p, q, sort, WindowDay(q, i));
    }
    var choice := seq(q.days, i requires 0 <= i < q.days => ChosenOn(q, sort, WindowDay(q, i)));
    forall i | 0 <= i < q.days ensures Candidate(q, i, choice[i]) && Qualifies(p, choice[i], q.verifier.value) {
      assert DayHolds(p, q, sort, WindowDay(q, i));
    }
    assert GoodChoice(p, q, choice);
  }

  lemma ChoicePicks(p: Platform, q: Question, choice: seq<Run>, i: int)
    requires Standing(q) && q.verifier.Some? && GoodChoice(p, q, choice) && 0 <= i < q.days
    ensures Picks(q, FavouringSort(choice), i, choice[i])
  {
    hide IsSort, Qualifies, UtcDay, Candidates, LateRun, SamePolicy, Chosen, WellPosed, WindowDay, FavouringSort;
    var cs := Candidates(q.runs, WindowDay(q, i));
    assert Candidate(q, i, choice[i]);
    forall x | x in choice && x in cs ensures x == choice[i] {
      var j :| 0 <= j < |choice| && choice[j] == x;
      CandidateDay(q, j, x);
      CandidateDay(q, i, x);
      SameDaySameIndex(q, i, j);
    }
    FavouredChosen(choice, cs, choice[i]);
  }

  lemma SameDaySameIndex(q: Question, i: int, j: int)
    ensures WindowDay(q, i) == WindowDay(q, j) ==> i == j
  {
    hide UtcDay;
  }

  lemma ChoiceGivesReady(p: Platform, q: Question, choice: seq<Run>)
    requires Standing(q) && q.verifier.Some? && GoodChoice(p, q, choice)
    ensures IsSort(FavouringSort(choice)) && Ready(p, q, FavouringSort(choice))
  {
    hide IsSort, Qualifies, UtcDay, Candidates, LateRun, SamePolicy, Chosen, Favoured, DayHolds, WellPosed, Candidate;
    FavouringIsSort(choice);
    var sort := FavouringSort(choice);
    PossibleVerifier(q);
    forall i | 0 <= i < q.days ensures DayHolds(p, q, sort, WindowDay(q, i)) && Picks(q, sort, i, choice[i]) {
      ChoicePicks(p, q, choice, i);
      DayFromChoice(p, q, sort, i, choice[i]);
    }
  }

  lemma SureIsReady(p: Platform, q: Question, sort: seq<Run> -> seq<Run>)
    requires IsSort(sort) && SurelyReady(p, q)
    ensures Ready(p, q, sort)
  {
    hide IsSort, Qualifies, UtcDay, LateRun, Chosen, DayHolds, WellPosed, WindowDay;
    PossibleVerifier(q);
    forall i | 0 <= i < q.days
      ensures DayHolds(p, q, sort, WindowDay(q, i)) && Candidate(q, i, ChosenOn(q, sort, WindowDay(q, i))) {
      var c := Chosen(Candidates(q.runs, WindowDay(q, i)), sort);
      assert Candidate(q, i, c) && Picks(q, sort, i, c);
      DayFromChoice(p, q, sort, i, c);
    }
    forall i, j | 0 <= i < q.days && 0 <= j < q.days
      ensures SamePolicy(ChosenOn(q, sort, WindowDay(q, i)), ChosenOn(q, sort, WindowDay(q, j)))
    {
      assert Candidate(q, i, ChosenOn(q, sort, WindowDay(q, i))) && Candidate(q, j, ChosenOn(q, sort, WindowDay(q, j)));
    }
  }

  ghost predicate ReadyHowever(p: Platform, q: Question) { forall sort :: IsSort(sort) ==> Ready(p, q, sort) }

  /** The favoured candidate of a day is the one chosen. */
  lemma PickedOn(q: Question, choice: seq<Run>, i: int, c: Run)
    requires Standing(q) && Candidate(q, i, c) && c in choice && forall x :: x in choice && Candidate(q, i, x) ==>
      x == c
    ensures Picks(q, FavouringSort(choice), i, c)
  {
    hide IsSort, UtcDay, Candidates, LateRun, Chosen, WellPosed, WindowDay, FavouringSort;
    var cs := Candidates(q.runs, WindowDay(q, i));
    assert Uncontested(cs);
    forall x | x in choice && x in cs ensures x == c { assert Candidate(q, i, x); }
    FavouredChosen(choice, cs, c);
  }

  /** Readiness holds for every sort exactly when every candidate would do. */
  lemma ReadyForEverySort(p: Platform, q: Question)
    ensures ReadyHowever(p, q) <==> SurelyReady(p, q)
  {
    hide IsSort, Ready, Standing, Candidate, Qualifies, SamePolicy, FavouringSort;
    if SurelyReady(p, q) {
      forall sort | IsSort(sort) ensures Ready(p, q, sort) { SureIsReady(p, q, sort); }
    }
    if ReadyHowever(p, q) {
      FavouringIsSort([]);
      ReadyStands(p, q, FavouringSort([]));
      PossibleVerifier(q);
      forall i, c | Candidate(q, i, c) ensures Qualifies(p, c, q.verifier.value) { AnyCandidateQualifies(p, q, i, c); }
      forall i, j, c, d | i != j && Candidate(q, i, c) && Candidate(q, j, d) ensures SamePolicy(c, d) {
        AnyTwoSharePolicy(p, q, i, j, c, d);
      }
    }
  }

  lemma AnyCandidateQualifies(p: Platform, q: Question, i: int, c: Run)
    requires ReadyHowever(p, q) && Standing(q) && Candidate(q, i, c)
    ensures q.verifier.Some? && Qualifies(p, c, q.verifier.value)
  {
    hide IsSort, Qualifies, SamePolicy, FavouringSort, Standing, UtcDay, Candidates, Chosen, LateRun, WindowDay;
    PossibleVerifier(q);
    PickedOn(q, [c], i, c);
    assert Ready(p, q, FavouringSort([c]));
    assert DayHolds(p, q, FavouringSort([c]), WindowDay(q, i));
  }

  lemma AnyTwoSharePolicy(p: Platform, q: Question, i: int, j: int, c: Run, d: Run)
    requires ReadyHowever(p, q) && Standing(q) && i != j && Candidate(q, i, c) && Candidate(q, j, d)
    ensures SamePolicy(c, d)
  {
    hide IsSort, Qualifies, SamePolicy, FavouringSort, Standing, UtcDay, Candidates, Chosen, LateRun, WindowDay,
      DayHolds, WellPosed;
    var choice := [c, d];
    CandidateDay(q, i, c);
    CandidateDay(q, i, d);
    CandidateDay(q, j, c);
    CandidateDay(q, j, d);
    SameDaySameIndex(q, i, j);
    PickedOn(q, choice, i, c);
    PickedOn(q, choice, j, d);
    assert Ready(p, q, FavouringSort(choice));
  }

  // ---------------------------------------------------------------- stability

  /** Readiness and the chosen identities do not change with the order, the copies, the older runs or the sort. */
  ghost predicate ReadinessFixed(p: Platform, q: Question) {
    forall runs, sort, other :: IsSort(sort) && IsSort(other) && SameRecent(q, runs) ==>
      && (Ready(p, q, sort) <==> Ready(p, q.(runs := runs), other))
      && (Ready(p, q, sort) ==> SameIDs(q, runs, sort, other))
  }

  ghost predicate SameIDs(q: Question, runs: seq<Option<Run>>, sort: seq<Run> -> seq<Run>, other: seq<Run> -> seq<Run>)
    requires IsSort(sort) && IsSort(other)
  {
    forall i :: 0 <= i < q.days ==>
      && Candidates(q.runs, WindowDay(q, i)) != [] && Candidates(runs, WindowDay(q, i)) != []
      && ChosenOn(q, sort, WindowDay(q, i)).id == ChosenOn(q.(runs := runs), other, WindowDay(q, i)).id
  }

  lemma CandidateAgain(q: Question, runs: seq<Option<Run>>, i: int, c: Run)
    requires SameRecent(q, runs)
    ensures Candidate(q, i, c) <==> Candidate(q.(runs := runs), i, c)
  {
    hide UtcDay, Candidates;
    CandidateDay(q, i, c);
    CandidateDay(q.(runs := runs), i, c);
    assert 0 <= i && UtcDay(c.body.asOf) == WindowDay(q, i) ==> Recent(q, c);
  }

  lemma RecentBack(q: Question, runs: seq<Option<Run>>)
    requires SameRecent(q, runs)
    ensures SameRecent(q.(runs := runs), q.runs) && q.(runs := runs).(runs := q.runs) == q
  {
    hide UtcDay;
    assert forall r: Run :: Recent(q.(runs := runs), r) <==> Recent(q, r);
  }

  lemma StandsAgain(q: Question, runs: seq<Option<Run>>)
    requires SameRecent(q, runs) && Standing(q)
    ensures Standing(q.(runs := runs))
  {
    hide UtcDay, Candidates, SameEvidence;
    var again := q.(runs := runs);
    forall r | r in runs ensures !LateRun(again, r) {
      assert LateRun(q, r) ==> Recent(q, r.value);
      assert LateRun(q, r) ==> r in q.runs;
    }
    forall i | 0 <= i < q.days ensures Uncontested(Candidates(runs, WindowDay(again, i))) {
      assert WindowDay(again, i) == WindowDay(q, i);
      CandidatesSame(q, runs, WindowDay(q, i));
      assert Uncontested(Candidates(q.runs, WindowDay(q, i)));
      assert Candidates(q.runs, WindowDay(q, i))[0] in Candidates(runs, WindowDay(q, i));
    }
  }

  lemma SureAgain(p: Platform, q: Question, runs: seq<Option<Run>>)
    requires SameRecent(q, runs) && SurelyReady(p, q)
    ensures SurelyReady(p, q.(runs := runs))
  {
    hide UtcDay, Candidates, Standing, Candidate, Qualifies, SameRecent;
    var again := q.(runs := runs);
    StandsAgain(q, runs);
    PossibleVerifier(q);
    forall i, c | Candidate(again, i, c) ensures Qualifies(p, c, q.verifier.value) { CandidateAgain(q, runs, i, c); }
    forall i, j, c, d | i != j && Candidate(again, i, c) && Candidate(again, j, d) ensures SamePolicy(c, d) {
      CandidateAgain(q, runs, i, c);
      CandidateAgain(q, runs, j, d);
    }
  }

  lemma PossibleAgain(p: Platform, q: Question, runs: seq<Option<Run>>)
    requires SameRecent(q, runs) && PossiblyReady(p, q)
    ensures PossiblyReady(p, q.(runs := runs))
  {
    hide UtcDay, Candidates, Standing, Candidate, Qualifies, SameRecent;
    StandsAgain(q, runs);
    PossibleVerifier(q);
    var choice :| GoodChoice(p, q, choice);
    forall i | 0 <= i < q.days ensures Candidate(q.(runs := runs), i, choice[i]) {
      CandidateAgain(q, runs, i, choice[i]);
    }
    assert GoodChoice(p, q.(runs := runs), choice);
  }

  lemma IDsAgain(p: Platform, q: Question, runs: seq<Option<Run>>, sort: seq<Run> -> seq<Run>,
      other: seq<Run> -> seq<Run>)
    requires IsSort(sort) && IsSort(other) && SameRecent(q, runs) && Standing(q)
    ensures SameIDs(q, runs, sort, other)
  {
    hide IsSort, UtcDay, Candidates, WellPosed, LateRun;
    forall i | 0 <= i < q.days
      ensures Candidates(q.runs, WindowDay(q, i)) != [] && Candidates(runs, WindowDay(q, i)) != []
      ensures ChosenOn(q, sort, WindowDay(q, i)).id == ChosenOn(q.(runs := runs), other, WindowDay(q, i)).id
    {
      var cs, ds := Candidates(q.runs, WindowDay(q, i)), Candidates(runs, WindowDay(q, i));
      CandidatesSame(q, runs, WindowDay(q, i));
      assert Uncontested(cs);
      assert Chosen(cs, sort) in ds;
      assert Chosen(ds, other) in cs;
    }
  }

  /** Readiness is fixed exactly when it is impossible or every candidate would do. */
  lemma StabilityExact(p: Platform, q: Question)
    ensures ReadinessFixed(p, q) <==> (PossiblyReady(p, q) ==> SurelyReady(p, q))
  {
    hide IsSort, Ready, SameIDs, SameRecent, PossiblyReady, SurelyReady;
    ReadyForSomeSort(p, q);
    ReadyForEverySort(p, q);
    if ReadinessFixed(p, q) && PossiblyReady(p, q) {
      var sort :| IsSort(sort) && Ready(p, q, sort);
      SameAsItself(q);
      forall other | IsSort(other) ensures Ready(p, q, other) { assert q.(runs := q.runs) == q; }
    }
    if PossiblyReady(p, q) ==> SurelyReady(p, q) {
      forall runs, sort, other | IsSort(sort) && IsSort(other) && SameRecent(q, runs)
        ensures Ready(p, q, sort) <==> Ready(p, q.(runs := runs), other)
        ensures Ready(p, q, sort) ==> SameIDs(q, runs, sort, other)
      {
        FixedFor(p, q, runs, sort, other);
      }
    }
  }

  lemma SameAsItself(q: Question)
    ensures SameRecent(q, q.runs)
  {
    hide UtcDay;
  }

  lemma FixedFor(p: Platform, q: Question, runs: seq<Option<Run>>, sort: seq<Run> -> seq<Run>,
      other: seq<Run> -> seq<Run>)
    requires IsSort(sort) && IsSort(other) && SameRecent(q, runs) && (PossiblyReady(p, q) ==> SurelyReady(p, q))
    ensures Ready(p, q, sort) <==> Ready(p, q.(runs := runs), other)
    ensures Ready(p, q, sort) ==> SameIDs(q, runs, sort, other)
  {
    hide IsSort, Ready, SameIDs, SameRecent, PossiblyReady, SurelyReady, Standing;
    var again := q.(runs := runs);
    if Ready(p, q, sort) {
      ReadyGivesChoice(p, q, sort);
      SureAgain(p, q, runs);
      SureIsReady(p, again, other);
      ReadyStands(p, q, sort);
      IDsAgain(p, q, runs, sort, other);
    }
    if Ready(p, again, other) {
      ReadyGivesChoice(p, again, other);
      RecentBack(q, runs);
      PossibleAgain(p, again, q.runs);
      SureIsReady(p, q, sort);
    }
  }

  // ---------------------------------------------------------------- a tie between validating runs

  ghost function WithMarkAge(run: Run, age: Duration): Run { run.(body := run.body.(maxMarkAge := age)) }

  /** Two days; on the second there is also the same evidence with a mark age one nanosecond longer. */
  ghost function Tied(p: Platform, a: ComparisonInput, b: ComparisonInput, first: int, age: Duration): Question {
    Question([Some(BuildRun(p, a)), Some(BuildRun(p, b)), Some(WithMarkAge(BuildRun(p, b), age))],
             Time((first + 1) * DAY, 0), 2, Some(Time((first + 2) * DAY, 0)), Some((r: Run) => true))
  }

  lemma TiedFields(p: Platform, a: ComparisonInput, b: ComparisonInput, first: int, age: Duration)
    requires first > 0
    ensures var q := Tied(p, a, b, first, age);
      && WellPosed(q) && q.days == 2 && q.verifier == Some((r: Run) => true) && WindowDay(q, 0) == first
        && WindowDay(q, 1) == first + 1
      && ThroughDay(q) == first + 1
      && forall r :: Some(r) in q.runs <==>
        r == BuildRun(p, a) || r == BuildRun(p, b) || r == WithMarkAge(BuildRun(p, b), age)
  {
    hide BuildRun, UtcDay, Midnight, IsZero;
    Midnights(first + 1);
    Midnights(first + 2);
  }

  /** What makes two days a tie: agreements under one policy, and a different mark age that prints like the second's. */
  ghost predicate TieSetting(p: Platform, a: ComparisonInput, b: ComparisonInput, first: int, age: Duration) {
    && first > 0 && Agreement(p, a) && Agreement(p, b)
    && UtcDay(a.legacy.header.asOf) == first && UtcDay(b.legacy.header.asOf) == first + 1
    && SamePolicyHeader(a.legacy.header, b.legacy.header)
    && age != b.legacy.header.maxMarkAge && Microseconds(age) == Microseconds(b.legacy.header.maxMarkAge)
  }

  /** All three runs are evidence that counts. */
  lemma TiedQualify(p: Platform, a: ComparisonInput, b: ComparisonInput, first: int, age: Duration, verify: Run -> bool)
    requires TieSetting(p, a, b, first, age) && forall r :: verify(r)
    ensures Qualifies(p, BuildRun(p, a), verify) && Qualifies(p, BuildRun(p, b), verify)
    ensures Qualifies(p, WithMarkAge(BuildRun(p, b), age), verify)
  {
    hide BuildRun, RunValidates, UtcDay, Comparable, Microseconds, SamePolicyHeader, FullyCovered, SameMetrics,
      SameQuantities;
    AgreementQualifies(p, a, verify);
    AgreementQualifies(p, b, verify);
    AnyMarkAgeThatPrintsAlike(p, b, age);
  }

  /** Their days; the altered one differs from its twin in nothing but the mark age. */
  ghost predicate Trio(x: Run, y: Run, z: Run, first: int) {
    && UtcDay(x.body.asOf) == first && UtcDay(y.body.asOf) == first + 1 && UtcDay(z.body.asOf) == first + 1
    && SameEvidence(y, z) && SameEvidence(z, y) && SamePolicy(x, y) && !SamePolicy(x, z)
  }

  lemma TiedRuns(p: Platform, a: ComparisonInput, b: ComparisonInput, first: int, age: Duration)
    requires TieSetting(p, a, b, first, age)
    ensures Trio(BuildRun(p, a), BuildRun(p, b), WithMarkAge(BuildRun(p, b), age), first)
  {
    hide BuildRun, UtcDay, Agreement, Microseconds, SamePolicyHeader;
    RunShape(p, a);
    PolicyPair(p, a, b);
    BuildShape(p, b);
  }

  lemma PolicyPair(p: Platform, a: ComparisonInput, b: ComparisonInput)
    requires SamePolicyHeader(a.legacy.header, b.legacy.header)
    ensures SamePolicy(BuildRun(p, a), BuildRun(p, b))
  {
    hide BuildRun;
    assert OnePolicy([a, b]);
    PolicyKept(p, [a, b], 0, 1);
  }

  lemma TiedCandidates(p: Platform, a: ComparisonInput, b: ComparisonInput, first: int, age: Duration, c: Run)
    requires TieSetting(p, a, b, first, age)
    ensures var q, y := Tied(p, a, b, first, age), BuildRun(p, b);
      && (Candidate(q, 0, c) <==> c == BuildRun(p, a)) && (Candidate(q, 1, c) <==> c == y || c == WithMarkAge(y, age))
  {
    hide BuildRun, UtcDay, Agreement, Tied, Microseconds, Candidate, SameEvidence, SamePolicy, WellPosed,
      SamePolicyHeader, WithMarkAge;
    var q := Tied(p, a, b, first, age);
    TiedFields(p, a, b, first, age);
    TiedRuns(p, a, b, first, age);
    CandidateDay(q, 0, c);
    CandidateDay(q, 1, c);
  }

  /** One run on the first day and two of the same evidence on the second leave nothing contested. */
  lemma TwoDaysStand(q: Question, x: Run, y: Run, z: Run, first: int)
    requires WellPosed(q) && q.days == 2 && Trio(x, y, z, first) && ThroughDay(q) == first + 1
    requires forall r :: Some(r) in q.runs <==> r == x || r == y || r == z
    requires forall c :: (Candidate(q, 0, c) <==> c == x) && (Candidate(q, 1, c) <==> c == y || c == z)
    ensures Standing(q)
  {
    hide UtcDay, Candidates, WellPosed, SamePolicy, ThroughDay;
    assert Candidate(q, 0, x) && Candidate(q, 1, y);
    forall i | 0 <= i < q.days ensures Uncontested(Candidates(q.runs, WindowDay(q, i))) {
      forall c, d | c in Candidates(q.runs, WindowDay(q, i)) && d in Candidates(q.runs, WindowDay(q, i))
        ensures SameEvidence(c, d) {
        assert Candidate(q, i, c) && Candidate(q, i, d);
      }
    }
    forall r | r in q.runs ensures !LateRun(q, r) { assert r.Some? ==> Some(r.value) in q.runs; }
  }

  /** The favoured one of two ties decides. */
  lemma TwoSortsDisagree(p: Platform, q: Question, x: Run, y: Run, z: Run, first: int)
    requires Standing(q) && q.days == 2 && q.verifier.Some? && Trio(x, y, z, first)
    requires forall c :: (Candidate(q, 0, c) <==> c == x) && (Candidate(q, 1, c) <==> c == y || c == z)
    requires Qualifies(p, x, q.verifier.value) && Qualifies(p, y, q.verifier.value)
    ensures IsSort(FavouringSort([x, y])) && Ready(p, q, FavouringSort([x, y]))
    ensures IsSort(FavouringSort([x, z])) && !Ready(p, q, FavouringSort([x, z]))
  {
    hide IsSort, FavouringSort, Standing, Candidate, SameEvidence, Qualifies, UtcDay, Ready;
    SamePolicyBack(x, y);
    DayApart(x, z, first);
    assert GoodChoice(p, q, [x, y]);
    ChoiceGivesReady(p, q, [x, y]);
    PickedOn(q, [x, z], 0, x);
    PickedOn(q, [x, z], 1, z);
    NotReady(p, q, FavouringSort([x, z]), x, z);
  }

  lemma DayApart(x: Run, z: Run, first: int)
    requires UtcDay(x.body.asOf) == first && UtcDay(z.body.asOf) == first + 1
    ensures x != z
  {
  }

  ghost predicate Opens(p: Platform, q: Question, sort: seq<Run> -> seq<Run>) { IsSort(sort) && Ready(p, q, sort) }

  ghost predicate KeepsClosed(p: Platform, q: Question, sort: seq<Run> -> seq<Run>) {
    IsSort(sort) && !Ready(p, q, sort)
  }

  /** A tie between validating runs decides readiness: one sort by identity opens the gate, another keeps it closed. */
  lemma TieDecidesReadiness(p: Platform, a: ComparisonInput, b: ComparisonInput, first: int, age: Duration)
    requires TieSetting(p, a, b, first, age)
    ensures var q, x, y := Tied(p, a, b, first, age), BuildRun(p, a), BuildRun(p, b);
      && (forall r :: Some(r) in q.runs ==> RunValidates(p, r)) && !ReadinessFixed(p, q)
      && Opens(p, q, FavouringSort([x, y])) && KeepsClosed(p, q, FavouringSort([x, WithMarkAge(y, age)]))
  {
    hide BuildRun, RunValidates, Tied, Candidates, TieSetting, IsSort, FavouringSort, Standing, Candidate, SameRecent,
      WellPosed, Trio, Ready, WithMarkAge, ThroughDay;
    var q, x, y := Tied(p, a, b, first, age), BuildRun(p, a), BuildRun(p, b);
    var z := WithMarkAge(y, age);
    TiedFieldsOf(p, a, b, first, age);
    TiedRuns(p, a, b, first, age);
    TiedQualify(p, a, b, first, age, q.verifier.value);
    forall c ensures (Candidate(q, 0, c) <==> c == x) && (Candidate(q, 1, c) <==> c == y || c == z) {
      TiedCandidates(p, a, b, first, age, c);
    }
    TwoDaysStand(q, x, y, z, first);
    TwoSortsDisagree(p, q, x, y, z, first);
    SameAsItself(q);
    assert q.(runs := q.runs) == q;
  }

  lemma TiedFieldsOf(p: Platform, a: ComparisonInput, b: ComparisonInput, first: int, age: Duration)
    requires TieSetting(p, a, b, first, age)
    ensures var q := Tied(p, a, b, first, age);
      && WellPosed(q) && q.days == 2 && q.verifier.Some? && (forall r :: q.verifier.value(r))
        && ThroughDay(q) == first + 1
      && forall r :: Some(r) in q.runs <==>
        r == BuildRun(p, a) || r == BuildRun(p, b) || r == WithMarkAge(BuildRun(p, b), age)
  {
    hide BuildRun, UtcDay, Agreement, Tied, Microseconds, WellPosed, ThroughDay, SamePolicyHeader;
    TiedFields(p, a, b, first, age);
  }

  lemma SamePolicyBack(x: Run, y: Run)
    requires SamePolicy(x, y)
    ensures SamePolicy(y, x) && SamePolicy(x, x) && SamePolicy(y, y)
  {
  }

  lemma NotReady(p: Platform, q: Question, sort: seq<Run> -> seq<Run>, x: Run, z: Run)
    requires q.days == 2 && Picks(q, sort, 0, x) && Picks(q, sort, 1, z) && !SamePolicy(x, z)
    ensures IsSort(sort) && !Ready(p, q, sort)
  {
    hide IsSort, SamePolicy, Candidates, UtcDay, DayHolds, WellPosed, LateRun, Chosen, WindowDay;
  }

  /** Such ties exist for every account and day, so validating alone does not make readiness stable. */
  lemma ValidRunsNotStable(p: Platform, account: Uuid, day: int)
    requires PlainPlatform(p) && account != NIL && day > 0
    ensures exists q: Question ::
      (forall r :: Some(r) in q.runs ==> RunValidates(p, r)) && PossiblyReady(p, q) && !SurelyReady(p, q)
        && !ReadinessFixed(p, q)
  {
    hide RunValidates, UtcDay, Agreement, Tied, IsSort, Ready, ReadinessFixed, PossiblyReady, SurelyReady,
      FavouringSort, BuildRun, SampleSnapshot;
    var a, b := SampleComparison(p, account, day), SampleComparison(p, account, day + 1);
    SampleAgrees(p, account, day);
    SampleAgrees(p, account, day + 1);
    SampleHeaders(p, account, day);
    SampleHeaders(p, account, day + 1);
    assert Microseconds(1001) == Microseconds(1000);
    TieDecidesReadiness(p, a, b, day, 1001);
    StabilityExact(p, Tied(p, a, b, day, 1001));
  }
}

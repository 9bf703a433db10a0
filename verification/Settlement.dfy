/** Preview, approve, preview again, settle: one pass of the Kalshi settlement job (jobs_kalshi_settlement.go). */
module Settlement {
  import opened Text
  import opened Uuids
  import opened Fingerprints

  datatype Config = Config(enabled: bool, dryRun: bool)
  datatype Market = Market(ticker: string, result: string)
  datatype GateState = GateState(eligible: bool, fingerprint: string)

  datatype Answer<+T> = Fails | Gives(value: T)

  /** What the outside answers. Markets and first previews are indexed by the position in the pending list,
      second previews and settlements by the position in the projection. */
  datatype World = World(
    pending: Answer<seq<string>>, market: nat -> Answer<Option<Market>>, preview: nat -> Answer<Preview>,
    gatePresent: bool, gate: Answer<Option<GateState>>, again: nat -> Answer<Preview>, settle: nat -> bool,
    recordFailure: bool, recordSuccess: bool)

  datatype Counts = Counts(fetched: nat, resolved: nat, markets: nat, decisions: int)

  datatype Event =
    | LoadGate
    | Refresh(ticker: string)
    | Settle(ticker: string, winner: string, decisionIDs: seq<Uuid>, settled: bool)
    | RecordFailure(counts: Counts, recorded: bool)
    | RecordSuccess(counts: Counts, fingerprint: string, recorded: bool)

  // ---------------------------------------------------------------- the projection

  datatype Projected = Projected(ticker: string, winner: string, count: int, fingerprint: string)

  /** A resolved market together with the preview taken of it. */
  datatype Entry = Entry(market: Market, winner: string, preview: Preview)

  function Winner(t: Tools, m: Market): string { Normal(t, m.result) }

  predicate Readable(t: Tools, w: World, i: nat) {
    && w.market(i).Gives? && w.market(i).value.Some?
    && (IsWinner(Winner(t, w.market(i).value.value)) ==> w.preview(i).Gives?)
  }

  /** The resolved ones among the first n pending markets. */
  function Entries(t: Tools, w: World, n: nat): (r: seq<Entry>)
    requires forall i :: 0 <= i < n ==> Readable(t, w, i)
  {
    if n == 0 then []
    else
      assert Readable(t, w, n - 1);
      var m := w.market(n - 1).value.value;
      Entries(t, w, n - 1) + if IsWinner(Winner(t, m)) then [Entry(m, Winner(t, m), w.preview(n - 1).value)] else []
  }

  function Project(t: Tools, e: Entry): Projected {
    Projected(Normal(t, e.market.ticker), e.winner, e.preview.count, PreviewFingerprint(t, e.preview, e.winner))
  }

  function ProjectEach(t: Tools, entries: seq<Entry>): seq<Projected> { Map(e => Project(t, e), entries) }

  function Prints(projected: seq<Projected>): seq<string> { Map((p: Projected) => p.fingerprint, projected) }

  function DecisionTotal(entries: seq<Entry>): int {
    if entries == [] then 0
    else DecisionTotal(entries[..|entries| - 1]) + var c := entries[|entries| - 1].preview.count; if c > 0 then c else 0
  }

  function MarketTotal(entries: seq<Entry>): nat {
    if entries == [] then 0
    else MarketTotal(entries[..|entries| - 1]) + if entries[|entries| - 1].preview.count > 0 then 1 else 0
  }

  ghost predicate AllReadable(t: Tools, w: World) {
    w.pending.Gives? && forall i :: 0 <= i < |w.pending.value| ==> Readable(t, w, i)
  }

  ghost function AllEntries(t: Tools, w: World): seq<Entry>
    requires AllReadable(t, w)
  {
    Entries(t, w, |w.pending.value|)
  }

  ghost predicate Accounts(c: Counts, fetched: nat, entries: seq<Entry>) {
    c.fetched == fetched && c.resolved == |entries| && c.markets == MarketTotal(entries)
      && c.decisions == DecisionTotal(entries)
  }

  /** The first round: look every pending market up and preview the resolved ones. */
  method ProjectAll(t: Tools, w: World) returns (ok: bool, projected: seq<Projected>, counts: Counts)
    ensures ok <==> AllReadable(t, w)
    ensures ok ==>
      projected == ProjectEach(t, AllEntries(t, w)) && Accounts(counts, |w.pending.value|, AllEntries(t, w))
  {
    hide PreviewFingerprint, Normal, Winner, Entries, MarketTotal, DecisionTotal, ProjectEach;
    NoEntries(t, w);
    projected, counts := [], Counts(0, 0, 0, 0);
    if w.pending.Fails? { return false, projected, counts; }
    counts := counts.(fetched := |w.pending.value|);
    for i := 0 to |w.pending.value|
      invariant forall k :: 0 <= k < i ==> Readable(t, w, k)
      invariant projected == ProjectEach(t, Entries(t, w, i)) && Accounts(counts, |w.pending.value|, Entries(t, w, i))
    {
      assert Readable(t, w, i) ==> w.market(i).Gives? && w.market(i).value.Some?;
      if w.market(i).Fails? || w.market(i).value.None? { return false, projected, counts; }
      var market := w.market(i).value.value;
      var winner := Winner(t, market);
      if !IsWinner(winner) {
        EntriesNext(t, w, i);
        continue;
      }
      counts := counts.(resolved := counts.resolved + 1);
      if w.preview(i).Fails? { return false, projected, counts; }
      var preview := w.preview(i).value;
      if preview.count > 0 {
        counts := counts.(markets := counts.markets + 1, decisions := counts.decisions + preview.count);
      }
      var mark := FingerprintPreview(t, preview, winner);
      EntriesNext(t, w, i);
      NextEntry(t, Entries(t, w, i), Entry(market, winner, preview));
      projected := projected + [Projected(Normal(t, market.ticker), winner, preview.count, mark)];
    }
    ok := true;
  }

  lemma NoEntries(t: Tools, w: World)
    ensures Entries(t, w, 0) == [] && ProjectEach(t, []) == [] && DecisionTotal([]) == 0 && MarketTotal([]) == 0
  {
  }

  lemma EntriesNext(t: Tools, w: World, i: nat)
    requires forall k :: 0 <= k <= i ==> Readable(t, w, k)
    ensures w.market(i).Gives? && w.market(i).value.Some?
    ensures var m := w.market(i).value.value;
      if IsWinner(Winner(t, m)) then w.preview(i).Gives?
        && Entries(t, w, i + 1) == Entries(t, w, i) + [Entry(m, Winner(t, m), w.preview(i).value)]
      else Entries(t, w, i + 1) == Entries(t, w, i)
  {
    hide Winner;
    assert Readable(t, w, i);
  }

  lemma NextEntry(t: Tools, entries: seq<Entry>, e: Entry)
    ensures ProjectEach(t, entries + [e]) == ProjectEach(t, entries) + [Project(t, e)]
    ensures DecisionTotal(entries + [e]) == DecisionTotal(entries)
      + (if e.preview.count > 0 then e.preview.count else 0)
    ensures MarketTotal(entries + [e]) == MarketTotal(entries) + (if e.preview.count > 0 then 1 else 0)
  {
    hide Project;
    assert (entries + [e])[..|entries|] == entries;
  }

  // ---------------------------------------------------------------- settling

  /** The second preview of a market agrees with what was projected. */
  ghost predicate Unchanged(t: Tools, p: Projected, again: Answer<Preview>) {
    again.Gives? && again.value.count == p.count && PreviewFingerprint(t, again.value, p.winner) == p.fingerprint
  }

  /** The calls made while the first n markets settle. */
  ghost function Settling(projected: seq<Projected>, w: World, n: nat): seq<Event>
    requires n <= |projected| && forall k :: 0 <= k < n ==> w.again(k).Gives?
  {
    if n == 0 then []
    else
      var p := projected[n - 1];
      Settling(projected, w, n - 1) + [Refresh(p.ticker),
        Settle(p.ticker, p.winner, w.again(n - 1).value.decisionIDs, true)]
  }

  /** Markets settle in order until one has changed or fails; that one is the last and a failure is recorded. */
  ghost predicate SettledUpTo(t: Tools, projected: seq<Projected>, w: World, counts: Counts, n: nat, ok: bool,
      trace: seq<Event>) {
    && n <= |projected| && (forall k :: 0 <= k < n ==> Unchanged(t, projected[k], w.again(k)) && w.settle(k))
    && (ok ==> n == |projected| && trace == Settling(projected, w, n))
    && (!ok ==>
      && n < |projected|
      && var p := projected[n];
      && (!Unchanged(t, p, w.again(n)) ==>
        trace == Settling(projected, w, n) + [Refresh(p.ticker), RecordFailure(counts, w.recordFailure)])
      && (Unchanged(t, p, w.again(n)) ==>
        && !w.settle(n)
        && trace == Settling(projected, w, n) +
          [Refresh(p.ticker), Settle(p.ticker, p.winner, w.again(n).value.decisionIDs, false),
            RecordFailure(counts, w.recordFailure)]))
  }

  method SettleAll(t: Tools, projected: seq<Projected>, w: World, counts: Counts)
    returns (ok: bool, n: nat, trace: seq<Event>)
    ensures SettledUpTo(t, projected, w, counts, n, ok, trace)
  {
    hide PreviewFingerprint;
    trace, n := [], 0;
    while n < |projected|
      invariant n <= |projected| && forall k :: 0 <= k < n ==> Unchanged(t, projected[k], w.again(k)) && w.settle(k)
      invariant trace == Settling(projected, w, n)
    {
      var p := projected[n];
      ghost var before := trace;
      trace := trace + [Refresh(p.ticker)];
      if w.again(n).Fails? {
        trace := trace + [RecordFailure(counts, w.recordFailure)];
        assert trace == before + [Refresh(p.ticker), RecordFailure(counts, w.recordFailure)];
        return false, n, trace;
      }
      var preview := w.again(n).value;
      var mark := FingerprintPreview(t, preview, p.winner);
      if preview.count != p.count || mark != p.fingerprint {
        trace := trace + [RecordFailure(counts, w.recordFailure)];
        assert trace == before + [Refresh(p.ticker), RecordFailure(counts, w.recordFailure)];
        return false, n, trace;
      }
      var attempt := Settle(p.ticker, p.winner, preview.decisionIDs, w.settle(n));
      trace := trace + [attempt];
      if !w.settle(n) {
        trace := trace + [RecordFailure(counts, w.recordFailure)];
        assert trace == before + [Refresh(p.ticker), attempt, RecordFailure(counts, w.recordFailure)];
        return false, n, trace;
      }
      assert trace == before + [Refresh(p.ticker), attempt];
      n := n + 1;
    }
    ok := true;
  }

  /** The gate approved exactly this projection. */
  ghost predicate Approved(t: Tools, c: Config, w: World) {
    && c.enabled && !c.dryRun && AllReadable(t, w) && w.gatePresent && w.gate.Gives? && w.gate.value.Some?
    && w.gate.value.value.eligible
    && w.gate.value.value.fingerprint == Fingerprint(t, Prints(ProjectEach(t, AllEntries(t, w))))
  }

  /** The event settles the k-th approved entry: its market, its winner and, with a collision-free hash, the decisions
      previewed for it. */
  ghost predicate SettlesEntry(t: Tools, w: World, k: nat, event: Event)
    requires AllReadable(t, w) && event.Settle?
  {
    && k < |AllEntries(t, w)|
    && var e := AllEntries(t, w)[k];
    && event.ticker == Normal(t, e.market.ticker) && event.winner == e.winner && IsWinner(e.winner) && w.again(k).Gives?
    && (CollisionFree(t) && Plain(t, e) && OneLine(Normal(t, w.again(k).value.instrument)) ==>
      multiset(event.decisionIDs) == multiset(e.preview.decisionIDs))
  }

  lemma SettlesApproved(t: Tools, w: World, projected: seq<Projected>, counts: Counts, n: nat, ok: bool,
      trace: seq<Event>, i: nat)
    requires AllReadable(t, w) && projected == ProjectEach(t, AllEntries(t, w))
    requires SettledUpTo(t, projected, w, counts, n, ok, trace) && i < |trace| && trace[i].Settle?
    ensures SettlesEntry(t, w, i / 2, trace[i])
  {
    hide Normal, CollisionFree, Plain, OneLine, SettledUpTo, Readable, Entries, PreviewFingerprint;
    EachSettlement(t, projected, w, counts, n, ok, trace, i);
    EntryWinners(t, w, |w.pending.value|);
    var e, again := AllEntries(t, w)[i / 2], w.again(i / 2).value;
    assert projected[i / 2] == Project(t, e);
    if CollisionFree(t) && Plain(t, e) && OneLine(Normal(t, again.instrument)) { SettlesWhatWasPreviewed(t, e, again); }
  }

  /** One pass of the job. */
  method Run(t: Tools, c: Config, w: World) returns (ok: bool, n: nat, trace: seq<Event>)
    // a pass settles only what the gate approved, market by market in the projected order
    ensures Approved(t, c, w) ==> |trace| > 0 && trace[0] == LoadGate && exists counts ::
      && Accounts(counts, |w.pending.value|, AllEntries(t, w))
      && SettledUpTo(t, ProjectEach(t, AllEntries(t, w)), w, counts, n, ok, trace[1..])
    ensures !Approved(t, c, w) ==> n == 0 && forall i :: 0 <= i < |trace| ==> !trace[i].Settle?
    // and each settlement is of an approved entry, with its winner and its previewed decisions
    ensures forall i :: 0 <= i < |trace| && trace[i].Settle? ==>
      AllReadable(t, w) && exists k :: SettlesEntry(t, w, k, trace[i])
    // an unreadable market ends the pass; with a gate the failure is put on record
    ensures !AllReadable(t, w) ==>
      !ok && |trace| == (if w.gatePresent then 1 else 0) && forall i :: 0 <= i < |trace| ==> trace[i].RecordFailure?
    // a pass that does not settle succeeds only by recording the projection it saw
    ensures ok && !Approved(t, c, w) ==> AllReadable(t, w) && trace != [] && w.gatePresent && exists counts ::
      && Accounts(counts, |w.pending.value|, AllEntries(t, w))
      && trace[|trace| - 1] == RecordSuccess(counts, Fingerprint(t, Prints(ProjectEach(t, AllEntries(t, w)))), true)
  {
    hide Entries, Project, Prints, Fingerprint, SettledUpTo, Readable, Accounts;
    n, trace := 0, [];
    var projectedOk, projected, counts := ProjectAll(t, w);
    if !projectedOk {
      if w.gatePresent { trace := [RecordFailure(counts, w.recordFailure)]; }
      return false, n, trace;
    }
    var fingerprint := Fingerprint(t, Prints(projected));
    var live := false;
    if c.enabled && !c.dryRun {
      if !w.gatePresent { return false, n, trace; }
      trace := [LoadGate];
      if w.gate.Fails? { return false, n, trace; }
      live := w.gate.value.Some? && w.gate.value.value.eligible && w.gate.value.value.fingerprint == fingerprint;
    }
    if live {
      var settling;
      ok, n, settling := SettleAll(t, projected, w, counts);
      trace := trace + settling;
      assert trace[1..] == settling;
      forall i | 0 <= i < |trace| && trace[i].Settle? ensures exists k :: SettlesEntry(t, w, k, trace[i]) {
        SettlesApproved(t, w, projected, counts, n, ok, settling, i - 1);
        assert SettlesEntry(t, w, (i - 1) / 2, trace[i]);
      }
      return ok, n, trace;
    }
    if !w.gatePresent { return false, n, trace; }
    ok := w.recordSuccess;
    trace := trace + [RecordSuccess(counts, fingerprint, w.recordSuccess)];
  }

  // ---------------------------------------------------------------- laws of a pass

  lemma {:induction false} SettlingShape(projected: seq<Projected>, w: World, n: nat)
    requires n <= |projected| && forall k :: 0 <= k < n ==> w.again(k).Gives?
    ensures |Settling(projected, w, n)| == 2 * n
    ensures forall k :: 0 <= k < n ==>
      && Settling(projected, w, n)[2 * k] == Refresh(projected[k].ticker)
      && Settling(projected, w, n)[2 * k + 1] == Settle(projected[k].ticker, projected[k].winner,
        w.again(k).value.decisionIDs, true)
  {
    if n > 0 { SettlingShape(projected, w, n - 1); }
  }

  /** A finished stretch alternates refreshing and settling. */
  lemma SettlingKinds(projected: seq<Projected>, w: World, n: nat, k: nat)
    requires n <= |projected| && (forall j :: 0 <= j < n ==> w.again(j).Gives?) && k < 2 * n
    ensures |Settling(projected, w, n)| == 2 * n
    ensures var e, p := Settling(projected, w, n)[k], projected[k / 2];
      if k % 2 == 0 then e == Refresh(p.ticker)
        else e == Settle(p.ticker, p.winner, w.again(k / 2).value.decisionIDs, true)
  {
    hide Settling;
    SettlingShape(projected, w, n);
    assert k == 2 * (k / 2) + k % 2;
  }

  /** Every settlement names a projected market, its winner and the decisions of a preview that had not changed,
      and nothing settles after a failure. */
  lemma EachSettlement(t: Tools, projected: seq<Projected>, w: World, counts: Counts, n: nat, ok: bool,
      trace: seq<Event>, i: nat)
    requires SettledUpTo(t, projected, w, counts, n, ok, trace) && i < |trace| && trace[i].Settle?
    ensures i % 2 == 1 && i / 2 < |projected|
    ensures Unchanged(t, projected[i / 2], w.again(i / 2))
    ensures trace[i] == Settle(projected[i / 2].ticker, projected[i / 2].winner, w.again(i / 2).value.decisionIDs,
      w.settle(i / 2))
    ensures forall k :: 0 <= k < i ==> !trace[k].RecordFailure? && (trace[k].Settle? ==> trace[k].settled)
  {
    hide Unchanged, Settling;
    GivenAll(t, projected, w, n);
    SettlingShape(projected, w, n);
    var s := Settling(projected, w, n);
    forall k | 0 <= k < 2 * n
      ensures trace[k] == s[k] && !trace[k].RecordFailure? && (trace[k].Settle? ==> trace[k].settled) {
      SettlingKinds(projected, w, n, k);
    }
    if i < 2 * n { SettlingKinds(projected, w, n, i); }
  }

  lemma GivenAll(t: Tools, projected: seq<Projected>, w: World, n: nat)
    requires n <= |projected| && forall k :: 0 <= k < n ==> Unchanged(t, projected[k], w.again(k)) && w.settle(k)
    ensures forall k :: 0 <= k < n ==> w.again(k).Gives?
  {
    hide PreviewFingerprint;
  }

  /** A failed settlement pass has recorded, or tried to record, its failure as its last call. */
  lemma FailureIsLast(t: Tools, projected: seq<Projected>, w: World, counts: Counts, n: nat, trace: seq<Event>)
    requires SettledUpTo(t, projected, w, counts, n, false, trace)
    ensures trace != [] && trace[|trace| - 1] == RecordFailure(counts, w.recordFailure)
  {
    hide Unchanged;
  }

  /** With a collision-free hash an unchanged preview names the same instrument and the same decisions. */
  lemma SettlesWhatWasPreviewed(t: Tools, e: Entry, again: Preview)
    requires CollisionFree(t) && Plain(t, e) && OneLine(Normal(t, again.instrument))
    requires Unchanged(t, Project(t, e), Gives(again))
    ensures multiset(again.decisionIDs) == multiset(e.preview.decisionIDs)
      && Normal(t, again.instrument) == Normal(t, e.preview.instrument)
  {
    hide Normal, PreviewFingerprint, Confusable, CollisionFree, OneLine;
    PreviewExact(t, e.preview, e.winner, again, e.winner);
  }

  lemma {:induction false} EntryWinners(t: Tools, w: World, n: nat)
    requires forall i :: 0 <= i < n ==> Readable(t, w, i)
    ensures forall k :: 0 <= k < |Entries(t, w, n)| ==> IsWinner(Entries(t, w, n)[k].winner)
  {
    hide Winner;
    if n > 0 { EntryWinners(t, w, n - 1); }
  }

  /** What an approval is about: instruments, winners and decisions. */
  datatype Term = Term(instrument: string, winner: string, decisions: multiset<Uuid>)

  ghost function TermOf(t: Tools, e: Entry): Term {
    Term(Normal(t, e.preview.instrument), e.winner, multiset(e.preview.decisionIDs))
  }

  /** A one-line instrument that its fingerprint cannot confuse. */
  ghost predicate Plain(t: Tools, e: Entry) {
    IsWinner(e.winner) && OneLine(Normal(t, e.preview.instrument)) && !Confusable(t, e.preview, e.winner)
  }

  ghost predicate AllPlain(t: Tools, entries: seq<Entry>) { forall i :: 0 <= i < |entries| ==> Plain(t, entries[i]) }

  ghost function PrintsOf(t: Tools, entries: seq<Entry>): (r: seq<string>)
    ensures |r| == |entries| && forall i :: 0 <= i < |entries| ==>
      r[i] == PreviewFingerprint(t, entries[i].preview, entries[i].winner)
  {
    Prints(ProjectEach(t, entries))
  }

  ghost function TermsOf(t: Tools, entries: seq<Entry>): (r: seq<Term>)
    ensures |r| == |entries| && forall i :: 0 <= i < |entries| ==> r[i] == TermOf(t, entries[i])
  {
    Map(e => TermOf(t, e), entries)
  }

  lemma SameTerm(t: Tools, a: Entry, b: Entry)
    requires CollisionFree(t) && Plain(t, a) && Plain(t, b)
    ensures PreviewFingerprint(t, a.preview, a.winner) == PreviewFingerprint(t, b.preview, b.winner) <==>
      TermOf(t, a) == TermOf(t, b)
  {
    hide Normal, PreviewFingerprint, Confusable, CollisionFree, OneLine;
    PreviewExact(t, a.preview, a.winner, b.preview, b.winner);
  }

  /** Fingerprints and terms occur equally often. */
  lemma {:induction false} CountTogether(t: Tools, entries: seq<Entry>, e: Entry)
    requires CollisionFree(t) && AllPlain(t, entries) && Plain(t, e)
    ensures multiset(PrintsOf(t, entries))[PreviewFingerprint(t, e.preview, e.winner)]
      == multiset(TermsOf(t, entries))[TermOf(t, e)]
  {
    hide PreviewFingerprint, TermOf, Plain, CollisionFree, PrintsOf, TermsOf;
    if entries != [] {
      var n := |entries| - 1;
      CountTogether(t, entries[..n], e);
      SameTerm(t, entries[n], e);
      assert PrintsOf(t, entries) == PrintsOf(t, entries[..n])
        + [PreviewFingerprint(t, entries[n].preview, entries[n].winner)];
      assert TermsOf(t, entries) == TermsOf(t, entries[..n]) + [TermOf(t, entries[n])];
    }
  }

  lemma SameCounts(t: Tools, a: seq<Entry>, b: seq<Entry>)
    requires CollisionFree(t) && AllPlain(t, a) && AllPlain(t, b)
    ensures multiset(PrintsOf(t, a)) == multiset(PrintsOf(t, b)) <==> multiset(TermsOf(t, a)) == multiset(TermsOf(t, b))
  {
    hide PreviewFingerprint, TermOf, Plain, CollisionFree;
    if multiset(PrintsOf(t, a)) == multiset(PrintsOf(t, b)) {
      forall x ensures multiset(TermsOf(t, a))[x] == multiset(TermsOf(t, b))[x] {
        TermCount(t, a, b, x);
      }
    }
    if multiset(TermsOf(t, a)) == multiset(TermsOf(t, b)) {
      forall x ensures multiset(PrintsOf(t, a))[x] == multiset(PrintsOf(t, b))[x] {
        PrintCount(t, a, b, x);
      }
    }
  }

  lemma TermCount(t: Tools, a: seq<Entry>, b: seq<Entry>, x: Term)
    requires CollisionFree(t) && AllPlain(t, a) && AllPlain(t, b)
      && multiset(PrintsOf(t, a)) == multiset(PrintsOf(t, b))
    ensures multiset(TermsOf(t, a))[x] == multiset(TermsOf(t, b))[x]
  {
    hide PreviewFingerprint, TermOf, Plain, CollisionFree;
    if x in TermsOf(t, a) {
      var i :| 0 <= i < |a| && TermsOf(t, a)[i] == x;
      CountTogether(t, a, a[i]);
      CountTogether(t, b, a[i]);
    } else if x in TermsOf(t, b) {
      var i :| 0 <= i < |b| && TermsOf(t, b)[i] == x;
      CountTogether(t, a, b[i]);
      CountTogether(t, b, b[i]);
    }
  }

  lemma PrintCount(t: Tools, a: seq<Entry>, b: seq<Entry>, x: string)
    requires CollisionFree(t) && AllPlain(t, a) && AllPlain(t, b) && multiset(TermsOf(t, a)) == multiset(TermsOf(t, b))
    ensures multiset(PrintsOf(t, a))[x] == multiset(PrintsOf(t, b))[x]
  {
    hide PreviewFingerprint, TermOf, Plain, CollisionFree;
    if x in PrintsOf(t, a) {
      var i :| 0 <= i < |a| && PrintsOf(t, a)[i] == x;
      CountTogether(t, a, a[i]);
      CountTogether(t, b, a[i]);
    } else if x in PrintsOf(t, b) {
      var i :| 0 <= i < |b| && PrintsOf(t, b)[i] == x;
      CountTogether(t, a, b[i]);
      CountTogether(t, b, b[i]);
    }
  }

  lemma PrintsPlain(t: Tools, entries: seq<Entry>)
    requires Hexadecimal(t)
    ensures AllOneLine(PrintsOf(t, entries)) && "<empty>" !in PrintsOf(t, entries)
  {
    hide OneLine, PreviewParts;
    var prints := PrintsOf(t, entries);
    forall i | 0 <= i < |prints| ensures OneLine(prints[i]) && prints[i] != "<empty>" {
      assert prints[i] == PreviewFingerprint(t, entries[i].preview, entries[i].winner);
    }
  }

  /** The projection's fingerprint matches an approved one exactly when both are about the same instruments,
      winners and decisions, in whatever order the markets were listed. */
  lemma ApprovalExact(t: Tools, approved: seq<Entry>, current: seq<Entry>)
    requires CollisionFree(t) && Hexadecimal(t) && AllPlain(t, approved) && AllPlain(t, current)
    ensures Fingerprint(t, PrintsOf(t, approved)) == Fingerprint(t, PrintsOf(t, current)) <==>
      multiset(TermsOf(t, approved)) == multiset(TermsOf(t, current))
  {
    hide Fingerprint, PreviewFingerprint, TermOf, Plain, CollisionFree, AllOneLine, Hexadecimal;
    PrintsPlain(t, approved);
    PrintsPlain(t, current);
    FingerprintExact(t, PrintsOf(t, approved), PrintsOf(t, current));
    SameCounts(t, approved, current);
  }
}

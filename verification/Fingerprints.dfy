/** The order-insensitive fingerprints that tie a settlement to its preview (jobs_kalshi_settlement.go). */
module Fingerprints {
  import opened Text
  import opened Uuids

  datatype Preview = Preview(instrument: string, count: int, decisionIDs: seq<Uuid>)

  /** The digest (hexadecimal text) and the upper-casing of letters beyond ASCII. */
  datatype Tools = Tools(hash: string -> string, upper: char -> char)

  function UpperChar(t: Tools, c: char): char {
    if 'a' <= c <= 'z' then 'A' + (c - 'a') else if c < 128 as char then c else t.upper(c)
  }

  function Upper(t: Tools, s: string): (r: string)
    ensures |r| == |s| && forall i :: 0 <= i < |s| ==> r[i] == UpperChar(t, s[i])
  {
    if s == "" then "" else [UpperChar(t, s[0])] + Upper(t, s[1..])
  }

  function Normal(t: Tools, s: string): string { Upper(t, TrimSpace(s)) }

  // ---------------------------------------------------------------- fingerprints

  function Lines(parts: seq<string>): string {
    if |parts| == 0 then "" else if |parts| == 1 then parts[0] else parts[0] + "\n" + Lines(parts[1..])
  }

  /** settlementProjectionFingerprint */
  function Fingerprint(t: Tools, parts: seq<string>): string {
    t.hash(Lines(SortBy(if parts == [] then ["<empty>"] else parts, Identity)))
  }

  function PreviewParts(t: Tools, p: Preview, winner: string): seq<string> {
    [Normal(t, p.instrument), Normal(t, winner)] + Map(Uuids.Print, p.decisionIDs)
  }

  function PreviewFingerprint(t: Tools, p: Preview, winner: string): string {
    Fingerprint(t, PreviewParts(t, p, winner))
  }

  /** settlementPreviewFingerprint */
  method FingerprintPreview(t: Tools, p: Preview, winner: string) returns (r: string)
    ensures r == PreviewFingerprint(t, p, winner)
  {
    var parts := [Normal(t, p.instrument), Normal(t, winner)];
    for i := 0 to |p.decisionIDs|
      invariant parts == [Normal(t, p.instrument), Normal(t, winner)] + Map(Uuids.Print, p.decisionIDs[..i])
    {
      parts := parts + [Uuids.Print(p.decisionIDs[i])];
    }
    assert p.decisionIDs[..|p.decisionIDs|] == p.decisionIDs;
    r := Fingerprint(t, parts);
  }

  // ---------------------------------------------------------------- lines read back

  ghost predicate OneLine(s: string) { forall i :: 0 <= i < |s| ==> s[i] != '\n' }
  ghost predicate AllOneLine(parts: seq<string>) { forall i :: 0 <= i < |parts| ==> OneLine(parts[i]) }

  /** Two texts that agree up to their first line break have the same first line. */
  lemma SameFirstLine(a: string, s: string, b: string, u: string)
    requires OneLine(a) && OneLine(b) && a + "\n" + s == b + "\n" + u
    ensures a == b && s == u
  {
    var x := a + "\n" + s;
    assert x[|a|] == '\n' && x[|b|] == '\n';
    assert a == x[..|a|] && b == x[..|b|];
    assert s == x[|a| + 1..] && u == x[|b| + 1..];
  }

  lemma HasBreak(a: string, b: string, u: string)
    requires OneLine(a)
    ensures a != b + "\n" + u
  {
    assert (b + "\n" + u)[|b|] == '\n';
  }

  lemma {:induction false} LinesInjective(a: seq<string>, b: seq<string>)
    requires a != [] && b != [] && AllOneLine(a) && AllOneLine(b) && Lines(a) == Lines(b)
    ensures a == b
  {
    hide OneLine;
    if |a| == 1 {
      if |b| > 1 { HasBreak(a[0], b[0], Lines(b[1..])); }
    } else if |b| == 1 {
      HasBreak(b[0], a[0], Lines(a[1..]));
    } else {
      SameFirstLine(a[0], Lines(a[1..]), b[0], Lines(b[1..]));
      LinesInjective(a[1..], b[1..]);
      assert a == [a[0]] + a[1..] && b == [b[0]] + b[1..];
    }
  }

  // ---------------------------------------------------------------- sorting forgets order and nothing else

  lemma {:induction false} AscendingUnique(xs: seq<string>, ys: seq<string>)
    requires Ascends(xs, Identity) && Ascends(ys, Identity) && multiset(xs) == multiset(ys)
    ensures xs == ys
  {
    hide Ascends;
    MultisetMembers(xs, ys);
    if xs != [] {
      LeastFirst(xs, ys);
      TailAscends(xs);
      TailAscends(ys);
      SameTails(xs, ys);
      AscendingUnique(xs[1..], ys[1..]);
      assert xs == [xs[0]] + xs[1..] && ys == [ys[0]] + ys[1..];
    }
  }

  lemma TailAscends(xs: seq<string>)
    requires Ascends(xs, Identity) && xs != []
    ensures Ascends(xs[1..], Identity)
  {
    hide Before;
  }

  lemma LeastFirst(xs: seq<string>, ys: seq<string>)
    requires Ascends(xs, Identity) && Ascends(ys, Identity) && multiset(xs) == multiset(ys) && |xs| == |ys| > 0
    ensures xs[0] == ys[0]
  {
    hide Before;
    assert ys[0] in multiset(xs) && xs[0] in multiset(ys);
    var k :| 0 <= k < |xs| && xs[k] == ys[0];
    var m :| 0 <= m < |ys| && ys[m] == xs[0];
    assert k > 0 ==> !Before(xs[k], xs[0]);
    assert m > 0 ==> !Before(ys[m], ys[0]);
    BeforeTotal(xs[0], ys[0]);
  }

  lemma SortExact(xs: seq<string>, ys: seq<string>)
    ensures SortBy(xs, Identity) == SortBy(ys, Identity) <==> multiset(xs) == multiset(ys)
  {
    hide Ascends;
    SortMultiset(xs, Identity);
    SortMultiset(ys, Identity);
    SortAscends(xs, Identity);
    SortAscends(ys, Identity);
    if multiset(xs) == multiset(ys) { AscendingUnique(SortBy(xs, Identity), SortBy(ys, Identity)); }
  }

  // ---------------------------------------------------------------- what a fingerprint pins

  ghost predicate CollisionFree(t: Tools) { forall a, b :: t.hash(a) == t.hash(b) ==> a == b }

  /** Fingerprints are hexadecimal text. */
  ghost predicate Hexadecimal(t: Tools) {
    forall s :: OneLine(t.hash(s)) && t.hash(s) != "<empty>"
  }

  lemma SortOneLine(parts: seq<string>)
    requires AllOneLine(parts)
    ensures AllOneLine(SortBy(parts, Identity))
  {
    hide OneLine;
    SortMultiset(parts, Identity);
    var s := SortBy(parts, Identity);
    forall i | 0 <= i < |s| ensures OneLine(s[i]) {
      assert s[i] in multiset(s);
      assert s[i] in multiset(parts);
    }
  }

  /** A fingerprint pins the parts up to order. */
  lemma FingerprintExact(t: Tools, a: seq<string>, b: seq<string>)
    requires CollisionFree(t) && AllOneLine(a) && AllOneLine(b)
    requires (a != [] && b != []) || ("<empty>" !in a && "<empty>" !in b)
    ensures Fingerprint(t, a) == Fingerprint(t, b) <==> multiset(a) == multiset(b)
  {
    hide OneLine;
    var x := if a == [] then ["<empty>"] else a;
    var y := if b == [] then ["<empty>"] else b;
    EmptyOneLine();
    SortExact(x, y);
    SortMultiset(x, Identity);
    SortMultiset(y, Identity);
    SortOneLine(x);
    SortOneLine(y);
    if Lines(SortBy(x, Identity)) == Lines(SortBy(y, Identity)) {
      LinesInjective(SortBy(x, Identity), SortBy(y, Identity));
    }
    assert multiset(x) == multiset(y) <==> multiset(a) == multiset(b) by { SameAfterDefault(a, b, x, y); }
  }

  lemma EmptyOneLine()
    ensures OneLine("<empty>")
  {
  }

  lemma SameAfterDefault(a: seq<string>, b: seq<string>, x: seq<string>, y: seq<string>)
    requires (a != [] && b != []) || ("<empty>" !in a && "<empty>" !in b)
    requires x == (if a == [] then ["<empty>"] else a) && y == (if b == [] then ["<empty>"] else b)
    ensures multiset(x) == multiset(y) <==> multiset(a) == multiset(b)
  {
    if multiset(x) == multiset(y) { MultisetMembers(x, y); }
    if multiset(a) == multiset(b) { MultisetMembers(a, b); }
    assert a == [] ==> "<empty>" == x[0] && "<empty>" in x;
    assert b == [] ==> "<empty>" == y[0] && "<empty>" in y;
  }

  predicate IsWinner(winner: string) { winner == "YES" || winner == "NO" }

  lemma WinnerNormal(t: Tools, winner: string)
    requires IsWinner(winner)
    ensures Normal(t, winner) == winner && OneLine(winner)
  {
    assert TrimLeft(winner) == winner;
    assert TrimRight(winner) == winner;
  }

  lemma UuidShape(u: Uuid)
    ensures OneLine(Uuids.Print(u)) && |Uuids.Print(u)| == 36
  {
  }

  lemma WinnerNotUuid(winner: string, u: Uuid)
    requires IsWinner(winner)
    ensures Uuids.Print(u) != winner
  {
    UuidShape(u);
  }

  // ---------------------------------------------------------------- counting parts

  /** The parts of a preview without their order. */
  ghost function Bag(instrument: string, winner: string, ids: seq<Uuid>): multiset<string> {
    multiset{instrument, winner} + multiset(Map(Uuids.Print, ids))
  }

  /** Counting an identity among the parts. */
  lemma {:induction false} PrintsCount(ids: seq<Uuid>, u: Uuid)
    ensures multiset(Map(Uuids.Print, ids))[Uuids.Print(u)] == multiset(ids)[u]
  {
    hide Uuids.Print;
    if ids != [] {
      var n := |ids| - 1;
      PrintsCount(ids[..n], u);
      if Uuids.Print(ids[n]) == Uuids.Print(u) { PrintInjective(ids[n], u); }
      assert ids == ids[..n] + [ids[n]];
      assert Map(Uuids.Print, ids) == Map(Uuids.Print, ids[..n]) + [Uuids.Print(ids[n])];
    }
  }

  lemma PrintsOnly(ids: seq<Uuid>, s: string)
    requires forall u :: Uuids.Print(u) != s
    ensures multiset(Map(Uuids.Print, ids))[s] == 0
  {
    hide Uuids.Print;
    var prints := Map(Uuids.Print, ids);
    forall i | 0 <= i < |prints| ensures prints[i] != s { assert prints[i] == Uuids.Print(ids[i]); }
    assert s !in prints;
  }

  lemma NoWinnerPrinted(ids: seq<Uuid>)
    ensures multiset(Map(Uuids.Print, ids))["YES"] == 0 && multiset(Map(Uuids.Print, ids))["NO"] == 0
  {
    hide Uuids.Print;
    forall u ensures Uuids.Print(u) != "YES" && Uuids.Print(u) != "NO" {
      WinnerNotUuid("YES", u);
      WinnerNotUuid("NO", u);
    }
    PrintsOnly(ids, "YES");
    PrintsOnly(ids, "NO");
  }

  lemma {:induction false} PrintsPermute(a: seq<Uuid>, b: seq<Uuid>)
    ensures multiset(Map(Uuids.Print, a)) == multiset(Map(Uuids.Print, b)) <==> multiset(a) == multiset(b)
  {
    hide Uuids.Print;
    if multiset(Map(Uuids.Print, a)) == multiset(Map(Uuids.Print, b)) {
      forall u ensures multiset(a)[u] == multiset(b)[u] {
        PrintsCount(a, u);
        PrintsCount(b, u);
      }
    }
    if multiset(a) == multiset(b) {
      forall s ensures multiset(Map(Uuids.Print, a))[s] == multiset(Map(Uuids.Print, b))[s] {
        if u :| Uuids.Print(u) == s {
          PrintsCount(a, u);
          PrintsCount(b, u);
        } else {
          PrintsOnly(a, s);
          PrintsOnly(b, s);
        }
      }
    }
  }

  /** How often the two outcomes and any other text occur. */
  lemma BagCounts(instrument: string, winner: string, ids: seq<Uuid>, s: string)
    requires IsWinner(winner)
    ensures var bag := Bag(instrument, winner, ids);
      && bag["YES"] == (if instrument == "YES" then 1 else 0) + (if winner == "YES" then 1 else 0)
      && bag["NO"] == (if instrument == "NO" then 1 else 0) + (if winner == "NO" then 1 else 0)
      && bag[s] == (if instrument == s then 1 else 0) + (if winner == s then 1 else 0)
        + multiset(Map(Uuids.Print, ids))[s]
  {
    hide Uuids.Print;
    NoWinnerPrinted(ids);
  }

  lemma PrintedSomewhere(ids: seq<Uuid>, s: string)
    requires multiset(Map(Uuids.Print, ids))[s] > 0
    ensures exists k :: 0 <= k < |ids| && Uuids.Print(ids[k]) == s
  {
    hide Uuids.Print;
    var prints := Map(Uuids.Print, ids);
    assert s in prints;
    var k :| 0 <= k < |prints| && prints[k] == s;
    assert prints[k] == Uuids.Print(ids[k]);
  }

  /** The instrument and one of the decisions could trade places. */
  ghost predicate TradesPlaces(instrument: string, other: string, ids: seq<Uuid>) {
    && other != instrument && (exists u :: Uuids.Print(u) == instrument)
    && exists k :: 0 <= k < |ids| && Uuids.Print(ids[k]) == other
  }

  /** Equal bags come from equal previews, or the instrument took another part's place. */
  lemma BagsAgree(instrument: string, winner: string, ids: seq<Uuid>, other: string, won: string, others: seq<Uuid>)
    requires IsWinner(winner) && IsWinner(won) && Bag(instrument, winner, ids) == Bag(other, won, others)
    ensures (instrument == other && winner == won && multiset(ids) == multiset(others))
      || (IsWinner(instrument) && instrument != winner) || TradesPlaces(instrument, other, ids)
  {
    hide Uuids.Print, Bag;
    BagCounts(instrument, winner, ids, instrument);
    BagCounts(instrument, winner, ids, other);
    BagCounts(other, won, others, instrument);
    BagCounts(other, won, others, other);
    if instrument == other {
      forall s ensures multiset(Map(Uuids.Print, ids))[s] == multiset(Map(Uuids.Print, others))[s] {
        BagCounts(instrument, winner, ids, s);
        BagCounts(other, won, others, s);
      }
      assert multiset(Map(Uuids.Print, ids)) == multiset(Map(Uuids.Print, others));
      PrintsPermute(ids, others);
    } else if !IsWinner(instrument) {
      PrintedSomewhere(ids, other);
      PrintedSomewhere(others, instrument);
    }
  }

  // ---------------------------------------------------------------- what a preview's fingerprint pins

  lemma PartsPlain(t: Tools, p: Preview, winner: string)
    requires OneLine(Normal(t, p.instrument)) && IsWinner(winner)
    ensures AllOneLine(PreviewParts(t, p, winner))
    ensures multiset(PreviewParts(t, p, winner)) == Bag(Normal(t, p.instrument), winner, p.decisionIDs)
  {
    hide Normal, Uuids.Print, OneLine;
    WinnerNormal(t, winner);
    var parts := PreviewParts(t, p, winner);
    forall i | 2 <= i < |parts| ensures OneLine(parts[i]) {
      UuidShape(p.decisionIDs[i - 2]);
    }
  }

  /** For one-line instruments, fingerprints agree exactly when the bags do. */
  lemma FingerprintIsBag(t: Tools, p: Preview, winner: string, q: Preview, other: string)
    requires CollisionFree(t) && IsWinner(winner) && IsWinner(other)
    requires OneLine(Normal(t, p.instrument)) && OneLine(Normal(t, q.instrument))
    ensures PreviewFingerprint(t, p, winner) == PreviewFingerprint(t, q, other) <==>
      Bag(Normal(t, p.instrument), winner, p.decisionIDs) == Bag(Normal(t, q.instrument), other, q.decisionIDs)
  {
    hide Normal, Uuids.Print, OneLine, Fingerprint, CollisionFree, Bag;
    PartsPlain(t, p, winner);
    PartsPlain(t, q, other);
    FingerprintExact(t, PreviewParts(t, p, winner), PreviewParts(t, q, other));
  }

  /** The same instrument, winner and decisions. */
  ghost predicate SamePreview(t: Tools, p: Preview, winner: string, q: Preview, other: string) {
    Normal(t, p.instrument) == Normal(t, q.instrument) && winner == other
      && multiset(p.decisionIDs) == multiset(q.decisionIDs)
  }

  /** The instrument reads like the outcome that did not win, or like an identity while some decision reads like another
      instrument. */
  ghost predicate Confusable(t: Tools, p: Preview, winner: string) {
    var instrument := Normal(t, p.instrument);
    || (IsWinner(instrument) && instrument != winner)
    || exists s :: TradesPlaces(instrument, Normal(t, s), p.decisionIDs)
  }

  ghost predicate Pins(t: Tools, p: Preview, winner: string) {
    forall q: Preview, other: string ::
      OneLine(Normal(t, q.instrument)) && IsWinner(other)
        && PreviewFingerprint(t, p, winner) == PreviewFingerprint(t, q, other) ==>
        SamePreview(t, p, winner, q, other)
  }

  /** Unless it can be confused, a preview's fingerprint is that of its instrument, winner and decisions only. */
  lemma PreviewExact(t: Tools, p: Preview, winner: string, q: Preview, other: string)
    requires CollisionFree(t) && IsWinner(winner) && IsWinner(other) && !Confusable(t, p, winner)
    requires OneLine(Normal(t, p.instrument)) && OneLine(Normal(t, q.instrument))
    ensures PreviewFingerprint(t, p, winner) == PreviewFingerprint(t, q, other) <==> SamePreview(t, p, winner, q, other)
  {
    hide Normal, Uuids.Print, OneLine, PreviewFingerprint, CollisionFree, TradesPlaces;
    FingerprintIsBag(t, p, winner, q, other);
    if PreviewFingerprint(t, p, winner) == PreviewFingerprint(t, q, other) {
      BagsAgree(Normal(t, p.instrument), winner, p.decisionIDs, Normal(t, q.instrument), other, q.decisionIDs);
    }
    if SamePreview(t, p, winner, q, other) { PrintsPermute(p.decisionIDs, q.decisionIDs); }
  }

  /** The losing outcome as an instrument has the fingerprint of the winning one that lost. */
  lemma OutcomeConfuses(t: Tools, p: Preview, winner: string)
    requires CollisionFree(t) && IsWinner(winner) && IsWinner(Normal(t, p.instrument))
      && Normal(t, p.instrument) != winner
    ensures !Pins(t, p, winner)
  {
    hide Normal, Uuids.Print, OneLine, PreviewFingerprint, CollisionFree;
    var instrument := Normal(t, p.instrument);
    var q := p.(instrument := winner);
    WinnerNormal(t, winner);
    WinnerNormal(t, instrument);
    assert Bag(instrument, winner, p.decisionIDs) == Bag(winner, instrument, p.decisionIDs);
    FingerprintIsBag(t, p, winner, q, instrument);
    assert !SamePreview(t, p, winner, q, instrument);
  }

  /** An instrument that reads like an identity has the fingerprint of the instrument that its decision reads like. */
  lemma IdentityConfuses(t: Tools, p: Preview, winner: string, s: string)
    requires CollisionFree(t) && IsWinner(winner) && OneLine(Normal(t, p.instrument))
    requires TradesPlaces(Normal(t, p.instrument), Normal(t, s), p.decisionIDs)
    ensures !Pins(t, p, winner)
  {
    hide Normal, Uuids.Print, OneLine, PreviewFingerprint, CollisionFree;
    var instrument, ids := Normal(t, p.instrument), p.decisionIDs;
    var u :| Uuids.Print(u) == instrument;
    var k :| 0 <= k < |ids| && Uuids.Print(ids[k]) == Normal(t, s);
    var q := Preview(s, p.count, ids[k := u]);
    UuidShape(ids[k]);
    SwappedPrints(ids, k, u);
    SwappedBag(instrument, Normal(t, s), winner, ids, q.decisionIDs);
    FingerprintIsBag(t, p, winner, q, winner);
    assert !SamePreview(t, p, winner, q, winner);
  }

  lemma SwappedBag(a: string, b: string, winner: string, ids: seq<Uuid>, others: seq<Uuid>)
    requires multiset(Map(Uuids.Print, ids)) + multiset{a} == multiset(Map(Uuids.Print, others)) + multiset{b}
    ensures Bag(a, winner, ids) == Bag(b, winner, others)
  {
    hide Uuids.Print;
    assert multiset{a, winner} == multiset{winner} + multiset{a}
      && multiset{b, winner} == multiset{winner} + multiset{b};
    assert Bag(a, winner, ids) == multiset{winner} + (multiset(Map(Uuids.Print, ids)) + multiset{a});
    assert Bag(b, winner, others) == multiset{winner} + (multiset(Map(Uuids.Print, others)) + multiset{b});
  }

  lemma SwappedPrints(ids: seq<Uuid>, k: nat, u: Uuid)
    requires k < |ids|
    ensures multiset(Map(Uuids.Print, ids)) + multiset{Uuids.Print(u)} == multiset(Map(Uuids.Print, ids[k := u]))
      + multiset{Uuids.Print(ids[k])}
  {
    hide Uuids.Print;
    var prints := Map(Uuids.Print, ids);
    assert Map(Uuids.Print, ids[k := u]) == prints[k := Uuids.Print(u)];
    assert prints == prints[..k] + [prints[k]] + prints[k + 1..];
    assert prints[k := Uuids.Print(u)] == prints[..k] + [Uuids.Print(u)] + prints[k + 1..];
  }

  /** A one-line preview's fingerprint pins its parts exactly when it cannot be confused. */
  lemma PinsExactly(t: Tools, p: Preview, winner: string)
    requires CollisionFree(t) && IsWinner(winner) && OneLine(Normal(t, p.instrument))
    ensures Pins(t, p, winner) <==> !Confusable(t, p, winner)
  {
    hide Normal, OneLine, PreviewFingerprint, CollisionFree, TradesPlaces, SamePreview;
    if !Confusable(t, p, winner) {
      forall q: Preview, other: string | OneLine(Normal(t, q.instrument)) && IsWinner(other)
        && PreviewFingerprint(t, p, winner) == PreviewFingerprint(t, q, other)
        ensures SamePreview(t, p, winner, q, other)
      {
        PreviewExact(t, p, winner, q, other);
      }
    } else if IsWinner(Normal(t, p.instrument)) && Normal(t, p.instrument) != winner {
      OutcomeConfuses(t, p, winner);
    } else {
      var s :| TradesPlaces(Normal(t, p.instrument), Normal(t, s), p.decisionIDs);
      IdentityConfuses(t, p, winner, s);
    }
  }

  // ---------------------------------------------------------------- real confusions

  /** Instruments called YES and NO trade places with the winner. */
  lemma OutcomeInstrumentsConfuse(t: Tools, ids: seq<Uuid>)
    ensures PreviewFingerprint(t, Preview("YES", |ids|, ids), "NO")
      == PreviewFingerprint(t, Preview("NO", |ids|, ids), "YES")
  {
    hide Uuids.Print;
    WinnerNormal(t, "YES");
    WinnerNormal(t, "NO");
    var a := PreviewParts(t, Preview("YES", |ids|, ids), "NO");
    var b := PreviewParts(t, Preview("NO", |ids|, ids), "YES");
    assert multiset(a) == multiset{"YES", "NO"} + multiset(Map(Uuids.Print, ids)) == multiset(b);
    SortExact(a, b);
  }

  /** An identity spelt without letters is unchanged by upper-casing. */
  lemma DigitsUnchanged(t: Tools, u: Uuid)
    requires forall i :: 0 <= i < 32 ==> u[i] < 10
    ensures Normal(t, Uuids.Print(u)) == Uuids.Print(u)
  {
    var s := Uuids.Print(u);
    PrintedDigits(u);
    hide Uuids.Print;
    NotSpace(s[0]);
    NotSpace(s[35]);
    assert TrimLeft(s) == s;
    assert TrimRight(s) == s;
    forall i | 0 <= i < 36 ensures UpperChar(t, s[i]) == s[i] { PlainChar(t, s[i]); }
    assert Upper(t, s) == s;
  }

  lemma PlainChar(t: Tools, c: char)
    requires c in "0123456789-"
    ensures UpperChar(t, c) == c
  {
  }

  lemma NotSpace(c: char)
    requires c in "0123456789-"
    ensures !IsSpace(c)
  {
  }

  lemma PrintedDigits(u: Uuid)
    requires forall i :: 0 <= i < 32 ==> u[i] < 10
    ensures forall i :: 0 <= i < 36 ==> Uuids.Print(u)[i] in "0123456789-"
  {
    assert forall i :: 0 <= i < 32 ==> Uuids.Digits(u)[i] in "0123456789-";
  }

  /** Two such identities, as instrument and decision, trade places. */
  lemma IdentityInstrumentsConfuse(t: Tools, u: Uuid, v: Uuid, winner: string)
    requires (forall i :: 0 <= i < 32 ==> u[i] < 10) && (forall i :: 0 <= i < 32 ==> v[i] < 10)
    ensures PreviewFingerprint(t, Preview(Uuids.Print(u), 1, [v]), winner)
      == PreviewFingerprint(t, Preview(Uuids.Print(v), 1, [u]), winner)
  {
    hide Uuids.Print, Normal, PreviewParts, SortBy, Lines;
    DigitsUnchanged(t, u);
    DigitsUnchanged(t, v);
    OneDecision(t, Uuids.Print(u), v, winner);
    OneDecision(t, Uuids.Print(v), u, winner);
    EndsSwap(Uuids.Print(u), Normal(t, winner), Uuids.Print(v));
  }

  lemma OneDecision(t: Tools, instrument: string, v: Uuid, winner: string)
    ensures PreviewParts(t, Preview(instrument, 1, [v]), winner)
      == [Normal(t, instrument), Normal(t, winner), Uuids.Print(v)]
  {
    hide Uuids.Print, Normal;
  }

  lemma EndsSwap(a: string, b: string, c: string)
    ensures SortBy([a, b, c], Identity) == SortBy([c, b, a], Identity)
  {
    hide SortBy;
    SortExact([a, b, c], [c, b, a]);
  }
}

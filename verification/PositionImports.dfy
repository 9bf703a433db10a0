/** The second and third stage of a reconciliation: open positions by ticker, and closing those the broker no longer
    holds. */
module PositionImports {
  import opened Text
  import opened Uuids
  import opened BrokerRows
  import opened Imports
  import opened LocalStores
  import opened OrderImports

  predicate Managed(p: Position) { p.owned && p.closedAt.None? && !EventMarket(p) }

  function PositionKey(p: Position): Option<string> { if Managed(p) then Some(p.ticker) else None }

  /** When a position was closed does not count, only that it was. */
  function Erased(p: Position): Position { if p.closedAt.Some? then p.(closedAt := Some(0)) else p }

  function PositionSnapshotFor(snapshots: seq<PositionSnapshot>, k: string): Option<PositionSnapshot> {
    if snapshots == [] then None
    else if snapshots[0].ticker == k then Some(snapshots[0])
    else PositionSnapshotFor(snapshots[1..], k)
  }

  function SettledPosition(c: Context, p: Position): Position {
    if !Managed(p) then Erased(p)
    else if PositionSnapshotFor(c.positions, p.ticker).Some?
      then ApplyPosition(p, PositionSnapshotFor(c.positions, p.ticker).value, Lookup(c.strategies, p.ticker))
    else Closed(p, 0)
  }

  function PositionArrivals(c: Context): (r: seq<(string, Position)>)
    ensures |r| == |c.positions| && forall i :: 0 <= i < |r| ==>
      r[i] == (c.positions[i].ticker, NewPosition(c.positions[i], Lookup(c.strategies, c.positions[i].ticker)))
  {
    Map((s: PositionSnapshot) => (s.ticker, NewPosition(s, Lookup(c.strategies, s.ticker))), c.positions)
  }

  function PositionImport(c: Context): (m: Import<Position>)
    ensures m.arrivals == PositionArrivals(c)
    ensures forall p :: m.settle(p) == SettledPosition(c, p)
    ensures forall p :: m.view(p) == Erased(p)
    ensures forall p :: m.key(p) == PositionKey(p)
  {
    Import((p: Position) => SettledPosition(c, p), Erased, PositionKey, PositionArrivals(c))
  }

  ghost predicate WellFormedPositions(c: Context) {
    forall i, j :: 0 <= i < j < |c.positions| ==> c.positions[i].ticker != c.positions[j].ticker
  }

  lemma {:induction false} PositionSnapshotFound(snapshots: seq<PositionSnapshot>, i: nat)
    requires i < |snapshots| && forall a, b :: 0 <= a < b < |snapshots| ==> snapshots[a].ticker != snapshots[b].ticker
    ensures PositionSnapshotFor(snapshots, snapshots[i].ticker) == Some(snapshots[i])
  {
    if i > 0 {
      PositionSnapshotFound(snapshots[1..], i - 1);
      assert snapshots[0].ticker != snapshots[i].ticker;
    }
  }

  lemma {:induction false} PositionSnapshotAbsent(snapshots: seq<PositionSnapshot>, k: string)
    requires forall i :: 0 <= i < |snapshots| ==> snapshots[i].ticker != k
    ensures PositionSnapshotFor(snapshots, k).None?
  {
    if snapshots != [] { PositionSnapshotAbsent(snapshots[1..], k); }
  }

  lemma PositionsSound(c: Context)
    requires WellFormedPositions(c)
    ensures Sound(PositionImport(c))
  {
    hide PositionImport, PositionArrivals;
    var m := PositionImport(c);
    forall i | 0 <= i < |m.arrivals|
      ensures var a := m.arrivals[i]; m.key(a.1) == Some(a.0) && m.settle(a.1) == a.1 && m.view(a.1) == a.1
    {
      PositionSnapshotFound(c.positions, i);
    }
  }

  /** A managed position the broker still holds: what the update leaves. */
  lemma PositionUpdateFacts(c: Context, p: Position, i: nat)
    requires WellFormedPositions(c) && i < |c.positions| && PositionKey(p) == Some(c.positions[i].ticker)
    ensures var s := c.positions[i]; var r := ApplyPosition(p, s, Lookup(c.strategies, s.ticker));
      SettledPosition(c, p) == r && SettledPosition(c, r) == r && PositionKey(r) == PositionKey(p) && Erased(r) == r
        && Erased(p) == p
  {
    PositionSnapshotFound(c.positions, i);
  }

  /** A managed position the broker no longer holds: what closing leaves. */
  lemma PositionCloseFacts(c: Context, p: Position, at: int)
    requires Managed(p) && !Arrives(PositionImport(c), p.ticker)
    ensures SettledPosition(c, Closed(p, at)) == SettledPosition(c, p) && PositionKey(Closed(p, at)).None?
      && SettledPosition(c, p) != Erased(p)
  {
    hide PositionImport, PositionArrivals;
    forall i | 0 <= i < |c.positions| ensures c.positions[i].ticker != p.ticker {
      assert c.positions[i].ticker == p.ticker ==> ArrivalAt(PositionImport(c), p.ticker, i);
    }
    PositionSnapshotAbsent(c.positions, p.ticker);
  }

  // ---------------------------------------------------------------- reading the table

  /** The open positions that Alpaca owns, each with its place. */
  function PositionListing(positions: seq<Position>): seq<(nat, Position)> {
    if positions == [] then []
    else
      var n := |positions| - 1;
      PositionListing(positions[..n]) + if positions[n].owned
        && positions[n].closedAt.None? then [(n, positions[n])] else []
  }

  function PositionIndex(listing: seq<(nat, Position)>): map<string, nat> {
    if listing == [] then map[]
    else
      var rest, last := PositionIndex(listing[..|listing| - 1]), listing[|listing| - 1];
      if EventMarket(last.1) then rest else rest[last.1.ticker := last.0]
  }

  lemma PositionListingNext(front: seq<Position>, p: Position)
    ensures PositionListing(front + [p]) == PositionListing(front) + if p.owned
      && p.closedAt.None? then [(|front|, p)] else []
  {
    assert (front + [p])[..|front|] == front;
  }

  lemma PositionIndexAdds(listing: seq<(nat, Position)>, n: nat, p: Position)
    ensures PositionIndex(listing + [(n, p)]) == if EventMarket(p)
      then PositionIndex(listing) else PositionIndex(listing)[p.ticker := n]
  {
    assert (listing + [(n, p)])[..|listing|] == listing;
  }

  lemma PositionIndexNext(front: seq<Position>, p: Position)
    ensures PositionIndex(PositionListing(front + [p])) ==
      if Managed(p) then PositionIndex(PositionListing(front))[p.ticker := |front|]
        else PositionIndex(PositionListing(front))
  {
    hide PositionListing, PositionIndex;
    PositionListingNext(front, p);
    PositionIndexAdds(PositionListing(front), |front|, p);
    assert PositionListing(front) + [] == PositionListing(front);
  }

  lemma {:induction false} PositionIndexExact(c: Context, positions: seq<Position>)
    requires Unique(PositionImport(c), positions)
    ensures Indexes(PositionImport(c), positions, PositionIndex(PositionListing(positions)))
  {
    hide PositionImport, PositionListing, PositionIndex, Unique, Indexes;
    var m := PositionImport(c);
    if positions != [] {
      var n := |positions| - 1;
      var front := positions[..n];
      assert positions == front + [positions[n]];
      FrontUnique(m, front, positions[n]);
      PositionIndexExact(c, front);
      PositionIndexNext(front, positions[n]);
      var index := PositionIndex(PositionListing(front));
      if Managed(positions[n]) {
        IndexAfterLast(m, front, index, positions[n].ticker, positions[n]);
      } else {
        IndexAfterNone(m, front, index, positions[n]);
      }
    } else {
      NoPositions(m, positions);
    }
  }

  lemma NoPositions(m: Import<Position>, positions: seq<Position>)
    requires positions == []
    ensures Indexes(m, positions, PositionIndex(PositionListing(positions)))
  {
    assert PositionListing(positions) == [];
  }

  lemma {:induction false} PositionIndexPlaces(positions: seq<Position>)
    ensures forall k :: k in PositionIndex(PositionListing(positions)) ==>
      PositionIndex(PositionListing(positions))[k] < |positions|
  {
    if positions != [] {
      var n := |positions| - 1;
      PositionIndexPlaces(positions[..n]);
      PositionIndexNext(positions[..n], positions[n]);
      assert positions == positions[..n] + [positions[n]];
    }
  }

  method LoadPositions(store: LocalStore, access: nat -> bool) returns (r: Option<map<string, nat>>)
    ensures r.Some? <==> PagesRead(|PositionListing(store.positions)|, access)
    ensures r.Some? ==> r.value == PositionIndex(PositionListing(store.positions))
  {
    hide PagesRead;
    var listed := ListAll(PositionListing(store.positions), access);
    if listed.None? { return None; }
    var listing := listed.value;
    var index: map<string, nat> := map[];
    for i := 0 to |listing|
      invariant index == PositionIndex(listing[..i])
    {
      assert listing[..i + 1][..i] == listing[..i];
      if EventMarket(listing[i].1) { continue; }
      index := index[listing[i].1.ticker := listing[i].0];
    }
    assert listing[..|listing|] == listing;
    r := Some(index);
  }

  /** No open position that Alpaca owns is on an event market. */
  ghost predicate NoEvents(positions: seq<Position>) {
    forall i :: 0 <= i < |positions| && positions[i].owned && positions[i].closedAt.None? ==> !EventMarket(positions[i])
  }

  // ---------------------------------------------------------------- updating and creating

  ghost predicate PositionsReady(c: Context, positions: seq<Position>) {
    WellFormedPositions(c) && Unique(PositionImport(c), positions)
  }

  method ImportPositions(store: LocalStore, c: Context, loaded: map<string, nat>)
    returns (ok: bool, index: map<string, nat>)
    requires loaded == PositionIndex(PositionListing(store.positions))
    modifies store`positions, store`writes
    ensures forall k :: k in index ==> index[k] < |store.positions|
    ensures old(NoEvents(store.positions)) ==> NoEvents(store.positions)
    ensures old(PositionsReady(c, store.positions)) ==>
      && Unique(PositionImport(c), store.positions)
        && Final(PositionImport(c), store.positions) == old(Final(PositionImport(c), store.positions))
      && (ok ==> Underway(PositionImport(c), old(store.positions), store.positions, index, |c.positions|))
      && (old(Stable(PositionImport(c), store.positions)) ==>
        ok && store.positions == old(store.positions) && store.writes == old(store.writes))
  {
    hide PositionImport, Unique, Indexes, Underway, Stable, Final, WellFormedPositions, ApplyPosition, NewPosition,
      SettledPosition, PositionListing, PositionIndex, PositionArrivals, NoEvents;
    ghost var start := store.positions;
    ghost var m := PositionImport(c);
    ghost var ready := PositionsReady(c, start);
    index := loaded;
    PositionIndexPlaces(store.positions);
    if ready {
      PositionIndexExact(c, start);
      Begins(m, start, index);
    }
    for n := 0 to |c.positions|
      invariant forall k :: k in index ==> index[k] < |store.positions|
      invariant old(NoEvents(store.positions)) ==> NoEvents(store.positions)
      invariant ready ==> Underway(m, start, store.positions, index, n)
      invariant ready && Stable(m, start) ==> store.writes == old(store.writes)
    {
      var s := c.positions[n];
      var strategy := Lookup(c.strategies, s.ticker);
      ghost var table := store.positions;
      if s.ticker in index {
        var id := index[s.ticker];
        var row, changed := ApplyPositionSnapshot(store.positions[id], s, strategy);
        AppliedNoEvents(table, id, s, strategy);
        if ready { KnownPosition(c, start, table, index, n, row); }
        if changed {
          var stored := store.UpdatePosition(id, row);
          if !stored {
            if ready { UnderwayKeeps(m, start, store.positions, index, if store.positions == table then n else n + 1); }
            return false, index;
          }
        }
        continue;
      }
      NewNoEvents(table, s, strategy);
      if ready { UnknownPosition(c, start, table, index, n); }
      var stored := store.CreatePosition(NewPosition(s, strategy));
      if !stored {
        if ready {
          UnderwayKeeps(m, start, store.positions, if store.positions == table
            then index else index[s.ticker := |table|], if store.positions == table then n else n + 1);
        }
        return false, index;
      }
      index := index[s.ticker := |store.positions| - 1];
    }
    if ready { UnderwayKeeps(m, start, store.positions, index, |c.positions|); }
    ok := true;
  }

  lemma AppliedNoEvents(table: seq<Position>, id: nat, s: PositionSnapshot, strategy: Option<Uuid>)
    requires id < |table|
    ensures NoEvents(table) ==> NoEvents(table[id := ApplyPosition(table[id], s, strategy)])
  {
  }

  lemma NewNoEvents(table: seq<Position>, s: PositionSnapshot, strategy: Option<Uuid>)
    ensures NoEvents(table) ==> NoEvents(table + [NewPosition(s, strategy)])
  {
  }

  lemma ClosedNoEvents(table: seq<Position>, id: nat, at: int)
    requires id < |table|
    ensures NoEvents(table) ==> NoEvents(table[id := Closed(table[id], at)])
  {
  }

  lemma KnownPosition(c: Context, start: seq<Position>, table: seq<Position>, index: map<string, nat>, n: nat,
      row: Position)
    requires WellFormedPositions(c) && n < |c.positions| && Underway(PositionImport(c), start, table, index, n)
    requires c.positions[n].ticker in index && index[c.positions[n].ticker] < |table|
    requires row == ApplyPosition(table[index[c.positions[n].ticker]], c.positions[n],
      Lookup(c.strategies, c.positions[n].ticker))
    ensures row == table[index[c.positions[n].ticker]] ==> Underway(PositionImport(c), start, table, index, n + 1)
    ensures row != table[index[c.positions[n].ticker]] ==>
      !Stable(PositionImport(c), start)
        && Underway(PositionImport(c), start, table[index[c.positions[n].ticker] := row], index, n + 1)
  {
    hide PositionImport, Underway, Stable, Final, WellFormedPositions, ApplyPosition, NewPosition, PositionKey,
      SettledPosition, PositionArrivals, Erased;
    var m, k := PositionImport(c), c.positions[n].ticker;
    UnderwayKeeps(m, start, table, index, n);
    assert KeyAt(m, table, k, index[k]);
    PositionUpdateFacts(c, table[index[k]], n);
    assert Settled(m, row);
    if row == table[index[k]] {
      StepKeep(m, start, table, index, n);
    } else {
      StepUpdate(m, start, table, index, n, row);
    }
  }

  lemma UnknownPosition(c: Context, start: seq<Position>, table: seq<Position>, index: map<string, nat>, n: nat)
    requires WellFormedPositions(c) && n < |c.positions| && Underway(PositionImport(c), start, table, index, n)
      && c.positions[n].ticker !in index
    ensures !Stable(PositionImport(c), start)
    ensures Underway(PositionImport(c), start,
      table + [NewPosition(c.positions[n], Lookup(c.strategies, c.positions[n].ticker))],
        index[c.positions[n].ticker := |table|], n + 1)
  {
    hide PositionImport, Underway, Stable, Final, WellFormedPositions, Sound;
    PositionsSound(c);
    StepCreate(PositionImport(c), start, table, index, n);
  }

  // ---------------------------------------------------------------- closing

  /** Closes, in any order, the indexed positions the broker no longer holds. */
  method ClosePositions(store: LocalStore, c: Context, index: map<string, nat>, now: int,
      ghost start: seq<Position>) returns (ok: bool)
    requires forall k :: k in index ==> index[k] < |store.positions|
    modifies store`positions, store`writes
    ensures |store.positions| == |old(store.positions)|
    ensures old(NoEvents(store.positions)) ==> NoEvents(store.positions)
    ensures old(Underway(PositionImport(c), start, store.positions, index, |c.positions|)) ==>
      && Unique(PositionImport(c), store.positions)
        && Final(PositionImport(c), store.positions) == Final(PositionImport(c), start)
      && (ok ==>
        Stable(PositionImport(c), store.positions)
        && forall k :: Present(PositionImport(c), store.positions, k) <==> Arrives(PositionImport(c), k))
      && (Stable(PositionImport(c), start) ==>
        ok && store.positions == old(store.positions) && store.writes == old(store.writes))
  {
    hide PositionImport, Unique, Underway, Stable, Final, Retiring, Arrives, Present, SettledPosition, PositionArrivals,
      NoEvents;
    ghost var m := PositionImport(c);
    ghost var ready := Underway(m, start, store.positions, index, |c.positions|);
    if ready {
      UnderwayKeeps(m, start, store.positions, index, |c.positions|);
      RetiringBegins(m, start, store.positions, index);
    }
    var held := set i | 0 <= i < |c.positions| :: c.positions[i].ticker;
    var pending := index.Keys;
    while pending != {}
      invariant pending <= index.Keys && |store.positions| == |old(store.positions)|
      invariant old(NoEvents(store.positions)) ==> NoEvents(store.positions)
      invariant ready ==> Retiring(m, start, store.positions, index, pending)
      invariant ready && Stable(m, start) ==> store.writes == old(store.writes)
      decreases pending
    {
      var k :| k in pending;
      var id := index[k];
      ghost var table := store.positions;
      if ready { RetireStep(c, start, table, index, pending, k, now, held); }
      if k in held || store.positions[id].closedAt.Some? {
        pending := pending - {k};
        continue;
      }
      ClosedNoEvents(table, id, now);
      var stored := store.UpdatePosition(id, Closed(store.positions[id], now));
      if !stored {
        if ready {
          RetiringKeeps(m, start, store.positions, index, if store.positions == table then pending else pending - {k});
        }
        return false;
      }
      pending := pending - {k};
    }
    if ready {
      RetiringKeeps(m, start, store.positions, index, pending);
      PositionsRetired(c, start, store.positions, index);
    }
    ok := true;
  }

  lemma RetiringKeeps<Row>(m: Import<Row>, start: seq<Row>, table: seq<Row>, index: map<string, nat>,
      pending: set<string>)
    requires Retiring(m, start, table, index, pending)
    ensures Unique(m, table) && Final(m, table) == Final(m, start) && (Stable(m, start) ==> table == start)
  {
  }

  lemma RetireStep(c: Context, start: seq<Position>, table: seq<Position>, index: map<string, nat>,
      pending: set<string>, k: string, now: int, held: set<string>)
    requires Retiring(PositionImport(c), start, table, index, pending) && k in pending && k in index
      && index[k] < |table|
    requires held == set i | 0 <= i < |c.positions| :: c.positions[i].ticker
    ensures k in held || table[index[k]].closedAt.Some? ==>
      Retiring(PositionImport(c), start, table, index, pending - {k})
    ensures !(k in held || table[index[k]].closedAt.Some?) ==>
      !Stable(PositionImport(c), start)
        && Retiring(PositionImport(c), start, table[index[k] := Closed(table[index[k]], now)], index, pending - {k})
  {
    hide PositionImport, Unique, Stable, Final, Present, SettledPosition, PositionArrivals, Closed, Erased;
    var m := PositionImport(c);
    HeldArrives(c, k, held);
    PendingManaged(c, start, table, index, pending, k);
    if k in held {
      RetireSkip(m, start, table, index, pending, k);
    } else {
      PositionCloseFacts(c, table[index[k]], now);
      RetireRow(m, start, table, index, pending, k, Closed(table[index[k]], now));
    }
  }

  lemma HeldArrives(c: Context, k: string, held: set<string>)
    requires held == set i | 0 <= i < |c.positions| :: c.positions[i].ticker
    ensures k in held <==> Arrives(PositionImport(c), k)
  {
    hide PositionImport, PositionArrivals, NewPosition;
    var m := PositionImport(c);
    if k in held {
      var i :| 0 <= i < |c.positions| && c.positions[i].ticker == k;
      assert ArrivalAt(m, k, i);
    }
  }

  lemma PendingManaged(c: Context, start: seq<Position>, table: seq<Position>, index: map<string, nat>,
      pending: set<string>, k: string)
    requires Retiring(PositionImport(c), start, table, index, pending) && k in pending && k in index
      && index[k] < |table|
    ensures Managed(table[index[k]]) && table[index[k]].ticker == k
  {
    hide PositionImport, Unique, Stable, Final, Present;
    assert KeyAt(PositionImport(c), table, k, index[k]);
  }

  lemma PositionsRetired(c: Context, start: seq<Position>, table: seq<Position>, index: map<string, nat>)
    requires Retiring(PositionImport(c), start, table, index, {})
    ensures Stable(PositionImport(c), table) && forall k :: Present(PositionImport(c), table, k) <==>
      Arrives(PositionImport(c), k)
  {
    hide PositionImport, Unique, Stable, Final, Present, Arrives, Retiring;
    var m := PositionImport(c);
    forall i | 0 <= i < |table| ensures m.key(table[i]).Some? || Settled(m, table[i]) {}
    Retired(m, start, table, index);
  }
}

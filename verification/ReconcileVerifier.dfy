/** The verifier that checks the local books against the broker, independently of the importer
    (alpaca_reconciliation.go). */
module ReconcileVerifier {
  import opened Text
  import opened BrokerRows
  import opened Imports
  import opened LocalStores
  import opened OrderImports
  import opened PositionImports
  import opened TradeImports
  import opened Reconciler

  datatype Mismatch = Mismatch(entity: string, key: string, details: seq<string>)
  datatype Report = Report(missingOrders: nat, missingPositions: nat, missingTrades: nat, mismatches: seq<Mismatch>,
      verified: bool)

  // ---------------------------------------------------------------- what the verifier looks up

  predicate OrderOk(c: Context, orders: seq<Order>, index: map<string, nat>, s: OrderSnapshot) {
    s.externalID in index && index[s.externalID] < |orders|
      && DiffOrder(c.formats, orders[index[s.externalID]], s) == []
  }

  /** The verifier's own index leaves no position out. */
  function OpenIndex(listing: seq<(nat, Position)>): map<string, nat> {
    if listing == [] then map[]
    else OpenIndex(listing[..|listing| - 1])[listing[|listing| - 1].1.ticker := listing[|listing| - 1].0]
  }

  predicate PositionOk(positions: seq<Position>, index: map<string, nat>, s: PositionSnapshot) {
    s.ticker in index && index[s.ticker] < |positions| && DiffPosition(positions[index[s.ticker]], s) == []
  }

  /** The last stored trade under each key. */
  function TradeIndex(f: Formats, trades: seq<Trade>): map<string, Trade> {
    if trades == [] then map[]
    else TradeIndex(f, trades[..|trades| - 1])[TradeKey(f, trades[|trades| - 1]) := trades[|trades| - 1]]
  }

  function TradeFound(c: Context, index: map<string, Trade>, fill: Fill): Option<Trade> {
    var keys := KeysOf(c, fill);
    if keys[0] in index then Some(index[keys[0]]) else if |keys| == 2
      && keys[1] in index then Some(index[keys[1]]) else None
  }

  predicate FillOk(c: Context, index: map<string, Trade>, fill: Fill) {
    TradeFound(c, index, fill).Some? && DiffTrade(TradeFound(c, index, fill).value, fill) == []
  }

  ghost predicate OrdersOk(c: Context, orders: seq<Order>, n: nat)
    requires n <= |c.orders|
  {
    forall i :: 0 <= i < n ==> OrderOk(c, orders, OrderIndex(OrderListing(orders)), c.orders[i])
  }

  ghost predicate PositionsOk(c: Context, positions: seq<Position>, n: nat)
    requires n <= |c.positions|
  {
    forall i :: 0 <= i < n ==> PositionOk(positions, OpenIndex(PositionListing(positions)), c.positions[i])
  }

  ghost predicate FillsOk(c: Context, trades: seq<Trade>, n: nat)
    requires n <= |c.fills|
  {
    forall i :: 0 <= i < n ==> FillOk(c, TradeIndex(c.formats, trades), c.fills[i])
  }

  // ---------------------------------------------------------------- Verify

  method VerifyOrders(store: LocalStore, c: Context, index: map<string, nat>)
    returns (missing: nat, mismatches: seq<Mismatch>)
    requires index == OrderIndex(OrderListing(store.orders))
    ensures missing == 0 && mismatches == [] <==> OrdersOk(c, store.orders, |c.orders|)
  {
    hide DiffOrder, OrderIndex, OrderListing;
    missing, mismatches := 0, [];
    OrderIndexPlaces(store.orders);
    for n := 0 to |c.orders|
      invariant missing == 0 && mismatches == [] <==> OrdersOk(c, store.orders, n)
    {
      var s := c.orders[n];
      assert OrdersOk(c, store.orders, n + 1) <==> OrdersOk(c, store.orders, n) && OrderOk(c, store.orders, index, s);
      if s.externalID !in index {
        missing := missing + 1;
        mismatches := mismatches + [Mismatch("order", s.externalID, ["missing local order"])];
        continue;
      }
      var fields := DiffOrder(c.formats, store.orders[index[s.externalID]], s);
      if |fields| > 0 { mismatches := mismatches + [Mismatch("order", s.externalID, fields)]; }
    }
  }

  lemma {:induction false} OpenIndexPlaces(positions: seq<Position>)
    ensures forall k :: k in OpenIndex(PositionListing(positions)) ==>
      OpenIndex(PositionListing(positions))[k] < |positions|
  {
    hide PositionListing;
    if positions == [] {
      NoListing(positions);
    } else {
      var n := |positions| - 1;
      var listing := PositionListing(positions[..n]);
      OpenIndexPlaces(positions[..n]);
      PositionListingNext(positions[..n], positions[n]);
      assert positions == positions[..n] + [positions[n]];
      assert listing + [] == listing;
      OpenIndexAdds(listing, n, positions[n]);
    }
  }

  lemma NoListing(positions: seq<Position>)
    requires positions == []
    ensures PositionListing(positions) == []
  {
  }

  lemma OpenIndexAdds(listing: seq<(nat, Position)>, n: nat, p: Position)
    ensures OpenIndex(listing + [(n, p)]) == OpenIndex(listing)[p.ticker := n]
  {
    assert (listing + [(n, p)])[..|listing|] == listing;
  }

  method LoadOpen(store: LocalStore, access: nat -> bool) returns (r: Option<map<string, nat>>)
    ensures r.Some? <==> PagesRead(|PositionListing(store.positions)|, access)
    ensures r.Some? ==> r.value == OpenIndex(PositionListing(store.positions))
  {
    hide PositionListing, PagesRead;
    var listed := ListAll(PositionListing(store.positions), access);
    if listed.None? { return None; }
    var listing := listed.value;
    var index: map<string, nat> := map[];
    for i := 0 to |listing|
      invariant index == OpenIndex(listing[..i])
    {
      assert listing[..i + 1][..i] == listing[..i];
      index := index[listing[i].1.ticker := listing[i].0];
    }
    assert listing[..|listing|] == listing;
    r := Some(index);
  }

  method VerifyPositions(store: LocalStore, c: Context, index: map<string, nat>)
    returns (missing: nat, mismatches: seq<Mismatch>)
    requires index == OpenIndex(PositionListing(store.positions))
    ensures missing == 0 && mismatches == [] <==> PositionsOk(c, store.positions, |c.positions|)
  {
    hide DiffPosition, PositionListing;
    missing, mismatches := 0, [];
    OpenIndexPlaces(store.positions);
    for n := 0 to |c.positions|
      invariant missing == 0 && mismatches == [] <==> PositionsOk(c, store.positions, n)
    {
      var s := c.positions[n];
      assert PositionsOk(c, store.positions, n + 1) <==>
        PositionsOk(c, store.positions, n) && PositionOk(store.positions, index, s);
      if s.ticker !in index {
        missing := missing + 1;
        mismatches := mismatches + [Mismatch("position", s.ticker, ["missing local position"])];
        continue;
      }
      var fields := DiffPosition(store.positions[index[s.ticker]], s);
      if |fields| > 0 { mismatches := mismatches + [Mismatch("position", s.ticker, fields)]; }
    }
  }

  method LoadTrades(store: LocalStore, f: Formats, access: nat -> bool) returns (r: Option<map<string, Trade>>)
    ensures r.Some? <==> PagesRead(|store.trades|, access)
    ensures r.Some? ==> r.value == TradeIndex(f, store.trades)
  {
    hide TradeKey, PagesRead;
    var listed := ListAll(store.trades, access);
    if listed.None? { return None; }
    var trades := listed.value;
    var index: map<string, Trade> := map[];
    for i := 0 to |trades|
      invariant index == TradeIndex(f, trades[..i])
    {
      assert trades[..i + 1][..i] == trades[..i];
      index := index[TradeKey(f, trades[i]) := trades[i]];
    }
    assert trades[..|trades|] == trades;
    r := Some(index);
  }

  method VerifyFills(store: LocalStore, c: Context, index: map<string, Trade>)
    returns (missing: nat, mismatches: seq<Mismatch>)
    requires index == TradeIndex(c.formats, store.trades)
    ensures missing == 0 && mismatches == [] <==> FillsOk(c, store.trades, |c.fills|)
  {
    hide DiffTrade, TradeIndex, FillKeys, LegacyKey, LegacyCount, KeysOf;
    missing, mismatches := 0, [];
    var counts := CountLegacyKeys(c.formats, c.fills);
    for n := 0 to |c.fills|
      invariant missing == 0 && mismatches == [] <==> FillsOk(c, store.trades, n)
    {
      var fill := c.fills[n];
      assert FillsOk(c, store.trades, n + 1) <==> FillsOk(c, store.trades, n) && FillOk(c, index, fill);
      var legacy := LegacyKey(c.formats, fill);
      var keys := FillKeys(c.formats, fill, if legacy in counts then counts[legacy] else 0);
      KeysComputed(c, fill, keys);
      var found := if keys[0] in index then Some(index[keys[0]]) else if |keys| == 2
        && keys[1] in index then Some(index[keys[1]]) else None;
      if found.None? {
        missing := missing + 1;
        mismatches := mismatches + [Mismatch("trade", keys[0], ["missing local trade"])];
        continue;
      }
      var fields := DiffTrade(found.value, fill);
      if |fields| > 0 { mismatches := mismatches + [Mismatch("trade", keys[0], fields)]; }
    }
  }

  ghost predicate AllOk(c: Context, orders: seq<Order>, positions: seq<Position>, trades: seq<Trade>) {
    OrdersOk(c, orders, |c.orders|) && PositionsOk(c, positions, |c.positions|) && FillsOk(c, trades, |c.fills|)
  }

  /** Verify: a report is made exactly when everything can be read; it says verified exactly when every order, position
      and
      fill of the broker is found and agrees. */
  method Verify(store: LocalStore, c: Context, access: Access, audited: bool) returns (r: Option<Report>, ok: bool)
    ensures r.Some? <==> AllRead(access, store.orders, store.positions, store.trades)
    ensures r.Some? ==> (r.value.verified <==> AllOk(c, store.orders, store.positions, store.trades))
    ensures r.Some? && r.value.verified ==> r.value.mismatches == []
    ensures ok <==> r.Some? && audited
  {
    hide OrdersOk, PositionsOk, FillsOk, PagesRead, OrderListing, OrderIndex, PositionListing, OpenIndex, TradeIndex;
    if !access.broker { return None, false; }
    var orderIndex := LoadOrders(store, access.orders);
    if orderIndex.None? { return None, false; }
    var openIndex := LoadOpen(store, access.positions);
    if openIndex.None? { return None, false; }
    var tradeIndex := LoadTrades(store, c.formats, access.trades);
    if tradeIndex.None? { return None, false; }
    var missingOrders, orders := VerifyOrders(store, c, orderIndex.value);
    var missingPositions, positions := VerifyPositions(store, c, openIndex.value);
    var missingTrades, trades := VerifyFills(store, c, tradeIndex.value);
    var all := orders + positions + trades;
    var verified := missingOrders == 0 && missingPositions == 0 && missingTrades == 0 && |all| == 0;
    return Some(Report(missingOrders, missingPositions, missingTrades, all, verified)), audited;
  }

  // ---------------------------------------------------------------- what final books look like to the verifier

  lemma FinalOrdersOk(c: Context, orders: seq<Order>)
    requires WellFormedOrders(c) && Unique(OrderImport(c), orders) && Stable(OrderImport(c), orders)
    ensures OrdersOk(c, orders, |c.orders|)
  {
    hide OrderImport, Unique, Stable, WellFormedOrders, DiffOrder, ApplyOrder, OrderIndex, OrderListing, OrderKey,
      SettledOrder, Present, OrderStrategy;
    var m, index := OrderImport(c), OrderIndex(OrderListing(orders));
    OrderIndexExact(c, orders);
    StableSettled(m, orders);
    forall i | 0 <= i < |c.orders| ensures OrderOk(c, orders, index, c.orders[i]) {
      var s := c.orders[i];
      assert Present(m, orders, m.arrivals[i].0);
      assert KeyAt(m, orders, s.externalID, index[s.externalID]);
      var row := orders[index[s.externalID]];
      assert Settled(m, row);
      OrderUpdateFacts(c, row, i);
      SettledMeansOk(c, row, s);
    }
  }

  lemma SettledMeansOk(c: Context, row: Order, s: OrderSnapshot)
    requires ApplyOrder(c.formats, row, s, OrderStrategy(c, s)) == row
    ensures DiffOrder(c.formats, row, s) == []
  {
    hide OrderStrategy, FallbackBroker, DiffOrder;
    DiffOrderExact(c.formats, row, s);
  }

  lemma {:induction false} IndexesAgree(positions: seq<Position>)
    requires NoEvents(positions)
    ensures OpenIndex(PositionListing(positions)) == PositionIndex(PositionListing(positions))
  {
    hide PositionListing, OpenIndex, PositionIndex;
    if positions == [] {
      NoListing(positions);
      assert OpenIndex([]) == PositionIndex([]) by { EmptyIndexes(); }
    } else {
      var n := |positions| - 1;
      var listing := PositionListing(positions[..n]);
      IndexesAgree(positions[..n]);
      PositionListingNext(positions[..n], positions[n]);
      assert positions == positions[..n] + [positions[n]];
      assert listing + [] == listing;
      OpenIndexAdds(listing, n, positions[n]);
      PositionIndexAdds(listing, n, positions[n]);
    }
  }

  lemma EmptyIndexes()
    ensures OpenIndex([]) == PositionIndex([])
  {
  }

  lemma FinalPositionsOk(c: Context, positions: seq<Position>)
    requires WellFormedPositions(c) && Unique(PositionImport(c), positions) && Stable(PositionImport(c), positions)
      && NoEvents(positions)
    ensures PositionsOk(c, positions, |c.positions|)
  {
    hide PositionImport, Unique, Stable, WellFormedPositions, NoEvents, PositionListing, PositionIndex, OpenIndex,
      PositionKey, SettledPosition, Present, Erased;
    var m, index := PositionImport(c), PositionIndex(PositionListing(positions));
    IndexesAgree(positions);
    PositionIndexExact(c, positions);
    StableSettled(m, positions);
    forall i | 0 <= i < |c.positions| ensures PositionOk(positions, index, c.positions[i]) {
      var s := c.positions[i];
      assert Present(m, positions, m.arrivals[i].0);
      assert KeyAt(m, positions, s.ticker, index[s.ticker]);
      var row := positions[index[s.ticker]];
      assert Settled(m, row);
      PositionUpdateFacts(c, row, i);
      KeyIsTicker(row, s.ticker);
    }
  }

  lemma KeyIsTicker(p: Position, k: string)
    requires PositionKey(p) == Some(k)
    ensures p.ticker == k
  {
  }

  lemma {:induction false} TradeIndexExact(c: Context, trades: seq<Trade>, k: string)
    ensures k in TradeIndex(c.formats, trades) <==> HasTradeKey(c, trades, k)
    ensures k in TradeIndex(c.formats, trades) ==>
      TradeIndex(c.formats, trades)[k] in trades && TradeKey(c.formats, TradeIndex(c.formats, trades)[k]) == k
  {
    hide TradeKey;
    if trades != [] {
      var n := |trades| - 1;
      TradeIndexExact(c, trades[..n], k);
      HasKeyNext(c, trades[..n], trades[n], k);
      assert trades == trades[..n] + [trades[n]];
    }
  }

  lemma DiffTradeExact(t: Trade, fill: Fill)
    requires TrimSpace(fill.activityID) != ""
    ensures DiffTrade(t, fill) == [] <==> ViewOfTrade(t) == ViewOfFill(fill)
  {
    hide TrimSpace;
  }

  /** A matched fill passes exactly when it is matched cleanly. */
  lemma FillOkExact(c: Context, trades: seq<Trade>, i: nat)
    requires WellFormedFills(c) && UniqueTrades(c, trades) && i < |c.fills| && Matched(c, c.fills[i], trades)
    ensures FillOk(c, TradeIndex(c.formats, trades), c.fills[i]) <==> CleanFor(c, c.fills[i], trades)
  {
    hide TradeIndex, HasTradeKey, DiffTrade, ViewOfTrade, ViewOfFill, KeysOf, WellFormedFills, LegacyKey, LegacyCount,
      TradeKey, UniqueTrades, PrimaryKey;
    var fill, index := c.fills[i], TradeIndex(c.formats, trades);
    FirstKey(c, i);
    var keys := KeysOf(c, fill);
    TradeIndexExact(c, trades, keys[0]);
    NonBlank(c, i);
    KeysShape(c, i);
    if keys[0] in index {
      var t := index[keys[0]];
      DiffTradeExact(t, fill);
      OnlyTrade(c, trades, t);
    } else {
      TradeIndexExact(c, trades, keys[1]);
      var t := index[keys[1]];
      DiffTradeExact(t, fill);
      StandInDisagrees(c, i, t);
    }
  }

  lemma NonBlank(c: Context, i: nat)
    requires WellFormedFills(c) && i < |c.fills|
    ensures TrimSpace(c.fills[i].activityID) != ""
  {
  }

  lemma KeysShape(c: Context, i: nat)
    requires WellFormedFills(c) && i < |c.fills|
    ensures 1 <= |KeysOf(c, c.fills[i])| <= 2
      && (|KeysOf(c, c.fills[i])| == 2 ==> KeysOf(c, c.fills[i])[1] == LegacyKey(c.formats, c.fills[i]))
  {
    hide LegacyKey, LegacyCount, PrimaryKey;
  }

  lemma OnlyTrade(c: Context, trades: seq<Trade>, t: Trade)
    requires UniqueTrades(c, trades) && t in trades
    ensures forall j :: 0 <= j < |trades| && TradeKey(c.formats, trades[j]) == TradeKey(c.formats, t) ==> trades[j] == t
  {
    hide TradeKey;
    var i :| 0 <= i < |trades| && trades[i] == t;
  }

  /** A trade found by the execution key alone has no identity, so the verifier reports it. */
  lemma StandInDisagrees(c: Context, i: nat, t: Trade)
    requires WellFormedFills(c) && i < |c.fills| && TradeKey(c.formats, t) == LegacyKey(c.formats, c.fills[i])
    ensures ViewOfTrade(t) != ViewOfFill(c.fills[i])
  {
    hide TrimSpace, LegacyKey, ActivityKey;
    ActivityKeyPrefix(TrimSpace(t.externalID));
  }

  /** Final books verify exactly when the trades that were already there are clean. */
  lemma VerifiedExact(c: Context, orders: seq<Order>, positions: seq<Position>, trades: seq<Trade>)
    requires WellFormed(c) && OneRowPerKey(orders, positions) && UniqueTrades(c, trades) && NoEvents(positions)
    requires BooksOf(orders, positions, trades) == FinalBooks(c, orders, positions, trades)
    ensures AllOk(c, orders, positions, trades) <==> Clean(c, trades)
  {
    hide WellFormedOrders, WellFormedPositions, WellFormedFills, OneRowPerKey, UniqueTrades, NoEvents, BooksOf,
      FinalBooks, OrdersOk, PositionsOk,
      FillOk, CleanFor, OrderImport, PositionImport, Unique, Stable, Matched, TradesStable, TradeIndex;
    FinalExact(c, orders, positions, trades);
    OneRowExact(c, orders, positions);
    FinalOrdersOk(c, orders);
    FinalPositionsOk(c, positions);
    TradesStableExact(c, trades);
    forall i | 0 <= i < |c.fills|
      ensures FillOk(c, TradeIndex(c.formats, trades), c.fills[i]) <==> CleanFor(c, c.fills[i], trades) {
      FillOkExact(c, trades, i);
    }
  }

  /** Clean trades: every trade has an identity, and one that shares a fill's identity agrees with the fill. */
  lemma NamedTradesAreClean(c: Context, trades: seq<Trade>)
    requires WellFormedFills(c)
    requires forall j :: 0 <= j < |trades| ==> TrimSpace(trades[j].externalID) != ""
    requires forall i, j ::
      (0 <= i < |c.fills| && 0 <= j < |trades|
       && TrimSpace(trades[j].externalID) == TrimSpace(c.fills[i].activityID)) ==>
        ViewOfTrade(trades[j]) == ViewOfFill(c.fills[i])
    ensures Clean(c, trades)
  {
    hide ViewOfTrade, ViewOfFill, WellFormedFills, KeysOf, TrimSpace;
    forall i | 0 <= i < |c.fills| ensures CleanFor(c, c.fills[i], trades) {
      FirstKey(c, i);
      forall j | 0 <= j < |trades| && TradeKey(c.formats, trades[j]) == KeysOf(c, c.fills[i])[0]
        ensures ViewOfTrade(trades[j]) == ViewOfFill(c.fills[i]) {
        SameIdentity(c, i, trades[j]);
      }
      if Matched(c, c.fills[i], trades) { MatchedByIdentity(c, trades, i); }
    }
  }

  lemma SameIdentity(c: Context, i: nat, t: Trade)
    requires WellFormedFills(c) && i < |c.fills| && TrimSpace(t.externalID) != "" && |KeysOf(c, c.fills[i])| >= 1
      && TradeKey(c.formats, t) == KeysOf(c, c.fills[i])[0]
    ensures TrimSpace(t.externalID) == TrimSpace(c.fills[i].activityID)
  {
    hide TrimSpace, LegacyKey, LegacyCount, ActivityKey;
    PrimaryIsActivity(c, i);
    ActivityKeyInjective(TrimSpace(t.externalID), TrimSpace(c.fills[i].activityID));
  }

  lemma MatchedByIdentity(c: Context, trades: seq<Trade>, i: nat)
    requires WellFormedFills(c) && i < |c.fills| && Matched(c, c.fills[i], trades) && forall j :: 0 <= j < |trades| ==>
      TrimSpace(trades[j].externalID) != ""
    ensures |KeysOf(c, c.fills[i])| >= 1 && HasTradeKey(c, trades, KeysOf(c, c.fills[i])[0])
  {
    hide TrimSpace, LegacyKey, LegacyCount, ActivityKey, PrimaryKey, WellFormedFills, KeysOf;
    KeysShape(c, i);
    var b :| 0 <= b < |KeysOf(c, c.fills[i])| && HasTradeKey(c, trades, KeysOf(c, c.fills[i])[b]);
    if b == 1 {
      var j :| 0 <= j < |trades| && TradeKey(c.formats, trades[j]) == KeysOf(c, c.fills[i])[1];
      LegacyNotActivity(c, i, TrimSpace(trades[j].externalID));
    }
  }

  lemma LegacyNotActivity(c: Context, i: nat, id: string)
    requires WellFormedFills(c) && i < |c.fills|
    ensures ActivityKey(id) != LegacyKey(c.formats, c.fills[i])
  {
    hide LegacyKey, TrimSpace;
    ActivityKeyPrefix(id);
  }

  /** After a reconciliation that succeeds, the verifier is satisfied exactly when the trades that were there before are
      clean,
      and a second reconciliation writes nothing. */
  method ReconcileThenVerify(store: LocalStore, c: Context, first: Attempt, second: Attempt)
    returns (ok: bool, report: Option<Report>, again: int)
    requires multiset(first.sorted) == multiset(c.fills) && multiset(second.sorted) == multiset(c.fills)
    modifies store
    ensures WellFormed(c) && old(OneRowPerKey(store.orders, store.positions)) && ok ==> again == 0
    ensures WellFormed(c) && old(OneRowPerKey(store.orders, store.positions)) && ok && report.Some? ==>
      (old(NoEvents(store.positions) && UniqueTrades(c, store.trades)) ==>
        (report.value.verified <==> old(Clean(c, store.trades))))
  {
    hide WellFormed, OneRowPerKey, FinalBooks, BooksOf, Clean, UniqueTrades, NoEvents, OpenAt, HeldAt, AllOk, AllRead,
      PointsToOrder;
    ok := Reconcile(store, c, first.access, first.sorted, first.now, first.audited);
    var recorded;
    report, recorded := Verify(store, c, first.access, true);
    if WellFormed(c) && old(OneRowPerKey(store.orders, store.positions)) && ok
      && old(NoEvents(store.positions) && UniqueTrades(c, store.trades)) {
      VerifiedExact(c, store.orders, store.positions, store.trades);
    }
    var before := store.writes;
    var _ := Reconcile(store, c, second.access, second.sorted, second.now, second.audited);
    again := store.writes - before;
  }
}

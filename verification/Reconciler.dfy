/** A whole reconciliation with Alpaca, and the verifier that checks its result (alpaca_reconciliation.go). */
module Reconciler {
  import opened BrokerRows
  import opened Imports
  import opened LocalStores
  import opened OrderImports
  import opened PositionImports
  import opened TradeImports

  /** The local books, up to the moment a position was closed and what a trade points to. */
  datatype Books = Books(orders: seq<Order>, positions: seq<Position>, trades: multiset<TradeView>)

  ghost function BooksOf(orders: seq<Order>, positions: seq<Position>, trades: seq<Trade>): Books {
    Books(orders, Apply(Erased, positions), TradeViews(trades))
  }

  /** Where a reconciliation that is not interrupted leads. */
  ghost function FinalBooks(c: Context, orders: seq<Order>, positions: seq<Position>, trades: seq<Trade>): Books {
    Books(Final(OrderImport(c), orders), Final(PositionImport(c), positions), FinalTrades(c, trades))
  }

  ghost predicate WellFormed(c: Context) { WellFormedOrders(c) && WellFormedPositions(c) && WellFormedFills(c) }

  /** One tracked order per broker identity and one managed open position per ticker. */
  ghost predicate OneRowPerKey(orders: seq<Order>, positions: seq<Position>) {
    && (forall i, j :: 0 <= i < j < |orders| && Tracked(orders[i]) && Tracked(orders[j]) ==>
      orders[i].externalID != orders[j].externalID)
    && (forall i, j :: 0 <= i < j < |positions| && Managed(positions[i]) && Managed(positions[j]) ==>
      positions[i].ticker != positions[j].ticker)
  }

  lemma OneRowExact(c: Context, orders: seq<Order>, positions: seq<Position>)
    ensures OneRowPerKey(orders, positions) <==> Unique(OrderImport(c), orders) && Unique(PositionImport(c), positions)
  {
    hide OrderImport, PositionImport, Tracked, Managed;
    var m, p := OrderImport(c), PositionImport(c);
    if OneRowPerKey(orders, positions) {
      forall k, i, j | KeyAt(m, orders, k, i) && KeyAt(m, orders, k, j) ensures i == j {}
      forall k, i, j | KeyAt(p, positions, k, i) && KeyAt(p, positions, k, j) ensures i == j {}
    }
    if Unique(m, orders) && Unique(p, positions) {
      forall i, j | 0 <= i < j < |orders| && Tracked(orders[i]) && Tracked(orders[j])
        ensures orders[i].externalID != orders[j].externalID {
        assert KeyAt(m, orders, orders[i].externalID, i)
          && (orders[i].externalID == orders[j].externalID ==> KeyAt(m, orders, orders[i].externalID, j));
      }
      forall i, j | 0 <= i < j < |positions| && Managed(positions[i]) && Managed(positions[j])
        ensures positions[i].ticker != positions[j].ticker {
        assert KeyAt(p, positions, positions[i].ticker, i)
          && (positions[i].ticker == positions[j].ticker ==> KeyAt(p, positions, positions[i].ticker, j));
      }
    }
  }

  /** The books are final exactly when no stage has anything to do. */
  lemma FinalExact(c: Context, orders: seq<Order>, positions: seq<Position>, trades: seq<Trade>)
    ensures BooksOf(orders, positions, trades) == FinalBooks(c, orders, positions, trades) <==>
      Stable(OrderImport(c), orders) && Stable(PositionImport(c), positions) && TradesStable(c, trades)
  {
    hide OrderImport, PositionImport, Final, FinalTrades, TradeViews;
    assert View(OrderImport(c), orders) == orders;
    assert View(PositionImport(c), positions) == Apply(Erased, positions);
  }

  // ---------------------------------------------------------------- Reconcile

  ghost predicate OpenAt(positions: seq<Position>, ticker: string) {
    exists i :: 0 <= i < |positions| && Managed(positions[i]) && positions[i].ticker == ticker
  }
  ghost predicate HeldAt(c: Context, ticker: string) {
    exists i :: 0 <= i < |c.positions| && c.positions[i].ticker == ticker
  }

  /** Everything the call reads before its first write can be read. */
  ghost predicate AllRead(access: Access, orders: seq<Order>, positions: seq<Position>, trades: seq<Trade>) {
    && access.broker && PagesRead(|OrderListing(orders)|, access.orders)
    && PagesRead(|PositionListing(positions)|, access.positions) && PagesRead(|trades|, access.trades)
  }

  /** The trade is for a fill of the broker and points to the row of that fill's order. */
  ghost predicate PointsToOrder(c: Context, orders: seq<Order>, t: Trade) {
    exists fill, id, position ::
      fill in c.fills && 0 <= id < |orders| && orders[id].externalID == fill.externalID
        && t == TradeFor(fill, id, position)
  }

  lemma LinkedPoints(c: Context, t: Trade, index: map<string, nat>, orders: seq<Order>)
    requires Linked(c, t, index) && Places(index, orders)
    ensures PointsToOrder(c, orders, t)
  {
    hide TradeFor;
    var fill, position :| fill in c.fills && fill.externalID in index
      && t == TradeFor(fill, index[fill.externalID], position);
  }

  /** What a call that meets its assumptions leaves. */
  ghost predicate Reconciled(c: Context, before: Tables, after: Tables, ok: bool) {
    && OneRowPerKey(after.orders, after.positions) && FinalOf(c, after) == FinalOf(c, before)
    && (ok ==> BooksIn(after) == FinalOf(c, before) && forall k :: OpenAt(after.positions, k) <==> HeldAt(c, k))
    && (Clean(c, after.trades) <==> Clean(c, before.trades))
      && (UniqueTrades(c, before.trades) ==> UniqueTrades(c, after.trades))
  }

  datatype Tables = Tables(orders: seq<Order>, positions: seq<Position>, trades: seq<Trade>)

  ghost function BooksIn(t: Tables): Books { BooksOf(t.orders, t.positions, t.trades) }

  ghost function FinalOf(c: Context, t: Tables): Books { FinalBooks(c, t.orders, t.positions, t.trades) }

  ghost function TablesOf(store: LocalStore): Tables
    reads store
  {
    Tables(store.orders, store.positions, store.trades)
  }

  /** The four stages on what was loaded. */
  method Import(store: LocalStore, c: Context, orderIndex: map<string, nat>, positionIndex: map<string, nat>,
      tradeKeys: set<string>, sorted: seq<Fill>, now: int)
    returns (ok: bool)
    requires multiset(sorted) == multiset(c.fills)
    requires orderIndex == OrderIndex(OrderListing(store.orders))
      && positionIndex == PositionIndex(PositionListing(store.positions))
    requires AllKeys(c.formats, store.trades, tradeKeys)
    modifies store
    ensures WellFormed(c) && old(OneRowPerKey(store.orders, store.positions)) ==>
      Reconciled(c, old(TablesOf(store)), TablesOf(store), ok)
    ensures
      (WellFormed(c) && old(OneRowPerKey(store.orders, store.positions))
       && old(BooksIn(TablesOf(store)) == FinalOf(c, TablesOf(store)))) ==>
        ok && store.writes == old(store.writes) && TablesOf(store) == old(TablesOf(store))
    ensures old(NoEvents(store.positions)) ==> NoEvents(store.positions)
    ensures |old(store.trades)| <= |store.trades| && store.trades[..|old(store.trades)|] == old(store.trades)
    ensures forall i :: |old(store.trades)| <= i < |store.trades| ==> PointsToOrder(c, store.orders, store.trades[i])
  {
    hide OrderImport, PositionImport, WellFormedOrders, WellFormedPositions, WellFormedFills, OneRowPerKey, Stable,
      Unique, Indexes, Underway, Final, FinalTrades, TradesStable, Clean, UniqueTrades, NoEvents, TradeViews, OpenAt,
      HeldAt, BooksOf, Erased, OrderIndex, OrderListing, PositionIndex, PositionListing,
      AllKeys, Places, PointsToOrder, Linked;
    OneRowExact(c, store.orders, store.positions);
    FinalExact(c, store.orders, store.positions, store.trades);
    ghost var ready := WellFormed(c) && OneRowPerKey(store.orders, store.positions);
    ghost var positions0 := store.positions;
    var orders, positions;
    ok, orders := ImportOrders(store, c, orderIndex);
    OneRowExact(c, store.orders, store.positions);
    if !ok { return; }
    ok, positions := ImportPositions(store, c, positionIndex);
    OneRowExact(c, store.orders, store.positions);
    if !ok { return; }
    ok := ClosePositions(store, c, positions, now, positions0);
    OneRowExact(c, store.orders, store.positions);
    if !ok { return; }
    if ready { FillsReady(c, store.orders, orders, sorted); }
    ok := ImportFills(store, c, sorted, orders, positions, tradeKeys);
    FinalExact(c, store.orders, store.positions, store.trades);
    if ready && ok { TickersExact(c, store.positions); }
    forall i | |old(store.trades)| <= i < |store.trades| ensures PointsToOrder(c, store.orders, store.trades[i]) {
      LinkedPoints(c, store.trades[i], orders, store.orders);
    }
  }

  /** Doing nothing leaves the books where they lead. */
  lemma Untouched(c: Context, t: Tables)
    requires WellFormed(c) && OneRowPerKey(t.orders, t.positions)
    ensures Reconciled(c, t, t, false)
  {
    hide WellFormed, OneRowPerKey, FinalBooks, BooksOf, Clean, UniqueTrades, OpenAt, HeldAt;
  }

  /** The books after a call, whatever writes failed on the way, still lead where they led before; a call that succeeds
      has arrived there, with exactly the broker's tickers open; a call that starts there writes nothing, and
      neither does one that cannot read. */
  method Reconcile(store: LocalStore, c: Context, access: Access, sorted: seq<Fill>, now: int, audited: bool)
    returns (ok: bool)
    requires multiset(sorted) == multiset(c.fills)
    modifies store
    ensures WellFormed(c) && old(OneRowPerKey(store.orders, store.positions)) ==>
      Reconciled(c, old(TablesOf(store)), TablesOf(store), ok)
    ensures
      (WellFormed(c) && old(OneRowPerKey(store.orders, store.positions))
       && old(BooksIn(TablesOf(store)) == FinalOf(c, TablesOf(store)))) ==>
        && store.writes == old(store.writes) && TablesOf(store) == old(TablesOf(store))
        && (ok <==> audited && old(AllRead(access, store.orders, store.positions, store.trades)))
    ensures old(!AllRead(access, store.orders, store.positions, store.trades)) ==>
      !ok && store.writes == old(store.writes) && TablesOf(store) == old(TablesOf(store))
    ensures old(NoEvents(store.positions)) ==> NoEvents(store.positions)
    ensures |old(store.trades)| <= |store.trades| && store.trades[..|old(store.trades)|] == old(store.trades)
    ensures forall i :: |old(store.trades)| <= i < |store.trades| ==> PointsToOrder(c, store.orders, store.trades[i])
  {
    hide WellFormed, OneRowPerKey, FinalBooks, BooksOf, Reconciled, NoEvents, PagesRead, OrderIndex, OrderListing,
      PositionIndex, PositionListing, AllKeys, PointsToOrder;
    if WellFormed(c) && OneRowPerKey(store.orders, store.positions) { Untouched(c, TablesOf(store)); }
    if !access.broker { return false; }
    var orderIndex := LoadOrders(store, access.orders);
    if orderIndex.None? { return false; }
    var positionIndex := LoadPositions(store, access.positions);
    if positionIndex.None? { return false; }
    var tradeKeys := LoadTradeKeys(store, c.formats, access.trades);
    if tradeKeys.None? { return false; }
    ghost var before := TablesOf(store);
    var imported := Import(store, c, orderIndex.value, positionIndex.value, tradeKeys.value, sorted, now);
    if imported && !audited && WellFormed(c) && old(OneRowPerKey(store.orders, store.positions)) {
      StillReconciled(c, before, TablesOf(store));
    }
    ok := imported && audited;
  }

  /** Failing to record the outcome loses the success and nothing else. */
  lemma StillReconciled(c: Context, before: Tables, after: Tables)
    requires Reconciled(c, before, after, true)
    ensures Reconciled(c, before, after, false)
  {
    hide OneRowPerKey, FinalBooks, BooksOf, Clean, UniqueTrades, OpenAt, HeldAt;
  }

  lemma FillsReady(c: Context, orders: seq<Order>, index: map<string, nat>, sorted: seq<Fill>)
    requires WellFormed(c) && Stable(OrderImport(c), orders) && Indexes(OrderImport(c), orders, index)
      && multiset(sorted) == multiset(c.fills)
    ensures Fills(c, sorted, index)
  {
    hide OrderImport, Stable, Present, WellFormedOrders, WellFormedPositions;
    var m := OrderImport(c);
    StableSettled(m, orders);
    forall i | 0 <= i < |c.fills| ensures c.fills[i].externalID in index {
      assert HasOrder(c, c.fills[i]);
      var j :| 0 <= j < |c.orders| && c.orders[j].externalID == c.fills[i].externalID;
      assert Present(m, orders, m.arrivals[j].0);
    }
  }

  lemma TickersExact(c: Context, positions: seq<Position>)
    requires forall k :: Present(PositionImport(c), positions, k) <==> Arrives(PositionImport(c), k)
    ensures forall k :: OpenAt(positions, k) <==> HeldAt(c, k)
  {
    hide PositionImport, Managed;
    var m := PositionImport(c);
    forall k ensures OpenAt(positions, k) <==> HeldAt(c, k) {
      if OpenAt(positions, k) {
        var i :| 0 <= i < |positions| && Managed(positions[i]) && positions[i].ticker == k;
        assert KeyAt(m, positions, k, i) && Present(m, positions, k);
        var j :| ArrivalAt(m, k, j);
        assert c.positions[j].ticker == k;
      }
      if HeldAt(c, k) {
        var j :| 0 <= j < |c.positions| && c.positions[j].ticker == k;
        assert ArrivalAt(m, k, j) && Arrives(m, k);
        var i :| KeyAt(m, positions, k, i);
        assert Managed(positions[i]) && positions[i].ticker == k;
      }
    }
  }

  // ---------------------------------------------------------------- restarting

  datatype Attempt = Attempt(access: Access, sorted: seq<Fill>, now: int, audited: bool)

  /** However often a reconciliation is interrupted, between whatever reads and writes, running it again to the end
      leaves the
      same books as one that was never interrupted. */
  method RestartSafe(whole: LocalStore, broken: LocalStore, c: Context, attempts: seq<Attempt>, last: Attempt,
      once: Attempt)
    returns (first: bool, second: bool)
    requires whole != broken && TablesOf(whole) == TablesOf(broken)
    requires multiset(last.sorted) == multiset(c.fills) && multiset(once.sorted) == multiset(c.fills)
    requires forall i :: 0 <= i < |attempts| ==> multiset(attempts[i].sorted) == multiset(c.fills)
    modifies whole, broken
    ensures WellFormed(c) && old(OneRowPerKey(whole.orders, whole.positions)) && first && second ==>
      BooksIn(TablesOf(whole)) == BooksIn(TablesOf(broken))
  {
    hide WellFormed, OneRowPerKey, FinalBooks, BooksOf, Clean, UniqueTrades, NoEvents, OpenAt, HeldAt, AllRead,
      PointsToOrder;
    ghost var ready := WellFormed(c) && OneRowPerKey(broken.orders, broken.positions);
    ghost var goal := FinalOf(c, TablesOf(broken));
    for i := 0 to |attempts|
      invariant ready ==> OneRowPerKey(broken.orders, broken.positions) && FinalOf(c, TablesOf(broken)) == goal
      invariant TablesOf(whole) == old(TablesOf(whole))
    {
      var _ := Reconcile(broken, c, attempts[i].access, attempts[i].sorted, attempts[i].now, attempts[i].audited);
    }
    second := Reconcile(broken, c, last.access, last.sorted, last.now, last.audited);
    first := Reconcile(whole, c, once.access, once.sorted, once.now, once.audited);
  }
}

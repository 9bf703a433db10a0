/** The first stage of a reconciliation: orders by their broker identity. */
module OrderImports {
  import opened Text
  import opened Uuids
  import opened BrokerRows
  import opened Imports
  import opened LocalStores

  predicate Tracked(o: Order) { o.details.broker == ALPACA && TrimSpace(o.externalID) != "" }

  function OrderKey(o: Order): Option<string> { if Tracked(o) then Some(o.externalID) else None }

  function OrderSnapshotFor(snapshots: seq<OrderSnapshot>, k: string): Option<OrderSnapshot> {
    if snapshots == [] then None
    else if snapshots[0].externalID == k then Some(snapshots[0])
    else OrderSnapshotFor(snapshots[1..], k)
  }

  function SettledOrder(c: Context, o: Order): Order {
    if Tracked(o) && OrderSnapshotFor(c.orders, o.externalID).Some? then
      var s := OrderSnapshotFor(c.orders, o.externalID).value;
      ApplyOrder(c.formats, o, s, OrderStrategy(c, s))
    else o
  }

  function OrderArrivals(c: Context): (r: seq<(string, Order)>)
    ensures |r| == |c.orders| && forall i :: 0 <= i < |r| ==>
      r[i] == (c.orders[i].externalID, NewOrder(c.orders[i], OrderStrategy(c, c.orders[i])))
  {
    Map((s: OrderSnapshot) => (s.externalID, NewOrder(s, OrderStrategy(c, s))), c.orders)
  }

  function OrderImport(c: Context): (m: Import<Order>)
    ensures m.arrivals == OrderArrivals(c)
    ensures forall o :: m.settle(o) == SettledOrder(c, o)
    ensures forall o :: m.view(o) == o
    ensures forall o :: m.key(o) == OrderKey(o)
  {
    Import((o: Order) => SettledOrder(c, o), (o: Order) => o, OrderKey, OrderArrivals(c))
  }

  /** Distinct, non-blank broker identities on an account that is Alpaca's. */
  ghost predicate WellFormedOrders(c: Context) {
    && (forall i, j :: 0 <= i < j < |c.orders| ==> c.orders[i].externalID != c.orders[j].externalID)
    && (forall i :: 0 <= i < |c.orders| ==>
      TrimSpace(c.orders[i].externalID) != "" && FallbackBroker(c.orders[i].details.broker) == ALPACA)
  }

  lemma {:induction false} OrderSnapshotFound(snapshots: seq<OrderSnapshot>, i: nat)
    requires i < |snapshots| && forall a, b :: 0 <= a < b < |snapshots| ==>
      snapshots[a].externalID != snapshots[b].externalID
    ensures OrderSnapshotFor(snapshots, snapshots[i].externalID) == Some(snapshots[i])
  {
    if i > 0 {
      OrderSnapshotFound(snapshots[1..], i - 1);
      assert snapshots[0].externalID != snapshots[i].externalID;
    }
  }

  lemma {:induction false} OrderSnapshotIn(snapshots: seq<OrderSnapshot>, k: string)
    requires OrderSnapshotFor(snapshots, k).Some?
    ensures exists i :: 0 <= i < |snapshots|
                        && snapshots[i] == OrderSnapshotFor(snapshots, k).value && snapshots[i].externalID == k
  {
    if snapshots[0].externalID != k {
      OrderSnapshotIn(snapshots[1..], k);
      var i :| 0 <= i < |snapshots[1..]| && snapshots[1..][i] == OrderSnapshotFor(snapshots[1..], k).value
        && snapshots[1..][i].externalID == k;
      assert snapshots[i + 1] == snapshots[1..][i];
    }
  }

  lemma OrdersSound(c: Context)
    requires WellFormedOrders(c)
    ensures Sound(OrderImport(c))
  {
    hide OrderImport, OrderArrivals, ApplyOrder, NewOrder, OrderStrategy, OrderSnapshotFor;
    var m := OrderImport(c);
    forall i | 0 <= i < |m.arrivals|
      ensures var a := m.arrivals[i]; m.key(a.1) == Some(a.0) && m.settle(a.1) == a.1 && m.view(a.1) == a.1
    {
      NewOrderFacts(c, i);
    }
  }

  lemma NewOrderFacts(c: Context, i: nat)
    requires WellFormedOrders(c) && i < |c.orders|
    ensures var s := c.orders[i];
      var o := NewOrder(s, OrderStrategy(c, s));
      OrderKey(o) == Some(s.externalID) && SettledOrder(c, o) == o
  {
    hide OrderStrategy, TrimSpace, FallbackBroker, ApplyOrder;
    var s := c.orders[i];
    OrderSnapshotFound(c.orders, i);
    NewOrderSettled(c.formats, s, OrderStrategy(c, s));
  }

  /** A tracked order with a snapshot: what the update leaves. */
  lemma OrderUpdateFacts(c: Context, o: Order, i: nat)
    requires WellFormedOrders(c) && i < |c.orders| && OrderKey(o) == Some(c.orders[i].externalID)
    ensures var s := c.orders[i]; var r := ApplyOrder(c.formats, o, s, OrderStrategy(c, s));
      SettledOrder(c, o) == r && SettledOrder(c, r) == r && OrderKey(r) == OrderKey(o)
  {
    hide OrderStrategy, TrimSpace, FallbackBroker, Kept;
    OrderSnapshotFound(c.orders, i);
    ApplyOrderIdempotent(c.formats, o, c.orders[i], OrderStrategy(c, c.orders[i]));
  }

  lemma UntrackedSettled(c: Context, o: Order)
    ensures Settled(OrderImport(c), o) || (OrderKey(o).Some? && Arrives(OrderImport(c), OrderKey(o).value))
  {
    hide ApplyOrder, OrderStrategy, NewOrder, OrderImport, OrderArrivals;
    var m := OrderImport(c);
    if Tracked(o) && OrderSnapshotFor(c.orders, o.externalID).Some? {
      OrderSnapshotIn(c.orders, o.externalID);
      var i :| 0 <= i < |c.orders| && c.orders[i] == OrderSnapshotFor(c.orders, o.externalID).value
        && c.orders[i].externalID == o.externalID;
      assert ArrivalAt(m, o.externalID, i);
    }
  }

  // ---------------------------------------------------------------- reading the table

  /** The listing of one broker's orders, each with its place. */
  function OrderListing(orders: seq<Order>): seq<(nat, Order)> {
    if orders == [] then []
    else
      var n := |orders| - 1;
      OrderListing(orders[..n]) + if orders[n].details.broker == ALPACA then [(n, orders[n])] else []
  }

  /** The last listed row of each identity. */
  function OrderIndex(listing: seq<(nat, Order)>): map<string, nat> {
    if listing == [] then map[]
    else
      var rest, last := OrderIndex(listing[..|listing| - 1]), listing[|listing| - 1];
      if TrimSpace(last.1.externalID) == "" then rest else rest[last.1.externalID := last.0]
  }

  lemma OrderListingNext(front: seq<Order>, o: Order)
    ensures OrderListing(front + [o]) == OrderListing(front) + if o.details.broker == ALPACA then [(|front|, o)] else []
  {
    assert (front + [o])[..|front|] == front;
  }

  lemma OrderIndexAdds(listing: seq<(nat, Order)>, n: nat, o: Order)
    ensures OrderIndex(listing + [(n, o)]) ==
      if TrimSpace(o.externalID) == "" then OrderIndex(listing) else OrderIndex(listing)[o.externalID := n]
  {
    hide TrimSpace;
    assert (listing + [(n, o)])[..|listing|] == listing;
  }

  lemma OrderIndexNext(front: seq<Order>, o: Order)
    ensures OrderIndex(OrderListing(front + [o])) ==
      if Tracked(o) then OrderIndex(OrderListing(front))[o.externalID := |front|] else OrderIndex(OrderListing(front))
  {
    hide TrimSpace, OrderListing, OrderIndex;
    OrderListingNext(front, o);
    OrderIndexAdds(OrderListing(front), |front|, o);
    assert OrderListing(front) + [] == OrderListing(front);
  }

  lemma {:induction false} OrderIndexExact(c: Context, orders: seq<Order>)
    requires Unique(OrderImport(c), orders)
    ensures Indexes(OrderImport(c), orders, OrderIndex(OrderListing(orders)))
  {
    hide OrderImport, TrimSpace, OrderListing, OrderIndex, Unique, Indexes;
    var m := OrderImport(c);
    if orders != [] {
      var n := |orders| - 1;
      var front := orders[..n];
      assert orders == front + [orders[n]];
      FrontUnique(m, front, orders[n]);
      OrderIndexExact(c, front);
      OrderIndexNext(front, orders[n]);
      var listing := OrderListing(front);
      if Tracked(orders[n]) {
        IndexAfterLast(m, front, OrderIndex(listing), orders[n].externalID, orders[n]);
      } else {
        IndexAfterNone(m, front, OrderIndex(listing), orders[n]);
      }
    } else {
      NoOrders(m, orders);
    }
  }

  lemma NoOrders(m: Import<Order>, orders: seq<Order>)
    requires orders == []
    ensures Indexes(m, orders, OrderIndex(OrderListing(orders)))
  {
    assert OrderListing(orders) == [];
  }

  /** Every indexed place holds a row of that identity. */
  predicate Places(index: map<string, nat>, orders: seq<Order>) {
    forall k :: k in index ==> index[k] < |orders| && orders[index[k]].externalID == k
  }

  lemma {:induction false} OrderIndexPlaces(orders: seq<Order>)
    ensures Places(OrderIndex(OrderListing(orders)), orders)
  {
    hide TrimSpace;
    if orders != [] {
      var n := |orders| - 1;
      OrderIndexPlaces(orders[..n]);
      OrderIndexNext(orders[..n], orders[n]);
      assert orders == orders[..n] + [orders[n]];
    }
  }

  lemma Placed(index: map<string, nat>, orders: seq<Order>, k: string)
    requires Places(index, orders) && k in index
    ensures index[k] < |orders|
  {
  }

  lemma PlacesKept(f: Formats, index: map<string, nat>, orders: seq<Order>, id: nat, s: OrderSnapshot,
      strategy: Option<Uuid>)
    requires Places(index, orders) && id < |orders|
    ensures Places(index, orders[id := ApplyOrder(f, orders[id], s, strategy)])
  {
    assert ApplyOrder(f, orders[id], s, strategy).externalID == orders[id].externalID;
  }

  lemma PlacesAdded(index: map<string, nat>, orders: seq<Order>, s: OrderSnapshot, strategy: Option<Uuid>)
    requires Places(index, orders)
    ensures Places(index, orders + [NewOrder(s, strategy)])
    ensures Places(index[s.externalID := |orders|], orders + [NewOrder(s, strategy)])
  {
    assert NewOrder(s, strategy).externalID == s.externalID;
  }

  method LoadOrders(store: LocalStore, access: nat -> bool) returns (r: Option<map<string, nat>>)
    ensures r.Some? <==> PagesRead(|OrderListing(store.orders)|, access)
    ensures r.Some? ==> r.value == OrderIndex(OrderListing(store.orders))
  {
    hide PagesRead;
    var listed := ListAll(OrderListing(store.orders), access);
    if listed.None? { return None; }
    var listing := listed.value;
    var index: map<string, nat> := map[];
    for i := 0 to |listing|
      invariant index == OrderIndex(listing[..i])
    {
      assert listing[..i + 1][..i] == listing[..i];
      if TrimSpace(listing[i].1.externalID) == "" { continue; }
      index := index[listing[i].1.externalID := listing[i].0];
    }
    assert listing[..|listing|] == listing;
    r := Some(index);
  }

  // ---------------------------------------------------------------- the stage

  ghost predicate OrdersReady(c: Context, orders: seq<Order>) { WellFormedOrders(c) && Unique(OrderImport(c), orders) }

  /** Where the orders are going does not change with any write, stored or not; a stage that succeeds is there;
      a stage that starts there writes nothing. */
  method ImportOrders(store: LocalStore, c: Context, loaded: map<string, nat>)
    returns (ok: bool, index: map<string, nat>)
    requires loaded == OrderIndex(OrderListing(store.orders))
    modifies store`orders, store`writes
    ensures Places(index, store.orders)
    ensures old(OrdersReady(c, store.orders)) ==>
      && Unique(OrderImport(c), store.orders)
        && Final(OrderImport(c), store.orders) == old(Final(OrderImport(c), store.orders))
      && (ok ==> Stable(OrderImport(c), store.orders) && Indexes(OrderImport(c), store.orders, index))
      && (old(Stable(OrderImport(c), store.orders)) ==>
        ok && store.orders == old(store.orders) && store.writes == old(store.writes))
  {
    hide OrderImport, Unique, Indexes, Underway, Stable, Final, WellFormedOrders, ApplyOrder, NewOrder, OrderStrategy,
      SettledOrder, OrderListing, OrderIndex, OrderArrivals, Places;
    ghost var start := store.orders;
    ghost var m := OrderImport(c);
    ghost var ready := OrdersReady(c, start);
    index := loaded;
    OrderIndexPlaces(store.orders);
    if ready {
      OrderIndexExact(c, start);
      Begins(m, start, index);
      OrdersSound(c);
    }
    for n := 0 to |c.orders|
      invariant Places(index, store.orders)
      invariant ready ==> Underway(m, start, store.orders, index, n)
      invariant ready && Stable(m, start) ==> store.writes == old(store.writes)
    {
      var s := c.orders[n];
      var strategy := OrderStrategy(c, s);
      ghost var table := store.orders;
      if s.externalID in index {
        var id := index[s.externalID];
        Placed(index, table, s.externalID);
        var row, changed := ApplyOrderSnapshot(c.formats, store.orders[id], s, strategy);
        PlacesKept(c.formats, index, table, id, s, strategy);
        if ready { KnownOrder(c, start, table, index, n, row); }
        if changed {
          var stored := store.UpdateOrder(id, row);
          if !stored {
            if ready { UnderwayKeeps(m, start, store.orders, index, if store.orders == table then n else n + 1); }
            return false, index;
          }
        }
        continue;
      }
      PlacesAdded(index, table, s, strategy);
      if ready { UnknownOrder(c, start, table, index, n); }
      var stored := store.CreateOrder(NewOrder(s, strategy));
      if !stored {
        if ready {
          UnderwayKeeps(m, start, store.orders, if store.orders == table then index else index[s.externalID := |table|],
            if store.orders == table then n else n + 1);
        }
        return false, index;
      }
      index := index[s.externalID := |store.orders| - 1];
    }
    if ready { OrdersFinished(c, start, store.orders, index); }
    ok := true;
  }

  lemma UnderwayKeeps<Row>(m: Import<Row>, start: seq<Row>, table: seq<Row>, index: map<string, nat>, n: nat)
    requires Underway(m, start, table, index, n)
    ensures Unique(m, table) && Final(m, table) == Final(m, start) && Indexes(m, table, index)
    ensures Stable(m, start) ==> table == start
  {
  }

  lemma KnownOrder(c: Context, start: seq<Order>, table: seq<Order>, index: map<string, nat>, n: nat, row: Order)
    requires WellFormedOrders(c) && n < |c.orders| && Underway(OrderImport(c), start, table, index, n)
    requires c.orders[n].externalID in index && index[c.orders[n].externalID] < |table|
    requires row == ApplyOrder(c.formats, table[index[c.orders[n].externalID]], c.orders[n],
      OrderStrategy(c, c.orders[n]))
    ensures row == table[index[c.orders[n].externalID]] ==> Underway(OrderImport(c), start, table, index, n + 1)
    ensures row != table[index[c.orders[n].externalID]] ==>
      !Stable(OrderImport(c), start)
      && Underway(OrderImport(c), start, table[index[c.orders[n].externalID] := row], index, n + 1)
  {
    hide OrderImport, Underway, Stable, Final, WellFormedOrders, ApplyOrder, NewOrder, OrderStrategy, OrderKey,
      SettledOrder, OrderArrivals;
    var m, k := OrderImport(c), c.orders[n].externalID;
    UnderwayKeeps(m, start, table, index, n);
    assert KeyAt(m, table, k, index[k]);
    OrderUpdateFacts(c, table[index[k]], n);
    assert Settled(m, row);
    if row == table[index[k]] {
      StepKeep(m, start, table, index, n);
    } else {
      StepUpdate(m, start, table, index, n, row);
    }
  }

  lemma UnknownOrder(c: Context, start: seq<Order>, table: seq<Order>, index: map<string, nat>, n: nat)
    requires WellFormedOrders(c) && n < |c.orders| && Underway(OrderImport(c), start, table, index, n)
      && c.orders[n].externalID !in index
    ensures !Stable(OrderImport(c), start)
    ensures Underway(OrderImport(c), start, table + [NewOrder(c.orders[n], OrderStrategy(c, c.orders[n]))],
      index[c.orders[n].externalID := |table|], n + 1)
  {
    hide OrderImport, Underway, Stable, Final, WellFormedOrders, Sound;
    OrdersSound(c);
    StepCreate(OrderImport(c), start, table, index, n);
  }

  lemma OrdersFinished(c: Context, start: seq<Order>, table: seq<Order>, index: map<string, nat>)
    requires Underway(OrderImport(c), start, table, index, |c.orders|)
    ensures Unique(OrderImport(c), table) && Final(OrderImport(c), table) == Final(OrderImport(c), start)
    ensures Stable(OrderImport(c), table) && Indexes(OrderImport(c), table, index)
    ensures Stable(OrderImport(c), start) ==> table == start
  {
    hide OrderImport, Underway, Stable, Final, Unique, Indexes, OrderKey, SettledOrder, Settled, OrderArrivals;
    var m := OrderImport(c);
    UnderwayKeeps(m, start, table, index, |c.orders|);
    forall i | 0 <= i < |table|
      ensures Settled(m, table[i]) || (m.key(table[i]).Some? && Arrives(m, m.key(table[i]).value)) {
      UntrackedSettled(c, table[i]);
    }
    Finished(m, start, table, index);
  }
}

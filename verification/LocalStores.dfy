/** The local order, position and trade tables behind writes that may fail, and reading a table page by page. */
module LocalStores {
  import opened Text
  import opened Persistence
  import opened BrokerRows
  import opened Paging

  /** Rows are never removed, so a row's place is its identity. */
  class LocalStore {
    var orders: seq<Order>
    var positions: seq<Position>
    var trades: seq<Trade>
    var writes: nat
    const fate: nat -> Outcome

    constructor (orders: seq<Order>, positions: seq<Position>, trades: seq<Trade>, fate: nat -> Outcome)
      ensures this.orders == orders && this.positions == positions && this.trades == trades && this.fate == fate
        && writes == 0
    {
      this.orders, this.positions, this.trades, this.fate, writes := orders, positions, trades, fate, 0;
    }

    method CreateOrder(o: Order) returns (ok: bool)
      modifies this`orders, this`writes
      ensures writes == old(writes) + 1
      ensures orders == old(orders) + [o] || (orders == old(orders) && !ok)
    {
      ok := fate(writes).Applied?;
      if !fate(writes).Lost? { orders := orders + [o]; }
      writes := writes + 1;
    }

    method UpdateOrder(id: nat, o: Order) returns (ok: bool)
      requires id < |orders|
      modifies this`orders, this`writes
      ensures writes == old(writes) + 1
      ensures orders == old(orders)[id := o] || (orders == old(orders) && !ok)
    {
      ok := fate(writes).Applied?;
      if !fate(writes).Lost? { orders := orders[id := o]; }
      writes := writes + 1;
    }

    method CreatePosition(p: Position) returns (ok: bool)
      modifies this`positions, this`writes
      ensures writes == old(writes) + 1
      ensures positions == old(positions) + [p] || (positions == old(positions) && !ok)
    {
      ok := fate(writes).Applied?;
      if !fate(writes).Lost? { positions := positions + [p]; }
      writes := writes + 1;
    }

    method UpdatePosition(id: nat, p: Position) returns (ok: bool)
      requires id < |positions|
      modifies this`positions, this`writes
      ensures writes == old(writes) + 1
      ensures positions == old(positions)[id := p] || (positions == old(positions) && !ok)
    {
      ok := fate(writes).Applied?;
      if !fate(writes).Lost? { positions := positions[id := p]; }
      writes := writes + 1;
    }

    method CreateTrade(t: Trade) returns (ok: bool)
      modifies this`trades, this`writes
      ensures writes == old(writes) + 1
      ensures trades == old(trades) + [t] || (trades == old(trades) && !ok)
    {
      ok := fate(writes).Applied?;
      if !fate(writes).Lost? { trades := trades + [t]; }
      writes := writes + 1;
    }
  }

  const RECONCILIATION_PAGE: nat := 500

  /** Every page of a listing of n rows can be read. */
  ghost predicate PagesRead(n: nat, access: nat -> bool) { forall k :: 0 <= k <= n / RECONCILIATION_PAGE ==> access(k) }

  /** listAllReconciliationPages: page by page, all of a listing and nothing twice; a page that cannot be read fails it
      all. */
  method ListAll<T>(rows: seq<T>, access: nat -> bool) returns (r: Option<seq<T>>)
    ensures r.Some? <==> PagesRead(|rows|, access)
    ensures r.Some? ==> r.value == rows
  {
    var all: seq<T>, page: nat := [], 0;
    while true
      invariant page * RECONCILIATION_PAGE <= |rows| && all == rows[..page * RECONCILIATION_PAGE]
      invariant forall k :: 0 <= k < page ==> access(k)
      decreases |rows| - page * RECONCILIATION_PAGE
    {
      var offset := page * RECONCILIATION_PAGE;
      assert page <= |rows| / RECONCILIATION_PAGE;
      if !access(page) { return None; }
      var read := Page(rows, RECONCILIATION_PAGE, offset);
      assert read == rows[offset..offset + |read|];
      all := all + read;
      if |read| < RECONCILIATION_PAGE {
        assert |rows| / RECONCILIATION_PAGE == page;
        return Some(all);
      }
      page := page + 1;
    }
  }

  /** Which reads succeed: those of the broker, and page by page those of the three tables. */
  datatype Access = Access(broker: bool, orders: nat -> bool, positions: nat -> bool, trades: nat -> bool)
}

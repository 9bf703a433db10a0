/** Local rows, broker snapshots, and how one is brought up to the other (alpaca_reconciliation.go). */
module BrokerRows {
  import opened Text
  import opened Uuids

  /** The fixed-point texts that quantities are compared by, and the texts that make up an execution key. */
  datatype Formats = Formats(storage: real -> string, decimal: real -> string, timestamp: int -> string)

  // ---------------------------------------------------------------- orders

  datatype Details = Details(
    ticker: string, side: string, orderType: string, quantity: real, limitPrice: Option<real>, stopPrice: Option<real>,
    filledQuantity: real, filledAvgPrice: Option<real>, status: string, broker: string, submittedAt: Option<int>,
      filledAt: Option<int>)

  datatype Order = Order(externalID: string, strategyID: Option<Uuid>, details: Details)
  datatype OrderSnapshot = OrderSnapshot(externalID: string, strategyHint: Option<Uuid>, details: Details)

  const ALPACA: string := "alpaca"

  function FallbackBroker(broker: string): string { if TrimSpace(broker) == "" then ALPACA else TrimSpace(broker) }

  function NewOrder(s: OrderSnapshot, strategy: Option<Uuid>): Order {
    Order(s.externalID, strategy, s.details.(broker := FallbackBroker(s.details.broker)))
  }

  predicate SameQuantity(f: Formats, a: real, b: real) { f.storage(a) == f.storage(b) }

  /** A quantity that reads the same in storage is kept as it is. */
  function Kept(f: Formats, mine: real, theirs: real): real { if SameQuantity(f, mine, theirs) then mine else theirs }

  function ApplyOrder(f: Formats, o: Order, s: OrderSnapshot, strategy: Option<Uuid>): Order {
    Order(o.externalID, strategy, s.details.(
      quantity := Kept(f, o.details.quantity, s.details.quantity),
      filledQuantity := Kept(f, o.details.filledQuantity, s.details.filledQuantity),
      broker := FallbackBroker(s.details.broker)))
  }

  method TakeTerms(d: Details, e: Details) returns (r: Details, changed: bool)
    ensures r == d.(ticker := e.ticker, side := e.side, orderType := e.orderType, limitPrice := e.limitPrice,
      stopPrice := e.stopPrice)
    ensures changed <==> r != d
  {
    r, changed := d, false;
    if r.ticker != e.ticker { r, changed := r.(ticker := e.ticker), true; }
    if r.side != e.side { r, changed := r.(side := e.side), true; }
    if r.orderType != e.orderType { r, changed := r.(orderType := e.orderType), true; }
    if r.limitPrice != e.limitPrice { r, changed := r.(limitPrice := e.limitPrice), true; }
    if r.stopPrice != e.stopPrice { r, changed := r.(stopPrice := e.stopPrice), true; }
  }

  method TakeProgress(f: Formats, d: Details, e: Details) returns (r: Details, changed: bool)
    ensures r == d.(quantity := Kept(f, d.quantity, e.quantity),
      filledQuantity := Kept(f, d.filledQuantity, e.filledQuantity),
      filledAvgPrice := e.filledAvgPrice, status := e.status)
    ensures changed <==> r != d
  {
    r, changed := d, false;
    if !SameQuantity(f, r.quantity, e.quantity) { r, changed := r.(quantity := e.quantity), true; }
    if !SameQuantity(f, r.filledQuantity, e.filledQuantity) {
      r, changed := r.(filledQuantity := e.filledQuantity), true;
    }
    if r.filledAvgPrice != e.filledAvgPrice { r, changed := r.(filledAvgPrice := e.filledAvgPrice), true; }
    if r.status != e.status { r, changed := r.(status := e.status), true; }
  }

  method TakeOrigin(d: Details, e: Details) returns (r: Details, changed: bool)
    ensures r == d.(broker := FallbackBroker(e.broker), submittedAt := e.submittedAt, filledAt := e.filledAt)
    ensures changed <==> r != d
  {
    hide FallbackBroker;
    r, changed := d, false;
    var broker := FallbackBroker(e.broker);
    if r.broker != broker { r, changed := r.(broker := broker), true; }
    if r.submittedAt != e.submittedAt { r, changed := r.(submittedAt := e.submittedAt), true; }
    if r.filledAt != e.filledAt { r, changed := r.(filledAt := e.filledAt), true; }
  }

  /** applyOrderSnapshot: field by field, and whether anything changed. */
  method ApplyOrderSnapshot(f: Formats, order: Order, s: OrderSnapshot, strategy: Option<Uuid>)
    returns (r: Order, changed: bool)
    ensures r == ApplyOrder(f, order, s, strategy)
    ensures changed <==> r != order
  {
    hide FallbackBroker, Kept;
    var d, terms := TakeTerms(order.details, s.details);
    var progress, origin;
    d, progress := TakeProgress(f, d, s.details);
    d, origin := TakeOrigin(d, s.details);
    r := Order(order.externalID, strategy, d);
    changed := order.strategyID != strategy || terms || progress || origin;
  }

  function Named(differs: bool, name: string): seq<string> { if differs then [name] else [] }

  /** diffOrderSnapshot */
  function DiffOrder(f: Formats, o: Order, s: OrderSnapshot): seq<string> {
    var d, e := o.details, s.details;
    Named(d.ticker != e.ticker, "ticker") + Named(d.side != e.side, "side")
      + Named(d.orderType != e.orderType, "order_type")
    + Named(!SameQuantity(f, d.quantity, e.quantity), "quantity") + Named(d.limitPrice != e.limitPrice, "limit_price")
    + Named(d.stopPrice != e.stopPrice, "stop_price")
      + Named(!SameQuantity(f, d.filledQuantity, e.filledQuantity), "filled_quantity")
    + Named(d.filledAvgPrice != e.filledAvgPrice, "filled_avg_price") + Named(d.status != e.status, "status")
    + Named(d.broker != FallbackBroker(e.broker), "broker") + Named(d.submittedAt != e.submittedAt, "submitted_at")
    + Named(d.filledAt != e.filledAt, "filled_at")
  }

  /** The verifier finds nothing to report on an order exactly when the importer would change nothing but
      its strategy. */
  lemma DiffOrderExact(f: Formats, o: Order, s: OrderSnapshot)
    ensures DiffOrder(f, o, s) == [] <==> ApplyOrder(f, o, s, o.strategyID) == o
  {
    hide FallbackBroker;
  }

  lemma ApplyOrderIdempotent(f: Formats, o: Order, s: OrderSnapshot, strategy: Option<Uuid>)
    ensures var once := ApplyOrder(f, o, s, strategy); ApplyOrder(f, once, s, strategy) == once
  {
  }

  lemma NewOrderSettled(f: Formats, s: OrderSnapshot, strategy: Option<Uuid>)
    ensures ApplyOrder(f, NewOrder(s, strategy), s, strategy) == NewOrder(s, strategy)
  {
  }

  // ---------------------------------------------------------------- positions

  datatype Market = Stock | Options | Crypto | Polymarket | Kalshi | Other
  datatype AssetClass = OptionAsset | CryptoAsset | PlainAsset

  datatype Position = Position(
    strategyID: Option<Uuid>, market: Market, ticker: string, side: string, quantity: real, avgEntry: real,
    currentPrice: Option<real>, unrealized: Option<real>, realized: real, closedAt: Option<int>, owned: bool)

  datatype PositionSnapshot = PositionSnapshot(
    assetClass: AssetClass, ticker: string, side: string, quantity: real, avgEntry: real, currentPrice: Option<real>,
      unrealized: Option<real>)

  predicate EventMarket(p: Position) { p.market == Polymarket || p.market == Kalshi }

  function MarketOf(a: AssetClass): Market {
    match a case OptionAsset => Options case CryptoAsset => Crypto case PlainAsset => Stock
  }

  function NewPosition(s: PositionSnapshot, strategy: Option<Uuid>): Position {
    Position(strategy, MarketOf(s.assetClass), s.ticker, s.side, s.quantity, s.avgEntry, s.currentPrice, s.unrealized,
      0.0, None, true)
  }

  function ApplyPosition(p: Position, s: PositionSnapshot, strategy: Option<Uuid>): Position {
    p.(strategyID := strategy, side := s.side, quantity := s.quantity, avgEntry := s.avgEntry,
      currentPrice := s.currentPrice, unrealized := s.unrealized)
  }

  /** applyPositionSnapshot */
  method ApplyPositionSnapshot(position: Position, s: PositionSnapshot, strategy: Option<Uuid>)
    returns (r: Position, changed: bool)
    ensures r == ApplyPosition(position, s, strategy)
    ensures changed <==> r != position
  {
    r, changed := position, false;
    if r.strategyID != strategy { r, changed := r.(strategyID := strategy), true; }
    if r.side != s.side { r, changed := r.(side := s.side), true; }
    if r.quantity != s.quantity { r, changed := r.(quantity := s.quantity), true; }
    if r.avgEntry != s.avgEntry { r, changed := r.(avgEntry := s.avgEntry), true; }
    if r.currentPrice != s.currentPrice { r, changed := r.(currentPrice := s.currentPrice), true; }
    if r.unrealized != s.unrealized { r, changed := r.(unrealized := s.unrealized), true; }
  }

  /** Closing moves the unrealized profit or loss into the realized one. */
  function Closed(p: Position, at: int): Position {
    p.(closedAt := Some(at), realized := p.realized + (if p.unrealized.Some? then p.unrealized.value else 0.0),
      unrealized := None)
  }

  /** diffPositionSnapshot */
  function DiffPosition(p: Position, s: PositionSnapshot): seq<string> {
    Named(p.ticker != s.ticker, "ticker") + Named(p.side != s.side, "side")
    + Named(p.quantity != s.quantity, "quantity") + Named(p.avgEntry != s.avgEntry, "avg_entry")
  }

  // ---------------------------------------------------------------- fills and trades

  datatype Fill = Fill(activityID: string, externalID: string, ticker: string, side: string, quantity: real,
      price: real, fee: real, executedAt: int)

  datatype Trade = Trade(
    orderID: Option<nat>, positionID: Option<nat>, externalID: string, ticker: string, side: string, quantity: real,
      price: real, fee: real, executedAt: int)

  function ExecutionKey(f: Formats, ticker: string, side: string, quantity: real, price: real,
      executedAt: int): string {
    ticker + "|" + side + "|" + f.decimal(quantity) + "|" + f.decimal(price) + "|" + f.timestamp(executedAt)
  }

  function ActivityKey(id: string): string { "activity|" + id }

  function LegacyKey(f: Formats, fill: Fill): string {
    ExecutionKey(f, fill.ticker, fill.side, fill.quantity, fill.price, fill.executedAt)
  }

  function PrimaryKey(f: Formats, fill: Fill): string {
    if TrimSpace(fill.activityID) != "" then ActivityKey(TrimSpace(fill.activityID)) else LegacyKey(f, fill)
  }

  function TradeKey(f: Formats, t: Trade): string {
    if TrimSpace(t.externalID) != "" then ActivityKey(TrimSpace(t.externalID))
    else ExecutionKey(f, t.ticker, t.side, t.quantity, t.price, t.executedAt)
  }

  function TradeFor(fill: Fill, order: nat, position: Option<nat>): Trade {
    Trade(Some(order), position, TrimSpace(fill.activityID), fill.ticker, fill.side, fill.quantity, fill.price,
      fill.fee, fill.executedAt)
  }

  /** How many fills share an execution key. */
  function LegacyCount(f: Formats, fills: seq<Fill>, key: string): nat {
    if fills == [] then 0
    else LegacyCount(f, fills[..|fills| - 1], key) + if LegacyKey(f, fills[|fills| - 1]) == key then 1 else 0
  }

  /** fillLegacyKeyCounts */
  method CountLegacyKeys(f: Formats, fills: seq<Fill>) returns (counts: map<string, nat>)
    ensures forall key :: (if key in counts then counts[key] else 0) == LegacyCount(f, fills, key)
  {
    hide LegacyKey;
    counts := map[];
    for i := 0 to |fills|
      invariant forall key :: (if key in counts then counts[key] else 0) == LegacyCount(f, fills[..i], key)
    {
      var key := LegacyKey(f, fills[i]);
      assert fills[..i + 1][..i] == fills[..i];
      counts := counts[key := (if key in counts then counts[key] else 0) + 1];
    }
    assert fills[..|fills|] == fills;
  }

  /** dedupeKeysForFill: the execution key counts as a second key only where it names one fill. */
  function FillKeys(f: Formats, fill: Fill, sharing: nat): (keys: seq<string>)
    ensures 1 <= |keys| <= 2
  {
    if LegacyKey(f, fill) == PrimaryKey(f, fill)
      || sharing > 1 then [PrimaryKey(f, fill)] else [PrimaryKey(f, fill), LegacyKey(f, fill)]
  }

  /** diffTradeFill */
  function DiffTrade(t: Trade, fill: Fill): seq<string> {
    Named(TrimSpace(fill.activityID) != "" && TrimSpace(t.externalID) != TrimSpace(fill.activityID), "external_id")
    + Named(t.ticker != fill.ticker, "ticker") + Named(t.side != fill.side, "side")
      + Named(t.quantity != fill.quantity, "quantity")
    + Named(t.price != fill.price, "price") + Named(t.fee != fill.fee, "fee")
      + Named(t.executedAt != fill.executedAt, "executed_at")
  }

  // ---------------------------------------------------------------- what one reconciliation sees of the broker

  datatype Context = Context(
    formats: Formats, strategies: map<string, Uuid>, orders: seq<OrderSnapshot>, positions: seq<PositionSnapshot>,
      fills: seq<Fill>)

  function OrderStrategy(c: Context, s: OrderSnapshot): Option<Uuid> {
    if s.strategyHint.Some? then s.strategyHint else Lookup(c.strategies, s.details.ticker)
  }
}

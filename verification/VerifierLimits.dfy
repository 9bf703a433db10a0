/** Final books that the verifier rejects (alpaca_reconciliation.go). */
module VerifierLimits {
  import opened Text
  import opened BrokerRows
  import opened Imports
  import opened OrderImports
  import opened PositionImports
  import opened TradeImports
  import opened Reconciler
  import opened ReconcileVerifier

  const SOME_ORDER: OrderSnapshot :=
    OrderSnapshot("o", None, Details("T", "buy", "market", 1.0, None, None, 1.0, None, "filled", ALPACA, None, None))

  const SOME_FILL: Fill := Fill("a", "o", "T", "buy", 1.0, 1.0, 0.0, 0)

  /** The trade of the fill, without an external identity. */
  const STAND_IN: Trade := Trade(None, None, "", "T", "buy", 1.0, 1.0, 0.0, 0)

  function OneFill(f: Formats): Context { Context(f, map[], [SOME_ORDER], [], [SOME_FILL]) }

  lemma OneFillWellFormed(f: Formats)
    ensures WellFormed(OneFill(f))
  {
    var c := OneFill(f);
    OneLetter("o");
    OneLetter("a");
    AlpacaTrimmed();
    hide TrimSpace;
    assert LegacyKey(f, SOME_FILL)[0] == 'T' && "activity|"[0] == 'a';
    assert HasOrder(c, SOME_FILL) by { assert c.orders[0].externalID == SOME_FILL.externalID; }
  }

  lemma OneLetter(s: string)
    requires s == "o" || s == "a"
    ensures TrimSpace(s) == s
  {
    assert TrimLeft(s) == s;
    assert TrimRight(s) == s;
  }

  lemma AlpacaTrimmed()
    ensures TrimSpace(ALPACA) == ALPACA
  {
    assert TrimLeft(ALPACA) == ALPACA;
    assert TrimRight(ALPACA) == ALPACA;
  }

  function ImportedOrder(f: Formats): Order { NewOrder(SOME_ORDER, OrderStrategy(OneFill(f), SOME_ORDER)) }

  lemma OrderDone(f: Formats)
    ensures Stable(OrderImport(OneFill(f)), [ImportedOrder(f)]) && Unique(OrderImport(OneFill(f)), [ImportedOrder(f)])
  {
    hide OrderImport, WellFormedOrders, NewOrder, OrderKey, SettledOrder, OrderStrategy, Final, View;
    var c := OneFill(f);
    var m, table := OrderImport(c), [ImportedOrder(f)];
    OneFillWellFormed(f);
    NewOrderFacts(c, 0);
    assert KeyAt(m, table, SOME_ORDER.externalID, 0);
    assert Present(m, table, SOME_ORDER.externalID);
    AllDone(m, table);
  }

  lemma PositionsDone(c: Context)
    requires c.positions == []
    ensures Stable(PositionImport(c), []) && Unique(PositionImport(c), [])
  {
    hide PositionImport, Final, View;
    AllDone(PositionImport(c), []);
  }

  lemma StandsIn(f: Formats)
    ensures TradeKey(f, STAND_IN) == LegacyKey(f, SOME_FILL)
  {
    assert TrimSpace("") == "";
  }

  /** The fill is matched, by its execution key alone. */
  lemma MatchedUncleanly(f: Formats)
    ensures var c := OneFill(f); Matched(c, SOME_FILL, [STAND_IN]) && !CleanFor(c, SOME_FILL, [STAND_IN])
  {
    hide LegacyKey, TradeKey, PrimaryKey, WellFormedFills;
    var c := OneFill(f);
    OneFillWellFormed(f);
    StandsIn(f);
    PrimaryIsActivity(c, 0);
    OnlyFill(f);
    var keys := KeysOf(c, SOME_FILL);
    assert keys == [PrimaryKey(f, SOME_FILL), LegacyKey(f, SOME_FILL)];
    assert HasTradeKey(c, [STAND_IN], keys[1]) by { assert TradeKey(c.formats, [STAND_IN][0]) == keys[1]; }
  }

  lemma OnlyFill(f: Formats)
    ensures LegacyCount(f, [SOME_FILL], LegacyKey(f, SOME_FILL)) == 1
  {
    hide LegacyKey;
    assert [SOME_FILL][..0] == [];
  }

  /** A trade without an identity that stands in for a fill leaves the importer nothing to do and the verifier
      unsatisfied. */
  lemma StandInFailsVerification(f: Formats)
    ensures var c, orders, trades := OneFill(f), [ImportedOrder(f)], [STAND_IN];
      && WellFormed(c) && OneRowPerKey(orders, []) && UniqueTrades(c, trades) && NoEvents([])
      && BooksOf(orders, [], trades) == FinalBooks(c, orders, [], trades)
      && !AllOk(c, orders, [], trades)
  {
    hide OrderImport, PositionImport, WellFormed, OneRowPerKey, BooksOf, FinalBooks, AllOk, Stable, Unique, Matched,
      CleanFor, ImportedOrder, TradesStable;
    var c, orders, trades := OneFill(f), [ImportedOrder(f)], [STAND_IN];
    OneFillWellFormed(f);
    OrderDone(f);
    PositionsDone(c);
    OneRowExact(c, orders, []);
    MatchedUncleanly(f);
    assert c.fills[0] == SOME_FILL;
    TradesStableExact(c, trades);
    FinalExact(c, orders, [], trades);
    VerifiedExact(c, orders, [], trades);
  }
}

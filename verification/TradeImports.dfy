/** The last stage of a reconciliation: a trade for every fill that has none. */
module TradeImports {
  import opened Text
  import opened BrokerRows
  import opened LocalStores

  /** A trade up to its place in the table and what it points to. */
  datatype TradeView = TradeView(externalID: string, ticker: string, side: string, quantity: real, price: real,
      fee: real, executedAt: int)

  function ViewOfTrade(t: Trade): TradeView {
    TradeView(TrimSpace(t.externalID), t.ticker, t.side, t.quantity, t.price, t.fee, t.executedAt)
  }

  function ViewOfFill(fill: Fill): TradeView {
    TradeView(TrimSpace(fill.activityID), fill.ticker, fill.side, fill.quantity, fill.price, fill.fee, fill.executedAt)
  }

  ghost function TradeViews(trades: seq<Trade>): multiset<TradeView> { multiset(Map(ViewOfTrade, trades)) }

  ghost predicate HasTradeKey(c: Context, trades: seq<Trade>, k: string) {
    exists i :: 0 <= i < |trades| && TradeKey(c.formats, trades[i]) == k
  }

  function KeysOf(c: Context, fill: Fill): seq<string> {
    FillKeys(c.formats, fill, LegacyCount(c.formats, c.fills, LegacyKey(c.formats, fill)))
  }

  /** Some trade goes by one of the fill's keys. */
  ghost predicate Matched(c: Context, fill: Fill, trades: seq<Trade>) {
    exists j :: 0 <= j < |KeysOf(c, fill)| && HasTradeKey(c, trades, KeysOf(c, fill)[j])
  }

  /** The trades still to be made for the first n fills. */
  ghost function Outstanding(c: Context, trades: seq<Trade>, n: nat): multiset<TradeView>
    requires n <= |c.fills|
  {
    if n == 0 then multiset{}
    else Outstanding(c, trades, n - 1) + if Matched(c, c.fills[n - 1], trades)
      then multiset{} else multiset{ViewOfFill(c.fills[n - 1])}
  }

  ghost function FinalTrades(c: Context, trades: seq<Trade>): multiset<TradeView> {
    TradeViews(trades) + Outstanding(c, trades, |c.fills|)
  }

  ghost predicate TradesStable(c: Context, trades: seq<Trade>) { FinalTrades(c, trades) == TradeViews(trades) }

  ghost predicate HasOrder(c: Context, fill: Fill) {
    exists j :: 0 <= j < |c.orders| && c.orders[j].externalID == fill.externalID
  }

  /** Distinct, non-blank activity identities, execution keys that cannot be read as one, and an order for
      every fill. */
  ghost predicate WellFormedFills(c: Context) {
    && (forall i :: 0 <= i < |c.fills| ==>
      TrimSpace(c.fills[i].activityID) != "" && !("activity|" <= LegacyKey(c.formats, c.fills[i])))
    && (forall i, j :: 0 <= i < j < |c.fills| ==> TrimSpace(c.fills[i].activityID) != TrimSpace(c.fills[j].activityID))
    && (forall i :: 0 <= i < |c.fills| ==> HasOrder(c, c.fills[i]))
  }

  // ---------------------------------------------------------------- what the keys tell apart

  lemma {:induction false} CountedTwice(f: Formats, fills: seq<Fill>, key: string, i: nat, j: nat)
    requires i < j < |fills| && LegacyKey(f, fills[i]) == key && LegacyKey(f, fills[j]) == key
    ensures LegacyCount(f, fills, key) >= 2
  {
    hide LegacyKey;
    var n := |fills| - 1;
    if j < n { CountedTwice(f, fills[..n], key, i, j); } else { CountedOnce(f, fills[..n], key, i); }
  }

  lemma {:induction false} CountedOnce(f: Formats, fills: seq<Fill>, key: string, i: nat)
    requires i < |fills| && LegacyKey(f, fills[i]) == key
    ensures LegacyCount(f, fills, key) >= 1
  {
    hide LegacyKey;
    var n := |fills| - 1;
    if i < n { CountedOnce(f, fills[..n], key, i); }
  }

  lemma ActivityKeyPrefix(id: string)
    ensures "activity|" <= ActivityKey(id)
  {
  }

  lemma ActivityKeyInjective(a: string, b: string)
    requires ActivityKey(a) == ActivityKey(b)
    ensures a == b
  {
    assert ActivityKey(a)[|"activity|"|..] == a && ActivityKey(b)[|"activity|"|..] == b;
  }

  lemma PrimaryIsActivity(c: Context, i: nat)
    requires WellFormedFills(c) && i < |c.fills|
    ensures PrimaryKey(c.formats, c.fills[i])
      == ActivityKey(TrimSpace(c.fills[i].activityID)) != LegacyKey(c.formats, c.fills[i])
  {
    hide LegacyKey, TrimSpace;
    ActivityKeyPrefix(TrimSpace(c.fills[i].activityID));
  }

  /** No key belongs to two fills. */
  lemma KeysApart(c: Context, i: nat, j: nat, a: nat, b: nat)
    requires WellFormedFills(c) && i < |c.fills| && j < |c.fills| && i != j
    requires a < |KeysOf(c, c.fills[i])| && b < |KeysOf(c, c.fills[j])|
    ensures KeysOf(c, c.fills[i])[a] != KeysOf(c, c.fills[j])[b]
  {
    hide LegacyKey, LegacyCount, PrimaryKey, TrimSpace, ActivityKey;
    PrimaryIsActivity(c, i);
    PrimaryIsActivity(c, j);
    var p, q := TrimSpace(c.fills[i].activityID), TrimSpace(c.fills[j].activityID);
    assert p != q;
    if ActivityKey(p) == ActivityKey(q) { ActivityKeyInjective(p, q); }
    ActivityKeyPrefix(p);
    ActivityKeyPrefix(q);
    if LegacyKey(c.formats, c.fills[i]) == LegacyKey(c.formats, c.fills[j]) {
      CountedTwice(c.formats, c.fills, LegacyKey(c.formats, c.fills[i]), if i < j then i else j,
        if i < j then j else i);
    }
  }

  lemma NewTradeKey(c: Context, i: nat, order: nat, position: Option<nat>)
    requires WellFormedFills(c) && i < |c.fills|
    ensures TradeKey(c.formats, TradeFor(c.fills[i], order, position)) == KeysOf(c, c.fills[i])[0]
    ensures ViewOfTrade(TradeFor(c.fills[i], order, position)) == ViewOfFill(c.fills[i])
  {
    hide LegacyKey, LegacyCount, ActivityKey;
    TrimTwice(c.fills[i].activityID);
    PrimaryIsActivity(c, i);
  }

  lemma TrimTwice(s: string)
    ensures TrimSpace(TrimSpace(s)) == TrimSpace(s)
  {
    TrimRightKeepsLeft(TrimLeft(s));
    TrimLeftIdempotent(s);
    TrimRightIdempotent(TrimLeft(s));
  }

  lemma {:induction false} TrimLeftIdempotent(s: string)
    ensures TrimLeft(TrimLeft(s)) == TrimLeft(s)
  {
    hide IsSpace;
    if s != "" && IsSpace(s[0]) { TrimLeftIdempotent(s[1..]); }
  }

  lemma {:induction false} TrimRightIdempotent(s: string)
    ensures TrimRight(TrimRight(s)) == TrimRight(s)
  {
    hide IsSpace;
    if s != "" && IsSpace(s[|s| - 1]) { TrimRightIdempotent(s[..|s| - 1]); }
  }

  lemma {:induction false} TrimRightKeepsLeft(s: string)
    ensures TrimLeft(s) == s ==> TrimLeft(TrimRight(s)) == TrimRight(s)
  {
    hide IsSpace;
    if s != "" && IsSpace(s[|s| - 1]) && TrimLeft(s) == s {
      TrimmedHead(s);
      TrimmedHead(s[..|s| - 1]);
      TrimRightKeepsLeft(s[..|s| - 1]);
    }
  }

  lemma {:induction false} TrimmedHead(s: string)
    ensures |TrimLeft(s)| <= |s| && (TrimLeft(s) == s <==> s == "" || !IsSpace(s[0]))
  {
    hide IsSpace;
    if s != "" && IsSpace(s[0]) { TrimmedHead(s[1..]); }
  }

  // ---------------------------------------------------------------- one more trade

  lemma HasKeyNext(c: Context, trades: seq<Trade>, t: Trade, k: string)
    ensures HasTradeKey(c, trades + [t], k) <==> HasTradeKey(c, trades, k) || TradeKey(c.formats, t) == k
  {
    hide TradeKey;
    var next := trades + [t];
    if HasTradeKey(c, trades, k) {
      var i :| 0 <= i < |trades| && TradeKey(c.formats, trades[i]) == k;
      assert next[i] == trades[i];
    }
    assert next[|trades|] == t;
  }

  lemma MatchedNext(c: Context, trades: seq<Trade>, i: nat, order: nat, position: Option<nat>, j: nat)
    requires WellFormedFills(c) && i < |c.fills| && j < |c.fills|
    ensures Matched(c, c.fills[j], trades + [TradeFor(c.fills[i], order, position)]) <==>
      Matched(c, c.fills[j], trades) || i == j
  {
    hide HasTradeKey, TradeKey, TradeFor, LegacyKey, PrimaryKey, WellFormedFills, LegacyCount, FillKeys;
    var t := TradeFor(c.fills[i], order, position);
    var next, keys := trades + [t], KeysOf(c, c.fills[j]);
    NewTradeKey(c, i, order, position);
    forall b | 0 <= b < |keys|
      ensures HasTradeKey(c, next, keys[b]) <==>
        HasTradeKey(c, trades, keys[b]) || (i == j && b == 0) || TradeKey(c.formats, t) == keys[b] {
      HasKeyNext(c, trades, t, keys[b]);
    }
    forall b | 0 <= b < |keys| && i != j ensures TradeKey(c.formats, t) != keys[b] { KeysApart(c, i, j, 0, b); }
    if i == j { HasKeyNext(c, trades, t, keys[0]); }
  }

  lemma {:induction false} OutstandingNext(c: Context, trades: seq<Trade>, i: nat, order: nat, position: Option<nat>,
      n: nat)
    requires WellFormedFills(c) && i < |c.fills| && n <= |c.fills| && !Matched(c, c.fills[i], trades)
    ensures Outstanding(c, trades, n) == Outstanding(c, trades + [TradeFor(c.fills[i], order, position)], n)
      + if i < n then multiset{ViewOfFill(c.fills[i])} else multiset{}
  {
    hide *;
    if n > 0 {
      var next := trades + [TradeFor(c.fills[i], order, position)];
      OutstandingNext(c, trades, i, order, position, n - 1);
      MatchedNext(c, trades, i, order, position, n - 1);
      OutstandingStep(c, trades, n);
      OutstandingStep(c, next, n);
      var rest, view := Outstanding(c, next, n - 1), multiset{ViewOfFill(c.fills[i])};
      if i < n - 1 && !Matched(c, c.fills[n - 1], next) {
        Shuffle(rest, view, multiset{ViewOfFill(c.fills[n - 1])});
      }
    } else {
      NoneOutstanding(c, trades);
      NoneOutstanding(c, trades + [TradeFor(c.fills[i], order, position)]);
    }
  }

  lemma OutstandingStep(c: Context, trades: seq<Trade>, n: nat)
    requires 0 < n <= |c.fills|
    ensures Matched(c, c.fills[n - 1], trades) ==> Outstanding(c, trades, n) == Outstanding(c, trades, n - 1)
    ensures !Matched(c, c.fills[n - 1], trades) ==>
      Outstanding(c, trades, n) == Outstanding(c, trades, n - 1) + multiset{ViewOfFill(c.fills[n - 1])}
  {
    hide Matched, ViewOfFill;
  }

  lemma NoneOutstanding(c: Context, trades: seq<Trade>)
    ensures Outstanding(c, trades, 0) == multiset{}
  {
  }

  lemma Shuffle<T>(a: multiset<T>, b: multiset<T>, c: multiset<T>)
    ensures a + b + c == a + c + b
  {
  }

  /** Making an outstanding trade keeps the end in sight. */
  lemma TradeKeepsFinal(c: Context, trades: seq<Trade>, i: nat, order: nat, position: Option<nat>)
    requires WellFormedFills(c) && i < |c.fills| && !Matched(c, c.fills[i], trades)
    ensures FinalTrades(c, trades + [TradeFor(c.fills[i], order, position)]) == FinalTrades(c, trades)
  {
    hide Matched, TradeFor, WellFormedFills, ViewOfFill, ViewOfTrade, Outstanding;
    var t := TradeFor(c.fills[i], order, position);
    OutstandingNext(c, trades, i, order, position, |c.fills|);
    NewTradeKey(c, i, order, position);
    assert Map(ViewOfTrade, trades + [t]) == Map(ViewOfTrade, trades) + [ViewOfTrade(t)];
  }

  lemma {:induction false} NothingOutstanding(c: Context, trades: seq<Trade>, n: nat)
    requires n <= |c.fills|
    ensures Outstanding(c, trades, n) == multiset{} <==> forall i :: 0 <= i < n ==> Matched(c, c.fills[i], trades)
  {
    hide Matched;
    if n > 0 {
      NothingOutstanding(c, trades, n - 1);
      assert !Matched(c, c.fills[n - 1], trades) ==> ViewOfFill(c.fills[n - 1]) in Outstanding(c, trades, n);
    }
  }

  /** The stage has nothing to do exactly when every fill is matched. */
  lemma TradesStableExact(c: Context, trades: seq<Trade>)
    ensures TradesStable(c, trades) <==> forall i :: 0 <= i < |c.fills| ==> Matched(c, c.fills[i], trades)
  {
    hide Matched, TradeViews, Outstanding;
    NothingOutstanding(c, trades, |c.fills|);
    var v, o := TradeViews(trades), Outstanding(c, trades, |c.fills|);
    if v + o == v {
      forall x ensures o[x] == 0 { assert (v + o)[x] == v[x] + o[x]; }
    }
    if o == multiset{} { assert v + o == v; }
  }

  // ---------------------------------------------------------------- trades that were already there

  ghost predicate UniqueTrades(c: Context, trades: seq<Trade>) {
    forall i, j :: 0 <= i < j < |trades| ==> TradeKey(c.formats, trades[i]) != TradeKey(c.formats, trades[j])
  }

  /** The trade that goes by the fill's own identity, if there is one, agrees with the fill; if there is none,
      no trade without an identity stands in for it. */
  ghost predicate CleanFor(c: Context, fill: Fill, trades: seq<Trade>) {
    && (forall i :: 0 <= i < |trades| && TradeKey(c.formats, trades[i]) == KeysOf(c, fill)[0] ==>
      ViewOfTrade(trades[i]) == ViewOfFill(fill))
    && (HasTradeKey(c, trades, KeysOf(c, fill)[0]) || !Matched(c, fill, trades))
  }

  ghost predicate Clean(c: Context, trades: seq<Trade>) {
    forall i :: 0 <= i < |c.fills| ==> CleanFor(c, c.fills[i], trades)
  }

  /** Making an outstanding trade neither cleans up nor spoils. */
  lemma CleanForNext(c: Context, trades: seq<Trade>, i: nat, order: nat, position: Option<nat>, j: nat)
    requires WellFormedFills(c) && i < |c.fills| && j < |c.fills| && !Matched(c, c.fills[i], trades)
    ensures CleanFor(c, c.fills[j], trades + [TradeFor(c.fills[i], order, position)]) <==>
      CleanFor(c, c.fills[j], trades)
  {
    hide Matched, HasTradeKey, TradeKey, TradeFor, ViewOfTrade, ViewOfFill, KeysOf, WellFormedFills;
    var t := TradeFor(c.fills[i], order, position);
    var next := trades + [t];
    NewTradeKey(c, i, order, position);
    MatchedNext(c, trades, i, order, position, j);
    FirstKey(c, j);
    FirstKey(c, i);
    HasKeyNext(c, trades, t, KeysOf(c, c.fills[j])[0]);
    if i == j { UnmatchedHasNone(c, c.fills[i], trades); } else { KeysApart(c, i, j, 0, 0); }
    assert next[|trades|] == t && forall k :: 0 <= k < |trades| ==> next[k] == trades[k];
    if CleanFor(c, c.fills[j], next) { CleanForPrefix(c, c.fills[j], trades, t); }
  }

  lemma CleanForPrefix(c: Context, fill: Fill, trades: seq<Trade>, t: Trade)
    requires CleanFor(c, fill, trades + [t])
    ensures forall i :: 0 <= i < |trades| && TradeKey(c.formats, trades[i]) == KeysOf(c, fill)[0] ==>
      ViewOfTrade(trades[i]) == ViewOfFill(fill)
  {
    hide Matched, HasTradeKey, TradeKey, ViewOfTrade, ViewOfFill, KeysOf;
    assert forall k :: 0 <= k < |trades| ==> (trades + [t])[k] == trades[k];
  }

  lemma UnmatchedHasNone(c: Context, fill: Fill, trades: seq<Trade>)
    requires !Matched(c, fill, trades)
    ensures |KeysOf(c, fill)| >= 1 && !HasTradeKey(c, trades, KeysOf(c, fill)[0])
    ensures forall i :: 0 <= i < |trades| ==> TradeKey(c.formats, trades[i]) != KeysOf(c, fill)[0]
  {
    hide TradeKey, LegacyKey, LegacyCount, PrimaryKey;
    assert |KeysOf(c, fill)| >= 1;
  }

  lemma CleanNext(c: Context, trades: seq<Trade>, i: nat, order: nat, position: Option<nat>)
    requires WellFormedFills(c) && i < |c.fills| && !Matched(c, c.fills[i], trades)
    ensures Clean(c, trades + [TradeFor(c.fills[i], order, position)]) <==> Clean(c, trades)
    ensures UniqueTrades(c, trades) ==> UniqueTrades(c, trades + [TradeFor(c.fills[i], order, position)])
  {
    hide Matched, CleanFor, WellFormedFills, TradeFor, TradeKey, KeysOf;
    forall j | 0 <= j < |c.fills|
      ensures CleanFor(c, c.fills[j], trades + [TradeFor(c.fills[i], order, position)]) <==>
        CleanFor(c, c.fills[j], trades) {
      CleanForNext(c, trades, i, order, position, j);
    }
    NewTradeKey(c, i, order, position);
    UnmatchedHasNone(c, c.fills[i], trades);
  }

  // ---------------------------------------------------------------- the keys held in memory

  /** Memory answers for every fill as the table would. */
  ghost predicate Faithful(c: Context, trades: seq<Trade>, known: set<string>) {
    forall i, b :: 0 <= i < |c.fills| && 0 <= b < |KeysOf(c, c.fills[i])| ==>
      (KeysOf(c, c.fills[i])[b] in known ==> Matched(c, c.fills[i], trades))
        && (HasTradeKey(c, trades, KeysOf(c, c.fills[i])[b]) ==> KeysOf(c, c.fills[i])[b] in known)
  }

  ghost predicate AnyKnown(c: Context, fill: Fill, known: set<string>) {
    exists b :: 0 <= b < |KeysOf(c, fill)| && KeysOf(c, fill)[b] in known
  }

  lemma FaithfulAnswers(c: Context, trades: seq<Trade>, known: set<string>, i: nat)
    requires Faithful(c, trades, known) && i < |c.fills|
    ensures AnyKnown(c, c.fills[i], known) <==> Matched(c, c.fills[i], trades)
  {
    hide HasTradeKey, KeysOf;
    if Matched(c, c.fills[i], trades) {
      var b :| 0 <= b < |KeysOf(c, c.fills[i])| && HasTradeKey(c, trades, KeysOf(c, c.fills[i])[b]);
      assert KeysOf(c, c.fills[i])[b] in known;
    }
  }

  lemma FaithfulNext(c: Context, trades: seq<Trade>, known: set<string>, i: nat, order: nat, position: Option<nat>,
      more: set<string>)
    requires WellFormedFills(c) && Faithful(c, trades, known) && i < |c.fills|
    requires forall k :: k in more <==> k in KeysOf(c, c.fills[i])
    ensures Faithful(c, trades + [TradeFor(c.fills[i], order, position)], known + more)
  {
    hide Matched, HasTradeKey, KeysOf, WellFormedFills, TradeFor, TradeKey;
    var t := TradeFor(c.fills[i], order, position);
    var next := trades + [t];
    NewTradeKey(c, i, order, position);
    forall j, b | 0 <= j < |c.fills| && 0 <= b < |KeysOf(c, c.fills[j])|
      ensures (KeysOf(c, c.fills[j])[b] in known + more ==> Matched(c, c.fills[j], next))
        && (HasTradeKey(c, next, KeysOf(c, c.fills[j])[b]) ==> KeysOf(c, c.fills[j])[b] in known + more)
    {
      var k := KeysOf(c, c.fills[j])[b];
      MatchedNext(c, trades, i, order, position, j);
      HasKeyNext(c, trades, t, k);
      FirstKey(c, i);
      if i != j { NotAmong(c, i, j, b); }
    }
  }

  lemma FirstKey(c: Context, i: nat)
    requires i < |c.fills|
    ensures |KeysOf(c, c.fills[i])| >= 1 && KeysOf(c, c.fills[i])[0] in KeysOf(c, c.fills[i])
  {
    hide LegacyKey, LegacyCount, PrimaryKey;
  }

  lemma NotAmong(c: Context, i: nat, j: nat, b: nat)
    requires WellFormedFills(c) && i < |c.fills| && j < |c.fills| && i != j && b < |KeysOf(c, c.fills[j])|
    ensures KeysOf(c, c.fills[j])[b] !in KeysOf(c, c.fills[i])
  {
    hide KeysOf, WellFormedFills;
    forall a | 0 <= a < |KeysOf(c, c.fills[i])| ensures KeysOf(c, c.fills[i])[a] != KeysOf(c, c.fills[j])[b] {
      KeysApart(c, i, j, a, b);
    }
  }

  ghost predicate AllKeys(f: Formats, trades: seq<Trade>, known: set<string>) {
    forall k :: k in known <==> exists i :: 0 <= i < |trades| && TradeKey(f, trades[i]) == k
  }

  /** The keys of all stored trades. */
  method LoadTradeKeys(store: LocalStore, f: Formats, access: nat -> bool) returns (r: Option<set<string>>)
    ensures r.Some? <==> PagesRead(|store.trades|, access)
    ensures r.Some? ==> AllKeys(f, store.trades, r.value)
  {
    hide TradeKey, PagesRead;
    var listed := ListAll(store.trades, access);
    if listed.None? { return None; }
    var trades := listed.value;
    var known: set<string> := {};
    for i := 0 to |trades|
      invariant forall k :: k in known <==> exists j :: 0 <= j < i && TradeKey(f, trades[j]) == k
    {
      ghost var before := known;
      known := known + {TradeKey(f, trades[i])};
      forall k ensures k in known <==> exists j :: 0 <= j < i + 1 && TradeKey(f, trades[j]) == k {
        if k in known && k !in before { assert TradeKey(f, trades[i]) == k; }
      }
    }
    r := Some(known);
  }

  lemma LoadedFaithful(c: Context, trades: seq<Trade>, known: set<string>)
    requires forall k :: k in known <==> HasTradeKey(c, trades, k)
    ensures Faithful(c, trades, known)
  {
    hide HasTradeKey, KeysOf;
  }

  // ---------------------------------------------------------------- the stage

  ghost predicate Fills(c: Context, sorted: seq<Fill>, orders: map<string, nat>) {
    && WellFormedFills(c) && multiset(sorted) == multiset(c.fills)
    && forall i :: 0 <= i < |c.fills| ==> c.fills[i].externalID in orders
  }

  ghost predicate Filling(c: Context, start: seq<Trade>, trades: seq<Trade>, known: set<string>, sorted: seq<Fill>,
      n: nat) {
    && n <= |sorted| && FinalTrades(c, trades) == FinalTrades(c, start) && Faithful(c, trades, known)
    && (Clean(c, trades) <==> Clean(c, start)) && (UniqueTrades(c, start) ==> UniqueTrades(c, trades))
    && (forall j :: 0 <= j < n ==> Matched(c, sorted[j], trades))
    && (TradesStable(c, start) ==> trades == start)
  }

  /** Every trade this stage makes is for a fill of the broker and points to that fill's order. */
  ghost predicate Linked(c: Context, t: Trade, orders: map<string, nat>) {
    exists fill, position :: fill in c.fills && fill.externalID in orders
      && t == TradeFor(fill, orders[fill.externalID], position)
  }

  /** Goes through the fills in any order that is sorted by time. */
  method ImportFills(store: LocalStore, c: Context, sorted: seq<Fill>, orders: map<string, nat>,
      positions: map<string, nat>, loaded: set<string>)
    returns (ok: bool)
    requires multiset(sorted) == multiset(c.fills) && AllKeys(c.formats, store.trades, loaded)
    modifies store`trades, store`writes
    ensures |old(store.trades)| <= |store.trades| && store.trades[..|old(store.trades)|] == old(store.trades)
    ensures forall i :: |old(store.trades)| <= i < |store.trades| ==> Linked(c, store.trades[i], orders)
    ensures Fills(c, sorted, orders) ==>
      && FinalTrades(c, store.trades) == old(FinalTrades(c, store.trades))
      && (Clean(c, store.trades) <==> old(Clean(c, store.trades)))
        && (old(UniqueTrades(c, store.trades)) ==> UniqueTrades(c, store.trades))
      && (ok ==> TradesStable(c, store.trades))
      && (old(TradesStable(c, store.trades)) ==>
        ok && store.trades == old(store.trades) && store.writes == old(store.writes))
  {
    hide Filling, FinalTrades, TradesStable, Clean, UniqueTrades, WellFormedFills, KeysOf, FillKeys, TradeFor, TradeKey,
      LegacyKey, LegacyCount, AnyKnown, Matched, AllKeys;
    ghost var start := store.trades;
    ghost var ready := Fills(c, sorted, orders);
    var known := loaded;
    var counts := CountLegacyKeys(c.formats, c.fills);
    if ready { FillingBegins(c, start, known, sorted); }
    for n := 0 to |sorted|
      invariant |start| <= |store.trades| && store.trades[..|start|] == start
      invariant forall i :: |start| <= i < |store.trades| ==> Linked(c, store.trades[i], orders)
      invariant ready ==> Filling(c, start, store.trades, known, sorted, n)
      invariant ready && TradesStable(c, start) ==> store.writes == old(store.writes)
    {
      var fill := sorted[n];
      var legacy := LegacyKey(c.formats, fill);
      var keys := FillKeys(c.formats, fill, if legacy in counts then counts[legacy] else 0);
      KeysComputed(c, fill, keys);
      var skip := keys[0] in known || (|keys| == 2 && keys[1] in known);
      AnyOfTwo(c, fill, keys, known, skip);
      if ready { FillingAsks(c, start, store.trades, known, sorted, n, skip); }
      if skip { continue; }
      assert fill in multiset(sorted) && fill in c.fills;
      if fill.externalID !in orders { continue; }
      var order := orders[fill.externalID];
      var position := if fill.ticker in positions then Some(positions[fill.ticker]) else None;
      ghost var before := store.trades;
      var more := set k | k in keys;
      if ready { FillingMakes(c, start, before, known, sorted, n, order, position, more); }
      assert Linked(c, TradeFor(fill, order, position), orders);
      var stored := store.CreateTrade(TradeFor(fill, order, position));
      if !stored {
        if ready {
          FillingKeeps(c, start, store.trades, if store.trades == before then known else known + more, sorted,
            if store.trades == before then n else n + 1);
        }
        return false;
      }
      known := known + more;
    }
    if ready { FillingEnds(c, start, store.trades, known, sorted); }
    ok := true;
  }

  lemma KeysComputed(c: Context, fill: Fill, keys: seq<string>)
    requires keys == FillKeys(c.formats, fill, LegacyCount(c.formats, c.fills, LegacyKey(c.formats, fill)))
    ensures keys == KeysOf(c, fill) && 1 <= |keys| <= 2
  {
  }

  lemma AnyOfTwo(c: Context, fill: Fill, keys: seq<string>, known: set<string>, skip: bool)
    requires keys == KeysOf(c, fill) && 1 <= |keys| <= 2
      && skip == (keys[0] in known || (|keys| == 2 && keys[1] in known))
    ensures skip <==> AnyKnown(c, fill, known)
  {
    hide KeysOf;
    if skip { assert KeysOf(c, fill)[if keys[0] in known then 0 else 1] in known; }
  }

  lemma FillingBegins(c: Context, start: seq<Trade>, known: set<string>, sorted: seq<Fill>)
    requires AllKeys(c.formats, start, known)
    ensures Filling(c, start, start, known, sorted, 0)
  {
    hide TradeKey, FinalTrades, TradesStable, Faithful, Clean, UniqueTrades;
    forall k ensures k in known <==> HasTradeKey(c, start, k) {}
    LoadedFaithful(c, start, known);
  }

  lemma FillingKeeps(c: Context, start: seq<Trade>, trades: seq<Trade>, known: set<string>, sorted: seq<Fill>, n: nat)
    requires Filling(c, start, trades, known, sorted, n)
    ensures FinalTrades(c, trades) == FinalTrades(c, start) && (TradesStable(c, start) ==> trades == start)
    ensures (Clean(c, trades) <==> Clean(c, start)) && (UniqueTrades(c, start) ==> UniqueTrades(c, trades))
  {
    hide FinalTrades, TradesStable, Clean, UniqueTrades, Faithful;
  }

  lemma FillIndex(c: Context, sorted: seq<Fill>, n: nat) returns (i: nat)
    requires multiset(sorted) == multiset(c.fills) && n < |sorted|
    ensures i < |c.fills| && c.fills[i] == sorted[n]
  {
    assert sorted[n] in multiset(sorted);
    assert sorted[n] in c.fills;
    i :| 0 <= i < |c.fills| && c.fills[i] == sorted[n];
  }

  /** A fill known in memory is matched, so it is done; one that is not known is outstanding. */
  lemma FillingAsks(c: Context, start: seq<Trade>, trades: seq<Trade>, known: set<string>, sorted: seq<Fill>, n: nat,
      skip: bool)
    requires Filling(c, start, trades, known, sorted, n) && n < |sorted| && multiset(sorted) == multiset(c.fills)
      && (skip <==> AnyKnown(c, sorted[n], known))
    ensures skip ==> Filling(c, start, trades, known, sorted, n + 1)
    ensures !skip ==> !TradesStable(c, start) && !Matched(c, sorted[n], trades)
  {
    hide FinalTrades, TradesStable, Faithful, Matched, AnyKnown, Clean, UniqueTrades;
    var i := FillIndex(c, sorted, n);
    FaithfulAnswers(c, trades, known, i);
    TradesStableExact(c, start);
  }

  lemma FillingMakes(c: Context, start: seq<Trade>, trades: seq<Trade>, known: set<string>, sorted: seq<Fill>, n: nat,
      order: nat, position: Option<nat>, more: set<string>)
    requires WellFormedFills(c) && Filling(c, start, trades, known, sorted, n) && n < |sorted|
      && multiset(sorted) == multiset(c.fills)
    requires !Matched(c, sorted[n], trades) && !TradesStable(c, start) && more == set k | k in KeysOf(c, sorted[n])
    ensures Filling(c, start, trades + [TradeFor(sorted[n], order, position)], known + more, sorted, n + 1)
  {
    hide FinalTrades, TradesStable, Faithful, Matched, WellFormedFills, TradeFor, KeysOf, Clean, UniqueTrades;
    var i := FillIndex(c, sorted, n);
    var next := trades + [TradeFor(sorted[n], order, position)];
    TradeKeepsFinal(c, trades, i, order, position);
    CleanNext(c, trades, i, order, position);
    FaithfulNext(c, trades, known, i, order, position, more);
    forall j | 0 <= j < n + 1 ensures Matched(c, sorted[j], next) {
      var a := i;
      if j < n { a := FillIndex(c, sorted, j); }
      MatchedNext(c, trades, i, order, position, a);
    }
  }

  lemma FillingEnds(c: Context, start: seq<Trade>, trades: seq<Trade>, known: set<string>, sorted: seq<Fill>)
    requires Filling(c, start, trades, known, sorted, |sorted|) && multiset(sorted) == multiset(c.fills)
    ensures FinalTrades(c, trades) == FinalTrades(c, start) && TradesStable(c, trades)
      && (TradesStable(c, start) ==> trades == start)
    ensures (Clean(c, trades) <==> Clean(c, start)) && (UniqueTrades(c, start) ==> UniqueTrades(c, trades))
  {
    hide FinalTrades, TradesStable, Faithful, Matched, Clean, UniqueTrades;
    forall i | 0 <= i < |c.fills| ensures Matched(c, c.fills[i], trades) {
      assert c.fills[i] in multiset(c.fills);
      assert c.fills[i] in sorted;
    }
    TradesStableExact(c, trades);
  }
}

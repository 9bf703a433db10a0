/** Importing a listing into a table: rows that are already there are settled in place, the others are added in listing
    order. */
module Imports {
  import opened Text

  /** How a row is settled, what of it counts, the key it is found by if any, and what is to arrive under which key. */
  datatype Import<!Row> = Import(settle: Row -> Row, view: Row -> Row, key: Row -> Option<string>,
      arrivals: seq<(string, Row)>)

  ghost predicate KeyAt<Row>(m: Import<Row>, table: seq<Row>, k: string, i: int) {
    0 <= i < |table| && m.key(table[i]) == Some(k)
  }

  ghost predicate Present<Row>(m: Import<Row>, table: seq<Row>, k: string) { exists i :: KeyAt(m, table, k, i) }

  /** At most one row per key. */
  ghost predicate Unique<Row>(m: Import<Row>, table: seq<Row>) {
    forall k, i, j :: KeyAt(m, table, k, i) && KeyAt(m, table, k, j) ==> i == j
  }

  ghost predicate Distinct<Row>(m: Import<Row>) {
    forall i, j :: 0 <= i < j < |m.arrivals| ==> m.arrivals[i].0 != m.arrivals[j].0
  }

  /** What the importer relies on: arrivals are found under their key and need no settling, and settling is
      done once. */
  ghost predicate Sound<Row(!new)>(m: Import<Row>) {
    && Distinct(m)
    && (forall i :: 0 <= i < |m.arrivals| ==>
      var a := m.arrivals[i]; m.key(a.1) == Some(a.0) && m.settle(a.1) == a.1 && m.view(a.1) == a.1)
    && (forall r :: m.settle(m.view(r)) == m.settle(r) && m.view(m.settle(r)) == m.settle(r))
  }

  ghost function Apply<Row>(f: Row -> Row, table: seq<Row>): (r: seq<Row>)
    ensures |r| == |table| && forall i :: 0 <= i < |table| ==> r[i] == f(table[i])
  {
    Map(f, table)
  }

  /** The arrivals from n on that have no row yet. */
  ghost function Missing<Row>(m: Import<Row>, table: seq<Row>, n: nat): seq<Row>
    requires n <= |m.arrivals|
    decreases |m.arrivals| - n
  {
    if n == |m.arrivals| then []
    else (if Present(m, table, m.arrivals[n].0) then [] else [m.arrivals[n].1]) + Missing(m, table, n + 1)
  }

  /** Where an uninterrupted import leads. */
  ghost function Final<Row>(m: Import<Row>, table: seq<Row>): seq<Row> { Apply(m.settle, table) + Missing(m, table, 0) }

  ghost function View<Row>(m: Import<Row>, table: seq<Row>): seq<Row> { Apply(m.view, table) }

  ghost predicate ArrivalAt<Row>(m: Import<Row>, k: string, i: int) { 0 <= i < |m.arrivals| && m.arrivals[i].0 == k }
  ghost predicate Arrives<Row>(m: Import<Row>, k: string) { exists i :: ArrivalAt(m, k, i) }

  lemma {:induction false} MissingSame<Row>(m: Import<Row>, a: seq<Row>, b: seq<Row>, n: nat)
    requires n <= |m.arrivals| && forall i :: n <= i < |m.arrivals| ==>
      (Present(m, a, m.arrivals[i].0) <==> Present(m, b, m.arrivals[i].0))
    ensures Missing(m, a, n) == Missing(m, b, n)
    decreases |m.arrivals| - n
  {
    hide Present;
    if n < |m.arrivals| { MissingSame(m, a, b, n + 1); }
  }

  lemma {:induction false} MissingSkips<Row>(m: Import<Row>, table: seq<Row>, n: nat)
    requires n <= |m.arrivals| && forall i :: 0 <= i < n ==> Present(m, table, m.arrivals[i].0)
    ensures Missing(m, table, 0) == Missing(m, table, n)
    decreases n
  {
    hide Present;
    if n > 0 { MissingSkips(m, table, n - 1); }
  }

  lemma {:induction false} MissingNothing<Row>(m: Import<Row>, table: seq<Row>, n: nat)
    requires n <= |m.arrivals|
    ensures Missing(m, table, n) == [] <==> forall i :: n <= i < |m.arrivals| ==> Present(m, table, m.arrivals[i].0)
    decreases |m.arrivals| - n
  {
    hide Present;
    if n < |m.arrivals| { MissingNothing(m, table, n + 1); }
  }

  /** Replacing a row by one that settles alike keeps the end in sight, if it keeps its key or gives up one that nothing
      arrives under. */
  lemma UpdateKeeps<Row>(m: Import<Row>, table: seq<Row>, i: nat, row: Row)
    requires i < |table| && m.settle(row) == m.settle(table[i])
    requires m.key(row) == m.key(table[i])
      || (m.key(row).None? && m.key(table[i]).Some? && !Arrives(m, m.key(table[i]).value))
    ensures Final(m, table[i := row]) == Final(m, table)
  {
    var next := table[i := row];
    forall n | 0 <= n < |m.arrivals| ensures Present(m, next, m.arrivals[n].0) <==> Present(m, table, m.arrivals[n].0) {
      PresentAfterUpdate(m, table, i, row, n);
    }
    MissingSame(m, next, table, 0);
    assert Apply(m.settle, next) == Apply(m.settle, table);
  }

  lemma PresentAfterUpdate<Row>(m: Import<Row>, table: seq<Row>, i: nat, row: Row, n: nat)
    requires i < |table| && n < |m.arrivals|
    requires m.key(row) == m.key(table[i])
      || (m.key(row).None? && m.key(table[i]).Some? && !Arrives(m, m.key(table[i]).value))
    ensures Present(m, table[i := row], m.arrivals[n].0) <==> Present(m, table, m.arrivals[n].0)
  {
    var next, k := table[i := row], m.arrivals[n].0;
    assert ArrivalAt(m, k, n);
    if Present(m, table, k) {
      var j :| KeyAt(m, table, k, j);
      assert KeyAt(m, next, k, j);
    }
    if Present(m, next, k) {
      var j :| KeyAt(m, next, k, j);
      assert KeyAt(m, table, k, j);
    }
  }

  lemma PresentAfterCreate<Row>(m: Import<Row>, table: seq<Row>, row: Row, k: string)
    ensures Present(m, table + [row], k) <==> Present(m, table, k) || m.key(row) == Some(k)
  {
    var next := table + [row];
    if Present(m, table, k) {
      var j :| KeyAt(m, table, k, j);
      assert KeyAt(m, next, k, j);
    }
    if m.key(row) == Some(k) { assert KeyAt(m, next, k, |table|); }
    if Present(m, next, k) {
      var j :| KeyAt(m, next, k, j);
      assert j < |table| ==> KeyAt(m, table, k, j);
    }
  }

  lemma MissingAfterCreate<Row(!new)>(m: Import<Row>, table: seq<Row>, n: nat)
    requires Sound(m) && n < |m.arrivals| && !Present(m, table, m.arrivals[n].0)
    requires forall i :: 0 <= i < n ==> Present(m, table, m.arrivals[i].0)
    ensures Missing(m, table, 0) == [m.arrivals[n].1] + Missing(m, table + [m.arrivals[n].1], 0)
  {
    hide Present, Sound;
    var next := table + [m.arrivals[n].1];
    forall i | 0 <= i < |m.arrivals|
      ensures Present(m, next, m.arrivals[i].0) <==> Present(m, table, m.arrivals[i].0) || i == n {
      ArrivalKeys(m, n, i);
      PresentAfterCreate(m, table, m.arrivals[n].1, m.arrivals[i].0);
    }
    MissingSkips(m, table, n);
    MissingSkips(m, next, n + 1);
    MissingSame(m, next, table, n + 1);
  }

  lemma ArrivalKeys<Row(!new)>(m: Import<Row>, n: nat, i: nat)
    requires Sound(m) && n < |m.arrivals| && i < |m.arrivals|
    ensures m.key(m.arrivals[n].1) == Some(m.arrivals[i].0) <==> i == n
  {
  }

  /** Adding the next arrival that has no row keeps the end in sight. */
  lemma CreateKeeps<Row(!new)>(m: Import<Row>, table: seq<Row>, n: nat)
    requires Sound(m) && n < |m.arrivals| && !Present(m, table, m.arrivals[n].0)
    requires forall i :: 0 <= i < n ==> Present(m, table, m.arrivals[i].0)
    ensures Final(m, table + [m.arrivals[n].1]) == Final(m, table)
  {
    hide Present, Missing;
    MissingAfterCreate(m, table, n);
    assert Apply(m.settle, table + [m.arrivals[n].1]) == Apply(m.settle, table) + [m.arrivals[n].1];
  }

  /** The import has nothing left to do exactly when every row is settled and every arrival has its row. */
  lemma DoneExact<Row>(m: Import<Row>, table: seq<Row>)
    ensures Final(m, table) == View(m, table) <==>
      && (forall i :: 0 <= i < |table| ==> m.settle(table[i]) == m.view(table[i]))
      && (forall i :: 0 <= i < |m.arrivals| ==> Present(m, table, m.arrivals[i].0))
  {
    hide Present;
    MissingNothing(m, table, 0);
    if Final(m, table) == View(m, table) {
      assert |Missing(m, table, 0)| == 0;
      forall i | 0 <= i < |table| ensures m.settle(table[i]) == m.view(table[i]) {
        assert Final(m, table)[i] == View(m, table)[i];
      }
    }
    if forall i :: 0 <= i < |table| ==> m.settle(table[i]) == m.view(table[i]) {
      assert Apply(m.settle, table) == View(m, table);
    }
  }

  lemma UniqueAfterUpdate<Row>(m: Import<Row>, table: seq<Row>, i: nat, row: Row)
    requires Unique(m, table) && i < |table| && (m.key(row) == m.key(table[i]) || m.key(row).None?)
    ensures Unique(m, table[i := row])
  {
    var next := table[i := row];
    forall k, a, b | KeyAt(m, next, k, a) && KeyAt(m, next, k, b) ensures a == b {
      assert KeyAt(m, table, k, a) && KeyAt(m, table, k, b);
    }
  }

  lemma UniqueAfterCreate<Row>(m: Import<Row>, table: seq<Row>, row: Row)
    requires Unique(m, table) && (m.key(row).Some? ==> !Present(m, table, m.key(row).value))
    ensures Unique(m, table + [row])
  {
    var next := table + [row];
    forall k, a, b | KeyAt(m, next, k, a) && KeyAt(m, next, k, b) ensures a == b {
      assert a < |table| ==> KeyAt(m, table, k, a);
      assert b < |table| ==> KeyAt(m, table, k, b);
    }
  }

  // ---------------------------------------------------------------- an import under way

  /** The index knows the row of every key and nothing else. */
  ghost predicate Indexes<Row>(m: Import<Row>, table: seq<Row>, index: map<string, nat>) {
    && (forall k :: k in index ==> KeyAt(m, table, k, index[k]))
    && (forall k :: Present(m, table, k) ==> k in index)
  }

  ghost predicate Settled<Row>(m: Import<Row>, r: Row) { m.settle(r) == m.view(r) }

  ghost predicate Stable<Row>(m: Import<Row>, table: seq<Row>) { Final(m, table) == View(m, table) }

  ghost predicate HasSettledRow<Row>(m: Import<Row>, table: seq<Row>, index: map<string, nat>, j: nat)
    requires j < |m.arrivals|
  {
    m.arrivals[j].0 in index && index[m.arrivals[j].0] < |table| && Settled(m, table[index[m.arrivals[j].0]])
  }

  ghost predicate Through<Row>(m: Import<Row>, table: seq<Row>, index: map<string, nat>, n: nat)
    requires n <= |m.arrivals|
  {
    forall j :: 0 <= j < n ==> HasSettledRow(m, table, index, j)
  }

  /** The first n arrivals have a settled row, and the end has stayed in sight since the start. */
  ghost predicate Underway<Row>(m: Import<Row>, start: seq<Row>, table: seq<Row>, index: map<string, nat>, n: nat) {
    && n <= |m.arrivals| && Unique(m, table) && Indexes(m, table, index) && Final(m, table) == Final(m, start)
    && Through(m, table, index, n)
    && (Stable(m, start) ==> table == start)
  }

  lemma Begins<Row>(m: Import<Row>, start: seq<Row>, index: map<string, nat>)
    requires Unique(m, start) && Indexes(m, start, index)
    ensures Underway(m, start, start, index, 0)
  {
    hide Unique, Indexes, Final, View;
  }

  lemma StepKeep<Row>(m: Import<Row>, start: seq<Row>, table: seq<Row>, index: map<string, nat>, n: nat)
    requires Underway(m, start, table, index, n) && n < |m.arrivals| && HasSettledRow(m, table, index, n)
    ensures Underway(m, start, table, index, n + 1)
  {
    hide Unique, Indexes, Final, View, HasSettledRow, Stable;
  }

  lemma StableSettled<Row>(m: Import<Row>, table: seq<Row>)
    requires Stable(m, table)
    ensures forall i :: 0 <= i < |table| ==> Settled(m, table[i])
    ensures forall i :: 0 <= i < |m.arrivals| ==> Present(m, table, m.arrivals[i].0)
  {
    hide Final, View, Present;
    DoneExact(m, table);
  }

  lemma IndexAfterUpdate<Row>(m: Import<Row>, table: seq<Row>, index: map<string, nat>, i: nat, row: Row)
    requires Indexes(m, table, index) && i < |table| && m.key(row) == m.key(table[i])
    ensures Indexes(m, table[i := row], index)
  {
    var next := table[i := row];
    forall k | k in index ensures KeyAt(m, next, k, index[k]) { assert KeyAt(m, table, k, index[k]); }
    forall k | Present(m, next, k) ensures k in index {
      var j :| KeyAt(m, next, k, j);
      assert KeyAt(m, table, k, j);
    }
  }

  lemma ThroughUpdate<Row>(m: Import<Row>, table: seq<Row>, index: map<string, nat>, n: nat, row: Row)
    requires n < |m.arrivals| && Through(m, table, index, n) && m.arrivals[n].0 in index
      && index[m.arrivals[n].0] < |table| && Settled(m, row)
    ensures Through(m, table[index[m.arrivals[n].0] := row], index, n + 1)
  {
    hide Settled;
    var next := table[index[m.arrivals[n].0] := row];
    forall j | 0 <= j < n + 1 ensures HasSettledRow(m, next, index, j) {
      assert j < n ==> HasSettledRow(m, table, index, j);
    }
  }

  lemma StepUpdate<Row>(m: Import<Row>, start: seq<Row>, table: seq<Row>, index: map<string, nat>, n: nat, row: Row)
    requires Underway(m, start, table, index, n) && n < |m.arrivals| && m.arrivals[n].0 in index
      && index[m.arrivals[n].0] < |table|
    requires var old' := table[index[m.arrivals[n].0]];
      m.settle(row) == m.settle(old') && m.key(row) == m.key(old') && Settled(m, row) && !Settled(m, old')
    ensures !Stable(m, start)
    ensures Underway(m, start, table[index[m.arrivals[n].0] := row], index, n + 1)
  {
    hide Unique, Indexes, Final, View, Settled, Stable, Through;
    var i := index[m.arrivals[n].0];
    ThroughUpdate(m, table, index, n, row);
    UpdateKeeps(m, table, i, row);
    UniqueAfterUpdate(m, table, i, row);
    IndexAfterUpdate(m, table, index, i, row);
    if Stable(m, start) { StableSettled(m, start); }
  }

  lemma StepCreate<Row(!new)>(m: Import<Row>, start: seq<Row>, table: seq<Row>, index: map<string, nat>, n: nat)
    requires Sound(m) && Underway(m, start, table, index, n) && n < |m.arrivals| && m.arrivals[n].0 !in index
    ensures !Stable(m, start)
    ensures Underway(m, start, table + [m.arrivals[n].1], index[m.arrivals[n].0 := |table|], n + 1)
  {
    hide Unique, Final, View, Stable, Present, Sound, Indexes, Through;
    var k, row := m.arrivals[n].0, m.arrivals[n].1;
    ArrivalFacts(m, n);
    IndexedPresent(m, table, index);
    ThroughPresent(m, table, index, n);
    CreateKeeps(m, table, n);
    UniqueAfterCreate(m, table, row);
    IndexAfterLast(m, table, index, k, row);
    if Stable(m, start) { StableSettled(m, start); }
    CreateSettled(m, table, index, n);
  }

  lemma ArrivalFacts<Row(!new)>(m: Import<Row>, n: nat)
    requires Sound(m) && n < |m.arrivals|
    ensures m.key(m.arrivals[n].1) == Some(m.arrivals[n].0) && Settled(m, m.arrivals[n].1)
    ensures forall j :: 0 <= j < n ==> m.arrivals[j].0 != m.arrivals[n].0
  {
  }

  lemma IndexedPresent<Row>(m: Import<Row>, table: seq<Row>, index: map<string, nat>)
    requires Indexes(m, table, index)
    ensures forall k :: k in index <==> Present(m, table, k)
  {
    forall k | k in index ensures Present(m, table, k) { assert KeyAt(m, table, k, index[k]); }
  }

  lemma ThroughPresent<Row>(m: Import<Row>, table: seq<Row>, index: map<string, nat>, n: nat)
    requires n <= |m.arrivals| && Through(m, table, index, n) && Indexes(m, table, index)
    ensures forall j :: 0 <= j < n ==> Present(m, table, m.arrivals[j].0)
  {
    hide Present;
    IndexedPresent(m, table, index);
    forall j | 0 <= j < n ensures Present(m, table, m.arrivals[j].0) { assert HasSettledRow(m, table, index, j); }
  }

  lemma CreateSettled<Row(!new)>(m: Import<Row>, table: seq<Row>, index: map<string, nat>, n: nat)
    requires Sound(m) && n < |m.arrivals| && Through(m, table, index, n)
    ensures Through(m, table + [m.arrivals[n].1], index[m.arrivals[n].0 := |table|], n + 1)
  {
    hide Sound;
    ArrivalFacts(m, n);
    var next, known := table + [m.arrivals[n].1], index[m.arrivals[n].0 := |table|];
    forall j | 0 <= j < n + 1 ensures HasSettledRow(m, next, known, j) {
      assert j < n ==> HasSettledRow(m, table, index, j);
    }
  }

  lemma RowSettled<Row>(m: Import<Row>, table: seq<Row>, index: map<string, nat>, i: nat)
    requires Unique(m, table) && Indexes(m, table, index) && Through(m, table, index, |m.arrivals|) && i < |table|
    requires m.key(table[i]).Some? && Arrives(m, m.key(table[i]).value)
    ensures Settled(m, table[i])
  {
    var k := m.key(table[i]).value;
    var j :| ArrivalAt(m, k, j);
    assert HasSettledRow(m, table, index, j);
    assert KeyAt(m, table, k, i) && KeyAt(m, table, k, index[k]);
  }

  /** When all arrivals are through and every other row is settled, the import is where it was to lead. */
  lemma Finished<Row>(m: Import<Row>, start: seq<Row>, table: seq<Row>, index: map<string, nat>)
    requires Underway(m, start, table, index, |m.arrivals|)
    requires forall i :: 0 <= i < |table| ==>
      Settled(m, table[i]) || (m.key(table[i]).Some? && Arrives(m, m.key(table[i]).value))
    ensures Stable(m, table) && View(m, table) == Final(m, start)
  {
    hide Final, View, Settled, Present, Unique, Indexes, Through;
    ThroughPresent(m, table, index, |m.arrivals|);
    forall i | 0 <= i < |table| ensures Settled(m, table[i]) {
      if m.key(table[i]).Some? && Arrives(m, m.key(table[i]).value) { RowSettled(m, table, index, i); }
    }
    AllDone(m, table);
  }

  lemma AllDone<Row>(m: Import<Row>, table: seq<Row>)
    requires forall i :: 0 <= i < |table| ==> Settled(m, table[i])
    requires forall i :: 0 <= i < |m.arrivals| ==> Present(m, table, m.arrivals[i].0)
    ensures Stable(m, table)
  {
    hide Final, View, Present;
    DoneExact(m, table);
  }

  // ---------------------------------------------------------------- building an index row by row

  lemma FrontUnique<Row>(m: Import<Row>, front: seq<Row>, last: Row)
    requires Unique(m, front + [last])
    ensures Unique(m, front) && (m.key(last).Some? ==> !Present(m, front, m.key(last).value))
  {
    var table := front + [last];
    forall k, i, j | KeyAt(m, front, k, i) && KeyAt(m, front, k, j) ensures i == j {
      assert KeyAt(m, table, k, i) && KeyAt(m, table, k, j);
    }
    if m.key(last).Some? && Present(m, front, m.key(last).value) {
      var k := m.key(last).value;
      var i :| KeyAt(m, front, k, i);
      assert KeyAt(m, table, k, i) && KeyAt(m, table, k, |front|);
    }
  }

  lemma IndexAfterLast<Row>(m: Import<Row>, front: seq<Row>, index: map<string, nat>, k: string, last: Row)
    requires Indexes(m, front, index) && m.key(last) == Some(k)
    ensures Indexes(m, front + [last], index[k := |front|])
  {
    var table, known := front + [last], index[k := |front|];
    forall q | q in known ensures KeyAt(m, table, q, known[q]) { assert q != k ==> KeyAt(m, front, q, index[q]); }
    forall q | Present(m, table, q) ensures q in known { PresentAfterCreate(m, front, last, q); }
  }

  lemma IndexAfterNone<Row>(m: Import<Row>, front: seq<Row>, index: map<string, nat>, last: Row)
    requires Indexes(m, front, index) && m.key(last).None?
    ensures Indexes(m, front + [last], index)
  {
    var table := front + [last];
    forall q | q in index ensures KeyAt(m, table, q, index[q]) { assert KeyAt(m, front, q, index[q]); }
    forall q | Present(m, table, q) ensures q in index { PresentAfterCreate(m, front, last, q); }
  }

  // ---------------------------------------------------------------- retiring the rows that nothing arrived for

  ghost predicate KeepsArrival<Row>(m: Import<Row>, table: seq<Row>, index: map<string, nat>, j: nat)
    requires j < |m.arrivals|
  {
    m.arrivals[j].0 in index && KeyAt(m, table, m.arrivals[j].0, index[m.arrivals[j].0])
      && Settled(m, table[index[m.arrivals[j].0]])
  }

  ghost predicate Accounted<Row>(m: Import<Row>, table: seq<Row>, index: map<string, nat>, pending: set<string>) {
    && (forall k :: k in pending ==> k in index && KeyAt(m, table, k, index[k]))
    && (forall k :: Present(m, table, k) ==> k in pending || Arrives(m, k))
  }

  /** Only pending keys may still name a row that nothing arrived for. */
  ghost predicate Retiring<Row>(m: Import<Row>, start: seq<Row>, table: seq<Row>, index: map<string, nat>,
      pending: set<string>) {
    && Unique(m, table) && Final(m, table) == Final(m, start) && Accounted(m, table, index, pending)
    && (forall j :: 0 <= j < |m.arrivals| ==> KeepsArrival(m, table, index, j))
    && (Stable(m, start) ==> table == start)
  }

  lemma RetiringBegins<Row>(m: Import<Row>, start: seq<Row>, table: seq<Row>, index: map<string, nat>)
    requires Underway(m, start, table, index, |m.arrivals|)
    ensures Retiring(m, start, table, index, index.Keys)
  {
    hide Final, Stable, Unique, Present;
    forall j | 0 <= j < |m.arrivals| ensures KeepsArrival(m, table, index, j) {
      assert HasSettledRow(m, table, index, j);
    }
  }

  lemma RetireSkip<Row>(m: Import<Row>, start: seq<Row>, table: seq<Row>, index: map<string, nat>, pending: set<string>,
      k: string)
    requires Retiring(m, start, table, index, pending) && Arrives(m, k)
    ensures Retiring(m, start, table, index, pending - {k})
  {
    hide Final, Stable, Unique, Present, KeepsArrival;
  }

  lemma AccountedAfterRetire<Row>(m: Import<Row>, table: seq<Row>, index: map<string, nat>, pending: set<string>,
      k: string, row: Row)
    requires Accounted(m, table, index, pending) && Unique(m, table) && k in pending && k in index
      && index[k] < |table| && m.key(row).None?
    ensures Accounted(m, table[index[k] := row], index, pending - {k})
  {
    var next := table[index[k] := row];
    assert KeyAt(m, table, k, index[k]);
    forall q | q in pending - {k} ensures q in index && KeyAt(m, next, q, index[q]) {
      assert KeyAt(m, table, q, index[q]);
    }
    forall q | Present(m, next, q) ensures q in pending - {k} || Arrives(m, q) {
      var j :| KeyAt(m, next, q, j);
      assert KeyAt(m, table, q, j);
    }
  }

  lemma RetireRow<Row>(m: Import<Row>, start: seq<Row>, table: seq<Row>, index: map<string, nat>, pending: set<string>,
      k: string, row: Row)
    requires Retiring(m, start, table, index, pending) && k in pending && k in index && index[k] < |table|
      && !Arrives(m, k)
    requires m.settle(row) == m.settle(table[index[k]]) && m.key(row).None? && !Settled(m, table[index[k]])
    ensures !Stable(m, start) && Retiring(m, start, table[index[k] := row], index, pending - {k})
  {
    hide Final, Stable, Unique, Present;
    var i := index[k];
    var next := table[i := row];
    assert KeyAt(m, table, k, i);
    UpdateKeeps(m, table, i, row);
    UniqueAfterUpdate(m, table, i, row);
    AccountedAfterRetire(m, table, index, pending, k, row);
    forall j | 0 <= j < |m.arrivals| ensures KeepsArrival(m, next, index, j) {
      assert KeepsArrival(m, table, index, j);
      assert ArrivalAt(m, m.arrivals[j].0, j);
    }
    if Stable(m, start) { StableSettled(m, start); }
  }

  lemma Retired<Row>(m: Import<Row>, start: seq<Row>, table: seq<Row>, index: map<string, nat>)
    requires Retiring(m, start, table, index, {})
    requires forall i :: 0 <= i < |table| ==> m.key(table[i]).Some? || Settled(m, table[i])
    ensures Stable(m, table) && View(m, table) == Final(m, start)
    ensures forall k :: Present(m, table, k) <==> Arrives(m, k)
  {
    hide Final, View, Settled, Unique;
    forall j | 0 <= j < |m.arrivals| ensures Present(m, table, m.arrivals[j].0) {
      assert KeepsArrival(m, table, index, j);
    }
    forall i | 0 <= i < |table| ensures Settled(m, table[i]) {
      if m.key(table[i]).Some? { KeyedSettled(m, table, index, i); }
    }
    AllDone(m, table);
  }

  lemma KeyedSettled<Row>(m: Import<Row>, table: seq<Row>, index: map<string, nat>, i: nat)
    requires Unique(m, table) && Accounted(m, table, index, {}) && i < |table| && m.key(table[i]).Some?
    requires forall j :: 0 <= j < |m.arrivals| ==> KeepsArrival(m, table, index, j)
    ensures Settled(m, table[i])
  {
    var k := m.key(table[i]).value;
    assert KeyAt(m, table, k, i);
    assert Present(m, table, k);
    var j :| ArrivalAt(m, k, j);
    assert KeepsArrival(m, table, index, j);
  }
}

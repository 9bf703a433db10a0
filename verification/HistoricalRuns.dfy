/** The newest-first page of historical runs, kept in a bounded window (backtest_comparison.go). */
module HistoricalRuns {
  import opened Text
  import opened Uuids
  import opened Paging

  datatype Summary = Summary(timestamp: int, runID: Uuid, details: string)

  /** Newest first; among equal times, the greatest identity first. */
  predicate ComesBefore(left: Summary, right: Summary) {
    if left.timestamp == right.timestamp then Before(Uuids.Print(right.runID), Uuids.Print(left.runID))
    else left.timestamp > right.timestamp
  }

  lemma ComesBeforeTransitive(a: Summary, b: Summary, c: Summary)
    requires ComesBefore(a, b) && ComesBefore(b, c)
    ensures ComesBefore(a, c)
  {
    hide Uuids.Print;
    if a.timestamp == b.timestamp == c.timestamp {
      BeforeTransitive(Uuids.Print(c.runID), Uuids.Print(b.runID), Uuids.Print(a.runID));
    }
  }

  /** Not after is transitive too: the order is total up to equal keys. */
  lemma NotAfterTransitive(a: Summary, b: Summary, c: Summary)
    requires !ComesBefore(b, a) && !ComesBefore(c, b)
    ensures !ComesBefore(c, a)
  {
    hide Uuids.Print;
    var x, y, z := Uuids.Print(a.runID), Uuids.Print(b.runID), Uuids.Print(c.runID);
    if a.timestamp == b.timestamp == c.timestamp && Before(x, z) {
      BeforeTotal(x, y);
      BeforeTotal(y, z);
      if x != y && y != z {
        BeforeTransitive(z, y, x);
        BeforeTransitive(x, z, x);
        BeforeIrreflexive(x);
      }
    }
  }

  // ---------------------------------------------------------------- the simple form: sort everything

  ghost predicate Sorted(xs: seq<Summary>) { forall i, j :: 0 <= i < j < |xs| ==> !ComesBefore(xs[j], xs[i]) }

  function Insert(x: Summary, xs: seq<Summary>): seq<Summary> {
    if xs == [] || ComesBefore(x, xs[0]) then [x] + xs else [xs[0]] + Insert(x, xs[1..])
  }

  /** All runs, newest first; runs that tie keep the order they were read in. */
  function SortAll(xs: seq<Summary>): seq<Summary> {
    if xs == [] then [] else Insert(xs[|xs| - 1], SortAll(xs[..|xs| - 1]))
  }

  lemma {:induction false} InsertPermutes(x: Summary, xs: seq<Summary>)
    ensures multiset(Insert(x, xs)) == multiset{x} + multiset(xs) && |Insert(x, xs)| == |xs| + 1
  {
    hide ComesBefore;
    if !(xs == [] || ComesBefore(x, xs[0])) {
      InsertPermutes(x, xs[1..]);
      assert xs == [xs[0]] + xs[1..];
    }
  }

  lemma {:induction false} InsertSorted(x: Summary, xs: seq<Summary>)
    requires Sorted(xs)
    ensures Sorted(Insert(x, xs))
  {
    hide ComesBefore;
    if xs == [] {
    } else if ComesBefore(x, xs[0]) {
      forall j | 0 <= j < |xs| ensures !ComesBefore(xs[j], x) { HeadFirst(x, xs, j); }
    } else {
      InsertSorted(x, xs[1..]);
      InsertPermutes(x, xs[1..]);
      var t := Insert(x, xs[1..]);
      forall j | 0 <= j < |t| ensures !ComesBefore(t[j], xs[0]) {
        assert t[j] in multiset(t);
        if t[j] != x { assert t[j] in multiset(xs[1..]); }
      }
    }
  }

  lemma HeadFirst(x: Summary, xs: seq<Summary>, j: nat)
    requires Sorted(xs) && j < |xs| && ComesBefore(x, xs[0])
    ensures !ComesBefore(xs[j], x)
  {
    hide ComesBefore;
    NotItself(xs[0]);
    if ComesBefore(xs[j], x) { ComesBeforeTransitive(xs[j], x, xs[0]); }
  }

  lemma NotItself(x: Summary)
    ensures !ComesBefore(x, x)
  {
    BeforeIrreflexive(Uuids.Print(x.runID));
  }

  /** Sorting yields a sorted permutation. */
  lemma {:induction false} SortAllSorts(xs: seq<Summary>)
    ensures Sorted(SortAll(xs)) && multiset(SortAll(xs)) == multiset(xs) && |SortAll(xs)| == |xs|
  {
    if xs != [] {
      var n := |xs| - 1;
      SortAllSorts(xs[..n]);
      InsertSorted(xs[n], SortAll(xs[..n]));
      InsertPermutes(xs[n], SortAll(xs[..n]));
      assert xs == xs[..n] + [xs[n]];
    }
  }

  // ---------------------------------------------------------------- the fast form: a bounded window

  function Take(xs: seq<Summary>, n: nat): seq<Summary> { if |xs| <= n then xs else xs[..n] }

  /** What falls off a bounded window can never come back. */
  lemma {:induction false} TakeInsert(x: Summary, xs: seq<Summary>, n: nat)
    ensures Take(Insert(x, Take(xs, n)), n) == Take(Insert(x, xs), n)
    decreases n
  {
    hide ComesBefore;
    InsertPermutes(x, xs);
    InsertPermutes(x, Take(xs, n));
    if n > 0 && xs != [] {
      assert Take(xs, n)[0] == xs[0] && Take(xs, n)[1..] == Take(xs[1..], n - 1);
      if ComesBefore(x, xs[0]) {
        TakeCons(x, xs, n);
        TakeCons(x, Take(xs, n), n);
      } else {
        TakeInsert(x, xs[1..], n - 1);
        var a, b := Insert(x, Take(xs[1..], n - 1)), Insert(x, xs[1..]);
        TakeCons(xs[0], a, n);
        TakeCons(xs[0], b, n);
      }
    }
  }

  lemma TakeCons(x: Summary, xs: seq<Summary>, n: nat)
    requires n > 0
    ensures Take([x] + xs, n) == [x] + Take(xs, n - 1)
  {
  }

  lemma {:induction false} InsertAt(x: Summary, xs: seq<Summary>, k: nat)
    requires k <= |xs| && (forall i :: 0 <= i < k ==> !ComesBefore(x, xs[i])) && (k < |xs| ==> ComesBefore(x, xs[k]))
    ensures Insert(x, xs) == xs[..k] + [x] + xs[k..]
  {
    hide ComesBefore;
    if k > 0 {
      InsertAt(x, xs[1..], k - 1);
      assert xs[..k] == [xs[0]] + xs[1..][..k - 1] && xs[k..] == xs[1..][k - 1..];
    }
  }

  /** sort.Search on a sorted window: the first place whose run the new one comes before. */
  method Search(x: Summary, window: seq<Summary>) returns (k: nat)
    requires Sorted(window)
    ensures k <= |window| && (forall i :: 0 <= i < k ==> !ComesBefore(x, window[i]))
      && (k < |window| ==> ComesBefore(x, window[k]))
  {
    hide ComesBefore;
    var low, high := 0, |window|;
    while low < high
      invariant 0 <= low <= high <= |window|
      invariant forall i :: 0 <= i < low ==> !ComesBefore(x, window[i])
      invariant high < |window| ==> ComesBefore(x, window[high])
    {
      var mid := (low + high) / 2;
      if ComesBefore(x, window[mid]) {
        high := mid;
      } else {
        forall i | 0 <= i < mid ensures !ComesBefore(x, window[i]) { EarlierToo(x, window, i, mid); }
        low := mid + 1;
      }
    }
    k := low;
  }

  lemma EarlierToo(x: Summary, window: seq<Summary>, i: nat, mid: nat)
    requires Sorted(window) && i < mid < |window| && !ComesBefore(x, window[mid])
    ensures !ComesBefore(x, window[i])
  {
    hide ComesBefore;
    assert !ComesBefore(window[mid], window[i]);
    NotAfterTransitive(window[i], window[mid], x);
  }

  /** appendHistoricalRunWindow */
  method AppendToWindow(window: seq<Summary>, x: Summary, size: int) returns (r: seq<Summary>)
    requires Sorted(window)
    requires 0 < size ==> |window| <= size
    ensures size <= 0 ==> r == window
    ensures 0 < size ==> r == Take(Insert(x, window), size)
  {
    hide ComesBefore;
    if size <= 0 { return window; }
    var k := Search(x, window);
    InsertAt(x, window, k);
    if |window| == size && k >= |window| {
      assert (window + [x])[..size] == window;
      return window;
    }
    // grow by one, shift the tail right, write the gap
    r := window + [x];
    r := r[..k] + [x] + window[k..];
    if |r| > size { r := r[..size]; }
  }

  // ---------------------------------------------------------------- the query

  datatype Query = Query(runAfter: Option<int>, runBefore: Option<int>, limit: int, offset: int)

  const DEFAULT_LIMIT: int := 50
  const PAGE_SIZE: nat := 100
  const MAX_WINDOW: int := 10_000

  function NormalizeQuery(q: Query): (r: Option<(int, int)>)
    ensures r.Some? ==> r.value.0 > 0 && r.value.1 >= 0 && r.value.0 + r.value.1 <= MAX_WINDOW
    ensures r.Some? ==> r.value.1 == q.offset
    ensures r.Some? ==> (q.limit != 0 ==> r.value.0 == q.limit) && (q.limit == 0 ==> r.value.0 == DEFAULT_LIMIT)
    ensures r.None? <==>
      || (q.runAfter.Some? && q.runBefore.Some? && q.runBefore.value < q.runAfter.value)
      || q.offset < 0 || q.limit < 0 || q.offset + (if q.limit == 0 then DEFAULT_LIMIT else q.limit) > MAX_WINDOW
  {
    if q.runAfter.Some? && q.runBefore.Some? && q.runBefore.value < q.runAfter.value then None
    else if q.offset < 0 then None
    else
      var limit := if q.limit == 0 then DEFAULT_LIMIT else q.limit;
      if limit < 0 || q.offset > MAX_WINDOW - limit then None else Some((limit, q.offset))
  }

  datatype Response = Response(runs: seq<Summary>, total: nat)

  /** The matching runs of all configurations in the order they are read; a run that cannot be summarised is None. */
  function AllRows(configs: seq<seq<Option<Summary>>>): seq<Option<Summary>> {
    if configs == [] then [] else AllRows(configs[..|configs| - 1]) + configs[|configs| - 1]
  }

  function Summaries(rows: seq<Option<Summary>>): seq<Summary>
    requires forall i :: 0 <= i < |rows| ==> rows[i].Some?
  {
    seq(|rows|, i requires 0 <= i < |rows| => rows[i].value)
  }

  lemma SortNext(read: seq<Summary>, x: Summary, size: nat)
    ensures Take(Insert(x, Take(SortAll(read), size)), size) == Take(SortAll(read + [x]), size)
  {
    TakeInsert(x, SortAll(read), size);
    assert (read + [x])[..|read|] == read;
  }

  lemma WindowSorted(read: seq<Summary>, size: nat)
    ensures Sorted(Take(SortAll(read), size))
  {
    SortAllSorts(read);
  }

  lemma SummariesNext(rows: seq<Option<Summary>>, n: nat)
    requires n < |rows| && forall i :: 0 <= i <= n ==> rows[i].Some?
    ensures Summaries(rows[..n + 1]) == Summaries(rows[..n]) + [rows[n].value]
  {
  }

  /** The first n runs have been fed: they are all readable, counted, and in the window of the sorted whole. */
  ghost predicate Fed(rows: seq<Option<Summary>>, n: nat, read: seq<Summary>, total: nat, size: nat, all: seq<Summary>,
      count: nat, window: seq<Summary>) {
    && n <= |rows| && (forall i :: 0 <= i < n ==> rows[i].Some?)
    && all == read + Summaries(rows[..n]) && count == total + n && window == Take(SortAll(all), size)
  }

  lemma FedNext(rows: seq<Option<Summary>>, n: nat, read: seq<Summary>, total: nat, size: nat, all: seq<Summary>,
      count: nat, window: seq<Summary>)
    requires Fed(rows, n, read, total, size, all, count, window) && n < |rows| && rows[n].Some?
    ensures Sorted(window) && |window| <= size
    ensures Fed(rows, n + 1, read, total, size, all + [rows[n].value], count + 1,
      Take(Insert(rows[n].value, window), size))
  {
    hide SortAll, Take, Insert, Sorted, ComesBefore;
    WindowSorted(all, size);
    TakeAtMost(SortAll(all), size);
    SortNext(all, rows[n].value, size);
    SummariesNext(rows, n);
    assert read + Summaries(rows[..n]) + [rows[n].value] == read + (Summaries(rows[..n]) + [rows[n].value]);
  }

  lemma FedBegins(rows: seq<Option<Summary>>, read: seq<Summary>, total: nat, size: nat, window: seq<Summary>)
    requires window == Take(SortAll(read), size)
    ensures Fed(rows, 0, read, total, size, read, total, window)
  {
    hide SortAll, Take;
    assert Summaries(rows[..0]) == [];
    assert read + [] == read;
  }

  lemma FedAll(rows: seq<Option<Summary>>, read: seq<Summary>, total: nat, size: nat, all: seq<Summary>, count: nat,
      window: seq<Summary>)
    requires Fed(rows, |rows|, read, total, size, all, count, window)
    ensures (forall i :: 0 <= i < |rows| ==> rows[i].Some?) && count == total + |rows|
    ensures all == read + Summaries(rows) && window == Take(SortAll(all), size)
  {
    hide SortAll, Take;
    assert rows[..|rows|] == rows;
  }

  /** Feed one configuration's runs, page by page, whatever the page size. */
  method FeedConfig(rows: seq<Option<Summary>>, pageSize: nat, window: seq<Summary>, total: nat, size: int,
      ghost read: seq<Summary>)
    returns (r: Option<seq<Summary>>, count: nat, ghost all: seq<Summary>)
    requires pageSize > 0 && size > 0 && window == Take(SortAll(read), size)
    ensures r.Some? <==> forall i :: 0 <= i < |rows| ==> rows[i].Some?
    ensures r.Some? ==> count == total + |rows| && all == read + Summaries(rows) && r.value == Take(SortAll(all), size)
  {
    hide SortAll, Take, Insert, Sorted, ComesBefore, Fed, Summaries;
    var current := window;
    count, all := total, read;
    FedBegins(rows, read, total, size, window);
    var offset: nat := 0;
    while true
      invariant offset <= |rows| && Fed(rows, offset, read, total, size, all, count, current)
      decreases |rows| - offset
    {
      var page := Page(rows, pageSize, offset);
      for i := 0 to |page|
        invariant Fed(rows, offset + i, read, total, size, all, count, current)
      {
        assert page[i] == rows[offset + i];
        if page[i].None? { return None, count, all; }
        FedNext(rows, offset + i, read, total, size, all, count, current);
        current := AppendToWindow(current, page[i].value, size);
        count, all := count + 1, all + [page[i].value];
      }
      if |page| < pageSize {
        FedAll(rows, read, total, size, all, count, current);
        return Some(current), count, all;
      }
      offset := offset + |page|;
    }
  }

  lemma TakeAtMost(xs: seq<Summary>, n: nat)
    ensures |Take(xs, n)| <= n
  {
  }

  /** QueryHistoricalRuns: the page of the sorted whole, and the exact total. */
  method QueryRuns(q: Query, configs: seq<seq<Option<Summary>>>) returns (r: Option<Response>)
    ensures r.Some? <==> NormalizeQuery(q).Some? && forall i :: 0 <= i < |AllRows(configs)| ==>
      AllRows(configs)[i].Some?
    ensures r.Some? ==>
      var (limit, offset) := NormalizeQuery(q).value;
      var all := Summaries(AllRows(configs));
      r.value == Response(Page(SortAll(all), limit, offset), |all|)
  {
    hide SortAll, NormalizeQuery;
    var normalized := NormalizeQuery(q);
    if normalized.None? { return None; }
    var limit, offset := normalized.value.0, normalized.value.1;
    var size := limit + offset;
    var window: seq<Summary>, total: nat := [], 0;
    ghost var all: seq<Summary> := [];
    NothingRead(size);
    for i := 0 to |configs|
      invariant forall j :: 0 <= j < |AllRows(configs[..i])| ==> AllRows(configs[..i])[j].Some?
      invariant all == Summaries(AllRows(configs[..i])) && total == |all| && window == Take(SortAll(all), size)
    {
      assert configs[..i + 1][..i] == configs[..i];
      var fed, count;
      ghost var more;
      fed, count, more := FeedConfig(configs[i], PAGE_SIZE, window, total, size, all);
      if fed.None? {
        UnreadableRow(configs, i);
        return None;
      }
      assert Summaries(AllRows(configs[..i + 1])) == all + Summaries(configs[i]);
      window, total, all := fed.value, count, more;
    }
    assert configs[..|configs|] == configs;
    PageOfWindow(SortAll(all), limit, offset);
    r := Some(Response(Page(window, limit, offset), total));
  }

  lemma NothingRead(size: nat)
    ensures Take(SortAll([]), size) == []
  {
  }

  lemma {:induction false} UnreadableRow(configs: seq<seq<Option<Summary>>>, i: nat)
    requires i < |configs| && exists j :: 0 <= j < |configs[i]| && configs[i][j].None?
    ensures exists j :: 0 <= j < |AllRows(configs)| && AllRows(configs)[j].None?
  {
    var n := |configs| - 1;
    if i < n {
      UnreadableRow(configs[..n], i);
      var j :| 0 <= j < |AllRows(configs[..n])| && AllRows(configs[..n])[j].None?;
      assert AllRows(configs)[j].None?;
    } else {
      var j :| 0 <= j < |configs[i]| && configs[i][j].None?;
      assert AllRows(configs)[|AllRows(configs[..n])| + j].None?;
    }
  }

  lemma PageOfWindow(xs: seq<Summary>, limit: int, offset: int)
    requires limit > 0 && offset >= 0
    ensures Page(Take(xs, limit + offset), limit, offset) == Page(xs, limit, offset)
  {
  }

  ghost predicate StrictlyOrdered(xs: seq<Summary>) { forall i, j :: 0 <= i < j < |xs| ==> ComesBefore(xs[i], xs[j]) }

  /** With distinct keys there is only one sorted arrangement, so the page does not depend on the order of reading. */
  lemma {:induction false} SortedWholeUnique(xs: seq<Summary>, ys: seq<Summary>)
    requires StrictlyOrdered(xs) && Sorted(ys) && multiset(xs) == multiset(ys)
    ensures xs == ys
  {
    hide StrictlyOrdered, Sorted;
    MultisetMembers(xs, ys);
    if xs != [] {
      SameHead(xs, ys);
      TailsOrdered(xs, ys);
      SameTails(xs, ys);
      SortedWholeUnique(xs[1..], ys[1..]);
      assert xs == [xs[0]] + xs[1..] && ys == [ys[0]] + ys[1..];
    }
  }

  lemma TailsOrdered(xs: seq<Summary>, ys: seq<Summary>)
    requires StrictlyOrdered(xs) && Sorted(ys) && xs != [] && ys != []
    ensures StrictlyOrdered(xs[1..]) && Sorted(ys[1..])
  {
    hide ComesBefore;
  }

  lemma SameHead(xs: seq<Summary>, ys: seq<Summary>)
    requires StrictlyOrdered(xs) && Sorted(ys) && multiset(xs) == multiset(ys) && |xs| == |ys| > 0
    ensures xs[0] == ys[0]
  {
    hide ComesBefore;
    assert ys[0] in multiset(xs) && xs[0] in multiset(ys);
    var k :| 0 <= k < |xs| && xs[k] == ys[0];
    var m :| 0 <= m < |ys| && ys[m] == xs[0];
    assert m > 0 ==> !ComesBefore(ys[m], ys[0]);
    assert k > 0 ==> ComesBefore(xs[0], xs[k]);
  }

  function RunKey(s: Summary): string { Uuids.Print(s.runID) }

  lemma DistinctStrict(xs: seq<Summary>)
    requires Sorted(xs) && DistinctKeys(xs, RunKey)
    ensures StrictlyOrdered(xs)
  {
    hide Uuids.Print, Before;
    forall i, j | 0 <= i < j < |xs| ensures ComesBefore(xs[i], xs[j]) {
      assert RunKey(xs[i]) != RunKey(xs[j]);
      BeforeTotal(RunKey(xs[i]), RunKey(xs[j]));
      assert !ComesBefore(xs[j], xs[i]);
    }
  }

  /** With one run per identity, the order in which runs are read never shows in a page. */
  lemma ReadingOrderIrrelevant(xs: seq<Summary>, ys: seq<Summary>)
    requires multiset(xs) == multiset(ys) && DistinctKeys(xs, RunKey)
    ensures SortAll(xs) == SortAll(ys)
  {
    hide SortAll, Sorted, StrictlyOrdered, DistinctKeys;
    SortAllSorts(xs);
    SortAllSorts(ys);
    DistinctPermutes(xs, SortAll(xs), RunKey);
    DistinctStrict(SortAll(xs));
    SortedWholeUnique(SortAll(xs), SortAll(ys));
  }
}

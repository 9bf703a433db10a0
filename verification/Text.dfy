/** Go strings as sequences of Unicode characters: byte length, trimming, the
    order Go's `<` gives, and lists sorted by a string key. */
module Text {

  datatype Option<+T> = None | Some(value: T)

  /** White space as Go's unicode.IsSpace defines it. */
  predicate IsSpace(c: char) {
    || c in "\t\n\r \U{0B}\U{0C}\U{85}\U{A0}\U{1680}\U{2028}\U{2029}\U{202F}\U{205F}\U{3000}"
    || '\U{2000}' <= c <= '\U{200A}'
  }

  function TrimLeft(s: string): string {
    if s != [] && IsSpace(s[0]) then TrimLeft(s[1..]) else s
  }

  function TrimRight(s: string): string {
    if s != [] && IsSpace(s[|s| - 1]) then TrimRight(s[..|s| - 1]) else s
  }

  /** strings.TrimSpace */
  function TrimSpace(s: string): string {
    TrimRight(TrimLeft(s))
  }

  /** Number of UTF-8 bytes, which is what Go's len counts. */
  function ByteLength(s: string): nat {
    if s == [] then 0
    else
      var w := if s[0] < '\U{80}' then 1 else if s[0] < '\U{800}' then 2 else if s[0] < '\U{10000}' then 3 else 4;
      w + ByteLength(s[1..])
  }

  /** The strict order of Go strings. On well-formed UTF-8, byte order is code point order. */
  predicate Before(a: string, b: string) {
    b != [] && (a == [] || a[0] < b[0] || (a[0] == b[0] && Before(a[1..], b[1..])))
  }

  lemma BeforeIrreflexive(a: string)
    ensures !Before(a, a)
  {
  }

  lemma {:induction false} BeforeTransitive(a: string, b: string, c: string)
    requires Before(a, b) && Before(b, c)
    ensures Before(a, c)
  {
    if a != [] && a[0] == b[0] && b[0] == c[0] {
      BeforeTransitive(a[1..], b[1..], c[1..]);
    }
  }

  lemma {:induction false} BeforeTotal(a: string, b: string)
    ensures a == b || Before(a, b) || Before(b, a)
  {
    if a != [] && b != [] && a[0] == b[0] {
      BeforeTotal(a[1..], b[1..]);
      assert a == [a[0]] + a[1..] && b == [b[0]] + b[1..];
    }
  }

  // ---------------------------------------------------------------- sorted lists

  ghost predicate StrictlySorted<T>(xs: seq<T>, key: T -> string) {
    forall i, j :: 0 <= i < j < |xs| ==> Before(key(xs[i]), key(xs[j]))
  }

  predicate DistinctKeys<T>(xs: seq<T>, key: T -> string) {
    forall i, j :: 0 <= i < j < |xs| ==> key(xs[i]) != key(xs[j])
  }

  function Insert<T>(x: T, xs: seq<T>, key: T -> string): seq<T> {
    if xs == [] || Before(key(x), key(xs[0])) then [x] + xs
    else [xs[0]] + Insert(x, xs[1..], key)
  }

  /** sort.Slice by a string key. For distinct keys every correct sort returns this list (SortUnique). */
  function SortBy<T>(xs: seq<T>, key: T -> string): seq<T> {
    if xs == [] then [] else Insert(xs[0], SortBy(xs[1..], key), key)
  }

  lemma {:induction false} InsertMultiset<T>(x: T, xs: seq<T>, key: T -> string)
    ensures multiset(Insert(x, xs, key)) == multiset{x} + multiset(xs)
  {
    if !(xs == [] || Before(key(x), key(xs[0]))) {
      InsertMultiset(x, xs[1..], key);
      assert xs == [xs[0]] + xs[1..];
    }
  }

  lemma {:induction false} SortMultiset<T>(xs: seq<T>, key: T -> string)
    ensures multiset(SortBy(xs, key)) == multiset(xs)
    ensures |SortBy(xs, key)| == |xs|
    ensures forall x :: x in SortBy(xs, key) <==> x in xs
  {
    if xs != [] {
      SortMultiset(xs[1..], key);
      InsertMultiset(xs[0], SortBy(xs[1..], key), key);
      assert xs == [xs[0]] + xs[1..];
    }
    MultisetMembers(SortBy(xs, key), xs);
  }

  lemma SameTails<T>(xs: seq<T>, ys: seq<T>)
    requires xs != [] && ys != [] && xs[0] == ys[0] && multiset(xs) == multiset(ys)
    ensures multiset(xs[1..]) == multiset(ys[1..])
  {
    assert xs == [xs[0]] + xs[1..] && ys == [ys[0]] + ys[1..];
    assert multiset(xs[1..]) == multiset(xs) - multiset{xs[0]};
    assert multiset(ys[1..]) == multiset(ys) - multiset{ys[0]};
  }

  lemma MultisetMembers<T>(xs: seq<T>, ys: seq<T>)
    requires multiset(xs) == multiset(ys)
    ensures |xs| == |ys|
    ensures forall x :: x in xs <==> x in ys
  {
    assert |multiset(xs)| == |multiset(ys)|;
    forall x ensures x in xs <==> x in ys {
      assert x in xs <==> x in multiset(xs);
      assert x in ys <==> x in multiset(ys);
    }
  }

  lemma {:induction false} InsertSorted<T>(x: T, xs: seq<T>, key: T -> string)
    requires StrictlySorted(xs, key)
    requires forall y :: y in xs ==> key(y) != key(x)
    ensures StrictlySorted(Insert(x, xs, key), key)
  {
    var r := Insert(x, xs, key);
    if xs == [] {
    } else if Before(key(x), key(xs[0])) {
      forall j | 0 < j < |xs| ensures Before(key(x), key(xs[j])) {
        BeforeTransitive(key(x), key(xs[0]), key(xs[j]));
      }
    } else {
      BeforeTotal(key(x), key(xs[0]));
      InsertSorted(x, xs[1..], key);
      InsertMultiset(x, xs[1..], key);
      var t := Insert(x, xs[1..], key);
      forall j | 0 <= j < |t| ensures Before(key(xs[0]), key(t[j])) {
        assert t[j] in multiset(t);
        if t[j] != x {
          assert t[j] in multiset(xs[1..]);
        }
      }
    }
  }

  lemma {:induction false} SortSorted<T>(xs: seq<T>, key: T -> string)
    requires DistinctKeys(xs, key)
    ensures StrictlySorted(SortBy(xs, key), key)
  {
    if xs != [] {
      var t := SortBy(xs[1..], key);
      SortSorted(xs[1..], key);
      SortMultiset(xs[1..], key);
      forall y | y in t ensures key(y) != key(xs[0]) {
        assert y in multiset(t) && y in multiset(xs[1..]);
        var j :| 0 <= j < |xs[1..]| && xs[1..][j] == y;
        assert key(xs[0]) != key(xs[j + 1]);
      }
      InsertSorted(xs[0], t, key);
    }
  }

  /** A strictly sorted list is determined by its members. */
  /** Keys never go down; equal keys may stand in any order. */
  ghost predicate Ascends<T>(xs: seq<T>, key: T -> string) {
    forall i, j :: 0 <= i < j < |xs| ==> !Before(key(xs[j]), key(xs[i]))
  }

  lemma LaterNotBefore<T>(x: T, xs: seq<T>, key: T -> string, j: nat)
    requires Ascends(xs, key) && j < |xs| && Before(key(x), key(xs[0]))
    ensures !Before(key(xs[j]), key(x))
  {
    hide Before;
    BeforeIrreflexive(key(xs[0]));
    if Before(key(xs[j]), key(x)) { BeforeTransitive(key(xs[j]), key(x), key(xs[0])); }
  }

  lemma {:induction false} InsertAscends<T>(x: T, xs: seq<T>, key: T -> string)
    requires Ascends(xs, key)
    ensures Ascends(Insert(x, xs, key), key)
  {
    hide Before;
    if xs == [] {
    } else if Before(key(x), key(xs[0])) {
      forall j | 0 <= j < |xs| ensures !Before(key(xs[j]), key(x)) { LaterNotBefore(x, xs, key, j); }
    } else {
      var u := Insert(x, xs[1..], key);
      InsertAscends(x, xs[1..], key);
      InsertMultiset(x, xs[1..], key);
      forall j | 0 <= j < |u| ensures !Before(key(u[j]), key(xs[0])) {
        assert u[j] in multiset(u);
        if u[j] != x { assert u[j] in multiset(xs[1..]); }
      }
    }
  }

  /** Sorting orders any list. */
  lemma {:induction false} SortAscends<T>(xs: seq<T>, key: T -> string)
    ensures Ascends(SortBy(xs, key), key)
  {
    hide Before;
    if xs != [] {
      SortAscends(xs[1..], key);
      InsertAscends(xs[0], SortBy(xs[1..], key), key);
    }
  }

  /** Among equal keys, sorting puts the last of the list first. */
  lemma {:induction false} SortLastFirst<T>(xs: seq<T>, key: T -> string)
    requires xs != [] && forall i, j :: 0 <= i < |xs| && 0 <= j < |xs| ==> key(xs[i]) == key(xs[j])
    ensures |SortBy(xs, key)| == |xs| && SortBy(xs, key)[0] == xs[|xs| - 1]
  {
    hide Before;
    SortMultiset(xs, key);
    MultisetMembers(SortBy(xs, key), xs);
    if |xs| > 1 {
      SortLastFirst(xs[1..], key);
      BeforeIrreflexive(key(xs[0]));
      assert key(xs[|xs| - 1]) == key(xs[0]);
    }
  }

  lemma {:induction false} SortedUnique<T>(xs: seq<T>, ys: seq<T>, key: T -> string)
    requires StrictlySorted(xs, key) && StrictlySorted(ys, key)
    requires forall x :: x in xs <==> x in ys
    ensures xs == ys
  {
    assert xs != [] ==> xs[0] in ys;
    assert ys != [] ==> ys[0] in xs;
    if xs != [] && ys != [] {
      var i :| 0 <= i < |xs| && xs[i] == ys[0];
      var j :| 0 <= j < |ys| && ys[j] == xs[0];
      if i > 0 && j > 0 {
        BeforeTransitive(key(xs[0]), key(ys[0]), key(xs[0]));
        BeforeIrreflexive(key(xs[0]));
      }
      assert xs[0] == ys[0];
      HeadOnce(xs, key);
      HeadOnce(ys, key);
      assert xs == [xs[0]] + xs[1..] && ys == [ys[0]] + ys[1..];
      forall x ensures x in xs[1..] <==> x in ys[1..] {
        assert x in xs <==> x == xs[0] || x in xs[1..];
        assert x in ys <==> x == ys[0] || x in ys[1..];
      }
      SortedUnique(xs[1..], ys[1..], key);
    }
  }

  lemma HeadOnce<T>(xs: seq<T>, key: T -> string)
    requires StrictlySorted(xs, key) && xs != []
    ensures xs[0] !in xs[1..]
  {
    if xs[0] in xs[1..] {
      var j :| 0 <= j < |xs[1..]| && xs[1..][j] == xs[0];
      assert Before(key(xs[0]), key(xs[j + 1]));
      BeforeIrreflexive(key(xs[0]));
    }
  }

  lemma StrictlySortedDistinct<T>(xs: seq<T>, key: T -> string)
    requires StrictlySorted(xs, key)
    ensures DistinctKeys(xs, key)
  {
    forall i, j | 0 <= i < j < |xs| ensures key(xs[i]) != key(xs[j]) {
      assert Before(key(xs[i]), key(xs[j]));
      BeforeIrreflexive(key(xs[i]));
    }
  }

  /** Lists without repeated keys and with the same members are permutations of each other. */
  lemma DistinctSameMembers<T>(xs: seq<T>, ys: seq<T>, key: T -> string)
    requires DistinctKeys(xs, key) && DistinctKeys(ys, key)
    requires forall x :: x in multiset(xs) <==> x in multiset(ys)
    ensures multiset(xs) == multiset(ys)
  {
    SortSorted(xs, key);
    SortSorted(ys, key);
    SortMultiset(xs, key);
    SortMultiset(ys, key);
    var a, b := SortBy(xs, key), SortBy(ys, key);
    hide SortBy;
    forall x ensures x in a <==> x in b {
      assert x in a <==> x in multiset(a);
      assert x in b <==> x in multiset(b);
    }
    SortedUnique(a, b, key);
  }

  /** Any permutation of a list with distinct keys sorts to the same list. */
  lemma SortUnique<T>(xs: seq<T>, ys: seq<T>, key: T -> string)
    requires DistinctKeys(xs, key)
    requires multiset(xs) == multiset(ys)
    ensures DistinctKeys(ys, key)
    ensures SortBy(xs, key) == SortBy(ys, key)
  {
    DistinctPermutes(xs, ys, key);
    SortSorted(xs, key);
    SortSorted(ys, key);
    SortMultiset(xs, key);
    SortMultiset(ys, key);
    MultisetMembers(xs, ys);
    SortedUnique(SortBy(xs, key), SortBy(ys, key), key);
  }

  ghost function KeySet<T>(xs: seq<T>, key: T -> string): (s: set<string>) {
    set i | 0 <= i < |xs| :: key(xs[i])
  }

  lemma {:induction false} KeySetSize<T>(xs: seq<T>, key: T -> string)
    ensures |KeySet(xs, key)| <= |xs|
    ensures DistinctKeys(xs, key) <==> |KeySet(xs, key)| == |xs|
  {
    if xs != [] {
      var last := |xs| - 1;
      var front := xs[..last];
      KeySetSize(front, key);
      assert KeySet(xs, key) == KeySet(front, key) + {key(xs[last])};
      if key(xs[last]) in KeySet(front, key) {
        assert KeySet(xs, key) == KeySet(front, key);
        var i :| 0 <= i < |front| && key(front[i]) == key(xs[last]);
        assert key(xs[i]) == key(xs[last]);
      } else {
        forall i | 0 <= i < last ensures key(xs[i]) != key(xs[last]) {
          assert front[i] == xs[i];
        }
        if DistinctKeys(front, key) {
          forall i, j | 0 <= i < j < |xs| ensures key(xs[i]) != key(xs[j]) {
            if j < last { assert front[i] == xs[i] && front[j] == xs[j]; }
          }
        }
        if DistinctKeys(xs, key) {
          assert DistinctKeys(front, key);
        }
      }
    }
  }

  lemma DistinctPermutes<T>(xs: seq<T>, ys: seq<T>, key: T -> string)
    requires multiset(xs) == multiset(ys)
    ensures DistinctKeys(xs, key) <==> DistinctKeys(ys, key)
  {
    MultisetMembers(xs, ys);
    forall s ensures s in KeySet(xs, key) <==> s in KeySet(ys, key) {
      if s in KeySet(xs, key) {
        var i :| 0 <= i < |xs| && key(xs[i]) == s;
        assert xs[i] in ys;
      }
      if s in KeySet(ys, key) {
        var i :| 0 <= i < |ys| && key(ys[i]) == s;
        assert ys[i] in xs;
      }
    }
    assert KeySet(xs, key) == KeySet(ys, key);
    KeySetSize(xs, key);
    KeySetSize(ys, key);
  }

  /** Extending a list keeps its keys distinct exactly when the new key is new. */
  lemma DistinctSnoc<T>(xs: seq<T>, i: nat, key: T -> string)
    requires i < |xs|
    ensures KeySet(xs[..i + 1], key) == KeySet(xs[..i], key) + {key(xs[i])}
    ensures DistinctKeys(xs[..i + 1], key) <==> DistinctKeys(xs[..i], key) && key(xs[i]) !in KeySet(xs[..i], key)
    ensures DistinctKeys(xs, key) ==> DistinctKeys(xs[..i + 1], key)
  {
    var a, b := xs[..i], xs[..i + 1];
    forall s ensures s in KeySet(b, key) <==> s in KeySet(a, key) + {key(xs[i])} {
      if s in KeySet(a, key) {
        var j :| 0 <= j < |a| && key(a[j]) == s;
        assert b[j] == a[j];
      }
      if s in KeySet(b, key) {
        var j :| 0 <= j < |b| && key(b[j]) == s;
        if j < i { assert a[j] == b[j]; }
      }
      assert b[i] == xs[i];
    }
    if DistinctKeys(b, key) {
      forall j, k | 0 <= j < k < |a| ensures key(a[j]) != key(a[k]) { assert a[j] == b[j] && a[k] == b[k]; }
      forall j | 0 <= j < |a| ensures key(a[j]) != key(xs[i]) { assert b[j] == a[j] && b[i] == xs[i]; }
    }
    if DistinctKeys(a, key) && key(xs[i]) !in KeySet(a, key) {
      forall j, k | 0 <= j < k < |b| ensures key(b[j]) != key(b[k]) {
        if k < i { assert a[j] == b[j] && a[k] == b[k]; } else { assert a[j] == b[j]; }
      }
    }
  }

  lemma KeySetMember<T>(xs: seq<T>, key: T -> string, x: T)
    requires x in xs
    ensures key(x) in KeySet(xs, key)
  {
    var i :| 0 <= i < |xs| && xs[i] == x;
  }

  /** The map Go builds from a list by key; a later entry replaces an earlier one. */
  function IndexBy<T>(xs: seq<T>, key: T -> string): (m: map<string, T>) {
    if xs == [] then map[] else IndexBy(xs[..|xs| - 1], key)[key(xs[|xs| - 1]) := xs[|xs| - 1]]
  }

  lemma {:induction false} IndexKeys<T>(xs: seq<T>, key: T -> string)
    ensures IndexBy(xs, key).Keys == KeySet(xs, key)
    ensures forall k :: k in IndexBy(xs, key) ==> IndexBy(xs, key)[k] in xs && key(IndexBy(xs, key)[k]) == k
  {
    if xs != [] {
      var n := |xs| - 1;
      IndexKeys(xs[..n], key);
      DistinctSnoc(xs, n, key);
      assert xs[..n + 1] == xs;
      var prior := IndexBy(xs[..n], key);
      forall k | k in IndexBy(xs, key) ensures IndexBy(xs, key)[k] in xs && key(IndexBy(xs, key)[k]) == k {
        if k != key(xs[n]) { assert prior[k] in xs[..n]; }
      }
    }
  }

  lemma IndexFinds<T>(xs: seq<T>, key: T -> string, x: T)
    requires DistinctKeys(xs, key) && x in xs
    ensures key(x) in IndexBy(xs, key) && IndexBy(xs, key)[key(x)] == x
  {
    IndexKeys(xs, key);
    KeySetMember(xs, key, x);
    var y := IndexBy(xs, key)[key(x)];
    var i :| 0 <= i < |xs| && xs[i] == x;
    var j :| 0 <= j < |xs| && xs[j] == y;
    assert !(i < j) && !(j < i);
  }

  lemma IndexPermutes<T>(xs: seq<T>, ys: seq<T>, key: T -> string)
    requires DistinctKeys(xs, key) && multiset(xs) == multiset(ys)
    ensures IndexBy(xs, key) == IndexBy(ys, key)
  {
    DistinctPermutes(xs, ys, key);
    IndexKeys(xs, key);
    IndexKeys(ys, key);
    var a, b := IndexBy(xs, key), IndexBy(ys, key);
    forall k | k in a ensures k in b && b[k] == a[k] {
      assert a[k] in multiset(ys);
      IndexFinds(ys, key, a[k]);
    }
    forall k | k in b ensures k in a {
      assert b[k] in multiset(xs);
      IndexFinds(xs, key, b[k]);
    }
  }

  function Lookup<T>(m: map<string, T>, k: string): Option<T> { if k in m then Some(m[k]) else None }

  function Map<A, B>(f: A -> B, xs: seq<A>): (ys: seq<B>)
    ensures |ys| == |xs| && forall i :: 0 <= i < |xs| ==> ys[i] == f(xs[i])
  {
    seq(|xs|, i requires 0 <= i < |xs| => f(xs[i]))
  }

  // ---------------------------------------------------------------- sorted sets

  lemma {:induction false} LeastExists(s: set<string>)
    requires s != {}
    ensures exists k :: IsLeast(k, s)
  {
    var x :| x in s;
    if s == {x} {
      assert IsLeast(x, s);
    } else {
      var rest := s - {x};
      LeastExists(rest);
      var k :| IsLeast(k, rest);
      BeforeTotal(x, k);
      if Before(x, k) {
        forall y | y in s ensures y == x || Before(x, y) {
          if y != x && y != k { BeforeTransitive(x, k, y); }
        }
        assert IsLeast(x, s);
      } else {
        assert IsLeast(k, s);
      }
    }
  }

  ghost predicate IsLeast(k: string, s: set<string>) {
    k in s && forall y :: y in s ==> y == k || Before(k, y)
  }

  /** The members of a set in increasing order. */
  ghost function Ascending(s: set<string>): (r: seq<string>)
    ensures |r| == |s|
    ensures forall k :: k in r <==> k in s
    ensures StrictlySorted(r, Identity)
    decreases |s|
  {
    if s == {} then []
    else
      LeastExists(s);
      var k :| IsLeast(k, s);
      var rest := Ascending(s - {k});
      assert forall i :: 0 <= i < |rest| ==> rest[i] in s - {k};
      assert |s - {k}| == |s| - 1;
      [k] + rest
  }

  function Identity(s: string): string { s }
}

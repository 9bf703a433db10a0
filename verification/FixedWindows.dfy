/** The fixed-window limiter with lazy eviction (middleware.go). */
module FixedWindows {
  import opened Text
  import opened Admissions

  datatype Window = Window(count: int, resetAt: int)

  /** One request against the window stored for its key, if any. */
  function Hit(w: Option<Window>, limit: int, span: int, now: int): (Window, bool) {
    if w.None? || now > w.value.resetAt then (Window(1, now + span), true)
    else (w.value.(count := w.value.count + 1), w.value.count + 1 <= limit)
  }

  function Expire(clients: map<string, Window>, now: int): map<string, Window> {
    map k | k in clients && now <= clients[k].resetAt :: clients[k]
  }

  /** Eviction runs only when more clients are stored than the limit. */
  function Swept(clients: map<string, Window>, limit: int, now: int): map<string, Window> {
    if |clients| > limit then Expire(clients, now) else clients
  }

  function Step(clients: map<string, Window>, limit: int, span: int, key: string, now: int)
    : (map<string, Window>, bool)
  {
    var (w, ok) := Hit(Lookup(clients, key), limit, span, now);
    (clients[key := w], ok)
  }

  datatype Call = Call(key: string, now: int)

  function CallStep(clients: map<string, Window>, limit: int, span: int, c: Call): (map<string, Window>, bool) {
    Step(Swept(clients, limit, c.now), limit, span, c.key, c.now)
  }

  function Answers(clients: map<string, Window>, limit: int, span: int, calls: seq<Call>): seq<bool>
    decreases |calls|
  {
    if calls == [] then []
    else
      var (next, ok) := CallStep(clients, limit, span, calls[0]);
      [ok] + Answers(next, limit, span, calls[1..])
  }

  class Limiter {
    var clients: map<string, Window>
    const limit: int
    const window: int

    constructor (limit: int, window: int)
      ensures this.limit == limit && this.window == window && clients == map[]
    {
      this.limit, this.window, clients := limit, window, map[];
    }

    method EvictExpired(now: int)
      modifies this
      ensures clients == Expire(old(clients), now)
    {
      var pending := clients.Keys;
      ghost var before := clients;
      while pending != {}
        invariant pending <= before.Keys
        invariant clients == map k | k in before && (k in pending || now <= before[k].resetAt) :: before[k]
        decreases pending
      {
        var key :| key in pending;
        if now > clients[key].resetAt { clients := clients - {key}; }
        pending := pending - {key};
      }
    }

    method Allow(key: string, now: int) returns (ok: bool)
      modifies this
      ensures (clients, ok) == CallStep(old(clients), limit, window, Call(key, now))
    {
      if |clients| > limit { EvictExpired(now); }
      if key !in clients || now > clients[key].resetAt {
        clients := clients[key := Window(1, now + window)];
        return true;
      }
      var cw := clients[key];
      cw := cw.(count := cw.count + 1);
      clients := clients[key := cw];
      return cw.count <= limit;
    }

    /** Any list of calls gets the answers that the bounds are about. */
    method Serve(calls: seq<Call>) returns (answers: seq<bool>)
      modifies this
      ensures answers == Answers(old(clients), limit, window, calls)
    {
      hide CallStep;
      answers := [];
      for i := 0 to |calls|
        invariant answers + Answers(clients, limit, window, calls[i..]) == Answers(old(clients), limit, window, calls)
      {
        ghost var before := clients;
        assert calls[i..][1..] == calls[i + 1..];
        var ok := Allow(calls[i].key, calls[i].now);
        assert Answers(before, limit, window, calls[i..]) == [ok] + Answers(clients, limit, window, calls[i + 1..]);
        answers := answers + [ok];
      }
    }
  }

  // ---------------------------------------------------------------- whole runs

  /** The same calls on a limiter that never evicts. */
  function PlainAnswers(clients: map<string, Window>, limit: int, span: int, calls: seq<Call>): seq<bool>
    decreases |calls|
  {
    if calls == [] then []
    else
      var (next, ok) := Step(clients, limit, span, calls[0].key, calls[0].now);
      [ok] + PlainAnswers(next, limit, span, calls[1..])
  }

  ghost predicate Ordered(calls: seq<Call>) { forall i, j :: 0 <= i < j < |calls| ==> calls[i].now <= calls[j].now }

  /** The limiter holds what the never-evicting one holds, except windows that have run out. */
  ghost predicate Agree(clients: map<string, Window>, plain: map<string, Window>, now: int) {
    && (forall k :: k in clients ==> k in plain && plain[k] == clients[k])
    && (forall k :: k in plain && k !in clients ==> now > plain[k].resetAt)
  }

  /** Eviction never changes an answer. */
  lemma {:induction false} EvictionInvisible(clients: map<string, Window>, plain: map<string, Window>, limit: int,
      span: int, calls: seq<Call>, now: int)
    requires Ordered(calls) && (calls != [] ==> now <= calls[0].now) && Agree(clients, plain, now)
    ensures Answers(clients, limit, span, calls) == PlainAnswers(plain, limit, span, calls)
    decreases |calls|
  {
    if calls != [] {
      var c := calls[0];
      var swept := Swept(clients, limit, c.now);
      assert Agree(swept, plain, c.now);
      EvictionInvisible(Step(swept, limit, span, c.key, c.now).0, Step(plain, limit, span, c.key, c.now).0, limit, span,
        calls[1..], c.now);
    }
  }

  // ---------------------------------------------------------------- how many are admitted

  function ForKey(key: string): Call -> bool { (c: Call) => c.key == key }

  function Admitted(clients: map<string, Window>, limit: int, span: int, calls: seq<Call>, key: string): nat
    decreases |calls|
  {
    if calls == [] then 0
    else
      var (next, ok) := Step(clients, limit, span, calls[0].key, calls[0].now);
      (if calls[0].key == key && ok then 1 else 0) + Admitted(next, limit, span, calls[1..], key)
  }

  function Max(a: int, b: int): int { if a >= b then a else b }

  /** What is left in a window that is still open until `end`. */
  lemma {:induction false} AdmittedInOpenWindow(clients: map<string, Window>, limit: int, span: int, calls: seq<Call>,
      key: string, end: int)
    requires forall i :: 0 <= i < |calls| ==> calls[i].now <= end
    requires key in clients && end <= clients[key].resetAt
    ensures Admitted(clients, limit, span, calls, key) <= Max(limit - clients[key].count, 0)
    decreases |calls|
  {
    if calls != [] {
      AdmittedInOpenWindow(Step(clients, limit, span, calls[0].key, calls[0].now).0, limit, span, calls[1..], key, end);
    }
  }

  /** Within one window's length at most two windows are open, so at most twice the limit is admitted;
      a limit below one still admits the call that opens a window. */
  lemma {:induction false} AdmittedInSpan(clients: map<string, Window>, limit: int, span: int, calls: seq<Call>,
      key: string, start: int, end: int)
    requires start <= end <= start + span && Ordered(calls)
    requires forall i :: 0 <= i < |calls| ==> start <= calls[i].now <= end
    requires key in clients ==> clients[key].count >= 1
    ensures Admitted(clients, limit, span, calls, key) <= Max(limit, 1)
      + (if key in clients && start <= clients[key].resetAt then Max(limit - clients[key].count, 0) else 0)
    decreases |calls|
  {
    if calls != [] {
      var c := calls[0];
      var next := Step(clients, limit, span, c.key, c.now).0;
      if c.key != key {
        AdmittedInSpan(next, limit, span, calls[1..], key, start, end);
      } else if key !in clients || c.now > clients[key].resetAt {
        AdmittedInOpenWindow(next, limit, span, calls[1..], key, end);
      } else {
        AdmittedInSpan(next, limit, span, calls[1..], key, start, end);
      }
    }
  }

  lemma {:induction false} PlainLength(clients: map<string, Window>, limit: int, span: int, calls: seq<Call>)
    ensures |PlainAnswers(clients, limit, span, calls)| == |calls|
    decreases |calls|
  {
    hide Step;
    if calls != [] { PlainLength(Step(clients, limit, span, calls[0].key, calls[0].now).0, limit, span, calls[1..]); }
  }

  lemma {:induction false} GrantedPrefix(clients: map<string, Window>, limit: int, span: int, calls: seq<Call>,
      key: string, j: nat)
    requires j <= |calls|
    ensures |PlainAnswers(clients, limit, span, calls)| == |calls|
    ensures Granted(PlainAnswers(clients, limit, span, calls), calls, ForKey(key), 0, j)
      == Admitted(clients, limit, span, calls[..j], key)
    decreases j
  {
    hide Step;
    PlainLength(clients, limit, span, calls);
    if j > 0 {
      var next := Step(clients, limit, span, calls[0].key, calls[0].now).0;
      var answers := PlainAnswers(clients, limit, span, calls);
      assert answers[1..] == PlainAnswers(next, limit, span, calls[1..]);
      GrantedTail(answers, calls, ForKey(key), 1, j);
      GrantedPrefix(next, limit, span, calls[1..], key, j - 1);
      assert calls[..j][1..] == calls[1..][..j - 1];
    }
  }

  lemma {:induction false} PlainBound(clients: map<string, Window>, limit: int, span: int, calls: seq<Call>,
      key: string, i: nat, j: nat)
    requires Ordered(calls) && i < j <= |calls| && calls[j - 1].now - calls[i].now <= span
    requires key in clients ==> clients[key].count >= 1
    ensures |PlainAnswers(clients, limit, span, calls)| == |calls|
    ensures Granted(PlainAnswers(clients, limit, span, calls), calls, ForKey(key), i, j) <= 2 * Max(limit, 1)
    decreases |calls|
  {
    PlainLength(clients, limit, span, calls);
    var next := Step(clients, limit, span, calls[0].key, calls[0].now).0;
    if i == 0 {
      GrantedPrefix(clients, limit, span, calls, key, j);
      AdmittedInSpan(clients, limit, span, calls[..j], key, calls[0].now, calls[j - 1].now);
    } else {
      GrantedTail(PlainAnswers(clients, limit, span, calls), calls, ForKey(key), i, j);
      PlainBound(next, limit, span, calls[1..], key, i - 1, j - 1);
      assert PlainAnswers(clients, limit, span, calls)[1..] == PlainAnswers(next, limit, span, calls[1..]);
    }
  }

  /** In any stretch of calls no longer than one window, a key is admitted at most twice the limit. */
  lemma LimiterBound(limit: int, span: int, calls: seq<Call>, key: string, i: nat, j: nat)
    requires Ordered(calls) && i < j <= |calls| && calls[j - 1].now - calls[i].now <= span
    ensures |Answers(map[], limit, span, calls)| == |calls|
    ensures Granted(Answers(map[], limit, span, calls), calls, ForKey(key), i, j) <= 2 * Max(limit, 1)
    ensures limit >= 1 ==> Granted(Answers(map[], limit, span, calls), calls, ForKey(key), i, j) <= 2 * limit
  {
    hide Answers, PlainAnswers, Granted;
    EvictionInvisible(map[], map[], limit, span, calls, calls[0].now);
    PlainBound(map[], limit, span, calls, key, i, j);
  }

  /** The bound needs a positive limit: with any other limit a single first call is still admitted. */
  lemma NonPositiveLimitStillAdmits(limit: int, span: int, key: string, now: int)
    requires limit <= 0
    ensures |Answers(map[], limit, span, [Call(key, now)])| == 1
    ensures Granted(Answers(map[], limit, span, [Call(key, now)]), [Call(key, now)], ForKey(key), 0, 1) == 1 > 2 * limit
  {
    var calls := [Call(key, now)];
    assert calls[1..] == [];
    assert Answers(map[], limit, span, calls) == [true];
    assert Granted([true], calls, ForKey(key), 1, 1) == 0;
  }
}

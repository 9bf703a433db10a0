/** The token-bucket limiter with idle eviction (auth.go). */
module TokenBuckets {
  import opened Text
  import opened Admissions

  datatype Bucket = Bucket(tokens: real, last: int, capacity: int)

  /** Nanoseconds in a minute, the window used when none is given. */
  const MINUTE: int := 60_000_000_000

  // ---------------------------------------------------------------- one bucket

  /** Tokens added per nanosecond. */
  function Rate(limit: int, window: int): real
    requires window > 0
  {
    limit as real / window as real
  }

  /** Tokens added in a span of time. */
  function Refill(limit: int, window: int, span: int): real
    requires window > 0
  {
    span as real * Rate(limit, window)
  }

  function Capped(x: real, cap: real): real { if x > cap then cap else x }

  function Refilled(b: Bucket, limit: int, window: int, now: int): Bucket
    requires window > 0
  {
    if now > b.last then
      b.(tokens := Capped(b.tokens + Refill(limit, window, now - b.last), limit as real), last := now)
    else b
  }

  /** One request against the bucket stored for its key, if any. */
  function Draw(b: Option<Bucket>, limit: int, window: int, now: int): (Bucket, bool)
    requires window > 0
  {
    if b.None? || b.value.capacity != limit then (Bucket(limit as real - 1.0, now, limit), true)
    else
      var r := Refilled(b.value, limit, window, now);
      if r.tokens < 1.0 then (r, false) else (r.(tokens := r.tokens - 1.0), true)
  }

  // ---------------------------------------------------------------- the limiter

  datatype State = State(buckets: map<string, Bucket>, lastCleanup: Option<int>)

  function Idle(b: Bucket, window: int, now: int): bool { now - b.last > 2 * window }

  function Evict(s: State, window: int, now: int): State {
    if s.lastCleanup.Some? && now - s.lastCleanup.value < window then s
    else State(map k | k in s.buckets && !Idle(s.buckets[k], window, now) :: s.buckets[k], Some(now))
  }

  function Step(buckets: map<string, Bucket>, key: string, limit: int, window: int, now: int)
    : (map<string, Bucket>, bool)
    requires window > 0
  {
    var (b, ok) := Draw(Lookup(buckets, key), limit, window, now);
    (buckets[key := b], ok)
  }

  datatype Call = Call(key: string, limit: int, now: int)

  function CallStep(s: State, window: int, c: Call): (State, bool)
    requires window > 0
  {
    if c.limit <= 0 then (s, true)
    else
      var evicted := Evict(s, window, c.now);
      var (buckets, ok) := Step(evicted.buckets, c.key, c.limit, window, c.now);
      (State(buckets, evicted.lastCleanup), ok)
  }

  function Answers(s: State, window: int, calls: seq<Call>): seq<bool>
    requires window > 0
    decreases |calls|
  {
    if calls == [] then []
    else [CallStep(s, window, calls[0]).1] + Answers(CallStep(s, window, calls[0]).0, window, calls[1..])
  }

  class Limiter {
    var buckets: map<string, Bucket>
    var lastCleanup: Option<int>
    const window: int

    ghost predicate Valid() reads this { window > 0 }

    ghost function Contents(): State reads this { State(buckets, lastCleanup) }

    constructor (window: int)
      ensures Valid() && this.window == (if window <= 0 then MINUTE else window)
      ensures Contents() == State(map[], None)
    {
      this.window := if window <= 0 then MINUTE else window;
      buckets, lastCleanup := map[], None;
    }

    method EvictIdle(now: int)
      requires Valid()
      modifies this
      ensures Contents() == Evict(old(Contents()), window, now)
    {
      if lastCleanup.Some? && now - lastCleanup.value < window { return; }
      var pending := buckets.Keys;
      ghost var before := buckets;
      while pending != {}
        invariant pending <= before.Keys
        invariant buckets == map k | k in before && (k in pending || !Idle(before[k], window, now)) :: before[k]
        invariant lastCleanup == old(lastCleanup)
        decreases pending
      {
        var key :| key in pending;
        if now - buckets[key].last > 2 * window { buckets := buckets - {key}; }
        pending := pending - {key};
      }
      lastCleanup := Some(now);
    }

    method Allow(key: string, limit: int, now: int) returns (ok: bool)
      requires Valid()
      modifies this
      ensures (Contents(), ok) == CallStep(old(Contents()), window, Call(key, limit, now))
    {
      if limit <= 0 { return true; }
      EvictIdle(now);
      if key !in buckets || buckets[key].capacity != limit {
        buckets := buckets[key := Bucket(limit as real - 1.0, now, limit)];
        return true;
      }
      var bucket := buckets[key];
      var elapsed := now - bucket.last;
      if elapsed > 0 {
        var tokens := bucket.tokens + Refill(limit, window, elapsed);
        if tokens > limit as real { tokens := limit as real; }
        bucket := bucket.(tokens := tokens, last := now);
      }
      if bucket.tokens < 1.0 {
        buckets := buckets[key := bucket];
        return false;
      }
      buckets := buckets[key := bucket.(tokens := bucket.tokens - 1.0)];
      return true;
    }

    /** Any list of calls gets the answers that the bounds are about. */
    method Serve(calls: seq<Call>) returns (answers: seq<bool>)
      requires Valid()
      modifies this
      ensures answers == Answers(old(Contents()), window, calls)
    {
      hide CallStep;
      answers := [];
      for i := 0 to |calls|
        invariant answers + Answers(Contents(), window, calls[i..]) == Answers(old(Contents()), window, calls)
      {
        ghost var before := Contents();
        assert calls[i..][1..] == calls[i + 1..];
        var ok := Allow(calls[i].key, calls[i].limit, calls[i].now);
        assert Answers(before, window, calls[i..]) == [ok] + Answers(Contents(), window, calls[i + 1..]);
        answers := answers + [ok];
      }
    }
  }

  // ---------------------------------------------------------------- whole runs

  /** The same call on a limiter that never evicts. */
  function PlainStep(buckets: map<string, Bucket>, window: int, c: Call): (map<string, Bucket>, bool)
    requires window > 0
  {
    if c.limit <= 0 then (buckets, true) else Step(buckets, c.key, c.limit, window, c.now)
  }

  function PlainAnswers(buckets: map<string, Bucket>, window: int, calls: seq<Call>): seq<bool>
    requires window > 0
    decreases |calls|
  {
    if calls == [] then []
    else
      [PlainStep(buckets, window, calls[0]).1]
      + PlainAnswers(PlainStep(buckets, window, calls[0]).0, window, calls[1..])
  }

  ghost predicate Ordered(calls: seq<Call>) { forall i, j :: 0 <= i < j < |calls| ==> calls[i].now <= calls[j].now }

  /** The limiter holds what the never-evicting one holds, except buckets idle for two windows. */
  ghost predicate Agree(s: State, buckets: map<string, Bucket>, window: int, now: int) {
    && (forall k :: k in s.buckets ==> k in buckets && buckets[k] == s.buckets[k])
    && (forall k :: k in buckets && k !in s.buckets ==> Idle(buckets[k], window, now))
  }

  lemma RateBound(limit: int, window: int, elapsed: int)
    requires window > 0 && limit > 0 && elapsed > 2 * window
    ensures Refill(limit, window, elapsed) > limit as real
  {
    var r, w, e := Rate(limit, window), window as real, elapsed as real;
    assert r * w == limit as real;
    assert r > 0.0;
    assert e * r > w * r;
  }

  /** A bucket idle for two windows is full again, so drawing on it is drawing on a new one. */
  lemma IdleIsFresh(b: Bucket, limit: int, window: int, now: int)
    requires window > 0 && limit > 0 && Idle(b, window, now) && b.tokens >= 0.0
    ensures Draw(Some(b), limit, window, now) == Draw(None, limit, window, now)
  {
    RateBound(limit, window, now - b.last);
    hide Refill;
  }

  ghost predicate NonNegative(buckets: map<string, Bucket>) { forall k :: k in buckets ==> buckets[k].tokens >= 0.0 }

  lemma StepNonNegative(buckets: map<string, Bucket>, key: string, limit: int, window: int, now: int)
    requires window > 0 && limit > 0 && NonNegative(buckets)
    ensures NonNegative(Step(buckets, key, limit, window, now).0)
  {
    RateNonNegative(limit, window, now - (if key in buckets then buckets[key].last else now));
    hide Refill;
  }

  lemma RateNonNegative(limit: int, window: int, elapsed: int)
    requires window > 0 && limit > 0
    ensures elapsed >= 0 ==> Refill(limit, window, elapsed) >= 0.0
  {
    if elapsed >= 0 {
      assert Rate(limit, window) >= 0.0;
    }
  }

  lemma StepAgrees(s: State, buckets: map<string, Bucket>, window: int, c: Call, now: int)
    requires window > 0 && c.limit > 0 && now <= c.now && Agree(s, buckets, window, now) && NonNegative(buckets)
    ensures CallStep(s, window, c).1 == PlainStep(buckets, window, c).1
    ensures Agree(CallStep(s, window, c).0, PlainStep(buckets, window, c).0, window, c.now)
  {
    hide Draw;
    var evicted := Evict(s, window, c.now);
    assert Agree(evicted, buckets, window, c.now);
    if c.key in buckets && c.key !in evicted.buckets {
      IdleIsFresh(buckets[c.key], c.limit, window, c.now);
    }
  }

  /** Eviction never changes an answer: with a clock that does not go back, every call sequence gets the answers of a
      limiter that never evicts. */
  lemma {:induction false} EvictionInvisible(s: State, buckets: map<string, Bucket>, window: int, calls: seq<Call>,
      now: int)
    requires window > 0 && Ordered(calls) && (calls != [] ==> now <= calls[0].now)
    requires Agree(s, buckets, window, now) && NonNegative(buckets)
    ensures Answers(s, window, calls) == PlainAnswers(buckets, window, calls)
    decreases |calls|
  {
    if calls != [] {
      hide Evict, Step;
      var c := calls[0];
      if c.limit > 0 {
        StepAgrees(s, buckets, window, c, now);
        StepNonNegative(buckets, c.key, c.limit, window, c.now);
        EvictionInvisible(CallStep(s, window, c).0, PlainStep(buckets, window, c).0, window, calls[1..], c.now);
      } else {
        EvictionInvisible(s, buckets, window, calls[1..], now);
      }
    }
  }

  // ---------------------------------------------------------------- how many are admitted

  /** How many calls for one key are admitted. */
  function Admitted(buckets: map<string, Bucket>, window: int, calls: seq<Call>, key: string): nat
    requires window > 0
    decreases |calls|
  {
    if calls == [] then 0
    else (if calls[0].key == key && PlainStep(buckets, window, calls[0]).1 then 1 else 0)
         + Admitted(PlainStep(buckets, window, calls[0]).0, window, calls[1..], key)
  }

  /** What a key could draw at a moment: its tokens with the refill due, at most the limit. */
  ghost function Level(b: Option<Bucket>, limit: int, window: int, now: int): real
    requires window > 0
  {
    if b.None? || b.value.capacity != limit then limit as real else Refilled(b.value, limit, window, now).tokens
  }

  ghost predicate Sane(b: Option<Bucket>, limit: int, now: int) {
    b.Some? && b.value.capacity == limit ==> b.value.last <= now && 0.0 <= b.value.tokens <= limit as real
  }

  lemma DrawLevel(b: Option<Bucket>, limit: int, window: int, now: int)
    requires window > 0 && limit > 0 && Sane(b, limit, now)
    ensures var (d, ok) := Draw(b, limit, window, now);
      && Sane(Some(d), limit, now) && d.capacity == limit
      && Level(Some(d), limit, window, now) == Level(b, limit, window, now) - (if ok then 1.0 else 0.0)
      && (ok ==> Level(b, limit, window, now) >= 1.0)
  {
    RateNonNegative(limit, window, if b.Some? then now - b.value.last else 0);
    hide Refill;
  }

  lemma LevelGrows(b: Option<Bucket>, limit: int, window: int, t: int, now: int)
    requires window > 0 && limit > 0 && Sane(b, limit, t) && t <= now
    ensures Level(b, limit, window, now) <= Level(b, limit, window, t) + Refill(limit, window, now - t)
    ensures Level(b, limit, window, t) <= limit as real
  {
    hide Refill;
    RateNonNegative(limit, window, now - t);
    if b.Some? && b.value.capacity == limit {
      RateNonNegative(limit, window, t - b.value.last);
      RefillAdds(limit, window, now - t, t - b.value.last);
    }
  }

  lemma RefillAdds(limit: int, window: int, x: int, y: int)
    requires window > 0
    ensures Refill(limit, window, x + y) == Refill(limit, window, x) + Refill(limit, window, y)
  {
    Distribute(x as real, y as real, Rate(limit, window));
  }

  lemma Distribute(x: real, y: real, r: real)
    ensures (x + y) * r == x * r + y * r
  {
  }

  /** From any moment on, a key is admitted at most its level then plus the refill of the span. */
  lemma {:induction false} AdmittedWithinLevel(buckets: map<string, Bucket>, window: int, calls: seq<Call>, key: string,
      limit: int, t: int, end: int)
    requires window > 0 && limit > 0 && Ordered(calls) && t <= end
    requires forall i :: 0 <= i < |calls| ==> t <= calls[i].now <= end
    requires forall i :: 0 <= i < |calls| && calls[i].key == key ==> calls[i].limit == limit
    requires Sane(Lookup(buckets, key), limit, t)
    ensures Admitted(buckets, window, calls, key) as real <= Level(Lookup(buckets, key), limit, window, t)
      + Refill(limit, window, end - t)
    decreases |calls|
  {
    hide Refill, Draw, Refilled;
    var b := Lookup(buckets, key);
    RateNonNegative(limit, window, end - t);
    LevelNonNegative(b, limit, window, t);
    if calls != [] {
      var c := calls[0];
      var next := PlainStep(buckets, window, c).0;
      if c.key == key {
        DrawLevel(b, limit, window, c.now);
        LevelGrows(b, limit, window, t, c.now);
        AdmittedWithinLevel(next, window, calls[1..], key, limit, c.now, end);
        RefillAdds(limit, window, c.now - t, end - c.now);
      } else {
        assert Lookup(next, key) == b;
        AdmittedWithinLevel(next, window, calls[1..], key, limit, t, end);
      }
    }
  }

  lemma LevelNonNegative(b: Option<Bucket>, limit: int, window: int, t: int)
    requires window > 0 && limit > 0 && Sane(b, limit, t)
    ensures 0.0 <= Level(b, limit, window, t) <= limit as real
  {
    RateNonNegative(limit, window, if b.Some? then t - b.value.last else 0);
    hide Refill;
  }

  // ---------------------------------------------------------------- the bound on the limiter itself

  function ForKey(key: string): Call -> bool { (c: Call) => c.key == key }

  lemma {:induction false} PlainLength(buckets: map<string, Bucket>, window: int, calls: seq<Call>)
    requires window > 0
    ensures |PlainAnswers(buckets, window, calls)| == |calls|
    decreases |calls|
  {
    hide PlainStep;
    if calls != [] { PlainLength(PlainStep(buckets, window, calls[0]).0, window, calls[1..]); }
  }

  lemma {:induction false} GrantedPrefix(buckets: map<string, Bucket>, window: int, calls: seq<Call>, key: string,
      j: nat)
    requires window > 0 && j <= |calls|
    ensures |PlainAnswers(buckets, window, calls)| == |calls|
    ensures Granted(PlainAnswers(buckets, window, calls), calls, ForKey(key), 0, j)
      == Admitted(buckets, window, calls[..j], key)
    decreases j
  {
    hide PlainStep;
    PlainLength(buckets, window, calls);
    if j > 0 {
      var next := PlainStep(buckets, window, calls[0]).0;
      var answers := PlainAnswers(buckets, window, calls);
      assert answers[1..] == PlainAnswers(next, window, calls[1..]);
      GrantedTail(answers, calls, ForKey(key), 1, j);
      GrantedPrefix(next, window, calls[1..], key, j - 1);
      assert calls[..j][1..] == calls[1..][..j - 1];
    }
  }

  lemma SaneStep(buckets: map<string, Bucket>, window: int, c: Call, key: string, limit: int)
    requires window > 0 && limit > 0 && Sane(Lookup(buckets, key), limit, c.now)
    ensures Sane(Lookup(PlainStep(buckets, window, c).0, key), limit, c.now)
  {
    if c.key == key && c.limit == limit { DrawLevel(Lookup(buckets, key), limit, window, c.now); }
    hide Refill;
  }

  lemma {:induction false} PlainBound(buckets: map<string, Bucket>, window: int, calls: seq<Call>, key: string,
      limit: int, i: nat, j: nat)
    requires window > 0 && limit > 0 && Ordered(calls) && i < j <= |calls|
    requires forall n :: i <= n < j && calls[n].key == key ==> calls[n].limit == limit
    requires Sane(Lookup(buckets, key), limit, calls[0].now)
    ensures |PlainAnswers(buckets, window, calls)| == |calls|
    ensures Granted(PlainAnswers(buckets, window, calls), calls, ForKey(key), i, j) as real
            <= limit as real + Refill(limit, window, calls[j - 1].now - calls[i].now)
    decreases |calls|
  {
    hide Refill, PlainStep, Level;
    PlainLength(buckets, window, calls);
    if i == 0 {
      GrantedPrefix(buckets, window, calls, key, j);
      AdmittedWithinLevel(buckets, window, calls[..j], key, limit, calls[0].now, calls[j - 1].now);
      LevelNonNegative(Lookup(buckets, key), limit, window, calls[0].now);
    } else {
      var next := PlainStep(buckets, window, calls[0]).0;
      SaneStep(buckets, window, calls[0], key, limit);
      GrantedTail(PlainAnswers(buckets, window, calls), calls, ForKey(key), i, j);
      PlainBound(next, window, calls[1..], key, limit, i - 1, j - 1);
      assert PlainAnswers(buckets, window, calls)[1..] == PlainAnswers(next, window, calls[1..]);
    }
  }

  /** In any stretch of calls, a key with one limit is admitted at most limit + limit * span / window times. */
  lemma LimiterBound(window: int, calls: seq<Call>, key: string, limit: int, i: nat, j: nat)
    requires window > 0 && limit > 0 && Ordered(calls) && i < j <= |calls|
    requires forall n :: i <= n < j && calls[n].key == key ==> calls[n].limit == limit
    ensures |Answers(State(map[], None), window, calls)| == |calls|
    ensures Granted(Answers(State(map[], None), window, calls), calls, ForKey(key), i, j) as real
            <= limit as real + (calls[j - 1].now - calls[i].now) as real * (limit as real / window as real)
  {
    hide Answers, PlainAnswers, Granted;
    EvictionInvisible(State(map[], None), map[], window, calls, calls[0].now);
    PlainBound(map[], window, calls, key, limit, i, j);
  }
}

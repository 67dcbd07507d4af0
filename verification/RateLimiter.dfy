/** The gateway's fixed-window limiter: one counter per user and minute, kept in Redis. */
module RateLimiter {
  import opened Wrappers

  /** `now` is read at the gateway and names the counter; `at` is when `incr` reaches Redis, and
      `expireAt` when the `expire` after a first count does, if the gateway lives to send it. */
  datatype Request = Request(user: nat, now: nat, at: nat, expireAt: Option<nat>)
  datatype Key = Key(user: nat, minute: nat)

  /** Without an expiry a counter stays for good. */
  datatype Counter = Counter(count: nat, expires: Option<nat>)
  type Counters = map<Key, Counter>

  const MINUTE_MS: nat := 60_000
  const EXPIRY_MS: nat := 65_000

  function KeyOf(r: Request): Key { Key(r.user, r.now / MINUTE_MS) }

  /** A counter past its expiry no longer exists; at that very millisecond it still does. */
  predicate Live(st: Counters, key: Key, at: nat) {
    key in st && (st[key].expires.Some? ==> at <= st[key].expires.value)
  }

  function Expiry(r: Request): Option<nat> {
    if r.expireAt.Some? then Some(r.expireAt.value + EXPIRY_MS) else None
  }

  function Next(st: Counters, r: Request): Counter {
    if Live(st, KeyOf(r), r.at) then st[KeyOf(r)].(count := st[KeyOf(r)].count + 1)
    else Counter(1, Expiry(r))
  }

  function After(trace: seq<Request>): Counters {
    if trace == [] then map[]
    else
      var st := After(trace[..|trace| - 1]);
      st[KeyOf(trace[|trace| - 1]) := Next(st, trace[|trace| - 1])]
  }

  /** Whether the last request of the trace is let through. */
  predicate LastAccepted(limit: nat, trace: seq<Request>)
    requires trace != []
  {
    Next(After(trace[..|trace| - 1]), trace[|trace| - 1]).count <= limit
  }

  class RedisRateLimiter {
    const limitPerMinute: nat
    var counters: Counters
    ghost var trace: seq<Request>

    ghost predicate Valid() reads this { counters == After(trace) }

    constructor (limit: nat)
      ensures Valid() && limitPerMinute == limit && trace == []
    {
      limitPerMinute, counters, trace := limit, map[], [];
    }

    /** `incr`, then `expire` on a counter that has just come to life. */
    method Check(r: Request) returns (ok: bool)
      requires Valid()
      modifies this
      ensures Valid() && trace == old(trace) + [r]
      ensures ok == LastAccepted(limitPerMinute, trace)
    {
      var key := KeyOf(r);
      if !Live(counters, key, r.at) { counters := counters - {key}; }
      var c := if key in counters then counters[key].count + 1 else 1;
      counters := counters[key := Counter(c, if key in counters then counters[key].expires else None)];
      if c == 1 && r.expireAt.Some? {
        counters := counters[key := Counter(c, Some(r.expireAt.value + EXPIRY_MS))];
      }
      ok := c <= limitPerMinute;
      trace := trace + [r];
      assert trace[..|trace| - 1] == old(trace);
      CountsArePositive(old(trace), key);
    }
  }

  lemma {:induction false} CountsArePositive(trace: seq<Request>, key: Key)
    ensures key in After(trace) ==> After(trace)[key].count >= 1
  {
    if trace != [] { CountsArePositive(trace[..|trace| - 1], key); }
  }

  // ---- Every trace ----

  /** The user's request, made in that minute of the clock. */
  predicate Within(r: Request, key: Key) { r.user == key.user && key.minute * 60_000 <= r.now < (key.minute + 1) * 60_000 }

  function Requests(trace: seq<Request>, key: Key): nat {
    if trace == [] then 0
    else Requests(trace[..|trace| - 1], key) + if Within(trace[|trace| - 1], key) then 1 else 0
  }

  function Accepted(limit: nat, trace: seq<Request>, key: Key): nat {
    if trace == [] then 0
    else
      Accepted(limit, trace[..|trace| - 1], key)
      + if Within(trace[|trace| - 1], key) && LastAccepted(limit, trace) then 1 else 0
  }

  /** One clock: an `incr` arrives at most `delay` milliseconds after the clock reading that named its
      counter, and an `expire` at any time after its `incr`. */
  predicate DelayedAtMost(trace: seq<Request>, delay: nat) {
    forall i :: 0 <= i < |trace| ==>
      && trace[i].now <= trace[i].at <= trace[i].now + delay
      && (trace[i].expireAt.Some? ==> trace[i].at <= trace[i].expireAt.value)
  }

  /** From the last reading of a minute to the expiry of a counter that was set in its first millisecond. */
  const SLACK_MS: nat := EXPIRY_MS - MINUTE_MS + 1

  predicate Timely(trace: seq<Request>) { DelayedAtMost(trace, SLACK_MS) }

  /** The counter of a minute counts every request of that minute: its expiry never comes in between. */
  lemma {:induction false} CounterIsExact(trace: seq<Request>, key: Key)
    requires Timely(trace)
    ensures if Requests(trace, key) == 0 then key !in After(trace)
            else && key in After(trace)
                 && After(trace)[key].count == Requests(trace, key)
                 && (After(trace)[key].expires.Some? ==>
                       After(trace)[key].expires.value >= key.minute * MINUTE_MS + EXPIRY_MS)
  {
    if trace != [] {
      CounterIsExact(trace[..|trace| - 1], key);
      var r := trace[|trace| - 1];
      assert r.now / MINUTE_MS * MINUTE_MS <= r.now < (r.now / MINUTE_MS + 1) * MINUTE_MS;
    }
  }

  /** Each minute lets through exactly the first `limit` of its requests. */
  lemma {:induction false} EachMinuteIsExact(limit: nat, trace: seq<Request>, key: Key)
    requires Timely(trace)
    ensures Accepted(limit, trace, key) == if Requests(trace, key) < limit then Requests(trace, key) else limit
  {
    if trace != [] {
      EachMinuteIsExact(limit, trace[..|trace| - 1], key);
      CounterIsExact(trace, key);
    }
  }

  /** Requests of one user accepted in the 60 seconds that start at `t`, both ends included. */
  function AcceptedWithin(limit: nat, trace: seq<Request>, user: nat, t: nat): nat {
    if trace == [] then 0
    else
      var r := trace[|trace| - 1];
      AcceptedWithin(limit, trace[..|trace| - 1], user, t)
      + if r.user == user && t <= r.now <= t + 60_000 && LastAccepted(limit, trace) then 1 else 0
  }

  lemma {:induction false} SpanTouchesTwoMinutes(limit: nat, trace: seq<Request>, user: nat, t: nat)
    ensures AcceptedWithin(limit, trace, user, t) <=
            Accepted(limit, trace, Key(user, t / MINUTE_MS)) + Accepted(limit, trace, Key(user, t / MINUTE_MS + 1))
  {
    if trace != [] {
      SpanTouchesTwoMinutes(limit, trace[..|trace| - 1], user, t);
      var r := trace[|trace| - 1];
      assert t <= r.now <= t + MINUTE_MS ==> r.now / MINUTE_MS == t / MINUTE_MS || r.now / MINUTE_MS == t / MINUTE_MS + 1;
    }
  }

  /** No span of 60 seconds ever lets more than twice the limit through. */
  lemma AnySpanAtMostTwice(limit: nat, trace: seq<Request>, user: nat, t: nat)
    requires Timely(trace)
    ensures AcceptedWithin(limit, trace, user, t) <= 2 * limit
  {
    SpanTouchesTwoMinutes(limit, trace, user, t);
    EachMinuteIsExact(limit, trace, Key(user, t / MINUTE_MS));
    EachMinuteIsExact(limit, trace, Key(user, t / MINUTE_MS + 1));
  }

  function SlowTrace(): seq<Request> {
    [Request(7, 0, 0, Some(0)), Request(7, 59_999, 65_001, Some(65_001))]
  }

  /** The slack is needed: one millisecond more, and a minute lets through more than its limit. */
  lemma SlowCommandBreaksTheCount()
    ensures SlowTrace()[1].at == SlowTrace()[1].now + SLACK_MS + 1 && Accepted(1, SlowTrace(), Key(7, 0)) == 2
  {
    var trace := SlowTrace();
    assert trace[..1] == [Request(7, 0, 0, Some(0))] && trace[..1][..0] == [];
    assert After(trace[..1]) == map[Key(7, 0) := Counter(1, Some(65_000))];
    assert Accepted(1, trace[..1], Key(7, 0)) == 1;
  }

  ghost predicate Exact(limit: nat, trace: seq<Request>, key: Key) {
    Accepted(limit, trace, key) == if Requests(trace, key) < limit then Requests(trace, key) else limit
  }

  /** Every minute of every trace is limited exactly if and only if no command is more than 5001 ms late. */
  lemma ExactUpToTheSlack(delay: nat)
    ensures (forall limit, trace, key :: DelayedAtMost(trace, delay) ==> Exact(limit, trace, key)) <==> delay <= 5_001
  {
    if delay <= 5_001 {
      forall limit, trace, key | DelayedAtMost(trace, delay) ensures Exact(limit, trace, key) {
        EachMinuteIsExact(limit, trace, key);
      }
    } else {
      SlowCommandBreaksTheCount();
      assert DelayedAtMost(SlowTrace(), delay) && !Exact(1, SlowTrace(), Key(7, 0));
    }
  }
}

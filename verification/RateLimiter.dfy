/**
The distributed fixed-window limiter for one key: the Redis script that counts, and the store
that answers from its result. Times and windows are in milliseconds.

A key lives while the clock has not passed its expiry, which is Redis's own rule.
*/
module RateLimiter {
  datatype Counter = Absent | Live(count: nat, expiresAt: int)

  /** The script: INCR, and PEXPIRE when the count is 1. */
  function Script(c: Counter, now: int, window: nat): Counter {
    if c.Live? && now <= c.expiresAt then Live(c.count + 1, c.expiresAt) else Live(1, now + window)
  }

  /** How the call to Redis ends; a lost reply means the script ran and the store saw an error. */
  datatype Outcome = Replied | ReplyLost | NotExecuted

  /** `fallback` is what the in-memory store would answer. */
  datatype Request = Request(time: int, outcome: Outcome, fallback: bool)

  datatype Store = Store(configured: bool, limit: nat, window: nat, failClosed: bool)

  function CounterAfter(store: Store, c: Counter, r: Request): Counter {
    if !store.configured || r.outcome.NotExecuted? then c else Script(c, r.time, store.window)
  }

  function Answer(store: Store, c: Counter, r: Request): bool {
    if !store.configured then r.fallback
    else if r.outcome.Replied? then Script(c, r.time, store.window).count <= store.limit
    else !store.failClosed && r.fallback
  }

  class Limiter {
    const store: Store
    var counter: Counter

    constructor (store: Store)
      ensures this.store == store && counter == Absent
    {
      this.store := store;
      counter := Absent;
    }

    method RunScript(now: int) returns (current: nat)
      modifies this
      ensures counter == Script(old(counter), now, store.window) && current == counter.count
    {
      if counter.Live? && now > counter.expiresAt {
        counter := Absent;
      }
      if counter.Absent? {
        counter := Live(1, now + store.window);
      } else {
        counter := counter.(count := counter.count + 1);
      }
      current := counter.count;
    }

    method Allow(r: Request) returns (allowed: bool)
      modifies this
      ensures counter == CounterAfter(store, old(counter), r)
      ensures allowed == Answer(store, old(counter), r)
    {
      if !store.configured {
        return r.fallback;
      }
      if !r.outcome.NotExecuted? {
        var current := RunScript(r.time);
        if r.outcome.Replied? {
          return current <= store.limit;
        }
      }
      if store.failClosed {
        return false;
      }
      return r.fallback;
    }
  }

  // ----- runs

  /** The clock does not go back. */
  predicate Ordered(s: seq<Request>) {
    forall i, j | 0 <= i <= j < |s| :: s[i].time <= s[j].time
  }

  function CounterTo(store: Store, s: seq<Request>, i: nat): Counter
    requires i <= |s|
  {
    if i == 0 then Absent else CounterAfter(store, CounterTo(store, s, i - 1), s[i - 1])
  }

  predicate AllowedAt(store: Store, s: seq<Request>, i: nat)
    requires i < |s|
  {
    Answer(store, CounterTo(store, s, i), s[i])
  }

  /** The requests allowed in the half-open interval [from, to), among the first `i`. */
  function AllowedIn(store: Store, s: seq<Request>, from: int, to: int, i: nat): nat
    requires i <= |s|
  {
    if i == 0 then 0 else
      AllowedIn(store, s, from, to, i - 1)
      + if from <= s[i - 1].time < to && AllowedAt(store, s, i - 1) then 1 else 0
  }

  function Min(a: nat, b: nat): nat {
    if a < b then a else b
  }

  lemma {:induction false} NothingBefore(store: Store, s: seq<Request>, from: int, to: int, i: nat)
    requires Ordered(s) && i <= |s| && (i > 0 ==> s[i - 1].time < from)
    ensures AllowedIn(store, s, from, to, i) == 0
  {
    if i > 0 {
      NothingBefore(store, s, from, to, i - 1);
    }
  }

  /** Twice the limit, less the request that has started the first of two counters. */
  function Bound(limit: nat): nat {
    if limit == 0 then 0 else 2 * limit - 1
  }

  /** The bound on what one interval has been granted, by where the live counter began. */
  predicate Granted(store: Store, c: Counter, from: int, to: int, n: nat) {
    if store.limit == 0 then n == 0 else
      match c
      case Absent => n == 0
      case Live(count, expiresAt) =>
        var began := expiresAt - store.window;
        if began < from then n + 1 <= Min(count, store.limit)
        else if began < to then n <= store.limit - 1 + Min(count, store.limit)
        else n <= Bound(store.limit)
  }

  lemma {:induction false} GrantedInvariant(store: Store, s: seq<Request>, from: int, i: nat)
    requires store.configured && store.failClosed && Ordered(s) && i <= |s|
    ensures Granted(store, CounterTo(store, s, i), from, from + store.window,
                    AllowedIn(store, s, from, from + store.window, i))
    ensures var c := CounterTo(store, s, i);
      c.Live? ==> i > 0 && c.expiresAt - store.window <= s[i - 1].time && c.count > 0
  {
    if i > 0 {
      GrantedInvariant(store, s, from, i - 1);
      if s[i - 1].time < from {
        NothingBefore(store, s, from, from + store.window, i);
      }
    }
  }

  /**
  With Redis configured and a store that fails closed, no interval of one window length is granted
  twice the limit, whatever calls fail and whether or not they counted.
  */
  lemma AtMostTwiceTheLimit(store: Store, s: seq<Request>, from: int)
    requires store.configured && store.failClosed && Ordered(s)
    ensures AllowedIn(store, s, from, from + store.window, |s|) <= Bound(store.limit) <= 2 * store.limit
  {
    GrantedInvariant(store, s, from, |s|);
  }

  /** A counter that starts just before the interval is used up at its end, and the next one at once. */
  function Burst(limit: nat, window: nat): seq<Request> {
    seq(2 * limit, i => Request(if i == 0 then 0 else if i < limit then window else window + 1, Replied, false))
  }

  lemma {:induction false} BurstIsGranted(store: Store, i: nat)
    requires store.configured && store.limit > 0 && store.window >= 2 && i <= 2 * store.limit
    ensures CounterTo(store, Burst(store.limit, store.window), i) ==
      if i == 0 then Absent
      else if i <= store.limit then Live(i, store.window)
      else Live(i - store.limit, 2 * store.window + 1)
    ensures AllowedIn(store, Burst(store.limit, store.window), 2, 2 + store.window, i) == if i == 0 then 0 else i - 1
  {
    if i > 0 {
      BurstIsGranted(store, i - 1);
    }
  }

  /** The bound is attained, for every positive limit and every window of at least two milliseconds. */
  lemma BoundIsAttained(store: Store) returns (s: seq<Request>, from: int)
    requires store.configured && store.limit > 0 && store.window >= 2
    ensures Ordered(s) && AllowedIn(store, s, from, from + store.window, |s|) == Bound(store.limit)
  {
    s, from := Burst(store.limit, store.window), 2;
    BurstIsGranted(store, 2 * store.limit);
  }

  // ----- one counter lifetime

  /** The requests among the first `i` that the counter which expires at `expiresAt` allowed. */
  function AllowedByCounter(store: Store, s: seq<Request>, expiresAt: int, i: nat): nat
    requires i <= |s|
  {
    if i == 0 then 0 else
      AllowedByCounter(store, s, expiresAt, i - 1)
      + if CounterTo(store, s, i).Live? && CounterTo(store, s, i).expiresAt == expiresAt && AllowedAt(store, s, i - 1)
        then 1 else 0
  }

  /** One counter lifetime grants at most the limit. */
  lemma {:induction false} AtMostTheLimitPerLifetime(store: Store, s: seq<Request>, expiresAt: int, i: nat)
    requires store.configured && store.failClosed && store.window > 0 && Ordered(s) && i <= |s|
    ensures AllowedByCounter(store, s, expiresAt, i) <= store.limit
    ensures var c := CounterTo(store, s, i);
      && (c.Live? ==> i > 0 && c.count > 0 && c.expiresAt - store.window <= s[i - 1].time)
      && (c.Absent? || c.expiresAt < expiresAt ==> AllowedByCounter(store, s, expiresAt, i) == 0)
      && (c.Live? && c.expiresAt == expiresAt ==> AllowedByCounter(store, s, expiresAt, i) <= Min(c.count, store.limit))
  {
    if i > 0 {
      AtMostTheLimitPerLifetime(store, s, expiresAt, i - 1);
    }
  }

  // ----- a moderate caller is never denied

  /** The requests with a time in the closed interval [from, to], among the first `i`. */
  function RequestsIn(s: seq<Request>, from: int, to: int, i: nat): nat
    requires i <= |s|
  {
    if i == 0 then 0 else
      RequestsIn(s, from, to, i - 1) + if from <= s[i - 1].time <= to then 1 else 0
  }

  predicate ErrorFree(s: seq<Request>) {
    forall i | 0 <= i < |s| :: s[i].outcome.Replied?
  }

  lemma {:induction false} RequestsGrow(s: seq<Request>, from: int, to: int, i: nat, j: nat)
    requires i <= j <= |s|
    ensures RequestsIn(s, from, to, i) <= RequestsIn(s, from, to, j)
  {
    if i < j {
      RequestsGrow(s, from, to, i, j - 1);
    }
  }

  /** A caller that stayed before `from` sent nothing in it. */
  lemma {:induction false} NoneAtOrAfter(s: seq<Request>, from: int, to: int, i: nat)
    requires Ordered(s) && i <= |s| && (i > 0 ==> s[i - 1].time < from)
    ensures RequestsIn(s, from, to, i) == 0
  {
    if i > 0 {
      NoneAtOrAfter(s, from, to, i - 1);
    }
  }

  /** In an error-free run the live count is the number of requests since the counter began. */
  lemma {:induction false} CountIsRequests(store: Store, s: seq<Request>, i: nat)
    requires store.configured && Ordered(s) && ErrorFree(s) && i <= |s|
    ensures var c := CounterTo(store, s, i);
      c.Live? ==>
        && i > 0 && c.expiresAt - store.window <= s[i - 1].time <= c.expiresAt
        && c.count == RequestsIn(s, c.expiresAt - store.window, c.expiresAt, i)
    ensures i > 0 ==> CounterTo(store, s, i).Live?
  {
    if i > 0 {
      CountIsRequests(store, s, i - 1);
      var c, now := CounterTo(store, s, i), s[i - 1].time;
      if c.count == 1 {
        NoneAtOrAfter(s, now, now + store.window, i - 1);
      }
    }
  }

  /** An error-free request is denied exactly when the limit was used up since its counter began. */
  lemma DeniedExactly(store: Store, s: seq<Request>, i: nat)
    requires store.configured && Ordered(s) && ErrorFree(s) && i < |s|
    ensures var c := CounterTo(store, s, i + 1);
      && c.Live?
      && (AllowedAt(store, s, i) <==> RequestsIn(s, c.expiresAt - store.window, c.expiresAt, i + 1) <= store.limit)
  {
    CountIsRequests(store, s, i + 1);
    assert CounterTo(store, s, i + 1) == Script(CounterTo(store, s, i), s[i].time, store.window);
  }

  /** At most the limit is sent in [from, from + span]. */
  predicate Moderate(store: Store, s: seq<Request>, from: int, span: int) {
    RequestsIn(s, from, from + span, |s|) <= store.limit
  }

  /**
  Without errors, a caller that never sends more than the limit within a window, both ends
  included, is never denied.
  */
  lemma ModerateCallerNeverDenied(store: Store, s: seq<Request>, i: nat)
    requires store.configured && Ordered(s) && ErrorFree(s) && i < |s|
    requires forall from :: Moderate(store, s, from, store.window)
    ensures AllowedAt(store, s, i)
  {
    DeniedExactly(store, s, i);
    var c := CounterTo(store, s, i + 1);
    assert Moderate(store, s, c.expiresAt - store.window, store.window);
    RequestsGrow(s, c.expiresAt - store.window, c.expiresAt, i + 1, |s|);
  }

  /** The end point matters: one request per half-open window of length 1 can be denied. */
  lemma HalfOpenIsNotEnough() returns (store: Store, s: seq<Request>)
    ensures store.configured && Ordered(s) && ErrorFree(s) && |s| == 2
    ensures store.window == 1 && forall from :: Moderate(store, s, from, 0)
    ensures !AllowedAt(store, s, 1)
  {
    store := Store(true, 1, 1, true);
    s := [Request(0, Replied, false), Request(1, Replied, false)];
    assert CounterTo(store, s, 0) == Absent && CounterTo(store, s, 1) == Live(1, 1);
    forall from
      ensures Moderate(store, s, from, 0)
    {
      assert RequestsIn(s, from, from, 0) == 0;
      assert RequestsIn(s, from, from, 1) == if from == 0 then 1 else 0;
    }
  }
}

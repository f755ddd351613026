/**
 * The fixed-window rate limiter: a class that runs as the middleware does, the functions
 * it is proved against, and what holds over every run of requests on one clock that does
 * not go back. The mutex makes each call one step.
 */
module RateLimit {

  /** Instants and durations in nanoseconds. */
  type Time = int

  const MINUTE: Time := 60_000_000_000

  datatype Entry = Entry(count: int, resetAt: Time)

  type Entries = map<string, Entry>

  datatype Config = Config(max: int, window: Time)

  datatype Request = Request(key: string, now: Time)

  // ---------------------------------------------------------------- one call

  function Cleaned(entries: Entries, now: Time): Entries {
    map key | key in entries && now < entries[key].resetAt :: entries[key]
  }

  /** The decision on the buckets as they are. */
  function Take(c: Config, entries: Entries, r: Request): (Entries, bool) {
    if r.key !in entries || entries[r.key].resetAt <= r.now then
      (entries[r.key := Entry(1, r.now + c.window)], true)
    else if entries[r.key].count >= c.max then (entries, false)
    else (entries[r.key := Entry(entries[r.key].count + 1, entries[r.key].resetAt)], true)
  }

  /** One request, with or without removing expired buckets first. */
  function Call(c: Config, cleaning: bool, entries: Entries, r: Request): (Entries, bool) {
    if c.max <= 0 then (entries, false)
    else Take(c, if cleaning then Cleaned(entries, r.now) else entries, r)
  }

  class RateLimiter {
    const maxRequests: int
    const window: Time
    var entries: Entries

    constructor (maxRequests: int, window: Time)
      ensures Settings() == Config(maxRequests, if window <= 0 then MINUTE else window)
      ensures Settings().window > 0 && entries == map[]
    {
      this.maxRequests := maxRequests;
      this.window := if window <= 0 then MINUTE else window;
      entries := map[];
    }

    function Settings(): Config { Config(maxRequests, window) }

    method CleanupExpired(now: Time)
      modifies this
      ensures entries == Cleaned(old(entries), now)
    {
      var todo := entries.Keys;
      while todo != {}
        invariant todo <= entries.Keys <= old(entries).Keys
        invariant forall key :: key in entries ==> entries[key] == old(entries)[key]
        invariant forall key :: key in old(entries) && key !in todo ==>
                    (key in entries <==> now < old(entries)[key].resetAt)
        decreases todo
      {
        var key :| key in todo;
        if entries[key].resetAt <= now {
          entries := entries - {key};
        }
        todo := todo - {key};
      }
      assert entries == Cleaned(old(entries), now);
    }

    method Allow(key: string, now: Time) returns (allowed: bool)
      modifies this
      ensures (entries, allowed) == Call(Settings(), true, old(entries), Request(key, now))
    {
      if maxRequests <= 0 {
        return false;
      }
      CleanupExpired(now);
      if key !in entries || entries[key].resetAt <= now {
        entries := entries[key := Entry(1, now + window)];
        return true;
      }
      var entry := entries[key];
      if entry.count >= maxRequests {
        return false;
      }
      entry := entry.(count := entry.count + 1);
      entries := entries[key := entry];
      return true;
    }
  }

  // ---------------------------------------------------------------- runs

  function After(c: Config, cleaning: bool, run: seq<Request>): Entries {
    if run == [] then map[]
    else Call(c, cleaning, After(c, cleaning, run[..|run| - 1]), run[|run| - 1]).0
  }

  /** The decision on the last request of a run. */
  predicate Passes(c: Config, cleaning: bool, run: seq<Request>)
    requires run != []
  {
    Call(c, cleaning, After(c, cleaning, run[..|run| - 1]), run[|run| - 1]).1
  }

  predicate Monotone(run: seq<Request>) {
    forall i, j :: 0 <= i < j < |run| ==> run[i].now <= run[j].now
  }

  predicate Counts(c: Config, cleaning: bool, run: seq<Request>, key: string, a: Time, b: Time)
    requires run != []
  {
    var r := run[|run| - 1];
    r.key == key && a <= r.now < b && Passes(c, cleaning, run)
  }

  /** How many requests with this key passed in the half-open interval from a to b. */
  function Passed(c: Config, cleaning: bool, run: seq<Request>, key: string, a: Time, b: Time): nat {
    if run == [] then 0
    else Passed(c, cleaning, run[..|run| - 1], key, a, b) + if Counts(c, cleaning, run, key, a, b) then 1 else 0
  }

  lemma {:induction false} PassedWithin(c: Config, cleaning: bool, run: seq<Request>, key: string, a: Time, b: Time,
                                        a': Time, b': Time)
    requires a <= a' && b' <= b
    ensures Passed(c, cleaning, run, key, a', b') <= Passed(c, cleaning, run, key, a, b)
  {
    if run == [] {
    } else {
      PassedWithin(c, cleaning, run[..|run| - 1], key, a, b, a', b');
    }
  }

  lemma {:induction false} PassedSplit(c: Config, cleaning: bool, run: seq<Request>, key: string, a: Time, m: Time,
                                       b: Time)
    requires a <= m <= b
    ensures Passed(c, cleaning, run, key, a, b) ==
            Passed(c, cleaning, run, key, a, m) + Passed(c, cleaning, run, key, m, b)
  {
    if run == [] {
    } else {
      PassedSplit(c, cleaning, run[..|run| - 1], key, a, m, b);
    }
  }

  // ---------------------------------------------------------------- cleaning up changes no decision

  lemma {:induction false} CleanedAgree(c: Config, run: seq<Request>, now: Time)
    requires Monotone(run) && (run != [] ==> run[|run| - 1].now <= now)
    ensures Cleaned(After(c, true, run), now) == Cleaned(After(c, false, run), now)
  {
    if run != [] && c.max > 0 {
      var init, r := run[..|run| - 1], run[|run| - 1];
      CleanedAgree(c, init, r.now);
      var lazy := After(c, false, init);
      TakeCleaned(c, lazy, r, now);
    } else if run != [] {
      CleanedAgree(c, run[..|run| - 1], now);
    }
  }

  lemma TakeCleaned(c: Config, entries: Entries, r: Request, now: Time)
    requires r.now <= now
    ensures Take(c, Cleaned(entries, r.now), r).1 == Take(c, entries, r).1
    ensures Cleaned(Take(c, Cleaned(entries, r.now), r).0, now) == Cleaned(Take(c, entries, r).0, now)
  {
  }

  /** The limiter that removes expired buckets decides every request as one that never does. */
  lemma CleaningIsInvisible(c: Config, run: seq<Request>)
    requires Monotone(run) && run != []
    ensures Passes(c, true, run) == Passes(c, false, run)
  {
    var init, r := run[..|run| - 1], run[|run| - 1];
    CleanedAgree(c, init, r.now);
    TakeCleaned(c, After(c, false, init), r, r.now);
  }

  lemma {:induction false} PassedAgree(c: Config, run: seq<Request>, key: string, a: Time, b: Time)
    requires Monotone(run)
    ensures Passed(c, true, run, key, a, b) == Passed(c, false, run, key, a, b)
  {
    if run == [] {
    } else {
      PassedAgree(c, run[..|run| - 1], key, a, b);
      CleaningIsInvisible(c, run);
    }
  }

  /** After every call, each bucket kept is still open and ends within one window. */
  lemma {:induction false} BucketsAreCurrent(c: Config, run: seq<Request>, key: string)
    requires Monotone(run) && run != [] && c.window > 0 && key in After(c, true, run)
    ensures run[|run| - 1].now < After(c, true, run)[key].resetAt <= run[|run| - 1].now + c.window
  {
    var init, r := run[..|run| - 1], run[|run| - 1];
    if c.max <= 0 {
      NothingPasses(c, true, run, key, 0, 0);
    } else if key in Cleaned(After(c, true, init), r.now) {
      assert init != [];
      BucketsAreCurrent(c, init, key);
    }
  }

  lemma {:induction false} NothingPasses(c: Config, cleaning: bool, run: seq<Request>, key: string, a: Time, b: Time)
    requires c.max <= 0
    ensures After(c, cleaning, run) == map[] && Passed(c, cleaning, run, key, a, b) == 0
  {
    if run == [] {
    } else {
      NothingPasses(c, cleaning, run[..|run| - 1], key, a, b);
    }
  }

  // ---------------------------------------------------------------- the limit

  /** What the bucket of a key knows, without clean-up, about the requests passed from a to b. */
  predicate BucketOk(c: Config, run: seq<Request>, key: string, a: Time, b: Time) {
    var entries, passed := After(c, false, run), Passed(c, false, run, key, a, b);
    if key !in entries then passed == 0
    else
      var e := entries[key];
      var start := e.resetAt - c.window;
      && run != [] && start <= run[|run| - 1].now && 1 <= e.count <= c.max
      && (start <= a ==> passed <= e.count)
      && (start < a ==> passed < e.count)
      && (e.resetAt <= a ==> passed == 0)
      && (start - c.window < a && b == start ==> passed < c.max)
  }

  lemma {:induction false} BucketsOk(c: Config, run: seq<Request>, key: string, a: Time, b: Time)
    requires Monotone(run) && c.max > 0 && c.window > 0
    ensures BucketOk(c, run, key, a, b)
  {
    if run == [] {
    } else {
      BucketsOk(c, run[..|run| - 1], key, a, b);
    }
  }

  /**
   * In any interval of one window at most 2 * max - 1 requests of one key pass: fewer than
   * max of an older bucket, whose first request lies outside, and max of the next.
   */
  lemma {:induction false} WindowLimit(c: Config, run: seq<Request>, key: string, a: Time)
    requires Monotone(run) && c.window > 0
    ensures Passed(c, true, run, key, a, a + c.window) <= if c.max <= 0 then 0 else 2 * c.max - 1
  {
    PassedAgree(c, run, key, a, a + c.window);
    if c.max <= 0 {
      NothingPasses(c, true, run, key, a, a + c.window);
    } else {
      LazyLimit(c, run, key, a);
    }
  }

  lemma {:induction false} LazyLimit(c: Config, run: seq<Request>, key: string, a: Time)
    requires Monotone(run) && c.max > 0 && c.window > 0
    ensures Passed(c, false, run, key, a, a + c.window) < 2 * c.max
  {
    if run == [] {
    } else {
      LazyLimit(c, run[..|run| - 1], key, a);
      if Counts(c, false, run, key, a, a + c.window) {
        var start := After(c, false, run)[key].resetAt - c.window;
        BucketsOk(c, run, key, a, a + c.window);
        if a <= start {
          BucketsOk(c, run, key, a, start);
          BucketsOk(c, run, key, start, a + c.window);
          PassedSplit(c, false, run, key, a, start, a + c.window);
        }
      }
    }
  }

  /** Whatever comes later, at most max requests pass while one bucket lasts. */
  lemma {:induction false} BucketLimit(c: Config, run: seq<Request>, n: nat, key: string)
    requires Monotone(run) && c.window > 0 && n <= |run| && key in After(c, true, run[..n])
    ensures var end := After(c, true, run[..n])[key].resetAt;
            c.max > 0 && Passed(c, true, run, key, end - c.window, end) <= c.max
  {
    if c.max <= 0 {
      NothingPasses(c, true, run[..n], key, 0, 0);
    } else {
      CleaningKeepsBuckets(c, run[..n], key);
      var end := After(c, true, run[..n])[key].resetAt;
      PassedAgree(c, run, key, end - c.window, end);
      BucketLasts(c, run, n, key);
    }
  }

  lemma {:induction false} CleaningKeepsBuckets(c: Config, run: seq<Request>, key: string)
    requires Monotone(run) && c.window > 0 && key in After(c, true, run)
    ensures key in After(c, false, run) && After(c, false, run)[key] == After(c, true, run)[key]
  {
    BucketsAreCurrent(c, run, key);
    CleanedAgree(c, run, run[|run| - 1].now);
    assert key in Cleaned(After(c, true, run), run[|run| - 1].now);
  }

  lemma {:induction false} BucketLasts(c: Config, run: seq<Request>, n: nat, key: string)
    requires Monotone(run) && c.max > 0 && c.window > 0 && n <= |run| && key in After(c, false, run[..n])
    ensures var end := After(c, false, run[..n])[key].resetAt;
            && Passed(c, false, run, key, end - c.window, end) <= c.max
            && key in After(c, false, run)
            && (After(c, false, run)[key].resetAt == end || (run != [] && end <= run[|run| - 1].now))
  {
    if n == |run| {
      assert run[..n] == run;
      var end := After(c, false, run)[key].resetAt;
      BucketsOk(c, run, key, end - c.window, end);
    } else {
      var init := run[..|run| - 1];
      assert init[..n] == run[..n];
      BucketLasts(c, init, n, key);
      var end := After(c, false, run[..n])[key].resetAt;
      BucketsOk(c, run, key, end - c.window, end);
    }
  }

  // ---------------------------------------------------------------- the limit is reached

  function Burst(key: string, now: Time, n: nat): seq<Request> { seq(n, i => Request(key, now)) }

  lemma OneMore(c: Config, run: seq<Request>, r: Request, key: string, a: Time, b: Time)
    ensures var (entries, passes) := Call(c, false, After(c, false, run), r);
            && After(c, false, run + [r]) == entries
            && Passed(c, false, run + [r], key, a, b) ==
               Passed(c, false, run, key, a, b) + if r.key == key && a <= r.now < b && passes then 1 else 0
  {
    assert (run + [r])[..|run|] == run;
  }

  lemma {:induction false} BurstPasses(c: Config, run: seq<Request>, key: string, now: Time, n: nat, a: Time, b: Time)
    requires c.max > 0 && a <= now < b && key in After(c, false, run)
    requires now < After(c, false, run)[key].resetAt && After(c, false, run)[key].count + n <= c.max
    ensures var run' := run + Burst(key, now, n); var e := After(c, false, run)[key];
            && Passed(c, false, run', key, a, b) == Passed(c, false, run, key, a, b) + n
            && key in After(c, false, run') && After(c, false, run')[key] == Entry(e.count + n, e.resetAt)
  {
    if n == 0 {
      assert run + Burst(key, now, n) == run;
    } else {
      BurstPasses(c, run, key, now, n - 1, a, b);
      var before := run + Burst(key, now, n - 1);
      OneMore(c, before, Request(key, now), key, a, b);
      assert run + Burst(key, now, n) == before + [Request(key, now)];
    }
  }

  /** max requests at the moment the bucket ends: all pass. */
  lemma FullBucket(c: Config, run: seq<Request>, key: string, now: Time, a: Time, b: Time)
    requires c.max > 0 && c.window > 0 && a <= now < b
    requires key in After(c, false, run) ==> After(c, false, run)[key].resetAt <= now
    ensures var run' := (run + [Request(key, now)]) + Burst(key, now, c.max - 1);
            Passed(c, false, run', key, a, b) == Passed(c, false, run, key, a, b) + c.max
  {
    OneMore(c, run, Request(key, now), key, a, b);
    BurstPasses(c, run + [Request(key, now)], key, now, c.max - 1, a, b);
  }

  /** A bucket opened at 0 and filled just before it ends. */
  function Late(c: Config, key: string): seq<Request>
    requires c.max > 0
  {
    [Request(key, 0)] + Burst(key, c.window - 1, c.max - 1)
  }

  lemma LatePasses(c: Config, key: string, b: Time)
    requires c.max > 0 && c.window > 1 && c.window <= b
    ensures Passed(c, false, Late(c, key), key, c.window - 1, b) == c.max - 1
    ensures key in After(c, false, Late(c, key)) && After(c, false, Late(c, key))[key].resetAt == c.window
  {
    assert [] + [Request(key, 0)] == [Request(key, 0)];
    OneMore(c, [], Request(key, 0), key, c.window - 1, b);
    BurstPasses(c, [Request(key, 0)], key, c.window - 1, c.max - 1, c.window - 1, b);
  }

  function LateThenFull(c: Config, key: string): seq<Request>
    requires c.max > 0
  {
    (Late(c, key) + [Request(key, c.window)]) + Burst(key, c.window, c.max - 1)
  }

  lemma LateThenFullMonotone(c: Config, key: string)
    requires c.max > 0 && c.window > 1
    ensures Monotone(LateThenFull(c, key))
  {
    var run := LateThenFull(c, key);
    forall i | 0 <= i < |run|
      ensures run[i].now == if i == 0 then 0 else if i < c.max then c.window - 1 else c.window {
    }
  }

  /** For every max and every window longer than the tick of the clock, 2 * max - 1 do pass. */
  lemma LimitIsReached(c: Config, key: string)
    requires c.max > 0 && c.window > 1
    ensures Monotone(LateThenFull(c, key))
    ensures Passed(c, true, LateThenFull(c, key), key, c.window - 1, c.window - 1 + c.window) == 2 * c.max - 1
  {
    LateThenFullMonotone(c, key);
    LatePasses(c, key, c.window - 1 + c.window);
    FullBucket(c, Late(c, key), key, c.window, c.window - 1, c.window - 1 + c.window);
    PassedAgree(c, LateThenFull(c, key), key, c.window - 1, c.window - 1 + c.window);
  }
}

/**
 * Which requests pass, told from the requests alone: the windows of a key follow from the
 * instants of its own requests, and a window takes its first max requests.
 */
module RateLimitDecisions {
  import opened Wrappers
  import opened RateLimit

  /** When the last window of the key was opened: by its first request, or by one after a window had ended. */
  function Opening(c: Config, run: seq<Request>, key: string): Option<Time> {
    if run == [] then None
    else
      var before, r := Opening(c, run[..|run| - 1], key), run[|run| - 1];
      if r.key == key && (before.None? || before.value + c.window <= r.now) then Some(r.now) else before
  }

  lemma {:induction false} BucketTellsWindow(c: Config, run: seq<Request>, key: string)
    requires Monotone(run) && c.max > 0 && c.window > 0
    ensures var (o, entries) := (Opening(c, run, key), After(c, false, run));
            && (key in entries <==> o.Some?)
            && (o.Some? ==> entries[key] == Entry(Passed(c, false, run, key, o.value, o.value + c.window),
                                                  o.value + c.window))
  {
    if run == [] {
    } else {
      var init, r := run[..|run| - 1], run[|run| - 1];
      BucketTellsWindow(c, init, key);
      BucketsOk(c, init, key, r.now, r.now + c.window);
      BucketsOk(c, run, key, r.now, r.now + c.window);
    }
  }

  /**
   * A request passes exactly when requests are allowed at all and its key has no open
   * window, or one in which fewer than max have passed.
   */
  lemma ExactDecision(c: Config, run: seq<Request>)
    requires Monotone(run) && run != [] && c.window > 0
    ensures var (init, r) := (run[..|run| - 1], run[|run| - 1]);
            var o := Opening(c, init, r.key);
            Passes(c, true, run) <==>
            && c.max > 0
            && (o.Some? && r.now < o.value + c.window ==>
                 Passed(c, true, init, r.key, o.value, o.value + c.window) < c.max)
  {
    CleaningIsInvisible(c, run);
    var init, r := run[..|run| - 1], run[|run| - 1];
    if c.max > 0 {
      BucketTellsWindow(c, init, r.key);
      var o := Opening(c, init, r.key);
      if o.Some? {
        PassedAgree(c, init, r.key, o.value, o.value + c.window);
      }
    }
  }

  lemma {:induction false} NonePassesLater(c: Config, cleaning: bool, run: seq<Request>, key: string, a: Time, b: Time)
    requires forall i :: 0 <= i < |run| ==> run[i].now < a
    ensures Passed(c, cleaning, run, key, a, b) == 0
  {
    if run == [] {
    } else {
      NonePassesLater(c, cleaning, run[..|run| - 1], key, a, b);
    }
  }

  /** A request is refused only if max requests of its key passed within the last window. */
  lemma RefusedOnlyWhenFull(c: Config, run: seq<Request>)
    requires Monotone(run) && run != [] && c.window > 0 && !Passes(c, true, run)
    ensures var (init, r) := (run[..|run| - 1], run[|run| - 1]);
            Passed(c, true, init, r.key, r.now - c.window + 1, r.now + 1) >= c.max
  {
    ExactDecision(c, run);
    if c.max > 0 {
      var init, r := run[..|run| - 1], run[|run| - 1];
      var o := Opening(c, init, r.key).value;
      OpeningIsPast(c, init, r.key);
      PassedSplit(c, true, init, r.key, o, r.now + 1, o + c.window);
      NonePassesLater(c, true, init, r.key, r.now + 1, o + c.window);
      PassedWithin(c, true, init, r.key, r.now - c.window + 1, r.now + 1, o, r.now + 1);
    }
  }

  lemma {:induction false} OpeningIsPast(c: Config, run: seq<Request>, key: string)
    requires Monotone(run) && Opening(c, run, key).Some?
    ensures run != [] && Opening(c, run, key).value <= run[|run| - 1].now
  {
    if run == [] {
    } else if Opening(c, run[..|run| - 1], key).Some? {
      OpeningIsPast(c, run[..|run| - 1], key);
    }
  }

  // ---------------------------------------------------------------- one key does not see another

  /** The requests with this key. */
  function Own(run: seq<Request>, key: string): seq<Request> {
    if run == [] then []
    else Own(run[..|run| - 1], key) + if run[|run| - 1].key == key then [run[|run| - 1]] else []
  }

  lemma {:induction false} OwnIsMonotone(run: seq<Request>, key: string)
    requires Monotone(run)
    ensures Monotone(Own(run, key))
    ensures Own(run, key) != [] ==> run != [] && Own(run, key)[|Own(run, key)| - 1].now <= run[|run| - 1].now
  {
    if run == [] {
    } else {
      OwnIsMonotone(run[..|run| - 1], key);
    }
  }

  predicate SameBucket(a: Entries, b: Entries, key: string) {
    (key in a <==> key in b) && (key in a ==> a[key] == b[key])
  }

  lemma {:induction false} OwnBucket(c: Config, run: seq<Request>, key: string)
    ensures SameBucket(After(c, false, run), After(c, false, Own(run, key)), key)
  {
    if run == [] {
    } else {
      var init, r := run[..|run| - 1], run[|run| - 1];
      OwnBucket(c, init, key);
      if r.key == key {
        assert (Own(init, key) + [r])[..|Own(init, key)|] == Own(init, key);
        SameCall(c, After(c, false, init), After(c, false, Own(init, key)), r);
      } else {
        assert Own(run, key) == Own(init, key);
      }
    }
  }

  lemma SameCall(c: Config, a: Entries, b: Entries, r: Request)
    requires SameBucket(a, b, r.key)
    ensures SameBucket(Call(c, false, a, r).0, Call(c, false, b, r).0, r.key)
    ensures Call(c, false, a, r).1 == Call(c, false, b, r).1
  {
  }

  /** A request is decided as if only those with its own key had been made. */
  lemma KeysAreIndependent(c: Config, run: seq<Request>)
    requires Monotone(run) && run != []
    ensures var own := Own(run, run[|run| - 1].key);
            own != [] && Passes(c, true, run) == Passes(c, true, own)
  {
    var init, r := run[..|run| - 1], run[|run| - 1];
    var own := Own(run, r.key);
    assert own[..|own| - 1] == Own(init, r.key);
    OwnIsMonotone(run, r.key);
    CleaningIsInvisible(c, run);
    CleaningIsInvisible(c, own);
    OwnBucket(c, init, r.key);
  }
}

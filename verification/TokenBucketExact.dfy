/** What the token bucket decides, told without tokens: a request is granted exactly when granting it keeps every
    window that ends with it within the burst plus the rate, and the advertised wait is the least whole number
    of seconds after which that holds. */
module TokenBucketExact {
  import opened TokenBucket

  /** One more grant at a time keeps the window that starts at position `i` within the burst and the refill. */
  predicate WindowAllows(c: Config, history: seq<Request>, p: string, i: nat, now: real)
    requires c.rate > 0.0 && i < |history|
  {
    GrantsFrom(c, history, p, i) as real + 1.0 <= c.burst as real + (now - history[i].now) * c.rate
  }

  /** A level is the burst, or exactly what some window leaves. */
  ghost predicate Attained(c: Config, history: seq<Request>, p: string, i: int, now: real)
    requires c.rate > 0.0
  {
    if i < 0 then LevelOf(c, TableAfter(c, history), p, now) == Burst(c)
    else
      && i < |history|
      && LevelOf(c, TableAfter(c, history), p, now)
         == Burst(c) + Refill(c, now - history[i].now) - GrantsFrom(c, history, p, i) as real
  }

  lemma {:induction false} SomeWindowIsTight(c: Config, history: seq<Request>, p: string, now: real) returns (i: int)
    requires c.rate > 0.0 && Monotone(history) && (history != [] ==> history[|history| - 1].now <= now)
    ensures Attained(c, history, p, i, now)
    decreases |history|
  {
    hide LevelOf, Refill, GrantsFrom, Grants, TableAfter, Answer;
    if history == [] {
      i := -1;
      assert LevelOf(c, TableAfter(c, []), p, now) == Burst(c) by { NewcomersAreFull(c, p, now); }
    } else {
      var n := |history| - 1;
      var last, before := history[n].now, history[..n];
      i := SomeWindowIsTight(c, before, p, last);
      LastGrantPays(c, history, p);
      LevelLater(c, TableAfter(c, history), p, last, now);
      RefillAdds(c, 0.0, 0.0);
      if LevelOf(c, TableAfter(c, history), p, now) == Burst(c) {
        i := -1;
      } else if i < 0 {
        i := n;
        GrantsNext(c, history, p, n);
        assert history[..n][..n] == before;
      } else {
        GrantsNext(c, history, p, i);
        RefillAdds(c, last - history[i].now, now - last);
        assert now - history[i].now == (last - history[i].now) + (now - last) && before[i] == history[i];
      }
    }
  }

  lemma NewcomersAreFull(c: Config, p: string, now: real)
    ensures LevelOf(c, TableAfter(c, []), p, now) == Burst(c)
  {}

  /** EXACT. A request is granted iff the burst is at least one and no window that ends with it, from whichever
      earlier request on, would then hold more grants than the burst plus the rate times its length. */
  lemma GrantedExactlyWithinTheRate(c: Config, history: seq<Request>, r: Request)
    requires c.rate > 0.0 && Monotone(history) && (history != [] ==> history[|history| - 1].now <= r.now)
    ensures Answer(c, history, r) == Granted
            <==> c.burst >= 1 && forall i :: 0 <= i < |history| ==> WindowAllows(c, history, r.principal, i, r.now)
  {
    hide LevelOf, GrantsFrom, TableAfter, WindowAllows, RetryAfter;
    var p, now := r.principal, r.now;
    var level := LevelOf(c, TableAfter(c, history), p, now);
    if Answer(c, history, r) == Granted {
      LevelAtMost(c, TableAfter(c, history), p, now);
      forall i | 0 <= i < |history| ensures WindowAllows(c, history, p, i, now) {
        WindowLeaves(c, history, p, i, now);
      }
    } else {
      var i := SomeWindowIsTight(c, history, p, now);
      if i >= 0 { TightWindow(c, history, p, i, now); }
    }
  }

  lemma WindowLeaves(c: Config, history: seq<Request>, p: string, i: nat, now: real)
    requires c.rate > 0.0 && Monotone(history) && i < |history| && history[|history| - 1].now <= now
    requires LevelOf(c, TableAfter(c, history), p, now) >= 1.0
    ensures WindowAllows(c, history, p, i, now)
  {
    hide LevelOf, GrantsFrom, TableAfter;
    GrantsAreBudgeted(c, history, p, i, now);
  }

  lemma TightWindow(c: Config, history: seq<Request>, p: string, i: nat, now: real)
    requires c.rate > 0.0 && Attained(c, history, p, i, now) && LevelOf(c, TableAfter(c, history), p, now) < 1.0
    ensures i < |history| && !WindowAllows(c, history, p, i, now)
  {
    hide LevelOf, GrantsFrom, TableAfter;
  }

  /** NO LESS. Asking again after any smaller whole number of seconds than was advertised is refused as well. */
  lemma NoShorterWaitIsEnough(c: Config, history: seq<Request>, r: Request, between: seq<Request>, seconds: nat)
    requires c.rate > 0.0 && Answer(c, history, r).Refused? && seconds < Answer(c, history, r).retryAfter
    requires forall k :: 0 <= k < |between| ==> between[k].principal != r.principal
    ensures Answer(c, history + [r] + between, Request(r.principal, r.now + seconds as real)).Refused?
  {
    hide LevelOf, TableAfter, RetryAfter, Refill;
    var later := r.now + seconds as real;
    TableAfterNext(c, history, r);
    Untouched(c, history + [r], between, r.principal);
    SameBucket(c, TableAfter(c, history + [r]), TableAfter(c, history + [r] + between), r.principal, later);
    StillRefused(c, TableAfter(c, history), r.principal, r.now, seconds);
  }

  lemma StillRefused(c: Config, t: Table, p: string, now: real, seconds: nat)
    requires c.rate > 0.0 && LevelOf(c, t, p, now) < 1.0 && seconds < RetryAfter(c, LevelOf(c, t, p, now))
    ensures LevelOf(c, After(c, t, p, now), p, now + seconds as real) < 1.0
  {
    hide Refill, RetryAfter;
    var tokens := LevelOf(c, t, p, now);
    assert After(c, t, p, now)[p] == Bucket(tokens, now);
    TooShort(c, tokens, seconds);
    assert (now + seconds as real) - now == seconds as real;
  }

  lemma TooShort(c: Config, tokens: real, seconds: nat)
    requires c.rate > 0.0 && tokens < 1.0 && seconds < RetryAfter(c, tokens)
    ensures tokens + Refill(c, seconds as real) < 1.0
  {
    var missing := 1.0 - tokens;
    var wait := missing / c.rate;
    assert wait * c.rate == missing;
    if seconds == 0 {
      RefillAdds(c, 0.0, 0.0);
    } else {
      assert seconds as real < wait;
      assert (wait - seconds as real) * c.rate > 0.0;
    }
  }
}

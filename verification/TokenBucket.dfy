/** The per-principal token bucket, over reals: dropping buckets that have refilled is invisible, dropping
    one in use is a leniency of one burst, grants in any window are bounded, and waiting the advertised
    time is enough. */
module TokenBucket {
  import opened Orders

  datatype Config = Config(rate: real, burst: nat, maxBuckets: nat)

  datatype Bucket = Bucket(tokens: real, updated: real)

  datatype Decision = Granted | Refused(retryAfter: int)

  type Table = map<string, Bucket>

  predicate Sane(c: Config) {
    c.rate > 0.0 && c.maxBuckets >= 1
  }

  function Burst(c: Config): real {
    c.burst as real
  }

  function Min(a: real, b: real): real {
    if a <= b then a else b
  }

  /** What a span of time refills. */
  function Refill(c: Config, time: real): real {
    time * c.rate
  }

  lemma RefillAdds(c: Config, a: real, b: real)
    ensures Refill(c, a + b) == Refill(c, a) + Refill(c, b)
    ensures Refill(c, 0.0) == 0.0
  {}

  lemma RefillGrows(c: Config, a: real, b: real)
    requires c.rate > 0.0 && a <= b
    ensures Refill(c, a) <= Refill(c, b)
  {
    assert (b - a) * c.rate >= 0.0;
  }

  /** The tokens of a bucket at a time. */
  function Level(c: Config, b: Bucket, now: real): real {
    Min(Burst(c), b.tokens + Refill(c, now - b.updated))
  }

  function LevelOf(c: Config, t: Table, p: string, now: real): real {
    if p in t then Level(c, t[p], now) else Burst(c)
  }

  function Ceil(x: real): int {
    if x.Floor as real == x then x.Floor else x.Floor + 1
  }

  /** Whole seconds until a token is there, at least one. */
  function RetryAfter(c: Config, tokens: real): int
    requires c.rate > 0.0
  {
    var wait := Ceil((1.0 - tokens) / c.rate);
    if wait < 1 then 1 else wait
  }

  // ---- the table that never evicts -------------------------------------------------------------

  function Decide(c: Config, tokens: real): Decision
    requires c.rate > 0.0
  {
    if tokens < 1.0 then Refused(RetryAfter(c, tokens)) else Granted
  }

  function Spend(tokens: real, now: real): Bucket {
    Bucket(if tokens < 1.0 then tokens else tokens - 1.0, now)
  }

  /** One request to the never-evicting table. */
  function After(c: Config, t: Table, p: string, now: real): Table {
    t[p := Spend(LevelOf(c, t, p, now), now)]
  }

  datatype Request = Request(principal: string, now: real)

  predicate Monotone(history: seq<Request>) {
    forall i, j :: 0 <= i < j < |history| ==> history[i].now <= history[j].now
  }

  function TableAfter(c: Config, history: seq<Request>): Table {
    if history == [] then map[]
    else
      var last := history[|history| - 1];
      After(c, TableAfter(c, history[..|history| - 1]), last.principal, last.now)
  }

  /** What the never-evicting table answers to a request after a history. */
  function Answer(c: Config, history: seq<Request>, r: Request): Decision
    requires c.rate > 0.0
  {
    Decide(c, LevelOf(c, TableAfter(c, history), r.principal, r.now))
  }

  // ---- the limiter as a function ---------------------------------------------------------------

  /** The buckets, their names least recently used first, and the time of the last sweep. */
  datatype State = State(table: Table, order: seq<string>, lastSweep: real)

  predicate Full(c: Config, b: Bucket, now: real) {
    b.tokens + Refill(c, now - b.updated) >= Burst(c)
  }

  /** The entries of a list that are in a set, in order. */
  function Keep(order: seq<string>, names: set<string>): seq<string> {
    if order == [] then []
    else
      var last := order[|order| - 1];
      Keep(order[..|order| - 1], names) + (if last in names then [last] else [])
  }

  function InUse(c: Config, t: Table, now: real): Table {
    map p | p in t && !Full(c, t[p], now) :: t[p]
  }

  /** Who loses a bucket that is still in use: at the cap, with nothing refilled, the least recently used. */
  function ForcedOut(c: Config, s: State, now: real): set<string> {
    if |s.table| >= c.maxBuckets && s.order != [] && forall p :: p in s.table ==> !Full(c, s.table[p], now)
    then {s.order[0]} else {}
  }

  function Swept(c: Config, s: State, now: real): State {
    var table := InUse(c, s.table, now) - ForcedOut(c, s, now);
    State(table, Keep(s.order, table.Keys), now)
  }

  predicate SweepDue(c: Config, s: State, r: Request)
    requires c.rate > 0.0
  {
    r.now - s.lastSweep >= Burst(c) / c.rate || (|s.table| >= c.maxBuckets && r.principal !in s.table)
  }

  /** The state a request is answered in. */
  function Ready(c: Config, s: State, r: Request): State
    requires c.rate > 0.0
  {
    if SweepDue(c, s, r) then Swept(c, s, r.now) else s
  }

  function Reply(c: Config, s: State, r: Request): Decision
    requires c.rate > 0.0
  {
    Decide(c, LevelOf(c, Ready(c, s, r).table, r.principal, r.now))
  }

  function Next(c: Config, s: State, r: Request): State
    requires c.rate > 0.0
  {
    var ready := Ready(c, s, r);
    State(After(c, ready.table, r.principal, r.now),
          Keep(ready.order, ready.table.Keys - {r.principal}) + [r.principal], ready.lastSweep)
  }

  function Run(c: Config, start: real, history: seq<Request>): State
    requires c.rate > 0.0
  {
    if history == [] then State(map[], [], start)
    else Next(c, Run(c, start, history[..|history| - 1]), history[|history| - 1])
  }

  /** A monotone clock. */
  predicate Timely(start: real, history: seq<Request>) {
    Monotone(history) && forall i :: 0 <= i < |history| ==> start <= history[i].now
  }

  lemma RunIsNext(c: Config, start: real, history: seq<Request>, r: Request)
    requires c.rate > 0.0
    ensures Run(c, start, history + [r]) == Next(c, Run(c, start, history), r)
  {
    hide Next;
    assert (history + [r])[..|history|] == history;
  }

  // ---- the shape of every reachable state ------------------------------------------------------

  /** The position of a principal's last request, or -1. */
  function LastUse(history: seq<Request>, p: string): (k: int)
    ensures -1 <= k < |history| && (k >= 0 ==> history[k].principal == p)
  {
    if history == [] then -1
    else if history[|history| - 1].principal == p then |history| - 1
    else LastUse(history[..|history| - 1], p)
  }

  /** Least recently used first. */
  ghost predicate Ascending(order: seq<string>, history: seq<Request>) {
    forall i, j :: 0 <= i < j < |order| ==> LastUse(history, order[i]) < LastUse(history, order[j])
  }

  ghost predicate Distinct(order: seq<string>) {
    forall i, j :: 0 <= i < j < |order| ==> order[i] != order[j]
  }

  /** Each bucket listed once. */
  ghost predicate Listed(s: State) {
    Distinct(s.order) && forall p :: p in s.order <==> p in s.table
  }

  /** A bucket holds no debt and was last touched when its principal last asked. */
  ghost predicate Plain(c: Config, t: Table, reference: Table) {
    forall p :: p in t ==> p in reference && t[p].updated == reference[p].updated && t[p].tokens >= 0.0
  }

  function LastTime(start: real, history: seq<Request>): real {
    if history == [] then start else history[|history| - 1].now
  }

  ghost predicate Shaped(c: Config, s: State, start: real, history: seq<Request>) {
    && Listed(s) && Ascending(s.order, history) && |s.table| <= c.maxBuckets
    && s.lastSweep <= LastTime(start, history) && Plain(c, s.table, TableAfter(c, history))
  }

  lemma {:induction false} KeepMembers(order: seq<string>, names: set<string>)
    ensures forall p :: p in Keep(order, names) <==> p in order && p in names
  {
    if order != [] {
      var n := |order| - 1;
      KeepMembers(order[..n], names);
      assert order == order[..n] + [order[n]];
    }
  }

  lemma {:induction false} KeepAll(order: seq<string>, names: set<string>)
    requires forall p :: p in order ==> p in names
    ensures Keep(order, names) == order
  {
    if order != [] {
      var n := |order| - 1;
      assert order == order[..n] + [order[n]];
      KeepAll(order[..n], names);
    }
  }

  lemma {:induction false} KeepAscends(order: seq<string>, names: set<string>, history: seq<Request>)
    requires Ascending(order, history)
    ensures Ascending(Keep(order, names), history)
  {
    hide LastUse;
    if order != [] {
      var n := |order| - 1;
      KeepAscends(order[..n], names, history);
      KeepMembers(order[..n], names);
      AscendingNext(Keep(order[..n], names), order, history);
    }
  }

  lemma AscendingNext(kept: seq<string>, order: seq<string>, history: seq<Request>)
    requires order != [] && Ascending(order, history) && Ascending(kept, history)
    requires forall p :: p in kept ==> p in order[..|order| - 1]
    ensures Ascending(kept + [order[|order| - 1]], history)
  {
    hide LastUse;
    var n := |order| - 1;
    forall i | 0 <= i < |kept| ensures LastUse(history, kept[i]) < LastUse(history, order[n]) {
      assert kept[i] in kept && kept[i] in order[..n];
      var k :| 0 <= k < n && order[..n][k] == kept[i];
      assert order[k] == kept[i];
    }
  }

  lemma DistinctLast(order: seq<string>)
    requires order != [] && Distinct(order)
    ensures Distinct(order[..|order| - 1]) && order[|order| - 1] !in order[..|order| - 1]
  {}

  lemma {:induction false} KeepListed(order: seq<string>, names: set<string>)
    requires Distinct(order)
    ensures Distinct(Keep(order, names))
  {
    if order != [] {
      var n := |order| - 1;
      DistinctLast(order);
      KeepListed(order[..n], names);
      KeepMembers(order[..n], names);
      var kept := Keep(order[..n], names);
      forall i | 0 <= i < |kept| ensures kept[i] != order[n] { assert kept[i] in kept; }
    }
  }

  lemma SweptListed(c: Config, s: State, now: real)
    requires Listed(s)
    ensures Listed(Swept(c, s, now)) && Swept(c, s, now).table.Keys <= s.table.Keys
  {
    hide Full, ForcedOut, Keep, Distinct;
    var table := Swept(c, s, now).table;
    KeepMembers(s.order, table.Keys);
    KeepListed(s.order, table.Keys);
  }

  /** At the cap, a sweep makes room. */
  lemma SweptSize(c: Config, s: State, now: real)
    requires Listed(s) && 1 <= c.maxBuckets && |s.table| <= c.maxBuckets
    ensures |Swept(c, s, now).table| < c.maxBuckets
  {
    hide Full, Keep;
    var table := Swept(c, s, now).table;
    if |s.table| == c.maxBuckets {
      TableSize(s.table);
      SomeListed(s);
      var out: string :| out in s.table && out !in table;
      assert table.Keys <= s.table.Keys - {out};
      SubsetSize(table.Keys, s.table.Keys - {out});
    } else {
      SubsetSize(table.Keys, s.table.Keys);
    }
    TableSize(table);
    TableSize(s.table);
  }

  lemma TableSize(t: Table)
    ensures |t| == |t.Keys| && (|t| == 0 <==> t == map[])
  {}

  lemma SizeAfter(t: Table, p: string, b: Bucket)
    ensures |t[p := b]| == if p in t then |t| else |t| + 1
  {
    assert t[p := b].Keys == t.Keys + {p};
    TableSize(t);
    TableSize(t[p := b]);
  }

  lemma LastUseNext(history: seq<Request>, r: Request, p: string)
    ensures LastUse(history + [r], p) == if r.principal == p then |history| else LastUse(history, p)
  {
    assert (history + [r])[..|history|] == history;
  }

  lemma TableAfterNext(c: Config, history: seq<Request>, r: Request)
    ensures TableAfter(c, history + [r]) == After(c, TableAfter(c, history), r.principal, r.now)
  {
    assert (history + [r])[..|history|] == history;
  }

  lemma ReadyShaped(c: Config, s: State, start: real, history: seq<Request>, r: Request)
    requires Sane(c) && Shaped(c, s, start, history) && LastTime(start, history) <= r.now
    ensures var ready := Ready(c, s, r);
            && Listed(ready) && Ascending(ready.order, history) && Plain(c, ready.table, TableAfter(c, history))
            && ready.lastSweep <= r.now && |ready.table| <= c.maxBuckets
            && (r.principal in ready.table || |ready.table| < c.maxBuckets)
  {
    hide Ascending, TableAfter, Full, ForcedOut, Listed, Keep;
    if SweepDue(c, s, r) {
      SweptListed(c, s, r.now);
      SweptSize(c, s, r.now);
      var table := Swept(c, s, r.now).table;
      KeepAscends(s.order, table.Keys, history);
    }
  }

  lemma NextListed(s: State, p: string, b: Bucket, lastSweep: real)
    requires Listed(s)
    ensures Listed(State(s.table[p := b], Keep(s.order, s.table.Keys - {p}) + [p], lastSweep))
  {
    hide Keep;
    var kept := Keep(s.order, s.table.Keys - {p});
    KeepMembers(s.order, s.table.Keys - {p});
    KeepListed(s.order, s.table.Keys - {p});
    forall i | 0 <= i < |kept| ensures kept[i] != p { assert kept[i] in kept; }
    forall q ensures q in kept + [p] <==> q in s.table[p := b] {}
  }

  lemma NextAscending(order: seq<string>, names: set<string>, history: seq<Request>, r: Request)
    requires Ascending(order, history) && r.principal !in names
    ensures Ascending(Keep(order, names) + [r.principal], history + [r])
  {
    hide LastUse, Keep;
    var kept := Keep(order, names);
    KeepMembers(order, names);
    KeepAscends(order, names, history);
    LastUseNext(history, r, r.principal);
    forall i | 0 <= i < |kept| ensures LastUse(history + [r], kept[i]) == LastUse(history, kept[i]) < |history| {
      assert kept[i] in kept;
      LastUseNext(history, r, kept[i]);
    }
  }

  lemma NextPlain(c: Config, t: Table, reference: Table, p: string, now: real)
    requires Sane(c) && Plain(c, t, reference) && (p in t ==> t[p].updated <= now)
    ensures Plain(c, After(c, t, p, now), After(c, reference, p, now))
  {
    hide LevelOf;
    LevelPositive(c, t, p, now);
  }

  /** SHAPE. Whatever was asked: each bucket listed once, least recently used first, never more than the
      limit, none in debt. */
  lemma {:induction false} EveryRunIsShaped(c: Config, start: real, history: seq<Request>)
    requires Sane(c) && Timely(start, history)
    ensures Shaped(c, Run(c, start, history), start, history)
  {
    hide Ascending, TableAfter, Listed, Keep, LevelOf, Ready, After, Spend;
    if history == [] {
      EmptyShaped(c, start);
    } else {
      var n := |history| - 1;
      var before, r := history[..n], history[n];
      var s := Run(c, start, before);
      assert history == before + [r];
      assert LastTime(start, before) <= r.now;
      EveryRunIsShaped(c, start, before);
      ReadyShaped(c, s, start, before, r);
      var ready := Ready(c, s, r);
      StateNext(c, ready, start, before, r);
    }
  }

  lemma EmptyShaped(c: Config, start: real)
    ensures Shaped(c, State(map[], [], start), start, [])
  {}

  lemma StateNext(c: Config, s: State, start: real, history: seq<Request>, r: Request)
    requires Sane(c) && Monotone(history) && LastTime(start, history) <= r.now
    requires Listed(s) && Ascending(s.order, history) && Plain(c, s.table, TableAfter(c, history))
    requires s.lastSweep <= r.now && |s.table| <= c.maxBuckets
    requires r.principal in s.table || |s.table| < c.maxBuckets
    ensures Shaped(c, State(After(c, s.table, r.principal, r.now),
                            Keep(s.order, s.table.Keys - {r.principal}) + [r.principal], s.lastSweep),
                   start, history + [r])
  {
    hide Ascending, Listed, Keep, LevelOf, Spend, TableAfter;
    var p, now := r.principal, r.now;
    var b := Spend(LevelOf(c, s.table, p, now), now);
    NextListed(s, p, b, s.lastSweep);
    NextAscending(s.order, s.table.Keys - {p}, history, r);
    SizeAfter(s.table, p, b);
    TableAfterNext(c, history, r);
    LevelsAreNeverNegative(c, history, p);
    NextPlain(c, s.table, TableAfter(c, history), p, now);
  }

  // ---- the limiter in place --------------------------------------------------------------------

  class Limiter {
    const config: Config
    var buckets: Table
    var order: seq<string>
    var lastSweep: real
    ghost const start: real
    ghost var history: seq<Request>

    ghost function Current(): State
      reads this
    {
      State(buckets, order, lastSweep)
    }

    ghost predicate Valid()
      reads this
    {
      Sane(config) && Timely(start, history) && Current() == Run(config, start, history)
    }

    constructor (config: Config, now: real)
      requires Sane(config)
      ensures Valid() && this.config == config && history == [] && start == now
    {
      this.config := config;
      buckets, order, lastSweep := map[], [], now;
      start, history := now, [];
    }

    /** The first half of `_sweep`: refilled buckets go. */
    method DropRefilled(now: real)
      requires Listed(Current())
      modifies this`buckets, this`order
      ensures buckets == InUse(config, old(buckets), now)
      ensures order == Keep(old(order), buckets.Keys)
      ensures Listed(Current())
    {
      hide Full, Keep;
      ghost var before := buckets;
      ghost var inUse := InUse(config, buckets, now);
      var all := order;
      var kept: seq<string> := [];
      KeepNothing(inUse.Keys);
      assert all[..0] == [];
      for i := 0 to |all|
        invariant kept == Keep(all[..i], inUse.Keys)
        invariant forall p :: p in buckets <==> p in before && (p in all[..i] ==> p in inUse)
        invariant forall p :: p in buckets ==> buckets[p] == before[p]
      {
        var name := all[i];
        assert all[..i + 1] == all[..i] + [name];
        KeepNext(all[..i], name, inUse.Keys);
        assert name !in all[..i] by { assert forall k :: 0 <= k < i ==> all[..i][k] == all[k] != name; }
        if Full(config, buckets[name], now) {
          buckets := buckets - {name};
        } else {
          kept := kept + [name];
        }
      }
      assert all[..|all|] == all;
      assert buckets == inUse;
      order := kept;
      KeepMembers(all, inUse.Keys);
      KeepListed(all, inUse.Keys);
    }

    /** The second half: the least recently used go until there is room, refilled or not. */
    method MakeRoom()
      requires Listed(Current()) && config.maxBuckets >= 1 && |buckets| <= config.maxBuckets
      modifies this`buckets, this`order
      ensures |old(buckets)| < config.maxBuckets ==> buckets == old(buckets) && order == old(order)
      ensures |old(buckets)| >= config.maxBuckets ==>
                old(order) != [] && order == old(order)[1..] && buckets == old(buckets) - {old(order)[0]}
    {
      ghost var before, listed := buckets, order;
      while |buckets| >= config.maxBuckets
        invariant Listed(Current()) && |buckets| <= config.maxBuckets
        invariant || (buckets == before && order == listed)
                  || (|before| == config.maxBuckets > |buckets| && listed != []
                      && order == listed[1..] && buckets == before - {listed[0]})
        decreases |buckets|
      {
        OldestListed(Current());
        buckets := buckets - {order[0]};
        order := order[1..];
      }
    }

    /** `_sweep`. */
    method Sweep(now: real)
      requires Listed(Current()) && config.maxBuckets >= 1 && |buckets| <= config.maxBuckets
      modifies this`buckets, this`order, this`lastSweep
      ensures Current() == Swept(config, old(Current()), now)
    {
      hide Full, Keep, InUse, ForcedOut, Distinct;
      ghost var before := Current();
      lastSweep := now;
      DropRefilled(now);
      ghost var dropped := Current();
      InUseSize(config, before, now);
      MakeRoom();
      SweptInTwo(config, before, dropped, Current(), now);
    }

    /** `acquire`. Its answer, its whole new state, and: unless the principal lost a bucket in use, the answer
        is the one of a table that never evicts. */
    method Acquire(principal: string, now: real) returns (r: Decision)
      requires Valid() && LastTime(start, history) <= now
      modifies this
      ensures Valid() && history == old(history) + [Request(principal, now)]
      ensures r == Reply(config, old(Current()), Request(principal, now))
      ensures Current() == Next(config, old(Current()), Request(principal, now))
      ensures |buckets| <= config.maxBuckets
      ensures KeptBucket(config, start, history, principal) ==>
                r == Answer(config, old(history), Request(principal, now))
    {
      hide TableAfter, LevelOf, Refill, Swept, Keep, Run, Full, Ascending, Plain, Listed, KeptBucket;
      ghost var request := Request(principal, now);
      NeverForced(config, start, history, request);
      EveryRunIsShaped(config, start, history);
      ReadyShaped(config, Current(), start, history, request);
      TimelyNext(start, history, request);
      RunIsNext(config, start, history, request);
      EveryRunIsShaped(config, start, history + [request]);
      if now - lastSweep >= Burst(config) / config.rate || (|buckets| >= config.maxBuckets && principal !in buckets) {
        Sweep(now);
      }
      assert Current() == Ready(config, old(Current()), request);
      var bucket := if principal in buckets then buckets[principal] else Bucket(Burst(config), now);
      var tokens := Min(Burst(config), bucket.tokens + Refill(config, now - bucket.updated));
      DefaultLevel(config, buckets, principal, now);
      if tokens < 1.0 {
        Store(principal, Bucket(tokens, now));
        r := Refused(RetryAfter(config, tokens));
      } else {
        Store(principal, Bucket(tokens - 1.0, now));
        r := Granted;
      }
      history := history + [request];
    }

    /** The bucket popped and put back, at the young end. */
    method Store(principal: string, bucket: Bucket)
      requires Listed(Current())
      modifies this`buckets, this`order
      ensures buckets == old(buckets)[principal := bucket]
      ensures order == Keep(old(order), old(buckets).Keys - {principal}) + [principal]
    {
      hide Keep;
      var kept: seq<string> := [];
      KeepNothing(buckets.Keys - {principal});
      assert order[..0] == [];
      for i := 0 to |order|
        invariant order == old(order) && buckets == old(buckets)
        invariant kept == Keep(order[..i], buckets.Keys - {principal})
      {
        assert order[..i + 1] == order[..i] + [order[i]];
        KeepNext(order[..i], order[i], buckets.Keys - {principal});
        assert order[i] in order;
        if order[i] != principal {
          kept := kept + [order[i]];
        }
      }
      assert order[..|order|] == order;
      order := kept + [principal];
      buckets := buckets[principal := bucket];
    }
  }

  lemma KeepNothing(names: set<string>)
    ensures Keep([], names) == []
  {}

  lemma KeepNext(order: seq<string>, name: string, names: set<string>)
    ensures Keep(order + [name], names) == Keep(order, names) + (if name in names then [name] else [])
  {
    assert (order + [name])[..|order|] == order;
  }

  lemma TimelyNext(start: real, history: seq<Request>, r: Request)
    requires Timely(start, history) && LastTime(start, history) <= r.now
    ensures Timely(start, history + [r])
  {
    var all := history + [r];
    forall i, j | 0 <= i < j < |all| ensures all[i].now <= all[j].now {
      if j == |history| { assert history[i].now <= history[|history| - 1].now; }
    }
  }

  lemma SomeListed(s: State)
    requires Listed(s) && |s.table| >= 1
    ensures s.order != [] && s.order[0] in s.table
  {
    TableSize(s.table);
    var some :| some in s.table;
    assert some in s.order && s.order[0] in s.order;
  }

  lemma DistinctTail(order: seq<string>)
    requires order != [] && Distinct(order)
    ensures Distinct(order[1..]) && forall p :: p in order[1..] <==> p in order && p != order[0]
  {
    assert order == [order[0]] + order[1..];
    assert forall k :: 0 <= k < |order[1..]| ==> order[1..][k] == order[k + 1] != order[0];
  }

  lemma OldestListed(s: State)
    requires Listed(s) && |s.table| >= 1
    ensures s.order != [] && s.order[0] in s.table && |s.table - {s.order[0]}| == |s.table| - 1
    ensures Listed(State(s.table - {s.order[0]}, s.order[1..], s.lastSweep))
  {
    hide Distinct;
    SomeListed(s);
    DistinctTail(s.order);
    var rest := s.table - {s.order[0]};
    assert rest.Keys == s.table.Keys - {s.order[0]};
    TableSize(rest);
    TableSize(s.table);
  }

  /** What is in use is at the cap only if everything was and nothing had refilled. */
  lemma InUseSize(c: Config, s: State, now: real)
    requires Listed(s) && c.maxBuckets >= 1 && |s.table| <= c.maxBuckets
    ensures var inUse := InUse(c, s.table, now);
            && |inUse| <= |s.table|
            && (|inUse| >= c.maxBuckets ==> inUse == s.table && s.order != [] && ForcedOut(c, s, now) == {s.order[0]})
            && (|inUse| < c.maxBuckets ==> ForcedOut(c, s, now) == {})
  {
    hide Full, Listed;
    var inUse := InUse(c, s.table, now);
    TableSize(s.table);
    TableSize(inUse);
    SubsetSize(inUse.Keys, s.table.Keys);
    if forall p :: p in s.table ==> !Full(c, s.table[p], now) {
      assert inUse == s.table;
      if |s.table| >= 1 { SomeListed(s); }
    } else {
      var p :| p in s.table && Full(c, s.table[p], now);
      assert inUse.Keys <= s.table.Keys - {p};
      SubsetSize(inUse.Keys, s.table.Keys - {p});
    }
  }

  lemma SweptInTwo(c: Config, s: State, dropped: State, end: State, now: real)
    requires Listed(s) && Listed(dropped) && c.maxBuckets >= 1 && |s.table| <= c.maxBuckets
    requires dropped.table == InUse(c, s.table, now)
    requires dropped.order == Keep(s.order, dropped.table.Keys)
    requires end.lastSweep == now
    requires |dropped.table| < c.maxBuckets ==> end.table == dropped.table && end.order == dropped.order
    requires |dropped.table| >= c.maxBuckets ==>
               dropped.order != [] && end.order == dropped.order[1..] && end.table == dropped.table - {dropped.order[0]}
    ensures end == Swept(c, s, now)
  {
    hide Keep, InUse, ForcedOut, Distinct;
    InUseSize(c, s, now);
    if |dropped.table| < c.maxBuckets {
      assert end.table == dropped.table - {};
    } else {
      KeepAll(s.order, dropped.table.Keys);
      DistinctTail(s.order);
      KeepTail(s.order, end.table.Keys);
    }
  }

  lemma {:induction false} KeepTail(order: seq<string>, names: set<string>)
    requires order != [] && order[0] !in names && forall p :: p in order[1..] ==> p in names
    ensures Keep(order, names) == order[1..]
  {
    KeepRest(order, names, |order|);
    assert order[..|order|] == order && order[1..|order|] == order[1..];
  }

  lemma {:induction false} KeepRest(order: seq<string>, names: set<string>, n: nat)
    requires 1 <= n <= |order| && order[0] !in names && forall p :: p in order[1..] ==> p in names
    ensures Keep(order[..n], names) == order[1..n]
  {
    hide Keep;
    if n == 1 {
      KeepNothing(names);
      KeepNext([], order[0], names);
      assert order[..1] == [] + [order[0]];
    } else {
      KeepRest(order, names, n - 1);
      KeepNext(order[..n - 1], order[n - 1], names);
      assert order[..n] == order[..n - 1] + [order[n - 1]];
      assert order[1..][n - 2] == order[n - 1];
    }
  }

  /** A missing bucket and a new one are the same. */
  lemma DefaultLevel(c: Config, t: Table, p: string, now: real)
    ensures var b := if p in t then t[p] else Bucket(Burst(c), now);
            Min(Burst(c), b.tokens + Refill(c, now - b.updated)) == LevelOf(c, t, p, now)
  {
    hide Refill;
    RefillAdds(c, 0.0, 0.0);
    assert now - now == 0.0;
  }

  // ---- what callers are promised ---------------------------------------------------------------

  predicate Grants(c: Config, history: seq<Request>, k: nat)
    requires c.rate > 0.0 && k < |history|
  {
    Answer(c, history[..k], history[k]) == Granted
  }

  /** The grants of a principal among the requests from position `i` on. */
  function GrantsFrom(c: Config, history: seq<Request>, p: string, i: nat): nat
    requires c.rate > 0.0 && i <= |history|
    decreases |history|
  {
    if i == |history| then 0
    else
      var k := |history| - 1;
      (if history[k].principal == p && Grants(c, history, k) then 1 else 0) + GrantsFrom(c, history[..k], p, i)
  }

  lemma {:induction false} LevelsAreNeverNegative(c: Config, history: seq<Request>, p: string)
    requires c.rate > 0.0 && Monotone(history)
    ensures var t := TableAfter(c, history);
            p in t ==> history != [] && t[p].tokens >= 0.0 && t[p].updated <= history[|history| - 1].now
  {
    hide LevelOf;
    if history != [] {
      var n := |history| - 1;
      var t := TableAfter(c, history[..n]);
      LevelsAreNeverNegative(c, history[..n], p);
      if n > 0 { assert history[..n][n - 1] == history[n - 1]; }
      if history[n].principal == p { LevelPositive(c, t, p, history[n].now); }
    }
  }

  lemma LevelPositive(c: Config, t: Table, p: string, now: real)
    requires c.rate > 0.0 && (p in t ==> t[p].tokens >= 0.0 && t[p].updated <= now)
    ensures 0.0 <= LevelOf(c, t, p, now) <= Burst(c)
  {
    hide Refill;
    RefillAdds(c, 0.0, 0.0);
    if p in t { RefillGrows(c, 0.0, now - t[p].updated); }
  }

  /** A bucket gains at most the rate times the time. */
  lemma LevelGrows(c: Config, t: Table, p: string, now: real, later: real)
    requires c.rate > 0.0 && now <= later
    ensures LevelOf(c, t, p, later) <= LevelOf(c, t, p, now) + Refill(c, later - now)
  {
    hide Refill;
    RefillAdds(c, 0.0, 0.0);
    RefillGrows(c, 0.0, later - now);
    if p in t {
      RefillAdds(c, now - t[p].updated, later - now);
      assert later - t[p].updated == (now - t[p].updated) + (later - now);
    }
  }

  lemma GrantsNext(c: Config, history: seq<Request>, p: string, i: nat)
    requires c.rate > 0.0 && i < |history|
    ensures var n := |history| - 1;
            GrantsFrom(c, history, p, i)
            == (if history[n].principal == p && Grants(c, history, n) then 1 else 0) + GrantsFrom(c, history[..n], p, i)
    ensures GrantsFrom(c, history[..i], p, i) == 0
  {
    hide Grants;
    assert |history[..i]| == i;
  }

  /** Grants and what is left come out of the burst and the refill. */
  lemma {:induction false} GrantsAreBudgeted(c: Config, history: seq<Request>, p: string, i: nat, now: real)
    requires c.rate > 0.0 && Monotone(history) && i < |history| && history[|history| - 1].now <= now
    ensures GrantsFrom(c, history, p, i) as real + LevelOf(c, TableAfter(c, history), p, now)
         <= Burst(c) + Refill(c, now - history[i].now)
    decreases |history|
  {
    hide Answer, LevelOf, Refill, Grants, GrantsFrom, TableAfter, Burst;
    var n := |history| - 1;
    var last, start := history[n].now, history[i].now;
    var before, after := TableAfter(c, history[..n]), TableAfter(c, history);
    RefillAdds(c, 0.0, 0.0);
    GrantsNext(c, history, p, i);
    if i < n {
      GrantsAreBudgeted(c, history[..n], p, i, last);
    } else {
      RequestLevel(c, history, p);
      assert last - start == 0.0;
    }
    LastGrantPays(c, history, p);
    LevelGrows(c, after, p, last, now);
    RefillAdds(c, last - start, now - last);
    assert now - start == (last - start) + (now - last);
  }

  /** What a principal has when the last request comes. */
  lemma RequestLevel(c: Config, history: seq<Request>, p: string)
    requires c.rate > 0.0 && history != [] && Monotone(history)
    ensures var n := |history| - 1;
            0.0 <= LevelOf(c, TableAfter(c, history[..n]), p, history[n].now) <= Burst(c)
  {
    hide LevelOf, TableAfter;
    var n := |history| - 1;
    LevelsAreNeverNegative(c, history[..n], p);
    if n > 0 { assert history[..n][n - 1] == history[n - 1]; }
    LevelPositive(c, TableAfter(c, history[..n]), p, history[n].now);
  }

  lemma LastGrantPays(c: Config, history: seq<Request>, p: string)
    requires c.rate > 0.0 && history != [] && Monotone(history)
    ensures var n := |history| - 1;
            var now := history[n].now;
            LevelOf(c, TableAfter(c, history), p, now)
            == LevelOf(c, TableAfter(c, history[..n]), p, now)
               - (if history[n].principal == p && Grants(c, history, n) then 1.0 else 0.0)
  {
    hide LevelOf;
    var n := |history| - 1;
    var now := history[n].now;
    var t := TableAfter(c, history[..n]);
    RequestLevel(c, history, p);
    SpentLevel(c, t, history[n].principal, p, now);
  }

  lemma SpentLevel(c: Config, t: Table, q: string, p: string, now: real)
    requires c.rate > 0.0 && LevelOf(c, t, p, now) <= Burst(c)
    ensures LevelOf(c, After(c, t, q, now), p, now)
         == LevelOf(c, t, p, now) - (if q == p && LevelOf(c, t, p, now) >= 1.0 then 1.0 else 0.0)
  {
    hide Refill;
    RefillAdds(c, 0.0, 0.0);
    assert now - now == 0.0;
  }

  /** WINDOW. Between any two moments a principal is granted at most the burst plus the rate times the time
      between them. */
  lemma GrantsInAnyWindowAreBounded(c: Config, history: seq<Request>, p: string, i: nat)
    requires c.rate > 0.0 && Monotone(history) && i < |history|
    ensures GrantsFrom(c, history, p, i) as real
         <= c.burst as real + (history[|history| - 1].now - history[i].now) * c.rate
  {
    hide LevelOf, GrantsFrom, TableAfter;
    var now := history[|history| - 1].now;
    GrantsAreBudgeted(c, history, p, i, now);
    LevelsAreNeverNegative(c, history, p);
    LevelPositive(c, TableAfter(c, history), p, now);
  }

  /** RETRY, without eviction. A refused caller who asks again, not before the advertised time has passed and
      whoever else asked in between, is granted iff buckets can hold a token at all. */
  lemma WaitingTheAdvertisedTimeIsEnough(c: Config, history: seq<Request>, r: Request, between: seq<Request>,
                                         later: real)
    requires c.rate > 0.0 && Answer(c, history, r).Refused?
    requires forall k :: 0 <= k < |between| ==> between[k].principal != r.principal
    requires later >= r.now + Answer(c, history, r).retryAfter as real
    ensures Answer(c, history + [r] + between, Request(r.principal, later)) == Granted <==> c.burst >= 1
  {
    hide LevelOf, TableAfter, RetryAfter, Refill;
    TableAfterNext(c, history, r);
    Untouched(c, history + [r], between, r.principal);
    RefusedLevel(c, TableAfter(c, history), r.principal, r.now, later);
    SameBucket(c, TableAfter(c, history + [r]), TableAfter(c, history + [r] + between), r.principal, later);
  }

  lemma SameBucket(c: Config, a: Table, b: Table, p: string, now: real)
    requires p in a && p in b && a[p] == b[p]
    ensures LevelOf(c, a, p, now) == LevelOf(c, b, p, now)
  {}

  lemma {:induction false} Untouched(c: Config, history: seq<Request>, between: seq<Request>, p: string)
    requires forall k :: 0 <= k < |between| ==> between[k].principal != p
    requires p in TableAfter(c, history)
    ensures var t := TableAfter(c, history + between); p in t && t[p] == TableAfter(c, history)[p]
  {
    if between == [] {
      assert history + between == history;
    } else {
      var n := |between| - 1;
      Untouched(c, history, between[..n], p);
      assert history + between == (history + between[..n]) + [between[n]];
      TableAfterNext(c, history + between[..n], between[n]);
    }
  }

  lemma RefusedLevel(c: Config, t: Table, p: string, now: real, later: real)
    requires c.rate > 0.0 && LevelOf(c, t, p, now) < 1.0
    requires later >= now + RetryAfter(c, LevelOf(c, t, p, now)) as real
    ensures LevelOf(c, After(c, t, p, now), p, later) >= 1.0 <==> c.burst >= 1
  {
    hide Refill, RetryAfter;
    var tokens := LevelOf(c, t, p, now);
    assert After(c, t, p, now)[p] == Bucket(tokens, now);
    WaitRefills(c, tokens, later - now);
  }

  lemma WaitRefills(c: Config, tokens: real, time: real)
    requires c.rate > 0.0 && time >= RetryAfter(c, tokens) as real
    ensures tokens + Refill(c, time) >= 1.0
  {
    var missing := 1.0 - tokens;
    assert Ceil(missing / c.rate) as real >= missing / c.rate;
    assert time >= missing / c.rate;
    RefillGrows(c, missing / c.rate, time);
    assert (missing / c.rate) * c.rate == missing;
  }

  // ---- what the limiter's callers are promised -------------------------------------------------

  lemma LevelLater(c: Config, t: Table, p: string, now: real, later: real)
    requires c.rate > 0.0 && now <= later
    ensures LevelOf(c, t, p, later) == Min(Burst(c), LevelOf(c, t, p, now) + Refill(c, later - now))
  {
    hide Refill;
    RefillAdds(c, 0.0, 0.0);
    RefillGrows(c, 0.0, later - now);
    if p in t {
      RefillAdds(c, now - t[p].updated, later - now);
      assert later - t[p].updated == (now - t[p].updated) + (later - now);
    }
  }

  /** A principal loses a bucket in use to the request at position `k`. */
  predicate ForcedAt(c: Config, start: real, history: seq<Request>, k: nat, p: string)
    requires c.rate > 0.0 && k < |history|
  {
    var s := Run(c, start, history[..k]);
    SweepDue(c, s, history[k]) && p in ForcedOut(c, s, history[k].now)
  }

  /** It never did. */
  ghost predicate KeptBucket(c: Config, start: real, history: seq<Request>, p: string)
    requires c.rate > 0.0
  {
    forall k :: 0 <= k < |history| ==> !ForcedAt(c, start, history, k, p)
  }

  /** A sweep changes the level of nobody it does not force out, and lowers nobody's. */
  lemma ReadyLevel(c: Config, s: State, r: Request, p: string)
    requires c.rate > 0.0
    ensures LevelOf(c, Ready(c, s, r).table, p, r.now)
         == if SweepDue(c, s, r) && p in ForcedOut(c, s, r.now) then Burst(c) else LevelOf(c, s.table, p, r.now)
  {
    hide Refill, Keep, ForcedOut;
  }

  lemma LevelAtMost(c: Config, t: Table, p: string, now: real)
    ensures LevelOf(c, t, p, now) <= Burst(c)
  {}

  ghost predicate Agrees(c: Config, t: Table, reference: Table, p: string, now: real) {
    LevelOf(c, t, p, now) == LevelOf(c, reference, p, now)
  }

  lemma NextAgrees(c: Config, s: State, reference: Table, r: Request, p: string)
    requires c.rate > 0.0 && Agrees(c, s.table, reference, p, r.now)
    requires !(SweepDue(c, s, r) && p in ForcedOut(c, s, r.now))
    ensures Agrees(c, Next(c, s, r).table, After(c, reference, r.principal, r.now), p, r.now)
  {
    hide LevelOf, After, Ready, ForcedOut, Keep;
    ReadyLevel(c, s, r, p);
    LevelAtMost(c, s.table, p, r.now);
    SpentLevel(c, Ready(c, s, r).table, r.principal, p, r.now);
    SpentLevel(c, reference, r.principal, p, r.now);
  }

  lemma {:induction false} ReferenceUpdated(c: Config, history: seq<Request>, p: string)
    ensures p in TableAfter(c, history) <==> LastUse(history, p) >= 0
    ensures p in TableAfter(c, history) ==> TableAfter(c, history)[p].updated == history[LastUse(history, p)].now
  {
    hide LevelOf;
    if history != [] {
      ReferenceUpdated(c, history[..|history| - 1], p);
    }
  }

  /** From position `i` on a principal starts anew: at the very start, or after a refill horizon without a
      request of its own. */
  predicate Rested(c: Config, history: seq<Request>, p: string, i: nat)
    requires c.rate > 0.0 && i < |history|
  {
    var k := LastUse(history[..i], p);
    k == -1 || history[i].now - history[k].now >= Burst(c) / c.rate
  }

  lemma RestedAgrees(c: Config, start: real, history: seq<Request>, p: string, i: nat)
    requires Sane(c) && Timely(start, history) && i < |history| && Rested(c, history, p, i)
    ensures Agrees(c, Run(c, start, history[..i]).table, TableAfter(c, history[..i]), p, history[i].now)
  {
    hide Run, TableAfter, Refill, Listed, Ascending;
    var t, reference, now := Run(c, start, history[..i]).table, TableAfter(c, history[..i]), history[i].now;
    EveryRunIsShaped(c, start, history[..i]);
    ReferenceUpdated(c, history[..i], p);
    LevelsAreNeverNegative(c, history[..i], p);
    if p in reference {
      RefillGrows(c, Burst(c) / c.rate, now - reference[p].updated);
      HorizonRefills(c);
    }
  }

  lemma HorizonRefills(c: Config)
    requires c.rate > 0.0
    ensures Refill(c, Burst(c) / c.rate) == Burst(c)
  {}

  lemma {:induction false} AgreesFrom(c: Config, start: real, history: seq<Request>, p: string, i: nat, k: nat)
    requires Sane(c) && Timely(start, history) && i <= k < |history| && Rested(c, history, p, i)
    requires forall j :: i <= j < k ==> !ForcedAt(c, start, history, j, p)
    ensures Agrees(c, Run(c, start, history[..k]).table, TableAfter(c, history[..k]), p, history[k].now)
  {
    hide LevelOf, ForcedOut, Rested, Run, TableAfter, Next, After;
    if k == i {
      RestedAgrees(c, start, history, p, i);
    } else {
      AgreesFrom(c, start, history, p, i, k - 1);
      var before, r := history[..k - 1], history[k - 1];
      var s, reference := Run(c, start, before), TableAfter(c, before);
      assert history[..k] == before + [r];
      assert !ForcedAt(c, start, history, k - 1, p);
      RunIsNext(c, start, before, r);
      TableAfterNext(c, before, r);
      NextAgrees(c, s, reference, r, p);
      LevelLater(c, Next(c, s, r).table, p, r.now, history[k].now);
      LevelLater(c, After(c, reference, r.principal, r.now), p, r.now, history[k].now);
    }
  }

  /** INVISIBLE. A request is answered exactly as by a table that never evicts, unless its principal lost a
      bucket still in use since it last started anew. */
  lemma EvictionIsInvisible(c: Config, start: real, history: seq<Request>, i: nat, k: nat)
    requires Sane(c) && Timely(start, history) && i <= k < |history| && Rested(c, history, history[k].principal, i)
    requires forall j :: i <= j <= k ==> !ForcedAt(c, start, history, j, history[k].principal)
    ensures Reply(c, Run(c, start, history[..k]), history[k]) == Answer(c, history[..k], history[k])
  {
    hide LevelOf, ForcedOut, Rested, Run, TableAfter, Ready;
    var r := history[k];
    AgreesFrom(c, start, history, r.principal, i, k);
    assert !ForcedAt(c, start, history, k, r.principal);
    ReadyLevel(c, Run(c, start, history[..k]), r, r.principal);
  }

  lemma NeverForced(c: Config, start: real, history: seq<Request>, r: Request)
    requires Sane(c) && Timely(start, history) && LastTime(start, history) <= r.now
    ensures KeptBucket(c, start, history + [r], r.principal) ==>
              Reply(c, Run(c, start, history), r) == Answer(c, history, r)
  {
    hide ForcedAt, Run, Reply, Answer;
    var all := history + [r];
    TimelyNext(start, history, r);
    assert all[..|history|] == history && all[..0] == [] && all[|history|] == r;
    if KeptBucket(c, start, all, r.principal) { EvictionIsInvisible(c, start, all, 0, |history|); }
  }

  /** Nobody loses a bucket in use while there is room, and at most one principal at a time does: the one
      that has not asked for longest. */
  lemma ForcedOnlyAtTheCap(c: Config, start: real, history: seq<Request>, k: nat, p: string)
    requires Sane(c) && Timely(start, history) && k < |history| && ForcedAt(c, start, history, k, p)
    ensures var t := Run(c, start, history[..k]).table;
            && |t| == c.maxBuckets && p in t
            && forall q :: q in t && q != p ==>
                 !Full(c, t[q], history[k].now) && LastUse(history[..k], p) < LastUse(history[..k], q)
  {
    hide Run, Full, LastUse, Plain;
    EveryRunIsShaped(c, start, history[..k]);
    var s := Run(c, start, history[..k]);
    assert p == s.order[0] && p in s.order;
    forall q | q in s.table && q != p ensures LastUse(history[..k], p) < LastUse(history[..k], q) {
      assert q in s.order;
      var j :| 0 <= j < |s.order| && s.order[j] == q;
    }
  }

  // ---- forced evictions are a bounded leniency -------------------------------------------------

  predicate GrantedAt(c: Config, start: real, history: seq<Request>, k: nat, p: string)
    requires c.rate > 0.0 && k < |history|
  {
    history[k].principal == p && Reply(c, Run(c, start, history[..k]), history[k]) == Granted
  }

  /** What the limiter granted a principal from position `i` on. */
  function RunGrants(c: Config, start: real, history: seq<Request>, p: string, i: nat): nat
    requires c.rate > 0.0 && i <= |history|
    decreases |history|
  {
    if i == |history| then 0
    else
      var n := |history| - 1;
      RunGrants(c, start, history[..n], p, i) + (if GrantedAt(c, start, history, n, p) then 1 else 0)
  }

  /** How often it lost a bucket in use from position `i` on. */
  function Evictions(c: Config, start: real, history: seq<Request>, p: string, i: nat): nat
    requires c.rate > 0.0 && i <= |history|
    decreases |history|
  {
    if i == |history| then 0
    else
      var n := |history| - 1;
      Evictions(c, start, history[..n], p, i) + (if ForcedAt(c, start, history, n, p) then 1 else 0)
  }

  /** What one request does to a principal's level. */
  lemma NextLevel(c: Config, start: real, history: seq<Request>, p: string)
    requires c.rate > 0.0 && history != []
    ensures var n := |history| - 1;
            var now := history[n].now;
            LevelOf(c, Run(c, start, history).table, p, now)
            == (if ForcedAt(c, start, history, n, p) then Burst(c)
                else LevelOf(c, Run(c, start, history[..n]).table, p, now))
               - (if GrantedAt(c, start, history, n, p) then 1.0 else 0.0)
  {
    hide LevelOf, After, Ready, ForcedOut, Keep;
    var n := |history| - 1;
    var s, r := Run(c, start, history[..n]), history[n];
    ReadyLevel(c, s, r, p);
    LevelAtMost(c, s.table, p, r.now);
    SpentLevel(c, Ready(c, s, r).table, r.principal, p, r.now);
  }

  lemma RunLevel(c: Config, start: real, history: seq<Request>, p: string, now: real)
    requires Sane(c) && Timely(start, history) && LastTime(start, history) <= now
    ensures 0.0 <= LevelOf(c, Run(c, start, history).table, p, now) <= Burst(c)
  {
    hide LevelOf, Run, TableAfter, Listed, Ascending;
    EveryRunIsShaped(c, start, history);
    LevelsAreNeverNegative(c, history, p);
    LevelPositive(c, Run(c, start, history).table, p, now);
  }

  /** LENIENCY. Between any two moments the limiter grants a principal at most the burst plus the rate times
      the time between them, plus one burst for every time it lost a bucket in use. */
  lemma LimiterGrantsAreBounded(c: Config, start: real, history: seq<Request>, p: string, i: nat)
    requires Sane(c) && Timely(start, history) && i < |history|
    ensures RunGrants(c, start, history, p, i) as real
         <= Burst(c) + Refill(c, history[|history| - 1].now - history[i].now)
            + Evictions(c, start, history, p, i) as real * Burst(c)
  {
    hide LevelOf, Run, RunGrants, Evictions, Refill;
    var now := history[|history| - 1].now;
    RunIsBudgeted(c, start, history, p, i, now);
    RunLevel(c, start, history, p, now);
  }

  lemma {:induction false} RunIsBudgeted(c: Config, start: real, history: seq<Request>, p: string, i: nat, now: real)
    requires Sane(c) && Timely(start, history) && i < |history| && history[|history| - 1].now <= now
    ensures RunGrants(c, start, history, p, i) as real + LevelOf(c, Run(c, start, history).table, p, now)
         <= Burst(c) + Refill(c, now - history[i].now) + Evictions(c, start, history, p, i) as real * Burst(c)
    decreases |history|
  {
    hide LevelOf, Refill, Run, RunGrants, Evictions, ForcedAt, GrantedAt;
    var n := |history| - 1;
    var before, last := history[..n], history[n].now;
    RefillAdds(c, 0.0, 0.0);
    if i < n {
      RunIsBudgeted(c, start, before, p, i, last);
      assert before[i] == history[i];
    } else {
      CountsStart(c, start, before, p);
      assert last - history[i].now == 0.0;
      LevelAtMost(c, Run(c, start, before).table, p, last);
    }
    RunLevel(c, start, before, p, last);
    NextLevel(c, start, history, p);
    CountsNext(c, start, history, p, i);
    LevelLater(c, Run(c, start, history).table, p, last, now);
    RefillAdds(c, last - history[i].now, now - last);
    assert now - history[i].now == (last - history[i].now) + (now - last);
  }

  lemma CountsStart(c: Config, start: real, history: seq<Request>, p: string)
    requires c.rate > 0.0
    ensures RunGrants(c, start, history, p, |history|) == 0 == Evictions(c, start, history, p, |history|)
  {}

  lemma CountsNext(c: Config, start: real, history: seq<Request>, p: string, i: nat)
    requires c.rate > 0.0 && i < |history|
    ensures var n := |history| - 1;
            && RunGrants(c, start, history, p, i)
               == RunGrants(c, start, history[..n], p, i) + (if GrantedAt(c, start, history, n, p) then 1 else 0)
            && Evictions(c, start, history, p, i) as real * Burst(c)
               == Evictions(c, start, history[..n], p, i) as real * Burst(c)
                  + (if ForcedAt(c, start, history, n, p) then Burst(c) else 0.0)
  {
    hide ForcedAt, GrantedAt, Burst, RunGrants, Evictions;
    CountsUnfold(c, start, history, p, i);
    OneMore(Evictions(c, start, history[..|history| - 1], p, i), Burst(c));
  }

  lemma CountsUnfold(c: Config, start: real, history: seq<Request>, p: string, i: nat)
    requires c.rate > 0.0 && i < |history|
    ensures var n := |history| - 1;
            && RunGrants(c, start, history, p, i)
               == RunGrants(c, start, history[..n], p, i) + (if GrantedAt(c, start, history, n, p) then 1 else 0)
            && Evictions(c, start, history, p, i)
               == Evictions(c, start, history[..n], p, i) + (if ForcedAt(c, start, history, n, p) then 1 else 0)
  {
    hide ForcedAt, GrantedAt;
  }

  lemma OneMore(n: nat, b: real)
    ensures (n + 1) as real * b == n as real * b + b
  {
    assert (n + 1) as real == n as real + 1.0;
  }

  /** RETRY. The limiter itself keeps what it advertised, evictions or not: a refused caller who asks again,
      not before that time has passed and whoever else asked in between, is granted iff buckets can hold a
      token at all. */
  lemma TheLimiterKeepsItsWord(c: Config, start: real, history: seq<Request>, r: Request, between: seq<Request>,
                               later: real)
    requires Sane(c) && Timely(start, history + [r] + between)
    requires forall k :: 0 <= k < |between| ==> between[k].principal != r.principal
    requires Reply(c, Run(c, start, history), r).Refused? && LastTime(start, history + [r] + between) <= later
    requires later >= r.now + Reply(c, Run(c, start, history), r).retryAfter as real
    ensures Reply(c, Run(c, start, history + [r] + between), Request(r.principal, later)) == Granted <==> c.burst >= 1
  {
    hide LevelOf, Run, RetryAfter, Refill, Ready, Next, After, Reply, Timely, LastTime;
    var p := r.principal;
    var s, asked := Run(c, start, history), history + [r];
    var end := Run(c, start, asked + between);
    var tokens := LevelOf(c, Ready(c, s, r).table, p, r.now);
    assert asked[|asked| - 1] == r;
    ReplyByLevel(c, s, r);
    RefusedKeepsLevel(c, start, history, r);
    LevelNeverFalls(c, start, asked, between, p, later);
    WaitRefills(c, tokens, later - r.now);
    ReplyByLevel(c, end, Request(p, later));
    ReadyLevel(c, end, Request(p, later), p);
    LevelAtMost(c, end.table, p, later);
  }

  lemma ReplyByLevel(c: Config, s: State, r: Request)
    requires c.rate > 0.0
    ensures var tokens := LevelOf(c, Ready(c, s, r).table, r.principal, r.now);
            && (Reply(c, s, r) == Granted <==> tokens >= 1.0)
            && (Reply(c, s, r).Refused? ==> Reply(c, s, r).retryAfter == RetryAfter(c, tokens))
  {
    hide LevelOf, Ready, RetryAfter;
  }

  /** A refused request leaves its principal what it had. */
  lemma RefusedKeepsLevel(c: Config, start: real, history: seq<Request>, r: Request)
    requires c.rate > 0.0 && Reply(c, Run(c, start, history), r).Refused?
    ensures LevelOf(c, Run(c, start, history + [r]).table, r.principal, r.now)
         == LevelOf(c, Ready(c, Run(c, start, history), r).table, r.principal, r.now)
  {
    hide LevelOf, Run, Ready, Next, After, Reply;
    var s := Run(c, start, history);
    RunIsNext(c, start, history, r);
    NextTable(c, s, r);
    LevelAtMost(c, Ready(c, s, r).table, r.principal, r.now);
    SpentLevel(c, Ready(c, s, r).table, r.principal, r.principal, r.now);
    ReplyByLevel(c, s, r);
  }

  lemma NextTable(c: Config, s: State, r: Request)
    requires c.rate > 0.0
    ensures Next(c, s, r).table == After(c, Ready(c, s, r).table, r.principal, r.now)
  {}

  /** Others' requests never lower a principal's level. */
  lemma {:induction false} LevelNeverFalls(c: Config, start: real, history: seq<Request>, between: seq<Request>,
                                           p: string, later: real)
    requires c.rate > 0.0 && history != [] && Timely(start, history + between)
    requires forall k :: 0 <= k < |between| ==> between[k].principal != p
    requires LastTime(start, history + between) <= later
    ensures var now := history[|history| - 1].now;
            LevelOf(c, Run(c, start, history + between).table, p, later)
            >= Min(Burst(c), LevelOf(c, Run(c, start, history).table, p, now) + Refill(c, later - now))
  {
    hide LevelOf, Run, Refill, ForcedAt, GrantedAt;
    var now := history[|history| - 1].now;
    if between == [] {
      assert history + between == history;
      LevelLater(c, Run(c, start, history).table, p, now, later);
    } else {
      var n := |between| - 1;
      var before, all := history + between[..n], history + between;
      var last := between[n].now;
      assert all == before + [between[n]] && all[..|all| - 1] == before;
      assert now <= last by { assert all[|history| - 1].now == now; }
      LevelNeverFalls(c, start, history, between[..n], p, last);
      NextLevel(c, start, all, p);
      assert !GrantedAt(c, start, all, |all| - 1, p) by { NotGranted(c, start, all, p); }
      LevelLater(c, Run(c, start, all).table, p, last, later);
      LevelAtMost(c, Run(c, start, before).table, p, last);
      RefillAdds(c, last - now, later - last);
      RefillGrows(c, 0.0, later - last);
      RefillAdds(c, 0.0, 0.0);
      assert later - now == (last - now) + (later - last);
    }
  }

  lemma NotGranted(c: Config, start: real, history: seq<Request>, p: string)
    requires c.rate > 0.0 && history != [] && history[|history| - 1].principal != p
    ensures !GrantedAt(c, start, history, |history| - 1, p)
  {}
}

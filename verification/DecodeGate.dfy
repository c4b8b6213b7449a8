/** The decode gate as a step system over its atomic sections: arrivals, awaits that complete, threads
    that finish, cancellations at every await, and the hand-over to a thread nobody can stop. */
module DecodeGate {
  import opened Orders

  datatype Config = Config(workers: nat, queueDepth: nat, perProducer: nat)

  /** Where a request is. `done` says its worker thread has finished. */
  datatype Phase = WaitTurn | WaitSlot | Checking | Running(done: bool) | Orphaned(done: bool)

  datatype Place = Place(producer: string, phase: Phase)

  /** The gate's fields, and the requests behind them. */
  datatype Gate = Gate(slots: nat, admitted: nat, byProducer: map<string, nat>, turns: map<string, bool>,
                       requests: map<nat, Place>)

  datatype Step =
    | Arrive(id: nat, producer: string)
    | TakeTurn(id: nat)
    | TakeSlot(id: nat)
    | Leave(id: nat)      // the client has left, or no thread could be started
    | Start(id: nat)
    | Finish(id: nat)     // the worker thread ends
    | Return(id: nat)     // the request takes the result
    | Cancel(id: nat)
    | Callback(id: nat)   // the finished thread of a cancelled request gives its place back

  function Initial(c: Config): Gate {
    Gate(c.workers, 0, map[], map[], map[])
  }

  predicate HoldsSlot(x: Phase) {
    x.Checking? || x.Running? || x.Orphaned?
  }

  predicate HoldsTurn(x: Phase) {
    x.WaitSlot? || HoldsSlot(x)
  }

  function PlacesOf(g: Gate, producer: string): nat {
    if producer in g.byProducer then g.byProducer[producer] else 0
  }

  predicate Busy(c: Config, g: Gate, producer: string) {
    g.admitted >= c.workers + c.queueDepth || PlacesOf(g, producer) >= c.perProducer
  }

  predicate Known(g: Gate, id: nat) {
    && id in g.requests
    && g.requests[id].producer in g.byProducer && g.byProducer[g.requests[id].producer] > 0
    && g.requests[id].producer in g.turns && g.admitted > 0
  }

  predicate Enabled(c: Config, g: Gate, l: Step) {
    if l.Arrive? then l.id !in g.requests
    else
      && Known(g, l.id)
      && var r := g.requests[l.id];
      match l
      case TakeTurn(_) => r.phase == WaitTurn && !g.turns[r.producer]
      case TakeSlot(_) => r.phase == WaitSlot && g.slots > 0
      case Leave(_) => r.phase == Checking
      case Start(_) => r.phase == Checking
      case Finish(_) => r.phase == Running(false) || r.phase == Orphaned(false)
      case Return(_) => r.phase == Running(true)
      case Cancel(_) => !r.phase.Orphaned?
      case Callback(_) => r.phase == Orphaned(true)
  }

  /** `_admit`. */
  function Admit(g: Gate, id: nat, producer: string): Gate {
    Gate(g.slots, g.admitted + 1, g.byProducer[producer := PlacesOf(g, producer) + 1],
         if producer in g.turns then g.turns else g.turns[producer := false],
         g.requests[id := Place(producer, WaitTurn)])
  }

  /** `_release`. */
  function Release(g: Gate, id: nat, holdsSlot: bool): Gate
    requires Known(g, id)
  {
    var p := g.requests[id].producer;
    var slots := if holdsSlot then g.slots + 1 else g.slots;
    var turns := if holdsSlot then g.turns[p := false] else g.turns;
    var remaining := g.byProducer[p] - 1;
    Gate(slots, g.admitted - 1,
         if remaining > 0 then g.byProducer[p := remaining] else g.byProducer - {p},
         if remaining > 0 then turns else turns - {p},
         g.requests - {id})
  }

  function Moved(g: Gate, id: nat, phase: Phase): Gate
    requires id in g.requests
  {
    g.(requests := g.requests[id := Place(g.requests[id].producer, phase)])
  }

  function ReleaseTurn(g: Gate, id: nat): Gate
    requires id in g.requests
  {
    g.(turns := g.turns[g.requests[id].producer := false])
  }

  function Next(c: Config, g: Gate, l: Step): Gate
    requires Enabled(c, g, l)
  {
    match l
    case Arrive(id, producer) => if Busy(c, g, producer) then g else Admit(g, id, producer)
    case TakeTurn(id) => Moved(g, id, WaitSlot).(turns := g.turns[g.requests[id].producer := true])
    case TakeSlot(id) => Moved(g, id, Checking).(slots := g.slots - 1)
    case Leave(id) => Release(g, id, true)
    case Start(id) => Moved(g, id, Running(false))
    case Finish(id) => Moved(g, id, g.requests[id].phase.(done := true))
    case Return(id) => Release(g, id, true)
    case Cancel(id) =>
      (match g.requests[id].phase
       case WaitTurn => Release(g, id, false)
       case WaitSlot => Release(ReleaseTurn(g, id), id, false)
       case Checking => Release(g, id, true)
       case Running(done) => Moved(g, id, Orphaned(done))
       case Orphaned(_) => g)
    case Callback(id) => Release(g, id, true)
  }

  /** A gate some run of atomic sections reaches. */
  ghost predicate Reaches(c: Config, run: seq<Step>, g: Gate)
    decreases |run|
  {
    if run == [] then g == Initial(c)
    else
      var n := |run| - 1;
      exists before :: Reaches(c, run[..n], before) && Enabled(c, before, run[n]) && g == Next(c, before, run[n])
  }

  // ---- the invariant ---------------------------------------------------------------------------

  function OfProducer(requests: map<nat, Place>, p: string): set<nat> {
    set r | r in requests && requests[r].producer == p
  }

  function WithSlot(requests: map<nat, Place>): set<nat> {
    set r | r in requests && HoldsSlot(requests[r].phase)
  }

  ghost predicate Owns(requests: map<nat, Place>, r: nat, p: string) {
    r in requests && requests[r].producer == p && HoldsTurn(requests[r].phase)
  }

  /** One producer's count is how many of its requests are admitted. */
  ghost predicate CountsOf(c: Config, g: Gate, p: string) {
    && PlacesOf(g, p) == |OfProducer(g.requests, p)| <= c.perProducer
    && (p in g.byProducer ==> g.byProducer[p] > 0)
  }

  ghost predicate Counts(c: Config, g: Gate) {
    && g.admitted == |g.requests| <= c.workers + c.queueDepth
    && (forall p :: CountsOf(c, g, p))
    && g.slots + |WithSlot(g.requests)| == c.workers
  }

  ghost predicate TurnHeld(requests: map<nat, Place>, p: string) {
    exists r :: Owns(requests, r, p)
  }

  /** One producer's turn lock exists while it has a place, and is locked while one of its requests is past
      it. */
  ghost predicate TurnOf(g: Gate, p: string) {
    && (p in g.turns <==> p in g.byProducer)
    && (p in g.turns ==> (g.turns[p] <==> TurnHeld(g.requests, p)))
  }

  ghost predicate OneOwner(requests: map<nat, Place>) {
    forall r, q, p :: Owns(requests, r, p) && Owns(requests, q, p) ==> r == q
  }

  ghost predicate Turns(g: Gate) {
    (forall p :: TurnOf(g, p)) && OneOwner(g.requests)
  }

  ghost predicate Inv(c: Config, g: Gate) {
    Counts(c, g) && Turns(g)
  }

  lemma InitialInv(c: Config)
    ensures Inv(c, Initial(c))
  {
    assert forall p :: OfProducer(map[], p) == {};
    assert WithSlot(map[]) == {};
  }

  lemma KnownOf(c: Config, g: Gate, id: nat)
    requires Inv(c, g) && id in g.requests
    ensures Known(g, id)
  {
    var p := g.requests[id].producer;
    assert id in OfProducer(g.requests, p);
    assert CountsOf(c, g, p) && TurnOf(g, p);
  }

  /** Moving a request between phases moves it between the counts. */
  lemma MovedSets(requests: map<nat, Place>, id: nat, phase: Phase)
    requires id in requests
    ensures var requests' := requests[id := Place(requests[id].producer, phase)];
            && (forall p :: OfProducer(requests', p) == OfProducer(requests, p))
            && WithSlot(requests')
                == (if HoldsSlot(phase) then WithSlot(requests) + {id} else WithSlot(requests) - {id})
            && |requests'| == |requests|
  {
    var requests' := requests[id := Place(requests[id].producer, phase)];
    assert requests'.Keys == requests.Keys;
    assert |requests'| == |requests'.Keys| && |requests| == |requests.Keys|;
  }

  lemma AddedSets(requests: map<nat, Place>, id: nat, place: Place)
    requires id !in requests
    ensures var requests' := requests[id := place];
            && (forall p ::
                  OfProducer(requests', p) == OfProducer(requests, p) + (if p == place.producer then {id} else {}))
            && WithSlot(requests') == WithSlot(requests) + (if HoldsSlot(place.phase) then {id} else {})
            && |requests'| == |requests| + 1
  {}

  lemma RemovedSets(requests: map<nat, Place>, id: nat)
    requires id in requests
    ensures var requests' := requests - {id};
            && (forall p :: OfProducer(requests', p) == OfProducer(requests, p) - {id})
            && WithSlot(requests') == WithSlot(requests) - {id}
            && |requests'| == |requests| - 1
  {
    var requests' := requests - {id};
    assert requests'.Keys == requests.Keys - {id};
    assert |requests'| == |requests'.Keys| && |requests| == |requests.Keys|;
  }

  lemma NotOfProducer(requests: map<nat, Place>, id: nat, p: string)
    ensures id !in requests || requests[id].producer != p ==> id !in OfProducer(requests, p)
    ensures id !in requests ==> id !in WithSlot(requests)
    ensures id in requests ==> (id in WithSlot(requests) <==> HoldsSlot(requests[id].phase))
    ensures id in requests && requests[id].producer == p ==> id in OfProducer(requests, p)
  {}

  lemma AdmitKeeps(c: Config, g: Gate, id: nat, producer: string)
    requires Inv(c, g) && id !in g.requests && !Busy(c, g, producer)
    ensures Inv(c, Admit(g, id, producer))
  {
    hide Counts, Turns, Admit, Busy;
    AdmitCounts(c, g, id, producer);
    AdmitTurns(c, g, id, producer);
  }

  lemma AdmitCounts(c: Config, g: Gate, id: nat, producer: string)
    requires Counts(c, g) && id !in g.requests && !Busy(c, g, producer)
    ensures Counts(c, Admit(g, id, producer))
  {
    hide OfProducer, WithSlot, CountsOf;
    var g' := Admit(g, id, producer);
    AddedSets(g.requests, id, Place(producer, WaitTurn));
    NotOfProducer(g.requests, id, producer);
    forall p ensures CountsOf(c, g', p) { AdmitCountOf(c, g, id, producer, p); }
  }

  lemma AdmitCountOf(c: Config, g: Gate, id: nat, producer: string, p: string)
    requires CountsOf(c, g, p) && id !in g.requests && !Busy(c, g, producer)
    ensures CountsOf(c, Admit(g, id, producer), p)
  {
    hide OfProducer, WithSlot;
    AddedSets(g.requests, id, Place(producer, WaitTurn));
    NotOfProducer(g.requests, id, p);
  }

  lemma AdmitTurns(c: Config, g: Gate, id: nat, producer: string)
    requires Inv(c, g) && id !in g.requests
    ensures Turns(Admit(g, id, producer))
  {
    hide OfProducer, WithSlot, TurnHeld, CountsOf;
    var g' := Admit(g, id, producer);
    forall r, p ensures Owns(g'.requests, r, p) <==> Owns(g.requests, r, p) {}
    forall p ensures TurnOf(g', p) {
      assert TurnOf(g, p) && CountsOf(c, g, p);
      SameHolders(g.requests, g'.requests, p);
      if p == producer && p !in g.turns { NobodyHolds(c, g, p); }
    }
  }

  lemma SameHolders(a: map<nat, Place>, b: map<nat, Place>, p: string)
    requires forall r :: Owns(a, r, p) <==> Owns(b, r, p)
    ensures TurnHeld(a, p) <==> TurnHeld(b, p)
  {}

  lemma NobodyHolds(c: Config, g: Gate, p: string)
    requires CountsOf(c, g, p) && p !in g.byProducer
    ensures !TurnHeld(g.requests, p)
  {
    assert OfProducer(g.requests, p) == {};
    forall r ensures !Owns(g.requests, r, p) {
      assert r !in OfProducer(g.requests, p);
    }
  }

  /** Giving a place back: the slot and the turn it held, or neither, go with it. */
  lemma ReleaseKeeps(c: Config, g: Gate, id: nat)
    requires Inv(c, g) && Known(g, id) && HoldsTurn(g.requests[id].phase) == HoldsSlot(g.requests[id].phase)
    ensures Inv(c, Release(g, id, HoldsSlot(g.requests[id].phase)))
  {
    hide Counts, TurnHeld;
    var holdsSlot := HoldsSlot(g.requests[id].phase);
    var g', p := Release(g, id, holdsSlot), g.requests[id].producer;
    ReleaseCounts(c, g, id, holdsSlot);
    forall r, q ensures Owns(g'.requests, r, q) <==> Owns(g.requests, r, q) && r != id {}
    forall q ensures TurnOf(g', q) {
      assert TurnOf(g, q);
      ReleasedTurn(g, g', id, q);
    }
  }

  lemma ReleasedTurn(g: Gate, g': Gate, id: nat, q: string)
    requires id in g.requests && OneOwner(g.requests)
    requires forall r :: Owns(g'.requests, r, q) <==> Owns(g.requests, r, q) && r != id
    ensures Owns(g.requests, id, q) ==> !TurnHeld(g'.requests, q)
    ensures !Owns(g.requests, id, q) ==> (TurnHeld(g'.requests, q) <==> TurnHeld(g.requests, q))
  {}

  lemma ReleaseCounts(c: Config, g: Gate, id: nat, holdsSlot: bool)
    requires Counts(c, g) && Known(g, id) && holdsSlot == HoldsSlot(g.requests[id].phase)
    ensures Counts(c, Release(g, id, holdsSlot))
  {
    hide OfProducer, WithSlot;
    var g', p := Release(g, id, holdsSlot), g.requests[id].producer;
    RemovedSets(g.requests, id);
    NotOfProducer(g.requests, id, p);
    forall q ensures CountsOf(c, g', q) {
      assert CountsOf(c, g, q);
      NotOfProducer(g.requests, id, q);
      if q != p { assert OfProducer(g.requests, q) - {id} == OfProducer(g.requests, q); }
    }
  }

  lemma SizeWith(s: set<nat>, id: nat)
    ensures |s + {id}| == |s| + (if id in s then 0 else 1)
    ensures |s - {id}| == |s| - (if id in s then 1 else 0)
  {
    if id in s {
      assert s + {id} == s;
      assert s == (s - {id}) + {id};
    } else {
      assert s - {id} == s;
    }
  }

  lemma MovedCounts(c: Config, g: Gate, g': Gate, id: nat, phase: Phase)
    requires Counts(c, g) && id in g.requests
    requires g'.requests == Moved(g, id, phase).requests && g'.admitted == g.admitted && g'.byProducer == g.byProducer
    requires g'.slots + (if HoldsSlot(phase) then 1 else 0)
               == g.slots + (if HoldsSlot(g.requests[id].phase) then 1 else 0)
    ensures Counts(c, g')
  {
    hide OfProducer, WithSlot;
    MovedSets(g.requests, id, phase);
    NotOfProducer(g.requests, id, "");
    SizeWith(WithSlot(g.requests), id);
    forall p ensures CountsOf(c, g', p) { assert CountsOf(c, g, p); }
  }

  /** EVERY STEP, however arrivals, awaits, cancellations, disconnects and late threads interleave, keeps
      the gate's counters exact. */
  lemma StepKeepsInv(c: Config, g: Gate, l: Step)
    requires Inv(c, g) && Enabled(c, g, l)
    ensures Inv(c, Next(c, g, l))
  {
    hide Counts, Release, Admit, Turns;
    match l {
      case Arrive(id, producer) => if !Busy(c, g, producer) { AdmitKeeps(c, g, id, producer); }
      case TakeTurn(id) => TakeTurnKeeps(c, g, id);
      case TakeSlot(id) =>
        MovedCounts(c, g, Next(c, g, l), id, Checking);
        SameOwners(g, Next(c, g, l), id, Checking);
      case Leave(id) => SlotReleased(c, g, id);
      case Start(id) =>
        MovedCounts(c, g, Next(c, g, l), id, Running(false));
        SameOwners(g, Next(c, g, l), id, Running(false));
      case Finish(id) =>
        MovedCounts(c, g, Next(c, g, l), id, g.requests[id].phase.(done := true));
        SameOwners(g, Next(c, g, l), id, g.requests[id].phase.(done := true));
      case Return(id) => SlotReleased(c, g, id);
      case Cancel(id) => CancelKeeps(c, g, id);
      case Callback(id) => SlotReleased(c, g, id);
    }
  }

  lemma SlotReleased(c: Config, g: Gate, id: nat)
    requires Inv(c, g) && Known(g, id) && HoldsSlot(g.requests[id].phase)
    ensures Inv(c, Release(g, id, true))
  {
    hide Counts, Release, Turns;
    ReleaseKeeps(c, g, id);
  }

  /** A move past no lock leaves every turn as it was. */
  lemma SameOwners(g: Gate, g': Gate, id: nat, phase: Phase)
    requires id in g.requests && HoldsTurn(phase) == HoldsTurn(g.requests[id].phase) && Turns(g)
    requires g'.requests == Moved(g, id, phase).requests && g'.turns == g.turns && g'.byProducer == g.byProducer
    ensures Turns(g')
  {
    hide TurnHeld;
    forall r, p ensures Owns(g'.requests, r, p) <==> Owns(g.requests, r, p) {}
    forall p ensures TurnOf(g', p) {
      assert TurnOf(g, p);
      SameHolders(g.requests, g'.requests, p);
    }
  }

  lemma TakeTurnKeeps(c: Config, g: Gate, id: nat)
    requires Inv(c, g) && Enabled(c, g, TakeTurn(id))
    ensures Inv(c, Next(c, g, TakeTurn(id)))
  {
    hide Counts;
    var g', p := Next(c, g, TakeTurn(id)), g.requests[id].producer;
    MovedCounts(c, g, g', id, WaitSlot);
    assert Owns(g'.requests, id, p);
    assert TurnOf(g, p);
    forall r, q ensures Owns(g'.requests, r, q) <==> Owns(g.requests, r, q) || (r == id && q == p) {}
    forall q ensures TurnOf(g', q) {
      assert TurnOf(g, q);
      if q != p { SameHolders(g.requests, g'.requests, q); }
    }
  }

  lemma CancelKeeps(c: Config, g: Gate, id: nat)
    requires Inv(c, g) && Enabled(c, g, Cancel(id))
    ensures Inv(c, Next(c, g, Cancel(id)))
  {
    hide Counts, Release, Turns;
    match g.requests[id].phase {
      case WaitTurn => ReleaseKeeps(c, g, id);
      case WaitSlot => CancelWaitingKeeps(c, g, id);
      case Checking => SlotReleased(c, g, id);
      case Running(done) =>
        MovedCounts(c, g, Next(c, g, Cancel(id)), id, Orphaned(done));
        SameOwners(g, Next(c, g, Cancel(id)), id, Orphaned(done));
    }
  }

  lemma CancelWaitingKeeps(c: Config, g: Gate, id: nat)
    requires Inv(c, g) && Known(g, id) && g.requests[id].phase == WaitSlot
    ensures Inv(c, Release(ReleaseTurn(g, id), id, false))
  {
    hide TurnHeld, Counts;
    var g1, p := ReleaseTurn(g, id), g.requests[id].producer;
    var g' := Release(g1, id, false);
    assert Owns(g.requests, id, p);
    assert Counts(c, g1) by { SameCounts(c, g, g1); }
    ReleaseCounts(c, g1, id, false);
    forall r, q ensures Owns(g'.requests, r, q) <==> Owns(g.requests, r, q) && r != id {}
    forall q ensures TurnOf(g', q) {
      assert TurnOf(g, q);
      ReleasedTurn(g, g', id, q);
    }
  }

  lemma SameCounts(c: Config, g: Gate, g': Gate)
    requires Counts(c, g) && g' == g.(turns := g'.turns)
    ensures Counts(c, g')
  {
    forall p ensures CountsOf(c, g', p) { assert CountsOf(c, g, p); }
  }

  lemma {:induction false} ReachableInv(c: Config, run: seq<Step>, g: Gate)
    requires Reaches(c, run, g)
    ensures Inv(c, g)
    decreases |run|
  {
    hide Inv, Next, Enabled;
    if run == [] {
      InitialInv(c);
    } else {
      var n := |run| - 1;
      var before :| Reaches(c, run[..n], before) && Enabled(c, before, run[n]) && g == Next(c, before, run[n]);
      ReachableInv(c, run[..n], before);
      StepKeepsInv(c, before, run[n]);
    }
  }

  // ---- what every reachable gate guarantees ----------------------------------------------------

  function Threads(requests: map<nat, Place>): set<nat> {
    set r | r in requests && (requests[r].phase == Running(false) || requests[r].phase == Orphaned(false))
  }

  ghost function SumPlaces(counts: map<string, nat>, producers: set<string>): nat
    requires producers <= counts.Keys
  {
    if producers == {} then 0 else
      var p := Pick(producers);
      counts[p] + SumPlaces(counts, producers - {p})
  }

  function OfProducers(requests: map<nat, Place>, producers: set<string>): set<nat> {
    set r | r in requests && requests[r].producer in producers
  }

  lemma {:induction false} PlacesAddUp(c: Config, g: Gate, producers: set<string>)
    requires Counts(c, g) && producers <= g.byProducer.Keys
    ensures SumPlaces(g.byProducer, producers) == |OfProducers(g.requests, producers)|
  {
    if producers == {} {
      assert OfProducers(g.requests, producers) == {};
    } else {
      var p := Pick(producers);
      PlacesAddUp(c, g, producers - {p});
      var rest := OfProducers(g.requests, producers - {p});
      assert CountsOf(c, g, p);
      assert OfProducers(g.requests, producers) == rest + OfProducer(g.requests, p);
      assert rest !! OfProducer(g.requests, p);
    }
  }

  /** GATE. In every reachable state: what is admitted is the sum of the producers' places, within capacity
      and each within its share; free and held slots make up the workers; at most that many threads
      run, and no two of one producer; and turn locks exist exactly for the producers present. */
  lemma EveryReachableGateIsExact(c: Config, run: seq<Step>, g: Gate)
    requires Reaches(c, run, g)
    ensures g.admitted == |g.requests| == SumPlaces(g.byProducer, g.byProducer.Keys) <= c.workers + c.queueDepth
    ensures forall p :: p in g.byProducer ==> 0 < g.byProducer[p] == |OfProducer(g.requests, p)| <= c.perProducer
    ensures g.slots + |WithSlot(g.requests)| == c.workers
    ensures |Threads(g.requests)| <= c.workers
    ensures forall r, q :: r in Threads(g.requests) && q in Threads(g.requests) && r != q ==>
              g.requests[r].producer != g.requests[q].producer
    ensures forall p :: p in g.turns <==> exists r :: r in g.requests && g.requests[r].producer == p
  {
    hide Reaches, Counts, Turns, OfProducer, WithSlot;
    ReachableInv(c, run, g);
    CountsMean(c, g);
    ThreadsHold(c, g);
    forall p ensures p in g.turns <==> exists r :: r in g.requests && g.requests[r].producer == p {
      TurnsMean(c, g, p);
    }
  }

  lemma CountsMean(c: Config, g: Gate)
    requires Inv(c, g)
    ensures g.admitted == |g.requests| == SumPlaces(g.byProducer, g.byProducer.Keys) <= c.workers + c.queueDepth
    ensures forall p :: p in g.byProducer ==> 0 < g.byProducer[p] == |OfProducer(g.requests, p)| <= c.perProducer
    ensures g.slots + |WithSlot(g.requests)| == c.workers
  {
    PlacesAddUp(c, g, g.byProducer.Keys);
    forall r | r in g.requests ensures g.requests[r].producer in g.byProducer { KnownOf(c, g, r); }
    assert OfProducers(g.requests, g.byProducer.Keys) == g.requests.Keys;
    forall p | p in g.byProducer ensures 0 < g.byProducer[p] == |OfProducer(g.requests, p)| <= c.perProducer {
      assert CountsOf(c, g, p);
    }
  }

  lemma ThreadsHold(c: Config, g: Gate)
    requires Inv(c, g)
    ensures |Threads(g.requests)| <= c.workers
    ensures forall r, q :: r in Threads(g.requests) && q in Threads(g.requests) && r != q ==>
              g.requests[r].producer != g.requests[q].producer
  {
    SubsetSize(Threads(g.requests), WithSlot(g.requests));
    forall r, q | r in Threads(g.requests) && q in Threads(g.requests) && r != q
      ensures g.requests[r].producer != g.requests[q].producer
    {
      assert Owns(g.requests, r, g.requests[r].producer) && Owns(g.requests, q, g.requests[q].producer);
    }
  }

  lemma TurnsMean(c: Config, g: Gate, p: string)
    requires Inv(c, g)
    ensures p in g.turns <==> exists r :: r in g.requests && g.requests[r].producer == p
  {
    if r :| r in g.requests && g.requests[r].producer == p { KnownOf(c, g, r); }
    assert TurnOf(g, p) && CountsOf(c, g, p);
    if p in g.turns {
      assert OfProducer(g.requests, p) != {};
      var r :| r in OfProducer(g.requests, p);
    }
  }

  // ---- threads, by the run alone ---------------------------------------------------------------

  /** The threads a run has started and not seen end, each by the position of its start. Whatever became of
      the request, only its thread's end takes one away. */
  function Alive(run: seq<Step>): (alive: set<nat>)
    ensures forall i :: i in alive ==> i < |run| && run[i].Start?
  {
    if run == [] then {} else
      var n := |run| - 1;
      var before := Alive(run[..n]);
      if run[n].Start? then before + {n}
      else if run[n].Finish? then set i | i in before && run[i].id != run[n].id
      else before
  }

  /** Whose request `id` is: the producer of its last arrival. */
  function ProducerOf(run: seq<Step>, id: nat): string {
    if run == [] then ""
    else
      var n := |run| - 1;
      if run[n].Arrive? && run[n].id == id then run[n].producer else ProducerOf(run[..n], id)
  }

  /** Starts and threads, one to one. */
  ghost predicate Paired(run: seq<Step>, starts: set<nat>, threads: set<nat>) {
    && (forall i :: i in starts ==> i < |run| && run[i].id in threads)
    && (forall r :: r in threads ==> exists i :: i in starts && run[i].id == r)
    && (forall i, j :: i in starts && j in starts && run[i].id == run[j].id ==> i == j)
  }

  ghost predicate Producers(run: seq<Step>, g: Gate) {
    forall r :: r in g.requests ==> g.requests[r].producer == ProducerOf(run, r)
  }

  lemma AliveNext(run: seq<Step>, l: Step)
    ensures Alive(run + [l])
         == if l.Start? then Alive(run) + {|run|}
            else if l.Finish? then set i | i in Alive(run) && run[i].id != l.id
            else Alive(run)
  {
    var longer := run + [l];
    assert longer[..|run|] == run;
    if l.Finish? {
      forall i ensures i in Alive(longer) <==> i in Alive(run) && run[i].id != l.id {
        if i in Alive(run) { assert longer[i] == run[i]; }
      }
    }
  }

  lemma PairedStart(run: seq<Step>, starts: set<nat>, threads: set<nat>, l: Step)
    requires Paired(run, starts, threads) && l.id !in threads
    ensures Paired(run + [l], starts + {|run|}, threads + {l.id})
  {
    var run', starts', threads' := run + [l], starts + {|run|}, threads + {l.id};
    forall r | r in threads' ensures exists i :: i in starts' && run'[i].id == r {
      if r == l.id {
        assert run'[|run|].id == r;
      } else {
        var i :| i in starts && run[i].id == r;
        assert i in starts' && run'[i].id == r;
      }
    }
  }

  lemma PairedOther(run: seq<Step>, starts: set<nat>, threads: set<nat>, l: Step, ended: set<nat>)
    requires Paired(run, starts, threads)
    ensures Paired(run + [l], (set i | i in starts && run[i].id !in ended), threads - ended)
  {
    var run', starts' := run + [l], set i | i in starts && run[i].id !in ended;
    forall r | r in threads - ended ensures exists i :: i in starts' && run'[i].id == r {
      var i :| i in starts && run[i].id == r;
      assert i in starts' && run'[i].id == r;
    }
  }

  lemma StepPairs(c: Config, run: seq<Step>, g: Gate, l: Step)
    requires Paired(run, Alive(run), Threads(g.requests)) && Enabled(c, g, l)
    ensures Paired(run + [l], Alive(run + [l]), Threads(Next(c, g, l).requests))
  {
    hide Paired, Next, Enabled, Threads, Alive;
    StepThreads(c, g, l);
    AliveNext(run, l);
    if l.Start? {
      PairedStart(run, Alive(run), Threads(g.requests), l);
    } else {
      var ended := if l.Finish? then {l.id} else {};
      PairedOther(run, Alive(run), Threads(g.requests), l, ended);
      assert Alive(run + [l]) == set i | i in Alive(run) && run[i].id !in ended;
      assert Threads(Next(c, g, l).requests) == Threads(g.requests) - ended;
    }
  }

  /** Only a start adds a thread, and only its end takes one away. */
  lemma StepThreads(c: Config, g: Gate, l: Step)
    requires Enabled(c, g, l)
    ensures l.Start? ==> l.id !in Threads(g.requests)
    ensures Threads(Next(c, g, l).requests)
         == if l.Start? then Threads(g.requests) + {l.id}
            else if l.Finish? then Threads(g.requests) - {l.id}
            else Threads(g.requests)
  {}

  lemma StepProducers(c: Config, run: seq<Step>, g: Gate, l: Step)
    requires Producers(run, g) && Enabled(c, g, l)
    ensures Producers(run + [l], Next(c, g, l))
  {
    assert (run + [l])[..|run|] == run;
  }

  lemma {:induction false} ReachablePairs(c: Config, run: seq<Step>, g: Gate)
    requires Reaches(c, run, g)
    ensures Paired(run, Alive(run), Threads(g.requests)) && Producers(run, g)
    decreases |run|
  {
    hide Paired, Producers, Next, Enabled, Alive, Threads;
    if run == [] {
      assert Paired([], Alive([]), Threads(map[])) && Producers([], Initial(c)) by { NoThreads(c); }
    } else {
      var n := |run| - 1;
      var before :| Reaches(c, run[..n], before) && Enabled(c, before, run[n]) && g == Next(c, before, run[n]);
      ReachablePairs(c, run[..n], before);
      StepPairs(c, run[..n], before, run[n]);
      StepProducers(c, run[..n], before, run[n]);
      assert run[..n] + [run[n]] == run;
    }
  }

  lemma NoThreads(c: Config)
    ensures Paired([], Alive([]), Threads(map[])) && Producers([], Initial(c))
  {}

  /** As many starts as threads. */
  lemma {:induction false} SameNumber(run: seq<Step>, starts: set<nat>, threads: set<nat>)
    requires Paired(run, starts, threads)
    ensures |starts| == |threads|
    decreases |starts|
  {
    if starts == {} {
      if r :| r in threads { assert false; }
      assert threads == {};
    } else {
      var i := Pick(starts);
      var starts', threads' := starts - {i}, threads - {run[i].id};
      forall r | r in threads' ensures exists j :: j in starts' && run[j].id == r {
        var j :| j in starts && run[j].id == r;
        assert j in starts';
      }
      SameNumber(run, starts', threads');
    }
  }

  /** THREADS. Counted by the run alone, whatever was cancelled and whoever came back: a thread that was started
      and has not ended still has its place in the gate, is of the producer that asked for it, and can end;
      there are never more of them than workers, nor two of one producer. */
  lemma EveryLiveThreadIsCounted(c: Config, run: seq<Step>, g: Gate)
    requires Reaches(c, run, g)
    ensures |Alive(run)| == |Threads(g.requests)| <= c.workers
    ensures forall i :: i in Alive(run) ==>
              run[i].id in Threads(g.requests) && Enabled(c, g, Finish(run[i].id))
    ensures forall i, j :: i in Alive(run) && j in Alive(run) && i != j ==>
              run[i].id != run[j].id && ProducerOf(run, run[i].id) != ProducerOf(run, run[j].id)
  {
    hide Reaches, ProducerOf, Alive, Inv;
    ReachableInv(c, run, g);
    ReachablePairs(c, run, g);
    ThreadsHold(c, g);
    SameNumber(run, Alive(run), Threads(g.requests));
    forall i | i in Alive(run) ensures Enabled(c, g, Finish(run[i].id)) { KnownOf(c, g, run[i].id); }
  }

  /** ADMISSION. An arrival gets a place exactly when the places taken are fewer than the gate's capacity and
      those of its producer fewer than its share. */
  lemma AdmittedExactlyWhenThereIsRoom(c: Config, run: seq<Step>, g: Gate, id: nat, producer: string)
    requires Reaches(c, run, g) && id !in g.requests
    ensures Enabled(c, g, Arrive(id, producer))
    ensures var g' := Next(c, g, Arrive(id, producer));
            && (id in g'.requests <==>
                  && |g.requests| < c.workers + c.queueDepth
                  && |OfProducer(g.requests, producer)| < c.perProducer)
            && (id in g'.requests ==> g'.requests == g.requests[id := Place(producer, WaitTurn)])
            && (id !in g'.requests ==> g' == g)
  {
    hide Reaches, OfProducer, WithSlot;
    ReachableInv(c, run, g);
    assert CountsOf(c, g, producer);
  }

  /** A drained gate is as new, whatever happened before. */
  lemma DrainedGateIsInitial(c: Config, run: seq<Step>, g: Gate)
    requires Reaches(c, run, g) && g.requests == map[]
    ensures g == Initial(c)
  {
    hide Reaches;
    ReachableInv(c, run, g);
    assert WithSlot(g.requests) == {};
    forall p ensures p !in g.byProducer && p !in g.turns {
      assert CountsOf(c, g, p) && TurnOf(g, p) && OfProducer(g.requests, p) == {};
    }
    assert g.byProducer == map[] && g.turns == map[];
  }

  /** PROGRESS. While anyone is admitted, some admitted request can step, without anyone arriving or
      being cancelled. */
  lemma SomeRequestCanStep(c: Config, run: seq<Step>, g: Gate) returns (l: Step)
    requires Reaches(c, run, g) && c.workers > 0 && g.requests != map[]
    ensures Enabled(c, g, l) && !l.Arrive? && !l.Cancel?
  {
    hide Reaches;
    ReachableInv(c, run, g);
    var id :| id in g.requests;
    if r :| r in g.requests && HoldsSlot(g.requests[r].phase) {
      KnownOf(c, g, r);
      match g.requests[r].phase {
        case Checking => l := Start(r);
        case Running(done) => l := if done then Return(r) else Finish(r);
        case Orphaned(done) => l := if done then Callback(r) else Finish(r);
      }
    } else if r :| r in g.requests && g.requests[r].phase == WaitSlot {
      KnownOf(c, g, r);
      assert WithSlot(g.requests) == {};
      l := TakeSlot(r);
    } else {
      KnownOf(c, g, id);
      assert TurnOf(g, g.requests[id].producer) && !TurnHeld(g.requests, g.requests[id].producer);
      l := TakeTurn(id);
    }
  }

  /** How many steps a request can still take. */
  function Left(x: Phase): nat {
    match x
    case WaitTurn => 6
    case WaitSlot => 5
    case Checking => 4
    case Running(done) => if done then 2 else 3
    case Orphaned(done) => if done then 0 else 1
  }

  ghost function Work(requests: map<nat, Place>): nat
    decreases |requests|
  {
    if requests == map[] then 0 else
      var r := Pick(requests.Keys);
      1 + Left(requests[r].phase) + Work(requests - {r})
  }

  lemma {:induction false} WorkSplits(requests: map<nat, Place>, r: nat)
    requires r in requests
    ensures Work(requests) == 1 + Left(requests[r].phase) + Work(requests - {r})
    decreases |requests|
  {
    var f := Pick(requests.Keys);
    if f != r {
      WorkSplits(requests - {f}, r);
      WorkSplits(requests - {r}, f);
      assert (requests - {f}) - {r} == (requests - {r}) - {f};
    }
  }

  /** DRAINING. Every step but an arrival uses up work, so a gate nobody arrives at drains. */
  lemma StepsUseUpWork(c: Config, g: Gate, l: Step)
    requires Enabled(c, g, l) && !l.Arrive?
    ensures Work(Next(c, g, l).requests) < Work(g.requests)
  {
    hide Work;
    var requests' := Next(c, g, l).requests;
    WorkSplits(g.requests, l.id);
    if l.id in requests' {
      WorkSplits(requests', l.id);
      assert requests' - {l.id} == g.requests - {l.id};
    } else {
      assert requests' == g.requests - {l.id};
    }
  }

  // ---- the gate itself -------------------------------------------------------------------------

  /** The atomic sections of `run` over the gate's fields. `requests` is who is where: the calls suspended
      in the event loop. */
  class Admission {
    const config: Config
    var slots: nat
    var admitted: nat
    var byProducer: map<string, nat>
    var turns: map<string, bool>
    ghost var requests: map<nat, Place>

    ghost function Value(): Gate
      reads this
    {
      Gate(slots, admitted, byProducer, turns, requests)
    }

    constructor (config: Config)
      ensures this.config == config && Value() == Initial(config)
    {
      this.config := config;
      slots, admitted, byProducer, turns := config.workers, 0, map[], map[];
      requests := map[];
    }

    /** The admission check and `_admit`: False is 503. */
    method Enter(producer: string, ghost id: nat) returns (admittedNow: bool)
      requires id !in requests
      modifies this
      ensures admittedNow == !Busy(config, old(Value()), producer)
      ensures Value() == Next(config, old(Value()), Arrive(id, producer))
    {
      var places := if producer in byProducer then byProducer[producer] else 0;
      if admitted >= config.workers + config.queueDepth || places >= config.perProducer {
        return false;
      }
      admitted := admitted + 1;
      byProducer := byProducer[producer := places + 1];
      if producer !in turns {
        turns := turns[producer := false];
      }
      requests := requests[id := Place(producer, WaitTurn)];
      return true;
    }

    /** The producer's turn lock is acquired. */
    method AcquireTurn(producer: string, ghost id: nat)
      requires Enabled(config, Value(), TakeTurn(id)) && requests[id].producer == producer
      modifies this
      ensures Value() == Next(config, old(Value()), TakeTurn(id))
    {
      turns := turns[producer := true];
      requests := requests[id := Place(producer, WaitSlot)];
    }

    /** A worker slot is acquired. */
    method AcquireSlot(ghost id: nat)
      requires Enabled(config, Value(), TakeSlot(id))
      modifies this
      ensures Value() == Next(config, old(Value()), TakeSlot(id))
    {
      slots := slots - 1;
      requests := requests[id := Place(requests[id].producer, Checking)];
    }

    /** `_release`. */
    method GiveBack(producer: string, holdsSlot: bool, ghost id: nat)
      requires Known(Value(), id) && requests[id].producer == producer
      modifies this
      ensures Value() == Release(old(Value()), id, holdsSlot)
    {
      if holdsSlot {
        slots := slots + 1;
        turns := turns[producer := false];
      }
      admitted := admitted - 1;
      var remaining := byProducer[producer] - 1;
      if remaining > 0 {
        byProducer := byProducer[producer := remaining];
      } else {
        byProducer := byProducer - {producer};
        turns := turns - {producer};
      }
      requests := requests - {id};
    }

    /** The client has left before the decode was started. */
    method Disconnected(producer: string, ghost id: nat)
      requires Enabled(config, Value(), Leave(id)) && requests[id].producer == producer
      modifies this
      ensures Value() == Next(config, old(Value()), Leave(id))
    {
      GiveBack(producer, true, id);
    }

    /** The worker thread's result, or its exception, reaches the request. */
    method Finished(producer: string, ghost id: nat)
      requires Enabled(config, Value(), Return(id)) && requests[id].producer == producer
      modifies this
      ensures Value() == Next(config, old(Value()), Return(id))
    {
      GiveBack(producer, true, id);
    }

    /** Cancellation at any await: of the turn, of the slot, of the client check, or of the thread, whose
        place is then handed over to its own completion. */
    method Cancelled(producer: string, holdsTurn: bool, holdsSlot: bool, started: bool, ghost id: nat)
      requires Enabled(config, Value(), Cancel(id)) && requests[id].producer == producer
      requires holdsTurn == HoldsTurn(requests[id].phase) && holdsSlot == HoldsSlot(requests[id].phase)
      requires started == requests[id].phase.Running?
      modifies this
      ensures Value() == Next(config, old(Value()), Cancel(id))
    {
      if started {
        requests := requests[id := Place(producer, Orphaned(requests[id].phase.done))];
        return;
      }
      if holdsTurn && !holdsSlot {
        turns := turns[producer := false];
      }
      GiveBack(producer, holdsSlot, id);
    }

    /** The done callback of a handed-over thread. */
    method HandedOver(producer: string, ghost id: nat)
      requires Enabled(config, Value(), Callback(id)) && requests[id].producer == producer
      modifies this
      ensures Value() == Next(config, old(Value()), Callback(id))
    {
      GiveBack(producer, true, id);
    }
  }
}

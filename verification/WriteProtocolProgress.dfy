/** Deadlock freedom of the write protocol: in every reachable state the wait-for graph has no cycle,
    because every transaction acquires in one global rank, so some open transaction can always step
    and everything open can be run to its end. */
module WriteProtocolProgress {
  import opened Orders
  import opened LockOrder
  import opened TransactionScripts
  import opened WriteProtocol

  function Next(t: Txn): Op
    requires t.rest != []
  {
    t.rest[0]
  }

  /** The next statement of `p` cannot return before transaction `q` ends: a lock `q` holds, or a row
      or unique-index entry `q` has written and not committed. */
  ghost predicate WaitsFor(s: State, p: nat, q: nat) {
    && p in s.txns && q in s.txns && p != q
    && s.txns[p].rest != []
    && var other := s.txns[q];
       match Next(s.txns[p])
       case Lock(r) => r in other.held
       case InsertObject(d) => d in other.objects
       case InsertInline(id) => id !in s.inlines && InlineRow(id) in other.held
       case InsertEvents(events) => !(other.keys !! events.Keys)
       case _ => false
  }

  lemma KeysExcluded(keyHash: Key -> int, t: Txn, u: Txn, events: map<Key, set<Digest>>)
    requires Locks(t) && Locks(u) && Writes(keyHash, u)
    requires t.held !! u.held && Justified(keyHash, t.done, InsertEvents(events))
    ensures u.keys !! events.Keys
  {
    forall k | k in u.keys ensures k !in events {
      assert IdempotencyLock(keyHash(k)) in u.held && IdempotencyLock(keyHash(k)) !in t.held;
    }
  }

  /** Inserting an object row or an event never waits on a unique-index entry: the content lock and the
      idempotency locks taken before it exclude every other writer of the same digest or key. */
  lemma OnlyLocksBlock(keyHash: Key -> int, s: State, p: nat, q: nat)
    requires Inv(keyHash, s) && WaitsFor(s, p, q)
    ensures Acquires(Next(s.txns[p])).Some? && Acquires(Next(s.txns[p])).value in s.txns[q].held
  {
    var t, u := s.txns[p], s.txns[q];
    assert t.held !! u.held && TxnInv(keyHash, s, t) && TxnInv(keyHash, s, u);
    match Next(t) {
      case InsertObject(d) =>
        assert false;
      case InsertEvents(events) =>
        KeysExcluded(keyHash, t, u, events);
        assert false;
      case _ =>
    }
  }

  /** `p` is at an operation that acquires something. */
  predicate Wants(s: State, p: nat) {
    p in s.txns && s.txns[p].rest != [] && Acquires(Next(s.txns[p])).Some?
  }

  function Wanted(s: State, p: nat): Resource
    requires Wants(s, p)
  {
    Acquires(Next(s.txns[p])).value
  }

  /** Along a wait, the wanted resource strictly rises in rank. */
  lemma WaitsRise(keyHash: Key -> int, s: State, p: nat, q: nat, r: nat)
    requires Inv(keyHash, s) && WaitsFor(s, p, q) && WaitsFor(s, q, r)
    ensures Wants(s, p) && Wants(s, q) && Below(Wanted(s, p), Wanted(s, q))
  {
    OnlyLocksBlock(keyHash, s, p, q);
    OnlyLocksBlock(keyHash, s, q, r);
    var u := s.txns[q];
    assert TxnInv(keyHash, s, u);
    var w := Wanted(s, p);
    assert u.held !! s.txns[r].held && w != Wanted(s, q);
    var o := if Lock(w) in u.done then Lock(w) else InsertInline(w.inlineId);
    assert o in u.done && Acquires(o) == Some(w);
  }

  ghost predicate WaitPath(s: State, path: seq<nat>) {
    forall i :: 0 <= i < |path| - 1 ==> WaitsFor(s, path[i], path[i + 1])
  }

  predicate Climbs(s: State, p: nat, q: nat) {
    Wants(s, p) && Wants(s, q) && Below(Wanted(s, p), Wanted(s, q))
  }

  ghost predicate Rises(s: State, path: seq<nat>) {
    forall i :: 0 <= i < |path| - 1 ==> Climbs(s, path[i], path[i + 1])
  }

  lemma {:induction false} RisesThroughout(s: State, path: seq<nat>)
    requires |path| >= 2 && Rises(s, path)
    ensures Wants(s, path[0]) && Wants(s, path[|path| - 1])
    ensures Below(Wanted(s, path[0]), Wanted(s, path[|path| - 1]))
  {
    var n := |path|;
    assert Climbs(s, path[n - 2], path[n - 1]);
    if n > 2 {
      RisesThroughout(s, path[..n - 1]);
      BelowTransitive(Wanted(s, path[0]), Wanted(s, path[n - 2]), Wanted(s, path[n - 1]));
    }
  }

  lemma PathRises(keyHash: Key -> int, s: State, path: seq<nat>)
    requires Inv(keyHash, s) && |path| >= 1 && WaitPath(s, path)
    ensures Rises(s, path[..|path| - 1])
  {
    forall i | 0 <= i < |path| - 2 ensures Climbs(s, path[i], path[i + 1]) {
      WaitsRise(keyHash, s, path[i], path[i + 1], path[i + 2]);
    }
  }

  /** NO DEADLOCK. In every reachable state, following waits never comes back to where it started. */
  lemma WaitForGraphIsAcyclic(keyHash: Key -> int, run: seq<Step>, s: State, path: seq<nat>)
    requires Reaches(keyHash, run, s) && |path| >= 2 && WaitPath(s, path)
    ensures path[0] != path[|path| - 1]
  {
    ReachableInv(keyHash, run, s);
    if path[0] == path[|path| - 1] {
      var longer := path + [path[1]];
      forall i | 0 <= i < |longer| - 1 ensures WaitsFor(s, longer[i], longer[i + 1]) {
        assert WaitsFor(s, path[0], path[1]);
        if i < |path| - 1 { assert longer[i] == path[i] && longer[i + 1] == path[i + 1]; }
      }
      PathRises(keyHash, s, longer);
      assert longer[..|longer| - 1] == path;
      RisesThroughout(s, path);
      BelowIrreflexive(Wanted(s, path[0]));
      assert false;
    }
  }

  /** `p` can neither run its next operation nor see a delete it issued return. */
  ghost predicate Stuck(s: State, p: nat) {
    p in s.txns && s.txns[p].rest != [] && !CanAdvance(s, p) && s.txns[p].outstanding.None?
  }

  /** A stuck transaction waits for another one. */
  lemma StuckWaits(s: State, p: nat) returns (q: nat)
    requires Stuck(s, p)
    ensures WaitsFor(s, p, q)
  {
    match Next(s.txns[p]) {
      case Lock(r) =>
        q :| q in s.txns && q != p && r in s.txns[q].held;
      case InsertObject(d) =>
        q :| q in s.txns && q != p && d in s.txns[q].objects;
      case InsertInline(id) =>
        q :| q in s.txns && q != p && InlineRow(id) in s.txns[q].held;
      case InsertEvents(events) =>
        q :| q in s.txns && q != p && !(s.txns[q].keys !! events.Keys);
    }
  }

  /** If everything is stuck, every wanted resource has another wanted one above it. */
  lemma StuckClimbs(keyHash: Key -> int, s: State, p: nat) returns (q: nat)
    requires Inv(keyHash, s) && p in s.txns && forall x :: x in s.txns ==> Stuck(s, x)
    ensures Wants(s, p) && Wants(s, q) && Below(Wanted(s, p), Wanted(s, q))
  {
    q := StuckWaits(s, p);
    var r := StuckWaits(s, q);
    WaitsRise(keyHash, s, p, q, r);
  }

  /** Of finitely many blocked transactions, one wants a resource no other one's is above. */
  lemma {:induction false} HighestWaiter(s: State, candidates: set<nat>) returns (top: nat)
    requires candidates != {}
    requires forall p :: p in candidates ==> Wants(s, p)
    ensures top in candidates
    ensures forall p :: p in candidates ==> !Below(Wanted(s, top), Wanted(s, p))
  {
    var p := Pick(candidates);
    BelowIrreflexive(Wanted(s, p));
    var rest := candidates - {p};
    if rest == {} {
      top := p;
      assert forall x :: x in candidates ==> x == p || x in rest;
    } else {
      top := HighestWaiter(s, rest);
      if Below(Wanted(s, top), Wanted(s, p)) {
        forall x | x in rest ensures !Below(Wanted(s, p), Wanted(s, x)) {
          if Below(Wanted(s, p), Wanted(s, x)) {
            BelowTransitive(Wanted(s, top), Wanted(s, p), Wanted(s, x));
          }
        }
        top := p;
      }
      assert forall x :: x in candidates ==> x == p || x in rest;
    }
  }

  lemma NotEveryoneIsStuck(keyHash: Key -> int, s: State)
    requires Inv(keyHash, s) && s.txns.Keys != {}
    ensures exists p :: p in s.txns && !Stuck(s, p)
  {
    if forall x :: x in s.txns ==> Stuck(s, x) {
      forall x | x in s.txns ensures Wants(s, x) { var y := StuckClimbs(keyHash, s, x); }
      var top := HighestWaiter(s, s.txns.Keys);
      var above := StuckClimbs(keyHash, s, top);
      assert false;
    }
  }

  lemma SomeoneSteps(keyHash: Key -> int, s: State) returns (l: Step)
    requires Inv(keyHash, s) && s.txns.Keys != {}
    ensures (l.Advance? || l.DeleteReturns?) && l.txn in s.txns && Enabled(s, l)
  {
    NotEveryoneIsStuck(keyHash, s);
    var p :| p in s.txns && !Stuck(s, p);
    assert s.txns[p].rest != [];
    l := if CanAdvance(s, p) then Advance(p) else DeleteReturns(p);
  }

  /** PROGRESS. While any transaction is open, some transaction's next operation need not wait, or its
      only wait is for a delete that has been issued to return. */
  lemma SomeTransactionCanStep(keyHash: Key -> int, run: seq<Step>, s: State)
    requires Reaches(keyHash, run, s) && s.txns.Keys != {}
    ensures exists p :: p in s.txns && (Enabled(s, Advance(p)) || Enabled(s, DeleteReturns(p)))
  {
    ReachableInv(keyHash, run, s);
    var l := SomeoneSteps(keyHash, s);
  }

  // ---- everything open can finish --------------------------------------------------------------

  function Left(t: Txn): nat {
    2 * |t.rest| + (if t.outstanding.Some? then 1 else 0)
  }

  ghost function Work(txns: map<nat, Txn>): nat
    decreases |txns.Keys|
  {
    if txns.Keys == {} then 0 else
      var p := Pick(txns.Keys);
      assert (txns - {p}).Keys == txns.Keys - {p};
      Left(txns[p]) + Work(txns - {p})
  }

  lemma {:induction false} WorkSplits(txns: map<nat, Txn>, p: nat)
    requires p in txns
    ensures Work(txns) == Left(txns[p]) + Work(txns - {p})
    decreases |txns.Keys|
  {
    var q := Pick(txns.Keys);
    assert (txns - {q}).Keys == txns.Keys - {q};
    if p != q {
      WorkSplits(txns - {q}, p);
      assert (txns - {p}).Keys == txns.Keys - {p};
      assert q in txns - {p};
      assert |(txns - {p}).Keys| < |txns.Keys|;
      WorkSplits(txns - {p}, q);
      assert txns - {q} - {p} == txns - {p} - {q};
      assert (txns - {p})[q] == txns[q] && (txns - {q})[p] == txns[p];
    }
  }

  /** Every step that is not an arrival, an upload or a delete taking effect leaves less to do. */
  lemma StepsConsumeWork(keyHash: Key -> int, s: State, l: Step)
    requires Enabled(s, l) && (l.Advance? || l.Rollback? || l.DeleteReturns?)
    requires s.txns[l.txn].rest != []
    ensures Work(Apply(keyHash, s, l).txns) < Work(s.txns)
  {
    hide Enabled, Apply, Work, Left;
    var p := l.txn;
    var s' := Apply(keyHash, s, l);
    StepTakesWork(keyHash, s, l);
    WorkSplits(s.txns, p);
    if p in s'.txns {
      WorkSplits(s'.txns, p);
    } else {
      assert s'.txns == s'.txns - {p};
    }
  }

  /** The step's transaction has less left, or is gone; the others are as they were. */
  lemma StepTakesWork(keyHash: Key -> int, s: State, l: Step)
    requires Enabled(s, l) && (l.Advance? || l.Rollback? || l.DeleteReturns?)
    requires s.txns[l.txn].rest != []
    ensures var p, s' := l.txn, Apply(keyHash, s, l);
            && s'.txns - {p} == s.txns - {p} && p in s.txns
            && (p in s'.txns ==> Left(s'.txns[p]) < Left(s.txns[p]))
            && (p !in s'.txns ==> 0 < Left(s.txns[p]))
  {
    hide Work;
  }

  ghost predicate Leads(keyHash: Key -> int, s: State, steps: seq<Step>, end: State)
    decreases |steps|
  {
    if steps == [] then s == end
    else Enabled(s, steps[0]) && Leads(keyHash, Apply(keyHash, s, steps[0]), steps[1..], end)
  }

  lemma OneStep(keyHash: Key -> int, s: State) returns (l: Step, s': State)
    requires Inv(keyHash, s) && s.txns.Keys != {}
    ensures (l.Advance? || l.DeleteReturns?) && Enabled(s, l) && s' == Apply(keyHash, s, l)
    ensures Inv(keyHash, s') && Work(s'.txns) < Work(s.txns)
  {
    l := SomeoneSteps(keyHash, s);
    s' := Apply(keyHash, s, l);
    assert s.txns[l.txn].rest != [];
    StepsConsumeWork(keyHash, s, l);
    StepKeepsInv(keyHash, s, l);
  }

  lemma {:induction false} FinishFrom(keyHash: Key -> int, s: State) returns (steps: seq<Step>, end: State)
    requires Inv(keyHash, s)
    ensures Leads(keyHash, s, steps, end) && end.txns.Keys == {} && |steps| <= Work(s.txns)
    ensures forall l :: l in steps ==> l.Advance? || l.DeleteReturns?
    decreases Work(s.txns)
  {
    if s.txns.Keys == {} {
      steps, end := [], s;
    } else {
      var l, s' := OneStep(keyHash, s);
      var rest;
      rest, end := FinishFrom(keyHash, s');
      steps := [l] + rest;
      assert steps[1..] == rest;
    }
  }

  /** From any state of any run, the open transactions can all be run to their end without aborting
      one of them on purpose, in at most as many steps as there is work left. */
  lemma EverythingCanFinish(keyHash: Key -> int, run: seq<Step>, s: State) returns (steps: seq<Step>, end: State)
    requires Reaches(keyHash, run, s)
    ensures Leads(keyHash, s, steps, end) && end.txns.Keys == {} && |steps| <= Work(s.txns)
    ensures forall l :: l in steps ==> l.Advance? || l.DeleteReturns?
  {
    ReachableInv(keyHash, run, s);
    steps, end := FinishFrom(keyHash, s);
  }
}

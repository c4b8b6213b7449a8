/** The content and ledger write protocol as a step system: any number of ingestion transactions
    beside any number of orphan sweeps. Locks are exclusive and kept until the transaction ends;
    each statement sees what is committed when it runs (READ COMMITTED); commit and lock release are
    one step. */
module WriteProtocol {
  import opened Orders
  import opened LockOrder
  import opened TransactionScripts

  /** One open transaction: the operations it has run, those to come, and what it has written but not
      committed. `outstanding` is a delete issued to a thread that nobody can stop and that has not
      returned. */
  datatype Txn = Txn(done: set<Op>, rest: seq<Op>, held: set<Resource>, objects: set<Digest>,
                     keys: set<Key>, refs: set<Digest>, outstanding: Option<Digest>)

  /** `store` is the bucket; `catalog`, `inlines`, `eventKeys` and `refs` are committed rows. */
  datatype State = State(txns: map<nat, Txn>, store: set<Digest>, catalog: set<Digest>,
                         inlines: set<string>, eventKeys: set<Key>, refs: set<Digest>)

  datatype Step =
    | Upload(digest: Digest)                           // `prepare` puts an object, outside any transaction
    | BeginIngest(txn: nat, batch: Batch)
    | BeginSweep(txn: nat, digest: Digest, dryRun: bool)
    | Advance(txn: nat)                                // the next operation of the script
    | Rollback(txn: nat)                               // any failure or cancellation ends the transaction
    | DeleteTakesEffect(txn: nat)
    | DeleteReturns(txn: nat)

  const Init := State(map[], {}, {}, {}, {}, {})

  ghost predicate Free(s: State, p: nat, r: Resource) {
    forall q :: q in s.txns && q != p ==> r !in s.txns[q].held
  }

  /** The next operation of `p` need not wait. */
  ghost predicate CanAdvance(s: State, p: nat)
    requires p in s.txns
  {
    var t := s.txns[p];
    t.rest != [] &&
    match t.rest[0]
    case Lock(r) => Free(s, p, r)
    case InsertObject(d) => forall q :: q in s.txns && q != p ==> d !in s.txns[q].objects
    case InsertInline(id) => id in s.inlines || Free(s, p, InlineRow(id))
    case InsertEvents(events) => forall q :: q in s.txns && q != p ==> s.txns[q].keys !! events.Keys
    case AwaitDelete(_) => t.outstanding.None?
    case _ => true
  }

  /** A transaction ends by failure or cancellation at any time, except while a delete it issued has
      not returned: the shielded wait keeps the transaction, hence the lock, until then. */
  ghost predicate Enabled(s: State, l: Step) {
    match l
    case Upload(_) => true
    case BeginIngest(p, b) => p !in s.txns && b.Resolved()
    case BeginSweep(p, _, _) => p !in s.txns
    case Advance(p) => p in s.txns && CanAdvance(s, p)
    case Rollback(p) => p in s.txns && s.txns[p].outstanding.None?
    case DeleteTakesEffect(p) => p in s.txns && s.txns[p].outstanding.Some?
    case DeleteReturns(p) => p in s.txns && s.txns[p].outstanding.Some?
  }

  function Start(script: seq<Op>): Txn {
    Txn({}, script, {}, {}, {}, {}, None)
  }

  function End(s: State, p: nat): State {
    s.(txns := s.txns - {p})
  }

  ghost function Perform(s: State, p: nat): State
    requires p in s.txns && s.txns[p].rest != []
  {
    var t := s.txns[p];
    var t' := t.(done := t.done + {t.rest[0]}, rest := t.rest[1..]);
    match t.rest[0]
    case Lock(r) => s.(txns := s.txns[p := t'.(held := t.held + {r})])
    case VerifyObject(d) => if d in s.store then s.(txns := s.txns[p := t']) else End(s, p)
    case InsertObject(d) =>
      s.(txns := s.txns[p := if d in s.catalog then t' else t'.(objects := t.objects + {d})])
    case InsertInline(id) =>
      s.(txns := s.txns[p := if id in s.inlines then t' else t'.(held := t.held + {InlineRow(id)})])
    case InsertEvents(events) =>
      var created := events.Keys - s.eventKeys;
      var named := set k, d | k in created && d in events[k] :: d;
      s.(txns := s.txns[p := t'.(keys := t.keys + created, refs := t.refs + named)])
    case CheckUnreferenced(d, dryRun) =>
      if d in s.catalog || dryRun then End(s, p) else s.(txns := s.txns[p := t'])
    case IssueDelete(d) => s.(txns := s.txns[p := t'.(outstanding := Some(d))])
    case AwaitDelete(_) => s.(txns := s.txns[p := t'])
    case Commit =>
      State(s.txns - {p}, s.store, s.catalog + t.objects,
            s.inlines + (set r | r in t.held && r.InlineRow? :: r.inlineId),
            s.eventKeys + t.keys, s.refs + t.refs)
  }

  ghost function Apply(keyHash: Key -> int, s: State, l: Step): State
    requires Enabled(s, l)
  {
    match l
    case Upload(d) => s.(store := s.store + {d})
    case BeginIngest(p, b) => s.(txns := s.txns[p := Start(IngestScript(keyHash, b))])
    case BeginSweep(p, d, dryRun) => s.(txns := s.txns[p := Start(SweepScript(d, dryRun))])
    case Advance(p) => Perform(s, p)
    case Rollback(p) => End(s, p)
    case DeleteTakesEffect(p) => s.(store := s.store - {s.txns[p].outstanding.value})
    case DeleteReturns(p) => s.(txns := s.txns[p := s.txns[p].(outstanding := None)])
  }

  /** A state some run reaches. */
  ghost predicate Reaches(keyHash: Key -> int, run: seq<Step>, s: State)
    decreases |run|
  {
    if run == [] then s == Init
    else
      var n := |run| - 1;
      exists before ::
        Reaches(keyHash, run[..n], before) && Enabled(before, run[n]) && s == Apply(keyHash, before, run[n])
  }

  // ---- the invariant ---------------------------------------------------------------------------

  ghost predicate Shape(keyHash: Key -> int, t: Txn) {
    Past(keyHash, t.done) && Good(keyHash, t.done, t.rest) && EndsWithCommit(t.rest)
  }

  /** Locks taken are kept, and nothing else is held. */
  ghost predicate Locks(t: Txn) {
    && (forall r :: Lock(r) in t.done ==> r in t.held)
    && (forall r :: r in t.held ==> Lock(r) in t.done || (r.InlineRow? && InsertInline(r.inlineId) in t.done))
  }

  /** What the transaction saw under its locks is still true. */
  ghost predicate Facts(s: State, t: Txn) {
    && (forall d :: VerifyObject(d) in t.done ==> d in s.store)
    && (forall d :: InsertObject(d) in t.done ==> d in s.catalog || d in t.objects)
    && (forall d, dry :: CheckUnreferenced(d, dry) in t.done ==> d !in s.catalog)
  }

  /** What it has written, or asked for, was justified by its own earlier operations. */
  ghost predicate Writes(keyHash: Key -> int, t: Txn) {
    && (forall d :: d in t.objects ==> InsertObject(d) in t.done)
    && (forall k :: k in t.keys ==> Lock(IdempotencyLock(keyHash(k))) in t.done)
    && (forall d :: d in t.refs ==> InsertObject(d) in t.done)
    && (t.outstanding.Some? ==> IssueDelete(t.outstanding.value) in t.done)
  }

  ghost predicate TxnInv(keyHash: Key -> int, s: State, t: Txn) {
    Shape(keyHash, t) && Locks(t) && Facts(s, t) && Writes(keyHash, t)
  }

  ghost predicate Exclusive(s: State) {
    forall p, q :: p in s.txns && q in s.txns && p != q ==> s.txns[p].held !! s.txns[q].held
  }

  ghost predicate Inv(keyHash: Key -> int, s: State) {
    && (forall p :: p in s.txns ==> TxnInv(keyHash, s, s.txns[p]))
    && Exclusive(s)
    && s.catalog <= s.store
    && s.refs <= s.catalog
  }

  /** A committed row and an object verified by an open transaction survive an effective delete: the
      delete's transaction still holds that digest's lock and found no row under it. */
  lemma DeleteTouchesNothingReferenced(keyHash: Key -> int, s: State, p: nat)
    requires Inv(keyHash, s) && p in s.txns && s.txns[p].outstanding.Some?
    ensures s.txns[p].outstanding.value !in s.catalog
    ensures forall q :: q in s.txns ==> VerifyObject(s.txns[p].outstanding.value) !in s.txns[q].done
  {
    var t := s.txns[p];
    var d := t.outstanding.value;
    assert TxnInv(keyHash, s, t) && ContentLock(d) in t.held;
    forall q | q in s.txns ensures VerifyObject(d) !in s.txns[q].done {
      assert TxnInv(keyHash, s, s.txns[q]);
      assert q != p ==> t.held !! s.txns[q].held;
    }
  }

  /** A transaction about to commit a new object row is the only one that may have checked or locked
      that digest. */
  lemma CommitContradictsNoCheck(keyHash: Key -> int, s: State, p: nat)
    requires Inv(keyHash, s) && p in s.txns
    ensures s.txns[p].objects <= s.store
    ensures s.txns[p].refs <= s.catalog + s.txns[p].objects
    ensures forall q, d, dry :: q in s.txns && q != p && CheckUnreferenced(d, dry) in s.txns[q].done ==>
              d !in s.txns[p].objects
  {
    var t := s.txns[p];
    assert TxnInv(keyHash, s, t);
    assert forall d :: d in t.objects ==> ContentLock(d) in t.held;
    forall q, d, dry | q in s.txns && q != p && CheckUnreferenced(d, dry) in s.txns[q].done
      ensures d !in t.objects
    {
      assert TxnInv(keyHash, s, s.txns[q]) && ContentLock(d) in s.txns[q].held;
    }
  }

  lemma PerformKeepsLocks(s: State, p: nat)
    requires p in s.txns && s.txns[p].rest != [] && Locks(s.txns[p])
    ensures p in Perform(s, p).txns ==> Locks(Perform(s, p).txns[p])
  {}

  lemma PerformKeepsFacts(s: State, p: nat)
    requires p in s.txns && s.txns[p].rest != [] && Facts(s, s.txns[p]) && s.txns[p].rest[0] != Commit
    ensures Perform(s, p).store == s.store && Perform(s, p).catalog == s.catalog && Perform(s, p).refs == s.refs
    ensures p in Perform(s, p).txns ==> Facts(s, Perform(s, p).txns[p])
  {}

  lemma PerformKeepsWrites(keyHash: Key -> int, s: State, p: nat)
    requires p in s.txns && s.txns[p].rest != [] && Writes(keyHash, s.txns[p])
    requires Justified(keyHash, s.txns[p].done, s.txns[p].rest[0])
    ensures p in Perform(s, p).txns ==> Writes(keyHash, Perform(s, p).txns[p])
  {}

  lemma PerformKeepsShape(keyHash: Key -> int, s: State, p: nat)
    requires p in s.txns && Shape(keyHash, s.txns[p]) && s.txns[p].rest[0] != Commit
    ensures p in Perform(s, p).txns ==> Shape(keyHash, Perform(s, p).txns[p])
  {
    var t := s.txns[p];
    PastGrows(keyHash, t.done, t.rest[0]);
    assert |t.rest| > 1 && t.rest[1..][|t.rest| - 2] == Commit;
    var done', rest' := t.done + {t.rest[0]}, t.rest[1..];
    assert Good(keyHash, done', rest') && Past(keyHash, done') && EndsWithCommit(rest');
    if p in Perform(s, p).txns {
      assert Perform(s, p).txns[p].done == done' && Perform(s, p).txns[p].rest == rest';
    }
  }

  /** A transaction's guarantees survive a change that keeps what it verified and adds no row it
      checked to be missing. */
  lemma Framed(keyHash: Key -> int, s: State, s': State, t: Txn)
    requires TxnInv(keyHash, s, t)
    requires s.catalog <= s'.catalog
    requires forall d :: VerifyObject(d) in t.done ==> d in s'.store
    requires forall d, dry :: CheckUnreferenced(d, dry) in t.done ==> d !in s'.catalog
    ensures TxnInv(keyHash, s', t)
  {}

  lemma PerformKeepsExclusive(s: State, p: nat)
    requires p in s.txns && Exclusive(s) && CanAdvance(s, p)
    ensures Exclusive(Perform(s, p))
  {}

  lemma PerformFramesOthers(s: State, p: nat)
    requires p in s.txns && s.txns[p].rest != []
    ensures forall q :: q in Perform(s, p).txns && q != p ==> q in s.txns && Perform(s, p).txns[q] == s.txns[q]
  {}

  lemma CommitKeeps(keyHash: Key -> int, s: State, p: nat)
    requires Inv(keyHash, s) && p in s.txns && s.txns[p].rest[0] == Commit
    ensures Inv(keyHash, Perform(s, p))
  {
    var s' := Perform(s, p);
    CommitContradictsNoCheck(keyHash, s, p);
    forall q | q in s'.txns ensures TxnInv(keyHash, s', s'.txns[q]) {
      assert s'.txns[q] == s.txns[q] && q != p;
      Framed(keyHash, s, s', s.txns[q]);
    }
  }

  lemma AdvanceKeeps(keyHash: Key -> int, s: State, p: nat)
    requires Inv(keyHash, s) && p in s.txns && CanAdvance(s, p) && s.txns[p].rest[0] != Commit
    ensures Inv(keyHash, Perform(s, p))
  {
    var s' := Perform(s, p);
    assert TxnInv(keyHash, s, s.txns[p]);
    PerformKeepsExclusive(s, p);
    PerformKeepsShape(keyHash, s, p);
    PerformKeepsLocks(s, p);
    PerformKeepsFacts(s, p);
    PerformKeepsWrites(keyHash, s, p);
    PerformFramesOthers(s, p);
    forall q | q in s'.txns && q != p ensures TxnInv(keyHash, s', s'.txns[q]) {
      Framed(keyHash, s, s', s.txns[q]);
    }
  }

  lemma DeleteKeeps(keyHash: Key -> int, s: State, p: nat)
    requires Inv(keyHash, s) && p in s.txns && s.txns[p].outstanding.Some?
    ensures Inv(keyHash, s.(store := s.store - {s.txns[p].outstanding.value}))
  {
    DeleteTouchesNothingReferenced(keyHash, s, p);
    var s' := s.(store := s.store - {s.txns[p].outstanding.value});
    forall q | q in s'.txns ensures TxnInv(keyHash, s', s'.txns[q]) {
      Framed(keyHash, s, s', s.txns[q]);
    }
  }

  lemma PutExclusive(s: State, p: nat, t: Txn)
    requires Exclusive(s) && (t.held == {} || (p in s.txns && t.held == s.txns[p].held))
    ensures Exclusive(s.(txns := s.txns[p := t]))
  {}

  lemma PutKeeps(keyHash: Key -> int, s: State, p: nat, t: Txn)
    requires Inv(keyHash, s) && TxnInv(keyHash, s, t)
    requires t.held == {} || (p in s.txns && t.held == s.txns[p].held)
    ensures Inv(keyHash, s.(txns := s.txns[p := t]))
  {
    var s' := s.(txns := s.txns[p := t]);
    PutExclusive(s, p, t);
    forall q | q in s'.txns ensures TxnInv(keyHash, s', s'.txns[q]) {
      Framed(keyHash, s, s', s'.txns[q]);
    }
  }

  lemma ReturnKeeps(keyHash: Key -> int, s: State, p: nat)
    requires Inv(keyHash, s) && p in s.txns && s.txns[p].outstanding.Some?
    ensures Inv(keyHash, s.(txns := s.txns[p := s.txns[p].(outstanding := None)]))
  {
    assert TxnInv(keyHash, s, s.txns[p]);
    assert TxnInv(keyHash, s, s.txns[p].(outstanding := None));
    PutKeeps(keyHash, s, p, s.txns[p].(outstanding := None));
  }

  lemma BeginKeeps(keyHash: Key -> int, s: State, p: nat, script: seq<Op>)
    requires Inv(keyHash, s) && p !in s.txns && Good(keyHash, {}, script) && EndsWithCommit(script)
    ensures Inv(keyHash, s.(txns := s.txns[p := Start(script)]))
  {
    PutKeeps(keyHash, s, p, Start(script));
  }

  lemma UploadOrEndKeeps(keyHash: Key -> int, s: State, s': State)
    requires Inv(keyHash, s) && s.store <= s'.store && s'.catalog == s.catalog && s'.refs == s.refs
    requires forall q :: q in s'.txns ==> q in s.txns && s'.txns[q] == s.txns[q]
    ensures Inv(keyHash, s')
  {
    forall q | q in s'.txns ensures TxnInv(keyHash, s', s'.txns[q]) {
      Framed(keyHash, s, s', s.txns[q]);
    }
  }

  lemma StepKeepsInv(keyHash: Key -> int, s: State, l: Step)
    requires Inv(keyHash, s) && Enabled(s, l)
    ensures Inv(keyHash, Apply(keyHash, s, l))
  {
    match l {
      case Upload(_) => UploadOrEndKeeps(keyHash, s, Apply(keyHash, s, l));
      case BeginIngest(p, b) =>
        IngestScriptGood(keyHash, b);
        BeginKeeps(keyHash, s, p, IngestScript(keyHash, b));
      case BeginSweep(p, d, dryRun) =>
        SweepScriptGood(keyHash, d, dryRun);
        BeginKeeps(keyHash, s, p, SweepScript(d, dryRun));
      case Advance(p) =>
        if s.txns[p].rest[0] == Commit {
          CommitKeeps(keyHash, s, p);
        } else {
          AdvanceKeeps(keyHash, s, p);
        }
      case Rollback(p) => UploadOrEndKeeps(keyHash, s, Apply(keyHash, s, l));
      case DeleteTakesEffect(p) => DeleteKeeps(keyHash, s, p);
      case DeleteReturns(p) => ReturnKeeps(keyHash, s, p);
    }
  }

  lemma {:induction false} ReachableInv(keyHash: Key -> int, run: seq<Step>, s: State)
    requires Reaches(keyHash, run, s)
    ensures Inv(keyHash, s)
    decreases |run|
  {
    if run != [] {
      var n := |run| - 1;
      var before :| Reaches(keyHash, run[..n], before) && Enabled(before, run[n])
        && s == Apply(keyHash, before, run[n]);
      ReachableInv(keyHash, run[..n], before);
      StepKeepsInv(keyHash, before, run[n]);
    }
  }

  /** SAFETY. In every state any run reaches, whatever the interleaving of uploads, attaches, commits,
      rollbacks, sweeps and cancellations, every committed object row and every committed object ref
      has its object in the store. */
  lemma NoDanglingReference(keyHash: Key -> int, run: seq<Step>, s: State)
    requires Reaches(keyHash, run, s)
    ensures s.catalog <= s.store && s.refs <= s.catalog && s.refs <= s.store
  {
    ReachableInv(keyHash, run, s);
  }
}

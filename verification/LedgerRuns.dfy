/** What concurrent appends come to over whole runs: a commit makes every item of its batch durable, nothing
    committed is ever lost, and a batch whose locks nobody else holds commits exactly when the ledger accepts
    it. */
module LedgerRuns {
  import opened Orders
  import opened LedgerTables
  import opened LedgerAppend
  import opened LedgerHistory
  import opened LedgerRepository
  import opened LedgerSession
  import opened LedgerConcurrency

  // ---- commits are durable ---------------------------------------------------------------------

  /** What a state some run reaches says of one of its transactions. */
  lemma OpenTxn(c: World, run: seq<Step>, s: State, p: nat)
    requires Sane(c) && Reaches(c, run, s) && p in s.txns
    ensures TxnInv(c, s.ledger, s.txns[p]) && s.txns[p].batch == Requested(run, p)
    ensures IndexClosed(s.ledger) && NoInnerConflict(s.txns[p].batch)
  {
    hide TxnInv, After, Explained, OwnedRows, HistoryOf, Exclusive, NoInnerConflict, IndexClosed;
    ReachableInv(c, run, s);
    ReachableRecords(c, run, s);
    TxnParts(c, s.ledger, s.txns[p]);
  }

  /** A repeat is held by what its first occurrence is held by. */
  lemma EffectiveHolds(w: Sealing, l: Ledger, batch: seq<ResolvedEvent>, i: nat, stored: StoredEvent)
    requires i < |batch| && NoInnerConflict(batch) && Holds(w, l, Effective(batch)[i].draft, stored)
    ensures Holds(w, l, batch[i].draft, stored)
  {
    hide StoredRows, EnvelopeIdentity, DraftIdentity;
    assert SameDraftAsFirst(batch, i);
  }

  /** DURABLE. A commit appends the transaction's batch, the one it began with, to the ledger committed at that
      moment, and leaves every item of it stored under its own key, with the event that was reported for it. */
  lemma CommitIsDurable(c: World, run: seq<Step>, s: State, p: nat)
    requires Sane(c) && Reaches(c, run, s) && Enabled(c, s, Commit(p))
    ensures p in s.txns
    ensures var s', batch, results := Apply(c, s, Commit(p)), Requested(run, p), s.txns[p].results;
            && p !in s'.txns && |results| == |batch|
            && Fold(c.db, c.w, After(c.db, c.w, Committed(run)), Effective(batch)) == Ok((s'.ledger, results))
            && forall i :: 0 <= i < |batch| ==> Holds(c.w, s'.ledger, batch[i].draft, results[i].stored)
  {
    hide Fold, After, HistoryOf, Effective, TxnInv, Committed, Requested, Represents, Holds, IndexClosed;
    hide NoInnerConflict, Reaches, Locked, Sane, StoredRows;
    var t := s.txns[p];
    OpenTxn(c, run, s, p);
    EveryRunIsSerializable(c, run, s);
    CommitIsFold(c, s.ledger, t);
    assert Sane(c) ==> Lawful(c.w) && ReadsAll(c.db) by { SaneParts(c); }
    var chains := EveryHistoryIsChained(c.db, c.w, Committed(run));
    var chains' := FoldKeeps(c.db, c.w, s.ledger, chains, Effective(t.batch));
    forall i | 0 <= i < |t.batch| ensures Holds(c.w, CommittedBy(s.ledger, t), t.batch[i].draft, t.results[i].stored) {
      EffectiveHolds(c.w, CommittedBy(s.ledger, t), t.batch, i, t.results[i].stored);
    }
  }

  lemma SaneParts(c: World)
    ensures Sane(c) ==> Lawful(c.w) && ReadsAll(c.db)
  {}

  /** Whatever a step does, committed rows stay. */
  lemma StepGrows(c: World, run: seq<Step>, s: State, l: Step)
    requires Sane(c) && Reaches(c, run, s) && Enabled(c, s, l)
    ensures Grows(s.ledger, Apply(c, s, l).ledger)
  {
    hide TxnInv, Reaches, InsertNext, OwnRows, Apart, Merge, Committed, StreamIds, LockKeysOf, IndexClosed, View;
    hide AllReportsKnown, NoInnerConflict, OwnedBatch, WrittenHeads;
    if l.Commit? {
      var t := s.txns[l.txn];
      OpenTxn(c, run, s, l.txn);
      TxnParts(c, s.ledger, t);
      CommitAdds(c, s.ledger, t);
      MergeGrows(s.ledger, AddedBy(s.ledger, t));
    }
  }

  /** NOTHING IS LOST. Every item of every batch a run committed is stored under its key in whatever the run
      reaches later. */
  lemma {:induction false} CommittedStaysCommitted(c: World, run: seq<Step>, s: State, n: nat, i: nat)
    returns (stored: StoredEvent)
    requires Sane(c) && Reaches(c, run, s) && n < |run| && run[n].Commit?
    requires i < |Requested(run[..n], run[n].txn)|
    ensures Holds(c.w, s.ledger, Requested(run[..n], run[n].txn)[i].draft, stored)
    decreases |run|
  {
    hide Requested, Holds, Enabled, Apply, Fold, After, Effective;
    var m := |run| - 1;
    var before :| Reaches(c, run[..m], before) && Enabled(c, before, run[m]) && s == Apply(c, before, run[m]);
    if n == m {
      CommitIsDurable(c, run[..m], before, run[m].txn);
      stored := before.txns[run[m].txn].results[i].stored;
    } else {
      assert run[..m][..n] == run[..n] && run[..m][n] == run[n];
      stored := CommittedStaysCommitted(c, run[..m], before, n, i);
      StepGrows(c, run[..m], before, run[m]);
      HoldsPersists(c.w, before.ledger, s.ledger, Requested(run[..n], run[n].txn)[i].draft, stored);
    }
  }

  // ---- a batch nobody stands in the way of -----------------------------------------------------

  /** No other transaction holds a stream or key the batch needs. */
  ghost predicate Free(c: World, s: State, p: nat, batch: seq<ResolvedEvent>) {
    forall q :: q in s.txns && q != p ==>
      s.txns[q].streams.Keys !! StreamIds(batch) && s.txns[q].keys !! LockKeysOf(c, batch)
  }

  /** How many statements a transaction still needs. */
  ghost function Needs(c: World, t: Txn): nat
    requires |t.results| <= |t.batch|
  {
    |StreamIds(t.batch) - t.streams.Keys| + |LockKeysOf(c, t.batch) - t.keys| + |t.batch| - |t.results|
  }

  /** What running a transaction on to its end comes to. */
  ghost predicate Ends(c: World, s: State, p: nat, batch: seq<ResolvedEvent>, end: State)
    requires IndexClosed(s.ledger)
  {
    var fold := Fold(c.db, c.w, s.ledger, Effective(batch));
    && end.txns == s.txns - {p}
    && end.ledger == (if fold.Ok? then fold.value.0 else s.ledger)
  }

  lemma ReachesNext(c: World, run: seq<Step>, s: State, l: Step)
    requires Reaches(c, run, s) && Enabled(c, s, l)
    ensures Reaches(c, run + [l], Apply(c, s, l))
  {
    hide Enabled, Apply;
    assert (run + [l])[..|run|] == run;
  }

  predicate OwnStep(l: Step, p: nat) {
    (l.LockStream? || l.LockKey? || l.Insert? || l.Commit?) && l.txn == p
  }

  /** A statement of the transaction's own: it goes on with fewer to come, or has ended as its batch deserves. */
  ghost predicate Progresses(c: World, s: State, p: nat, l: Step) {
    && p in s.txns && IndexClosed(s.ledger) && |s.txns[p].results| <= |s.txns[p].batch|
    && OwnStep(l, p) && Enabled(c, s, l)
    && var s' := Apply(c, s, l);
       && s'.txns - {p} == s.txns - {p}
       && (p in s'.txns ==>
             && s'.ledger == s.ledger && s'.txns[p].batch == s.txns[p].batch
             && |s'.txns[p].results| <= |s'.txns[p].batch|
             && Needs(c, s'.txns[p]) < Needs(c, s.txns[p]))
       && (p !in s'.txns ==> Ends(c, s, p, s.txns[p].batch, s'))
  }

  /** The next statement the transaction needs. */
  lemma NextStatement(c: World, run: seq<Step>, s: State, p: nat) returns (l: Step)
    requires Sane(c) && Reaches(c, run, s) && p in s.txns && Free(c, s, p, s.txns[p].batch)
    ensures Progresses(c, s, p, l)
  {
    hide StreamIds, LockKeysOf, TxnInv, Reaches, Progresses, IndexClosed, NoInnerConflict, Requested, Sane, Needs;
    var t := s.txns[p];
    OpenTxn(c, run, s, p);
    TxnShape(c, s.ledger, t);
    if StreamIds(t.batch) - t.streams.Keys != {} {
      l := LockStream(p, Pick(StreamIds(t.batch) - t.streams.Keys));
      LockStreamLeaves(c, s, p, l.streamId);
    } else if LockKeysOf(c, t.batch) - t.keys != {} {
      l := LockKey(p, Pick(LockKeysOf(c, t.batch) - t.keys));
      LockKeyLeaves(c, s, p, l.lockKey);
    } else {
      NothingLeft(StreamIds(t.batch), t.streams.Keys);
      NothingLeft(LockKeysOf(c, t.batch), t.keys);
      if |t.results| < |t.batch| {
        l := Insert(p);
        InsertLeaves(c, run, s, p);
      } else {
        l := Commit(p);
        CommitLeaves(c, s, p);
      }
    }
  }

  lemma NothingLeft<T>(needed: set<T>, held: set<T>)
    requires held <= needed && needed - held == {}
    ensures needed == held
  {
    assert forall x :: x in needed ==> x in needed - held || x in held;
  }

  lemma TxnShape(c: World, l: Ledger, t: Txn)
    requires TxnInv(c, l, t)
    ensures |t.results| <= |t.batch| && (t.results != [] ==> Locked(c, t))
    ensures t.streams.Keys <= StreamIds(t.batch) && t.keys <= LockKeysOf(c, t.batch)
  {
    hide StreamIds, LockKeysOf, AllReportsKnown, NoInnerConflict, OwnedBatch, OwnRows, Fold, Effective, Sim;
    hide IndexClosed, View, Untouched, Locked;
  }

  /** One lock more, or one result more, is one statement less. */
  lemma NeedsLess(c: World, t: Txn, t': Txn)
    requires t'.batch == t.batch && |t.results| <= |t'.results| <= |t.batch|
    requires t.streams.Keys <= t'.streams.Keys && t.keys <= t'.keys
    requires || |t.results| < |t'.results|
             || (exists x :: x in StreamIds(t.batch) && x !in t.streams && x in t'.streams)
             || (exists k :: k in LockKeysOf(c, t.batch) && k !in t.keys && k in t'.keys)
    ensures Needs(c, t') < Needs(c, t)
  {
    hide StreamIds, LockKeysOf;
    FewerLeft(StreamIds(t.batch), t.streams.Keys, t'.streams.Keys);
    FewerLeft(LockKeysOf(c, t.batch), t.keys, t'.keys);
  }

  lemma FewerLeft<T>(needed: set<T>, held: set<T>, held': set<T>)
    requires held <= held'
    ensures |needed - held'| <= |needed - held|
    ensures (exists x :: x in needed && x !in held && x in held') ==> |needed - held'| < |needed - held|
  {
    SubsetSize(needed - held', needed - held);
    if x :| x in needed && x !in held && x in held' {
      SubsetSize(needed - held', needed - held - {x});
    }
  }

  lemma LockStreamLeaves(c: World, s: State, p: nat, x: string)
    requires p in s.txns && Free(c, s, p, s.txns[p].batch) && IndexClosed(s.ledger)
    requires NoInnerConflict(s.txns[p].batch) && |s.txns[p].results| <= |s.txns[p].batch|
    requires s.txns[p].results == [] && x in StreamIds(s.txns[p].batch) && x !in s.txns[p].streams
    ensures Progresses(c, s, p, LockStream(p, x))
  {
    hide StreamIds, LockKeysOf, Fold, Effective, IndexClosed, NoInnerConflict, Quarantined, Needs, TakeStream;
    var t := s.txns[p];
    if Quarantined(s.ledger, x) {
      QuarantineFails(c.db, c.w, s.ledger, t.batch);
    } else {
      var t' := TakeStream(s.ledger, t, x);
      assert t'.batch == t.batch && t'.results == t.results && t'.keys == t.keys
          && t'.streams.Keys == t.streams.Keys + {x} by { StreamTaken(s.ledger, t, x); }
      NeedsLess(c, t, t');
    }
  }

  lemma StreamTaken(l: Ledger, t: Txn, x: string)
    ensures var t' := TakeStream(l, t, x);
            && t'.batch == t.batch && t'.results == t.results && t'.keys == t.keys
            && t'.streams.Keys == t.streams.Keys + {x}
  {}

  lemma LockKeyLeaves(c: World, s: State, p: nat, k: int)
    requires p in s.txns && Free(c, s, p, s.txns[p].batch) && IndexClosed(s.ledger)
    requires |s.txns[p].results| <= |s.txns[p].batch|
    requires k in LockKeysOf(c, s.txns[p].batch) && k !in s.txns[p].keys
    ensures Progresses(c, s, p, LockKey(p, k))
  {
    hide StreamIds, LockKeysOf, Fold, Effective, IndexClosed, Needs;
    var t := s.txns[p];
    NeedsLess(c, t, t.(keys := t.keys + {k}));
  }

  lemma InsertLeaves(c: World, run: seq<Step>, s: State, p: nat)
    requires Sane(c) && Reaches(c, run, s) && p in s.txns && Locked(c, s.txns[p]) && IndexClosed(s.ledger)
    requires |s.txns[p].results| < |s.txns[p].batch|
    ensures Progresses(c, s, p, Insert(p))
  {
    hide StreamIds, LockKeysOf, Fold, Effective, IndexClosed, InsertStep, After, Committed, View, InsertRows;
    hide Sane, Requested, Reaches, Inv, InsertNext, Needs, TxnInv, NoInnerConflict, OwnedBatch, AllReportsKnown;
    RefusedForCause(c, run, s, p);
    EveryRunIsSerializable(c, run, s);
    OpenTxn(c, run, s, p);
    ReachableInv(c, run, s);
    InsertKeepsTxn(c, s, p);
    InsertKeepsBatch(c, s.ledger, s.txns[p]);
    InsertAddsResult(c, s.ledger, s.txns[p]);
    var next := InsertNext(c, s.ledger, s.txns[p]);
    if next.Some? { NeedsLess(c, s.txns[p], next.value); }
  }

  lemma InsertAddsResult(c: World, l: Ledger, t: Txn)
    requires |t.results| < |t.batch| && IndexClosed(View(l, t)) && t.streams.Keys == StreamIds(t.batch)
    ensures InsertNext(c, l, t).Some? ==> |InsertNext(c, l, t).value.results| == |t.results| + 1
  {
    hide InsertStep, IndexClosed, StreamIds, View, InsertRows;
  }

  lemma CommitLeaves(c: World, s: State, p: nat)
    requires p in s.txns && TxnInv(c, s.ledger, s.txns[p]) && Locked(c, s.txns[p]) && IndexClosed(s.ledger)
    requires |s.txns[p].results| == |s.txns[p].batch|
    ensures Progresses(c, s, p, Commit(p))
  {
    hide StreamIds, LockKeysOf, TxnInv, Fold, Effective, IndexClosed, WrittenHeads, View;
    CommitIsFold(c, s.ledger, s.txns[p]);
  }

  lemma {:induction false} FinishAlone(c: World, run: seq<Step>, s: State, p: nat) returns (more: seq<Step>, end: State)
    requires Sane(c) && Reaches(c, run, s) && p in s.txns && Free(c, s, p, s.txns[p].batch)
    requires |s.txns[p].results| <= |s.txns[p].batch|
    ensures Reaches(c, run + more, end) && forall l :: l in more ==> OwnStep(l, p)
    ensures IndexClosed(s.ledger) && Ends(c, s, p, s.txns[p].batch, end)
    decreases Needs(c, s.txns[p])
  {
    hide Enabled, Apply, Reaches, Needs, Fold, Effective, IndexClosed, StreamIds, LockKeysOf;
    var l := NextStatement(c, run, s, p);
    assert Progresses(c, s, p, l);
    var s' := Apply(c, s, l);
    ReachesNext(c, run, s, l);
    if p in s'.txns {
      assert forall q :: q in s'.txns && q != p ==> q in s'.txns - {p} && s'.txns[q] == (s'.txns - {p})[q];
      var rest;
      rest, end := FinishAlone(c, run + [l], s', p);
      more := [l] + rest;
      assert run + more == run + [l] + rest;
    } else {
      more, end := [l], s';
      assert s'.txns == s'.txns - {p};
    }
  }

  /** UNOBSTRUCTED. A batch whose streams and keys no open transaction holds needs only its own statements to
      end, and then it is committed exactly as the ledger committed at that moment accepts it, or has changed
      nothing when it does not; the other transactions are as they were. */
  lemma ABatchCommitsWhenFree(c: World, run: seq<Step>, s: State, p: nat, batch: seq<ResolvedEvent>)
    returns (more: seq<Step>, end: State)
    requires Sane(c) && Reaches(c, run, s) && Enabled(c, s, Begin(p, batch)) && Free(c, s, p, batch)
    ensures Reaches(c, run + [Begin(p, batch)] + more, end) && forall l :: l in more ==> OwnStep(l, p)
    ensures var fold := Fold(c.db, c.w, After(c.db, c.w, Committed(run)), Effective(batch));
            && end.txns == s.txns
            && end.ledger == (if fold.Ok? then fold.value.0 else s.ledger)
  {
    hide Reaches, Fold, Effective, IndexClosed, StreamIds, LockKeysOf, Needs, After, Committed, AllReportsKnown;
    hide NoInnerConflict, OwnedBatch;
    var begun := Apply(c, s, Begin(p, batch));
    ReachesNext(c, run, s, Begin(p, batch));
    more, end := FinishAlone(c, run + [Begin(p, batch)], begun, p);
    assert begun.txns - {p} == s.txns;
    EveryRunIsSerializable(c, run, s);
  }
}

/** What runs of the write protocol come to: the committed tables are exactly what the finished ingestions of
    the run wrote, the bucket is what was uploaded and not swept, and a transaction whose locks nobody else
    holds finishes, or ends without a trace, as its batch or candidate deserves. All of it is told from the
    steps of the run alone. */
module WriteProtocolRuns {
  import opened Orders
  import opened LockOrder
  import opened TransactionScripts
  import opened WriteProtocol
  import opened WriteProtocolProgress

  // ---- what a run did, by its steps ------------------------------------------------------------

  predicate Begins(l: Step, p: nat) {
    (l.BeginIngest? || l.BeginSweep?) && l.txn == p
  }

  /** The step a transaction last began with. */
  function Begun(run: seq<Step>, p: nat): Option<Step> {
    if run == [] then None
    else
      var n := |run| - 1;
      if Begins(run[n], p) then Some(run[n]) else Begun(run[..n], p)
  }

  /** How many operations it has run since. */
  function Advances(run: seq<Step>, p: nat): nat {
    if run == [] then 0
    else
      var n := |run| - 1;
      if Begins(run[n], p) then 0 else Advances(run[..n], p) + (if run[n] == Advance(p) then 1 else 0)
  }

  ghost function ScriptOf(keyHash: Key -> int, begun: Step): seq<Op> {
    match begun
    case BeginIngest(_, b) => IngestScript(keyHash, b)
    case BeginSweep(_, d, dryRun) => SweepScript(d, dryRun)
    case _ => []
  }

  /** A transaction runs the last operation of its ingestion. */
  ghost predicate Finishes(keyHash: Key -> int, run: seq<Step>, l: Step) {
    && l.Advance? && Begun(run, l.txn).Some? && Begun(run, l.txn).value.BeginIngest?
    && Advances(run, l.txn) + 1 == |ScriptOf(keyHash, Begun(run, l.txn).value)|
  }

  /** The batches whose ingestion ran to its end, in that order. */
  ghost function Finished(keyHash: Key -> int, run: seq<Step>): seq<Batch> {
    if run == [] then []
    else
      var n := |run| - 1;
      var before := Finished(keyHash, run[..n]);
      if Finishes(keyHash, run[..n], run[n]) then before + [Begun(run[..n], run[n].txn).value.batch] else before
  }

  /** What was uploaded and not deleted since by the sweep of its digest. */
  function StoreOf(run: seq<Step>): set<Digest> {
    if run == [] then {}
    else
      var n := |run| - 1;
      var before := StoreOf(run[..n]);
      match run[n]
      case Upload(d) => before + {d}
      case DeleteTakesEffect(p) =>
        if Begun(run[..n], p).Some? && Begun(run[..n], p).value.BeginSweep?
        then before - {Begun(run[..n], p).value.digest} else before
      case _ => before
  }

  // ---- what batches write ----------------------------------------------------------------------

  function ObjectsOf(log: seq<Batch>): set<Digest> {
    if log == [] then {} else ObjectsOf(log[..|log| - 1]) + log[|log| - 1].objects
  }

  function InlinesOf(log: seq<Batch>): set<string> {
    if log == [] then {} else InlinesOf(log[..|log| - 1]) + log[|log| - 1].inlines
  }

  function KeysOf(log: seq<Batch>): set<Key> {
    if log == [] then {} else KeysOf(log[..|log| - 1]) + log[|log| - 1].events.Keys
  }

  /** The digests some events name. */
  function RefsFor(events: map<Key, set<Digest>>, keys: set<Key>): set<Digest> {
    set k, d | k in events && k in keys && d in events[k] :: d
  }

  /** A key is written once, by the first batch that has it. */
  function RefsOf(log: seq<Batch>): set<Digest> {
    if log == [] then {}
    else
      var before, b := log[..|log| - 1], log[|log| - 1];
      RefsOf(before) + RefsFor(b.events, b.events.Keys - KeysOf(before))
  }

  ghost predicate Tables(log: seq<Batch>, s: State) {
    s.catalog == ObjectsOf(log) && s.inlines == InlinesOf(log) && s.eventKeys == KeysOf(log) && s.refs == RefsOf(log)
  }

  // ---- the operations of a script --------------------------------------------------------------

  lemma {:induction false} AttachedObjects(digests: seq<Digest>)
    ensures forall d :: InsertObject(d) in AttachObjects(digests) <==> d in digests
    ensures forall d :: VerifyObject(d) in AttachObjects(digests) <==> d in digests
    ensures forall o :: o in AttachObjects(digests) ==>
              (o.Lock? && !o.resource.InlineRow?) || o.VerifyObject? || o.InsertObject?
  {
    if digests != [] {
      AttachedObjects(digests[1..]);
      assert forall d :: d in digests <==> d == digests[0] || d in digests[1..];
    }
  }

  lemma PhaseOps(inlines: seq<string>, streams: seq<string>, keys: seq<int>)
    ensures forall id :: InsertInline(id) in AttachInlines(inlines) <==> id in inlines
    ensures forall o :: o in AttachInlines(inlines) ==> o.InsertInline?
    ensures forall o :: o in LockStreams(streams) ==> o.Lock? && !o.resource.InlineRow?
    ensures forall o :: o in LockIdempotencyKeys(keys) ==> o.Lock? && !o.resource.InlineRow?
  {
    forall id | id in inlines ensures InsertInline(id) in AttachInlines(inlines) {
      var i :| 0 <= i < |inlines| && inlines[i] == id;
      assert AttachInlines(inlines)[i] == InsertInline(id);
    }
  }

  /** The operations of an ingestion before its commit. */
  ghost function Before(keyHash: Key -> int, b: Batch): set<Op> {
    var script := IngestScript(keyHash, b);
    if script == [] then {} else Ops(script[..|script| - 1])
  }

  lemma IngestOps(keyHash: Key -> int, b: Batch)
    ensures IngestScript(keyHash, b) != []
    ensures forall d :: InsertObject(d) in Before(keyHash, b) <==> d in b.objects
    ensures forall id :: InsertInline(id) in Before(keyHash, b) <==> id in b.inlines
    ensures InsertEvents(b.events) in Before(keyHash, b)
    ensures forall id :: Lock(InlineRow(id)) !in Before(keyHash, b)
    ensures forall o :: o in IngestScript(keyHash, b) ==> !o.IssueDelete? && !o.CheckUnreferenced? && !o.AwaitDelete?
    ensures forall events :: InsertEvents(events) in IngestScript(keyHash, b) ==> events == b.events
    ensures forall d :: VerifyObject(d) in IngestScript(keyHash, b) <==> d in b.objects
  {
    hide Justified, SortedSet, SortedInts, LockKeys;
    var objects, inlines := SortedDigests(b.objects), SortedSet(b.inlines);
    var streams, keys := SortedSet(b.streams), SortedInts(LockKeys(keyHash, b.events.Keys));
    AttachedObjects(objects);
    PhaseOps(inlines, streams, keys);
    hide AttachObjects, AttachInlines, LockStreams, LockIdempotencyKeys, SortedDigests, IngestScript;
    IngestParts(keyHash, b);
    PartsJoin(IngestScript(keyHash, b), AttachObjects(objects), AttachInlines(inlines), LockStreams(streams),
              LockIdempotencyKeys(keys), b.events);
  }

  lemma IngestParts(keyHash: Key -> int, b: Batch)
    ensures IngestScript(keyHash, b)
         == AttachObjects(SortedDigests(b.objects)) + AttachInlines(SortedSet(b.inlines))
            + LockStreams(SortedSet(b.streams))
            + LockIdempotencyKeys(SortedInts(LockKeys(keyHash, b.events.Keys))) + [InsertEvents(b.events), Commit]
  {
    hide AttachObjects, AttachInlines, LockStreams, LockIdempotencyKeys, SortedDigests, SortedSet, SortedInts;
    hide LockKeys;
  }

  lemma PartsJoin(script: seq<Op>, a: seq<Op>, b: seq<Op>, c: seq<Op>, d: seq<Op>, events: map<Key, set<Digest>>)
    requires script == a + b + c + d + [InsertEvents(events), Commit]
    ensures forall o :: o in Ops(script[..|script| - 1])
                        <==> o in a || o in b || o in c || o in d || o == InsertEvents(events)
    ensures forall o :: o in script <==> o in Ops(script[..|script| - 1]) || o == Commit
    ensures InsertEvents(events) in Ops(script[..|script| - 1])
  {
    var before := a + b + c + d;
    var most := script[..|script| - 1];
    assert script == most + [Commit] && most == before + [InsertEvents(events)];
    forall o ensures o in Ops(most) <==> o in a || o in b || o in c || o in d || o == InsertEvents(events) {
      assert o in most <==> o in before || o == InsertEvents(events);
      assert o in before <==> o in a + b + c || o in d;
      assert o in a + b + c <==> o in a + b || o in c;
    }
    forall o ensures o in script <==> o in Ops(most) || o == Commit {
      assert o in script <==> o in most || o == Commit;
    }
  }

  lemma SweepOps(d: Digest, dryRun: bool)
    ensures forall o :: o in SweepScript(d, dryRun) ==>
              && !o.InsertObject? && !o.InsertInline? && !o.InsertEvents? && !o.VerifyObject?
              && (o.Lock? ==> o.resource == ContentLock(d)) && (o.IssueDelete? ==> o.digest == d)
  {
    hide ContentLock;
  }

  // ---- open transactions follow their scripts --------------------------------------------------

  function EventsOf(begun: Step): map<Key, set<Digest>> {
    if begun.BeginIngest? then begun.batch.events else map[]
  }

  /** As many operations as it advanced are done, the rest is left. */
  ghost predicate Follows(keyHash: Key -> int, run: seq<Step>, p: nat, t: Txn) {
    && Begun(run, p).Some?
    && var script, n := ScriptOf(keyHash, Begun(run, p).value), Advances(run, p);
       n < |script| && t.rest == script[n..] && t.done == Ops(script[..n])
  }

  /** What it has inserted is committed or its own, each key under the locks that make it the only writer. */
  ghost predicate Pending(s: State, t: Txn, begun: Step) {
    && (forall id :: InsertInline(id) in t.done ==> id in s.inlines || InlineRow(id) in t.held)
    && t.keys !! s.eventKeys
    && (if InsertEvents(EventsOf(begun)) in t.done then Inserted(s, t, EventsOf(begun))
        else t.keys == {} && t.refs == {})
    && (t.outstanding.Some? ==> begun.BeginSweep? && t.outstanding.value == begun.digest)
  }

  ghost predicate Inserted(s: State, t: Txn, events: map<Key, set<Digest>>) {
    events.Keys <= s.eventKeys + t.keys && t.keys <= events.Keys && t.refs == RefsFor(events, t.keys)
  }

  ghost predicate TxnRun(keyHash: Key -> int, run: seq<Step>, s: State, p: nat)
    requires p in s.txns
  {
    Follows(keyHash, run, p, s.txns[p]) && Pending(s, s.txns[p], Begun(run, p).value)
  }

  ghost predicate RunInv(keyHash: Key -> int, run: seq<Step>, s: State) {
    && Inv(keyHash, s)
    && (forall p :: p in s.txns ==> TxnRun(keyHash, run, s, p))
    && Tables(Finished(keyHash, run), s)
    && s.store == StoreOf(run)
  }

  lemma OneMore(run: seq<Step>, l: Step, p: nat)
    ensures Begun(run + [l], p) == if Begins(l, p) then Some(l) else Begun(run, p)
    ensures Advances(run + [l], p)
         == if Begins(l, p) then 0 else Advances(run, p) + (if l == Advance(p) then 1 else 0)
  {
    assert (run + [l])[..|run|] == run;
  }

  lemma OneMoreOp(script: seq<Op>, n: nat)
    requires n < |script|
    ensures script[n..][0] == script[n] && script[n..][1..] == script[n + 1..]
    ensures Ops(script[..n + 1]) == Ops(script[..n]) + {script[n]}
  {
    assert script[..n + 1] == script[..n] + [script[n]];
  }

  /** Only the last operation commits. */
  lemma CommitIsLast(keyHash: Key -> int, t: Txn)
    requires Shape(keyHash, t)
    ensures t.rest[0] == Commit <==> |t.rest| == 1
  {
    if t.rest[0] == Commit {
      NothingAfterCommit(keyHash, t.done + {Commit}, t.rest[1..]);
    }
  }

  lemma NothingAfterCommit(keyHash: Key -> int, done: set<Op>, rest: seq<Op>)
    requires Commit in done && Good(keyHash, done, rest)
    ensures rest == []
  {}

  lemma StepFollows(keyHash: Key -> int, run: seq<Step>, s: State, l: Step, q: nat)
    requires Enabled(s, l) && q in Apply(keyHash, s, l).txns
    requires q in s.txns ==> Follows(keyHash, run, q, s.txns[q]) && Shape(keyHash, s.txns[q])
    ensures Follows(keyHash, run + [l], q, Apply(keyHash, s, l).txns[q])
  {
    hide IngestScript, SweepScript, Shape, Justified;
    OneMore(run, l, q);
    if Begins(l, q) {
      var script := ScriptOf(keyHash, l);
      ScriptStarts(keyHash, l);
      assert script[0..] == script && script[..0] == [];
    } else if l == Advance(q) {
      var t, script := s.txns[q], ScriptOf(keyHash, Begun(run, q).value);
      OneMoreOp(script, Advances(run, q));
      CommitIsLast(keyHash, t);
      PerformMoves(s, q);
    } else if l.Advance? {
      PerformFramesOthers(s, l.txn);
    }
  }

  lemma ScriptStarts(keyHash: Key -> int, begun: Step)
    requires begun.BeginIngest? || begun.BeginSweep?
    ensures ScriptOf(keyHash, begun) != []
  {
    if begun.BeginIngest? {
      hide IngestScript;
      IngestOps(keyHash, begun.batch);
    }
  }

  lemma PerformMoves(s: State, p: nat)
    requires p in s.txns && s.txns[p].rest != []
    ensures p in Perform(s, p).txns ==>
              && Perform(s, p).txns[p].rest == s.txns[p].rest[1..]
              && Perform(s, p).txns[p].done == s.txns[p].done + {s.txns[p].rest[0]}
              && s.txns[p].rest[0] != Commit
  {}

  // ---- pending rows ----------------------------------------------------------------------------

  lemma PerformPends(keyHash: Key -> int, s: State, p: nat, begun: Step)
    requires p in s.txns && s.txns[p].rest != [] && Pending(s, s.txns[p], begun)
    requires forall events :: s.txns[p].rest[0] == InsertEvents(events) ==> events == EventsOf(begun)
    requires forall d :: s.txns[p].rest[0] == IssueDelete(d) ==> begun.BeginSweep? && d == begun.digest
    ensures p in Perform(s, p).txns ==> Pending(s, Perform(s, p).txns[p], begun)
  {
    var t, op := s.txns[p], s.txns[p].rest[0];
    if op.InsertEvents? {
      var t' := Perform(s, p).txns[p];
      assert t'.refs == RefsFor(op.events, t'.keys);
    }
  }

  lemma NextOpOf(keyHash: Key -> int, run: seq<Step>, p: nat, t: Txn)
    requires Follows(keyHash, run, p, t)
    ensures t.rest != [] && t.rest[0] in ScriptOf(keyHash, Begun(run, p).value)
    ensures var begun := Begun(run, p).value;
            && (begun.BeginIngest? || begun.BeginSweep?)
            && (forall events :: t.rest[0] == InsertEvents(events) ==> events == EventsOf(begun))
            && (forall d :: t.rest[0] == IssueDelete(d) ==> begun.BeginSweep? && d == begun.digest)
  {
    hide IngestScript, SweepScript;
    var begun := Begun(run, p).value;
    BegunBegins(run, p);
    if begun.BeginIngest? { IngestOps(keyHash, begun.batch); } else { SweepOps(begun.digest, begun.dryRun); }
  }

  lemma {:induction false} BegunBegins(run: seq<Step>, p: nat)
    requires Begun(run, p).Some?
    ensures Begins(Begun(run, p).value, p)
  {
    if !Begins(run[|run| - 1], p) { BegunBegins(run[..|run| - 1], p); }
  }

  /** Two open transactions never have the same key to commit. */
  lemma KeysApart(keyHash: Key -> int, s: State, p: nat, q: nat)
    requires Inv(keyHash, s) && p in s.txns && q in s.txns && p != q
    ensures s.txns[p].keys !! s.txns[q].keys
  {
    var t, u := s.txns[p], s.txns[q];
    assert TxnInv(keyHash, s, t) && TxnInv(keyHash, s, u);
    forall k | k in t.keys ensures k !in u.keys {
      assert IdempotencyLock(keyHash(k)) in t.held && IdempotencyLock(keyHash(k)) !in u.held;
    }
  }

  lemma PendingFramed(s: State, s': State, t: Txn, begun: Step, added: set<Key>)
    requires Pending(s, t, begun) && s.inlines <= s'.inlines && s'.eventKeys == s.eventKeys + added && t.keys !! added
    ensures Pending(s', t, begun)
  {}

  // ---- commits ---------------------------------------------------------------------------------

  /** The inline rows a transaction has inserted and not committed. */
  function InlinesHeld(t: Txn): set<string> {
    set r | r in t.held && r.InlineRow? :: r.inlineId
  }

  /** WHAT A COMMIT WRITES. A transaction that reaches its commit makes durable exactly the objects, inline
      contents and keys it inserted, and the refs of the keys nobody had committed before. */
  lemma CommitWrites(keyHash: Key -> int, run: seq<Step>, s: State, p: nat)
    requires RunInv(keyHash, run, s) && p in s.txns && s.txns[p].rest[0] == Commit
    ensures var s', begun := Perform(s, p), Begun(run, p).value;
            && s'.txns == s.txns - {p} && s'.store == s.store
            && (begun.BeginIngest? ==>
                  && s'.catalog == s.catalog + begun.batch.objects && s'.inlines == s.inlines + begun.batch.inlines
                  && s'.eventKeys == s.eventKeys + begun.batch.events.Keys
                  && s'.refs == s.refs + RefsFor(begun.batch.events, begun.batch.events.Keys - s.eventKeys))
            && (!begun.BeginIngest? ==> s' == s.(txns := s.txns - {p}))
  {
    hide IngestScript, SweepScript, Shape, Good, Past, Tables, StoreOf, Follows, Inv, RefsFor, Finished, Perform;
    hide Locks, Facts, Inserted, Before, InlinesHeld;
    var t := s.txns[p];
    InvShape(keyHash, s, p);
    assert TxnRun(keyHash, run, s, p);
    FollowsBegun(keyHash, run, p, t);
    PerformCommit(s, p);
    var begun := Begun(run, p).value;
    BegunBegins(run, p);
    CommitDone(keyHash, run, s, p);
    if begun.BeginIngest? {
      IngestOps(keyHash, begun.batch);
      assert t.done == Before(keyHash, begun.batch) by { BeforeCommit(keyHash, begun.batch); }
      CommitsItsRows(s, t, begun.batch);
    } else {
      SweepOps(begun.digest, begun.dryRun);
      CommitsNoRows(s, t);
    }
  }

  lemma PerformCommit(s: State, p: nat)
    requires p in s.txns && s.txns[p].rest != [] && s.txns[p].rest[0] == Commit
    ensures var t := s.txns[p];
            Perform(s, p) == State(s.txns - {p}, s.store, s.catalog + t.objects, s.inlines + InlinesHeld(t),
                                   s.eventKeys + t.keys, s.refs + t.refs)
  {}

  lemma BeforeCommit(keyHash: Key -> int, b: Batch)
    requires IngestScript(keyHash, b) != []
    ensures var script := IngestScript(keyHash, b); Before(keyHash, b) == Ops(script[..|script| - 1])
  {
    hide IngestScript;
  }

  lemma CommitsNoRows(s: State, t: Txn)
    requires Locks(t) && (forall d :: d in t.objects ==> InsertObject(d) in t.done) && t.keys == {} && t.refs == {}
    requires forall o :: o in t.done ==> !o.InsertObject? && !o.InsertInline? && (o.Lock? ==> !o.resource.InlineRow?)
    ensures s.catalog + t.objects == s.catalog && s.inlines + InlinesHeld(t) == s.inlines
    ensures s.eventKeys + t.keys == s.eventKeys && s.refs + t.refs == s.refs
  {
    assert t.objects == {} && InlinesHeld(t) == {};
  }

  /** At its commit a transaction has run everything before it. */
  lemma CommitDone(keyHash: Key -> int, run: seq<Step>, s: State, p: nat)
    requires p in s.txns && TxnInv(keyHash, s, s.txns[p]) && Follows(keyHash, run, p, s.txns[p])
    requires s.txns[p].rest[0] == Commit
    ensures var script := ScriptOf(keyHash, Begun(run, p).value);
            && script != [] && Advances(run, p) + 1 == |script| && s.txns[p].done == Ops(script[..|script| - 1])
            && forall o :: o in s.txns[p].done ==> o in script
  {
    hide IngestScript, SweepScript, Good, Past;
    CommitIsLast(keyHash, s.txns[p]);
  }

  lemma CommitsItsRows(s: State, t: Txn, b: Batch)
    requires Locks(t) && Facts(s, t) && (forall d :: d in t.objects ==> InsertObject(d) in t.done)
    requires forall d :: InsertObject(d) in t.done <==> d in b.objects
    requires forall id :: InsertInline(id) in t.done <==> id in b.inlines
    requires forall id :: Lock(InlineRow(id)) !in t.done
    requires forall id :: InsertInline(id) in t.done ==> id in s.inlines || InlineRow(id) in t.held
    requires t.keys !! s.eventKeys && Inserted(s, t, b.events)
    ensures s.catalog + t.objects == s.catalog + b.objects
    ensures s.inlines + InlinesHeld(t) == s.inlines + b.inlines
    ensures s.eventKeys + t.keys == s.eventKeys + b.events.Keys
    ensures t.refs == RefsFor(b.events, b.events.Keys - s.eventKeys)
  {
    forall id ensures id in s.inlines + InlinesHeld(t) <==> id in s.inlines + b.inlines {
      if id in InlinesHeld(t) { assert InlineRow(id) in t.held; }
    }
    assert t.keys == b.events.Keys - s.eventKeys;
  }

  // ---- every step ------------------------------------------------------------------------------

  lemma FinishedNext(keyHash: Key -> int, run: seq<Step>, l: Step)
    ensures Finished(keyHash, run + [l])
         == Finished(keyHash, run) + (if Finishes(keyHash, run, l) then [Begun(run, l.txn).value.batch] else [])
  {
    hide Finishes;
    assert (run + [l])[..|run|] == run;
  }

  lemma StoreNext(run: seq<Step>, l: Step)
    ensures l.Upload? ==> StoreOf(run + [l]) == StoreOf(run) + {l.digest}
    ensures l.DeleteTakesEffect? && Begun(run, l.txn).Some? && Begun(run, l.txn).value.BeginSweep? ==>
              StoreOf(run + [l]) == StoreOf(run) - {Begun(run, l.txn).value.digest}
    ensures !l.Upload? && !l.DeleteTakesEffect? ==> StoreOf(run + [l]) == StoreOf(run)
  {
    assert (run + [l])[..|run|] == run;
  }

  lemma TablesNext(log: seq<Batch>, b: Batch)
    ensures ObjectsOf(log + [b]) == ObjectsOf(log) + b.objects && InlinesOf(log + [b]) == InlinesOf(log) + b.inlines
    ensures KeysOf(log + [b]) == KeysOf(log) + b.events.Keys
    ensures RefsOf(log + [b]) == RefsOf(log) + RefsFor(b.events, b.events.Keys - KeysOf(log))
  {
    assert (log + [b])[..|log|] == log;
  }

  /** Only a transaction at its commit finishes. */
  lemma FinishesAtCommit(keyHash: Key -> int, run: seq<Step>, s: State, p: nat)
    requires RunInv(keyHash, run, s) && p in s.txns
    ensures Finishes(keyHash, run, Advance(p)) <==>
              s.txns[p].rest[0] == Commit && Begun(run, p).value.BeginIngest?
  {
    hide IngestScript, SweepScript, Good, Past, Tables, StoreOf, Pending;
    assert TxnInv(keyHash, s, s.txns[p]) && TxnRun(keyHash, run, s, p);
    CommitIsLast(keyHash, s.txns[p]);
  }

  /** Only a commit changes the committed tables. */
  lemma QuietStep(keyHash: Key -> int, s: State, l: Step)
    requires Enabled(s, l) && (l.Advance? ==> s.txns[l.txn].rest[0] != Commit)
    ensures var s' := Apply(keyHash, s, l);
            s'.catalog == s.catalog && s'.inlines == s.inlines && s'.eventKeys == s.eventKeys && s'.refs == s.refs
  {
    hide IngestScript, SweepScript;
  }

  /** Only uploads and effective deletes change the bucket. */
  lemma StoreTracks(keyHash: Key -> int, run: seq<Step>, s: State, l: Step)
    requires RunInv(keyHash, run, s) && Enabled(s, l)
    ensures Apply(keyHash, s, l).store == StoreOf(run + [l])
  {
    hide IngestScript, SweepScript, Inv, Tables, Follows, StoreOf;
    StoreNext(run, l);
    if l.DeleteTakesEffect? {
      assert TxnRun(keyHash, run, s, l.txn);
      assert Begun(run, l.txn).Some? by { FollowsBegun(keyHash, run, l.txn, s.txns[l.txn]); }
    }
  }

  lemma FollowsBegun(keyHash: Key -> int, run: seq<Step>, p: nat, t: Txn)
    requires Follows(keyHash, run, p, t)
    ensures Begun(run, p).Some? && t.rest != []
  {
    hide IngestScript, SweepScript;
  }

  lemma AdvancePends(keyHash: Key -> int, run: seq<Step>, s: State, p: nat, q: nat)
    requires RunInv(keyHash, run, s) && Enabled(s, Advance(p)) && q in Perform(s, p).txns
    ensures q in s.txns && Begun(run, q).Some? && Pending(Perform(s, p), Perform(s, p).txns[q], Begun(run, q).value)
  {
    hide IngestScript, SweepScript, Inv, Tables, StoreOf, Pending, Follows, Perform;
    PerformMoves(s, p);
    PerformFramesOthers(s, p);
    assert TxnRun(keyHash, run, s, q);
    FollowsBegun(keyHash, run, q, s.txns[q]);
    var s', begun := Perform(s, p), Begun(run, q).value;
    if q == p {
      NextOpOf(keyHash, run, p, s.txns[p]);
      PerformPends(keyHash, s, p, begun);
      QuietStep(keyHash, s, Advance(p));
      PendingFramed(s, s', s'.txns[p], begun, {});
    } else {
      KeysApart(keyHash, s, p, q);
      PerformAddsKeys(s, p);
      PendingFramed(s, s', s.txns[q], begun, if s.txns[p].rest[0] == Commit then s.txns[p].keys else {});
    }
  }

  lemma PerformAddsKeys(s: State, p: nat)
    requires p in s.txns && s.txns[p].rest != []
    ensures s.inlines <= Perform(s, p).inlines
    ensures Perform(s, p).eventKeys == s.eventKeys + if s.txns[p].rest[0] == Commit then s.txns[p].keys else {}
  {}

  lemma StepPends(keyHash: Key -> int, run: seq<Step>, s: State, l: Step, q: nat)
    requires RunInv(keyHash, run, s) && Enabled(s, l) && q in Apply(keyHash, s, l).txns
    ensures Begun(run + [l], q).Some?
    ensures Pending(Apply(keyHash, s, l), Apply(keyHash, s, l).txns[q], Begun(run + [l], q).value)
  {
    hide IngestScript, SweepScript, Inv, Tables, StoreOf, Follows, Perform;
    OneMore(run, l, q);
    if l.Advance? {
      AdvancePends(keyHash, run, s, l.txn, q);
    } else if !Begins(l, q) {
      assert q in s.txns && TxnRun(keyHash, run, s, q);
      FollowsBegun(keyHash, run, q, s.txns[q]);
    }
  }

  lemma StepTables(keyHash: Key -> int, run: seq<Step>, s: State, l: Step)
    requires RunInv(keyHash, run, s) && Enabled(s, l)
    ensures Tables(Finished(keyHash, run + [l]), Apply(keyHash, s, l))
  {
    hide IngestScript, SweepScript, Inv, StoreOf, Pending, Follows, Finishes, Finished, ObjectsOf, InlinesOf, KeysOf;
    hide RefsOf, RefsFor, Perform;
    FinishedNext(keyHash, run, l);
    assert Finished(keyHash, run) + [] == Finished(keyHash, run);
    if l.Advance? {
      assert TxnRun(keyHash, run, s, l.txn);
      FollowsBegun(keyHash, run, l.txn, s.txns[l.txn]);
      FinishesAtCommit(keyHash, run, s, l.txn);
      if s.txns[l.txn].rest[0] == Commit {
        CommitWrites(keyHash, run, s, l.txn);
        if Begun(run, l.txn).value.BeginIngest? {
          TablesNext(Finished(keyHash, run), Begun(run, l.txn).value.batch);
        }
      } else {
        QuietStep(keyHash, s, l);
      }
    } else {
      assert !Finishes(keyHash, run, l) by { OnlyAdvanceFinishes(keyHash, run, l); }
      QuietStep(keyHash, s, l);
    }
  }

  lemma OnlyAdvanceFinishes(keyHash: Key -> int, run: seq<Step>, l: Step)
    ensures Finishes(keyHash, run, l) ==> l.Advance?
  {}

  lemma StepKeepsRun(keyHash: Key -> int, run: seq<Step>, s: State, l: Step)
    requires RunInv(keyHash, run, s) && Enabled(s, l)
    ensures RunInv(keyHash, run + [l], Apply(keyHash, s, l))
  {
    hide Inv, Tables, StoreOf, Pending, Follows, Enabled, Apply, Finished;
    var s' := Apply(keyHash, s, l);
    StepKeepsInv(keyHash, s, l);
    StepTables(keyHash, run, s, l);
    StoreTracks(keyHash, run, s, l);
    forall q | q in s'.txns ensures TxnRun(keyHash, run + [l], s', q) {
      StepPends(keyHash, run, s, l, q);
      if q in s.txns {
        assert TxnRun(keyHash, run, s, q);
        InvShape(keyHash, s, q);
      }
      StepFollows(keyHash, run, s, l, q);
    }
  }

  lemma InvShape(keyHash: Key -> int, s: State, p: nat)
    requires Inv(keyHash, s) && p in s.txns
    ensures TxnInv(keyHash, s, s.txns[p])
  {
    hide TxnInv;
  }

  lemma {:induction false} ReachableRun(keyHash: Key -> int, run: seq<Step>, s: State)
    requires Reaches(keyHash, run, s)
    ensures RunInv(keyHash, run, s)
    decreases |run|
  {
    hide Inv, Tables, TxnRun, Enabled, Apply;
    if run == [] {
      assert Inv(keyHash, Init) && Tables([], Init) by { NothingWritten(keyHash); }
    } else {
      var n := |run| - 1;
      var before :| Reaches(keyHash, run[..n], before) && Enabled(before, run[n])
        && s == Apply(keyHash, before, run[n]);
      ReachableRun(keyHash, run[..n], before);
      StepKeepsRun(keyHash, run[..n], before, run[n]);
      assert run[..n] + [run[n]] == run;
    }
  }

  lemma NothingWritten(keyHash: Key -> int)
    ensures Inv(keyHash, Init) && Tables([], Init)
  {}

  // ---- what a run comes to ---------------------------------------------------------------------

  /** DURABILITY. In every state any run reaches, the committed tables hold exactly what the ingestions that ran
      to their end wrote: their objects, inline contents and event keys, and for each key the refs of the first
      of them that had it. Nothing of an ingestion that was rolled back, or ended at a missing object, is there;
      nothing of a finished one is ever gone. The bucket is what was uploaded and not swept since. */
  lemma TablesAreTheFinishedBatches(keyHash: Key -> int, run: seq<Step>, s: State)
    requires Reaches(keyHash, run, s)
    ensures var log := Finished(keyHash, run);
            && s.catalog == ObjectsOf(log) && s.inlines == InlinesOf(log)
            && s.eventKeys == KeysOf(log) && s.refs == RefsOf(log)
    ensures s.store == StoreOf(run)
  {
    hide Inv, TxnRun, StoreOf, Finished, ObjectsOf, InlinesOf, KeysOf, RefsOf;
    ReachableRun(keyHash, run, s);
  }

  /** So a finished batch stays: its objects are in the store, its keys are taken. */
  lemma FinishedStays(keyHash: Key -> int, run: seq<Step>, s: State, i: nat)
    requires Reaches(keyHash, run, s) && i < |Finished(keyHash, run)|
    ensures var b := Finished(keyHash, run)[i];
            && b.objects <= s.catalog <= s.store && b.inlines <= s.inlines && b.events.Keys <= s.eventKeys
  {
    hide Finished;
    TablesAreTheFinishedBatches(keyHash, run, s);
    NoDanglingReference(keyHash, run, s);
    InLog(Finished(keyHash, run), i);
  }

  lemma {:induction false} InLog(log: seq<Batch>, i: nat)
    requires i < |log|
    ensures log[i].objects <= ObjectsOf(log) && log[i].inlines <= InlinesOf(log) && log[i].events.Keys <= KeysOf(log)
  {
    var n := |log| - 1;
    if i < n { InLog(log[..n], i); }
  }

  // ---- transactions nobody stands in the way of ------------------------------------------------

  /** No other transaction holds anything these operations acquire. */
  ghost predicate Free(s: State, p: nat, ops: seq<Op>) {
    forall q, o :: q in s.txns && q != p && o in ops && Acquires(o).Some? ==> Acquires(o).value !in s.txns[q].held
  }

  /** With its locks free, the next operation need not wait: no unique index stands in its way either. */
  lemma GoesOn(keyHash: Key -> int, s: State, p: nat)
    requires Inv(keyHash, s) && p in s.txns && s.txns[p].rest != [] && Free(s, p, s.txns[p].rest)
    requires s.txns[p].outstanding.None?
    ensures Enabled(s, Advance(p))
  {
    hide Inv;
    assert s.txns[p].rest[0] in s.txns[p].rest;
    if !CanAdvance(s, p) {
      var q := StuckWaits(s, p);
      OnlyLocksBlock(keyHash, s, p, q);
      assert false;
    }
  }

  lemma ReachesNext(keyHash: Key -> int, run: seq<Step>, s: State, l: Step)
    requires Reaches(keyHash, run, s) && Enabled(s, l)
    ensures Reaches(keyHash, run + [l], Apply(keyHash, s, l))
  {
    hide Enabled, Apply;
    assert (run + [l])[..|run|] == run;
  }

  ghost predicate AllThere(s: State, ops: seq<Op>) {
    forall d :: VerifyObject(d) in ops ==> d in s.store
  }

  /** One operation of an ingestion: it ends at a missing object or at its commit, and goes on otherwise. */
  lemma IngestAdvances(keyHash: Key -> int, run: seq<Step>, s: State, p: nat)
    requires RunInv(keyHash, run, s) && p in s.txns && Begun(run, p).Some? && Begun(run, p).value.BeginIngest?
    ensures s.txns[p].outstanding.None? && s.txns[p].rest != []
    ensures var s', t, l := Perform(s, p), s.txns[p], Advance(p);
            && s'.txns - {p} == s.txns - {p} && s'.store == s.store
            && (p in s'.txns <==> t.rest[0] != Commit && !(t.rest[0].VerifyObject? && t.rest[0].digest !in s.store))
            && (p in s'.txns ==> s'.txns[p].rest == t.rest[1..])
            && Finished(keyHash, run + [l])
            == Finished(keyHash, run) + (if t.rest[0] == Commit then [Begun(run, p).value.batch] else [])
            && (t.rest[0] == Commit ==> |t.rest| == 1)
  {
    hide IngestScript, SweepScript, Tables, StoreOf, Pending, Finished, Finishes, Shape, Locks, Facts, Writes;
    hide Inv, Follows, Perform;
    var t := s.txns[p];
    InvShape(keyHash, s, p);
    assert TxnRun(keyHash, run, s, p);
    assert t.outstanding.None? by { NoDelete(s, t, Begun(run, p).value); }
    NextOpOf(keyHash, run, p, t);
    IngestOps(keyHash, Begun(run, p).value.batch);
    PerformIngest(s, p);
    FinishesAtCommit(keyHash, run, s, p);
    FinishedNext(keyHash, run, Advance(p));
    CommitIsLast(keyHash, t);
  }

  lemma PerformIngest(s: State, p: nat)
    requires p in s.txns && s.txns[p].rest != []
    requires var op := s.txns[p].rest[0]; !op.IssueDelete? && !op.CheckUnreferenced? && !op.AwaitDelete?
    ensures var s', t := Perform(s, p), s.txns[p];
            && s'.txns - {p} == s.txns - {p} && s'.store == s.store
            && (p in s'.txns <==> t.rest[0] != Commit && !(t.rest[0].VerifyObject? && t.rest[0].digest !in s.store))
            && (p in s'.txns ==> s'.txns[p].rest == t.rest[1..])
  {}

  lemma NoDelete(s: State, t: Txn, begun: Step)
    requires Pending(s, t, begun) && begun.BeginIngest?
    ensures t.outstanding.None?
  {}

  lemma {:induction false} IngestAlone(keyHash: Key -> int, run: seq<Step>, s: State, p: nat, b: Batch)
    returns (more: seq<Step>, end: State)
    requires Reaches(keyHash, run, s) && p in s.txns && Begun(run, p) == Some(BeginIngest(p, b))
    requires Free(s, p, s.txns[p].rest)
    ensures Reaches(keyHash, run + more, end) && forall l :: l in more ==> l == Advance(p)
    ensures end.txns == s.txns - {p} && end.store == s.store
    ensures Finished(keyHash, run + more)
         == Finished(keyHash, run) + (if AllThere(s, s.txns[p].rest) then [b] else [])
    decreases |s.txns[p].rest|
  {
    hide Reaches, Enabled, Inv, Tables, Finished, StoreOf, TxnRun, Perform;
    ReachableRun(keyHash, run, s);
    IngestAdvances(keyHash, run, s, p);
    GoesOn(keyHash, s, p);
    var t, l := s.txns[p], Advance(p);
    var s' := Apply(keyHash, s, l);
    assert s' == Perform(s, p);
    ReachesNext(keyHash, run, s, l);
    if p in s'.txns {
      OneMore(run, l, p);
      assert Free(s', p, t.rest[1..]) by { FreeNext(s, s', p, t.rest); }
      AllThereNext(s, t.rest);
      var rest;
      rest, end := IngestAlone(keyHash, run + [l], s', p, b);
      more := [l] + rest;
      assert run + more == run + [l] + rest;
      assert Finished(keyHash, run) + [] == Finished(keyHash, run);
    } else {
      more, end := [l], s';
      assert s'.txns == s'.txns - {p};
      AllThereNext(s, t.rest);
    }
  }

  lemma FreeNext(s: State, s': State, p: nat, ops: seq<Op>)
    requires ops != [] && Free(s, p, ops) && s'.txns - {p} == s.txns - {p}
    ensures Free(s', p, ops[1..])
  {
    forall q | q in s'.txns && q != p ensures q in s.txns && s'.txns[q] == s.txns[q] {
      assert q in s'.txns - {p} && (s'.txns - {p})[q] == (s.txns - {p})[q];
    }
  }

  lemma AllThereNext(s: State, ops: seq<Op>)
    requires ops != []
    ensures AllThere(s, ops) <==> (ops[0].VerifyObject? ==> ops[0].digest in s.store) && AllThere(s, ops[1..])
  {
    assert ops == [ops[0]] + ops[1..];
  }

  /** UNOBSTRUCTED INGESTION. A batch whose locks no open transaction holds needs only its own operations to end;
      it is then finished if its objects are in the store, and has left no trace if one is missing. */
  lemma AnIngestionFinishesWhenFree(keyHash: Key -> int, run: seq<Step>, s: State, p: nat, b: Batch)
    returns (more: seq<Step>, end: State)
    requires Reaches(keyHash, run, s) && p !in s.txns && b.Resolved() && Free(s, p, IngestScript(keyHash, b))
    ensures Reaches(keyHash, run + [BeginIngest(p, b)] + more, end) && forall l :: l in more ==> l == Advance(p)
    ensures end.txns == s.txns && end.store == s.store
    ensures Finished(keyHash, run + [BeginIngest(p, b)] + more)
         == Finished(keyHash, run) + (if b.objects <= s.store then [b] else [])
  {
    hide Reaches, Inv, Finished, IngestScript, SweepScript, Perform;
    var l := BeginIngest(p, b);
    var begun := Apply(keyHash, s, l);
    ReachesNext(keyHash, run, s, l);
    OneMore(run, l, p);
    FinishedNext(keyHash, run, l);
    OnlyAdvanceFinishes(keyHash, run, l);
    assert Finished(keyHash, run) + [] == Finished(keyHash, run);
    more, end := IngestAlone(keyHash, run + [l], begun, p, b);
    assert begun.txns - {p} == s.txns;
    IngestOps(keyHash, b);
  }

  // ---- sweeps ----------------------------------------------------------------------------------

  /** The state with one more open transaction, and its own bucket. */
  function With(s: State, p: nat, t: Txn, store: set<Digest>): State {
    s.(txns := s.txns[p := t], store := store)
  }

  /** The sweep of a digest after its first `n` operations. */
  function Sweeping(d: Digest, n: nat, outstanding: Option<Digest>): Txn
    requires n <= 5
  {
    var script := SweepScript(d, false);
    assert |script| == 5;
    Txn(Ops(script[..n]), script[n..], if n == 0 then {} else {ContentLock(d)}, {}, {}, {}, outstanding)
  }

  lemma SweepAdvances(s: State, p: nat, d: Digest, n: nat, store: set<Digest>)
    requires p !in s.txns && n < 4 && (forall q :: q in s.txns ==> ContentLock(d) !in s.txns[q].held)
    requires n == 1 ==> d !in s.catalog
    ensures var s' := With(s, p, Sweeping(d, n, None), store);
            && Enabled(s', Advance(p))
            && Perform(s', p) == With(s, p, Sweeping(d, n + 1, if n == 2 then Some(d) else None), store)
  {
    hide ContentLock, SweepScript;
    var script, s' := SweepScript(d, false), With(s, p, Sweeping(d, n, None), store);
    var t := s'.txns[p];
    SweepOpAt(d, n);
    OneMoreOp(script, n);
    assert t.rest[0] == script[n] && t.rest[1..] == script[n + 1..];
    var t' := Sweeping(d, n + 1, if n == 2 then Some(d) else None);
    assert s'.txns[p := t'] == s.txns[p := t'];
    var none: set<Resource> := {};
    assert none + {ContentLock(d)} == {ContentLock(d)};
  }

  lemma SweepOpAt(d: Digest, n: nat)
    requires n < 5
    ensures |SweepScript(d, false)| == 5
    ensures SweepScript(d, false)[n]
         == match n
            case 0 => Lock(ContentLock(d))
            case 1 => CheckUnreferenced(d, false)
            case 2 => IssueDelete(d)
            case 3 => AwaitDelete(d)
            case _ => Commit
  {
    hide ContentLock;
  }

  /** The sweep of an unreferenced digest, from its first operation to its commit. */
  lemma SweepsAlone(keyHash: Key -> int, run: seq<Step>, s: State, p: nat, d: Digest)
    returns (more: seq<Step>, end: State)
    requires Reaches(keyHash, run, s) && p in s.txns && s.txns[p] == Sweeping(d, 0, None) && d !in s.catalog
    requires forall q :: q in s.txns && q != p ==> ContentLock(d) !in s.txns[q].held
    ensures Reaches(keyHash, run + more, end) && forall l :: l in more ==> !l.Upload? && !Begins(l, p) && l.txn == p
    ensures end == s.(txns := s.txns - {p}, store := s.store - {d})
  {
    hide Reaches, SweepScript, Sweeping, ContentLock;
    var rest := s.(txns := s.txns - {p});
    assert s == With(rest, p, Sweeping(d, 0, None), s.store);
    SweepAdvances(rest, p, d, 0, s.store);
    ReachesNext(keyHash, run, s, Advance(p));
    var s1 := With(rest, p, Sweeping(d, 1, None), s.store);
    SweepAdvances(rest, p, d, 1, s.store);
    ReachesNext(keyHash, run + [Advance(p)], s1, Advance(p));
    var s2 := With(rest, p, Sweeping(d, 2, None), s.store);
    SweepAdvances(rest, p, d, 2, s.store);
    ReachesNext(keyHash, run + [Advance(p)] + [Advance(p)], s2, Advance(p));
    var s3 := With(rest, p, Sweeping(d, 3, Some(d)), s.store);
    var late;
    late, end := SweepEnds(keyHash, run + [Advance(p)] + [Advance(p)] + [Advance(p)], s3, rest, p, d);
    more := [Advance(p), Advance(p), Advance(p)] + late;
    assert run + more == run + [Advance(p)] + [Advance(p)] + [Advance(p)] + late;
  }

  /** From the issued delete on: it takes effect, it returns, the wait is over, and the transaction commits. */
  lemma SweepEnds(keyHash: Key -> int, run: seq<Step>, s: State, rest: State, p: nat, d: Digest)
    returns (more: seq<Step>, end: State)
    requires p !in rest.txns && Reaches(keyHash, run, s)
    requires s == With(rest, p, Sweeping(d, 3, Some(d)), rest.store)
    requires forall q :: q in rest.txns ==> ContentLock(d) !in rest.txns[q].held
    ensures Reaches(keyHash, run + more, end) && forall l :: l in more ==> !l.Upload? && !Begins(l, p) && l.txn == p
    ensures end == rest.(store := rest.store - {d})
  {
    hide Reaches, SweepScript, ContentLock;
    var store := rest.store - {d};
    ReachesNext(keyHash, run, s, DeleteTakesEffect(p));
    var s1 := With(rest, p, Sweeping(d, 3, Some(d)), store);
    var run1 := run + [DeleteTakesEffect(p)];
    ReachesNext(keyHash, run1, s1, DeleteReturns(p));
    var s2 := With(rest, p, Sweeping(d, 3, None), store);
    assert s1.txns[p := s2.txns[p]] == s2.txns;
    var run2 := run1 + [DeleteReturns(p)];
    SweepAdvances(rest, p, d, 3, store);
    ReachesNext(keyHash, run2, s2, Advance(p));
    var s3 := With(rest, p, Sweeping(d, 4, None), store);
    var run3 := run2 + [Advance(p)];
    SweepCommits(rest, p, d, store);
    ReachesNext(keyHash, run3, s3, Advance(p));
    end := rest.(store := store);
    more := [DeleteTakesEffect(p), DeleteReturns(p), Advance(p), Advance(p)];
    assert run + more == run3 + [Advance(p)];
  }

  lemma SweepCommits(s: State, p: nat, d: Digest, store: set<Digest>)
    requires p !in s.txns
    ensures var s' := With(s, p, Sweeping(d, 4, None), store);
            Enabled(s', Advance(p)) && Perform(s', p) == s.(store := store)
  {
    hide ContentLock, SweepScript;
    SweepOpAt(d, 4);
    var s' := With(s, p, Sweeping(d, 4, None), store);
    var t := s'.txns[p];
    assert t.rest[0] == Commit;
    assert s'.txns - {p} == s.txns;
    NoInlines(t.held, d);
    assert s.catalog + {} == s.catalog && s.inlines + {} == s.inlines && s.eventKeys + {} == s.eventKeys
      && s.refs + {} == s.refs;
  }

  lemma NoInlines(held: set<Resource>, d: Digest)
    requires held <= {ContentLock(d)}
    ensures (set r | r in held && r.InlineRow? :: r.inlineId) == {}
  {}

  /** UNOBSTRUCTED SWEEP. A candidate whose content lock no open transaction holds needs only its own steps to
      end; its object is then gone exactly if it was not a dry run and no committed row names the digest, and
      nothing else has changed. */
  lemma ASweepDecidesWhenFree(keyHash: Key -> int, run: seq<Step>, s: State, p: nat, d: Digest, dryRun: bool)
    returns (more: seq<Step>, end: State)
    requires Reaches(keyHash, run, s) && p !in s.txns
    requires forall q :: q in s.txns ==> ContentLock(d) !in s.txns[q].held
    ensures Reaches(keyHash, run + [BeginSweep(p, d, dryRun)] + more, end)
    ensures forall l :: l in more ==> !l.Upload? && !Begins(l, p) && l.txn == p
    ensures end == if dryRun || d in s.catalog then s else s.(store := s.store - {d})
  {
    hide Reaches, ContentLock;
    var l := BeginSweep(p, d, dryRun);
    ReachesNext(keyHash, run, s, l);
    var begun := Apply(keyHash, s, l);
    assert begun.txns - {p} == s.txns;
    if dryRun || d in s.catalog {
      Spared(s, p, d, dryRun);
      var s1 := Perform(begun, p);
      ReachesNext(keyHash, run + [l], begun, Advance(p));
      ReachesNext(keyHash, run + [l] + [Advance(p)], s1, Advance(p));
      more, end := [Advance(p), Advance(p)], s;
      assert run + [l] + more == run + [l] + [Advance(p)] + [Advance(p)];
    } else {
      SweepStarts(d);
      more, end := SweepsAlone(keyHash, run + [l], begun, p, d);
    }
  }

  lemma SweepStarts(d: Digest)
    ensures Start(SweepScript(d, false)) == Sweeping(d, 0, None)
  {
    hide SweepScript;
    var script := SweepScript(d, false);
    SweepOpAt(d, 0);
    assert script[..0] == [] && script[0..] == script;
  }

  /** The lock, then the check that ends it. */
  lemma Spared(s: State, p: nat, d: Digest, dryRun: bool)
    requires p !in s.txns && (dryRun || d in s.catalog)
    requires forall q :: q in s.txns ==> ContentLock(d) !in s.txns[q].held
    ensures var begun := s.(txns := s.txns[p := Start(SweepScript(d, dryRun))]);
            && Enabled(begun, Advance(p))
            && var locked := Perform(begun, p);
               Enabled(locked, Advance(p)) && Perform(locked, p) == s
  {
    hide ContentLock;
    var script := SweepScript(d, dryRun);
    var begun := s.(txns := s.txns[p := Start(script)]);
    assert script[0] == Lock(ContentLock(d)) && script[1..][0] == CheckUnreferenced(d, dryRun);
    var locked := Perform(begun, p);
    assert locked.txns - {p} == s.txns;
  }
}

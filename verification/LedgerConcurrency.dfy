/** Concurrent appends: any number of transactions lock their streams and idempotency keys, insert or recover
    event by event against whatever is committed at that moment, and commit or roll back. Whatever the
    interleaving, the ledger is the one that appending the committed batches one after another, in commit
    order, gives. */
module LedgerConcurrency {
  import opened Orders
  import opened LedgerTables
  import opened LedgerAppend
  import opened LedgerHistory
  import opened LedgerIntegrity
  import opened LedgerRepository
  import opened LedgerSession
  import opened LedgerVerify

  // ---- the step system -------------------------------------------------------------------------

  /** The database, the digests, the lock key of an idempotency key, and the one key each event ID is used
      under. */
  datatype World = World(db: Database, w: Sealing, lockKey: Key -> int, owner: string -> Key)

  /** One open transaction: the stream rows it locked with the states it moved them to, the advisory keys it
      holds, the rows it wrote but did not commit, and its results so far. */
  datatype Txn = Txn(batch: seq<ResolvedEvent>, streams: map<string, StreamState>, keys: set<int>, written: Ledger,
                     touched: set<string>, results: seq<Outcome>)

  datatype Entry =
    | Appended(batch: seq<ResolvedEvent>, results: seq<Outcome>)
    | Closed(streamId: string)   // a stream was quarantined

  /** The committed tables, the open transactions, and what committed so far in commit order. */
  datatype State = State(ledger: Ledger, txns: map<nat, Txn>, log: seq<Entry>)

  datatype Step =
    | Begin(txn: nat, batch: seq<ResolvedEvent>)
    | LockStream(txn: nat, streamId: string)
    | LockKey(txn: nat, lockKey: int)
    | Insert(txn: nat)                  // the next item of the batch
    | Commit(txn: nat)
    | Rollback(txn: nat)
    | Quarantine(streamId: string)

  const Init := State(EmptyLedger, map[], [])

  /** Rows on top of rows. */
  function Merge(a: Ledger, d: Ledger): Ledger {
    Ledger(a.heads + d.heads, a.events + d.events, a.index + d.index, a.refs + d.refs)
  }

  /** READ COMMITTED: what a statement of the transaction sees. */
  function View(l: Ledger, t: Txn): Ledger {
    Merge(l, t.written)
  }

  function LockKeysOf(c: World, batch: seq<ResolvedEvent>): set<int> {
    set i | 0 <= i < |batch| :: c.lockKey(DraftKey(batch[i].draft))
  }

  predicate Locked(c: World, t: Txn) {
    t.streams.Keys == StreamIds(t.batch) && t.keys == LockKeysOf(c, t.batch)
  }

  /** One event ID, one key. */
  ghost predicate OwnedBatch(c: World, batch: seq<ResolvedEvent>) {
    forall i :: 0 <= i < |batch| ==> c.owner(batch[i].draft.eventId) == DraftKey(batch[i].draft)
  }

  /** Row and advisory locks are exclusive. The last conjunct of an insert holds in every state a run reaches. */
  ghost predicate Enabled(c: World, s: State, l: Step) {
    match l
    case Begin(p, batch) => p !in s.txns && AllReportsKnown(batch) && NoInnerConflict(batch) && OwnedBatch(c, batch)
    case LockStream(p, x) =>
      && p in s.txns && x in StreamIds(s.txns[p].batch) && x !in s.txns[p].streams && s.txns[p].results == []
      && forall q :: q in s.txns && q != p ==> x !in s.txns[q].streams
    case LockKey(p, k) =>
      && p in s.txns && k in LockKeysOf(c, s.txns[p].batch)
      && forall q :: q in s.txns && q != p ==> k !in s.txns[q].keys
    case Insert(p) =>
      && p in s.txns && Locked(c, s.txns[p]) && |s.txns[p].results| < |s.txns[p].batch|
      && IndexClosed(View(s.ledger, s.txns[p]))
    case Commit(p) => p in s.txns && Locked(c, s.txns[p]) && |s.txns[p].results| == |s.txns[p].batch|
                      && s.txns[p].touched <= s.txns[p].streams.Keys
    case Rollback(p) => p in s.txns
    case Quarantine(x) => x in s.ledger.heads && forall q :: q in s.txns ==> x !in s.txns[q].streams
  }

  function End(s: State, p: nat): State {
    s.(txns := s.txns - {p})
  }

  /** Create if missing, lock, and read what is committed; a quarantined stream ends the transaction. */
  function TakeStream(l: Ledger, t: Txn, x: string): Txn {
    if x in l.heads then t.(streams := t.streams[x := StateOf(l.heads[x])])
    else
      var written := t.written.(heads := t.written.heads[x := EmptyHead]);
      t.(streams := t.streams[x := StateOf(EmptyHead)], written := written)
  }

  /** The next item: a repeat copies the result it repeats, anything else is inserted or recovered. None when
      it is refused, which ends the transaction. */
  ghost function InsertNext(c: World, l: Ledger, t: Txn): Option<Txn>
    requires |t.results| < |t.batch| && IndexClosed(View(l, t)) && t.streams.Keys == StreamIds(t.batch)
  {
    var i := |t.results|;
    var f := FirstWithKey(t.batch, i);
    var x := t.batch[i].draft.streamId;
    if f < i then Some(t.(results := t.results + [Outcome(t.results[f].stored, false)]))
    else
      assert x in StreamIds(t.batch);
      match InsertStep(c.db, c.w, View(l, t), t.streams[x], t.batch[i])
      case Err(_) => None
      case Ok((_, state, out)) =>
        Some(t.(streams := t.streams[x := state], results := t.results + [out],
                written := if out.created then InsertRows(c.w, t.written, out.stored) else t.written,
                touched := t.touched + (if out.created then {x} else {})))
  }

  ghost function Apply(c: World, s: State, l: Step): State
    requires Enabled(c, s, l)
  {
    match l
    case Begin(p, batch) => s.(txns := s.txns[p := Txn(batch, map[], {}, EmptyLedger, {}, [])])
    case LockStream(p, x) =>
      if Quarantined(s.ledger, x) then End(s, p) else s.(txns := s.txns[p := TakeStream(s.ledger, s.txns[p], x)])
    case LockKey(p, k) => s.(txns := s.txns[p := s.txns[p].(keys := s.txns[p].keys + {k})])
    case Insert(p) =>
      (match InsertNext(c, s.ledger, s.txns[p])
       case None => End(s, p)
       case Some(t) => s.(txns := s.txns[p := t]))
    case Commit(p) =>
      var t := s.txns[p];
      var view := View(s.ledger, t);
      var committed := view.(heads := WrittenHeads(view.heads, t.streams, t.touched));
      State(committed, s.txns - {p}, s.log + [Appended(t.batch, t.results)])
    case Rollback(p) => End(s, p)
    case Quarantine(x) =>
      var heads := s.ledger.heads[x := s.ledger.heads[x].(quarantined := true)];
      State(s.ledger.(heads := heads), s.txns, s.log + [Closed(x)])
  }

  ghost predicate Reaches(c: World, run: seq<Step>, s: State)
    decreases |run|
  {
    if run == [] then s == Init
    else
      var n := |run| - 1;
      exists before :: Reaches(c, run[..n], before) && Enabled(c, before, run[n]) && s == Apply(c, before, run[n])
  }

  // ---- the serial history ----------------------------------------------------------------------

  function StepOf(e: Entry): LedgerStep {
    match e
    case Appended(batch, _) => Submit(Effective(batch))
    case Closed(x) => LedgerStep.Quarantine(x)
  }

  function HistoryOf(log: seq<Entry>): seq<LedgerStep> {
    seq(|log|, i requires 0 <= i < |log| => StepOf(log[i]))
  }

  /** Every committed batch, submitted where it stands in the history, would have committed with exactly the
      results it reported. */
  ghost predicate Explained(c: World, log: seq<Entry>) {
    forall k :: 0 <= k < |log| && log[k].Appended? ==> ExplainedAt(c, log, k)
  }

  ghost predicate ExplainedAt(c: World, log: seq<Entry>, k: nat)
    requires k < |log| && log[k].Appended?
  {
    var fold := Fold(c.db, c.w, After(c.db, c.w, HistoryOf(log[..k])), Effective(log[k].batch));
    fold.Ok? && fold.value.1 == log[k].results
  }

  // ---- rows committed by others ----------------------------------------------------------------

  /** Rows that are not there yet, with refs of their own events only. */
  ghost predicate Apart(a: Ledger, d: Ledger) {
    && a.events.Keys !! d.events.Keys && a.index.Keys !! d.index.Keys
    && (forall r :: r in d.refs ==> r.eventId in d.events)
    && (forall r :: r in a.refs ==> r.eventId !in d.events)
  }

  lemma MergeGrows(a: Ledger, d: Ledger)
    requires Apart(a, d)
    ensures Grows(a, Merge(a, d))
  {}

  /** Nothing of the event's stream, key or ID among the added rows. */
  ghost predicate Foreign(d: Ledger, ev: ResolvedEvent) {
    ev.draft.streamId !in d.heads && DraftKey(ev.draft) !in d.index && ev.draft.eventId !in d.events
  }

  /** What creating an event needed. */
  lemma CreatedStep(db: Database, w: Sealing, l: Ledger, state: StreamState, ev: ResolvedEvent)
    requires IndexClosed(l) && InsertStep(db, w, l, state, ev).Ok? && InsertStep(db, w, l, state, ev).value.2.created
    ensures var (l', state', out) := InsertStep(db, w, l, state, ev).value;
            && Seal(w, Canonicalize(ev.draft), ev.refs, state.sequence + 1, state.headHash) == Some(out.stored)
            && ev.draft.eventId !in l.events && DraftKey(ev.draft) !in l.index
            && l' == InsertRows(w, l, out.stored) && out.stored.envelope.eventId == ev.draft.eventId
            && RowKey(RowOf(w, out.stored)) == DraftKey(ev.draft)
            && state' == StreamState(state.sequence + 1, Some(ev.draft.eventId), Some(out.stored.eventHash))
  {
    hide RefsMatch, InsertRows;
  }

  lemma CreatesStep(db: Database, w: Sealing, l: Ledger, state: StreamState, ev: ResolvedEvent, sealed: StoredEvent)
    requires IndexClosed(l) && ev.draft.eventId !in l.events && DraftKey(ev.draft) !in l.index
    requires Seal(w, Canonicalize(ev.draft), ev.refs, state.sequence + 1, state.headHash) == Some(sealed)
    requires !SequenceTaken(l, ev.draft.streamId, state.sequence + 1)
    ensures InsertStep(db, w, l, state, ev)
         == Ok((InsertRows(w, l, sealed),
                StreamState(state.sequence + 1, Some(ev.draft.eventId), Some(sealed.eventHash)), Outcome(sealed, true)))
  {
    hide RefsMatch, InsertRows, SequenceTaken;
  }

  lemma InsertMerges(w: Sealing, a: Ledger, d: Ledger, sealed: StoredEvent)
    requires Apart(a, d) && sealed.envelope.eventId !in d.events && RowKey(RowOf(w, sealed)) !in d.index
    ensures InsertRows(w, Merge(a, d), sealed) == Merge(InsertRows(w, a, sealed), d)
    ensures Apart(InsertRows(w, a, sealed), d)
  {
    hide RowOf;
    var row := RowOf(w, sealed);
    assert row.eventId == sealed.envelope.eventId by { RowNames(w, sealed); }
    assert (a.events + d.events)[row.eventId := row] == a.events[row.eventId := row] + d.events;
    assert (a.index + d.index)[RowKey(row) := row.eventId] == a.index[RowKey(row) := row.eventId] + d.index;
    assert (a.refs + d.refs) + RefRowsOf(sealed) == (a.refs + RefRowsOf(sealed)) + d.refs;
  }

  lemma RowNames(w: Sealing, sealed: StoredEvent)
    ensures RowOf(w, sealed).eventId == sealed.envelope.eventId
  {}

  /** A stored draft is found in its stream's rows. */
  lemma HeldStreamExists(w: Sealing, l: Ledger, chains: Chains, d: Draft, stored: StoredEvent)
    requires Represents(w, l, chains) && Holds(w, l, d, stored)
    ensures d.streamId in l.heads
  {
    hide StoredRep, WellSealed;
    assert Located(l, chains, stored.envelope.eventId);
  }

  /** An append that recovers changes nothing, and recovers the same wherever the event is stored. */
  lemma RecoveryCommutes(db: Database, w: Sealing, a: Ledger, ca: Chains, d: Ledger, cb: Chains, ev: ResolvedEvent)
    requires Lawful(w) && ReadsAll(db) && Represents(w, a, ca) && Represents(w, Merge(a, d), cb)
    requires IndexClosed(a) && IndexClosed(Merge(a, d)) && Apart(a, d) && Foreign(d, ev)
             && IdConsistent(Merge(a, d), ev.draft)
    requires AppendOne(db, w, a, ev).Ok? && !AppendOne(db, w, a, ev).value.1.created
    ensures AppendOne(db, w, a, ev).value.0 == a
    ensures AppendOne(db, w, Merge(a, d), ev) == Ok((Merge(a, d), AppendOne(db, w, a, ev).value.1))
  {
    hide Represents, InsertStep, ReportsKnown, RefsMatch, StoredRows, EnvelopeIdentity, DraftIdentity;
    var (a', out) := AppendOne(db, w, a, ev).value;
    AppendOneKeeps(db, w, a, ca, ev);
    AcceptedWasWellFormed(db, w, a, ev);
    RecoveredSame(db, w, a, ca, ev);
    HeldStreamExists(w, a, ca, ev.draft, out.stored);
    assert IdConsistent(a, ev.draft);
    ReplayOne(db, w, a, ca, ev, out.stored);
    MergeGrows(a, d);
    HoldsPersists(w, a, Merge(a, d), ev.draft, out.stored);
    ReplayOne(db, w, Merge(a, d), cb, ev, out.stored);
  }

  /** A recovered event was stored before. */
  lemma RecoveredSame(db: Database, w: Sealing, l: Ledger, chains: Chains, ev: ResolvedEvent)
    requires Lawful(w) && ReadsAll(db) && Represents(w, l, chains) && IndexClosed(l)
    requires AppendOne(db, w, l, ev).Ok? && !AppendOne(db, w, l, ev).value.1.created
    ensures Holds(w, l, ev.draft, AppendOne(db, w, l, ev).value.1.stored)
    ensures ev.draft.streamId in l.heads ==> !l.heads[ev.draft.streamId].quarantined
  {
    hide StoredRep, LocatedRep, HeadMatches, IndexExact, RefsOwned, InsertStep, EnvelopeIdentity;
    hide DraftIdentity, RowOf, WellSealed;
    var x := ev.draft.streamId;
    var locked := EnsureStream(l, x);
    EnsureStreamKeeps(w, l, chains, x);
    InsertStepKeeps(db, w, locked, EnsureChain(chains, x), ev);
  }

  lemma CreationCommutes(db: Database, w: Sealing, a: Ledger, d: Ledger, cb: Chains, ev: ResolvedEvent)
    requires Represents(w, Merge(a, d), cb)
    requires IndexClosed(a) && IndexClosed(Merge(a, d)) && Apart(a, d) && Foreign(d, ev)
    requires AppendOne(db, w, a, ev).Ok? && AppendOne(db, w, a, ev).value.1.created
    ensures var (a', out) := AppendOne(db, w, a, ev).value;
            AppendOne(db, w, Merge(a, d), ev) == Ok((Merge(a', d), out)) && Apart(a', d)
  {
    hide InsertStep, ReportsKnown, InsertRows, SequenceTaken, RowOf, Seal, Represents, Merge, Apart, WithHead;
    hide IndexClosed;
    var x, b := ev.draft.streamId, Merge(a, d);
    var la, lb := EnsureStream(a, x), EnsureStream(b, x);
    EnsureMerges(a, d, x);
    var state := StateOf(la.heads[x]);
    CreatedStep(db, w, la, state, ev);
    var step := InsertStep(db, w, la, state, ev).value;
    NextIsFree(w, b, cb, x);
    NotStoredMerged(la, d, ev);
    CreatesStep(db, w, lb, state, ev, step.2.stored);
    InsertMerges(w, la, d, step.2.stored);
    HeadMerges(InsertRows(w, la, step.2.stored), d, x, step.1);
  }

  lemma EnsureMerges(a: Ledger, d: Ledger, x: string)
    requires Apart(a, d) && x !in d.heads && IndexClosed(a) && IndexClosed(Merge(a, d))
    ensures EnsureStream(Merge(a, d), x) == Merge(EnsureStream(a, x), d) && Apart(EnsureStream(a, x), d)
    ensures EnsureStream(Merge(a, d), x).heads[x] == EnsureStream(a, x).heads[x]
    ensures IndexClosed(EnsureStream(a, x)) && IndexClosed(EnsureStream(Merge(a, d), x))
  {
    hide IndexClosed, Apart;
    if x !in a.heads { assert (a.heads + d.heads)[x := EmptyHead] == a.heads[x := EmptyHead] + d.heads; }
    SameRowsStayApart(a, EnsureStream(a, x), d);
    ClosedIgnoresHeads(a, EnsureStream(a, x));
    ClosedIgnoresHeads(Merge(a, d), EnsureStream(Merge(a, d), x));
  }

  lemma SameRowsStayApart(a: Ledger, a': Ledger, d: Ledger)
    requires Apart(a, d) && a' == a.(heads := a'.heads)
    ensures Apart(a', d)
  {}

  lemma NextIsFree(w: Sealing, l: Ledger, chains: Chains, x: string)
    requires Represents(w, l, chains)
    ensures !SequenceTaken(EnsureStream(l, x), x, StateOf(EnsureStream(l, x).heads[x]).sequence + 1)
  {
    hide SequenceTaken, StoredRep, LocatedRep, IndexExact, RefsOwned, EnsureStream, EnsureChain;
    EnsureStreamKeeps(w, l, chains, x);
    var locked, chains' := EnsureStream(l, x), EnsureChain(chains, x);
    assert x in chains' by { Ensured(l, chains, x); }
    assert HeadMatches(locked.heads[x], chains'[x]);
    NextSequenceFree(w, locked, chains', x);
  }

  lemma Ensured(l: Ledger, chains: Chains, x: string)
    ensures x in EnsureStream(l, x).heads && x in EnsureChain(chains, x)
  {}

  lemma NotStoredMerged(a: Ledger, d: Ledger, ev: ResolvedEvent)
    requires Foreign(d, ev)
    ensures ev.draft.eventId !in a.events ==> ev.draft.eventId !in Merge(a, d).events
    ensures DraftKey(ev.draft) !in a.index ==> DraftKey(ev.draft) !in Merge(a, d).index
  {}

  lemma HeadMerges(a: Ledger, d: Ledger, x: string, state: StreamState)
    requires x !in d.heads
    ensures WithHead(Merge(a, d), x, state) == Merge(WithHead(a, x, state), d)
    ensures Apart(a, d) ==> Apart(WithHead(a, x, state), d)
  {
    assert WithHead(Merge(a, d), x, state).heads == Merge(WithHead(a, x, state), d).heads;
  }

  ghost predicate AllForeign(d: Ledger, batch: seq<ResolvedEvent>) {
    forall i :: 0 <= i < |batch| ==> Foreign(d, batch[i])
  }

  /** The rows of each ID are under the key that owns it. */
  ghost predicate OwnedRows(c: World, l: Ledger) {
    forall id :: id in l.events ==> RowKey(l.events[id]) == c.owner(id)
  }

  /** COMMUTES. Appends that touch none of the added rows' streams, keys or IDs succeed on top of them with the
      same results and leave them alone. */
  lemma {:induction false} FoldCommutes(c: World, a: Ledger, ca: Chains, d: Ledger, cb: Chains,
                                        batch: seq<ResolvedEvent>)
    requires Lawful(c.w) && ReadsAll(c.db) && Represents(c.w, a, ca) && Represents(c.w, Merge(a, d), cb)
    requires IndexClosed(a) && IndexClosed(Merge(a, d)) && Apart(a, d) && AllForeign(d, batch)
    requires OwnedBatch(c, batch) && OwnedRows(c, Merge(a, d)) && Fold(c.db, c.w, a, batch).Ok?
    ensures var (a', outs) := Fold(c.db, c.w, a, batch).value;
            Fold(c.db, c.w, Merge(a, d), batch) == Ok((Merge(a', d), outs)) && Apart(a', d)
  {
    hide Represents, IndexClosed, AppendOne, Apart, Foreign, Merge, IdConsistent;
    if batch != [] {
      var n := |batch| - 1;
      var b := Merge(a, d);
      FoldCommutes(c, a, ca, d, cb, batch[..n]);
      var a1 := Fold(c.db, c.w, a, batch[..n]).value.0;
      var ca1 := FoldKeeps(c.db, c.w, a, ca, batch[..n]);
      var cb1 := FoldKeeps(c.db, c.w, b, cb, batch[..n]);
      assert IdConsistent(Merge(a1, d), batch[n].draft) by { StaysOwned(c, b, batch[..n], batch[n].draft); }
      assert Foreign(d, batch[n]);
      if AppendOne(c.db, c.w, a1, batch[n]).value.1.created {
        CreationCommutes(c.db, c.w, a1, d, cb1, batch[n]);
      } else {
        RecoveryCommutes(c.db, c.w, a1, ca1, d, cb1, batch[n]);
      }
    }
  }

  lemma {:induction false} FoldKeepsOwned(c: World, l: Ledger, batch: seq<ResolvedEvent>)
    requires IndexClosed(l) && Fold(c.db, c.w, l, batch).Ok? && OwnedBatch(c, batch) && OwnedRows(c, l)
    ensures OwnedRows(c, Fold(c.db, c.w, l, batch).value.0)
  {
    hide Fold, IndexClosed;
    FoldRowsFrom(c.db, c.w, l, batch);
    FoldGrows(c.db, c.w, l, batch);
  }

  lemma StaysOwned(c: World, l: Ledger, batch: seq<ResolvedEvent>, d: Draft)
    requires IndexClosed(l) && Fold(c.db, c.w, l, batch).Ok? && OwnedBatch(c, batch) && OwnedRows(c, l)
    requires c.owner(d.eventId) == DraftKey(d)
    ensures IdConsistent(Fold(c.db, c.w, l, batch).value.0, d)
  {
    hide Fold, IndexClosed;
    FoldKeepsOwned(c, l, batch);
  }

  // ---- the invariant ---------------------------------------------------------------------------

  /** What the transaction did so far is what appending its items one at a time to the ledger committed now
      does. */
  ghost predicate Progress(c: World, l: Ledger, t: Txn) {
    && IndexClosed(l) && IndexClosed(View(l, t)) && |t.results| <= |t.batch|
    && var fold := Fold(c.db, c.w, l, Effective(t.batch)[..|t.results|]);
    && fold.Ok? && fold.value.1 == t.results
    && Sim(View(l, t), t.streams, fold.value.0) && Untouched(View(l, t), t.streams, t.touched)
    && fold.value.0.heads.Keys == l.heads.Keys + StreamIds(t.batch[..|t.results|])
  }

  /** Its rows are new, under its own keys, and its stream rows are ones it locked. */
  ghost predicate OwnRows(c: World, l: Ledger, t: Txn) {
    && Apart(l, t.written) && t.written.heads.Keys !! l.heads.Keys && t.written.heads.Keys <= t.streams.Keys
    && (forall k :: k in t.written.index ==> c.lockKey(k) in LockKeysOf(c, t.batch))
    && (forall id :: id in t.written.events ==> c.lockKey(RowKey(t.written.events[id])) in LockKeysOf(c, t.batch))
  }

  ghost predicate TxnInv(c: World, l: Ledger, t: Txn) {
    && AllReportsKnown(t.batch) && NoInnerConflict(t.batch) && OwnedBatch(c, t.batch)
    && t.streams.Keys <= StreamIds(t.batch) && t.keys <= LockKeysOf(c, t.batch) && (t.results != [] ==> Locked(c, t))
    && Progress(c, l, t) && OwnRows(c, l, t)
  }

  ghost predicate Exclusive(s: State) {
    forall p, q :: p in s.txns && q in s.txns && p != q ==>
      s.txns[p].streams.Keys !! s.txns[q].streams.Keys && s.txns[p].keys !! s.txns[q].keys
  }

  ghost predicate Inv(c: World, s: State) {
    && s.ledger == After(c.db, c.w, HistoryOf(s.log)) && Explained(c, s.log) && OwnedRows(c, s.ledger)
    && (forall p :: p in s.txns ==> TxnInv(c, s.ledger, s.txns[p]))
    && Exclusive(s)
  }

  /** Documents survive their columns, and reads return every ref row. */
  ghost predicate Sane(c: World) {
    Lawful(c.w) && ReadsAll(c.db)
  }

  // ---- one transaction's own steps -------------------------------------------------------------

  lemma MergeNothing(l: Ledger)
    ensures Merge(l, EmptyLedger) == l && Apart(l, EmptyLedger)
  {
    assert l.heads + map[] == l.heads && l.events + map[] == l.events && l.index + map[] == l.index
      && l.refs + {} == l.refs;
  }

  lemma BeginKeeps(c: World, l: Ledger, batch: seq<ResolvedEvent>)
    requires IndexClosed(l) && AllReportsKnown(batch) && NoInnerConflict(batch) && OwnedBatch(c, batch)
    ensures TxnInv(c, l, Txn(batch, map[], {}, EmptyLedger, {}, []))
  {
    hide IndexClosed, AllReportsKnown, NoInnerConflict, OwnedBatch, Fold;
    MergeNothing(l);
    assert Effective(batch)[..0] == [] && batch[..0] == [];
    FoldEmpty(c.db, c.w, l);
  }

  lemma TakeStreamViews(l: Ledger, t: Txn, x: string)
    requires x !in t.streams && !Quarantined(l, x)
    requires t.written.heads.Keys !! l.heads.Keys && t.written.heads.Keys <= t.streams.Keys
    requires Sim(View(l, t), t.streams, l) && Untouched(View(l, t), t.streams, t.touched)
    ensures var t' := TakeStream(l, t, x);
            && View(l, t') == View(l, t).(heads := View(l, t').heads)
            && Sim(View(l, t'), t'.streams, l) && Untouched(View(l, t'), t'.streams, t.touched)
            && t'.streams.Keys == t.streams.Keys + {x} && t'.written.heads.Keys !! l.heads.Keys
  {
    hide Sim, Untouched;
    var t' := TakeStream(l, t, x);
    if x !in l.heads {
      assert l.heads + t.written.heads[x := EmptyHead] == (l.heads + t.written.heads)[x := EmptyHead];
    }
    SimTakes(View(l, t), View(l, t'), t.streams, l, t.touched, x);
  }

  /** One more stream, with the head row it was locked with. */
  lemma SimTakes(own: Ledger, own': Ledger, streams: map<string, StreamState>, l: Ledger, touched: set<string>,
                 x: string)
    requires Sim(own, streams, l) && Untouched(own, streams, touched) && x !in streams
    requires own' == own.(heads := if x in l.heads then own.heads else own.heads[x := EmptyHead])
    requires x in l.heads ==> own.heads[x] == l.heads[x] && !l.heads[x].quarantined
    ensures var streams' := streams[x := StateOf(if x in l.heads then l.heads[x] else EmptyHead)];
            Sim(own', streams', l) && Untouched(own', streams', touched)
  {}

  lemma TakeStreamKeeps(c: World, l: Ledger, t: Txn, x: string)
    requires TxnInv(c, l, t) && t.results == [] && x in StreamIds(t.batch) && x !in t.streams && !Quarantined(l, x)
    ensures TxnInv(c, l, TakeStream(l, t, x))
  {
    hide IndexClosed, AllReportsKnown, NoInnerConflict, OwnedBatch, Fold, Sim, Untouched, View, StreamIds;
    var t' := TakeStream(l, t, x);
    assert Effective(t.batch)[..0] == [];
    FoldEmpty(c.db, c.w, l);
    TakeStreamViews(l, t, x);
    ClosedIgnoresHeads(View(l, t), View(l, t'));
    SameDeltaStaysApart(l, t.written, t'.written);
  }

  lemma SameDeltaStaysApart(l: Ledger, d: Ledger, d': Ledger)
    requires Apart(l, d) && d' == d.(heads := d'.heads)
    ensures Apart(l, d')
  {}

  /** Event IDs used under one key only are consistent with every ledger of such rows. */
  lemma OwnedIsConsistent(c: World, l: Ledger, batch: seq<ResolvedEvent>)
    requires OwnedRows(c, l) && OwnedBatch(c, batch)
    ensures IdsConsistent(l, batch)
  {}

  lemma RepeatKeeps(c: World, l: Ledger, chains: Chains, t: Txn)
    requires TxnInv(c, l, t) && Sound(c.db, c.w, l, chains) && OwnedRows(c, l) && Locked(c, t)
    requires |t.results| < |t.batch| && FirstWithKey(t.batch, |t.results|) < |t.results|
    ensures TxnInv(c, l, InsertNext(c, l, t).value)
  {
    hide IndexClosed, AllReportsKnown, Fold, Sim, Untouched, View, StreamIds, IdsConsistent, Represents;
    hide Effective, OwnRows, SameDraftAsFirst;
    var i := |t.results|;
    OwnedIsConsistent(c, l, t.batch);
    RepeatStep(c.db, c.w, l, chains, t.batch, i);
    StreamIdsNext(t.batch, i);
    RepeatedStream(t.batch, i);
    var t' := InsertNext(c, l, t).value;
    assert View(l, t') == View(l, t) by { SameView(l, t, t'); }
    assert OwnRows(c, l, t') by { SameOwnRows(c, l, t, t'); }
  }

  lemma SameView(l: Ledger, t: Txn, t': Txn)
    requires t.written == t'.written
    ensures View(l, t) == View(l, t')
  {}

  lemma SameOwnRows(c: World, l: Ledger, t: Txn, t': Txn)
    requires OwnRows(c, l, t) && t'.written == t.written && t'.batch == t.batch && t.streams.Keys == t'.streams.Keys
    ensures OwnRows(c, l, t')
  {}

  lemma NotCreatedStep(db: Database, w: Sealing, l: Ledger, state: StreamState, ev: ResolvedEvent)
    requires IndexClosed(l) && InsertStep(db, w, l, state, ev).Ok? && !InsertStep(db, w, l, state, ev).value.2.created
    ensures InsertStep(db, w, l, state, ev).value.0 == l && InsertStep(db, w, l, state, ev).value.1 == state
  {
    hide RefsMatch, Recover, InsertRows;
  }

  lemma ViewInserts(w: Sealing, l: Ledger, d: Ledger, sealed: StoredEvent)
    ensures InsertRows(w, Merge(l, d), sealed) == Merge(l, InsertRows(w, d, sealed))
  {
    hide RowOf;
    var row := RowOf(w, sealed);
    assert (l.events + d.events)[row.eventId := row] == l.events + d.events[row.eventId := row];
    assert (l.index + d.index)[RowKey(row) := row.eventId] == l.index + d.index[RowKey(row) := row.eventId];
    assert (l.refs + d.refs) + RefRowsOf(sealed) == l.refs + (d.refs + RefRowsOf(sealed));
  }

  lemma CreatedRowsAreOwn(c: World, l: Ledger, t: Txn, i: nat, sealed: StoredEvent, t': Txn)
    requires OwnRows(c, l, t) && i < |t.batch| && RefsOwned(l)
    requires sealed.envelope.eventId == t.batch[i].draft.eventId
             && RowKey(RowOf(c.w, sealed)) == DraftKey(t.batch[i].draft)
    requires t.batch[i].draft.eventId !in View(l, t).events && DraftKey(t.batch[i].draft) !in View(l, t).index
    requires t'.written == InsertRows(c.w, t.written, sealed) && t'.batch == t.batch
             && t'.streams.Keys == t.streams.Keys
    ensures OwnRows(c, l, t')
  {
    hide RowOf, LockKeysOf, Apart, RefRowsOf;
    var row := RowOf(c.w, sealed);
    assert row.eventId == sealed.envelope.eventId by { RowNames(c.w, sealed); }
    assert c.lockKey(RowKey(row)) in LockKeysOf(c, t.batch) by { OwnLockKey(c, t.batch, i); }
    assert Apart(l, t'.written) by { InsertApart(c.w, l, t.written, sealed); }
  }

  lemma OwnLockKey(c: World, batch: seq<ResolvedEvent>, i: nat)
    requires i < |batch|
    ensures c.lockKey(DraftKey(batch[i].draft)) in LockKeysOf(c, batch)
  {}

  lemma InsertApart(w: Sealing, l: Ledger, d: Ledger, sealed: StoredEvent)
    requires Apart(l, d) && RefsOwned(l) && sealed.envelope.eventId !in l.events && RowKey(RowOf(w, sealed)) !in l.index
    ensures Apart(l, InsertRows(w, d, sealed))
  {
    hide RowOf;
    var row := RowOf(w, sealed);
    assert row.eventId == sealed.envelope.eventId by { RowNames(w, sealed); }
    assert forall r :: r in RefRowsOf(sealed) ==> r.eventId == row.eventId;
  }

  lemma FirstKeeps(c: World, l: Ledger, chains: Chains, t: Txn)
    requires TxnInv(c, l, t) && Sound(c.db, c.w, l, chains) && Locked(c, t)
    requires |t.results| < |t.batch| && FirstWithKey(t.batch, |t.results|) == |t.results|
    ensures InsertNext(c, l, t).Some? ==> TxnInv(c, l, InsertNext(c, l, t).value)
    ensures InsertNext(c, l, t).None? ==> Fold(c.db, c.w, l, Effective(t.batch)).Err?
  {
    hide IndexClosed, Fold, Sim, StreamIds, Represents, Effective, OwnRows, SameDraftAsFirst, ReportsKnown;
    hide InsertStep, View, Merge;
    var i := |t.results|;
    var x := t.batch[i].draft.streamId;
    StreamIdsNext(t.batch, i);
    FirstStep(c.db, c.w, l, t.batch, i, View(l, t), t.streams);
    var step := InsertStep(c.db, c.w, View(l, t), t.streams[x], t.batch[i]);
    if step.Err? {
      PrefixFails(c.db, c.w, l, Effective(t.batch), i + 1);
    } else {
      var t' := InsertNext(c, l, t).value;
      if step.value.2.created {
        CreatedStep(c.db, c.w, View(l, t), t.streams[x], t.batch[i]);
        assert View(l, t') == step.value.0 by { ViewOfCreated(c, l, t, t', step.value.2.stored); }
        assert RefsOwned(l) by { RepresentsRefs(c.w, l, chains); }
        CreatedRowsAreOwn(c, l, t, i, step.value.2.stored, t');
      } else {
        NotCreatedStep(c.db, c.w, View(l, t), t.streams[x], t.batch[i]);
        SameView(l, t, t');
        SameOwnRows(c, l, t, t');
      }
    }
  }

  lemma RepresentsRefs(w: Sealing, l: Ledger, chains: Chains)
    requires Represents(w, l, chains)
    ensures RefsOwned(l)
  {
    hide StoredRep, LocatedRep, HeadsRep, IndexExact;
  }

  lemma ViewOfCreated(c: World, l: Ledger, t: Txn, t': Txn, sealed: StoredEvent)
    requires t'.written == InsertRows(c.w, t.written, sealed)
    ensures View(l, t') == InsertRows(c.w, View(l, t), sealed)
  {
    hide Merge, InsertRows;
    ViewInserts(c.w, l, t.written, sealed);
  }

  // ---- commits of others -----------------------------------------------------------------------

  /** Added rows that touch nothing the transaction has locked. */
  ghost predicate Clear(c: World, d: Ledger, t: Txn) {
    && d.heads.Keys !! t.streams.Keys
    && (forall k :: k in d.index ==> c.lockKey(k) !in t.keys)
    && (forall id :: id in d.events ==> c.lockKey(RowKey(d.events[id])) !in t.keys)
  }

  lemma ClearIsForeign(c: World, l: Ledger, d: Ledger, t: Txn)
    requires Clear(c, d, t) && NoInnerConflict(t.batch) && OwnedBatch(c, t.batch) && OwnedRows(c, Merge(l, d))
    requires t.results != [] ==> Locked(c, t)
    requires |t.results| <= |t.batch|
    ensures AllForeign(d, Effective(t.batch)[..|t.results|])
  {
    hide SameDraftAsFirst, NoInnerConflict, LockKeysOf, StreamIds, DraftIdentity;
    var prefix := Effective(t.batch)[..|t.results|];
    forall id | id in d.events ensures c.lockKey(c.owner(id)) !in t.keys {
      assert Merge(l, d).events[id] == d.events[id];
    }
    forall i | 0 <= i < |prefix| ensures Foreign(d, prefix[i]) {
      var f := FirstWithKey(t.batch, i);
      assert prefix[i] == t.batch[f];
      StreamIdsNext(t.batch, f);
      OwnLockKey(c, t.batch, f);
      assert c.lockKey(c.owner(t.batch[f].draft.eventId)) in t.keys;
    }
  }

  lemma OwnedEffective(c: World, batch: seq<ResolvedEvent>, n: nat)
    requires OwnedBatch(c, batch) && n <= |batch|
    ensures OwnedBatch(c, Effective(batch)[..n]) && Effective(batch)[..|batch|] == Effective(batch)
  {
    forall i | 0 <= i < n
      ensures c.owner(Effective(batch)[..n][i].draft.eventId) == DraftKey(Effective(batch)[..n][i].draft)
    {
      assert Effective(batch)[..n][i] == batch[FirstWithKey(batch, i)];
    }
  }

  lemma SimMerges(own: Ledger, streams: map<string, StreamState>, spec: Ledger, touched: set<string>, d: Ledger)
    requires Sim(own, streams, spec) && Untouched(own, streams, touched) && d.heads.Keys !! streams.Keys
    ensures Sim(Merge(own, d), streams, Merge(spec, d)) && Untouched(Merge(own, d), streams, touched)
  {}

  /** The view of a transaction over what others committed is its old view with those rows added. */
  lemma ViewMerges(l: Ledger, t: Txn, d: Ledger, spec: Ledger)
    requires Apart(l, d) && Apart(l, t.written) && Apart(spec, d) && d.heads.Keys !! t.streams.Keys
    requires t.written.heads.Keys <= t.streams.Keys
    requires View(l, t).events == spec.events && View(l, t).index == spec.index
    ensures View(Merge(l, d), t) == Merge(View(l, t), d) && Apart(Merge(l, d), t.written)
  {
    var w := t.written;
    assert w.events.Keys <= spec.events.Keys && w.index.Keys <= spec.index.Keys;
    MapsSwap(l.events, d.events, w.events);
    MapsSwap(l.index, d.index, w.index);
    MapsSwap(l.heads, d.heads, w.heads);
    assert (l.refs + d.refs) + w.refs == (l.refs + w.refs) + d.refs;
  }

  lemma MapsSwap<K, V>(a: map<K, V>, b: map<K, V>, d: map<K, V>)
    requires b.Keys !! d.Keys
    ensures (a + b) + d == (a + d) + b
  {}

  /** FRAMED. Whatever others commit, a transaction's progress is still what appending its items to the ledger
      committed now gives. */
  lemma TxnFramed(c: World, l: Ledger, ca: Chains, d: Ledger, cb: Chains, t: Txn)
    requires Sane(c) && TxnInv(c, l, t) && Represents(c.w, l, ca) && Represents(c.w, Merge(l, d), cb)
    requires IndexClosed(Merge(l, d)) && Apart(l, d) && Clear(c, d, t) && OwnedRows(c, Merge(l, d))
    ensures TxnInv(c, Merge(l, d), t)
  {
    hide AllReportsKnown, Fold, Sim, Untouched, StreamIds, Represents, Effective, Apart, IndexClosed;
    hide LockKeysOf, View, Merge;
    var prefix := Effective(t.batch)[..|t.results|];
    var spec := Fold(c.db, c.w, l, prefix).value.0;
    ClearIsForeign(c, l, d, t);
    OwnedEffective(c, t.batch, |t.results|);
    FoldCommutes(c, l, ca, d, cb, prefix);
    assert View(l, t).events == spec.events && View(l, t).index == spec.index by {
      SimRows(View(l, t), t.streams, spec);
    }
    ViewMerges(l, t, d, spec);
    SimMerges(View(l, t), t.streams, spec, t.touched, d);
    assert IndexClosed(Merge(View(l, t), d)) by {
      SimRows(Merge(View(l, t), d), t.streams, Merge(spec, d));
      ClosedBySim(Merge(View(l, t), d), t.streams, Merge(spec, d));
    }
    FramedHeads(l, d, t, spec);
  }

  lemma SimRows(own: Ledger, streams: map<string, StreamState>, spec: Ledger)
    requires Sim(own, streams, spec)
    ensures own.events == spec.events && own.index == spec.index && own.refs == spec.refs
  {}

  lemma ClosedBySim(own: Ledger, streams: map<string, StreamState>, spec: Ledger)
    requires Sim(own, streams, spec) && IndexClosed(spec)
    ensures IndexClosed(own)
  {}

  lemma FramedHeads(l: Ledger, d: Ledger, t: Txn, spec: Ledger)
    requires |t.results| <= |t.batch| && spec.heads.Keys == l.heads.Keys + StreamIds(t.batch[..|t.results|])
    requires t.written.heads.Keys !! l.heads.Keys && t.written.heads.Keys <= t.streams.Keys
             && d.heads.Keys !! t.streams.Keys
    ensures Merge(spec, d).heads.Keys == Merge(l, d).heads.Keys + StreamIds(t.batch[..|t.results|])
    ensures t.written.heads.Keys !! Merge(l, d).heads.Keys
  {
    hide StreamIds;
  }

  // ---- commits ---------------------------------------------------------------------------------

  function CommittedBy(l: Ledger, t: Txn): Ledger
    requires t.touched <= t.streams.Keys
  {
    View(l, t).(heads := WrittenHeads(View(l, t).heads, t.streams, t.touched))
  }

  /** What a commit adds. */
  function AddedBy(l: Ledger, t: Txn): Ledger
    requires t.touched <= t.streams.Keys
  {
    var heads := CommittedBy(l, t).heads;
    t.written.(heads := map x | x in heads && x in t.streams :: heads[x])
  }

  lemma CommitAdds(c: World, l: Ledger, t: Txn)
    requires OwnRows(c, l, t) && t.touched <= t.streams.Keys
    ensures CommittedBy(l, t) == Merge(l, AddedBy(l, t)) && Apart(l, AddedBy(l, t))
  {
    hide LockKeysOf;
    HeadsAdded(l.heads, t.written.heads, t.streams, t.touched);
    SameDeltaStaysApart(l, t.written, AddedBy(l, t));
  }

  lemma HeadsAdded(heads: map<string, Head>, own: map<string, Head>, streams: map<string, StreamState>,
                   touched: set<string>)
    requires own.Keys <= streams.Keys && touched <= streams.Keys
    ensures var written := WrittenHeads(heads + own, streams, touched);
            written == heads + (map x | x in written && x in streams :: written[x])
  {}

  /** Whole batches: what is committed is the fold over the ledger committed at that moment. */
  lemma CommitIsFold(c: World, l: Ledger, t: Txn)
    requires TxnInv(c, l, t) && Locked(c, t) && |t.results| == |t.batch|
    ensures t.touched <= t.streams.Keys
    ensures Fold(c.db, c.w, l, Effective(t.batch)) == Ok((CommittedBy(l, t), t.results))
  {
    hide AllReportsKnown, Fold, Sim, StreamIds, Effective, OwnedBatch, NoInnerConflict, IndexClosed, WrittenHeads;
    assert Effective(t.batch)[..|t.batch|] == Effective(t.batch) && t.batch[..|t.batch|] == t.batch;
    var spec := Fold(c.db, c.w, l, Effective(t.batch)).value.0;
    SimHeads(View(l, t), t.streams, spec);
    HeadsWritten(View(l, t), t.streams, t.touched, spec);
  }

  lemma SimHeads(own: Ledger, streams: map<string, StreamState>, spec: Ledger)
    requires Sim(own, streams, spec)
    ensures spec.heads.Keys <= own.heads.Keys
  {}

  lemma CommitClears(c: World, s: State, p: nat, q: nat)
    requires p in s.txns && q in s.txns && p != q && Exclusive(s) && OwnRows(c, s.ledger, s.txns[p])
    requires s.txns[p].touched <= s.txns[p].streams.Keys && Locked(c, s.txns[p])
    ensures Clear(c, AddedBy(s.ledger, s.txns[p]), s.txns[q])
  {
    hide LockKeysOf, Apart, StreamIds;
  }

  lemma LogNext(c: World, log: seq<Entry>, e: Entry)
    ensures After(c.db, c.w, HistoryOf(log + [e])) == ApplyStep(c.db, c.w, After(c.db, c.w, HistoryOf(log)), StepOf(e))
  {
    hide Effective, ApplyStep;
    assert HistoryOf(log + [e])[..|log|] == HistoryOf(log);
  }

  lemma ExplainedNext(c: World, log: seq<Entry>, e: Entry)
    requires Explained(c, log)
    requires e.Appended? ==>
               var fold := Fold(c.db, c.w, After(c.db, c.w, HistoryOf(log)), Effective(e.batch));
               fold.Ok? && fold.value.1 == e.results
    ensures Explained(c, log + [e])
  {
    hide Effective, Fold, After, HistoryOf;
    var longer := log + [e];
    forall k | 0 <= k < |longer| && longer[k].Appended? ensures ExplainedAt(c, longer, k) {
      if k < |log| {
        assert longer[..k] == log[..k];
        assert ExplainedAt(c, log, k);
      } else {
        assert longer[..k] == log;
      }
    }
  }

  lemma CommitKeeps(c: World, s: State, p: nat)
    requires Sane(c) && Inv(c, s) && Enabled(c, s, Commit(p))
    ensures Inv(c, Apply(c, s, Commit(p)))
  {
    hide Fold, After, Explained, TxnInv, Apart, Clear, Merge, IndexClosed, Represents, HistoryOf, Effective;
    hide WrittenHeads, OwnedRows, Locked;
    var t, s' := s.txns[p], Apply(c, s, Commit(p));
    var d := AddedBy(s.ledger, t);
    var e := Appended(t.batch, t.results);
    TxnParts(c, s.ledger, t);
    CommitIsFold(c, s.ledger, t);
    CommitAdds(c, s.ledger, t);
    LogNext(c, s.log, e);
    ExplainedNext(c, s.log, e);
    OwnedEffective(c, t.batch, |t.batch|);
    FoldKeepsOwned(c, s.ledger, Effective(t.batch));
    var ca := EveryHistoryIsChained(c.db, c.w, HistoryOf(s.log));
    var cb := EveryHistoryIsChained(c.db, c.w, HistoryOf(s'.log));
    forall q | q in s'.txns ensures TxnInv(c, s'.ledger, s'.txns[q]) {
      CommitClears(c, s, p, q);
      TxnFramed(c, s.ledger, ca, d, cb, s.txns[q]);
    }
  }

  lemma TxnParts(c: World, l: Ledger, t: Txn)
    requires TxnInv(c, l, t)
    ensures OwnRows(c, l, t) && OwnedBatch(c, t.batch) && NoInnerConflict(t.batch) && IndexClosed(l)
  {
    hide AllReportsKnown, OwnRows, NoInnerConflict, OwnedBatch, IndexClosed, Fold;
  }

  lemma QuarantineKeepsInv(c: World, s: State, x: string)
    requires Sane(c) && Inv(c, s) && Enabled(c, s, Step.Quarantine(x))
    ensures Inv(c, Apply(c, s, Step.Quarantine(x)))
  {
    hide Fold, After, Explained, TxnInv, IndexClosed, Represents, HistoryOf, Effective;
    var s' := Apply(c, s, Step.Quarantine(x));
    var d := Ledger(map[x := s.ledger.heads[x].(quarantined := true)], map[], map[], {});
    assert s'.ledger == Merge(s.ledger, d) && Apart(s.ledger, d) by {
      assert s.ledger.heads + d.heads == s'.ledger.heads && s.ledger.events + map[] == s.ledger.events;
      assert s.ledger.index + map[] == s.ledger.index && s.ledger.refs + {} == s.ledger.refs;
    }
    LogNext(c, s.log, Closed(x));
    ExplainedNext(c, s.log, Closed(x));
    var ca := EveryHistoryIsChained(c.db, c.w, HistoryOf(s.log));
    var cb := EveryHistoryIsChained(c.db, c.w, HistoryOf(s'.log));
    forall q | q in s'.txns ensures TxnInv(c, s'.ledger, s'.txns[q]) {
      TxnFramed(c, s.ledger, ca, d, cb, s.txns[q]);
    }
  }

  // ---- every step ------------------------------------------------------------------------------

  lemma InsertKeepsTxn(c: World, s: State, p: nat)
    requires Sane(c) && Inv(c, s) && Enabled(c, s, Insert(p))
    ensures InsertNext(c, s.ledger, s.txns[p]).Some? ==>
              var t' := InsertNext(c, s.ledger, s.txns[p]).value;
              TxnInv(c, s.ledger, t') && t'.streams.Keys == s.txns[p].streams.Keys && t'.keys == s.txns[p].keys
    ensures InsertNext(c, s.ledger, s.txns[p]).None? ==> Fold(c.db, c.w, s.ledger, Effective(s.txns[p].batch)).Err?
  {
    hide Fold, After, Explained, TxnInv, IndexClosed, Represents, HistoryOf, Effective, InsertStep, OwnedRows;
    hide StreamIds, LockKeysOf, Exclusive;
    var t := s.txns[p];
    StreamIdsNext(t.batch, |t.results|);
    var chains := EveryHistoryIsChained(c.db, c.w, HistoryOf(s.log));
    if FirstWithKey(t.batch, |t.results|) < |t.results| {
      RepeatKeeps(c, s.ledger, chains, t);
    } else {
      FirstKeeps(c, s.ledger, chains, t);
    }
  }

  lemma PutKeeps(c: World, s: State, p: nat, t: Txn)
    requires Inv(c, s) && TxnInv(c, s.ledger, t)
    requires forall q :: q in s.txns && q != p ==> t.streams.Keys !! s.txns[q].streams.Keys && t.keys !! s.txns[q].keys
    ensures Inv(c, s.(txns := s.txns[p := t]))
  {
    hide TxnInv, After, Explained, OwnedRows, HistoryOf;
  }

  lemma StepKeepsInv(c: World, s: State, l: Step)
    requires Sane(c) && Inv(c, s) && Enabled(c, s, l)
    ensures Inv(c, Apply(c, s, l))
  {
    hide TxnInv, After, Explained, OwnedRows, HistoryOf, InsertNext, AllReportsKnown, NoInnerConflict;
    hide OwnedBatch, StreamIds, LockKeysOf;
    match l {
      case Begin(p, batch) =>
        BeginKeeps(c, s.ledger, batch);
        PutKeeps(c, s, p, Txn(batch, map[], {}, EmptyLedger, {}, []));
      case LockStream(p, x) =>
        if !Quarantined(s.ledger, x) {
          TakeStreamKeeps(c, s.ledger, s.txns[p], x);
          PutKeeps(c, s, p, TakeStream(s.ledger, s.txns[p], x));
        }
      case LockKey(p, k) =>
        LockKeyKeeps(c, s.ledger, s.txns[p], k);
        PutKeeps(c, s, p, s.txns[p].(keys := s.txns[p].keys + {k}));
      case Insert(p) =>
        InsertKeepsTxn(c, s, p);
        if InsertNext(c, s.ledger, s.txns[p]).Some? { PutKeeps(c, s, p, InsertNext(c, s.ledger, s.txns[p]).value); }
      case Commit(p) => CommitKeeps(c, s, p);
      case Rollback(p) =>
      case Quarantine(x) => QuarantineKeepsInv(c, s, x);
    }
  }

  lemma LockKeyKeeps(c: World, l: Ledger, t: Txn, k: int)
    requires TxnInv(c, l, t) && k in LockKeysOf(c, t.batch)
    ensures TxnInv(c, l, t.(keys := t.keys + {k}))
  {
    hide AllReportsKnown, NoInnerConflict, OwnedBatch, Fold, Sim, Untouched, StreamIds, LockKeysOf, IndexClosed, Apart;
    var t' := t.(keys := t.keys + {k});
    assert t.results != [] ==> t'.keys == t.keys;
  }

  lemma {:induction false} ReachableInv(c: World, run: seq<Step>, s: State)
    requires Sane(c) && Reaches(c, run, s)
    ensures Inv(c, s)
    decreases |run|
  {
    hide Inv, Enabled, Apply;
    if run == [] {
      InitInv(c);
    } else {
      var n := |run| - 1;
      var before :| Reaches(c, run[..n], before) && Enabled(c, before, run[n]) && s == Apply(c, before, run[n]);
      ReachableInv(c, run[..n], before);
      StepKeepsInv(c, before, run[n]);
    }
  }

  lemma InitInv(c: World)
    ensures Inv(c, Init)
  {}

  // ---- what the interleavings come to ----------------------------------------------------------

  /** The batch a transaction last began with. */
  function Requested(run: seq<Step>, p: nat): seq<ResolvedEvent> {
    if run == [] then []
    else
      var n := |run| - 1;
      if run[n].Begin? && run[n].txn == p then run[n].batch else Requested(run[..n], p)
  }

  /** The serial history of a run, by its steps alone: the batch of every transaction that commits, where it
      commits, and every quarantine. */
  function Committed(run: seq<Step>): seq<LedgerStep> {
    if run == [] then []
    else
      var n := |run| - 1;
      match run[n]
      case Commit(p) => Committed(run[..n]) + [Submit(Effective(Requested(run[..n], p)))]
      case Quarantine(x) => Committed(run[..n]) + [LedgerStep.Quarantine(x)]
      case _ => Committed(run[..n])
  }

  /** The open transactions hold the batches they began with, and the log is the run's own history. */
  ghost predicate Recorded(run: seq<Step>, s: State) {
    && (forall p :: p in s.txns ==> s.txns[p].batch == Requested(run, p))
    && HistoryOf(s.log) == Committed(run)
  }

  lemma HistoryNext(log: seq<Entry>, e: Entry)
    ensures HistoryOf(log + [e]) == HistoryOf(log) + [StepOf(e)]
  {
    hide Effective;
  }

  lemma InsertKeepsBatch(c: World, l: Ledger, t: Txn)
    requires |t.results| < |t.batch| && IndexClosed(View(l, t)) && t.streams.Keys == StreamIds(t.batch)
    ensures InsertNext(c, l, t).Some? ==> InsertNext(c, l, t).value.batch == t.batch
  {
    hide InsertStep, IndexClosed, StreamIds, View, InsertRows;
  }

  lemma StepRecords(c: World, run: seq<Step>, s: State, l: Step)
    requires Recorded(run, s) && Enabled(c, s, l)
    ensures Recorded(run + [l], Apply(c, s, l))
  {
    hide HistoryOf, Effective, InsertNext, StreamIds, LockKeysOf, IndexClosed, View, WrittenHeads;
    assert (run + [l])[..|run|] == run;
    match l {
      case Commit(p) => HistoryNext(s.log, Appended(s.txns[p].batch, s.txns[p].results));
      case Quarantine(x) => HistoryNext(s.log, Closed(x));
      case Insert(p) => InsertKeepsBatch(c, s.ledger, s.txns[p]);
      case _ =>
    }
  }

  lemma {:induction false} ReachableRecords(c: World, run: seq<Step>, s: State)
    requires Reaches(c, run, s)
    ensures Recorded(run, s)
    decreases |run|
  {
    hide Enabled, Apply;
    if run != [] {
      var n := |run| - 1;
      var before :| Reaches(c, run[..n], before) && Enabled(c, before, run[n]) && s == Apply(c, before, run[n]);
      ReachableRecords(c, run[..n], before);
      StepRecords(c, run[..n], before, run[n]);
      assert run[..n] + [run[n]] == run;
    }
  }

  /** SERIALIZABLE. In every state any interleaving reaches, the committed ledger is the one the batches of the
      run's commits, in commit order, produce one after another; and every committed batch reported exactly the
      results it has in that history. */
  lemma EveryRunIsSerializable(c: World, run: seq<Step>, s: State)
    requires Sane(c) && Reaches(c, run, s)
    ensures s.ledger == After(c.db, c.w, Committed(run)) && HistoryOf(s.log) == Committed(run)
    ensures forall k :: 0 <= k < |s.log| && s.log[k].Appended? ==>
              var before := After(c.db, c.w, Committed(run)[..k]);
              Fold(c.db, c.w, before, Effective(s.log[k].batch))
              == Ok((After(c.db, c.w, Committed(run)[..k + 1]), s.log[k].results))
  {
    hide Fold, After, HistoryOf, Effective, Inv, Committed;
    ReachableInv(c, run, s);
    ReachableRecords(c, run, s);
    assert s.ledger == After(c.db, c.w, HistoryOf(s.log)) && Explained(c, s.log) by { InvParts(c, s); }
    HistoryPrefix(s.log, |s.log|);
    forall k | 0 <= k < |s.log| && s.log[k].Appended?
      ensures Fold(c.db, c.w, After(c.db, c.w, HistoryOf(s.log)[..k]), Effective(s.log[k].batch))
              == Ok((After(c.db, c.w, HistoryOf(s.log)[..k + 1]), s.log[k].results))
    {
      SerialAt(c, s.log, k);
    }
  }

  lemma InvParts(c: World, s: State)
    requires Inv(c, s)
    ensures s.ledger == After(c.db, c.w, HistoryOf(s.log)) && Explained(c, s.log)
    ensures forall p :: p in s.txns ==> TxnInv(c, s.ledger, s.txns[p])
  {
    hide After, HistoryOf, Explained, OwnedRows, TxnInv, Exclusive;
  }

  lemma SerialAt(c: World, log: seq<Entry>, k: nat)
    requires Explained(c, log) && k < |log| && log[k].Appended?
    ensures |HistoryOf(log)| == |log|
    ensures Fold(c.db, c.w, After(c.db, c.w, HistoryOf(log)[..k]), Effective(log[k].batch))
         == Ok((After(c.db, c.w, HistoryOf(log)[..k + 1]), log[k].results))
  {
    hide Fold, After, HistoryOf, Effective;
    assert ExplainedAt(c, log, k);
    assert log[..k + 1] == log[..k] + [log[k]];
    LogNext(c, log[..k], log[k]);
    HistoryPrefix(log, k);
    HistoryPrefix(log, k + 1);
  }

  lemma HistoryPrefix(log: seq<Entry>, k: nat)
    requires k <= |log|
    ensures |HistoryOf(log)| == |log| && HistoryOf(log[..k]) == HistoryOf(log)[..k]
  {
    hide Effective;
  }

  /** So whatever was interleaved, every stream of the committed ledger verifies from every sequence on. */
  lemma ConcurrentLedgersVerify(c: World, run: seq<Step>, s: State, snap: Snapshot, since: int)
    requires Sane(c) && Reaches(c, run, s) && Faithful(snap) && snap.tables == s.ledger && since >= 1
    ensures forall x :: x in snap.tables.heads ==> StreamVerdict(c.w, snap, x, since).failure.None?
  {
    hide After, HistoryOf, Faithful, StreamVerdict, Inv, Committed;
    EveryRunIsSerializable(c, run, s);
    EveryReachableLedgerVerifies(c.db, c.w, Committed(run), snap, since);
  }

  /** A transaction that an insert ends is one whose batch the ledger committed at that moment refuses; and the
      view it inserts into is always closed, so holding its locks is all an insert needs. */
  lemma RefusedForCause(c: World, run: seq<Step>, s: State, p: nat)
    requires Sane(c) && Reaches(c, run, s) && p in s.txns && Locked(c, s.txns[p])
    requires |s.txns[p].results| < |s.txns[p].batch|
    ensures Enabled(c, s, Insert(p))
    ensures p !in Apply(c, s, Insert(p)).txns ==>
              Fold(c.db, c.w, After(c.db, c.w, Committed(run)), Effective(Requested(run, p))).Err?
  {
    hide Fold, After, HistoryOf, Effective, InsertNext, StreamIds, LockKeysOf, Inv, View, AllReportsKnown;
    hide Committed, Requested, IndexClosed, Locked, Reaches, NoInnerConflict, OwnedBatch;
    ReachableRecords(c, run, s);
    ReachableInv(c, run, s);
    assert TxnInv(c, s.ledger, s.txns[p]) && s.ledger == After(c.db, c.w, HistoryOf(s.log)) by { InvParts(c, s); }
    assert IndexClosed(View(s.ledger, s.txns[p])) by { ViewIsClosed(c, s.ledger, s.txns[p]); }
    InsertKeepsTxn(c, s, p);
  }

  lemma ViewIsClosed(c: World, l: Ledger, t: Txn)
    requires TxnInv(c, l, t)
    ensures IndexClosed(View(l, t))
  {
    hide AllReportsKnown, NoInnerConflict, OwnedBatch, Fold, Sim, Untouched, StreamIds, LockKeysOf;
    hide IndexClosed, Apart, View;
  }

  /** Uncommitted rows of two transactions never share an event ID, a key or a stream, so no insert waits on
      another's. */
  lemma NoInsertWaits(c: World, run: seq<Step>, s: State, p: nat, q: nat)
    requires Sane(c) && Reaches(c, run, s) && p in s.txns && q in s.txns && p != q
    ensures s.txns[p].written.index.Keys !! s.txns[q].written.index.Keys
    ensures s.txns[p].streams.Keys !! s.txns[q].streams.Keys
  {
    hide Fold, After, HistoryOf, Effective, OwnedRows, Explained, TxnInv;
    ReachableInv(c, run, s);
    OwnKeysAreLocked(c, s.ledger, s.txns[p]);
    OwnKeysAreLocked(c, s.ledger, s.txns[q]);
  }

  lemma OwnKeysAreLocked(c: World, l: Ledger, t: Txn)
    requires TxnInv(c, l, t)
    ensures forall k :: k in t.written.index ==> c.lockKey(k) in t.keys
  {
    hide AllReportsKnown, NoInnerConflict, OwnedBatch, Fold, Untouched, StreamIds, LockKeysOf, IndexClosed;
    if t.results == [] {
      assert Effective(t.batch)[..0] == [];
      assert IndexClosed(l);
      FoldEmpty(c.db, c.w, l);
      assert View(l, t).index == l.index;
      assert forall k :: k in t.written.index ==> k in View(l, t).index;
    }
  }
}

/** Appending to the ledger: the one-event idempotent append as a function on the tables, batches as
    its fold, and the chain invariant every committed batch keeps. */
module LedgerAppend {
  import opened Orders
  import opened LedgerTables

  /** A draft with its server-resolved refs and the content IDs its redaction reports name. */
  datatype ResolvedEvent = ResolvedEvent(draft: Draft, refs: seq<Ref>, reports: set<string>)

  datatype Outcome = Outcome(stored: StoredEvent, created: bool)

  datatype AppendError =
    | UnknownReport
    | IdempotencyConflict(key: Key)
    | StreamQuarantined(streamId: string)
    | SealRefused
    | Undecodable
    | OtherConstraint

  /** What the database decides: the order ref rows come back in, and which constraint it names when
      an insert violates both the primary key and the idempotency key. */
  datatype Database = Database(read: (set<RefRow>, string) -> seq<Ref>,
                               namesPrimaryKey: (map<string, EventRow>, EventRow) -> bool)

  ghost predicate ReadsAll(db: Database) {
    forall rows, id :: Enumerates(db.read(rows, id), rows, id)
  }

  datatype StreamState = StreamState(sequence: int, headEventId: Option<string>, headHash: Option<Hash>)

  const EmptyHead := Head(0, None, None, false)
  const EmptyLedger := Ledger(map[], map[], map[], {})

  function StateOf(h: Head): StreamState {
    StreamState(h.lastSequence, h.lastEventId, h.lastHash)
  }

  function RowKey(row: EventRow): Key {
    (row.producerId, row.idempotencyKey)
  }

  function DraftKey(d: Draft): Key {
    (d.documents.producerId, d.idempotencyKey)
  }

  /** `_validate_resolved_event`. */
  predicate ReportsKnown(ev: ResolvedEvent) {
    forall c :: c in ev.reports ==> exists i :: 0 <= i < |ev.refs| && ev.refs[i].claim.contentId == c
  }

  /** `_recover_existing`: the row that caused the conflict, if it holds the same draft. */
  function Recover(db: Database, w: Sealing, l: Ledger, d: Draft, id: string): Result<Outcome, AppendError>
    requires id in l.events
  {
    var row := l.events[id];
    var refs := db.read(l.refs, id);
    match ExistingIdentity(w, row, refs)
    case None => Err(Undecodable)
    case Some(identity) =>
      if identity != DraftIdentity(d) then Err(IdempotencyConflict(DraftKey(d)))
      else Ok(Outcome(Rebuild(w, row, refs).value, false))
  }

  predicate SequenceTaken(l: Ledger, streamId: string, sequence: int) {
    exists id :: id in l.events && l.events[id].streamId == streamId && l.events[id].sequence == sequence
  }

  function InsertRows(w: Sealing, l: Ledger, sealed: StoredEvent): Ledger {
    var row := RowOf(w, sealed);
    l.(events := l.events[row.eventId := row],
       index := l.index[RowKey(row) := row.eventId],
       refs := l.refs + RefRowsOf(sealed))
  }

  /** Every index entry points at a row. */
  ghost predicate IndexClosed(l: Ledger) {
    forall k :: k in l.index ==> l.index[k] in l.events
  }

  /** `_insert_or_recover`: seal against the stream state, insert, or recover what is in the way. */
  function InsertStep(db: Database, w: Sealing, l: Ledger, state: StreamState, ev: ResolvedEvent)
    : (r: Result<(Ledger, StreamState, Outcome), AppendError>)
    requires IndexClosed(l)
    ensures r.Ok? ==> IndexClosed(r.value.0)
  {
    var draft := Canonicalize(ev.draft);
    match Seal(w, draft, ev.refs, state.sequence + 1, state.headHash)
    case None => Err(SealRefused)
    case Some(sealed) =>
      var row := RowOf(w, sealed);
      if row.eventId in l.events && (RowKey(row) !in l.index || db.namesPrimaryKey(l.events, row)) then
        match Recover(db, w, l, draft, row.eventId)
        case Err(e) => Err(e)
        case Ok(out) => Ok((l, state, out))
      else if RowKey(row) in l.index then
        match Recover(db, w, l, draft, l.index[RowKey(row)])
        case Err(e) => Err(e)
        case Ok(out) => Ok((l, state, out))
      else if SequenceTaken(l, row.streamId, row.sequence) then Err(OtherConstraint)
      else Ok((InsertRows(w, l, sealed),
               StreamState(row.sequence, Some(row.eventId), Some(row.eventHash)),
               Outcome(sealed, true)))
  }

  /** Create-if-missing. */
  function EnsureStream(l: Ledger, streamId: string): Ledger {
    if streamId in l.heads then l else l.(heads := l.heads[streamId := EmptyHead])
  }

  function WithHead(l: Ledger, streamId: string, state: StreamState): Ledger {
    l.(heads := l.heads[streamId := Head(state.sequence, state.headEventId, state.headHash, false)])
  }

  /** THE SPECIFICATION: append one event idempotently. */
  function AppendOne(db: Database, w: Sealing, l: Ledger, ev: ResolvedEvent)
    : (r: Result<(Ledger, Outcome), AppendError>)
    requires IndexClosed(l)
    ensures r.Ok? ==> IndexClosed(r.value.0)
  {
    var streamId := ev.draft.streamId;
    var locked := EnsureStream(l, streamId);
    if !ReportsKnown(ev) then Err(UnknownReport)
    else if locked.heads[streamId].quarantined then Err(StreamQuarantined(streamId))
    else
      match InsertStep(db, w, locked, StateOf(locked.heads[streamId]), ev)
      case Err(e) => Err(e)
      case Ok((l', state, out)) => Ok((WithHead(l', streamId, state), out))
  }

  /** One more event, if everything before it was appended. */
  function ThenAppend(db: Database, w: Sealing, r: Result<(Ledger, seq<Outcome>), AppendError>, ev: ResolvedEvent)
    : (r': Result<(Ledger, seq<Outcome>), AppendError>)
    requires r.Ok? ==> IndexClosed(r.value.0)
    ensures r'.Ok? ==> IndexClosed(r'.value.0)
  {
    if r.Err? then r else
      match AppendOne(db, w, r.value.0, ev)
      case Err(e) => Err(e)
      case Ok((l, out)) => Ok((l, r.value.1 + [out]))
  }

  /** A batch, one event at a time, in order. */
  function Fold(db: Database, w: Sealing, l: Ledger, batch: seq<ResolvedEvent>)
    : (r: Result<(Ledger, seq<Outcome>), AppendError>)
    requires IndexClosed(l)
    ensures r.Ok? ==> IndexClosed(r.value.0) && |r.value.1| == |batch|
  {
    if batch == [] then Ok((l, []))
    else ThenAppend(db, w, Fold(db, w, l, batch[..|batch| - 1]), batch[|batch| - 1])
  }

  // ---- the chain invariant ---------------------------------------------------------------------

  type Chains = map<string, seq<StoredEvent>>

  function Link(chain: seq<StoredEvent>, i: nat): Option<Hash>
    requires i <= |chain|
  {
    if i == 0 then None else Some(chain[i - 1].eventHash)
  }

  /** A head row names the last event of its chain. */
  predicate HeadMatches(h: Head, chain: seq<StoredEvent>) {
    && h.lastSequence == |chain|
    && h.lastEventId == (if chain == [] then None else Some(chain[|chain| - 1].envelope.eventId))
    && h.lastHash == Link(chain, |chain|)
  }

  /** The tables hold exactly the rows of this sealed event. */
  ghost predicate StoredRows(w: Sealing, l: Ledger, s: StoredEvent) {
    var id := s.envelope.eventId;
    && WellSealed(w, s)
    && id in l.events && l.events[id] == RowOf(w, s)
    && (forall r :: RefRow(id, r) in l.refs <==> r in s.envelope.refs)
  }

  /** The `i`-th event of a stream is stored as sealed, contiguous and linked. */
  ghost predicate StoredAt(w: Sealing, l: Ledger, chain: seq<StoredEvent>, streamId: string, i: nat)
    requires i < |chain|
  {
    var e := chain[i].envelope;
    && e.streamId == streamId && e.sequence == i + 1 && e.previous == Link(chain, i)
    && StoredRows(w, l, chain[i])
  }

  ghost predicate Located(l: Ledger, chains: Chains, id: string)
    requires id in l.events
  {
    var row := l.events[id];
    && row.eventId == id
    && row.streamId in chains && 1 <= row.sequence <= |chains[row.streamId]|
    && chains[row.streamId][row.sequence - 1].envelope.eventId == id
  }

  ghost predicate IndexExact(l: Ledger) {
    && (forall id :: id in l.events ==> RowKey(l.events[id]) in l.index && l.index[RowKey(l.events[id])] == id)
    && (forall k :: k in l.index ==> l.index[k] in l.events && RowKey(l.events[l.index[k]]) == k)
  }

  ghost predicate HeadsRep(l: Ledger, chains: Chains) {
    && chains.Keys == l.heads.Keys
    && (forall s :: s in chains ==> HeadMatches(l.heads[s], chains[s]))
  }

  ghost predicate StoredRep(w: Sealing, l: Ledger, chains: Chains) {
    forall s, i :: s in chains && 0 <= i < |chains[s]| ==> StoredAt(w, l, chains[s], s, i)
  }

  ghost predicate LocatedRep(l: Ledger, chains: Chains) {
    forall id :: id in l.events ==> Located(l, chains, id)
  }

  ghost predicate RefsOwned(l: Ledger) {
    forall r :: r in l.refs ==> r.eventId in l.events
  }

  /** The tables hold exactly these hash-chained streams. */
  ghost predicate Represents(w: Sealing, l: Ledger, chains: Chains) {
    HeadsRep(l, chains) && StoredRep(w, l, chains) && LocatedRep(l, chains) && IndexExact(l) && RefsOwned(l)
  }

  lemma EmptyRepresents(w: Sealing)
    ensures Represents(w, EmptyLedger, map[])
  {}

  /** Head rows play no part in what is stored where. */
  lemma StoredIgnoresHeads(w: Sealing, l: Ledger, l': Ledger, chains: Chains)
    requires l' == l.(heads := l'.heads)
    ensures StoredRep(w, l, chains) ==> StoredRep(w, l', chains)
    ensures LocatedRep(l, chains) ==> LocatedRep(l', chains)
    ensures IndexExact(l) ==> IndexExact(l')
    ensures RefsOwned(l) ==> RefsOwned(l')
  {
    if StoredRep(w, l, chains) {
      forall s, i | s in chains && 0 <= i < |chains[s]| ensures StoredAt(w, l', chains[s], s, i) {
        assert StoredAt(w, l, chains[s], s, i);
      }
    }
    if LocatedRep(l, chains) {
      forall id | id in l'.events ensures Located(l', chains, id) {
        assert Located(l, chains, id);
      }
    }
  }

  function EnsureChain(chains: Chains, streamId: string): Chains {
    if streamId in chains then chains else chains[streamId := []]
  }

  lemma EnsureChainKeeps(w: Sealing, l: Ledger, chains: Chains, streamId: string)
    ensures StoredRep(w, l, chains) ==> StoredRep(w, l, EnsureChain(chains, streamId))
    ensures LocatedRep(l, chains) ==> LocatedRep(l, EnsureChain(chains, streamId))
  {
    hide StoredAt;
    var chains' := EnsureChain(chains, streamId);
    if StoredRep(w, l, chains) {
      forall s, i | s in chains' && 0 <= i < |chains'[s]| ensures StoredAt(w, l, chains'[s], s, i) {
        assert s in chains && chains'[s] == chains[s];
      }
    }
    if LocatedRep(l, chains) {
      forall id | id in l.events ensures Located(l, chains', id) {
        assert Located(l, chains, id);
      }
    }
  }

  lemma EnsureStreamKeeps(w: Sealing, l: Ledger, chains: Chains, streamId: string)
    requires Represents(w, l, chains)
    ensures Represents(w, EnsureStream(l, streamId), EnsureChain(chains, streamId))
    ensures IndexClosed(EnsureStream(l, streamId))
  {
    hide StoredRep, LocatedRep;
    EnsureChainKeeps(w, l, chains, streamId);
    StoredIgnoresHeads(w, l, EnsureStream(l, streamId), EnsureChain(chains, streamId));
  }

  /** The next sequence number of a locked stream is never taken. */
  lemma NextSequenceFree(w: Sealing, l: Ledger, chains: Chains, streamId: string)
    requires LocatedRep(l, chains) && streamId in chains
    ensures !SequenceTaken(l, streamId, |chains[streamId]| + 1)
  {
    forall id | id in l.events
      ensures !(l.events[id].streamId == streamId && l.events[id].sequence == |chains[streamId]| + 1)
    {
      assert Located(l, chains, id);
    }
  }

  /** What recovery finds for an event of a represented ledger. */
  lemma RecoverFinds(db: Database, w: Sealing, l: Ledger, chains: Chains, d: Draft, id: string)
    returns (s: StoredEvent)
    requires Lawful(w) && ReadsAll(db) && StoredRep(w, l, chains) && LocatedRep(l, chains) && id in l.events
    ensures s.envelope.eventId == id
    ensures s.envelope.streamId in chains && 1 <= s.envelope.sequence <= |chains[s.envelope.streamId]|
    ensures chains[s.envelope.streamId][s.envelope.sequence - 1] == s
    ensures StoredRows(w, l, s) && Rebuild(w, l.events[id], db.read(l.refs, id)) == Some(s)
    ensures ExistingIdentity(w, l.events[id], db.read(l.refs, id)) == Some(EnvelopeIdentity(s.envelope))
    ensures Recover(db, w, l, d, id)
         == if EnvelopeIdentity(s.envelope) == DraftIdentity(d) then Ok(Outcome(s, false))
            else Err(IdempotencyConflict(DraftKey(d)))
  {
    var row := l.events[id];
    assert Located(l, chains, id);
    s := chains[row.streamId][row.sequence - 1];
    assert StoredAt(w, l, chains[row.streamId], row.streamId, row.sequence - 1);
    var read := db.read(l.refs, id);
    assert Enumerates(read, l.refs, id);
    assert Enumerates(read, RefRowsOf(s), id) by {
      forall r ensures r in read <==> RefRow(id, r) in RefRowsOf(s) {
        assert RefRow(id, r) in l.refs <==> r in s.envelope.refs;
      }
    }
    RowsRebuildSealedEvent(w, s, read);
    StoredIdentity(w, s, read);
  }

  function EnvelopeIdentity(e: Envelope): Identity {
    Identity(e.meta, e.streamId, e.documents, e.idempotencyKey, ClaimsOf(e.refs))
  }

  lemma InsertedRowsStored(w: Sealing, l: Ledger, sealed: StoredEvent)
    requires RefsOwned(l) && WellSealed(w, sealed) && sealed.envelope.eventId !in l.events
    ensures StoredRows(w, InsertRows(w, l, sealed), sealed)
  {
    hide WellSealed;
    var l' := InsertRows(w, l, sealed);
    var id := sealed.envelope.eventId;
    forall r ensures RefRow(id, r) in l'.refs <==> r in sealed.envelope.refs {
      assert RefRow(id, r) !in l.refs;
    }
  }

  lemma InsertKeepsRows(w: Sealing, l: Ledger, sealed: StoredEvent, s: StoredEvent)
    requires StoredRows(w, l, s) && sealed.envelope.eventId !in l.events
    ensures StoredRows(w, InsertRows(w, l, sealed), s)
  {
    hide WellSealed;
    var l' := InsertRows(w, l, sealed);
    var id := s.envelope.eventId;
    forall r ensures RefRow(id, r) in l'.refs <==> r in s.envelope.refs {
      assert RefRow(id, r) in l.refs <==> r in s.envelope.refs;
    }
  }

  lemma InsertKeepsStored(w: Sealing, l: Ledger, chains: Chains, streamId: string, sealed: StoredEvent)
    requires StoredRep(w, l, chains) && RefsOwned(l) && streamId in chains
    requires sealed.envelope.eventId !in l.events && sealed.envelope.streamId == streamId
    requires sealed.envelope.sequence == |chains[streamId]| + 1
    requires sealed.envelope.previous == Link(chains[streamId], |chains[streamId]|) && WellSealed(w, sealed)
    ensures StoredRep(w, InsertRows(w, l, sealed), AppendTo(chains, streamId, sealed))
  {
    var chains' := AppendTo(chains, streamId, sealed);
    hide StoredRows;
    var l' := InsertRows(w, l, sealed);
    InsertedRowsStored(w, l, sealed);
    forall s, i | s in chains' && 0 <= i < |chains'[s]| ensures StoredAt(w, l', chains'[s], s, i) {
      if !(s == streamId && i == |chains[streamId]|) {
        assert StoredAt(w, l, chains[s], s, i);
        InsertKeepsRows(w, l, sealed, chains[s][i]);
      }
    }
  }

  function AppendTo(chains: Chains, streamId: string, sealed: StoredEvent): Chains
    requires streamId in chains
  {
    chains[streamId := chains[streamId] + [sealed]]
  }

  lemma InsertKeepsLocated(w: Sealing, l: Ledger, chains: Chains, streamId: string, sealed: StoredEvent)
    requires LocatedRep(l, chains) && streamId in chains
    requires sealed.envelope.streamId == streamId && sealed.envelope.sequence == |chains[streamId]| + 1
    ensures LocatedRep(InsertRows(w, l, sealed), AppendTo(chains, streamId, sealed))
  {
    var l' := InsertRows(w, l, sealed);
    var chains' := AppendTo(chains, streamId, sealed);
    forall id | id in l'.events ensures Located(l', chains', id) {
      if id != sealed.envelope.eventId { assert Located(l, chains, id); }
    }
  }

  lemma InsertKeepsIndex(w: Sealing, l: Ledger, sealed: StoredEvent)
    requires IndexExact(l) && RefsOwned(l)
    requires sealed.envelope.eventId !in l.events && RowKey(RowOf(w, sealed)) !in l.index
    ensures IndexExact(InsertRows(w, l, sealed)) && RefsOwned(InsertRows(w, l, sealed))
  {}

  lemma InsertKeeps(w: Sealing, l: Ledger, chains: Chains, streamId: string, sealed: StoredEvent)
    requires Represents(w, l, chains) && streamId in chains
    requires sealed.envelope.eventId !in l.events && sealed.envelope.streamId == streamId
    requires RowKey(RowOf(w, sealed)) !in l.index
    requires sealed.envelope.sequence == |chains[streamId]| + 1
    requires sealed.envelope.previous == Link(chains[streamId], |chains[streamId]|) && WellSealed(w, sealed)
    ensures var state := StreamState(|chains[streamId]| + 1, Some(sealed.envelope.eventId), Some(sealed.eventHash));
            Represents(w, WithHead(InsertRows(w, l, sealed), streamId, state), AppendTo(chains, streamId, sealed))
  {
    hide StoredAt, Located, IndexExact, RefsOwned, WellSealed;
    var chains' := AppendTo(chains, streamId, sealed);
    var state := StreamState(|chains[streamId]| + 1, Some(sealed.envelope.eventId), Some(sealed.eventHash));
    InsertKeepsStored(w, l, chains, streamId, sealed);
    InsertKeepsLocated(w, l, chains, streamId, sealed);
    InsertKeepsIndex(w, l, sealed);
    StoredIgnoresHeads(w, InsertRows(w, l, sealed), WithHead(InsertRows(w, l, sealed), streamId, state), chains');
  }

  /** The chains after one successful append. */
  function NextChains(chains: Chains, streamId: string, out: Outcome): Chains {
    var chains1 := EnsureChain(chains, streamId);
    if out.created then AppendTo(chains1, streamId, out.stored) else chains1
  }

  /** The result of an append is stored under the draft's key and holds the draft's identity. */
  ghost predicate Holds(w: Sealing, l: Ledger, d: Draft, stored: StoredEvent) {
    && EnvelopeIdentity(stored.envelope) == DraftIdentity(d)
    && StoredRows(w, l, stored)
    && DraftKey(d) in l.index && l.index[DraftKey(d)] == stored.envelope.eventId
  }

  lemma RecoverHolds(db: Database, w: Sealing, l: Ledger, chains: Chains, d: Draft, id: string)
    requires Lawful(w) && ReadsAll(db) && StoredRep(w, l, chains) && LocatedRep(l, chains) && IndexExact(l)
    requires id in l.events && Recover(db, w, l, Canonicalize(d), id).Ok?
    ensures Holds(w, l, d, Recover(db, w, l, Canonicalize(d), id).value.stored)
    ensures !Recover(db, w, l, Canonicalize(d), id).value.created
  {
    hide StoredRep, LocatedRep, ExistingIdentity, Rebuild;
    var s := RecoverFinds(db, w, l, chains, Canonicalize(d), id);
    CanonicalIdentity(d);
    assert EnvelopeIdentity(s.envelope) == DraftIdentity(d);
    assert RowKey(RowOf(w, s)) == DraftKey(d);
  }

  lemma CreateHolds(w: Sealing, l: Ledger, chains: Chains, ev: ResolvedEvent, sealed: StoredEvent)
    requires Represents(w, l, chains) && ev.draft.streamId in chains
    requires var h := l.heads[ev.draft.streamId];
             Seal(w, Canonicalize(ev.draft), ev.refs, h.lastSequence + 1, h.lastHash) == Some(sealed)
    requires sealed.envelope.eventId !in l.events && RowKey(RowOf(w, sealed)) !in l.index
    ensures var state := StreamState(sealed.envelope.sequence, Some(sealed.envelope.eventId), Some(sealed.eventHash));
            Represents(w, WithHead(InsertRows(w, l, sealed), ev.draft.streamId, state),
                       AppendTo(chains, ev.draft.streamId, sealed))
    ensures Holds(w, InsertRows(w, l, sealed), ev.draft, sealed)
  {
    hide StoredRep, LocatedRep, IndexExact, RefsOwned, WellSealed;
    var h := l.heads[ev.draft.streamId];
    SealIsWellSealed(w, ev.draft, ev.refs, h.lastSequence + 1, h.lastHash);
    assert HeadMatches(h, chains[ev.draft.streamId]);
    assert StoredRows(w, InsertRows(w, l, sealed), sealed) by { InsertedRowsStored(w, l, sealed); }
    CanonicalIdentity(ev.draft);
    InsertKeeps(w, l, chains, ev.draft.streamId, sealed);
  }

  /** `_insert_or_recover` against the true state of a locked stream. */
  lemma InsertStepKeeps(db: Database, w: Sealing, l: Ledger, chains: Chains, ev: ResolvedEvent)
    requires Lawful(w) && ReadsAll(db) && Represents(w, l, chains) && ev.draft.streamId in chains && IndexClosed(l)
    requires InsertStep(db, w, l, StateOf(l.heads[ev.draft.streamId]), ev).Ok?
    ensures var (l', state, out) := InsertStep(db, w, l, StateOf(l.heads[ev.draft.streamId]), ev).value;
            && (out.created ==> Represents(w, WithHead(l', ev.draft.streamId, state),
                AppendTo(chains, ev.draft.streamId, out.stored)))
            && (!out.created ==> l' == l && state == StateOf(l.heads[ev.draft.streamId]))
            && Holds(w, l', ev.draft, out.stored)
  {
    hide StoredRep, LocatedRep, HeadMatches, RefsOwned, Holds, Recover, InsertRows;
    var draft := Canonicalize(ev.draft);
    var state := StateOf(l.heads[ev.draft.streamId]);
    var sealed := Seal(w, draft, ev.refs, state.sequence + 1, state.headHash).value;
    var row := RowOf(w, sealed);
    if row.eventId in l.events && (RowKey(row) !in l.index || db.namesPrimaryKey(l.events, row)) {
      RecoverHolds(db, w, l, chains, ev.draft, row.eventId);
    } else if RowKey(row) in l.index {
      RecoverHolds(db, w, l, chains, ev.draft, l.index[RowKey(row)]);
    } else {
      CreateHolds(w, l, chains, ev, sealed);
    }
  }

  /** One append keeps the invariant; its result is stored, and holds the draft's identity. */
  lemma AppendOneKeeps(db: Database, w: Sealing, l: Ledger, chains: Chains, ev: ResolvedEvent)
    requires Lawful(w) && ReadsAll(db) && Represents(w, l, chains) && IndexClosed(l)
    requires AppendOne(db, w, l, ev).Ok?
    ensures var (l', out) := AppendOne(db, w, l, ev).value;
            && Represents(w, l', NextChains(chains, ev.draft.streamId, out))
            && Holds(w, l', ev.draft, out.stored)
  {
    hide StoredRep, LocatedRep, HeadMatches, IndexExact, RefsOwned, InsertStep, IndexClosed, EnvelopeIdentity;
    hide DraftIdentity, RowOf;
    var streamId := ev.draft.streamId;
    var locked := EnsureStream(l, streamId);
    EnsureStreamKeeps(w, l, chains, streamId);
    InsertStepKeeps(db, w, locked, EnsureChain(chains, streamId), ev);
    var (l1, state, out) := InsertStep(db, w, locked, StateOf(locked.heads[streamId]), ev).value;
    if !out.created {
      assert WithHead(l1, streamId, state).heads == locked.heads;
    }
  }

  lemma CanonicalIdentity(d: Draft)
    ensures DraftIdentity(Canonicalize(d)) == DraftIdentity(d)
  {
    ClaimsOrdered();
    SortSorts(d.claims, ClaimBefore());
    SortOfSorted(Sort(d.claims, ClaimBefore()));
  }

  lemma {:induction false} SortOfSorted(s: seq<Claim>)
    requires Sorted(s, ClaimBefore())
    ensures Sort(s, ClaimBefore()) == s
  {
    if s != [] {
      SortOfSorted(s[1..]);
      if |s| > 1 { assert !ClaimBefore()(s[1], s[0]); }
      assert Insert(s[0], s[1..], ClaimBefore()) == [s[0]] + s[1..];
    }
  }
}

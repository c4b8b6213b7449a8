/** What one idempotent append decides, told by the rows: which of its answers an event gets, exactly, and what
    exactly a created event adds. */
module LedgerDecisions {
  import opened Orders
  import opened LedgerTables
  import opened LedgerAppend
  import opened LedgerHistory
  import opened LedgerSession

  /** SAME DRAFT. Two drafts are materially the same iff everything but the event ID and the order of the claims
      is. */
  lemma SameDraftExactly(a: Draft, b: Draft)
    requires DistinctClaims(a.claims)
    ensures DraftIdentity(a) == DraftIdentity(b)
            <==> && a.meta == b.meta && a.streamId == b.streamId && a.documents == b.documents
                 && a.idempotencyKey == b.idempotencyKey && multiset(a.claims) == multiset(b.claims)
  {
    hide Sort;
    ClaimsOrdered();
    DistinctComparable(a.claims, []);
    SortElements(a.claims, ClaimBefore());
    SortElements(b.claims, ClaimBefore());
    if multiset(a.claims) == multiset(b.claims) {
      SortIsOrderIndependent(a.claims, b.claims, ClaimBefore());
    }
  }

  /** The producer has used the idempotency key: another producer's use of the same key does not count. */
  predicate KeyUsed(l: Ledger, producerId: string, idempotencyKey: string) {
    exists id :: id in l.events && l.events[id].producerId == producerId
      && l.events[id].idempotencyKey == idempotencyKey
  }

  predicate Taken(l: Ledger, d: Draft) {
    KeyUsed(l, d.documents.producerId, d.idempotencyKey)
  }

  /** The draft itself is stored. */
  ghost predicate StoredAlready(w: Sealing, l: Ledger, d: Draft) {
    exists stored :: Holds(w, l, d, stored)
  }

  predicate StreamClosed(l: Ledger, streamId: string) {
    streamId in l.heads && l.heads[streamId].quarantined
  }

  /** Its reports name refs, its stream is active and its refs are one per claim. */
  predicate Acceptable(l: Ledger, ev: ResolvedEvent) {
    ReportsKnown(ev) && !StreamClosed(l, ev.draft.streamId) && RefsMatch(Canonicalize(ev.draft).claims, ev.refs)
  }

  lemma TakenIsIndexed(l: Ledger, d: Draft)
    requires IndexExact(l)
    ensures Taken(l, d) <==> DraftKey(d) in l.index
  {
    if DraftKey(d) in l.index {
      var id := l.index[DraftKey(d)];
      assert RowKey(l.events[id]) == DraftKey(d);
    }
    if Taken(l, d) {
      var id :| id in l.events && l.events[id].producerId == d.documents.producerId
        && l.events[id].idempotencyKey == d.idempotencyKey;
      assert RowKey(l.events[id]) == DraftKey(d);
    }
  }

  /** DECIDED. Every answer, and when it is given: an unknown report, a quarantined stream, refs that do not match,
      in that order; then, if the producer has used the key, the stored event unless it holds another draft; and
      else a new event. */
  lemma AppendIsDecided(db: Database, w: Sealing, l: Ledger, chains: Chains, ev: ResolvedEvent)
    requires Lawful(w) && ReadsAll(db) && Represents(w, l, chains) && IndexClosed(l) && IdConsistent(l, ev.draft)
    ensures var r, d := AppendOne(db, w, l, ev), ev.draft;
            && (r == Err(UnknownReport) <==> !ReportsKnown(ev))
            && (r == Err(StreamQuarantined(d.streamId)) <==> ReportsKnown(ev) && StreamClosed(l, d.streamId))
            && (r == Err(SealRefused) <==>
                  && ReportsKnown(ev) && !StreamClosed(l, d.streamId)
                  && !RefsMatch(Canonicalize(d).claims, ev.refs))
            && (r == Err(IdempotencyConflict((d.documents.producerId, d.idempotencyKey))) <==>
                  Acceptable(l, ev) && Taken(l, d) && !StoredAlready(w, l, d))
            && (r.Ok? && !r.value.1.created <==> Acceptable(l, ev) && StoredAlready(w, l, d))
            && (r.Ok? && r.value.1.created <==> Acceptable(l, ev) && !Taken(l, d))
  {
    hide Represents, IndexClosed, ReportsKnown, RefsMatch, Taken, StoredAlready, InsertStep, IdConsistent;
    var d := ev.draft;
    var locked := EnsureStream(l, d.streamId);
    EnsureStreamKeeps(w, l, chains, d.streamId);
    EnsuredRows(l, ev);
    RepresentsParts(w, l, chains);
    TakenIsIndexed(l, d);
    if Acceptable(l, ev) {
      if Taken(l, d) {
        TakenStep(db, w, l, chains, ev);
      } else {
        NotHeld(w, l, d);
        FreshStep(db, w, locked, EnsureChain(chains, d.streamId), ev);
      }
    } else if ReportsKnown(ev) && !StreamClosed(l, d.streamId) {
      UnsealedStep(db, w, locked, StateOf(locked.heads[d.streamId]), ev);
    }
  }

  lemma NotHeld(w: Sealing, l: Ledger, d: Draft)
    requires DraftKey(d) !in l.index
    ensures !StoredAlready(w, l, d)
  {
    hide StoredRows, EnvelopeIdentity, DraftIdentity;
  }

  lemma UnsealedStep(db: Database, w: Sealing, l: Ledger, state: StreamState, ev: ResolvedEvent)
    requires IndexClosed(l) && !RefsMatch(Canonicalize(ev.draft).claims, ev.refs)
    ensures InsertStep(db, w, l, state, ev) == Err(SealRefused)
  {
    hide RefsMatch;
  }

  /** With the key used, an insert recovers the event stored under it. */
  lemma TakenInserts(db: Database, w: Sealing, l: Ledger, state: StreamState, ev: ResolvedEvent)
    requires IndexExact(l) && IndexClosed(l) && IdConsistent(l, ev.draft) && DraftKey(ev.draft) in l.index
    requires RefsMatch(Canonicalize(ev.draft).claims, ev.refs)
    ensures var found := Recover(db, w, l, Canonicalize(ev.draft), l.index[DraftKey(ev.draft)]);
            InsertStep(db, w, l, state, ev) == if found.Ok? then Ok((l, state, found.value)) else Err(found.error)
  {
    hide RefsMatch, Recover, InsertRows, SequenceTaken;
    var d := ev.draft;
    if d.eventId in l.events { assert l.index[RowKey(l.events[d.eventId])] == d.eventId; }
  }

  /** What the key of a draft finds decides whether it is stored. */
  lemma HeldByItsKey(db: Database, w: Sealing, l: Ledger, d: Draft, s: StoredEvent)
    requires Lawful(w) && ReadsAll(db) && StoredRows(w, l, s)
    requires DraftKey(d) in l.index && l.index[DraftKey(d)] == s.envelope.eventId
    ensures StoredAlready(w, l, d) <==> EnvelopeIdentity(s.envelope) == DraftIdentity(d)
  {
    hide StoredRows, EnvelopeIdentity, DraftIdentity;
    if EnvelopeIdentity(s.envelope) == DraftIdentity(d) { assert Holds(w, l, d, s); }
    if stored :| Holds(w, l, d, stored) { SameRowsSameEvent(db, w, l, stored, s); }
  }

  /** A used key: the stored event, or a conflict. */
  lemma TakenStep(db: Database, w: Sealing, l: Ledger, chains: Chains, ev: ResolvedEvent)
    requires Lawful(w) && ReadsAll(db) && Represents(w, l, chains) && IndexClosed(l) && IdConsistent(l, ev.draft)
    requires Acceptable(l, ev) && DraftKey(ev.draft) in l.index
    ensures var r := AppendOne(db, w, l, ev);
            if StoredAlready(w, l, ev.draft) then r.Ok? && !r.value.1.created
            else r == Err(IdempotencyConflict(DraftKey(ev.draft)))
  {
    hide Represents, IndexClosed, ReportsKnown, RefsMatch, Recover, InsertStep, StoredAlready, IdConsistent;
    hide ExistingIdentity, Rebuild, EnvelopeIdentity, DraftIdentity, StoredRows, EnsureStream, EnsureChain;
    hide SameRows;
    var d := ev.draft;
    var locked, chains' := EnsureStream(l, d.streamId), EnsureChain(chains, d.streamId);
    EnsureStreamKeeps(w, l, chains, d.streamId);
    EnsuredRows(l, ev);
    RepresentsParts(w, locked, chains');
    var s := RecoverFinds(db, w, locked, chains', Canonicalize(d), locked.index[DraftKey(d)]);
    CanonicalIdentity(d);
    StoredRowsAlike(w, locked, l, s);
    HeldByItsKey(db, w, l, d, s);
    TakenInserts(db, w, locked, StateOf(locked.heads[d.streamId]), ev);
  }

  predicate SameRows(a: Ledger, b: Ledger) {
    a.events == b.events && a.index == b.index && a.refs == b.refs
  }

  /** Creating a missing stream row touches nothing else. */
  lemma EnsuredRows(l: Ledger, ev: ResolvedEvent)
    ensures var locked := EnsureStream(l, ev.draft.streamId);
            && SameRows(l, locked) && SameRows(locked, l) && locked.index == l.index
            && (IdConsistent(l, ev.draft) ==> IdConsistent(locked, ev.draft))
            && ev.draft.streamId in locked.heads
            && locked.heads[ev.draft.streamId].quarantined == StreamClosed(l, ev.draft.streamId)
  {}

  lemma StoredRowsAlike(w: Sealing, a: Ledger, b: Ledger, s: StoredEvent)
    requires StoredRows(w, a, s) && SameRows(a, b)
    ensures StoredRows(w, b, s)
  {
    hide WellSealed;
  }

  /** A new key and, so, a new event ID: the next event of the stream. */
  lemma FreshStep(db: Database, w: Sealing, l: Ledger, chains: Chains, ev: ResolvedEvent)
    requires Represents(w, l, chains) && IndexClosed(l) && IdConsistent(l, ev.draft)
    requires ev.draft.streamId in l.heads && DraftKey(ev.draft) !in l.index
    requires RefsMatch(Canonicalize(ev.draft).claims, ev.refs)
    ensures ev.draft.eventId !in l.events
    ensures var head := l.heads[ev.draft.streamId];
            var sealed := Seal(w, Canonicalize(ev.draft), ev.refs, head.lastSequence + 1, head.lastHash);
            && sealed.Some?
            && InsertStep(db, w, l, StateOf(head), ev)
               == Ok((InsertRows(w, l, sealed.value),
                      StreamState(head.lastSequence + 1, Some(ev.draft.eventId), Some(sealed.value.eventHash)),
                      Outcome(sealed.value, true)))
  {
    hide StoredRep, LocatedRep, RefsOwned, RefsMatch, SequenceTaken, InsertRows;
    var head := l.heads[ev.draft.streamId];
    assert HeadMatches(head, chains[ev.draft.streamId]);
    NextSequenceFree(w, l, chains, ev.draft.streamId);
    assert forall id :: id in l.events ==> RowKey(l.events[id]) in l.index;
  }

  /** CREATED. What a created event is and what it adds: the draft, next in its stream and linked to the head, with
      its own digests and exactly the given refs of its claims; its row, its refs, its index entry and the moved
      head, and nothing else. */
  lemma CreatedExactly(db: Database, w: Sealing, l: Ledger, chains: Chains, ev: ResolvedEvent)
    requires Represents(w, l, chains) && IndexClosed(l) && IdConsistent(l, ev.draft)
    requires Acceptable(l, ev) && !Taken(l, ev.draft)
    ensures AppendOne(db, w, l, ev).Ok?
    ensures var (l', out) := AppendOne(db, w, l, ev).value;
            var d, e, hash := ev.draft, out.stored.envelope, out.stored.eventHash;
            var head := if d.streamId in l.heads then l.heads[d.streamId] else EmptyHead;
            && out.created && d.eventId !in l.events
            && e == Envelope(d.eventId, d.meta, d.streamId, head.lastSequence + 1, d.documents, d.idempotencyKey,
                             e.refs, w.payloadHash(d.documents.payload), head.lastHash)
            && hash == w.eventHash(e)
            && ClaimsOf(e.refs) == Canonicalize(d).claims && (forall r :: r in e.refs ==> r in ev.refs)
            && l'.events == l.events[d.eventId := RowOf(w, out.stored)]
            && l'.index == l.index[(d.documents.producerId, d.idempotencyKey) := d.eventId]
            && l'.refs == l.refs + RefRowsOf(out.stored)
            && l'.heads == l.heads[d.streamId := Head(e.sequence, Some(d.eventId), Some(hash), false)]
  {
    hide Represents, IndexClosed, ReportsKnown, RefsMatch, Taken, InsertStep, IdConsistent, RefRowsOf, ClaimsOf;
    hide InClaimOrder, IndexExact, SameRows, StreamClosed, Sort;
    var d := ev.draft;
    var locked := EnsureStream(l, d.streamId);
    EnsureStreamKeeps(w, l, chains, d.streamId);
    EnsuredRows(l, ev);
    RepresentsParts(w, l, chains);
    TakenIsIndexed(l, d);
    FreshStep(db, w, locked, EnsureChain(chains, d.streamId), ev);
    var head := locked.heads[d.streamId];
    SealIsWellSealed(w, d, ev.refs, head.lastSequence + 1, head.lastHash);
    OrderedRefsAreGiven(Canonicalize(d).claims, ev.refs);
  }

  lemma OrderedRefsAreGiven(claims: seq<Claim>, refs: seq<Ref>)
    requires RefsMatch(claims, refs)
    ensures forall r :: r in InClaimOrder(claims, refs) ==> r in refs
  {}

  // ---- whole batches ---------------------------------------------------------------------------

  /** No earlier item uses the key of this one for another draft. */
  ghost predicate Unconflicted(batch: seq<ResolvedEvent>, i: nat)
    requires i < |batch|
  {
    forall j :: 0 <= j < i && DraftKey(batch[j].draft) == DraftKey(batch[i].draft) ==>
      DraftIdentity(batch[j].draft) == DraftIdentity(batch[i].draft)
  }

  predicate Repeated(batch: seq<ResolvedEvent>, i: nat)
    requires i < |batch|
  {
    exists j :: 0 <= j < i && DraftKey(batch[j].draft) == DraftKey(batch[i].draft)
  }

  /** An item fits the ledger as it is before the batch, and the items before it. */
  ghost predicate Fits(w: Sealing, l: Ledger, batch: seq<ResolvedEvent>, i: nat)
    requires i < |batch|
  {
    && Acceptable(l, batch[i]) && Unconflicted(batch, i)
    && (Taken(l, batch[i].draft) ==> StoredAlready(w, l, batch[i].draft))
  }

  lemma OneClosedStays(db: Database, w: Sealing, l: Ledger, ev: ResolvedEvent, s: string)
    requires IndexClosed(l) && AppendOne(db, w, l, ev).Ok?
    ensures StreamClosed(AppendOne(db, w, l, ev).value.0, s) <==> StreamClosed(l, s)
  {
    hide InsertStep, ReportsKnown;
    var locked := EnsureStream(l, ev.draft.streamId);
    InsertKeepsHeads(db, w, locked, StateOf(locked.heads[ev.draft.streamId]), ev);
  }

  lemma {:induction false} ClosedStays(db: Database, w: Sealing, l: Ledger, batch: seq<ResolvedEvent>, s: string)
    requires IndexClosed(l) && Fold(db, w, l, batch).Ok?
    ensures StreamClosed(Fold(db, w, l, batch).value.0, s) <==> StreamClosed(l, s)
  {
    hide IndexClosed, AppendOne, StreamClosed;
    if batch != [] {
      var n := |batch| - 1;
      ClosedStays(db, w, l, batch[..n], s);
      OneClosedStays(db, w, Fold(db, w, l, batch[..n]).value.0, batch[n], s);
    }
  }

  /** The keys used after a batch: those used before, and the batch's. */
  lemma TakenAfter(db: Database, w: Sealing, l: Ledger, chains: Chains, batch: seq<ResolvedEvent>, d: Draft)
    requires Lawful(w) && ReadsAll(db) && Represents(w, l, chains) && IndexClosed(l) && Fold(db, w, l, batch).Ok?
    ensures Taken(Fold(db, w, l, batch).value.0, d)
            <==> Taken(l, d) || exists j :: 0 <= j < |batch| && DraftKey(batch[j].draft) == DraftKey(d)
  {
    hide Fold, Represents, IndexClosed, StoredRows, EnvelopeIdentity, DraftIdentity;
    var chains' := FoldKeeps(db, w, l, chains, batch);
    var (l', outs) := Fold(db, w, l, batch).value;
    FoldGrows(db, w, l, batch);
    FoldRowsFrom(db, w, l, batch);
    RepresentsParts(w, l', chains');
    RepresentsParts(w, l, chains);
    TakenIsIndexed(l', d);
    if Taken(l', d) {
      var id :| id in l'.events && l'.events[id].producerId == d.documents.producerId
        && l'.events[id].idempotencyKey == d.idempotencyKey;
      if id in l.events { assert l.events[id] == l'.events[id]; }
    }
    if j :| 0 <= j < |batch| && DraftKey(batch[j].draft) == DraftKey(d) {
      assert Holds(w, l', batch[j].draft, outs[j].stored);
    }
  }

  /** What is stored under a key stays what is stored under it. */
  lemma StoredAfter(db: Database, w: Sealing, l: Ledger, chains: Chains, l': Ledger, d: Draft)
    requires Represents(w, l, chains) && Grows(l, l') && Taken(l, d)
    ensures StoredAlready(w, l', d) <==> StoredAlready(w, l, d)
  {
    hide Represents, StoredRows, EnvelopeIdentity, DraftIdentity, Holds, Grows, Taken;
    RepresentsParts(w, l, chains);
    TakenIsIndexed(l, d);
    if stored :| Holds(w, l, d, stored) { HoldsPersists(w, l, l', d, stored); }
    if stored :| Holds(w, l', d, stored) {
      assert Holds(w, l, d, stored) by { HeldEarlier(w, l, l', d, stored); }
    }
  }

  lemma HeldEarlier(w: Sealing, l: Ledger, l': Ledger, d: Draft, stored: StoredEvent)
    requires Grows(l, l') && IndexClosed(l) && DraftKey(d) in l.index && Holds(w, l', d, stored)
    ensures Holds(w, l, d, stored)
  {
    hide WellSealed, EnvelopeIdentity, DraftIdentity, RowOf;
    var id := stored.envelope.eventId;
    assert l.index[DraftKey(d)] == id && id in l.events;
    forall r ensures RefRow(id, r) in l.refs <==> r in stored.envelope.refs {
      assert RefRow(id, r) in l'.refs <==> r in stored.envelope.refs;
    }
  }

  /** The draft of an item that repeats an earlier key is stored after the earlier ones iff it is theirs. */
  lemma StoredForRepeat(db: Database, w: Sealing, l: Ledger, d: Draft, first: Draft, stored: StoredEvent)
    requires Lawful(w) && ReadsAll(db) && Holds(w, l, first, stored) && DraftKey(first) == DraftKey(d)
    ensures StoredAlready(w, l, d) <==> DraftIdentity(first) == DraftIdentity(d)
  {
    hide StoredRows, EnvelopeIdentity, DraftIdentity, StoredAlready;
    HeldByItsKey(db, w, l, d, stored);
  }

  /** The last item fits the ledger the others leave iff it fits the one before and them. */
  lemma LastFits(db: Database, w: Sealing, l: Ledger, chains: Chains, batch: seq<ResolvedEvent>)
    requires Lawful(w) && ReadsAll(db) && Represents(w, l, chains) && IndexClosed(l) && batch != []
    requires Fold(db, w, l, batch[..|batch| - 1]).Ok?
    ensures var n, l1 := |batch| - 1, Fold(db, w, l, batch[..|batch| - 1]).value.0;
            && (Taken(l1, batch[n].draft) <==> Taken(l, batch[n].draft) || Repeated(batch, n))
            && (Fits(w, l, batch, n) <==>
                  && Acceptable(l1, batch[n])
                  && (Taken(l1, batch[n].draft) ==> StoredAlready(w, l1, batch[n].draft)))
  {
    hide Fold, Represents, IndexClosed, Holds, DraftIdentity, StoredAlready, Taken, ReportsKnown, RefsMatch;
    hide StreamClosed;
    var n := |batch| - 1;
    var before, d := batch[..n], batch[n].draft;
    var chains1 := FoldKeeps(db, w, l, chains, before);
    var (l1, outs) := Fold(db, w, l, before).value;
    FoldGrows(db, w, l, before);
    ClosedStays(db, w, l, before, d.streamId);
    TakenAfter(db, w, l, chains, before, d);
    assert Repeated(batch, n) <==> exists j :: 0 <= j < |before| && DraftKey(before[j].draft) == DraftKey(d) by {
      assert forall j :: 0 <= j < n ==> before[j] == batch[j];
    }
    if Taken(l, d) { StoredAfter(db, w, l, chains, l1, d); }
    forall j | 0 <= j < n && DraftKey(batch[j].draft) == DraftKey(d)
      ensures StoredAlready(w, l1, d) <==> DraftIdentity(batch[j].draft) == DraftIdentity(d)
    {
      assert before[j] == batch[j];
      StoredForRepeat(db, w, l1, d, batch[j].draft, outs[j].stored);
    }
  }

  lemma EarlierIds(l: Ledger, batch: seq<ResolvedEvent>)
    requires batch != [] && IdsConsistent(l, batch)
    ensures var n := |batch| - 1;
            && IdsConsistent(l, batch[..n]) && IdConsistent(l, batch[n].draft)
            && forall j :: 0 <= j < n && batch[..n][j].draft.eventId == batch[n].draft.eventId ==>
                 DraftKey(batch[..n][j].draft) == DraftKey(batch[n].draft)
  {
    hide IdConsistent;
  }

  /** The last item, once the others are appended. */
  lemma LastItem(db: Database, w: Sealing, l: Ledger, chains: Chains, batch: seq<ResolvedEvent>)
    requires Lawful(w) && ReadsAll(db) && Represents(w, l, chains) && IndexClosed(l) && IdsConsistent(l, batch)
    requires batch != [] && Fold(db, w, l, batch[..|batch| - 1]).Ok?
    ensures var n, fold := |batch| - 1, Fold(db, w, l, batch);
            && (fold.Ok? <==> Fits(w, l, batch, n))
            && (fold.Ok? ==>
                  && fold.value.1[..n] == Fold(db, w, l, batch[..n]).value.1
                  && (fold.value.1[n].created <==> !Taken(l, batch[n].draft) && !Repeated(batch, n)))
  {
    hide Represents, IndexClosed, AppendOne, Acceptable, Taken, StoredAlready, IdConsistent, Fits, Repeated;
    hide IdsConsistent, Holds, DraftKey;
    var n := |batch| - 1;
    var before := batch[..n];
    var chains1 := FoldKeeps(db, w, l, chains, before);
    var (l1, outs) := Fold(db, w, l, before).value;
    EarlierIds(l, batch);
    IdsStayConsistent(db, w, l, batch, before, batch[n].draft);
    LastFits(db, w, l, chains, batch);
    AppendIsDecided(db, w, l1, chains1, batch[n]);
  }

  /** BATCHES, exactly. A batch appended one event at a time succeeds iff every item, told by the ledger before the
      batch and the items before it, is acceptable and its key unused or used for the very same draft; and it then
      creates exactly the items whose key nobody used before. */
  lemma {:induction false} BatchCommitsExactly(db: Database, w: Sealing, l: Ledger, chains: Chains,
                                               batch: seq<ResolvedEvent>)
    requires Lawful(w) && ReadsAll(db) && Represents(w, l, chains) && IndexClosed(l) && IdsConsistent(l, batch)
    ensures Fold(db, w, l, batch).Ok? <==> forall i :: 0 <= i < |batch| ==> Fits(w, l, batch, i)
    ensures Fold(db, w, l, batch).Ok? ==> forall i :: 0 <= i < |batch| ==>
              (Fold(db, w, l, batch).value.1[i].created <==> !Taken(l, batch[i].draft) && !Repeated(batch, i))
  {
    hide Represents, IndexClosed, Fits, Taken, IdConsistent, Repeated, Fold;
    if batch == [] {
      FoldEmpty(db, w, l);
    } else {
      var n := |batch| - 1;
      var before := batch[..n];
      EarlierIds(l, batch);
      BatchCommitsExactly(db, w, l, chains, before);
      forall i | 0 <= i < n
        ensures Fits(w, l, before, i) <==> Fits(w, l, batch, i)
        ensures Repeated(before, i) <==> Repeated(batch, i)
        ensures before[i] == batch[i]
      {
        PrefixItem(w, l, batch, n, i);
      }
      if Fold(db, w, l, before).Ok? {
        LastItem(db, w, l, chains, batch);
        var fold := Fold(db, w, l, batch);
        if fold.Ok? {
          forall i | 0 <= i < n ensures fold.value.1[i] == Fold(db, w, l, before).value.1[i] {
            assert fold.value.1[..n][i] == fold.value.1[i];
          }
        }
      } else {
        PrefixFails(db, w, l, batch, n);
      }
    }
  }

  lemma PrefixItem(w: Sealing, l: Ledger, batch: seq<ResolvedEvent>, n: nat, i: nat)
    requires i < n <= |batch|
    ensures Fits(w, l, batch[..n], i) <==> Fits(w, l, batch, i)
    ensures Repeated(batch[..n], i) <==> Repeated(batch, i)
  {
    hide Acceptable, Taken, StoredAlready, DraftIdentity;
    assert forall j :: 0 <= j <= i ==> batch[..n][j] == batch[j];
  }
}

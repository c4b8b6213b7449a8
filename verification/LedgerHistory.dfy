/** Histories of the ledger: every ledger reachable by committed and rolled-back batches is a set of
    hash-chained streams, what is stored never changes, and a committed batch can be replayed. */
module LedgerHistory {
  import opened Orders
  import opened LedgerTables
  import opened LedgerAppend

  // ---- what never changes ----------------------------------------------------------------------

  /** Rows and index entries are only ever added. */
  ghost predicate Grows(l: Ledger, l': Ledger) {
    && (forall id :: id in l.events ==> id in l'.events && l'.events[id] == l.events[id])
    && (forall id, r :: id in l.events ==> (RefRow(id, r) in l'.refs <==> RefRow(id, r) in l.refs))
    && (forall k :: k in l.index ==> k in l'.index && l'.index[k] == l.index[k])
  }

  lemma InsertStepGrows(db: Database, w: Sealing, l: Ledger, state: StreamState, ev: ResolvedEvent)
    requires IndexClosed(l) && InsertStep(db, w, l, state, ev).Ok?
    ensures Grows(l, InsertStep(db, w, l, state, ev).value.0)
  {
    hide RefsMatch, Recover;
  }

  lemma AppendOneGrows(db: Database, w: Sealing, l: Ledger, ev: ResolvedEvent)
    requires IndexClosed(l) && AppendOne(db, w, l, ev).Ok?
    ensures Grows(l, AppendOne(db, w, l, ev).value.0)
  {
    hide InsertStep;
    var locked := EnsureStream(l, ev.draft.streamId);
    InsertStepGrows(db, w, locked, StateOf(locked.heads[ev.draft.streamId]), ev);
  }

  lemma HoldsPersists(w: Sealing, l: Ledger, l': Ledger, d: Draft, stored: StoredEvent)
    requires Holds(w, l, d, stored) && Grows(l, l')
    ensures Holds(w, l', d, stored)
  {
    hide WellSealed, EnvelopeIdentity, DraftIdentity;
    var id := stored.envelope.eventId;
    forall r ensures RefRow(id, r) in l'.refs <==> r in stored.envelope.refs {
      assert RefRow(id, r) in l.refs <==> r in stored.envelope.refs;
    }
  }

  lemma GrowsTransitive(a: Ledger, b: Ledger, c: Ledger)
    requires Grows(a, b) && Grows(b, c)
    ensures Grows(a, c)
  {}

  // ---- batches ---------------------------------------------------------------------------------

  lemma {:induction false} FoldGrows(db: Database, w: Sealing, l: Ledger, batch: seq<ResolvedEvent>)
    requires IndexClosed(l) && Fold(db, w, l, batch).Ok?
    ensures Grows(l, Fold(db, w, l, batch).value.0)
  {
    hide AppendOne, IndexClosed;
    if batch != [] {
      var n := |batch| - 1;
      FoldGrows(db, w, l, batch[..n]);
      var l1 := Fold(db, w, l, batch[..n]).value.0;
      AppendOneGrows(db, w, l1, batch[n]);
      GrowsTransitive(l, l1, Fold(db, w, l, batch).value.0);
    }
  }

  /** A committed batch keeps the chains, and holds every item it reports. */
  lemma {:induction false} FoldKeeps(db: Database, w: Sealing, l: Ledger, chains: Chains, batch: seq<ResolvedEvent>)
    returns (chains': Chains)
    requires Lawful(w) && ReadsAll(db) && Represents(w, l, chains) && IndexClosed(l)
    requires Fold(db, w, l, batch).Ok?
    ensures var (l', outs) := Fold(db, w, l, batch).value;
            && Represents(w, l', chains')
            && forall i :: 0 <= i < |batch| ==> Holds(w, l', batch[i].draft, outs[i].stored)
  {
    hide AppendOne, Represents, Holds, IndexClosed;
    if batch == [] {
      chains' := chains;
    } else {
      var n := |batch| - 1;
      var chains1 := FoldKeeps(db, w, l, chains, batch[..n]);
      var (l1, outs1) := Fold(db, w, l, batch[..n]).value;
      AppendOneKeeps(db, w, l1, chains1, batch[n]);
      AppendOneGrows(db, w, l1, batch[n]);
      var (l', out) := AppendOne(db, w, l1, batch[n]).value;
      chains' := NextChains(chains1, batch[n].draft.streamId, out);
      forall i | 0 <= i < |batch| ensures Holds(w, l', batch[i].draft, Fold(db, w, l, batch).value.1[i].stored) {
        if i < n {
          assert batch[..n][i] == batch[i];
          HoldsPersists(w, l1, l', batch[i].draft, outs1[i].stored);
        }
      }
    }
  }

  // ---- reachable ledgers -----------------------------------------------------------------------

  datatype LedgerStep =
    | Submit(batch: seq<ResolvedEvent>)   // committed if it appends, rolled back whole if it does not
    | Quarantine(streamId: string)

  function ApplyStep(db: Database, w: Sealing, l: Ledger, step: LedgerStep): (l': Ledger)
    requires IndexClosed(l)
    ensures IndexClosed(l')
  {
    match step
    case Submit(batch) =>
      (match Fold(db, w, l, batch)
       case Ok((l', _)) => l'
       case Err(_) => l)
    case Quarantine(s) =>
      if s in l.heads then l.(heads := l.heads[s := l.heads[s].(quarantined := true)]) else l
  }

  /** The ledger after a history. */
  function After(db: Database, w: Sealing, history: seq<LedgerStep>): (l: Ledger)
    ensures IndexClosed(l)
  {
    if history == [] then EmptyLedger
    else ApplyStep(db, w, After(db, w, history[..|history| - 1]), history[|history| - 1])
  }

  lemma QuarantineKeeps(w: Sealing, l: Ledger, chains: Chains, s: string)
    requires Represents(w, l, chains) && s in l.heads
    ensures Represents(w, l.(heads := l.heads[s := l.heads[s].(quarantined := true)]), chains)
  {
    hide StoredRep, LocatedRep, IndexExact, RefsOwned;
    StoredIgnoresHeads(w, l, l.(heads := l.heads[s := l.heads[s].(quarantined := true)]), chains);
  }

  /** Every ledger any history reaches is a set of contiguous, hash-chained, well-sealed streams with the
      right heads, whatever batches were rolled back, replayed or repeated along the way. */
  lemma {:induction false} EveryHistoryIsChained(db: Database, w: Sealing, history: seq<LedgerStep>)
    returns (chains: Chains)
    requires Lawful(w) && ReadsAll(db)
    ensures Represents(w, After(db, w, history), chains)
  {
    hide Represents, Fold, IndexClosed;
    if history == [] {
      chains := map[];
      EmptyRepresents(w);
    } else {
      var n := |history| - 1;
      var l := After(db, w, history[..n]);
      chains := EveryHistoryIsChained(db, w, history[..n]);
      match history[n] {
        case Submit(batch) =>
          if Fold(db, w, l, batch).Ok? { chains := FoldKeeps(db, w, l, chains, batch); }
        case Quarantine(s) =>
          if s in l.heads { QuarantineKeeps(w, l, chains, s); }
      }
    }
  }

  // ---- replay ----------------------------------------------------------------------------------

  /** An event ID is fresh, or already names an event under the same key. */
  predicate IdConsistent(l: Ledger, d: Draft) {
    d.eventId in l.events ==> RowKey(l.events[d.eventId]) == DraftKey(d)
  }

  /** The rows of an event determine it. */
  lemma SameRowsSameEvent(db: Database, w: Sealing, l: Ledger, a: StoredEvent, b: StoredEvent)
    requires Lawful(w) && ReadsAll(db) && StoredRows(w, l, a) && StoredRows(w, l, b)
    requires a.envelope.eventId == b.envelope.eventId
    ensures a == b
  {
    hide WellSealed, Rebuild;
    var id := a.envelope.eventId;
    var read := db.read(l.refs, id);
    assert Enumerates(read, l.refs, id);
    forall r ensures RefRow(id, r) in RefRowsOf(a) <==> RefRow(id, r) in l.refs {
      assert RefRow(id, r) in RefRowsOf(a) <==> r in a.envelope.refs;
    }
    forall r ensures RefRow(id, r) in RefRowsOf(b) <==> RefRow(id, r) in l.refs {
      assert RefRow(id, r) in RefRowsOf(b) <==> r in b.envelope.refs;
    }
    RowsRebuildSealedEvent(w, a, read);
    RowsRebuildSealedEvent(w, b, read);
  }

  lemma ReplayRecovers(db: Database, w: Sealing, l: Ledger, chains: Chains, d: Draft, stored: StoredEvent)
    requires Lawful(w) && ReadsAll(db) && Represents(w, l, chains) && Holds(w, l, d, stored)
    ensures Recover(db, w, l, Canonicalize(d), stored.envelope.eventId) == Ok(Outcome(stored, false))
  {
    hide Represents, ExistingIdentity, Rebuild, DraftIdentity, EnvelopeIdentity;
    assert StoredRep(w, l, chains) && LocatedRep(l, chains) by { RepresentsParts(w, l, chains); }
    var s := RecoverFinds(db, w, l, chains, Canonicalize(d), stored.envelope.eventId);
    SameRowsSameEvent(db, w, l, s, stored);
    CanonicalIdentity(d);
  }

  lemma RepresentsParts(w: Sealing, l: Ledger, chains: Chains)
    requires Represents(w, l, chains)
    ensures StoredRep(w, l, chains) && LocatedRep(l, chains) && IndexExact(l) && IndexClosed(l) && HeadsRep(l, chains)
  {
    hide StoredRep, LocatedRep, HeadsRep;
  }

  /** Resubmitting a stored draft to an active stream changes nothing and returns the stored event. */
  lemma ReplayOne(db: Database, w: Sealing, l: Ledger, chains: Chains, ev: ResolvedEvent, stored: StoredEvent)
    requires Lawful(w) && ReadsAll(db) && Represents(w, l, chains) && IndexClosed(l) && Holds(w, l, ev.draft, stored)
    requires ReportsKnown(ev) && RefsMatch(Canonicalize(ev.draft).claims, ev.refs)
    requires ev.draft.streamId in l.heads && !l.heads[ev.draft.streamId].quarantined
    requires IdConsistent(l, ev.draft)
    ensures AppendOne(db, w, l, ev) == Ok((l, Outcome(stored, false)))
  {
    hide Represents, Recover, RefsMatch, ReportsKnown, DraftIdentity, EnvelopeIdentity, WellSealed;
    RepresentsParts(w, l, chains);
    ReplayRecovers(db, w, l, chains, ev.draft, stored);
    var h := l.heads[ev.draft.streamId];
    assert WithHead(l, ev.draft.streamId, StateOf(h)).heads == l.heads;
  }

  /** What a committed append needed of its event. */
  lemma AcceptedWasWellFormed(db: Database, w: Sealing, l: Ledger, ev: ResolvedEvent)
    requires IndexClosed(l) && AppendOne(db, w, l, ev).Ok?
    ensures ReportsKnown(ev) && RefsMatch(Canonicalize(ev.draft).claims, ev.refs)
  {
    hide ReportsKnown, RefsMatch, Recover;
  }

  lemma {:induction false} AllAccepted(db: Database, w: Sealing, l: Ledger, batch: seq<ResolvedEvent>)
    requires IndexClosed(l) && Fold(db, w, l, batch).Ok?
    ensures forall i :: 0 <= i < |batch| ==>
              ReportsKnown(batch[i]) && RefsMatch(Canonicalize(batch[i].draft).claims, batch[i].refs)
  {
    hide AppendOne, IndexClosed, ReportsKnown, RefsMatch;
    if batch != [] {
      var n := |batch| - 1;
      AllAccepted(db, w, l, batch[..n]);
      AcceptedWasWellFormed(db, w, Fold(db, w, l, batch[..n]).value.0, batch[n]);
      forall i | 0 <= i < |batch|
        ensures ReportsKnown(batch[i]) && RefsMatch(Canonicalize(batch[i].draft).claims, batch[i].refs)
      {
        if i < n { assert batch[..n][i] == batch[i]; }
      }
    }
  }

  function AsReplay(outs: seq<Outcome>): seq<Outcome> {
    seq(|outs|, i requires 0 <= i < |outs| => Outcome(outs[i].stored, false))
  }

  lemma {:induction false} ReplayAll(db: Database, w: Sealing, l: Ledger, chains: Chains,
                                     batch: seq<ResolvedEvent>, outs: seq<Outcome>)
    requires Lawful(w) && ReadsAll(db) && Represents(w, l, chains) && IndexClosed(l) && |outs| == |batch|
    requires forall i :: 0 <= i < |batch| ==>
               && Holds(w, l, batch[i].draft, outs[i].stored)
               && ReportsKnown(batch[i]) && RefsMatch(Canonicalize(batch[i].draft).claims, batch[i].refs)
               && batch[i].draft.streamId in l.heads && !l.heads[batch[i].draft.streamId].quarantined
               && IdConsistent(l, batch[i].draft)
    ensures Fold(db, w, l, batch) == Ok((l, AsReplay(outs)))
  {
    hide Represents, Holds, ReportsKnown, RefsMatch, IdConsistent, AppendOne, IndexClosed;
    if batch == [] {
      assert AsReplay(outs) == [];
    } else {
      var n := |batch| - 1;
      ReplayAll(db, w, l, chains, batch[..n], outs[..n]);
      ReplayOne(db, w, l, chains, batch[n], outs[n].stored);
      assert AsReplay(outs) == AsReplay(outs[..n]) + [Outcome(outs[n].stored, false)];
    }
  }

  /** REPLAY. Once a batch has committed, resubmitting it at any later time to active streams changes
      nothing and returns, item by item, the events stored then, none of them as created. */
  lemma CommittedBatchReplays(db: Database, w: Sealing, before: Ledger, chains: Chains, batch: seq<ResolvedEvent>,
                              later: Ledger, laterChains: Chains)
    requires Lawful(w) && ReadsAll(db) && Represents(w, before, chains) && IndexClosed(before)
    requires Fold(db, w, before, batch).Ok? && Grows(Fold(db, w, before, batch).value.0, later)
    requires Represents(w, later, laterChains) && IndexClosed(later)
    requires forall i :: 0 <= i < |batch| ==>
               && batch[i].draft.streamId in later.heads && !later.heads[batch[i].draft.streamId].quarantined
               && IdConsistent(later, batch[i].draft)
    ensures Fold(db, w, later, batch) == Ok((later, AsReplay(Fold(db, w, before, batch).value.1)))
  {
    hide Represents, Holds, ReportsKnown, RefsMatch, IdConsistent, Fold, IndexClosed, Grows;
    var (l', outs) := Fold(db, w, before, batch).value;
    var afterChains := FoldKeeps(db, w, before, chains, batch);
    AllAccepted(db, w, before, batch);
    forall i | 0 <= i < |batch| ensures Holds(w, later, batch[i].draft, outs[i].stored) {
      HoldsPersists(w, l', later, batch[i].draft, outs[i].stored);
    }
    ReplayAll(db, w, later, laterChains, batch, outs);
  }
}

/** `LedgerRepository.append_with_outcome` as the repository runs it: one transaction that plans the
    batch, locks every stream and then inserts or recovers event by event, updating its stream states
    in place and the head rows at the end. It is proved to do what appending the events one at a time
    does. */
module LedgerSession {
  import opened Orders
  import opened LedgerTables
  import opened LedgerAppend
  import opened LedgerHistory

  /** The first position in the batch with the same key as position `i`. */
  function FirstWithKey(batch: seq<ResolvedEvent>, i: nat): (j: nat)
    requires i < |batch|
    ensures j <= i && DraftKey(batch[j].draft) == DraftKey(batch[i].draft)
    ensures forall k :: 0 <= k < j ==> DraftKey(batch[k].draft) != DraftKey(batch[i].draft)
  {
    FirstFrom(batch, i, 0)
  }

  function FirstFrom(batch: seq<ResolvedEvent>, i: nat, from: nat): (j: nat)
    requires from <= i < |batch|
    requires forall k :: 0 <= k < from ==> DraftKey(batch[k].draft) != DraftKey(batch[i].draft)
    ensures j <= i && DraftKey(batch[j].draft) == DraftKey(batch[i].draft)
    ensures forall k :: 0 <= k < j ==> DraftKey(batch[k].draft) != DraftKey(batch[i].draft)
    decreases i - from
  {
    if DraftKey(batch[from].draft) == DraftKey(batch[i].draft) then from else FirstFrom(batch, i, from + 1)
  }

  predicate SameDraftAsFirst(batch: seq<ResolvedEvent>, i: nat)
    requires i < |batch|
  {
    DraftIdentity(batch[FirstWithKey(batch, i)].draft) == DraftIdentity(batch[i].draft)
  }

  /** No key is used by two materially different drafts of the batch. */
  ghost predicate NoInnerConflict(batch: seq<ResolvedEvent>) {
    forall i :: 0 <= i < |batch| ==> SameDraftAsFirst(batch, i)
  }

  /** The batch with each in-batch repeat standing for its first occurrence. */
  function Effective(batch: seq<ResolvedEvent>): (r: seq<ResolvedEvent>)
    ensures |r| == |batch|
  {
    seq(|batch|, i requires 0 <= i < |batch| => batch[FirstWithKey(batch, i)])
  }

  /** Event IDs that are fresh, or repeat the draft they were first used for. */
  ghost predicate IdsConsistent(l: Ledger, batch: seq<ResolvedEvent>) {
    && (forall i :: 0 <= i < |batch| ==> IdConsistent(l, batch[i].draft))
    && (forall i, j :: 0 <= i < |batch| && 0 <= j < |batch| && batch[i].draft.eventId == batch[j].draft.eventId ==>
          DraftKey(batch[i].draft) == DraftKey(batch[j].draft))
  }

  // ---- the simulation --------------------------------------------------------------------------

  /** The session's tables and stream states against the ledger of the events appended so far. */
  ghost predicate Sim(own: Ledger, state: map<string, StreamState>, spec: Ledger) {
    && own.events == spec.events && own.index == spec.index && own.refs == spec.refs
    && spec.heads.Keys <= own.heads.Keys
    && (forall s :: s in spec.heads && s !in state ==> spec.heads[s] == own.heads[s])
    && (forall s :: s in spec.heads && s in state ==> StateOf(spec.heads[s]) == state[s] && !spec.heads[s].quarantined)
    && (forall s :: s in state && s !in spec.heads ==> state[s] == StateOf(EmptyHead))
  }

  lemma InsertStepIgnoresHeads(db: Database, w: Sealing, a: Ledger, b: Ledger, state: StreamState, ev: ResolvedEvent)
    requires IndexClosed(a) && IndexClosed(b) && b == a.(heads := b.heads)
    ensures InsertStep(db, w, a, state, ev).Ok? <==> InsertStep(db, w, b, state, ev).Ok?
    ensures InsertStep(db, w, a, state, ev).Err? ==>
              InsertStep(db, w, a, state, ev).error == InsertStep(db, w, b, state, ev).error
    ensures InsertStep(db, w, a, state, ev).Ok? ==>
              var (a', sa, oa) := InsertStep(db, w, a, state, ev).value;
              var (b', sb, ob) := InsertStep(db, w, b, state, ev).value;
              sa == sb && oa == ob && b' == a'.(heads := b.heads) && a'.heads == a.heads
  {
    hide RefsMatch, ExistingIdentity, Rebuild, DraftIdentity;
  }

  /** One `_insert_or_recover` of the session is one append of the specification. */
  lemma StepSimulates(db: Database, w: Sealing, own: Ledger, state: map<string, StreamState>, spec: Ledger,
                      ev: ResolvedEvent)
    requires IndexClosed(own) && IndexClosed(spec) && Sim(own, state, spec)
    requires ev.draft.streamId in state && ReportsKnown(ev)
    ensures InsertStep(db, w, own, state[ev.draft.streamId], ev).Ok? <==> AppendOne(db, w, spec, ev).Ok?
    ensures AppendOne(db, w, spec, ev).Err? ==>
              InsertStep(db, w, own, state[ev.draft.streamId], ev).error == AppendOne(db, w, spec, ev).error
    ensures AppendOne(db, w, spec, ev).Ok? ==>
              var (own', st, out) := InsertStep(db, w, own, state[ev.draft.streamId], ev).value;
              var (spec', out') := AppendOne(db, w, spec, ev).value;
              && out == out' && own'.heads == own.heads
              && (ev.draft.streamId in own.heads ==> Sim(own', state[ev.draft.streamId := st], spec'))
              && spec'.heads.Keys == spec.heads.Keys + {ev.draft.streamId}
  {
    hide InsertStep, ReportsKnown, IndexClosed, Sim, EnsureStream, WithHead;
    var s := ev.draft.streamId;
    var locked := EnsureStream(spec, s);
    SimEnsured(own, state, spec, s);
    assert IndexClosed(locked) by { ClosedIgnoresHeads(spec, locked); }
    InsertStepIgnoresHeads(db, w, own, locked, state[s], ev);
    if InsertStep(db, w, own, state[s], ev).Ok? {
      var (own', st, out) := InsertStep(db, w, own, state[s], ev).value;
      SimMoved(own, own', state, spec, InsertStep(db, w, locked, state[s], ev).value.0, s, st);
    }
  }

  /** The stream rows of the specification and of the session, before one event. */
  lemma SimEnsured(own: Ledger, state: map<string, StreamState>, spec: Ledger, s: string)
    requires Sim(own, state, spec) && s in state
    ensures var locked := EnsureStream(spec, s);
            && s in locked.heads && StateOf(locked.heads[s]) == state[s] && !locked.heads[s].quarantined
            && locked == spec.(heads := locked.heads) && locked.heads.Keys == spec.heads.Keys + {s}
            && locked == own.(heads := locked.heads)
  {}

  /** And after it. */
  lemma SimMoved(own: Ledger, own': Ledger, state: map<string, StreamState>, spec: Ledger, locked': Ledger, s: string,
                 st: StreamState)
    requires Sim(own, state, spec) && s in state && own'.heads == own.heads
    requires locked'.heads == EnsureStream(spec, s).heads && locked' == own'.(heads := locked'.heads)
    ensures s in own.heads ==> Sim(own', state[s := st], WithHead(locked', s, st))
    ensures WithHead(locked', s, st).heads.Keys == spec.heads.Keys + {s}
  {}

  lemma ClosedIgnoresHeads(a: Ledger, b: Ledger)
    requires IndexClosed(a) && b == a.(heads := b.heads)
    ensures IndexClosed(b)
  {}

  /** A quarantined stream makes the one-at-a-time appends fail too. */
  lemma {:induction false} QuarantinedFails(db: Database, w: Sealing, l: Ledger, batch: seq<ResolvedEvent>, i: nat)
    requires IndexClosed(l) && i < |batch|
    requires batch[i].draft.streamId in l.heads && l.heads[batch[i].draft.streamId].quarantined
    ensures Fold(db, w, l, batch).Err?
  {
    hide IndexClosed, InsertStep, ReportsKnown;
    var n := |batch| - 1;
    if i < n {
      assert batch[..n][i] == batch[i];
      QuarantinedFails(db, w, l, batch[..n], i);
    } else if Fold(db, w, l, batch[..n]).Ok? {
      HeadStaysQuarantined(db, w, l, batch[..n], batch[i].draft.streamId);
    }
  }

  lemma {:induction false} HeadStaysQuarantined(db: Database, w: Sealing, l: Ledger, batch: seq<ResolvedEvent>,
                                                s: string)
    requires IndexClosed(l) && Fold(db, w, l, batch).Ok? && s in l.heads && l.heads[s].quarantined
    ensures var l' := Fold(db, w, l, batch).value.0; s in l'.heads && l'.heads[s].quarantined
  {
    hide IndexClosed, InsertStep, ReportsKnown;
    if batch != [] {
      var n := |batch| - 1;
      HeadStaysQuarantined(db, w, l, batch[..n], s);
      var l1 := Fold(db, w, l, batch[..n]).value.0;
      var ev := batch[n];
      var locked := EnsureStream(l1, ev.draft.streamId);
      ClosedIgnoresHeads(l1, locked);
      InsertKeepsHeads(db, w, locked, StateOf(locked.heads[ev.draft.streamId]), ev);
    }
  }

  lemma InsertKeepsHeads(db: Database, w: Sealing, l: Ledger, state: StreamState, ev: ResolvedEvent)
    requires IndexClosed(l)
    ensures InsertStep(db, w, l, state, ev).Ok? ==> InsertStep(db, w, l, state, ev).value.0.heads == l.heads
  {
    hide RefsMatch, Recover;
  }

  /** A refused event makes every longer batch fail the same way. */
  lemma {:induction false} PrefixFails(db: Database, w: Sealing, l: Ledger, batch: seq<ResolvedEvent>, n: nat)
    requires IndexClosed(l) && n <= |batch| && Fold(db, w, l, batch[..n]).Err?
    ensures Fold(db, w, l, batch).Err? && Fold(db, w, l, batch).error == Fold(db, w, l, batch[..n]).error
  {
    hide IndexClosed, AppendOne;
    if n < |batch| {
      assert batch[..|batch| - 1][..n] == batch[..n];
      PrefixFails(db, w, l, batch[..|batch| - 1], n);
    } else {
      assert batch[..n] == batch;
    }
  }

  lemma FoldNext(db: Database, w: Sealing, l: Ledger, batch: seq<ResolvedEvent>, n: nat)
    requires IndexClosed(l) && n < |batch|
    ensures Fold(db, w, l, batch[..n + 1]) == ThenAppend(db, w, Fold(db, w, l, batch[..n]), batch[n])
  {
    hide IndexClosed, AppendOne;
    assert batch[..n + 1][..n] == batch[..n];
  }

  // ---- replays inside one batch ----------------------------------------------------------------

  /** Every row that is not in the starting ledger was written for an event of the batch. */
  ghost predicate RowsFrom(before: Ledger, batch: seq<ResolvedEvent>, l: Ledger) {
    forall id :: id in l.events && id !in before.events ==>
      exists j :: 0 <= j < |batch| && batch[j].draft.eventId == id && DraftKey(batch[j].draft) == RowKey(l.events[id])
  }

  lemma AppendOneAddsItsRow(db: Database, w: Sealing, l: Ledger, ev: ResolvedEvent)
    requires IndexClosed(l) && AppendOne(db, w, l, ev).Ok?
    ensures var l' := AppendOne(db, w, l, ev).value.0;
            forall id :: id in l'.events && id !in l.events ==>
              id == ev.draft.eventId && RowKey(l'.events[id]) == DraftKey(ev.draft)
  {
    hide RefsMatch, Recover, ReportsKnown;
  }

  lemma {:induction false} FoldRowsFrom(db: Database, w: Sealing, l: Ledger, batch: seq<ResolvedEvent>)
    requires IndexClosed(l) && Fold(db, w, l, batch).Ok?
    ensures RowsFrom(l, batch, Fold(db, w, l, batch).value.0)
  {
    hide AppendOne, IndexClosed;
    if batch != [] {
      var n := |batch| - 1;
      FoldRowsFrom(db, w, l, batch[..n]);
      var l1 := Fold(db, w, l, batch[..n]).value.0;
      var l2 := Fold(db, w, l, batch).value.0;
      AppendOneAddsItsRow(db, w, l1, batch[n]);
      AppendOneGrows(db, w, l1, batch[n]);
      forall id | id in l2.events && id !in l.events
        ensures exists j ::
                  0 <= j < |batch| && batch[j].draft.eventId == id && DraftKey(batch[j].draft) == RowKey(l2.events[id])
      {
        if id in l1.events {
          var j :| 0 <= j < n && batch[..n][j].draft.eventId == id
            && DraftKey(batch[..n][j].draft) == RowKey(l1.events[id]);
          assert batch[j] == batch[..n][j];
        } else {
          assert batch[n].draft.eventId == id;
        }
      }
    }
  }

  lemma IdsStayConsistent(db: Database, w: Sealing, l: Ledger, batch: seq<ResolvedEvent>, prefix: seq<ResolvedEvent>,
                          d: Draft)
    requires IndexClosed(l) && Fold(db, w, l, prefix).Ok?
    requires IdConsistent(l, d)
    requires forall j :: 0 <= j < |prefix| && prefix[j].draft.eventId == d.eventId ==>
               DraftKey(prefix[j].draft) == DraftKey(d)
    ensures IdConsistent(Fold(db, w, l, prefix).value.0, d)
  {
    hide Fold, IndexClosed;
    FoldRowsFrom(db, w, l, prefix);
    FoldGrows(db, w, l, prefix);
  }

  /** The stream of an appended event exists and is active. */
  lemma AppendedStreamActive(db: Database, w: Sealing, l: Ledger, ev: ResolvedEvent)
    requires IndexClosed(l) && AppendOne(db, w, l, ev).Ok?
    ensures var l' := AppendOne(db, w, l, ev).value.0;
            && ev.draft.streamId in l'.heads && !l'.heads[ev.draft.streamId].quarantined
            && l'.heads.Keys == l.heads.Keys + {ev.draft.streamId}
            && forall s :: s in l.heads && !l.heads[s].quarantined ==> !l'.heads[s].quarantined
  {
    hide InsertStep, ReportsKnown;
    var locked := EnsureStream(l, ev.draft.streamId);
    InsertKeepsHeads(db, w, locked, StateOf(locked.heads[ev.draft.streamId]), ev);
  }

  lemma {:induction false} AppendedStreamsActive(db: Database, w: Sealing, l: Ledger, batch: seq<ResolvedEvent>, i: nat)
    requires IndexClosed(l) && Fold(db, w, l, batch).Ok? && i < |batch|
    ensures var l' := Fold(db, w, l, batch).value.0;
            batch[i].draft.streamId in l'.heads && !l'.heads[batch[i].draft.streamId].quarantined
  {
    hide IndexClosed, AppendOne;
    var n := |batch| - 1;
    AppendedStreamActive(db, w, Fold(db, w, l, batch[..n]).value.0, batch[n]);
    if i < n {
      assert batch[..n][i] == batch[i];
      AppendedStreamsActive(db, w, l, batch[..n], i);
    }
  }

  /** Submitting, after a batch, an event that repeats the draft of its `f`-th one. */
  lemma RepeatReplays(db: Database, w: Sealing, l: Ledger, chains: Chains, batch: seq<ResolvedEvent>, f: nat,
                      ev: ResolvedEvent)
    requires Lawful(w) && ReadsAll(db) && Represents(w, l, chains) && IndexClosed(l)
    requires Fold(db, w, l, batch).Ok? && f < |batch|
    requires DraftKey(ev.draft) == DraftKey(batch[f].draft) && DraftIdentity(ev.draft) == DraftIdentity(batch[f].draft)
    requires ReportsKnown(ev) && RefsMatch(Canonicalize(ev.draft).claims, ev.refs)
    requires IdConsistent(Fold(db, w, l, batch).value.0, ev.draft)
    ensures var (l', outs) := Fold(db, w, l, batch).value;
            AppendOne(db, w, l', ev) == Ok((l', Outcome(outs[f].stored, false)))
  {
    hide Represents, IndexClosed, Fold, AppendOne, RefsMatch, ReportsKnown, IdConsistent, StoredRows;
    var chains' := FoldKeeps(db, w, l, chains, batch);
    var (l', outs) := Fold(db, w, l, batch).value;
    AppendedStreamsActive(db, w, l, batch, f);
    assert ev.draft.streamId == batch[f].draft.streamId;
    assert Holds(w, l', batch[f].draft, outs[f].stored);
    assert Holds(w, l', ev.draft, outs[f].stored);
    ReplayOne(db, w, l', chains', ev, outs[f].stored);
  }

  /** Submitting, after a batch, an event that reuses the key of its `f`-th one for another draft. */
  lemma RepeatConflicts(db: Database, w: Sealing, l: Ledger, chains: Chains, batch: seq<ResolvedEvent>, f: nat,
                        ev: ResolvedEvent)
    requires Lawful(w) && ReadsAll(db) && Represents(w, l, chains) && IndexClosed(l)
    requires Fold(db, w, l, batch).Ok? && f < |batch|
    requires DraftKey(ev.draft) == DraftKey(batch[f].draft) && DraftIdentity(ev.draft) != DraftIdentity(batch[f].draft)
    ensures AppendOne(db, w, Fold(db, w, l, batch).value.0, ev).Err?
  {
    hide Represents, IndexClosed, Fold, AppendOne, StoredRows, DraftIdentity, EnvelopeIdentity;
    var chains' := FoldKeeps(db, w, l, chains, batch);
    var (l', outs) := Fold(db, w, l, batch).value;
    if AppendOne(db, w, l', ev).Ok? {
      AppendOneKeeps(db, w, l', chains', ev);
      AppendOneGrows(db, w, l', ev);
      var (l2, out) := AppendOne(db, w, l', ev).value;
      assert Holds(w, l', batch[f].draft, outs[f].stored);
      HoldsPersists(w, l', l2, batch[f].draft, outs[f].stored);
      assert Holds(w, l2, ev.draft, out.stored);
      SameRowsSameEvent(db, w, l2, outs[f].stored, out.stored);
      assert false;
    }
  }

  /** REFINEMENT, second half. When every item's refs match its claims, as the content service
      guarantees, appending each repeat as itself or as its first occurrence is the same; and a key
      reused for another draft makes the one-at-a-time appends fail as well. */
  lemma {:induction false} RepeatsAreReplays(db: Database, w: Sealing, l: Ledger, chains: Chains,
                                             batch: seq<ResolvedEvent>, n: nat)
    requires Lawful(w) && ReadsAll(db) && Represents(w, l, chains) && IndexClosed(l) && n <= |batch|
    requires IdsConsistent(l, batch)
    requires forall i :: 0 <= i < |batch| ==>
               ReportsKnown(batch[i]) && RefsMatch(Canonicalize(batch[i].draft).claims, batch[i].refs)
    ensures Fold(db, w, l, batch[..n]).Ok? <==>
              Fold(db, w, l, Effective(batch)[..n]).Ok? && forall i :: 0 <= i < n ==> SameDraftAsFirst(batch, i)
    ensures Fold(db, w, l, batch[..n]).Ok? ==>
              Fold(db, w, l, batch[..n]) == Fold(db, w, l, Effective(batch)[..n])
  {
    hide Represents, IndexClosed, Fold, AppendOne, RefsMatch, ReportsKnown, DraftIdentity, IdsConsistent;
    hide SameDraftAsFirst;
    var eff := Effective(batch);
    if n == 0 {
      assert batch[..0] == eff[..0] == [];
      FoldEmpty(db, w, l);
    } else {
      RepeatsAreReplays(db, w, l, chains, batch, n - 1);
      FoldNext(db, w, l, batch, n - 1);
      FoldNext(db, w, l, eff, n - 1);
      if Fold(db, w, l, batch[..n - 1]).Ok? {
        if FirstWithKey(batch, n - 1) < n - 1 {
          RepeatOrConflict(db, w, l, chains, batch, n - 1);
        } else {
          assert SameDraftAsFirst(batch, n - 1) by { FirstIsItself(batch, n - 1); }
        }
      }
    }
  }

  /** What the repository's transaction commits: reports name refs, keys are reused for the same draft
      only, and the appends succeed with each repeat standing for its first occurrence. */
  ghost predicate Commits(db: Database, w: Sealing, l: Ledger, batch: seq<ResolvedEvent>)
    requires IndexClosed(l)
  {
    (forall i :: 0 <= i < |batch| ==> ReportsKnown(batch[i])) && NoInnerConflict(batch)
    && Fold(db, w, l, Effective(batch)).Ok?
  }

  /** REFINEMENT, exactly. Appending the items one at a time, repeats as themselves, succeeds iff the
      transaction commits and every item's refs, those of repeats included, match its claims; the
      results and the tables are then the same. */
  lemma PlainFoldExactly(db: Database, w: Sealing, l: Ledger, chains: Chains, batch: seq<ResolvedEvent>)
    requires Lawful(w) && ReadsAll(db) && Represents(w, l, chains) && IndexClosed(l) && IdsConsistent(l, batch)
    ensures Fold(db, w, l, batch).Ok? <==>
              Commits(db, w, l, batch) && forall i :: 0 <= i < |batch| ==>
                  RefsMatch(Canonicalize(batch[i].draft).claims, batch[i].refs)
    ensures Fold(db, w, l, batch).Ok? ==> Fold(db, w, l, batch) == Fold(db, w, l, Effective(batch))
  {
    hide Represents, IndexClosed, Fold, RefsMatch, ReportsKnown, IdsConsistent, SameDraftAsFirst, Effective;
    assert batch[..|batch|] == batch && Effective(batch)[..|batch|] == Effective(batch);
    if Fold(db, w, l, batch).Ok? { AllAccepted(db, w, l, batch); }
    if forall i :: 0 <= i < |batch| ==>
        ReportsKnown(batch[i]) && RefsMatch(Canonicalize(batch[i].draft).claims, batch[i].refs) {
      RepeatsAreReplays(db, w, l, chains, batch, |batch|);
    }
  }

  /** Such batches exist: a repeat submitted with a ref its draft never claimed. */
  lemma RepeatWithForeignRef(db: Database, w: Sealing, ev: ResolvedEvent, foreign: Ref)
    requires ReportsKnown(ev) && ev.draft.claims == [] && ev.refs == [] && Lawful(w) && ReadsAll(db)
    ensures var repeated := ResolvedEvent(ev.draft, [foreign], {});
            var batch := [ev, repeated];
            && IdsConsistent(EmptyLedger, batch) && Commits(db, w, EmptyLedger, batch)
            && Fold(db, w, EmptyLedger, batch).Err?
  {
    hide Represents, Fold, AppendOne, ReportsKnown, IdConsistent;
    var repeated := ResolvedEvent(ev.draft, [foreign], {});
    var batch := [ev, repeated];
    assert IdConsistent(EmptyLedger, ev.draft) by { FreshId(ev.draft); }
    assert ReportsKnown(repeated) by { NoReports(repeated); }
    assert FirstWithKey(batch, 0) == 0 && FirstWithKey(batch, 1) == 0;
    assert Effective(batch) == [ev, ev];
    EmptyRepresents(w);
    FirstAppend(db, w, ev);
    TwiceAppends(db, w, ev);
    assert !RefsMatch(Canonicalize(batch[1].draft).claims, batch[1].refs);
    PlainFoldExactly(db, w, EmptyLedger, map[], batch);
  }

  lemma FreshId(d: Draft)
    ensures IdConsistent(EmptyLedger, d)
  {}

  lemma NoReports(ev: ResolvedEvent)
    requires ev.reports == {}
    ensures ReportsKnown(ev)
  {}

  /** An event without claims is accepted by an empty ledger. */
  lemma FirstAppend(db: Database, w: Sealing, ev: ResolvedEvent)
    requires ReportsKnown(ev) && ev.draft.claims == [] && ev.refs == []
    ensures AppendOne(db, w, EmptyLedger, ev).Ok?
    ensures Fold(db, w, EmptyLedger, [ev]).Ok?
  {
    assert [ev][..0] == [];
    FoldEmpty(db, w, EmptyLedger);
    hide ReportsKnown, Recover;
    assert Canonicalize(ev.draft).claims == [];
    var locked := EnsureStream(EmptyLedger, ev.draft.streamId);
    assert Seal(w, Canonicalize(ev.draft), ev.refs, 1, None).Some?;
    assert InsertStep(db, w, locked, StateOf(EmptyHead), ev).Ok?;
    assert Fold(db, w, EmptyLedger, [ev]) == ThenAppend(db, w, Fold(db, w, EmptyLedger, [ev][..0]), [ev][0]);
  }

  lemma TwiceAppends(db: Database, w: Sealing, ev: ResolvedEvent)
    requires ReportsKnown(ev) && ev.draft.claims == [] && ev.refs == [] && Lawful(w) && ReadsAll(db)
    requires Fold(db, w, EmptyLedger, [ev]).Ok? && IdConsistent(EmptyLedger, ev.draft)
    ensures Fold(db, w, EmptyLedger, [ev, ev]).Ok?
  {
    hide Represents, Fold, AppendOne, ReportsKnown, IdConsistent;
    EmptyRepresents(w);
    IdsStayConsistent(db, w, EmptyLedger, [ev, ev], [ev], ev.draft);
    assert RefsMatch(Canonicalize(ev.draft).claims, ev.refs);
    RepeatReplays(db, w, EmptyLedger, map[], [ev], 0, ev);
    assert [ev, ev][..1] == [ev] && [ev, ev][..2] == [ev, ev];
    FoldNext(db, w, EmptyLedger, [ev, ev], 1);
  }

  lemma FirstIsItself(batch: seq<ResolvedEvent>, i: nat)
    requires i < |batch| && FirstWithKey(batch, i) == i
    ensures SameDraftAsFirst(batch, i)
  {
    hide DraftIdentity;
  }

  /** A reused key: as its first occurrence it replays; as itself it does too, unless the draft differs. */
  lemma RepeatOrConflict(db: Database, w: Sealing, l: Ledger, chains: Chains, batch: seq<ResolvedEvent>, i: nat)
    requires Lawful(w) && ReadsAll(db) && Represents(w, l, chains) && IndexClosed(l) && i < |batch|
    requires IdsConsistent(l, batch) && FirstWithKey(batch, i) < i && Fold(db, w, l, batch[..i]).Ok?
    requires forall k :: 0 <= k < |batch| ==>
               ReportsKnown(batch[k]) && RefsMatch(Canonicalize(batch[k].draft).claims, batch[k].refs)
    ensures var (l', outs) := Fold(db, w, l, batch[..i]).value;
            var replay: Result<(Ledger, Outcome), AppendError> :=
              Ok((l', Outcome(outs[FirstWithKey(batch, i)].stored, false)));
            && AppendOne(db, w, l', batch[FirstWithKey(batch, i)]) == replay
            && (SameDraftAsFirst(batch, i) ==> AppendOne(db, w, l', batch[i]) == replay)
            && (!SameDraftAsFirst(batch, i) ==> AppendOne(db, w, l', batch[i]).Err?)
  {
    hide Represents, IndexClosed, Fold, AppendOne, RefsMatch, ReportsKnown, DraftIdentity, IdConsistent;
    var f := FirstWithKey(batch, i);
    assert batch[..i][f] == batch[f];
    assert IdConsistent(l, batch[i].draft) && IdConsistent(l, batch[f].draft);
    forall k, m | 0 <= k < i && 0 <= m < |batch| && batch[..i][k].draft.eventId == batch[m].draft.eventId
      ensures DraftKey(batch[..i][k].draft) == DraftKey(batch[m].draft)
    {
      assert batch[..i][k] == batch[k];
    }
    IdsStayConsistent(db, w, l, batch, batch[..i], batch[f].draft);
    RepeatReplays(db, w, l, chains, batch[..i], f, batch[f]);
    if SameDraftAsFirst(batch, i) {
      IdsStayConsistent(db, w, l, batch, batch[..i], batch[i].draft);
      RepeatReplays(db, w, l, chains, batch[..i], f, batch[i]);
    } else {
      RepeatConflicts(db, w, l, chains, batch[..i], f, batch[i]);
    }
  }

  lemma FoldEmpty(db: Database, w: Sealing, l: Ledger)
    requires IndexClosed(l)
    ensures Fold(db, w, l, []) == Ok((l, []))
  {}
}

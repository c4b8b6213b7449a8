/** The repository's transaction, in place: it plans the batch, locks every stream in sorted order,
    inserts or recovers event by event while its stream states move, and writes the head rows last.
    It is proved to do what appending the events one at a time does. */
module LedgerRepository {
  import opened Orders
  import opened LedgerTables
  import opened LedgerAppend
  import opened LedgerHistory
  import opened LedgerSession

  ghost predicate AllReportsKnown(batch: seq<ResolvedEvent>) {
    forall i :: 0 <= i < |batch| ==> ReportsKnown(batch[i])
  }

  predicate Quarantined(l: Ledger, s: string) {
    s in l.heads && l.heads[s].quarantined
  }

  function StreamIds(batch: seq<ResolvedEvent>): set<string> {
    set i | 0 <= i < |batch| :: batch[i].draft.streamId
  }

  /** What a transaction needs to start from: tables holding hash-chained streams. */
  ghost predicate Sound(db: Database, w: Sealing, l: Ledger, chains: Chains) {
    Lawful(w) && ReadsAll(db) && Represents(w, l, chains) && IndexClosed(l)
  }

  /** The first item whose key an earlier one used for another draft. */
  ghost predicate FirstConflict(batch: seq<ResolvedEvent>, i: nat) {
    i < |batch| && !SameDraftAsFirst(batch, i) && forall k :: 0 <= k < i ==> SameDraftAsFirst(batch, k)
  }

  ghost predicate FirstQuarantined(l: Ledger, streams: set<string>, s: string) {
    s in streams && Quarantined(l, s) && forall t :: t in streams && Less(t, s) ==> !Quarantined(l, t)
  }

  /** Why a batch does not commit. */
  ghost predicate Refused(db: Database, w: Sealing, l: Ledger, batch: seq<ResolvedEvent>, error: AppendError)
    requires IndexClosed(l)
  {
    if !AllReportsKnown(batch) then error == UnknownReport
    else if !NoInnerConflict(batch) then
      exists i: nat :: FirstConflict(batch, i) && error == IdempotencyConflict(DraftKey(batch[i].draft))
    else if exists s :: s in StreamIds(batch) && Quarantined(l, s) then
      exists s :: FirstQuarantined(l, StreamIds(batch), s) && error == StreamQuarantined(s)
    else
      var fold := Fold(db, w, l, Effective(batch));
      fold.Err? && error == fold.error
  }

  // ---- what one position of the batch does -----------------------------------------------------

  lemma EffectiveAt(batch: seq<ResolvedEvent>, i: nat)
    requires i < |batch| && NoInnerConflict(batch)
    ensures Effective(batch)[i] == batch[FirstWithKey(batch, i)]
    ensures Effective(batch)[i].draft.streamId == batch[i].draft.streamId
  {
    assert SameDraftAsFirst(batch, i);
  }

  /** A repeat of an earlier position: the append it stands for replays that position. */
  lemma RepeatStep(db: Database, w: Sealing, l: Ledger, chains: Chains, batch: seq<ResolvedEvent>, i: nat)
    requires Sound(db, w, l, chains) && i < |batch| && IdsConsistent(l, batch)
    requires FirstWithKey(batch, i) < i && Fold(db, w, l, Effective(batch)[..i]).Ok?
    ensures var (spec, outs) := Fold(db, w, l, Effective(batch)[..i]).value;
            Fold(db, w, l, Effective(batch)[..i + 1])
            == Ok((spec, outs + [Outcome(outs[FirstWithKey(batch, i)].stored, false)]))
  {
    hide Represents, Fold, AppendOne, RefsMatch, ReportsKnown, IndexClosed, IdConsistent;
    var eff := Effective(batch);
    var f := FirstWithKey(batch, i);
    assert FirstWithKey(batch, f) == f;
    assert eff[..i][f] == eff[f] == batch[f] == eff[i];
    AllAccepted(db, w, l, eff[..i]);
    assert IdConsistent(l, batch[f].draft);
    forall j | 0 <= j < i && eff[..i][j].draft.eventId == batch[f].draft.eventId
      ensures DraftKey(eff[..i][j].draft) == DraftKey(batch[f].draft)
    {
      assert eff[..i][j] == batch[FirstWithKey(batch, j)];
    }
    IdsStayConsistent(db, w, l, batch, eff[..i], batch[f].draft);
    RepeatReplays(db, w, l, chains, eff[..i], f, eff[i]);
    FoldNext(db, w, l, eff, i);
  }

  /** A first occurrence: inserting or recovering it on the session's tables is the next append. */
  lemma FirstStep(db: Database, w: Sealing, l: Ledger, batch: seq<ResolvedEvent>, i: nat,
                  own: Ledger, streams: map<string, StreamState>)
    requires IndexClosed(l) && IndexClosed(own) && i < |batch|
    requires FirstWithKey(batch, i) == i && Fold(db, w, l, Effective(batch)[..i]).Ok?
    requires ReportsKnown(batch[i]) && batch[i].draft.streamId in streams && batch[i].draft.streamId in own.heads
    requires Sim(own, streams, Fold(db, w, l, Effective(batch)[..i]).value.0)
    ensures var s := batch[i].draft.streamId;
            var (spec, outs) := Fold(db, w, l, Effective(batch)[..i]).value;
            var next := Fold(db, w, l, Effective(batch)[..i + 1]);
            var step := InsertStep(db, w, own, streams[s], batch[i]);
            && (step.Ok? <==> next.Ok?) && (step.Err? ==> step.error == next.error)
            && (step.Ok? ==>
                  var (own', st, out) := step.value;
                  && next.value.1 == outs + [out] && own'.heads == own.heads
                  && Sim(own', streams[s := st], next.value.0)
                  && next.value.0.heads.Keys == spec.heads.Keys + {s})
  {
    hide InsertStep, Fold, AppendOne, ReportsKnown, IndexClosed, Sim;
    FoldNext(db, w, l, Effective(batch), i);
    StepSimulates(db, w, own, streams, Fold(db, w, l, Effective(batch)[..i]).value.0, batch[i]);
  }

  /** A head row with the state its stream was moved to. */
  function Moved(state: StreamState, head: Head): Head {
    Head(state.sequence, state.headEventId, state.headHash, head.quarantined)
  }

  /** Head rows as the last statement of the transaction leaves them. */
  function WrittenHeads(heads: map<string, Head>, streams: map<string, StreamState>,
                        touched: set<string>): map<string, Head>
    requires touched <= streams.Keys
  {
    map s | s in heads ::
      if s in touched then Moved(streams[s], heads[s]) else heads[s]
  }

  /** The heads the session has not touched are still what it locked. */
  ghost predicate Untouched(own: Ledger, streams: map<string, StreamState>, touched: set<string>) {
    && touched <= streams.Keys <= own.heads.Keys
    && forall s :: s in streams ==> !own.heads[s].quarantined && (s !in touched ==> streams[s] == StateOf(own.heads[s]))
  }

  lemma HeadsWritten(own: Ledger, streams: map<string, StreamState>, touched: set<string>, spec: Ledger)
    requires Sim(own, streams, spec) && Untouched(own, streams, touched) && spec.heads.Keys == own.heads.Keys
    ensures own.(heads := WrittenHeads(own.heads, streams, touched)) == spec
  {
    var written := WrittenHeads(own.heads, streams, touched);
    forall s | s in spec.heads ensures written[s] == spec.heads[s] {}
    assert written == spec.heads;
  }

  class AppendTransaction {
    const db: Database
    const w: Sealing
    var tables: Ledger
    var streams: map<string, StreamState>
    var touched: set<string>

    constructor (db: Database, w: Sealing, tables: Ledger)
      ensures this.db == db && this.w == w && this.tables == tables && streams == map[] && touched == {}
    {
      this.db := db;
      this.w := w;
      this.tables := tables;
      streams := map[];
      touched := {};
    }

    /** `_plan_batch`: every position's first occurrence, or the first key reused for another draft. */
    static method PlanBatch(batch: seq<ResolvedEvent>) returns (plan: Result<seq<nat>, AppendError>)
      ensures plan.Ok? <==> NoInnerConflict(batch)
      ensures plan.Ok? ==> |plan.value| == |batch| && forall i :: 0 <= i < |batch| ==>
                plan.value[i] == FirstWithKey(batch, i)
      ensures plan.Err? ==>
                exists i: nat :: FirstConflict(batch, i) && plan.error == IdempotencyConflict(DraftKey(batch[i].draft))
    {
      hide DraftIdentity, FirstWithKey, FirstFrom;
      var representative: seq<nat> := [];
      var first: map<Key, nat> := map[];
      for i := 0 to |batch|
        invariant |representative| == i
        invariant forall k :: 0 <= k < i ==> representative[k] == FirstWithKey(batch, k) && SameDraftAsFirst(batch, k)
        invariant forall key :: key in first ==> first[key] < i && DraftKey(batch[first[key]].draft) == key
                                                 && FirstWithKey(batch, first[key]) == first[key]
        invariant forall k :: 0 <= k < i ==> DraftKey(batch[k].draft) in first
      {
        var key := DraftKey(batch[i].draft);
        if key !in first {
          first := first[key := i];
          representative := representative + [i];
        } else {
          assert FirstWithKey(batch, i) == first[key] by { SameFirst(batch, i, first[key]); }
          if DraftIdentity(batch[i].draft) != DraftIdentity(batch[first[key]].draft) {
            assert FirstConflict(batch, i);
            return Err(IdempotencyConflict(key));
          }
          representative := representative + [first[key]];
        }
      }
      return Ok(representative);
    }

    /** `_lock_streams`: create if missing, lock and read, in sorted order; stop at the first
        quarantined stream. */
    method LockStreams(streamIds: set<string>) returns (r: Result<(), AppendError>)
      modifies this`tables, this`streams
      ensures r.Ok? <==> forall s :: s in streamIds ==> !Quarantined(old(tables), s)
      ensures r.Ok? ==>
                && tables == old(tables).(heads := tables.heads)
                && tables.heads.Keys == old(tables).heads.Keys + streamIds
                && (forall s :: s in tables.heads ==>
                      tables.heads[s] == if s in old(tables).heads then old(tables).heads[s] else EmptyHead)
                && streams.Keys == streamIds
                && forall s :: s in streamIds ==> streams[s] == StateOf(tables.heads[s])
      ensures r.Err? ==> exists s :: FirstQuarantined(old(tables), streamIds, s) && r.error == StreamQuarantined(s)
    {
      hide Less, Locking;
      streams := map[];
      var remaining := streamIds;
      NothingLocked(tables, streamIds);
      while remaining != {}
        invariant Locking(old(tables), tables, streams, streamIds, remaining)
      {
        LeastExists(remaining);
        var s :| s in remaining && forall x :: x in remaining - {s} ==> Less(s, x);
        LockNext(old(tables), tables, streams, streamIds, remaining, s);
        tables := EnsureStream(tables, s);
        var head := tables.heads[s];
        if head.quarantined {
          return Err(StreamQuarantined(s));
        }
        streams := streams[s := StateOf(head)];
        remaining := remaining - {s};
      }
      AllLocked(old(tables), tables, streams, streamIds);
      return Ok(());
    }

    /** `_insert_or_recover`. */
    method InsertOrRecover(ev: ResolvedEvent) returns (r: Result<Outcome, AppendError>)
      requires IndexClosed(tables) && ev.draft.streamId in streams
      modifies this
      ensures InsertStep(db, w, old(tables), old(streams)[ev.draft.streamId], ev).Err? ==>
                && tables == old(tables)
                && r == Err(InsertStep(db, w, old(tables), old(streams)[ev.draft.streamId], ev).error)
      ensures InsertStep(db, w, old(tables), old(streams)[ev.draft.streamId], ev).Ok? ==>
                var (l, st, out) := InsertStep(db, w, old(tables), old(streams)[ev.draft.streamId], ev).value;
                && r == Ok(out) && tables == l && streams == old(streams)[ev.draft.streamId := st]
                && touched == old(touched) + (if out.created then {ev.draft.streamId} else {})
                && (!out.created ==> st == old(streams)[ev.draft.streamId])
    {
      hide RefsMatch, ExistingIdentity, Rebuild, DraftIdentity, RefRowsOf;
      var state := streams[ev.draft.streamId];
      var draft := Canonicalize(ev.draft);
      var attempt := Seal(w, draft, ev.refs, state.sequence + 1, state.headHash);
      if attempt.None? {
        return Err(SealRefused);
      }
      var row := RowOf(w, attempt.value);
      if row.eventId in tables.events && (RowKey(row) !in tables.index || db.namesPrimaryKey(tables.events, row)) {
        r := Recover(db, w, tables, draft, row.eventId);
        if r.Ok? { assert !r.value.created; }
      } else if RowKey(row) in tables.index {
        r := Recover(db, w, tables, draft, tables.index[RowKey(row)]);
        if r.Ok? { assert !r.value.created; }
      } else if SequenceTaken(tables, row.streamId, row.sequence) {
        r := Err(OtherConstraint);
      } else {
        tables := InsertRows(w, tables, attempt.value);
        streams := streams[ev.draft.streamId := StreamState(row.sequence, Some(row.eventId), Some(row.eventHash))];
        touched := touched + {ev.draft.streamId};
        r := Ok(Outcome(attempt.value, true));
      }
      assert r.Ok? && !r.value.created ==> streams == streams[ev.draft.streamId := state];
    }

    /** The closing loop over `touched_streams`. */
    method UpdateStreamHeads()
      requires touched <= streams.Keys && touched <= tables.heads.Keys
      modifies this`tables
      ensures tables == old(tables).(heads := WrittenHeads(old(tables).heads, streams, touched))
    {
      var left := touched;
      while left != {}
        invariant left <= touched
        invariant tables == old(tables).(heads := WrittenHeads(old(tables).heads, streams, touched - left))
      {
        var s :| s in left;
        tables := tables.(heads := tables.heads[s := Moved(streams[s], tables.heads[s])]);
        left := left - {s};
        assert tables.heads == WrittenHeads(old(tables).heads, streams, touched - left);
      }
      assert touched - left == touched;
    }

    /** Every item in turn: the states move with each insert, repeats copy the result they repeat. */
    method AppendAll(batch: seq<ResolvedEvent>, plan: seq<nat>, ghost before: Ledger, ghost chains: Chains)
      returns (r: Result<seq<Outcome>, AppendError>)
      requires Sound(db, w, before, chains) && IdsConsistent(before, batch) && NoInnerConflict(batch)
               && AllReportsKnown(batch)
      requires |plan| == |batch| && forall i :: 0 <= i < |batch| ==> plan[i] == FirstWithKey(batch, i)
      requires IndexClosed(tables) && Sim(tables, streams, before) && Untouched(tables, streams, touched)
      requires streams.Keys == StreamIds(batch) && touched == {}
      modifies this
      ensures r.Ok? <==> Fold(db, w, before, Effective(batch)).Ok?
      ensures r.Err? ==> r.error == Fold(db, w, before, Effective(batch)).error
      ensures r.Ok? ==>
                var (spec, outs) := Fold(db, w, before, Effective(batch)).value;
                && r.value == outs && Sim(tables, streams, spec) && Untouched(tables, streams, touched)
                && tables.heads == old(tables).heads && streams.Keys == StreamIds(batch)
                && spec.heads.Keys == before.heads.Keys + StreamIds(batch)
    {
      hide Represents, Fold, InsertStep, ReportsKnown, IndexClosed, DraftIdentity, IdConsistent, Sim;
      hide SameDraftAsFirst, Sound, IdsConsistent, StreamIds, Effective;
      ghost var eff := Effective(batch);
      StartsEmpty(db, w, before, chains, batch);
      var results: seq<Outcome> := [];
      for i := 0 to |batch|
        invariant IndexClosed(tables) && tables.heads == old(tables).heads && streams.Keys == StreamIds(batch)
        invariant Fold(db, w, before, eff[..i]).Ok? && Fold(db, w, before, eff[..i]).value.1 == results
        invariant |results| == i
        invariant Sim(tables, streams, Fold(db, w, before, eff[..i]).value.0)
        invariant Untouched(tables, streams, touched)
        invariant Fold(db, w, before, eff[..i]).value.0.heads.Keys == before.heads.Keys + StreamIds(batch[..i])
      {
        StreamIdsNext(batch, i);
        if plan[i] != i {
          RepeatStep(db, w, before, chains, batch, i);
          RepeatedStream(batch, i);
          results := results + [Outcome(results[plan[i]].stored, false)];
        } else {
          FirstStep(db, w, before, batch, i, tables, streams);
          var appended := InsertOrRecover(batch[i]);
          if appended.Err? {
            PrefixFails(db, w, before, eff, i + 1);
            return Err(appended.error);
          }
          results := results + [appended.value];
          InsertClosed(db, w, before, eff, i, tables, streams);
        }
      }
      assert batch[..|batch|] == batch && eff[..|batch|] == eff;
      return Ok(results);
    }

    /** REFINEMENT, first half. The batch commits iff its reports and keys are in order and appending
        its items one at a time succeeds, each repeat standing for its first occurrence; and then the
        tables and the positional results are those of the one-at-a-time appends. A refused batch is
        refused for, in this order, an unknown report, the first key reused for another draft, the
        smallest quarantined stream, or the first append that fails. */
    method AppendWithOutcome(batch: seq<ResolvedEvent>, ghost chains: Chains)
      returns (r: Result<seq<Outcome>, AppendError>)
      requires streams == map[] && touched == {}
      requires Sound(db, w, tables, chains) && IdsConsistent(tables, batch)
      modifies this
      ensures r.Ok? <==> Commits(db, w, old(tables), batch)
      ensures r.Ok? ==> Ok((tables, r.value)) == Fold(db, w, old(tables), Effective(batch))
      ensures r.Err? ==> Refused(db, w, old(tables), batch, r.error)
    {
      hide Represents, Fold, InsertStep, ReportsKnown, IndexClosed, SameDraftAsFirst, Sim, WrittenHeads, IdsConsistent;
      ghost var before := tables;
      if batch == [] {
        StartsEmpty(db, w, before, chains, batch);
        assert Effective(batch) == [];
        return Ok([]);
      }
      for i := 0 to |batch|
        invariant forall k :: 0 <= k < i ==> ReportsKnown(batch[k])
      {
        if !ReportsKnown(batch[i]) {
          return Err(UnknownReport);
        }
      }
      var plan := PlanBatch(batch);
      if plan.Err? {
        return Err(plan.error);
      }
      var locked := LockStreams(StreamIds(batch));
      if locked.Err? {
        QuarantineFails(db, w, before, batch);
        return Err(locked.error);
      }
      assert IndexClosed(tables) by { ClosedIgnoresHeads(before, tables); }
      LockedSim(before, tables, streams);
      r := AppendAll(batch, plan.value, before, chains);
      if r.Ok? {
        HeadsWritten(tables, streams, touched, Fold(db, w, before, Effective(batch)).value.0);
        UpdateStreamHeads();
      }
    }
  }

  /** The streams locked so far, the smallest first: created if missing, read as committed, none
      quarantined. */
  ghost predicate Locking(before: Ledger, tables: Ledger, streams: map<string, StreamState>, streamIds: set<string>,
                          remaining: set<string>) {
    && remaining <= streamIds && streams.Keys == streamIds - remaining
    && (forall s, t :: s in streams && t in remaining ==> Less(s, t))
    && LockedRows(before, tables, streams)
  }

  ghost predicate LockedRows(before: Ledger, tables: Ledger, streams: map<string, StreamState>) {
    && tables == before.(heads := tables.heads) && tables.heads.Keys == before.heads.Keys + streams.Keys
    && (forall s :: s in tables.heads ==> tables.heads[s] == if s in before.heads then before.heads[s] else EmptyHead)
    && (forall s :: s in streams ==> streams[s] == StateOf(tables.heads[s]) && !Quarantined(before, s))
  }

  lemma NothingLocked(tables: Ledger, streamIds: set<string>)
    ensures Locking(tables, tables, map[], streamIds, streamIds)
  {}

  lemma AllLocked(before: Ledger, tables: Ledger, streams: map<string, StreamState>, streamIds: set<string>)
    requires Locking(before, tables, streams, streamIds, {})
    ensures forall s :: s in streamIds ==> !Quarantined(before, s)
    ensures tables == before.(heads := tables.heads) && tables.heads.Keys == before.heads.Keys + streamIds
    ensures forall s :: s in tables.heads ==>
              tables.heads[s] == if s in before.heads then before.heads[s] else EmptyHead
    ensures streams.Keys == streamIds && forall s :: s in streamIds ==> streams[s] == StateOf(tables.heads[s])
  {
    hide Less;
  }

  /** The next stream: the smallest that is left, and the smallest quarantined one if it is quarantined. */
  lemma LockNext(before: Ledger, tables: Ledger, streams: map<string, StreamState>, streamIds: set<string>,
                 remaining: set<string>, s: string)
    requires Locking(before, tables, streams, streamIds, remaining)
    requires s in remaining && forall x :: x in remaining - {s} ==> Less(s, x)
    ensures var head := EnsureStream(tables, s).heads[s];
            && (head.quarantined ==> FirstQuarantined(before, streamIds, s))
            && (!head.quarantined ==>
                  Locking(before, EnsureStream(tables, s), streams[s := StateOf(head)], streamIds, remaining - {s}))
  {
    hide Less, LockedRows;
    LockNextRow(before, tables, streams, s);
    if Quarantined(before, s) {
      forall t | t in streamIds && Less(t, s) ensures !Quarantined(before, t) {
        NothingBelowLeast(remaining, s, t);
      }
    }
  }

  lemma LockNextRow(before: Ledger, tables: Ledger, streams: map<string, StreamState>, s: string)
    requires LockedRows(before, tables, streams) && s !in streams
    ensures var head := EnsureStream(tables, s).heads[s];
            && (head.quarantined <==> Quarantined(before, s))
            && (!head.quarantined ==> LockedRows(before, EnsureStream(tables, s), streams[s := StateOf(head)]))
    ensures forall x :: x in streams ==> !Quarantined(before, x)
  {}

  lemma NothingBelowLeast(remaining: set<string>, s: string, t: string)
    requires (forall x :: x in remaining - {s} ==> Less(s, x)) && Less(t, s)
    ensures t !in remaining
  {
    hide Less;
    LessIrreflexive(s);
    if t in remaining && t != s { LessTransitive(t, s, t); LessIrreflexive(t); }
  }

  lemma SameFirst(batch: seq<ResolvedEvent>, i: nat, f: nat)
    requires f < i < |batch| && DraftKey(batch[f].draft) == DraftKey(batch[i].draft) && FirstWithKey(batch, f) == f
    ensures FirstWithKey(batch, i) == f
  {}

  lemma LockedSim(before: Ledger, tables: Ledger, streams: map<string, StreamState>)
    requires tables == before.(heads := tables.heads)
    requires tables.heads.Keys == before.heads.Keys + streams.Keys
    requires forall s :: s in tables.heads ==>
               tables.heads[s] == if s in before.heads then before.heads[s] else EmptyHead
    requires forall s :: s in streams ==> streams[s] == StateOf(tables.heads[s]) && !Quarantined(before, s)
    ensures Sim(tables, streams, before) && Untouched(tables, streams, {})
  {}

  lemma StartsEmpty(db: Database, w: Sealing, l: Ledger, chains: Chains, batch: seq<ResolvedEvent>)
    requires Sound(db, w, l, chains)
    ensures IndexClosed(l) && Fold(db, w, l, Effective(batch)[..0]) == Ok((l, []))
    ensures StreamIds(batch[..0]) == {}
    ensures batch[..|batch|] == batch
  {
    hide Represents;
    assert Effective(batch)[..0] == [];
    FoldEmpty(db, w, l);
  }

  lemma QuarantineFails(db: Database, w: Sealing, l: Ledger, batch: seq<ResolvedEvent>)
    requires IndexClosed(l) && NoInnerConflict(batch)
    requires exists s :: s in StreamIds(batch) && Quarantined(l, s)
    ensures Fold(db, w, l, Effective(batch)).Err?
  {
    hide Fold, IndexClosed, SameDraftAsFirst, Effective;
    var s :| s in StreamIds(batch) && Quarantined(l, s);
    var i :| 0 <= i < |batch| && batch[i].draft.streamId == s;
    EffectiveAt(batch, i);
    QuarantinedFails(db, w, l, Effective(batch), i);
  }

  lemma StreamIdsNext(batch: seq<ResolvedEvent>, i: nat)
    requires i < |batch|
    ensures StreamIds(batch[..i + 1]) == StreamIds(batch[..i]) + {batch[i].draft.streamId}
    ensures batch[i].draft.streamId in StreamIds(batch)
  {
    var a, b := batch[..i + 1], batch[..i];
    assert a[i] == batch[i];
    forall s | s in StreamIds(a) ensures s in StreamIds(b) + {batch[i].draft.streamId} {
      var k :| 0 <= k < |a| && a[k].draft.streamId == s;
      if k < i { assert b[k] == a[k]; }
    }
    forall s | s in StreamIds(b) ensures s in StreamIds(a) {
      var k :| 0 <= k < |b| && b[k].draft.streamId == s;
      assert a[k] == b[k];
    }
  }

  lemma RepeatedStream(batch: seq<ResolvedEvent>, i: nat)
    requires i < |batch| && FirstWithKey(batch, i) < i && NoInnerConflict(batch)
    ensures batch[i].draft.streamId in StreamIds(batch[..i])
  {
    assert SameDraftAsFirst(batch, i);
    assert batch[..i][FirstWithKey(batch, i)].draft.streamId == batch[i].draft.streamId;
  }

  lemma InsertClosed(db: Database, w: Sealing, l: Ledger, eff: seq<ResolvedEvent>, i: nat, own: Ledger,
                     streams: map<string, StreamState>)
    requires IndexClosed(l) && i < |eff| && Fold(db, w, l, eff[..i + 1]).Ok?
    requires Sim(own, streams, Fold(db, w, l, eff[..i + 1]).value.0)
    ensures IndexClosed(own)
  {
    hide Fold;
  }
}

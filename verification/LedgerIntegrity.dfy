/** What verification proves about the ledger: every ledger the repository can reach verifies, a clean
    verdict fixes every sealed event, a clean full walk makes every tail clean, and the final count
    check can only fail in one way. */
module LedgerIntegrity {
  import opened Keyset
  import opened Orders
  import opened LedgerTables
  import opened LedgerAppend
  import opened LedgerHistory
  import opened LedgerVerify

  // ---- reading a contiguous stream -------------------------------------------------------------

  ghost predicate Contiguous(rows: seq<EventRow>, since: int) {
    forall i :: 0 <= i < |rows| ==> rows[i].sequence == since + i
  }

  ghost predicate HasSequence(rows: seq<EventRow>, k: int) {
    exists a :: 0 <= a < |rows| && rows[a].sequence == k
  }

  /** Strictly ascending, within a range and covering it. */
  ghost predicate Covers(rows: seq<EventRow>, since: int, n: int) {
    && (forall a, b :: 0 <= a < b < |rows| ==> rows[a].sequence < rows[b].sequence)
    && (forall a :: 0 <= a < |rows| ==> since <= rows[a].sequence <= n)
    && (forall k :: since <= k <= n ==> HasSequence(rows, k))
  }

  lemma {:induction false} CoveringAt(rows: seq<EventRow>, since: int, n: int, i: nat)
    requires Covers(rows, since, n) && i < |rows|
    ensures rows[i].sequence == since + i
  {
    if i > 0 { CoveringAt(rows, since, n, i - 1); }
    assert since + i <= rows[i].sequence && HasSequence(rows, since + i);
    var a :| 0 <= a < |rows| && rows[a].sequence == since + i;
    if a < i { CoveringAt(rows, since, n, a); }
  }

  lemma CoveringIsContiguous(rows: seq<EventRow>, since: int, n: int)
    requires Covers(rows, since, n)
    ensures Contiguous(rows, since)
    ensures |rows| == if n < since then 0 else n - since + 1
  {
    forall i | 0 <= i < |rows| ensures rows[i].sequence == since + i {
      CoveringAt(rows, since, n, i);
    }
    assert !HasSequence(rows, since + |rows|);
    assert rows != [] ==> rows[|rows| - 1].sequence <= n;
  }

  /** Reading a contiguous stream from any later sequence returns its suffix. */
  lemma ReadsSuffix(l: Ledger, s: string, full: seq<EventRow>, since: int, rows: seq<EventRow>)
    requires forall id :: id in l.events ==> l.events[id].eventId == id
    requires ReadsRows(l, s, 1, full) && Contiguous(full, 1)
    requires since >= 1 && ReadsRows(l, s, since, rows)
    ensures rows == if since <= |full| then full[since - 1..] else []
  {
    forall i | 0 <= i < |rows| ensures rows[i].sequence <= |full| && full[rows[i].sequence - 1] == rows[i] {
      assert l.events[rows[i].eventId] in full;
      var k :| 0 <= k < |full| && full[k] == rows[i];
    }
    forall a, b | 0 <= a < b < |rows| ensures rows[a].sequence < rows[b].sequence {
      assert rows[a].eventId != rows[b].eventId;
    }
    forall k | since <= k <= |full| ensures HasSequence(rows, k) {
      var row := full[k - 1];
      assert row.eventId in l.events && l.events[row.eventId] in rows;
      var a :| 0 <= a < |rows| && rows[a] == row;
    }
    CoveringIsContiguous(rows, since, |full|);
  }

  /** The CHECK constraint on `ledger.events`. */
  ghost predicate PositiveSequences(l: Ledger) {
    forall id :: id in l.events ==> l.events[id].sequence > 0
  }

  lemma CertifiedRuns(w: Sealing, snap: Snapshot, rows: seq<EventRow>, since: int, previous: Option<Hash>)
    requires CleanRun(w, snap, rows, since, previous)
    ensures Contiguous(rows, since)
  {
    forall i | 0 <= i < |rows| ensures rows[i].sequence == since + i {
      assert CertifiedAt(w, snap, rows, since, previous, i);
    }
  }

  lemma FaithfulParts(snap: Snapshot, s: string, since: int)
    requires Faithful(snap)
    ensures forall id :: id in snap.tables.events ==> snap.tables.events[id].eventId == id
    ensures ReadsRows(snap.tables, s, since, snap.rowsFrom(s, since))
    ensures HasLastRow(snap.tables, s, snap.lastRow(s))
  {}

  lemma TailIsClean(w: Sealing, snap: Snapshot, full: seq<EventRow>, since: int)
    requires CleanRun(w, snap, full, 1, None) && 1 <= since <= |full|
    ensures CleanRun(w, snap, full[since - 1..], since, Before(full, since - 1, None))
  {
    hide Certifies;
    var rows := full[since - 1..];
    var previous := Before(full, since - 1, None);
    forall i | 0 <= i < |rows| ensures CertifiedAt(w, snap, rows, since, previous, i) {
      assert CertifiedAt(w, snap, full, 1, None, since - 1 + i);
    }
  }

  /** The last row, read on its own, is the last row of the walk. */
  lemma LastRowAgrees(l: Ledger, s: string, full: seq<EventRow>, last: Option<EventRow>)
    requires forall id :: id in l.events ==> l.events[id].eventId == id
    requires ReadsRows(l, s, 1, full) && Contiguous(full, 1) && HasLastRow(l, s, last) && PositiveSequences(l)
    ensures last == if full == [] then None else Some(full[|full| - 1])
  {
    if last.Some? {
      assert l.events[last.value.eventId] in full;
      var k :| 0 <= k < |full| && full[k] == last.value;
    }
    if full != [] {
      var row := full[|full| - 1];
      assert l.events[row.eventId] == row;
    }
  }

  /** The range is linked to the event before it and certifies row by row. */
  ghost predicate CleanTail(w: Sealing, snap: Snapshot, s: string, since: int) {
    var rows, previous := snap.rowsFrom(s, since), PriorHash(snap, s, since);
    (since > 1 && rows != [] ==> previous.Some?) && CleanRun(w, snap, rows, since, previous)
  }

  /** The last row of a clean range is the stream's last row; from the first sequence on, no rows means none. */
  lemma LastOfRange(l: Ledger, s: string, since: int, rows: seq<EventRow>, last: Option<EventRow>)
    requires forall id :: id in l.events ==> l.events[id].eventId == id
    requires ReadsRows(l, s, since, rows) && Contiguous(rows, since) && HasLastRow(l, s, last)
    ensures rows != [] ==> last == Some(rows[|rows| - 1])
    ensures rows == [] && PositiveSequences(l) && since == 1 ==> last == None
  {
    if rows != [] {
      var row := rows[|rows| - 1];
      assert l.events[row.eventId] == row;
      assert l.events[last.value.eventId] in rows;
      var k :| 0 <= k < |rows| && rows[k] == last.value;
    }
  }

  /** VERDICTS. A stream verifies from a sequence on exactly when it has a head row, the range is clean and
      the head names the row of the stream's last event, by sequence, ID and digest, or none. */
  lemma VerdictIsExact(w: Sealing, snap: Snapshot, s: string, since: int)
    requires Faithful(snap) && PositiveSequences(snap.tables) && since >= 1
    ensures StreamVerdict(w, snap, s, since).failure.None?
            <==> && s in snap.tables.heads && CleanTail(w, snap, s, since)
                 && HeadNames(snap.tables.heads[s], snap.lastRow(s))
  {
    hide CleanRun, ReadsRows, Faithful, HasLastRow, Contiguous, PositiveSequences, CheckHead, HeadNames;
    hide PriorHash, NextRow;
    var rows, previous := snap.rowsFrom(s, since), PriorHash(snap, s, since);
    FaithfulParts(snap, s, since);
    WalkedIsCleanRun(w, snap, Begin(snap, s, since), rows);
    if s in snap.tables.heads && CleanTail(w, snap, s, since) {
      CertifiedRuns(w, snap, rows, since, previous);
      LastOfRange(snap.tables, s, since, rows, snap.lastRow(s));
      CheckHeadNames(snap.tables.heads[s], snap.lastRow(s));
    }
  }

  /** DIAGNOSIS. Which check a failing stream is reported for: no head row, without and with events; a range that is
      not clean; or, for a clean one, a head that names another event. */
  lemma DiagnosisIsExact(w: Sealing, snap: Snapshot, s: string, since: int)
    requires Faithful(snap) && PositiveSequences(snap.tables) && since >= 1
    requires StreamVerdict(w, snap, s, since).failure.Some?
    ensures var check, headless := StreamVerdict(w, snap, s, since).failure.value.check, s !in snap.tables.heads;
            && (check == StreamExists <==> headless && !HasEvents(snap.tables, s))
            && (check == StreamHeadMissing <==> headless && HasEvents(snap.tables, s))
            && (RowCheck(check) <==> !headless && !CleanTail(w, snap, s, since))
            && (check == StreamHead <==> !headless && CleanTail(w, snap, s, since))
  {
    hide CleanRun, ReadsRows, Faithful, HasLastRow, Contiguous, PositiveSequences, CheckHead, HeadNames, HasEvents;
    hide PriorHash, NextRow;
    var rows, start := snap.rowsFrom(s, since), Begin(snap, s, since);
    WalkedIsCleanRun(w, snap, start, rows);
    VerdictIsExact(w, snap, s, since);
    if Walked(w, snap, start, rows).result.failure.Some? {
      var i := TheFirstBadRowIsReported(w, snap, start, rows);
    } else if s in snap.tables.heads {
      var last := Walked(w, snap, start, rows).last;
      CheckHeadNames(snap.tables.heads[s], if last.None? && since > 1 then snap.lastRow(s) else last);
    }
  }

  /** TAILS. A stream whose full walk is clean is clean from every `since_sequence`, and the tail walk
      counts exactly the events of the tail. */
  lemma CleanFullWalkMeansCleanTail(w: Sealing, snap: Snapshot, s: string, since: int)
    requires Faithful(snap) && PositiveSequences(snap.tables) && since >= 1
    requires StreamVerdict(w, snap, s, 1).failure.None?
    ensures StreamVerdict(w, snap, s, since).failure.None?
    ensures var n := |snap.rowsFrom(s, 1)|;
            StreamVerdict(w, snap, s, since).events == if since <= n then n - since + 1 else 0
  {
    hide CleanRun, ReadsRows, Faithful, HasLastRow, Contiguous, PositiveSequences, StreamVerdict, CheckHead, PriorHash;
    hide HeadNames;
    var full, rows := snap.rowsFrom(s, 1), snap.rowsFrom(s, since);
    FullWalkMeaning(w, snap, s);
    FaithfulParts(snap, s, 1);
    FaithfulParts(snap, s, since);
    CertifiedRuns(w, snap, full, 1, None);
    ReadsSuffix(snap.tables, s, full, since, rows);
    PriorIsBefore(snap, s, since, full);
    CheckHeadNames(snap.tables.heads[s], if full == [] then None else Some(full[|full| - 1]));
    if since <= |full| {
      TailInRange(w, snap, s, since, full);
    } else {
      LastRowAgrees(snap.tables, s, full, snap.lastRow(s));
      assert since == 1 ==> full == [];
      TailPastTheEnd(w, snap, s, since);
    }
  }

  lemma TailInRange(w: Sealing, snap: Snapshot, s: string, since: int, full: seq<EventRow>)
    requires s in snap.tables.heads && 1 <= since <= |full| && snap.rowsFrom(s, since) == full[since - 1..]
    requires PriorHash(snap, s, since) == Before(full, since - 1, None)
    requires CleanRun(w, snap, full, 1, None)
    requires CheckHead(snap.tables.heads[s], Some(full[|full| - 1])).None?
    ensures StreamVerdict(w, snap, s, since).failure.None?
    ensures StreamVerdict(w, snap, s, since).events == |full| - since + 1
  {
    hide CleanRun, NextRow, PriorHash, CheckHead;
    var rows := full[since - 1..];
    assert rows[|rows| - 1] == full[|full| - 1];
    TailIsClean(w, snap, full, since);
    WalkedIsCleanRun(w, snap, Begin(snap, s, since), rows);
  }

  lemma TailPastTheEnd(w: Sealing, snap: Snapshot, s: string, since: int)
    requires s in snap.tables.heads && snap.rowsFrom(s, since) == []
    requires CheckHead(snap.tables.heads[s], if since > 1 then snap.lastRow(s) else None).None?
    ensures StreamVerdict(w, snap, s, since).failure.None? && StreamVerdict(w, snap, s, since).events == 0
  {
    hide PriorHash, CheckHead;
  }

  lemma PriorIsBefore(snap: Snapshot, s: string, since: int, full: seq<EventRow>)
    requires Faithful(snap) && full == snap.rowsFrom(s, 1) && Contiguous(full, 1) && since >= 1
    ensures since <= |full| + 1 ==> PriorHash(snap, s, since) == Before(full, since - 1, None)
  {
    hide ReadsRows, Faithful;
    if 1 < since <= |full| + 1 {
      FaithfulParts(snap, s, 1);
      FaithfulParts(snap, s, since - 1);
      ReadsSuffix(snap.tables, s, full, since - 1, snap.rowsFrom(s, since - 1));
      assert snap.rowsFrom(s, since - 1)[0] == full[since - 2];
    }
  }

  // ---- append, then verify ---------------------------------------------------------------------

  lemma ChainRow(w: Sealing, l: Ledger, chains: Chains, id: string)
    requires StoredRep(w, l, chains) && LocatedRep(l, chains) && id in l.events
    ensures var row := l.events[id];
            && row.eventId == id && row.streamId in chains && 1 <= row.sequence <= |chains[row.streamId]|
            && row == RowOf(w, chains[row.streamId][row.sequence - 1])
  {
    hide WellSealed;
    var row := l.events[id];
    assert Located(l, chains, id);
    assert StoredAt(w, l, chains[row.streamId], row.streamId, row.sequence - 1);
  }

  lemma ReadInChain(w: Sealing, l: Ledger, chains: Chains, s: string, rows: seq<EventRow>, i: nat)
    requires StoredRep(w, l, chains) && LocatedRep(l, chains) && ReadsRows(l, s, 1, rows) && i < |rows|
    ensures s in chains && 1 <= rows[i].sequence <= |chains[s]| && rows[i] == RowOf(w, chains[s][rows[i].sequence - 1])
  {
    hide StoredRep, LocatedRep, RowOf;
    ChainRow(w, l, chains, rows[i].eventId);
  }

  lemma ChainInRead(w: Sealing, l: Ledger, chains: Chains, s: string, rows: seq<EventRow>, k: nat)
    requires StoredRep(w, l, chains) && s in chains && ReadsRows(l, s, 1, rows) && 1 <= k <= |chains[s]|
    ensures HasSequence(rows, k)
  {
    hide StoredRep, RowOf;
    ChainEventStored(w, l, chains, s, k - 1);
    var row := RowOf(w, chains[s][k - 1]);
    assert l.events[row.eventId] in rows;
    var a :| 0 <= a < |rows| && rows[a] == row;
  }

  lemma ReadAscends(w: Sealing, l: Ledger, chains: Chains, s: string, rows: seq<EventRow>, a: nat, b: nat)
    requires StoredRep(w, l, chains) && LocatedRep(l, chains) && ReadsRows(l, s, 1, rows) && a < b < |rows|
    ensures rows[a].sequence < rows[b].sequence
  {
    hide StoredRep, LocatedRep, RowOf;
    ReadInChain(w, l, chains, s, rows, a);
    ReadInChain(w, l, chains, s, rows, b);
    assert rows[a].eventId != rows[b].eventId && rows[a].sequence <= rows[b].sequence;
  }

  /** The rows of a represented stream are the rows of its chain, in order. */
  lemma ChainIsRead(w: Sealing, l: Ledger, chains: Chains, s: string, rows: seq<EventRow>)
    requires StoredRep(w, l, chains) && LocatedRep(l, chains) && s in chains && ReadsRows(l, s, 1, rows)
    ensures |rows| == |chains[s]| && forall i :: 0 <= i < |rows| ==> rows[i] == RowOf(w, chains[s][i])
  {
    hide StoredRep, LocatedRep, RowOf, ReadsRows, HasSequence;
    forall i | 0 <= i < |rows|
      ensures 1 <= rows[i].sequence <= |chains[s]| && rows[i] == RowOf(w, chains[s][rows[i].sequence - 1])
    {
      ReadInChain(w, l, chains, s, rows, i);
    }
    forall a, b | 0 <= a < b < |rows| ensures rows[a].sequence < rows[b].sequence {
      ReadAscends(w, l, chains, s, rows, a, b);
    }
    forall k | 1 <= k <= |chains[s]| ensures HasSequence(rows, k) { ChainInRead(w, l, chains, s, rows, k); }
    CoveringIsContiguous(rows, 1, |chains[s]|);
  }

  lemma ChainEventStored(w: Sealing, l: Ledger, chains: Chains, s: string, i: nat)
    requires StoredRep(w, l, chains) && s in chains && i < |chains[s]|
    ensures var row := RowOf(w, chains[s][i]);
            && row.eventId in l.events && l.events[row.eventId] == row && row.streamId == s && row.sequence == i + 1
  {
    hide WellSealed;
    assert StoredAt(w, l, chains[s], s, i);
  }

  lemma ChainCertifies(w: Sealing, snap: Snapshot, chains: Chains, s: string, rows: seq<EventRow>, i: nat)
    requires Lawful(w) && Faithful(snap) && StoredRep(w, snap.tables, chains) && s in chains
    requires |rows| == |chains[s]| && forall k :: 0 <= k < |rows| ==> rows[k] == RowOf(w, chains[s][k])
    requires i < |rows|
    ensures CertifiedAt(w, snap, rows, 1, None, i)
  {
    hide ReadsRows, HasLastRow, Rebuild;
    var sealed := chains[s][i];
    assert StoredAt(w, snap.tables, chains[s], s, i);
    var refs := snap.refsOf(rows[i].eventId);
    assert Enumerates(refs, snap.tables.refs, rows[i].eventId);
    forall r ensures r in refs <==> RefRow(rows[i].eventId, r) in RefRowsOf(sealed) {
      assert RefRow(rows[i].eventId, r) in snap.tables.refs <==> r in sealed.envelope.refs;
    }
    RowsRebuildSealedEvent(w, sealed, refs);
    assert Rebuild(w, rows[i], refs) == Some(sealed);
  }

  /** Every stream of a represented ledger has a clean full walk over exactly its events. */
  lemma RepresentedStreamVerifies(w: Sealing, snap: Snapshot, chains: Chains, s: string)
    requires Lawful(w) && Faithful(snap) && Represents(w, snap.tables, chains) && s in snap.tables.heads
    ensures StreamVerdict(w, snap, s, 1).failure.None?
    ensures StreamVerdict(w, snap, s, 1).events == |chains[s]| == |snap.rowsFrom(s, 1)|
  {
    hide Faithful, StreamVerdict, StoredRep, LocatedRep, ReadsRows, CleanRun, CheckHead, IndexExact;
    hide RefsOwned, HeadMatches, RowOf;
    var rows := snap.rowsFrom(s, 1);
    assert s in chains && HeadMatches(snap.tables.heads[s], chains[s]);
    FaithfulParts(snap, s, 1);
    ChainIsRead(w, snap.tables, chains, s, rows);
    ChainRunIsClean(w, snap, chains, s, rows);
    CertifiedRuns(w, snap, rows, 1, None);
    ChainHeadIsClean(w, snap.tables.heads[s], chains[s], rows);
    FullWalkMeaning(w, snap, s);
  }

  lemma ChainRunIsClean(w: Sealing, snap: Snapshot, chains: Chains, s: string, rows: seq<EventRow>)
    requires Lawful(w) && Faithful(snap) && StoredRep(w, snap.tables, chains) && s in chains
    requires |rows| == |chains[s]| && forall k :: 0 <= k < |rows| ==> rows[k] == RowOf(w, chains[s][k])
    ensures CleanRun(w, snap, rows, 1, None)
  {
    hide CertifiedAt, Faithful, StoredRep, RowOf;
    forall i | 0 <= i < |rows| ensures CertifiedAt(w, snap, rows, 1, None, i) {
      ChainCertifies(w, snap, chains, s, rows, i);
    }
  }

  lemma ChainHeadIsClean(w: Sealing, head: Head, chain: seq<StoredEvent>, rows: seq<EventRow>)
    requires HeadMatches(head, chain) && Contiguous(rows, 1)
    requires |rows| == |chain| && forall k :: 0 <= k < |rows| ==> rows[k] == RowOf(w, chain[k])
    ensures HeadNames(head, if rows == [] then None else Some(rows[|rows| - 1]))
  {
    assert rows != [] ==> rows[|rows| - 1] == RowOf(w, chain[|chain| - 1]);
  }

  lemma RepresentedIsPositive(w: Sealing, l: Ledger, chains: Chains)
    requires Represents(w, l, chains)
    ensures PositiveSequences(l)
    ensures EventStreamIds(l) <= l.heads.Keys
  {
    hide StoredRep, RowOf;
    forall id | id in l.events ensures l.events[id].sequence > 0 && l.events[id].streamId in l.heads {
      assert Located(l, chains, id);
    }
  }

  /** APPEND, THEN VERIFY. Whatever history of committed, rolled-back, replayed and quarantining steps
      produced the ledger, and whatever order the database returns rows in, every stream verifies from
      every sequence on, and the whole run reports no failure unless some event sits in the stream
      whose ID is empty, which the keyset never visits. */
  lemma EveryReachableLedgerVerifies(db: Database, w: Sealing, history: seq<LedgerStep>, snap: Snapshot, since: int)
    requires Lawful(w) && ReadsAll(db) && Faithful(snap) && snap.tables == After(db, w, history) && since >= 1
    ensures forall s :: s in snap.tables.heads ==> StreamVerdict(w, snap, s, since).failure.None?
    ensures AllOk(Verdicts(w, snap, SortedSet(Scope(snap.tables, {})), since))
    ensures LedgerFailure(snap.tables, Verdicts(w, snap, SortedSet(Scope(snap.tables, {})), since), {}, since).None?
            <==> forall id :: id in InScope(snap.tables, {}, since) ==> snap.tables.events[id].streamId != ""
  {
    hide Represents, Faithful, StreamVerdict, SortedSet, After, InScope, EventsWalked;
    var chains := EveryHistoryIsChained(db, w, history);
    RepresentedIsPositive(w, snap.tables, chains);
    forall s | s in snap.tables.heads ensures StreamVerdict(w, snap, s, since).failure.None? {
      RepresentedStreamVerifies(w, snap, chains, s);
      CleanFullWalkMeansCleanTail(w, snap, s, since);
    }
    var ids := SortedSet(Scope(snap.tables, {}));
    forall i | 0 <= i < |ids| ensures StreamVerdict(w, snap, ids[i], since).failure.None? {
      assert ids[i] in ids;
    }
    EventCountFailsOnlyForTheEmptyId(w, snap, {}, since);
  }

  // ---- the count check -------------------------------------------------------------------------

  function InStreams(l: Ledger, streams: set<string>, since: int): set<string> {
    set id | id in l.events && l.events[id].sequence >= since && l.events[id].streamId in streams
  }

  lemma StreamCount(snap: Snapshot, s: string, since: int)
    requires Faithful(snap)
    ensures |snap.rowsFrom(s, since)| == |InStreams(snap.tables, {s}, since)|
  {
    var rows := snap.rowsFrom(s, since);
    assert ReadsRows(snap.tables, s, since, rows);
    var ids := seq(|rows|, i requires 0 <= i < |rows| => rows[i].eventId);
    DistinctCount(ids);
    forall id ensures id in ids <==> id in InStreams(snap.tables, {s}, since) {
      if id in InStreams(snap.tables, {s}, since) {
        assert snap.tables.events[id] in rows;
        var i :| 0 <= i < |rows| && rows[i] == snap.tables.events[id];
        assert ids[i] == id;
      }
    }
    assert (set id | id in ids) == InStreams(snap.tables, {s}, since);
  }

  /** A clean verdict counts every row it was given, and spans them. */
  lemma CleanVerdictCounts(w: Sealing, snap: Snapshot, s: string, since: int)
    requires StreamVerdict(w, snap, s, since).failure.None?
    ensures var verdict, n := StreamVerdict(w, snap, s, since), |snap.rowsFrom(s, since)|;
            && verdict.events == n
            && verdict.firstSequence == (if n == 0 then None else Some(since))
            && verdict.lastSequence == (if n == 0 then None else Some(since + n - 1))
  {
    hide CleanRun, NextRow, PriorHash, CheckHead;
    WalkedIsCleanRun(w, snap, Begin(snap, s, since), snap.rowsFrom(s, since));
  }

  function Elements(ids: seq<string>): set<string> {
    set s | s in ids
  }

  lemma {:induction false} WalkedEventsAreThoseOfTheStreams(w: Sealing, snap: Snapshot, ids: seq<string>, since: int)
    requires Faithful(snap) && AllOk(Verdicts(w, snap, ids, since))
    requires forall i, j :: 0 <= i < j < |ids| ==> ids[i] != ids[j]
    ensures EventsWalked(Verdicts(w, snap, ids, since)) == |InStreams(snap.tables, Elements(ids), since)|
  {
    hide Faithful, StreamVerdict, InStreams;
    if ids == [] {
      NoStreamsNoEvents(snap.tables, since);
    } else {
      var n := |ids| - 1;
      var before, s := ids[..n], ids[n];
      assert ids == before + [s];
      VerdictsJoin(w, snap, before, [s], since);
      assert Verdicts(w, snap, ids, since)[..n] == Verdicts(w, snap, before, since);
      assert Verdicts(w, snap, ids, since)[n] == StreamVerdict(w, snap, s, since);
      forall i | 0 <= i < n ensures Verdicts(w, snap, before, since)[i].failure.None? {
        assert Verdicts(w, snap, ids, since)[i].failure.None?;
      }
      WalkedEventsAreThoseOfTheStreams(w, snap, before, since);
      CleanVerdictCounts(w, snap, s, since);
      StreamCount(snap, s, since);
      StreamsSplit(snap.tables, before, s, since);
    }
  }

  lemma NoStreamsNoEvents(l: Ledger, since: int)
    ensures InStreams(l, Elements([]), since) == {}
  {}

  lemma StreamsSplit(l: Ledger, before: seq<string>, s: string, since: int)
    requires s !in before
    ensures |InStreams(l, Elements(before + [s]), since)|
              == |InStreams(l, Elements(before), since)| + |InStreams(l, {s}, since)|
  {
    var a, b := InStreams(l, Elements(before), since), InStreams(l, {s}, since);
    assert InStreams(l, Elements(before + [s]), since) == a + b;
    assert a !! b;
  }

  /** THE COUNT. Once every visited stream verified in one snapshot, `event_count` can fail only for
      events of the stream whose ID is empty, and only when no stream was requested. */
  lemma EventCountFailsOnlyForTheEmptyId(w: Sealing, snap: Snapshot, requested: set<string>, since: int)
    requires Faithful(snap) && AllOk(Verdicts(w, snap, SortedSet(Scope(snap.tables, requested)), since))
    ensures var l := snap.tables;
            LedgerFailure(l, Verdicts(w, snap, SortedSet(Scope(l, requested)), since), requested, since).Some?
            <==> requested == {} && exists id :: id in InScope(l, requested, since) && l.events[id].streamId == ""
  {
    hide Faithful, StreamVerdict, SortedSet, AllOk, Verdicts, EventsWalked, InStreams, InScope, Elements;
    var l, scope := snap.tables, Scope(snap.tables, requested);
    SortedIsDistinct(scope);
    WalkedEventsAreThoseOfTheStreams(w, snap, SortedSet(scope), since);
    assert Elements(SortedSet(scope)) == scope by { SortedElements(scope); }
    WalkedOrNameless(l, requested, since);
  }

  lemma SortedIsDistinct(s: set<string>)
    ensures forall i, j :: 0 <= i < j < |SortedSet(s)| ==> SortedSet(s)[i] != SortedSet(s)[j]
  {
    hide SortedSet, Less;
    var ids := SortedSet(s);
    forall i, j | 0 <= i < j < |ids| ensures ids[i] != ids[j] {
      assert Less(ids[i], ids[j]);
      LessIrreflexive(ids[i]);
    }
  }

  lemma SortedElements(s: set<string>)
    ensures Elements(SortedSet(s)) == s
  {
    hide SortedSet;
  }

  /** As many events are walked as are stored, unless one in scope has no stream name. */
  lemma WalkedOrNameless(l: Ledger, requested: set<string>, since: int)
    ensures |InScope(l, requested, since)| != |InStreams(l, Scope(l, requested), since)|
            <==> requested == {} && exists id :: id in InScope(l, requested, since) && l.events[id].streamId == ""
  {
    var walked, stored := InStreams(l, Scope(l, requested), since), InScope(l, requested, since);
    forall id | id in stored && id !in walked ensures requested == {} && l.events[id].streamId == "" {}
    assert walked <= stored by {
      forall id | id in walked ensures id in stored {}
    }
    if requested == {} && exists id :: id in stored && l.events[id].streamId == "" {
      var id :| id in stored && l.events[id].streamId == "";
      SubsetSize(walked, stored - {id});
    } else {
      assert walked == stored;
    }
  }

  /** Such ledgers are reachable: one event submitted to the stream with the empty ID is sealed and chained,
      every stream the run visits verifies, and the count alone fails. */
  lemma TheEmptyIdIsReachable(db: Database, w: Sealing, ev: ResolvedEvent) returns (snap: Snapshot)
    requires Lawful(w) && ReadsAll(db) && ReportsKnown(ev)
    requires ev.draft.streamId == "" && ev.draft.claims == [] && ev.refs == []
    ensures Faithful(snap) && snap.tables == After(db, w, [Submit([ev])])
    ensures AllOk(Verdicts(w, snap, SortedSet(Scope(snap.tables, {})), 1))
    ensures LedgerFailure(snap.tables, Verdicts(w, snap, SortedSet(Scope(snap.tables, {})), 1), {}, 1).Some?
  {
    hide Verdicts, SortedSet, Faithful, ReportsKnown, LedgerFailure, AllOk;
    var l := After(db, w, [Submit([ev])]);
    var id := ev.draft.eventId;
    LoneEvent(db, w, ev);
    snap := SnapshotOfOne(l, id);
    EveryReachableLedgerVerifies(db, w, [Submit([ev])], snap, 1);
    assert id in InScope(snap.tables, {}, 1);
  }

  /** The ledger after one event without claims. */
  lemma LoneEvent(db: Database, w: Sealing, ev: ResolvedEvent)
    requires ReportsKnown(ev) && ev.draft.claims == [] && ev.refs == []
    ensures var l := After(db, w, [Submit([ev])]);
            && l.events.Keys == {ev.draft.eventId} && l.refs == {}
            && l.events[ev.draft.eventId].eventId == ev.draft.eventId
            && l.events[ev.draft.eventId].streamId == ev.draft.streamId && l.events[ev.draft.eventId].sequence == 1
  {
    assert [Submit([ev])][..0] == [] && [ev][..0] == [];
    hide ReportsKnown, Recover;
    assert Canonicalize(ev.draft).claims == [];
    assert After(db, w, [Submit([ev])][..0]) == EmptyLedger;
    var locked := EnsureStream(EmptyLedger, ev.draft.streamId);
    assert Seal(w, Canonicalize(ev.draft), ev.refs, 1, None).Some?;
    assert InsertStep(db, w, locked, StateOf(EmptyHead), ev).Ok?;
    assert Fold(db, w, EmptyLedger, [ev]) == ThenAppend(db, w, Fold(db, w, EmptyLedger, [ev][..0]), [ev][0]);
  }

  /** One way the database can return the rows of such a ledger. */
  lemma SnapshotOfOne(l: Ledger, id: string) returns (snap: Snapshot)
    requires l.events.Keys == {id} && l.events[id].eventId == id && l.refs == {}
    ensures Faithful(snap) && snap.tables == l
  {
    var row := l.events[id];
    snap := Snapshot(l, _ => [], (s, since) => if InRange(row, s, since) then [row] else [],
                     s => if row.streamId == s then Some(row) else None);
    assert forall s, since :: ReadsRows(l, s, since, snap.rowsFrom(s, since));
    assert forall s :: HasLastRow(l, s, snap.lastRow(s));
    assert forall e :: Enumerates(snap.refsOf(e), l.refs, e);
  }

  // ---- tamper evidence -------------------------------------------------------------------------

  function SealedEvent(w: Sealing, snap: Snapshot, row: EventRow): Option<StoredEvent> {
    Rebuild(w, row, snap.refsOf(row.eventId))
  }

  /** Equal digests under the verifier's checks mean equal events, links included. */
  lemma SameDigestSameEvent(w: Sealing, a: Snapshot, b: Snapshot, rowsA: seq<EventRow>, rowsB: seq<EventRow>, i: nat)
    requires InjectiveDigest(w) && i < |rowsA| && i < |rowsB|
    requires CertifiedAt(w, a, rowsA, 1, None, i) && CertifiedAt(w, b, rowsB, 1, None, i)
    requires rowsA[i].eventHash == rowsB[i].eventHash
    ensures SealedEvent(w, a, rowsA[i]) == SealedEvent(w, b, rowsB[i]) && SealedEvent(w, a, rowsA[i]).Some?
    ensures i > 0 ==> rowsA[i - 1].eventHash == rowsB[i - 1].eventHash
  {
    hide SameForm;
    var ea, eb := SealedEvent(w, a, rowsA[i]).value, SealedEvent(w, b, rowsB[i]).value;
    assert w.eventHash(ea.envelope) == w.eventHash(eb.envelope);
  }

  lemma {:induction false} SameFrom(w: Sealing, a: Snapshot, b: Snapshot, rowsA: seq<EventRow>, rowsB: seq<EventRow>,
                                    i: nat)
    requires InjectiveDigest(w) && |rowsA| == |rowsB| && i < |rowsA|
    requires CleanRun(w, a, rowsA, 1, None) && CleanRun(w, b, rowsB, 1, None)
    requires rowsA[|rowsA| - 1].eventHash == rowsB[|rowsB| - 1].eventHash
    ensures rowsA[i].eventHash == rowsB[i].eventHash
    ensures SealedEvent(w, a, rowsA[i]) == SealedEvent(w, b, rowsB[i]) && SealedEvent(w, a, rowsA[i]).Some?
    decreases |rowsA| - i
  {
    hide CertifiedAt, SealedEvent, InjectiveDigest;
    assert CertifiedAt(w, a, rowsA, 1, None, i) && CertifiedAt(w, b, rowsB, 1, None, i);
    if i < |rowsA| - 1 {
      SameFrom(w, a, b, rowsA, rowsB, i + 1);
      assert CertifiedAt(w, a, rowsA, 1, None, i + 1) && CertifiedAt(w, b, rowsB, 1, None, i + 1);
      SameDigestSameEvent(w, a, b, rowsA, rowsB, i + 1);
    }
    SameDigestSameEvent(w, a, b, rowsA, rowsB, i);
  }

  /** The stored columns behind one sealed event can differ only in a form the canonical JSON ignores,
      and its ref rows not at all. */
  lemma SameEventSameRows(w: Sealing, a: Snapshot, b: Snapshot, rowA: EventRow, rowB: EventRow, i: nat,
                          previous: Option<Hash>)
    requires Faithful(a) && Faithful(b)
    requires Certifies(w, rowA, 1 + i, previous, a.refsOf(rowA.eventId))
             && Certifies(w, rowB, 1 + i, previous, b.refsOf(rowB.eventId))
    requires SealedEvent(w, a, rowA) == SealedEvent(w, b, rowB)
    ensures rowA.(columns := rowB.columns) == rowB && SameForm(w, rowA.columns, rowB.columns)
    ensures forall r :: RefRow(rowA.eventId, r) in a.tables.refs <==> RefRow(rowA.eventId, r) in b.tables.refs
  {
    hide ReadsRows, HasLastRow;
    var id := rowA.eventId;
    assert Enumerates(a.refsOf(id), a.tables.refs, id) && Enumerates(b.refsOf(id), b.tables.refs, id);
    SortElements(a.refsOf(id), RefBefore());
    SortElements(b.refsOf(id), RefBefore());
  }

  /** Two snapshots hold the same sealed events of a stream, column by column and ref by ref. */
  ghost predicate SameStream(w: Sealing, a: Snapshot, b: Snapshot, s: string) {
    var rowsA, rowsB := a.rowsFrom(s, 1), b.rowsFrom(s, 1);
    && |rowsA| == |rowsB|
    && forall i :: 0 <= i < |rowsA| ==>
         && SealedEvent(w, a, rowsA[i]) == SealedEvent(w, b, rowsB[i])
         && rowsA[i].(columns := rowsB[i].columns) == rowsB[i]
         && SameForm(w, rowsA[i].columns, rowsB[i].columns)
         && forall r :: RefRow(rowsA[i].eventId, r) in a.tables.refs <==> RefRow(rowsA[i].eventId, r) in b.tables.refs
  }

  /** TAMPER EVIDENCE. Two snapshots of a stream that both verify and agree on the head's sequence and
      digest hold the same sealed events, column by column and ref by ref, and their heads name the same
      last event. */
  lemma HeadDigestFixesTheStream(w: Sealing, a: Snapshot, b: Snapshot, s: string)
    requires InjectiveDigest(w) && Faithful(a) && Faithful(b)
    requires StreamVerdict(w, a, s, 1).failure.None? && StreamVerdict(w, b, s, 1).failure.None?
    requires a.tables.heads[s].lastSequence == b.tables.heads[s].lastSequence
    requires a.tables.heads[s].lastHash == b.tables.heads[s].lastHash
    ensures SameStream(w, a, b, s)
    ensures a.rowsFrom(s, 1) != [] ==> a.tables.heads[s].lastEventId == b.tables.heads[s].lastEventId
  {
    hide CleanRun, Faithful, SealedEvent, StreamVerdict, InjectiveDigest, SameForm, Certifies;
    var rowsA, rowsB := a.rowsFrom(s, 1), b.rowsFrom(s, 1);
    FullWalkMeaning(w, a, s);
    FullWalkMeaning(w, b, s);
    CertifiedRuns(w, a, rowsA, 1, None);
    CertifiedRuns(w, b, rowsB, 1, None);
    forall i | 0 <= i < |rowsA|
      ensures SealedEvent(w, a, rowsA[i]) == SealedEvent(w, b, rowsB[i])
      ensures rowsA[i].(columns := rowsB[i].columns) == rowsB[i] && SameForm(w, rowsA[i].columns, rowsB[i].columns)
      ensures forall r :: RefRow(rowsA[i].eventId, r) in a.tables.refs <==> RefRow(rowsA[i].eventId, r) in b.tables.refs
    {
      SameFrom(w, a, b, rowsA, rowsB, i);
      if i > 0 { SameFrom(w, a, b, rowsA, rowsB, i - 1); }
      CleanRunAt(w, a, rowsA, i);
      CleanRunAt(w, b, rowsB, i);
      SameEventSameRows(w, a, b, rowsA[i], rowsB[i], i, Before(rowsA, i, None));
    }
  }

  /** So an edit of any sealed column or ref of a verified stream, or of the last event's ID in the head row of
      one that has events, is reported, whatever links were repaired to match, as long as the head row keeps
      its sequence and digest. */
  lemma EveryEditIsReported(w: Sealing, original: Snapshot, edited: Snapshot, s: string)
    requires InjectiveDigest(w) && Faithful(original) && Faithful(edited)
    requires StreamVerdict(w, original, s, 1).failure.None? && s in original.tables.heads && s in edited.tables.heads
    requires edited.tables.heads[s].lastSequence == original.tables.heads[s].lastSequence
    requires edited.tables.heads[s].lastHash == original.tables.heads[s].lastHash
    requires !SameStream(w, original, edited, s)
             || (original.rowsFrom(s, 1) != []
                 && edited.tables.heads[s].lastEventId != original.tables.heads[s].lastEventId)
    ensures StreamVerdict(w, edited, s, 1).failure.Some?
  {
    hide Faithful, StreamVerdict, InjectiveDigest, SameStream;
    if StreamVerdict(w, edited, s, 1).failure.None? {
      HeadDigestFixesTheStream(w, original, edited, s);
    }
  }

  /** An edit of the head row alone, in its sequence, last event ID or digest, is reported from every sequence
      on, unless the stream is empty and only the ID was edited. */
  lemma EveryHeadEditIsReported(w: Sealing, original: Snapshot, edited: Snapshot, s: string, head: Head, since: int)
    requires Faithful(original) && PositiveSequences(original.tables) && since >= 1
    requires StreamVerdict(w, original, s, since).failure.None? && s in original.tables.heads
    requires edited == original.(tables := original.tables.(heads := original.tables.heads[s := head]))
    ensures var was := original.tables.heads[s];
            StreamVerdict(w, edited, s, since).failure.Some?
            <==> || head.lastSequence != was.lastSequence || head.lastHash != was.lastHash
                 || (head.lastEventId != was.lastEventId && HasEvents(original.tables, s))
  {
    hide StreamVerdict, CleanRun, Certifies, ReadsRows, Faithful;
    FaithIgnoresHeads(original, edited);
    FaithfulParts(original, s, since);
    VerdictIsExact(w, original, s, since);
    VerdictIsExact(w, edited, s, since);
    SameRun(w, original, edited, original.rowsFrom(s, since), since, PriorHash(original, s, since));
  }

  lemma FaithIgnoresHeads(a: Snapshot, b: Snapshot)
    requires Faithful(a) && b == a.(tables := a.tables.(heads := b.tables.heads))
    ensures Faithful(b)
  {
    assert forall s, since :: ReadsRows(a.tables, s, since, a.rowsFrom(s, since)) ==>
        ReadsRows(b.tables, s, since, b.rowsFrom(s, since));
  }

  lemma SameRun(w: Sealing, a: Snapshot, b: Snapshot, rows: seq<EventRow>, since: int, previous: Option<Hash>)
    requires a.refsOf == b.refsOf
    ensures CleanRun(w, a, rows, since, previous) <==> CleanRun(w, b, rows, since, previous)
  {
    hide Certifies;
    forall i | 0 <= i < |rows|
      ensures CertifiedAt(w, a, rows, since, previous, i) <==> CertifiedAt(w, b, rows, since, previous, i)
    {}
  }

  lemma CleanRunAt(w: Sealing, snap: Snapshot, rows: seq<EventRow>, i: nat)
    requires CleanRun(w, snap, rows, 1, None) && i < |rows|
    ensures Certifies(w, rows[i], 1 + i, Before(rows, i, None), snap.refsOf(rows[i].eventId))
  {
    hide Certifies;
    assert CertifiedAt(w, snap, rows, 1, None, i);
  }
}

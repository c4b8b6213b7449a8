/** The independent verifier: what one event, one stream and one head row must show, the walk over a
    stream in batches, and what a clean verdict means. It reads arbitrary tables, tampered ones too. */
module LedgerVerify {
  import opened Keyset
  import opened Orders
  import opened LedgerTables
  import opened LedgerAppend

  datatype Check =
    | StreamExists | Sequence | PreviousDigest | EventDecode | ProducerId | PayloadDigest | EventDigest
    | StreamHead | StreamHeadMissing | EventCount

  datatype Shown = Nothing | Number(n: int) | Text(s: string)

  datatype Failure = Failure(check: Check, sequence: Option<int>, eventId: Option<string>, expected: Shown,
                             actual: Shown)

  datatype StreamVerification = StreamVerification(streamId: string, events: nat, firstSequence: Option<int>,
                                                   lastSequence: Option<int>, failure: Option<Failure>)

  function Shows(h: Option<Hash>): Shown {
    match h case None => Nothing case Some(x) => Text(x)
  }

  // ---- one snapshot ----------------------------------------------------------------------------

  /** One repeatable-read snapshot and the order in which the database returns its rows. */
  datatype Snapshot = Snapshot(tables: Ledger,
                               refsOf: string -> seq<Ref>,
                               rowsFrom: (string, int) -> seq<EventRow>,
                               lastRow: string -> Option<EventRow>)

  predicate InRange(row: EventRow, streamId: string, since: int) {
    row.streamId == streamId && row.sequence >= since
  }

  /** All rows of a stream from a sequence on, each once, ordered by sequence. */
  ghost predicate ReadsRows(l: Ledger, streamId: string, since: int, rows: seq<EventRow>) {
    && (forall i :: 0 <= i < |rows| ==>
          rows[i].eventId in l.events && l.events[rows[i].eventId] == rows[i] && InRange(rows[i], streamId, since))
    && (forall id :: id in l.events && InRange(l.events[id], streamId, since) ==> l.events[id] in rows)
    && (forall i, j :: 0 <= i < j < |rows| ==>
        rows[i].eventId != rows[j].eventId && rows[i].sequence <= rows[j].sequence)
  }

  ghost predicate HasLastRow(l: Ledger, streamId: string, last: Option<EventRow>) {
    && (last.Some? ==>
          && last.value.eventId in l.events && l.events[last.value.eventId] == last.value
          && last.value.streamId == streamId)
    && (forall id :: id in l.events && l.events[id].streamId == streamId ==>
          last.Some? && l.events[id].sequence <= last.value.sequence)
  }

  ghost predicate Faithful(snap: Snapshot) {
    && (forall id :: id in snap.tables.events ==> snap.tables.events[id].eventId == id)
    && (forall id :: Enumerates(snap.refsOf(id), snap.tables.refs, id))
    && (forall s, since :: ReadsRows(snap.tables, s, since, snap.rowsFrom(s, since)))
    && (forall s :: HasLastRow(snap.tables, s, snap.lastRow(s)))
  }

  // ---- one event -------------------------------------------------------------------------------

  predicate SameForm(w: Sealing, stored: Columns, decoded: Columns) {
    && w.canonical(stored.producer) == w.canonical(decoded.producer)
    && w.canonical(stored.context) == w.canonical(decoded.context)
    && (match (stored.trace, decoded.trace)
        case (None, None) => true
        case (Some(a), Some(b)) => w.canonical(a) == w.canonical(b)
        case _ => false)
    && w.canonical(stored.payload) == w.canonical(decoded.payload)
    && w.canonical(stored.redaction) == w.canonical(decoded.redaction)
  }

  function Fail(row: EventRow, check: Check, expected: Shown, actual: Shown): Option<Failure> {
    Some(Failure(check, Some(row.sequence), Some(row.eventId), expected, actual))
  }

  /** `_check_event`: the first check the row fails. */
  function CheckEvent(w: Sealing, row: EventRow, expected: int, previous: Option<Hash>,
                      refs: seq<Ref>): Option<Failure> {
    if row.sequence != expected then Fail(row, Sequence, Number(expected), Number(row.sequence))
    else if row.previous != previous then Fail(row, PreviousDigest, Shows(previous), Shows(row.previous))
    else
      match Rebuild(w, row, refs)
      case None => Fail(row, EventDecode, Nothing, Nothing)
      case Some(event) =>
        var e := event.envelope;
        if !SameForm(w, row.columns, w.dump(e.documents)) then Fail(row, EventDecode, Nothing, Nothing)
        else if row.producerId != e.documents.producerId then
          Fail(row, ProducerId, Text(e.documents.producerId), Text(row.producerId))
        else if w.payloadHash(e.documents.payload) != row.payloadHash then
          Fail(row, PayloadDigest, Text(w.payloadHash(e.documents.payload)), Text(row.payloadHash))
        else if w.eventHash(e) != row.eventHash then
          Fail(row, EventDigest, Text(w.eventHash(e)), Text(row.eventHash))
        else None
  }

  /** What a row that passes says: it rebuilds an event whose digests are its own, at its place. */
  ghost predicate Certifies(w: Sealing, row: EventRow, expected: int, previous: Option<Hash>, refs: seq<Ref>) {
    && Rebuild(w, row, refs).Some?
    && var s := Rebuild(w, row, refs).value;
    && s.envelope.sequence == expected && s.envelope.previous == previous
    && s.eventHash == w.eventHash(s.envelope)
    && s.envelope.payloadHash == w.payloadHash(s.envelope.documents.payload)
    && row.producerId == s.envelope.documents.producerId
    && SameForm(w, row.columns, w.dump(s.envelope.documents))
  }

  lemma CheckEventCertifies(w: Sealing, row: EventRow, expected: int, previous: Option<Hash>, refs: seq<Ref>)
    ensures CheckEvent(w, row, expected, previous, refs).None? <==> Certifies(w, row, expected, previous, refs)
  {
    hide SameForm;
  }

  /** Under which check a row that fails is reported: place first, then decoding, then producer and digests. */
  lemma CheckEventDiagnoses(w: Sealing, row: EventRow, expected: int, previous: Option<Hash>, refs: seq<Ref>)
    requires CheckEvent(w, row, expected, previous, refs).Some?
    ensures var f, rebuilt := CheckEvent(w, row, expected, previous, refs).value, Rebuild(w, row, refs);
            var placed := row.sequence == expected && row.previous == previous;
            var decoded := placed && rebuilt.Some?
                           && SameForm(w, row.columns, w.dump(rebuilt.value.envelope.documents));
            && f.sequence == Some(row.sequence) && f.eventId == Some(row.eventId)
            && (f.check == Sequence <==> row.sequence != expected)
            && (f.check == PreviousDigest <==> row.sequence == expected && row.previous != previous)
            && (f.check == EventDecode <==> placed && !decoded)
            && (f.check == ProducerId <==> decoded && row.producerId != rebuilt.value.envelope.documents.producerId)
            && (f.check == PayloadDigest <==>
                  && decoded && row.producerId == rebuilt.value.envelope.documents.producerId
                  && row.payloadHash != w.payloadHash(rebuilt.value.envelope.documents.payload))
            && (f.check == EventDigest ==> decoded && row.eventHash != w.eventHash(rebuilt.value.envelope))
            && (f.check != EventDecode ==> f.expected != f.actual)
  {
    hide SameForm;
  }

  /** `_check_head`. */
  function CheckHead(head: Head, last: Option<EventRow>): Option<Failure> {
    match last
    case None =>
      if head.lastSequence != 0 || head.lastHash != None
      then Some(Failure(StreamHead, None, None, Number(0), Number(head.lastSequence))) else None
    case Some(row) =>
      if head.lastSequence != row.sequence then
        Fail(row, StreamHead, Number(row.sequence), Number(head.lastSequence))
      else if head.lastEventId != Some(row.eventId) || head.lastHash != Some(row.eventHash) then
        Fail(row, StreamHead, Text(row.eventHash), Shows(head.lastHash))
      else None
  }

  /** The head names the stream's last event, column by column, or none. */
  predicate HeadNames(head: Head, last: Option<EventRow>) {
    match last
    case None => head.lastSequence == 0 && head.lastHash == None
    case Some(row) =>
      && head.lastSequence == row.sequence && head.lastEventId == Some(row.eventId)
      && head.lastHash == Some(row.eventHash)
  }

  lemma CheckHeadNames(head: Head, last: Option<EventRow>)
    ensures CheckHead(head, last).None? <==> HeadNames(head, last)
    ensures CheckHead(head, last).Some? ==>
              var f := CheckHead(head, last).value;
              && f.check == StreamHead
              && f.sequence == (if last.Some? then Some(last.value.sequence) else None)
              && f.eventId == (if last.Some? then Some(last.value.eventId) else None)
  {}

  // ---- one stream ------------------------------------------------------------------------------

  /** The variables of the walk. */
  datatype Progress = Progress(result: StreamVerification, expected: int, previous: Option<Hash>,
                               last: Option<EventRow>)

  function NextRow(w: Sealing, snap: Snapshot, p: Progress, row: EventRow): Progress {
    match CheckEvent(w, row, p.expected, p.previous, snap.refsOf(row.eventId))
    case Some(f) => p.(result := p.result.(failure := Some(f)))
    case None =>
      var first := if p.result.firstSequence.None? then Some(row.sequence) else p.result.firstSequence;
      Progress(p.result.(events := p.result.events + 1, firstSequence := first, lastSequence := Some(row.sequence)),
               row.sequence + 1, Some(row.eventHash), Some(row))
  }

  /** Row by row, up to the first failure. */
  function Walked(w: Sealing, snap: Snapshot, start: Progress, rows: seq<EventRow>): Progress {
    if rows == [] then start else
      var p := Walked(w, snap, start, rows[..|rows| - 1]);
      if p.result.failure.Some? then p else NextRow(w, snap, p, rows[|rows| - 1])
  }

  /** The digest of the event just before the range. */
  function PriorHash(snap: Snapshot, streamId: string, since: int): Option<Hash> {
    var rows := snap.rowsFrom(streamId, since - 1);
    if since > 1 && rows != [] && rows[0].sequence == since - 1 then Some(rows[0].eventHash) else None
  }

  predicate HasEvents(l: Ledger, streamId: string) {
    exists id :: id in l.events && l.events[id].streamId == streamId
  }

  function Begin(snap: Snapshot, streamId: string, since: int): Progress {
    Progress(StreamVerification(streamId, 0, None, None, None), since, PriorHash(snap, streamId, since), None)
  }

  /** `_verify_stream`, with no batches in it. */
  function StreamVerdict(w: Sealing, snap: Snapshot, streamId: string, since: int): StreamVerification {
    var start := Begin(snap, streamId, since);
    if streamId !in snap.tables.heads then
      start.result.(failure :=
          Some(Failure(if HasEvents(snap.tables, streamId) then StreamHeadMissing else StreamExists,
                                            None, None, Nothing, Nothing)))
    else
      var rows := snap.rowsFrom(streamId, since);
      if since > 1 && start.previous.None? && rows != [] then
        start.result.(failure :=
            Some(Failure(Sequence, Some(rows[0].sequence), None, Number(since - 1), Number(rows[0].sequence))))
      else
        var end := Walked(w, snap, start, rows);
        if end.result.failure.Some? then end.result
        else
          var last := if end.last.None? && since > 1 then snap.lastRow(streamId) else end.last;
          end.result.(failure := CheckHead(snap.tables.heads[streamId], last))
  }

  // ---- what a walk without failure means --------------------------------------------------------

  function Before(rows: seq<EventRow>, i: nat, previous: Option<Hash>): Option<Hash>
    requires i <= |rows|
  {
    if i == 0 then previous else Some(rows[i - 1].eventHash)
  }

  /** Every row certifies an event, contiguous from `since` and linked to the row before it. */
  ghost predicate CleanRun(w: Sealing, snap: Snapshot, rows: seq<EventRow>, since: int, previous: Option<Hash>) {
    forall i :: 0 <= i < |rows| ==> CertifiedAt(w, snap, rows, since, previous, i)
  }

  ghost predicate CertifiedAt(w: Sealing, snap: Snapshot, rows: seq<EventRow>, since: int, previous: Option<Hash>,
                              i: nat)
    requires i < |rows|
  {
    Certifies(w, rows[i], since + i, Before(rows, i, previous), snap.refsOf(rows[i].eventId))
  }

  lemma {:induction false} WalkedIsCleanRun(w: Sealing, snap: Snapshot, start: Progress, rows: seq<EventRow>)
    requires start.result.failure.None? && start.result.events == 0 && start.last.None?
             && start.result.firstSequence.None? && start.result.lastSequence.None?
    ensures var end := Walked(w, snap, start, rows);
            && (end.result.failure.None? <==> CleanRun(w, snap, rows, start.expected, start.previous))
            && (end.result.failure.None? ==>
                  && end.result.events == |rows| && end.expected == start.expected + |rows|
                  && end.previous == Before(rows, |rows|, start.previous)
                  && end.last == (if rows == [] then None else Some(rows[|rows| - 1]))
                  && end.result.streamId == start.result.streamId
                  && end.result.firstSequence == (if rows == [] then None else Some(start.expected))
                  && end.result.lastSequence == (if rows == [] then None else Some(start.expected + |rows| - 1)))
  {
    hide Certifies, CheckEvent, CleanRun, NextRow;
    if rows == [] {
      NoRowsAreClean(w, snap, start.expected, start.previous);
    } else {
      var n := |rows| - 1;
      WalkedIsCleanRun(w, snap, start, rows[..n]);
      CleanRunNext(w, snap, rows, start.expected, start.previous);
      if Walked(w, snap, start, rows[..n]).result.failure.None? {
        NextRowMeaning(w, snap, Walked(w, snap, start, rows[..n]), rows[n]);
      }
    }
  }

  lemma NoRowsAreClean(w: Sealing, snap: Snapshot, since: int, previous: Option<Hash>)
    ensures CleanRun(w, snap, [], since, previous)
  {}

  lemma CleanRunNext(w: Sealing, snap: Snapshot, rows: seq<EventRow>, since: int, previous: Option<Hash>)
    requires rows != []
    ensures var n := |rows| - 1;
            && Before(rows[..n], n, previous) == Before(rows, n, previous)
            && (CleanRun(w, snap, rows, since, previous)
                <==> CleanRun(w, snap, rows[..n], since, previous) && CertifiedAt(w, snap, rows, since, previous, n))
  {
    hide CertifiedAt;
    var n := |rows| - 1;
    forall i | 0 <= i < n
      ensures CertifiedAt(w, snap, rows[..n], since, previous, i) <==> CertifiedAt(w, snap, rows, since, previous, i)
    {
      CertifiedInPrefix(w, snap, rows, since, previous, n, i);
    }
  }

  lemma CertifiedInPrefix(w: Sealing, snap: Snapshot, rows: seq<EventRow>, since: int, previous: Option<Hash>, n: nat,
                          i: nat)
    requires i < n <= |rows|
    ensures CertifiedAt(w, snap, rows[..n], since, previous, i) <==> CertifiedAt(w, snap, rows, since, previous, i)
  {
    hide Certifies;
  }

  lemma NextRowMeaning(w: Sealing, snap: Snapshot, p: Progress, row: EventRow)
    requires p.result.failure.None?
    ensures var q := NextRow(w, snap, p, row);
            && (q.result.failure.None? <==> Certifies(w, row, p.expected, p.previous, snap.refsOf(row.eventId)))
            && (q.result.failure.None? ==>
                  && q.result.events == p.result.events + 1 && q.expected == p.expected + 1
                  && q.previous == Some(row.eventHash) && q.last == Some(row)
                  && q.result.streamId == p.result.streamId && q.result.lastSequence == Some(p.expected)
                  && q.result.firstSequence
                     == (if p.result.firstSequence.None? then Some(p.expected) else p.result.firstSequence))
  {
    hide Certifies, CheckEvent;
    CheckEventCertifies(w, row, p.expected, p.previous, snap.refsOf(row.eventId));
    if Certifies(w, row, p.expected, p.previous, snap.refsOf(row.eventId)) {
      CertifiedSequence(w, row, p.expected, p.previous, snap.refsOf(row.eventId));
    }
  }

  lemma CertifiedSequence(w: Sealing, row: EventRow, expected: int, previous: Option<Hash>, refs: seq<Ref>)
    requires Certifies(w, row, expected, previous, refs)
    ensures row.sequence == expected && row.previous == previous
  {}

  lemma {:induction false} WalkStopsAtFailure(w: Sealing, snap: Snapshot, start: Progress, rows: seq<EventRow>, k: nat)
    requires k <= |rows| && Walked(w, snap, start, rows[..k]).result.failure.Some?
    ensures Walked(w, snap, start, rows) == Walked(w, snap, start, rows[..k])
  {
    if k < |rows| {
      assert rows[..|rows| - 1][..k] == rows[..k];
      WalkStopsAtFailure(w, snap, start, rows[..|rows| - 1], k);
    } else {
      assert rows[..k] == rows;
    }
  }

  lemma WalkedNext(w: Sealing, snap: Snapshot, start: Progress, rows: seq<EventRow>, k: nat)
    requires k < |rows| && Walked(w, snap, start, rows[..k]).result.failure.None?
    ensures Walked(w, snap, start, rows[..k + 1]) == NextRow(w, snap, Walked(w, snap, start, rows[..k]), rows[k])
  {
    assert rows[..k + 1][..k] == rows[..k];
  }

  /** The head row names this run of rows as the whole stream. */
  ghost predicate CleanStream(w: Sealing, snap: Snapshot, streamId: string) {
    && streamId in snap.tables.heads
    && CleanRun(w, snap, snap.rowsFrom(streamId, 1), 1, None)
    && var rows := snap.rowsFrom(streamId, 1);
       HeadNames(snap.tables.heads[streamId], if rows == [] then None else Some(rows[|rows| - 1]))
  }

  /** A full walk is clean iff every row certifies its event in place and the head names the last. */
  lemma FullWalkMeaning(w: Sealing, snap: Snapshot, streamId: string)
    ensures StreamVerdict(w, snap, streamId, 1).failure.None? <==> CleanStream(w, snap, streamId)
    ensures CleanStream(w, snap, streamId) ==>
              StreamVerdict(w, snap, streamId, 1).events == |snap.rowsFrom(streamId, 1)|
  {
    hide CleanRun, Certifies, CheckEvent, CheckHead, HeadNames;
    var rows := snap.rowsFrom(streamId, 1);
    WalkedIsCleanRun(w, snap, Begin(snap, streamId, 1), rows);
    if streamId in snap.tables.heads {
      CheckHeadNames(snap.tables.heads[streamId], if rows == [] then None else Some(rows[|rows| - 1]));
    }
  }

  /** BLAME. A walk that fails names the first row that does not certify an event in its place, having
      counted exactly the rows before it. */
  lemma {:induction false} TheFirstBadRowIsReported(w: Sealing, snap: Snapshot, start: Progress, rows: seq<EventRow>)
    returns (i: nat)
    requires start.result.failure.None? && start.result.events == 0 && start.last.None?
             && start.result.firstSequence.None? && start.result.lastSequence.None?
    requires Walked(w, snap, start, rows).result.failure.Some?
    ensures i < |rows| && CleanRun(w, snap, rows[..i], start.expected, start.previous)
    ensures !CertifiedAt(w, snap, rows, start.expected, start.previous, i)
    ensures var result := Walked(w, snap, start, rows).result;
            && result.events == i
            && result.failure.value.sequence == Some(rows[i].sequence)
            && result.failure.value.eventId == Some(rows[i].eventId)
            && RowCheck(result.failure.value.check)
  {
    hide Certifies, CheckEvent, CleanRun, NextRow;
    var n := |rows| - 1;
    if Walked(w, snap, start, rows[..n]).result.failure.Some? {
      i := TheFirstBadRowIsReported(w, snap, start, rows[..n]);
      assert rows[..n][..i] == rows[..i];
      CertifiedInPrefix(w, snap, rows, start.expected, start.previous, n, i);
    } else {
      i := n;
      var p := Walked(w, snap, start, rows[..n]);
      WalkedIsCleanRun(w, snap, start, rows[..n]);
      NextRowMeaning(w, snap, p, rows[n]);
      NextRowBlames(w, snap, p, rows[n]);
      assert Before(rows[..n], n, start.previous) == Before(rows, n, start.previous);
    }
  }

  lemma NextRowBlames(w: Sealing, snap: Snapshot, p: Progress, row: EventRow)
    requires p.result.failure.None? && NextRow(w, snap, p, row).result.failure.Some?
    ensures var result := NextRow(w, snap, p, row).result;
            && result.events == p.result.events && result.failure.value.sequence == Some(row.sequence)
            && result.failure.value.eventId == Some(row.eventId) && RowCheck(result.failure.value.check)
  {}

  /** A check of one row at its place. */
  predicate RowCheck(check: Check) {
    check in {Sequence, PreviousDigest, EventDecode, ProducerId, PayloadDigest, EventDigest}
  }

  // ---- the whole ledger ------------------------------------------------------------------------

  function EventStreamIds(l: Ledger): set<string> {
    set id | id in l.events :: l.events[id].streamId
  }

  function AllStreamIds(l: Ledger): set<string> {
    l.heads.Keys + EventStreamIds(l)
  }

  /** The streams a run visits: the requested ones, or every non-empty ID with a head row or events. */
  function Scope(l: Ledger, requested: set<string>): set<string> {
    if requested != {} then requested else AllStreamIds(l) - {""}
  }

  function Verdicts(w: Sealing, snap: Snapshot, ids: seq<string>, since: int): seq<StreamVerification> {
    seq(|ids|, i requires 0 <= i < |ids| => StreamVerdict(w, snap, ids[i], since))
  }

  lemma VerdictsJoin(w: Sealing, snap: Snapshot, a: seq<string>, b: seq<string>, since: int)
    ensures Verdicts(w, snap, a + b, since) == Verdicts(w, snap, a, since) + Verdicts(w, snap, b, since)
  {
    hide StreamVerdict;
  }

  function EventsWalked(streams: seq<StreamVerification>): nat {
    if streams == [] then 0 else EventsWalked(streams[..|streams| - 1]) + streams[|streams| - 1].events
  }

  /** The events `count(*)` counts. */
  function InScope(l: Ledger, requested: set<string>, since: int): set<string> {
    set id | id in l.events && l.events[id].sequence >= since && (requested == {} || l.events[id].streamId in requested)
  }

  predicate AllOk(streams: seq<StreamVerification>) {
    forall i :: 0 <= i < |streams| ==> streams[i].failure.None?
  }

  /** The ledger-wide check, made only once every stream verified. */
  function LedgerFailure(l: Ledger, streams: seq<StreamVerification>, requested: set<string>,
                         since: int): Option<Failure> {
    var stored, walked := |InScope(l, requested, since)|, EventsWalked(streams);
    if AllOk(streams) && stored != walked
    then Some(Failure(EventCount, None, None, Number(stored), Number(walked))) else None
  }

  lemma PagingStarts(l: Ledger)
    ensures IdsAfter(AllStreamIds(l), "") == Scope(l, {})
  {}

  // ---- the walk itself -------------------------------------------------------------------------

  class Verifier {
    const w: Sealing
    const snap: Snapshot
    var streams: seq<StreamVerification>
    var failure: Option<Failure>
    var batches: nat

    constructor (w: Sealing, snap: Snapshot)
      ensures this.w == w && this.snap == snap && streams == [] && failure == None && batches == 0
    {
      this.w := w;
      this.snap := snap;
      streams := [];
      failure := None;
      batches := 0;
    }

    /** `_walk` over the event rows, a batch at a time: the batch size never shows in the result. */
    method Walk(start: Progress, rows: seq<EventRow>, batchSize: nat) returns (end: Progress)
      requires start.result.failure.None? && batchSize >= 1
      modifies this`batches
      ensures end == Walked(w, snap, start, rows)
    {
      hide NextRow, Walked;
      end := start;
      var fetched := 0;
      assert Walked(w, snap, start, rows[..0]) == start by { WalkedNone(w, snap, start, rows); }
      while fetched < |rows|
        invariant 0 <= fetched <= |rows|
        invariant end.result.failure.None? && end == Walked(w, snap, start, rows[..fetched])
      {
        var size := if |rows| - fetched < batchSize then |rows| - fetched else batchSize;
        var batch := rows[fetched..fetched + size];
        batches := batches + 1;
        for i := 0 to |batch|
          invariant end.result.failure.None? && end == Walked(w, snap, start, rows[..fetched + i])
        {
          WalkedNext(w, snap, start, rows, fetched + i);
          end := NextRow(w, snap, end, batch[i]);
          if end.result.failure.Some? {
            WalkStopsAtFailure(w, snap, start, rows, fetched + i + 1);
            return;
          }
        }
        fetched := fetched + size;
      }
      assert rows[..fetched] == rows;
    }

    /** `_verify_stream`. */
    method VerifyStream(streamId: string, since: int, batchSize: nat) returns (result: StreamVerification)
      requires batchSize >= 1
      modifies this`batches
      ensures result == StreamVerdict(w, snap, streamId, since)
    {
      hide Walked, CheckHead, PriorHash;
      var start := Begin(snap, streamId, since);
      result := start.result;
      if streamId !in snap.tables.heads {
        result := result.(failure :=
            Some(Failure(if HasEvents(snap.tables, streamId) then StreamHeadMissing else StreamExists,
                                                  None, None, Nothing, Nothing)));
        return;
      }
      var rows := snap.rowsFrom(streamId, since);
      if since > 1 && start.previous.None? && rows != [] {
        result := result.(failure :=
            Some(Failure(Sequence, Some(rows[0].sequence), None, Number(since - 1), Number(rows[0].sequence))));
        return;
      }
      var end := Walk(start, rows, batchSize);
      result := end.result;
      if result.failure.None? {
        var last := end.last;
        if last.None? && since > 1 {
          last := snap.lastRow(streamId);
        }
        result := result.(failure := CheckHead(snap.tables.heads[streamId], last));
      }
    }

    /** One keyset page: the smallest stream IDs after a key, from both tables, each side limited before
        the union. */
    method StreamPage(after: string, pageSize: nat) returns (page: seq<string>)
      requires pageSize >= 1
      ensures page == FirstOf(IdsAfter(AllStreamIds(snap.tables), after), pageSize)
    {
      hide FirstOf, IdsAfter, EventStreamIds;
      var heads := Smallest(IdsAfter(snap.tables.heads.Keys, after), pageSize);
      var events := Smallest(IdsAfter(EventStreamIds(snap.tables), after), pageSize);
      page := Smallest((set x | x in heads) + (set x | x in events), pageSize);
      PageOfTwoTables(snap.tables.heads.Keys, EventStreamIds(snap.tables), after, pageSize);
    }

    /** `verify_ledger`: the requested streams, or every stream page by page; then the count. */
    method VerifyLedger(requested: set<string>, since: int, batchSize: int, pageSize: nat) returns (valid: bool)
      requires streams == [] && failure == None && pageSize >= 1
      modifies this
      ensures valid <==> since >= 1 && batchSize >= 1
      ensures valid ==> streams == Verdicts(w, snap, SortedSet(Scope(snap.tables, requested)), since)
      ensures valid ==> failure == LedgerFailure(snap.tables, streams, requested, since)
      ensures !valid ==> streams == [] && failure == None
    {
      hide Verdicts, InScope, EventsWalked;
      if since < 1 || batchSize < 1 {
        return false;
      }
      if requested != {} {
        var order := Smallest(requested, |requested|);
        VerifyStreams(order, since, batchSize);
      } else {
        VerifyEveryStream(since, batchSize, pageSize);
      }
      if AllOk(streams) {
        var stored := |InScope(snap.tables, requested, since)|;
        var walked := EventsWalked(streams);
        if stored != walked {
          failure := Some(Failure(EventCount, None, None, Number(stored), Number(walked)));
        }
      }
      return true;
    }

    /** One page of streams, or the requested ones. */
    method VerifyStreams(ids: seq<string>, since: int, batchSize: nat)
      requires batchSize >= 1
      modifies this`batches, this`streams
      ensures streams == old(streams) + Verdicts(w, snap, ids, since)
    {
      hide StreamVerdict;
      for i := 0 to |ids|
        invariant streams == old(streams) + Verdicts(w, snap, ids[..i], since)
      {
        var verdict := VerifyStream(ids[i], since, batchSize);
        streams := streams + [verdict];
        assert ids[..i + 1] == ids[..i] + [ids[i]];
      }
      assert ids[..|ids|] == ids;
    }

    /** The keyset loop: every non-empty stream ID of either table, once, in order. */
    method VerifyEveryStream(since: int, batchSize: nat, pageSize: nat)
      requires streams == [] && batchSize >= 1 && pageSize >= 1
      modifies this`batches, this`streams
      ensures streams == Verdicts(w, snap, SortedSet(Scope(snap.tables, {})), since)
    {
      hide StreamVerdict, SortedSet, FirstOf, IdsAfter, AllStreamIds, Verdicts, Less, StrictlySorted, Scope;
      ghost var all := SortedSet(Scope(snap.tables, {}));
      PagingStarts(snap.tables);
      var after := "";
      ghost var rest := all;
      ghost var done := [];
      assert done + rest == all;
      NoVerdicts(w, snap, since);
      var page := StreamPage(after, pageSize);
      while page != []
        invariant all == done + rest
        invariant streams == Verdicts(w, snap, done, since)
        invariant page == FirstOf(IdsAfter(AllStreamIds(snap.tables), after), pageSize)
        invariant SortedSet(IdsAfter(AllStreamIds(snap.tables), after)) == rest
        decreases |rest|
      {
        PagingAdvances(AllStreamIds(snap.tables), after, pageSize);
        VerdictsJoin(w, snap, done, page, since);
        VerifyStreams(page, since, batchSize);
        Regroup(done, rest, |page|);
        done := done + page;
        rest := rest[|page|..];
        after := page[|page| - 1];
        page := StreamPage(after, pageSize);
      }
      NothingLeft(AllStreamIds(snap.tables), after, pageSize);
      assert done == all;
    }
  }

  lemma Regroup(done: seq<string>, rest: seq<string>, n: nat)
    requires n <= |rest|
    ensures done + rest == (done + rest[..n]) + rest[n..]
  {}

  lemma NoVerdicts(w: Sealing, snap: Snapshot, since: int)
    ensures Verdicts(w, snap, [], since) == []
  {}

  lemma NothingLeft(ids: set<string>, after: string, n: nat)
    requires n >= 1 && FirstOf(IdsAfter(ids, after), n) == []
    ensures SortedSet(IdsAfter(ids, after)) == []
  {}

  lemma WalkedNone(w: Sealing, snap: Snapshot, start: Progress, rows: seq<EventRow>)
    ensures Walked(w, snap, start, rows[..0]) == start
  {}
}

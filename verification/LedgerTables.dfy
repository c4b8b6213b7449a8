/** The ledger's tables, the sealed event and the round trip between the two. The digest functions,
    the JSON codec and the canonical JSON form are parameters: nothing about them is assumed unless a
    lemma says so. */
module LedgerTables {
  import opened Orders

  type Hash = string

  datatype Claim = Claim(contentId: string, contentSha256: string, mediaType: string, uncompressedBytes: nat)

  /** Where claimed content is stored. */
  datatype Placement = Placement(disposition: string, storage: string, inlineId: Option<string>,
                                 objectKey: Option<string>, encoding: Option<string>)

  datatype Ref = Ref(claim: Claim, placement: Placement)

  /** The decoded JSON documents of an event. */
  datatype Documents = Documents(producerId: string, producer: string, context: string,
                                 trace: Option<string>, payload: string, redaction: string)

  /** The five JSONB columns as stored. */
  datatype Columns = Columns(producer: string, context: string, trace: Option<string>,
                             payload: string, redaction: string)

  /** `meta` is the event type, schema version and the two timestamps. */
  datatype Draft = Draft(eventId: string, meta: string, streamId: string, documents: Documents,
                         idempotencyKey: string, claims: seq<Claim>)

  /** Everything an event digest covers. */
  datatype Envelope = Envelope(eventId: string, meta: string, streamId: string, sequence: int,
                               documents: Documents, idempotencyKey: string, refs: seq<Ref>,
                               payloadHash: Hash, previous: Option<Hash>)

  datatype StoredEvent = StoredEvent(envelope: Envelope, eventHash: Hash)

  datatype EventRow = EventRow(eventId: string, meta: string, streamId: string, sequence: int,
                               producerId: string, idempotencyKey: string, columns: Columns,
                               payloadHash: Hash, previous: Option<Hash>, eventHash: Hash)

  datatype RefRow = RefRow(eventId: string, ref: Ref)

  datatype Head = Head(lastSequence: int, lastEventId: Option<string>, lastHash: Option<Hash>, quarantined: bool)

  type Key = (string, string)

  /** One snapshot of `ledger.event_streams`, `ledger.events` (by primary key, with its unique index on
      producer and idempotency key) and `ledger.event_content_refs`. */
  datatype Ledger = Ledger(heads: map<string, Head>, events: map<string, EventRow>,
                           index: map<Key, string>, refs: set<RefRow>)

  /** The functions the ledger is built on. */
  datatype Sealing = Sealing(
    eventHash: Envelope -> Hash,           // SHA-256 of the canonical envelope
    payloadHash: string -> Hash,           // SHA-256 of the canonical payload
    decode: Columns -> Option<Documents>,  // model validation of the stored columns
    dump: Documents -> Columns,            // model_dump(mode="json")
    canonical: string -> string)           // RFC 8785 form of one stored column

  /** Writing a document and reading it back loses nothing. */
  ghost predicate Lawful(w: Sealing) {
    forall d :: w.decode(w.dump(d)) == Some(d)
  }

  ghost predicate InjectiveDigest(w: Sealing) {
    forall a, b :: w.eventHash(a) == w.eventHash(b) ==> a == b
  }

  // ---- canonical claim order -------------------------------------------------------------------

  function ClaimBefore(): (Claim, Claim) -> bool {
    (a: Claim, b: Claim) => Less(a.contentId, b.contentId)
  }

  function RefBefore(): (Ref, Ref) -> bool {
    (a: Ref, b: Ref) => Less(a.claim.contentId, b.claim.contentId)
  }

  lemma ClaimsOrdered()
    ensures StrictOrder(ClaimBefore()) && StrictOrder(RefBefore())
  {
    StringsOrdered();
    var c, r := ClaimBefore(), RefBefore();
    forall x: Claim, y: Claim, z: Claim | c(x, z) ensures c(x, y) || c(y, z) {
      assert Less(x.contentId, y.contentId) || Less(y.contentId, z.contentId);
    }
    forall x: Ref, y: Ref, z: Ref | r(x, z) ensures r(x, y) || r(y, z) {
      assert Less(x.claim.contentId, y.claim.contentId) || Less(y.claim.contentId, z.claim.contentId);
    }
  }

  predicate DistinctClaims(claims: seq<Claim>) {
    forall i, j :: 0 <= i < j < |claims| ==> claims[i].contentId != claims[j].contentId
  }

  predicate DistinctRefs(refs: seq<Ref>) {
    forall i, j :: 0 <= i < j < |refs| ==> refs[i].claim.contentId != refs[j].claim.contentId
  }

  lemma DistinctComparable(claims: seq<Claim>, refs: seq<Ref>)
    ensures DistinctClaims(claims) ==> Comparable(claims, ClaimBefore())
    ensures DistinctRefs(refs) ==> Comparable(refs, RefBefore())
  {
    if DistinctClaims(claims) {
      forall i, j | 0 <= i < j < |claims|
        ensures ClaimBefore()(claims[i], claims[j]) || ClaimBefore()(claims[j], claims[i])
      {
        LessTotal(claims[i].contentId, claims[j].contentId);
      }
    }
    if DistinctRefs(refs) {
      forall i, j | 0 <= i < j < |refs| ensures RefBefore()(refs[i], refs[j]) || RefBefore()(refs[j], refs[i]) {
        LessTotal(refs[i].claim.contentId, refs[j].claim.contentId);
      }
    }
  }

  /** `_canonicalize_draft`. */
  function Canonicalize(d: Draft): Draft {
    d.(claims := Sort(d.claims, ClaimBefore()))
  }

  /** `_draft_identity`: the canonical draft without its event ID. */
  datatype Identity = Identity(meta: string, streamId: string, documents: Documents,
                               idempotencyKey: string, claims: seq<Claim>)

  function DraftIdentity(d: Draft): Identity {
    var c := Canonicalize(d);
    Identity(c.meta, c.streamId, c.documents, c.idempotencyKey, c.claims)
  }

  function ClaimsOf(refs: seq<Ref>): seq<Claim> {
    seq(|refs|, i requires 0 <= i < |refs| => refs[i].claim)
  }

  /** `_existing_draft_identity`: from the stored row and its refs, read in any order. */
  function ExistingIdentity(w: Sealing, row: EventRow, refs: seq<Ref>): Option<Identity> {
    match w.decode(row.columns)
    case None => None
    case Some(documents) =>
      Some(DraftIdentity(Draft(row.eventId, row.meta, row.streamId, documents, row.idempotencyKey, ClaimsOf(refs))))
  }

  // ---- sealing ---------------------------------------------------------------------------------

  /** `seal_event` takes exactly one ref per claim. */
  predicate RefsMatch(claims: seq<Claim>, refs: seq<Ref>) {
    && DistinctClaims(claims)
    && |refs| == |claims|
    && forall k :: 0 <= k < |claims| ==> exists i :: 0 <= i < |refs| && refs[i].claim == claims[k]
  }

  function RefFor(c: Claim, refs: seq<Ref>): (r: Ref)
    requires exists i :: 0 <= i < |refs| && refs[i].claim == c
    ensures r in refs && r.claim == c
  {
    if refs[0].claim == c then refs[0] else RefFor(c, refs[1..])
  }

  /** Sealed refs follow claim order. */
  function InClaimOrder(claims: seq<Claim>, refs: seq<Ref>): seq<Ref>
    requires RefsMatch(claims, refs)
  {
    seq(|claims|, i requires 0 <= i < |claims| => RefFor(claims[i], refs))
  }

  /** `seal_event`: None when the refs do not match the claims. */
  function Seal(w: Sealing, d: Draft, refs: seq<Ref>, sequence: int, previous: Option<Hash>): Option<StoredEvent> {
    if !RefsMatch(d.claims, refs) then None else
      var e := Envelope(d.eventId, d.meta, d.streamId, sequence, d.documents, d.idempotencyKey,
                        InClaimOrder(d.claims, refs), w.payloadHash(d.documents.payload), previous);
      Some(StoredEvent(e, w.eventHash(e)))
  }

  /** What sealing guarantees about one event on its own. */
  ghost predicate WellSealed(w: Sealing, s: StoredEvent) {
    && s.eventHash == w.eventHash(s.envelope)
    && s.envelope.payloadHash == w.payloadHash(s.envelope.documents.payload)
    && DistinctRefs(s.envelope.refs)
    && StrictlySorted(s.envelope.refs, RefBefore())
  }

  // ---- rows ------------------------------------------------------------------------------------

  /** `_event_row_from_sealed`. */
  function RowOf(w: Sealing, s: StoredEvent): EventRow {
    var e := s.envelope;
    EventRow(e.eventId, e.meta, e.streamId, e.sequence, e.documents.producerId, e.idempotencyKey,
             w.dump(e.documents), e.payloadHash, e.previous, s.eventHash)
  }

  /** `_content_ref_rows_from_sealed`. */
  function RefRowsOf(s: StoredEvent): set<RefRow> {
    set r | r in s.envelope.refs :: RefRow(s.envelope.eventId, r)
  }

  /** `_row_to_stored_event`: refs are re-sorted by content ID, whatever order they were read in. */
  function Rebuild(w: Sealing, row: EventRow, refs: seq<Ref>): Option<StoredEvent> {
    match w.decode(row.columns)
    case None => None
    case Some(documents) =>
      Some(StoredEvent(
             Envelope(row.eventId, row.meta, row.streamId, row.sequence, documents, row.idempotencyKey,
                      Sort(refs, RefBefore()), row.payloadHash, row.previous),
             row.eventHash))
  }

  /** One read of the ref rows of an event: each row once, in any order. */
  ghost predicate Enumerates(refs: seq<Ref>, rows: set<RefRow>, eventId: string) {
    && (forall r :: r in refs <==> RefRow(eventId, r) in rows)
    && (forall i, j :: 0 <= i < j < |refs| ==> refs[i] != refs[j])
  }

  lemma {:induction false} SameElementsSameMultiset<T>(a: seq<T>, b: seq<T>)
    requires forall x :: x in a <==> x in b
    requires forall i, j :: 0 <= i < j < |a| ==> a[i] != a[j]
    requires forall i, j :: 0 <= i < j < |b| ==> b[i] != b[j]
    ensures multiset(a) == multiset(b)
  {
    MultiplicityOne(a);
    MultiplicityOne(b);
    forall x ensures multiset(a)[x] == multiset(b)[x] {
      assert x in multiset(a) <==> x in a;
      assert x in multiset(b) <==> x in b;
    }
  }

  /** Two reads of the same ref rows sort to the same list. */
  lemma ReadOrderDoesNotMatter(refs: seq<Ref>, sorted: seq<Ref>)
    requires forall r :: r in refs <==> r in sorted
    requires forall i, j :: 0 <= i < j < |refs| ==> refs[i] != refs[j]
    requires DistinctRefs(sorted) && StrictlySorted(sorted, RefBefore())
    ensures Sort(refs, RefBefore()) == sorted
  {
    ClaimsOrdered();
    SameElementsSameMultiset(refs, sorted);
    DistinctComparable([], sorted);
    SortIsOrderIndependent(sorted, refs, RefBefore());
    SortElements(sorted, RefBefore());
    StrictlySortedUnique(Sort(sorted, RefBefore()), sorted, RefBefore());
  }

  /** ROUND TRIP. The rows written for a sealed event rebuild exactly that event, whatever order its
      content refs are read in. */
  lemma RowsRebuildSealedEvent(w: Sealing, s: StoredEvent, refs: seq<Ref>)
    requires Lawful(w) && WellSealed(w, s)
    requires Enumerates(refs, RefRowsOf(s), s.envelope.eventId)
    ensures Rebuild(w, RowOf(w, s), refs) == Some(s)
  {
    forall r ensures r in refs <==> r in s.envelope.refs {
      assert RefRow(s.envelope.eventId, r) in RefRowsOf(s) <==> r in s.envelope.refs;
    }
    ReadOrderDoesNotMatter(refs, s.envelope.refs);
  }

  /** A sealed canonical draft is well sealed, and its refs carry its claims in order. */
  lemma SealIsWellSealed(w: Sealing, d: Draft, refs: seq<Ref>, sequence: int, previous: Option<Hash>)
    requires RefsMatch(Canonicalize(d).claims, refs)
    ensures var s := Seal(w, Canonicalize(d), refs, sequence, previous).value;
            WellSealed(w, s) && ClaimsOf(s.envelope.refs) == Canonicalize(d).claims
  {
    var claims := Canonicalize(d).claims;
    var s := Seal(w, Canonicalize(d), refs, sequence, previous).value;
    ClaimsOrdered();
    SortSorts(d.claims, ClaimBefore());
    DistinctComparable(claims, []);
    var sealedRefs := s.envelope.refs;
    forall i, j | 0 <= i < j < |sealedRefs|
      ensures RefBefore()(sealedRefs[i], sealedRefs[j])
      ensures sealedRefs[i].claim.contentId != sealedRefs[j].claim.contentId
    {
      assert sealedRefs[i].claim == claims[i] && sealedRefs[j].claim == claims[j];
      LessTotal(claims[i].contentId, claims[j].contentId);
      assert !ClaimBefore()(claims[j], claims[i]);
    }
  }

  /** The identity rebuilt from the rows of a sealed draft is the draft's own. */
  lemma SealedIdentity(w: Sealing, d: Draft, refs: seq<Ref>, sequence: int, previous: Option<Hash>, read: seq<Ref>)
    requires Lawful(w) && RefsMatch(Canonicalize(d).claims, refs)
    requires var s := Seal(w, Canonicalize(d), refs, sequence, previous).value;
             Enumerates(read, RefRowsOf(s), s.envelope.eventId)
    ensures var s := Seal(w, Canonicalize(d), refs, sequence, previous).value;
            ExistingIdentity(w, RowOf(w, s), read) == Some(DraftIdentity(d))
  {
    var s := Seal(w, Canonicalize(d), refs, sequence, previous).value;
    SealIsWellSealed(w, d, refs, sequence, previous);
    StoredIdentity(w, s, read);
    ClaimsOrdered();
    SortSorts(d.claims, ClaimBefore());
  }

  /** For any well-sealed event, the identity read back is the one its envelope spells. */
  lemma StoredIdentity(w: Sealing, s: StoredEvent, read: seq<Ref>)
    requires Lawful(w) && WellSealed(w, s) && Enumerates(read, RefRowsOf(s), s.envelope.eventId)
    ensures var e := s.envelope;
            ExistingIdentity(w, RowOf(w, s), read)
            == Some(Identity(e.meta, e.streamId, e.documents, e.idempotencyKey, ClaimsOf(e.refs)))
  {
    forall r ensures r in read <==> r in s.envelope.refs {
      assert RefRow(s.envelope.eventId, r) in RefRowsOf(s) <==> r in s.envelope.refs;
    }
    ReadClaimsSort(s.envelope.refs, read);
  }

  /** The claims of the refs, read in any order, sort to the claims of the sealed refs. */
  lemma ReadClaimsSort(sealedRefs: seq<Ref>, read: seq<Ref>)
    requires DistinctRefs(sealedRefs) && StrictlySorted(sealedRefs, RefBefore())
    requires forall r :: r in read <==> r in sealedRefs
    requires forall i, j :: 0 <= i < j < |read| ==> read[i] != read[j]
    ensures Sort(ClaimsOf(read), ClaimBefore()) == ClaimsOf(sealedRefs)
  {
    var claims, readClaims := ClaimsOf(sealedRefs), ClaimsOf(read);
    ClaimsOrdered();
    forall i, j | 0 <= i < j < |claims| ensures ClaimBefore()(claims[i], claims[j]) {
      assert RefBefore()(sealedRefs[i], sealedRefs[j]);
    }
    assert DistinctClaims(claims);
    DistinctComparable(claims, []);
    ClaimsOfSubset(read, sealedRefs);
    ClaimsOfSubset(sealedRefs, read);
    forall i, j | 0 <= i < j < |readClaims| ensures readClaims[i] != readClaims[j] {
      assert read[i] in sealedRefs && read[j] in sealedRefs;
    }
    SameElementsSameMultiset(readClaims, claims);
    SortIsOrderIndependent(claims, readClaims, ClaimBefore());
    SortElements(claims, ClaimBefore());
    StrictlySortedUnique(Sort(claims, ClaimBefore()), claims, ClaimBefore());
  }

  lemma ClaimsOfSubset(a: seq<Ref>, b: seq<Ref>)
    requires forall r :: r in a ==> r in b
    ensures forall c :: c in ClaimsOf(a) ==> c in ClaimsOf(b)
  {
    forall c | c in ClaimsOf(a) ensures c in ClaimsOf(b) {
      var i :| 0 <= i < |ClaimsOf(a)| && ClaimsOf(a)[i] == c;
      assert a[i] in b;
      var j :| 0 <= j < |b| && b[j] == a[i];
      assert ClaimsOf(b)[j] == c;
    }
  }
}

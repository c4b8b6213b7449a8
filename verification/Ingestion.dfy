/** One ingestion transaction: prepared content is attached, claims are resolved against it, and the resolved
    batch is appended, all or nothing. What resolution checks is what makes the repository's batch the plain
    fold of one-event appends, and what makes the batch one the write protocol may begin. */
module Ingestion {
  import opened ContentPreparation
  import opened ContentTransactions
  import opened LockOrder
  import opened Orders
  import opened TransactionScripts
  import WriteProtocol

  import opened LedgerTables
  import opened LedgerAppend
  import opened LedgerHistory
  import opened LedgerSession
  import opened LedgerRepository

  datatype ResolutionError = DuplicateContentId | NotPrepared | MetadataMismatch

  /** Prepared refs by content ID. */
  type Prepared = map<string, Ref>

  ghost predicate PreparedById(prepared: Prepared) {
    forall id :: id in prepared ==> prepared[id].claim.contentId == id
  }

  ghost predicate Resolves(prepared: Prepared, claims: seq<Claim>) {
    && DistinctClaims(claims)
    && forall i :: 0 <= i < |claims| ==>
        claims[i].contentId in prepared && prepared[claims[i].contentId].claim == claims[i]
  }

  ghost predicate ClaimResolves(prepared: Prepared, claim: Claim) {
    claim.contentId in prepared && prepared[claim.contentId].claim == claim
  }

  /** The first claim nothing prepared answers. */
  ghost predicate FirstUnresolved(prepared: Prepared, claims: seq<Claim>, i: nat) {
    && i < |claims| && !ClaimResolves(prepared, claims[i])
    && forall k :: 0 <= k < i ==> ClaimResolves(prepared, claims[k])
  }

  function WhyUnresolved(prepared: Prepared, claim: Claim): ResolutionError {
    if claim.contentId !in prepared then NotPrepared else MetadataMismatch
  }

  /** `PreparedContent.resolve`: exactly one prepared ref per claim, in claim order. */
  method Resolve(prepared: Prepared, claims: seq<Claim>) returns (r: Result<seq<Ref>, ResolutionError>)
    requires PreparedById(prepared)
    ensures r.Ok? <==> Resolves(prepared, claims)
    ensures r.Ok? ==> ClaimsOf(r.value) == claims && forall ref :: ref in r.value ==> ref in prepared.Values
    ensures r.Err? && r.error == DuplicateContentId <==> !DistinctClaims(claims)
    ensures r.Err? && DistinctClaims(claims) ==>
              exists i: nat :: FirstUnresolved(prepared, claims, i) && r.error == WhyUnresolved(prepared, claims[i])
  {
    var claimsById: map<string, Claim> := map[];
    for i := 0 to |claims|
      invariant forall k :: 0 <= k < i ==> claims[k].contentId in claimsById
      invariant forall id :: id in claimsById ==> exists k :: 0 <= k < i && claims[k].contentId == id
      invariant DistinctClaims(claims[..i])
    {
      if claims[i].contentId in claimsById {
        var k :| 0 <= k < i && claims[k].contentId == claims[i].contentId;
        return Err(DuplicateContentId);
      }
      claimsById := claimsById[claims[i].contentId := claims[i]];
    }
    assert claims[..|claims|] == claims;
    var resolved: seq<Ref> := [];
    for i := 0 to |claims|
      invariant |resolved| == i
      invariant forall k :: 0 <= k < i ==>
                  claims[k].contentId in prepared && prepared[claims[k].contentId] == resolved[k]
                    && resolved[k].claim == claims[k]
    {
      if claims[i].contentId !in prepared {
        assert FirstUnresolved(prepared, claims, i);
        return Err(NotPrepared);
      }
      var ref := prepared[claims[i].contentId];
      if (ref.claim.contentSha256, ref.claim.mediaType, ref.claim.uncompressedBytes)
         != (claims[i].contentSha256, claims[i].mediaType, claims[i].uncompressedBytes) {
        assert FirstUnresolved(prepared, claims, i);
        return Err(MetadataMismatch);
      }
      resolved := resolved + [ref];
    }
    return Ok(resolved);
  }

  /** An event as `_resolve` hands it to the repository. */
  ghost predicate ResolvedItem(ev: ResolvedEvent) {
    && DistinctClaims(ev.draft.claims) && ClaimsOf(ev.refs) == ev.draft.claims
    && ev.reports == set r | r in ev.refs :: r.claim.contentId
  }

  /** Sealing accepts what resolution returns. */
  lemma ResolvedItemsAreAccepted(ev: ResolvedEvent)
    requires ResolvedItem(ev)
    ensures ReportsKnown(ev) && RefsMatch(Canonicalize(ev.draft).claims, ev.refs)
  {
    var claims := Canonicalize(ev.draft).claims;
    ClaimsOrdered();
    DistinctComparable(ev.draft.claims, []);
    SortElements(ev.draft.claims, ClaimBefore());
    SortStrict(ev.draft.claims, ClaimBefore());
    forall i, j | 0 <= i < j < |claims| ensures claims[i].contentId != claims[j].contentId {
      assert ClaimBefore()(claims[i], claims[j]);
      LessIrreflexive(claims[i].contentId);
    }
    forall k | 0 <= k < |claims| ensures exists i :: 0 <= i < |ev.refs| && ev.refs[i].claim == claims[k] {
      assert claims[k] in ev.draft.claims;
      var i :| 0 <= i < |ev.draft.claims| && ev.draft.claims[i] == claims[k];
      assert ClaimsOf(ev.refs)[i] == claims[k];
    }
  }

  // ---- joining content and ledger --------------------------------------------------------------

  /** The object digests an event's refs name. */
  function EventObjects(ev: ResolvedEvent): set<string> {
    NamedBy(set r | r in ev.refs)
  }

  ghost predicate RefsPrepared(prepared: Prepared, ev: ResolvedEvent) {
    forall r :: r in ev.refs ==> r in prepared.Values
  }

  function KeysOf(batch: seq<ResolvedEvent>): set<Key> {
    set i | 0 <= i < |batch| :: DraftKey(batch[i].draft)
  }

  /** The object digests named under one key. */
  function ObjectsUnder(batch: seq<ResolvedEvent>, key: Key): set<Digest> {
    set i, d | 0 <= i < |batch| && DraftKey(batch[i].draft) == key && d in EventObjects(batch[i]) && IsDigest(d) :: d
  }

  /** What the transaction of a resolved batch writes, as the write protocol sees it. */
  function BatchOf(items: seq<PreparedItem>, batch: seq<ResolvedEvent>): Batch {
    Batch(ObjectDigests(items), InlineDigests(items), StreamIds(batch),
          map key | key in KeysOf(batch) :: ObjectsUnder(batch, key))
  }

  /** JOINED. A batch resolved against prepared content names prepared objects only, so the write protocol can
      begin its transaction in any state. */
  lemma ResolvedBatchesMayBegin(items: seq<PreparedItem>, prepared: Prepared, batch: seq<ResolvedEvent>,
                                s: WriteProtocol.State, p: nat)
    requires Backs(items, prepared) && forall i :: 0 <= i < |batch| ==> RefsPrepared(prepared, batch[i])
    requires p !in s.txns
    ensures BatchOf(items, batch).Resolved()
    ensures WriteProtocol.Enabled(s, WriteProtocol.BeginIngest(p, BatchOf(items, batch)))
  {
    hide ParseCanonicalKey, ObjectDigests, InlineDigests;
    forall key, d | key in KeysOf(batch) && d in ObjectsUnder(batch, key) ensures d in ObjectDigests(items) {
      var i :| 0 <= i < |batch| && DraftKey(batch[i].draft) == key && d in EventObjects(batch[i]);
      NamedPrepared(items, prepared, batch[i], d);
    }
  }

  lemma NamedPrepared(items: seq<PreparedItem>, prepared: Prepared, ev: ResolvedEvent, d: string)
    requires Backs(items, prepared) && RefsPrepared(prepared, ev) && d in EventObjects(ev)
    ensures d in ObjectDigests(items)
  {
    hide ParseCanonicalKey, ObjectDigests;
    assert d in NamedBy(prepared.Values);
  }

  /** Every object a stored ref names has its catalog row. */
  ghost predicate Catalogued(l: Ledger, catalog: set<Digest>) {
    forall r :: r in l.refs ==> NamedBy({r.ref}) <= catalog
  }

  // ---- the service -----------------------------------------------------------------------------

  datatype IngestError = ContentMissing | Unresolved(resolution: ResolutionError) | NotAppended(append: AppendError)

  ghost predicate Resolvable(prepared: Prepared, drafts: seq<Draft>) {
    forall i :: 0 <= i < |drafts| ==> Resolves(prepared, drafts[i].claims)
  }

  /** The events `_resolve` makes of the drafts. */
  ghost predicate IsResolvedBatch(prepared: Prepared, drafts: seq<Draft>, batch: seq<ResolvedEvent>) {
    |batch| == |drafts| && forall i :: 0 <= i < |drafts| ==>
      batch[i].draft == drafts[i] && ResolvedItem(batch[i]) && RefsPrepared(prepared, batch[i])
  }

  ghost predicate DraftsConsistent(l: Ledger, drafts: seq<Draft>) {
    && (forall i :: 0 <= i < |drafts| ==> IdConsistent(l, drafts[i]))
    && (forall i, j :: 0 <= i < |drafts| && 0 <= j < |drafts| && drafts[i].eventId == drafts[j].eventId ==>
          DraftKey(drafts[i]) == DraftKey(drafts[j]))
  }

  class IngestionService {
    const transaction: AppendTransaction
    const content: ContentSession

    constructor (transaction: AppendTransaction, content: ContentSession)
      ensures this.transaction == transaction && this.content == content
    {
      this.transaction := transaction;
      this.content := content;
    }

    /** Every event resolved, or the first refusal. */
    static method ResolveAll(prepared: Prepared, drafts: seq<Draft>)
      returns (r: Result<seq<ResolvedEvent>, ResolutionError>)
      requires PreparedById(prepared)
      ensures r.Ok? <==> Resolvable(prepared, drafts)
      ensures r.Ok? ==> IsResolvedBatch(prepared, drafts, r.value)
    {
      var batch: seq<ResolvedEvent> := [];
      for i := 0 to |drafts|
        invariant |batch| == i
        invariant forall k :: 0 <= k < i ==> Resolves(prepared, drafts[k].claims) && batch[k].draft == drafts[k]
                                             && ResolvedItem(batch[k]) && RefsPrepared(prepared, batch[k])
      {
        var refs := Resolve(prepared, drafts[i].claims);
        if refs.Err? {
          return Err(refs.error);
        }
        var reports := set ref | ref in refs.value :: ref.claim.contentId;
        batch := batch + [ResolvedEvent(drafts[i], refs.value, reports)];
      }
      return Ok(batch);
    }

    /** A resolved batch commits iff folding one-event idempotent appends over it, in order and with its
        repeats, succeeds; the tables and the positional results are then the fold's, and a batch that does
        not commit leaves the tables as they were. */
    method Append(batch: seq<ResolvedEvent>, ghost chains: Chains) returns (r: Result<seq<Outcome>, AppendError>)
      requires forall i :: 0 <= i < |batch| ==> ResolvedItem(batch[i])
      requires transaction.streams == map[] && transaction.touched == {}
      requires Sound(transaction.db, transaction.w, transaction.tables, chains)
               && IdsConsistent(transaction.tables, batch)
      modifies transaction
      ensures r.Ok? <==> Fold(transaction.db, transaction.w, old(transaction.tables), batch).Ok?
      ensures r.Ok? ==>
                Fold(transaction.db, transaction.w, old(transaction.tables), batch) == Ok((transaction.tables, r.value))
      ensures r.Err? ==> Refused(transaction.db, transaction.w, old(transaction.tables), batch, r.error)
      ensures r.Err? ==> transaction.tables == old(transaction.tables)
    {
      hide Represents, Fold, IdsConsistent, ResolvedItem, RefsMatch, ReportsKnown, SameDraftAsFirst;
      hide IndexClosed, Effective;
      ghost var db, w, before := transaction.db, transaction.w, transaction.tables;
      forall i | 0 <= i < |batch|
        ensures ReportsKnown(batch[i]) && RefsMatch(Canonicalize(batch[i].draft).claims, batch[i].refs)
      {
        ResolvedItemsAreAccepted(batch[i]);
      }
      PlainFoldExactly(db, w, before, chains, batch);
      var start := transaction.tables;
      r := transaction.AppendWithOutcome(batch, chains);
      if r.Err? {
        transaction.tables := start;
      }
    }

    /** INGESTION. `_commit`: attach, resolve, append, in one transaction. It commits iff every prepared object
        is still there, every claim resolves and folding the events' appends succeeds; then the ledger and the
        results are the fold's, the catalog has gained exactly the prepared objects, and every object a stored
        ref names is in it. Otherwise nothing changes. */
    method Commit(items: seq<PreparedItem>, prepared: Prepared, drafts: seq<Draft>, present: set<Digest>,
                  ghost chains: Chains)
      returns (r: Result<seq<Outcome>, IngestError>, ghost batch: seq<ResolvedEvent>)
      requires Backs(items, prepared)
      requires transaction.streams == map[] && transaction.touched == {}
      requires Sound(transaction.db, transaction.w, transaction.tables, chains)
      requires DraftsConsistent(transaction.tables, drafts) && Catalogued(transaction.tables, content.catalog)
      modifies transaction, content
      ensures r.Ok? <==> ObjectDigests(items) <= present && IsResolvedBatch(prepared, drafts, batch)
                         && Fold(transaction.db, transaction.w, old(transaction.tables), batch).Ok?
      ensures Resolvable(prepared, drafts) && ObjectDigests(items) <= present ==>
                IsResolvedBatch(prepared, drafts, batch)
      ensures r.Ok? ==>
                && Fold(transaction.db, transaction.w, old(transaction.tables), batch)
                    == Ok((transaction.tables, r.value))
                && content.catalog == old(content.catalog) + ObjectDigests(items)
                && content.inlines == InlineData(items) + old(content.inlines)
                && BatchOf(items, batch).Resolved()
      ensures r.Err? ==> transaction.tables == old(transaction.tables) && content.catalog == old(content.catalog)
                         && content.inlines == old(content.inlines)
      ensures r.Err? ==>
                match r.error
                case ContentMissing => !(ObjectDigests(items) <= present)
                case Unresolved(_) => ObjectDigests(items) <= present && !Resolvable(prepared, drafts)
                case NotAppended(error) =>
                  && ObjectDigests(items) <= present && Resolvable(prepared, drafts)
                  && Refused(transaction.db, transaction.w, old(transaction.tables), batch, error)
      ensures Catalogued(transaction.tables, content.catalog)
    {
      hide Represents, Fold, IdsConsistent, ResolvedItem, IndexClosed, ObjectDigests, InlineDigests, NamedBy;
      hide Catalogued, InlineData;
      hide AttachObjects, AttachInlines, SortedDigests, SortedSet, StopsAtMissing, BatchOf, Refused, Resolves;
      hide RefsPrepared;
      var catalog, inlines := content.catalog, content.inlines;
      ghost var before := transaction.tables;
      batch := [];
      var attached, ops := content.Attach(items, present);
      if !attached {
        content.catalog, content.inlines := catalog, inlines;
        return Err(ContentMissing), [];
      }
      var resolved := ResolveAll(prepared, drafts);
      if resolved.Err? {
        content.catalog, content.inlines := catalog, inlines;
        return Err(Unresolved(resolved.error)), [];
      }
      batch := resolved.value;
      SameIds(before, drafts, batch);
      var appended := Append(resolved.value, chains);
      if appended.Err? {
        content.catalog, content.inlines := catalog, inlines;
        return Err(NotAppended(appended.error)), batch;
      }
      FoldStaysCatalogued(transaction.db, transaction.w, before, catalog, items, prepared, batch);
      BatchResolved(items, prepared, batch);
      return Ok(appended.value), batch;
    }
  }

  lemma BatchResolved(items: seq<PreparedItem>, prepared: Prepared, batch: seq<ResolvedEvent>)
    requires Backs(items, prepared) && forall i :: 0 <= i < |batch| ==> RefsPrepared(prepared, batch[i])
    ensures BatchOf(items, batch).Resolved()
  {
    hide Backs, RefsPrepared, BatchOf;
    ResolvedBatchesMayBegin(items, prepared, batch, WriteProtocol.Init, 0);
  }

  lemma SameIds(l: Ledger, drafts: seq<Draft>, batch: seq<ResolvedEvent>)
    requires DraftsConsistent(l, drafts) && |batch| == |drafts| && forall i :: 0 <= i < |drafts| ==>
               batch[i].draft == drafts[i]
    ensures IdsConsistent(l, batch)
  {
    hide IdConsistent;
  }

  /** Appending adds only refs of the appended event. */
  lemma AppendAddsItsRefs(db: Database, w: Sealing, l: Ledger, ev: ResolvedEvent)
    requires IndexClosed(l) && AppendOne(db, w, l, ev).Ok?
    ensures forall r :: r in AppendOne(db, w, l, ev).value.0.refs && r !in l.refs ==> r.ref in ev.refs
  {
    hide Recover, ReportsKnown, Canonicalize;
    var draft := Canonicalize(ev.draft);
    if RefsMatch(draft.claims, ev.refs) { SealedRefsAreGiven(draft.claims, ev.refs); }
  }

  lemma SealedRefsAreGiven(claims: seq<Claim>, refs: seq<Ref>)
    requires RefsMatch(claims, refs)
    ensures forall r :: r in InClaimOrder(claims, refs) ==> r in refs
  {}

  lemma {:induction false} FoldAddsItsRefs(db: Database, w: Sealing, l: Ledger, batch: seq<ResolvedEvent>)
    requires IndexClosed(l) && Fold(db, w, l, batch).Ok?
    ensures forall r :: r in Fold(db, w, l, batch).value.0.refs && r !in l.refs ==>
              exists i :: 0 <= i < |batch| && r.ref in batch[i].refs
  {
    hide AppendOne, IndexClosed;
    if batch != [] {
      var n := |batch| - 1;
      FoldAddsItsRefs(db, w, l, batch[..n]);
      var l1 := Fold(db, w, l, batch[..n]).value.0;
      AppendAddsItsRefs(db, w, l1, batch[n]);
      forall r | r in Fold(db, w, l, batch).value.0.refs && r !in l.refs
        ensures exists i :: 0 <= i < |batch| && r.ref in batch[i].refs
      {
        if r in l1.refs {
          var i :| 0 <= i < n && r.ref in batch[..n][i].refs;
          assert batch[..n][i] == batch[i];
        } else {
          assert r.ref in batch[n].refs;
        }
      }
    }
  }

  /** What a committed batch adds to the ledger, the catalog holds. */
  lemma FoldStaysCatalogued(db: Database, w: Sealing, l: Ledger, catalog: set<Digest>, items: seq<PreparedItem>,
                            prepared: Prepared, batch: seq<ResolvedEvent>)
    requires IndexClosed(l) && Fold(db, w, l, batch).Ok? && Catalogued(l, catalog) && Backs(items, prepared)
    requires forall i :: 0 <= i < |batch| ==> RefsPrepared(prepared, batch[i])
    ensures Catalogued(Fold(db, w, l, batch).value.0, catalog + ObjectDigests(items))
  {
    hide Fold, IndexClosed, ObjectDigests, ParseCanonicalKey;
    FoldAddsItsRefs(db, w, l, batch);
    var l' := Fold(db, w, l, batch).value.0;
    forall r, d | r in l'.refs && d in NamedBy({r.ref}) ensures d in catalog + ObjectDigests(items) {
      if r !in l.refs {
        var i :| 0 <= i < |batch| && r.ref in batch[i].refs;
        assert d in EventObjects(batch[i]);
        NamedPrepared(items, prepared, batch[i], d);
      }
    }
  }
}

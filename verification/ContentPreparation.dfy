/** `ContentService.prepare`: every submitted item validated before anything is uploaded, then each stored
    once per digest, inline or as an object, with the ref events will carry. */
module ContentPreparation {
  import opened ContentTransactions
  import opened LedgerTables
  import opened LockOrder
  import opened Orders
  import opened TransactionScripts

  /** One submitted item, its base64 decoded. */
  datatype Submitted = Submitted(claim: Claim, data: seq<int>, disposition: string)

  /** The digest, what the redaction re-check refuses content for, and the inline threshold. */
  datatype Policy = Policy(sha256: seq<int> -> Digest, refusal: (string, seq<int>) -> Option<string>,
                           inlineThreshold: nat)

  datatype PrepareError = DuplicateSubmission | ClaimMismatch | ContentRefused(code: string) | StoreFailed

  /** Why an item on its own is refused. */
  function ItemRefusal(policy: Policy, item: Submitted): Option<PrepareError> {
    if policy.sha256(item.data) != item.claim.contentSha256 || |item.data| != item.claim.uncompressedBytes
    then Some(ClaimMismatch)
    else
      match policy.refusal(item.claim.mediaType, item.data)
      case None => None
      case Some(code) => Some(ContentRefused(code))
  }

  predicate Repeats(items: seq<Submitted>, i: nat)
    requires i < |items|
  {
    exists k :: 0 <= k < i && items[k].claim.contentId == items[i].claim.contentId
  }

  /** Why the `i`-th item stops the batch: its ID first, then its bytes, then its content. */
  function RefusalAt(policy: Policy, items: seq<Submitted>, i: nat): Option<PrepareError>
    requires i < |items|
  {
    if Repeats(items, i) then Some(DuplicateSubmission) else ItemRefusal(policy, items[i])
  }

  predicate AllValid(policy: Policy, items: seq<Submitted>) {
    forall i :: 0 <= i < |items| ==> RefusalAt(policy, items, i).None?
  }

  /** VALID, exactly: distinct content IDs, bytes of the claimed digest and size, and nothing the policy refuses. */
  lemma ValidExactly(policy: Policy, items: seq<Submitted>)
    ensures AllValid(policy, items)
            <==> && (forall i, j :: 0 <= i < j < |items| ==> items[i].claim.contentId != items[j].claim.contentId)
                 && (forall i :: 0 <= i < |items| ==>
                       && policy.sha256(items[i].data) == items[i].claim.contentSha256
                       && |items[i].data| == items[i].claim.uncompressedBytes
                       && policy.refusal(items[i].claim.mediaType, items[i].data).None?)
  {
    if AllValid(policy, items) {
      forall i, j | 0 <= i < j < |items| ensures items[i].claim.contentId != items[j].claim.contentId {
        assert RefusalAt(policy, items, j).None?;
      }
      forall i | 0 <= i < |items| ensures ItemRefusal(policy, items[i]).None? {
        assert RefusalAt(policy, items, i).None?;
      }
    }
  }

  /** Where an item goes. */
  function PlacementOf(policy: Policy, item: Submitted): Placement {
    var digest := item.claim.contentSha256;
    if |item.data| <= policy.inlineThreshold then Placement(item.disposition, "inline", Some(digest), None, None)
    else Placement(item.disposition, "object", None, Some(KeyOfDigest(digest)), Some("zstd"))
  }

  function KeyOfDigest(digest: string): string {
    if |digest| >= 4 then "sha256/" + digest[..2] + "/" + digest[2..4] + "/" + digest + ".zst" else ""
  }

  function RefOf(policy: Policy, item: Submitted): Ref {
    Ref(item.claim, PlacementOf(policy, item))
  }

  function PreparedOf(policy: Policy, item: Submitted): PreparedItem {
    var digest := policy.sha256(item.data);
    if |item.data| <= policy.inlineThreshold then InlineItem(digest, item.data) else ObjectItem(digest)
  }

  /** The object digests some refs name. */
  function NamedBy(refs: set<Ref>): set<string> {
    set r | r in refs && r.placement.objectKey.Some? && ParseCanonicalKey(r.placement.objectKey.value).Some?
      :: ParseCanonicalKey(r.placement.objectKey.value).value
  }

  /** Every prepared ref is found by its content ID, and what it names is among the prepared items. */
  ghost predicate Backs(items: seq<PreparedItem>, prepared: map<string, Ref>) {
    && (forall id :: id in prepared ==> prepared[id].claim.contentId == id)
    && NamedBy(prepared.Values) <= ObjectDigests(items)
  }

  /** The outcome of preparing a batch. */
  datatype Preparation = Preparation(items: seq<PreparedItem>, byContentId: map<string, Ref>)

  /** The first loop of `_prepare`: nothing is stored until every item is valid. */
  method Validate(policy: Policy, items: seq<Submitted>) returns (r: Option<PrepareError>)
    ensures r.None? <==> AllValid(policy, items)
    ensures r.Some? ==> exists i :: 0 <= i < |items| && RefusalAt(policy, items, i) == r
                                    && forall k :: 0 <= k < i ==> RefusalAt(policy, items, k).None?
  {
    hide ItemRefusal;
    var seen: set<string> := {};
    for i := 0 to |items|
      invariant forall k :: 0 <= k < i ==> RefusalAt(policy, items, k).None? && items[k].claim.contentId in seen
      invariant forall id :: id in seen ==> exists k :: 0 <= k < i && items[k].claim.contentId == id
    {
      assert items[i].claim.contentId in seen <==> Repeats(items, i);
      if items[i].claim.contentId in seen {
        assert RefusalAt(policy, items, i) == Some(DuplicateSubmission);
        return Some(DuplicateSubmission);
      }
      seen := seen + {items[i].claim.contentId};
      var refusal := ItemRefusal(policy, items[i]);
      assert RefusalAt(policy, items, i) == refusal;
      if refusal.Some? {
        return refusal;
      }
    }
    return None;
  }

  /** `prepare`. A refused batch uploads nothing. A valid one uploads each object digest at most once, in the
      order its items come, up to the first the store fails; if it fails none, every content ID has the ref
      of its item, inline or object by size, and every object a ref names was uploaded. */
  method Prepare(policy: Policy, items: seq<Submitted>, accepts: Digest -> bool)
    returns (r: Result<Preparation, PrepareError>, uploads: seq<Digest>)
    ensures r.Ok? <==> AllValid(policy, items) && forall d :: d in ObjectsOf(policy, items) ==> accepts(d)
    ensures !AllValid(policy, items) ==> uploads == [] && r.error != StoreFailed
    ensures forall i, j :: 0 <= i < j < |uploads| ==> uploads[i] != uploads[j]
    ensures forall d :: d in uploads ==> d in ObjectsOf(policy, items) && accepts(d)
    ensures r.Ok? ==>
              && r.value.items == seq(|items|, i requires 0 <= i < |items| => PreparedOf(policy, items[i]))
              && ObjectDigests(r.value.items) == ObjectsOf(policy, items) == (set d | d in uploads)
              && (forall i :: 0 <= i < |items| ==>
                    items[i].claim.contentId in r.value.byContentId
                    && r.value.byContentId[items[i].claim.contentId] == RefOf(policy, items[i]))
              && r.value.byContentId.Keys == (set i | 0 <= i < |items| :: items[i].claim.contentId)
              && Backs(r.value.items, r.value.byContentId)
  {
    hide ItemRefusal, RefOf, NamedBy, ParseCanonicalKey, KeyOfDigest, Backs, ObjectsOf, ObjectDigests, AllValid;
    uploads := [];
    var refusal := Validate(policy, items);
    if refusal.Some? {
      NotAStoreFailure(policy, items, refusal);
      return Err(refusal.value), [];
    }
    var prepared: seq<PreparedItem> := [];
    var byId: map<string, Ref> := map[];
    var cache: set<Digest> := {};
    assert items[..0] == [];
    NoObjects(policy);
    for i := 0 to |items|
      invariant prepared == seq(i, k requires 0 <= k < i => PreparedOf(policy, items[k]))
      invariant byId.Keys == set k | 0 <= k < i :: items[k].claim.contentId
      invariant forall k :: 0 <= k < i ==> byId[items[k].claim.contentId] == RefOf(policy, items[k])
      invariant cache == (set d | d in uploads) == ObjectsOf(policy, items[..i])
      invariant forall a, b :: 0 <= a < b < |uploads| ==> uploads[a] != uploads[b]
      invariant forall d :: d in uploads ==> accepts(d)
    {
      var digest := policy.sha256(items[i].data);
      ObjectsNext(policy, items, i);
      ObjectsWithin(policy, items, i + 1);
      assert items[i].claim.contentId !in byId by { NewId(policy, items, i); }
      if |items[i].data| > policy.inlineThreshold && digest !in cache {
        if !accepts(digest) {
          return Err(StoreFailed), uploads;
        }
        cache := cache + {digest};
        uploads := uploads + [digest];
      }
      byId := byId[items[i].claim.contentId := RefOf(policy, items[i])];
      prepared := prepared + [PreparedOf(policy, items[i])];
    }
    assert items[..|items|] == items;
    PreparedDigests(policy, items, prepared);
    EveryRefIsHeld(policy, items, prepared, byId);
    r := Ok(Preparation(prepared, byId));
  }

  function ObjectsOf(policy: Policy, items: seq<Submitted>): set<Digest> {
    set i | 0 <= i < |items| && |items[i].data| > policy.inlineThreshold :: policy.sha256(items[i].data)
  }

  lemma NotAStoreFailure(policy: Policy, items: seq<Submitted>, refusal: Option<PrepareError>)
    requires refusal.Some? && exists i :: 0 <= i < |items| && RefusalAt(policy, items, i) == refusal
    ensures refusal.value != StoreFailed
  {}

  lemma NoObjects(policy: Policy)
    ensures ObjectsOf(policy, []) == {}
  {}

  lemma NewId(policy: Policy, items: seq<Submitted>, i: nat)
    requires AllValid(policy, items) && i < |items|
    ensures forall k :: 0 <= k < i ==> items[k].claim.contentId != items[i].claim.contentId
  {
    assert RefusalAt(policy, items, i).None?;
  }

  lemma ObjectsNext(policy: Policy, items: seq<Submitted>, i: nat)
    requires i < |items|
    ensures (|items[i].data| > policy.inlineThreshold) ==> policy.sha256(items[i].data) in ObjectsOf(policy, items)
    ensures ObjectsOf(policy, items[..i + 1])
         == ObjectsOf(policy, items[..i])
             + (if |items[i].data| > policy.inlineThreshold then {policy.sha256(items[i].data)} else {})
  {
    var a, b := items[..i], items[..i + 1];
    assert forall k :: 0 <= k < i ==> a[k] == b[k];
    assert b[i] == items[i];
  }

  lemma ObjectsWithin(policy: Policy, items: seq<Submitted>, i: nat)
    requires i <= |items|
    ensures ObjectsOf(policy, items[..i]) <= ObjectsOf(policy, items)
  {
    assert forall k :: 0 <= k < i ==> items[..i][k] == items[k];
  }

  lemma PreparedDigests(policy: Policy, items: seq<Submitted>, prepared: seq<PreparedItem>)
    requires prepared == seq(|items|, i requires 0 <= i < |items| => PreparedOf(policy, items[i]))
    ensures ObjectDigests(prepared) == ObjectsOf(policy, items)
  {
    forall d ensures d in ObjectDigests(prepared) <==> d in ObjectsOf(policy, items) {
      if d in ObjectsOf(policy, items) {
        var i :| 0 <= i < |items| && |items[i].data| > policy.inlineThreshold && policy.sha256(items[i].data) == d;
        assert prepared[i].ObjectItem?;
      }
    }
  }

  /** An object ref's key is the canonical key of its digest. */
  lemma RefNames(policy: Policy, item: Submitted)
    requires ItemRefusal(policy, item).None?
    ensures NamedBy({RefOf(policy, item)}) == if |item.data| > policy.inlineThreshold then {policy.sha256(item.data)}
              else {}
  {
    var digest := item.claim.contentSha256;
    assert digest == policy.sha256(item.data);
    assert KeyOfDigest(digest) == CanonicalKey(policy.sha256(item.data));
    OnlyCanonicalKeysParse(KeyOfDigest(digest), digest);
    var ref := RefOf(policy, item);
    assert ref in {ref};
  }

  lemma EveryRefIsHeld(policy: Policy, items: seq<Submitted>, prepared: seq<PreparedItem>, byId: map<string, Ref>)
    requires AllValid(policy, items) && ObjectDigests(prepared) == ObjectsOf(policy, items)
    requires byId.Keys == set k | 0 <= k < |items| :: items[k].claim.contentId
    requires forall k :: 0 <= k < |items| ==> byId[items[k].claim.contentId] == RefOf(policy, items[k])
    ensures Backs(prepared, byId)
  {
    hide ItemRefusal, ParseCanonicalKey, PlacementOf;
    forall id | id in byId ensures byId[id].claim.contentId == id {
      var k :| 0 <= k < |items| && items[k].claim.contentId == id;
    }
    forall d | d in NamedBy(byId.Values) ensures d in ObjectDigests(prepared) {
      var ref :| ref in byId.Values && d in NamedBy({ref});
      var id :| id in byId && byId[id] == ref;
      var k :| 0 <= k < |items| && items[k].claim.contentId == id;
      assert RefusalAt(policy, items, k).None?;
      RefNames(policy, items[k]);
    }
  }
}

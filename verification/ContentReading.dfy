/** `ContentService.read`, and the round trip through the content store: what was prepared, attached and is read
    through its ref is what was submitted, byte for byte. */
module ContentReading {
  import opened ContentPreparation
  import opened ContentTransactions
  import opened LedgerTables
  import opened LockOrder
  import opened Orders

  type Bytes = seq<int>

  /** `get_verified`: the object at a key, if it has the digest. */
  function GetVerified(sha256: Bytes -> Digest, store: map<string, Bytes>, key: string, digest: string): Option<Bytes> {
    if key in store && sha256(store[key]) == digest then Some(store[key]) else None
  }

  /** `read`: inline bytes from their row, object bytes verified from the store, either checked against the ref.
      None is `content_unavailable`. */
  function Read(sha256: Bytes -> Digest, inlines: map<string, Bytes>, store: map<string, Bytes>,
                ref: Ref): Option<Bytes> {
    var at := ref.placement;
    var data :=
      if at.storage == "inline" then
        if at.inlineId.Some? && at.inlineId.value in inlines then Some(inlines[at.inlineId.value]) else None
      else if at.objectKey.None? then None
      else GetVerified(sha256, store, at.objectKey.value, ref.claim.contentSha256);
    if data.None? || |data.value| != ref.claim.uncompressedBytes || sha256(data.value) != ref.claim.contentSha256
    then None else data
  }

  /** Whatever is read matches its ref. */
  lemma ReadMatchesItsRef(sha256: Bytes -> Digest, inlines: map<string, Bytes>, store: map<string, Bytes>, ref: Ref)
    requires Read(sha256, inlines, store, ref).Some?
    ensures var data := Read(sha256, inlines, store, ref).value;
            sha256(data) == ref.claim.contentSha256 && |data| == ref.claim.uncompressedBytes
  {}

  ghost predicate Injective(sha256: Bytes -> Digest) {
    forall a, b :: sha256(a) == sha256(b) ==> a == b
  }

  /** Every inline row holds bytes of its own digest. */
  ghost predicate RowsOwnDigests(sha256: Bytes -> Digest, inlines: map<string, Bytes>) {
    forall id :: id in inlines ==> sha256(inlines[id]) == id
  }

  /** The store holds bytes of each of these digests under its canonical key. */
  ghost predicate StoreHolds(sha256: Bytes -> Digest, store: map<string, Bytes>, digests: set<Digest>) {
    forall d :: d in digests ==> CanonicalKey(d) in store && sha256(store[CanonicalKey(d)]) == d
  }

  function PreparedItems(policy: Policy, items: seq<Submitted>): seq<PreparedItem> {
    seq(|items|, i requires 0 <= i < |items| => PreparedOf(policy, items[i]))
  }

  /** Attaching keeps every row under its own digest, and every inline item has one. */
  lemma {:induction false} AttachedRowsOwnDigests(policy: Policy, items: seq<Submitted>)
    ensures RowsOwnDigests(policy.sha256, InlineData(PreparedItems(policy, items)))
    ensures forall i :: 0 <= i < |items| && |items[i].data| <= policy.inlineThreshold ==>
              policy.sha256(items[i].data) in InlineData(PreparedItems(policy, items))
  {
    hide InlineData;
    if items == [] {
      assert InlineData(PreparedItems(policy, items)) == map[] by { NoItems(); }
    } else {
      var n := |items| - 1;
      AttachedRowsOwnDigests(policy, items[..n]);
      assert PreparedItems(policy, items) == PreparedItems(policy, items[..n]) + [PreparedOf(policy, items[n])];
      InlineDataNext(PreparedItems(policy, items[..n]), PreparedOf(policy, items[n]));
      forall i | 0 <= i < |items| && |items[i].data| <= policy.inlineThreshold
        ensures policy.sha256(items[i].data) in InlineData(PreparedItems(policy, items))
      {
        if i < n { assert items[..n][i] == items[i]; }
      }
    }
  }

  /** ROUND TRIP. Once a valid batch is prepared and attached, over rows that own their digests and a store that
      holds its objects, reading any item's ref returns that item's bytes, inline or object alike. */
  lemma PreparedContentReadsBack(policy: Policy, items: seq<Submitted>, i: nat, before: map<string, Bytes>,
                                 store: map<string, Bytes>)
    requires AllValid(policy, items) && i < |items| && Injective(policy.sha256)
    requires RowsOwnDigests(policy.sha256, before)
    requires StoreHolds(policy.sha256, store, ObjectsOf(policy, items))
    ensures var inlines := InlineData(PreparedItems(policy, items)) + before;
            && RowsOwnDigests(policy.sha256, inlines)
            && Read(policy.sha256, inlines, store, RefOf(policy, items[i])) == Some(items[i].data)
  {
    hide InlineData, CanonicalKey, PreparedItems;
    AttachedRowsOwnDigests(policy, items);
    var item, inlines := items[i], InlineData(PreparedItems(policy, items)) + before;
    var digest := policy.sha256(item.data);
    assert RefusalAt(policy, items, i).None?;
    if |item.data| <= policy.inlineThreshold {
      assert digest in inlines && policy.sha256(inlines[digest]) == digest;
    } else {
      assert digest in ObjectsOf(policy, items);
      assert KeyOfDigest(digest) == CanonicalKey(digest) by { KeyIsCanonical(digest); }
    }
  }

  lemma KeyIsCanonical(digest: Digest)
    ensures KeyOfDigest(digest) == CanonicalKey(digest)
  {}
}

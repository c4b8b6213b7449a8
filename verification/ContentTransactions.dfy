/** The content side as it runs: `attach` filling its dictionaries and looping over them in sorted order,
    and the orphan sweeper counting its way through a listing. Each issues exactly the operations of its
    transaction script. */
module ContentTransactions {
  import opened Keyset
  import opened LockOrder
  import opened Orders
  import opened TransactionScripts

  // ---- canonical object keys -------------------------------------------------------------------

  /** `sha256/aa/bb/<digest>.zst`. */
  function CanonicalKey(digest: Digest): string {
    "sha256/" + digest[..2] + "/" + digest[2..4] + "/" + digest + ".zst"
  }

  const KEY_LENGTH: nat := 81

  /** `_parse_canonical_key`. */
  function ParseCanonicalKey(key: string): Option<string> {
    if |key| == KEY_LENGTH && key[..7] == "sha256/" && key[9] == '/' && key[12] == '/' && key[77..] == ".zst"
       && IsDigest(key[13..77]) && key[7..9] == key[13..77][..2] && key[10..12] == key[13..77][2..4]
    then Some(key[13..77]) else None
  }

  /** ROUND TRIP. A key is read as a digest iff it is that digest's canonical key. */
  lemma OnlyCanonicalKeysParse(key: string, digest: string)
    ensures ParseCanonicalKey(key) == Some(digest) <==> IsDigest(digest) && key == CanonicalKey(digest)
  {
    if ParseCanonicalKey(key) == Some(digest) {
      assert key[..10] == "sha256/" + digest[..2] + "/";
      assert key[10..13] == digest[2..4] + "/";
      assert key == key[..10] + key[10..13] + key[13..77] + key[77..];
    }
    if IsDigest(digest) && key == CanonicalKey(digest) {
      assert |digest| == 64;
      assert key[..7] == "sha256/" && key[7..9] == digest[..2] && key[9] == '/';
      assert key[10..12] == digest[2..4] && key[12] == '/' && key[13..77] == digest && key[77..] == ".zst";
    }
  }

  // ---- attach ----------------------------------------------------------------------------------

  datatype PreparedItem = ObjectItem(digest: Digest) | InlineItem(digest: Digest, data: seq<int>)

  function ObjectDigests(items: seq<PreparedItem>): set<Digest> {
    set i | 0 <= i < |items| && items[i].ObjectItem? :: items[i].digest
  }

  function InlineDigests(items: seq<PreparedItem>): set<string> {
    set i | 0 <= i < |items| && items[i].InlineItem? :: items[i].digest
  }

  /** The bytes recorded per inline digest: those of its last item. */
  function InlineData(items: seq<PreparedItem>): map<string, seq<int>> {
    if items == [] then map[]
    else
      var n := |items| - 1;
      match items[n]
      case ObjectItem(_) => InlineData(items[..n])
      case InlineItem(digest, data) => InlineData(items[..n])[digest := data]
  }

  lemma InlineDataNext(items: seq<PreparedItem>, item: PreparedItem)
    ensures InlineData(items + [item])
         == match item
            case ObjectItem(_) => InlineData(items)
            case InlineItem(digest, data) => InlineData(items)[digest := data]
  {
    assert (items + [item])[..|items|] == items;
  }

  lemma {:induction false} InlineDataKeys(items: seq<PreparedItem>)
    ensures InlineData(items).Keys == InlineDigests(items)
  {
    hide InlineDigests;
    if items == [] {
      NoItems();
    } else {
      var n := |items| - 1;
      InlineDataKeys(items[..n]);
      ItemsNext(items, n);
      assert items[..n + 1] == items;
    }
  }

  /** The ingestion script's first two phases. */
  ghost function AttachScript(items: seq<PreparedItem>): seq<Op> {
    AttachObjects(SortedDigests(ObjectDigests(items))) + AttachInlines(SortedSet(InlineDigests(items)))
  }

  /** Every operation but the last of the objects before a missing one, and those of the missing one up to
      its check. */
  ghost predicate StopsAtMissing(ops: seq<Op>, digests: seq<Digest>, present: set<Digest>) {
    exists k :: 0 <= k < |digests| && digests[k] !in present
                && (forall j :: 0 <= j < k ==> digests[j] in present)
                && ops == AttachObjects(digests[..k]) + [Lock(ContentLock(digests[k])), VerifyObject(digests[k])]
  }

  class ContentSession {
    var catalog: set<Digest>   // `catalog.content_objects`, this transaction's inserts included
    var inlines: map<string, seq<int>>

    constructor (catalog: set<Digest>, inlines: map<string, seq<int>>)
      ensures this.catalog == catalog && this.inlines == inlines
    {
      this.catalog := catalog;
      this.inlines := inlines;
    }

    /** `attach`. `present` is what re-verification finds under the locks. It issues the operations of the
        ingestion script's first two phases, in order, and records every digest; or it stops at the first
        missing object. */
    method Attach(items: seq<PreparedItem>, present: set<Digest>) returns (ok: bool, ghost ops: seq<Op>)
      modifies this
      ensures ok <==> ObjectDigests(items) <= present
      ensures ok ==> ops == AttachScript(items)
      ensures ok ==> catalog == old(catalog) + ObjectDigests(items)
      ensures ok ==> inlines == InlineData(items) + old(inlines)
      ensures !ok ==> StopsAtMissing(ops, SortedDigests(ObjectDigests(items)), present)
      ensures !ok ==> inlines == old(inlines) && old(catalog) <= catalog <= old(catalog) + ObjectDigests(items)
    {
      hide SortedSet, StopsAtMissing, ObjectDigests, InlineDigests, AttachObjects, AttachInlines, SortedDigests;
      hide InlineData;
      var objects, data := Gather(items);
      InlineDataKeys(items);
      ok, ops := AttachEach(objects, present);
      if ok {
        ghost var more := AttachRows(data);
        ops := ops + more;
      }
    }

    /** The dictionaries: one entry per digest. */
    static method Gather(items: seq<PreparedItem>) returns (objects: set<Digest>, data: map<string, seq<int>>)
      ensures objects == ObjectDigests(items) && data == InlineData(items)
    {
      hide ObjectDigests, InlineDigests, InlineData;
      objects, data := {}, map[];
      NoItems();
      assert items[..0] == [];
      for i := 0 to |items|
        invariant objects == ObjectDigests(items[..i]) && data == InlineData(items[..i])
      {
        ItemsNext(items, i);
        assert items[..i + 1] == items[..i] + [items[i]];
        InlineDataNext(items[..i], items[i]);
        match items[i] {
          case ObjectItem(digest) => objects := objects + {digest};
          case InlineItem(digest, bytes) => data := data[digest := bytes];
        }
      }
      assert items[..|items|] == items;
    }

    /** The second loop: inline rows in sorted order, never overwritten. */
    method AttachRows(data: map<string, seq<int>>) returns (ghost ops: seq<Op>)
      modifies this`inlines
      ensures ops == AttachInlines(SortedSet(data.Keys))
      ensures inlines == data + old(inlines)
    {
      hide SortedSet, Less, FirstOf, AttachInlines, RowsOf;
      ghost var before := inlines;
      var ids := Smallest(data.Keys, |data.Keys|);
      AllOf(data.Keys);
      ops := [];
      NoInlines(ids);
      NoRows(before, data);
      assert ids[..0] == [];
      for i := 0 to |ids|
        invariant ops == AttachInlines(ids[..i])
        invariant inlines == RowsOf(before, data, ids[..i])
      {
        assert ids[i] in ids;
        InlinesNext(ids, i);
        assert ids[..i + 1] == ids[..i] + [ids[i]];
        RowsNext(before, data, ids[..i], ids[i]);
        ops := ops + [InsertInline(ids[i])];
        if ids[i] !in inlines {
          inlines := inlines[ids[i] := data[ids[i]]];
        }
      }
      assert ids[..|ids|] == ids;
      AllRows(before, data, ids);
    }

    /** The first loop: lock, re-verify under the lock, record. */
    method AttachEach(objects: set<Digest>, present: set<Digest>) returns (ok: bool, ghost ops: seq<Op>)
      modifies this`catalog
      ensures ok <==> objects <= present
      ensures ok ==> ops == AttachObjects(SortedDigests(objects)) && catalog == old(catalog) + objects
      ensures !ok ==> StopsAtMissing(ops, SortedDigests(objects), present)
      ensures old(catalog) <= catalog <= old(catalog) + objects
    {
      hide SortedSet, StopsAtMissing, AttachObjects, IsDigest, ContentLock, Ascending, Less, FirstOf;
      ghost var digests := SortedDigests(objects);
      var order: seq<string> := Smallest(objects, |objects|);
      AllOf(objects);
      ops := [];
      NoOps(digests);
      var k := 0;
      while k < |order|
        invariant 0 <= k <= |order|
        invariant ops == AttachObjects(digests[..k])
        invariant old(catalog) <= catalog <= old(catalog) + objects
        invariant forall j :: 0 <= j < k ==> digests[j] in present && digests[j] in catalog
      {
        assert order[k] in order && order[k] in objects;
        var digest: Digest := order[k];
        AttachNext(digests, k);
        ops := ops + [Lock(ContentLock(digest)), VerifyObject(digest)];
        if digest !in present {
          Missing(ops, digests, present, k);
          return false, ops;
        }
        ops := ops + [InsertObject(digest)];
        catalog := catalog + {digest};
        k := k + 1;
      }
      assert digests[..k] == digests;
      forall d | d in objects ensures d in present && d in catalog {
        assert d in digests;
      }
      ok := true;
    }
  }

  /** The table once the rows of some IDs were inserted, unless they were there. */
  function RowsOf(before: map<string, seq<int>>, data: map<string, seq<int>>, ids: seq<string>): map<string, seq<int>> {
    (map id | id in data && id in ids :: data[id]) + before
  }

  lemma NoRows(before: map<string, seq<int>>, data: map<string, seq<int>>)
    ensures RowsOf(before, data, []) == before
  {}

  lemma RowsNext(before: map<string, seq<int>>, data: map<string, seq<int>>, ids: seq<string>, id: string)
    requires id in data
    ensures var rows, next := RowsOf(before, data, ids), RowsOf(before, data, ids + [id]);
            next == if id in rows then rows else rows[id := data[id]]
  {}

  lemma AllRows(before: map<string, seq<int>>, data: map<string, seq<int>>, ids: seq<string>)
    requires forall id :: id in ids <==> id in data.Keys
    ensures RowsOf(before, data, ids) == data + before
  {
    assert (map id | id in data && id in ids :: data[id]) == data;
  }

  lemma NoInlines(ids: seq<string>)
    ensures AttachInlines(ids[..0]) == []
  {}

  lemma InlinesNext(ids: seq<string>, i: nat)
    requires i < |ids|
    ensures AttachInlines(ids[..i + 1]) == AttachInlines(ids[..i]) + [InsertInline(ids[i])]
  {}

  lemma NoItems()
    ensures ObjectDigests([]) == {} && InlineDigests([]) == {} && InlineData([]) == map[]
  {}

  lemma NoOps(digests: seq<Digest>)
    ensures AttachObjects(digests[..0]) == []
  {}

  lemma AttachNext(digests: seq<Digest>, k: nat)
    requires k < |digests|
    ensures AttachObjects(digests[..k + 1])
         == AttachObjects(digests[..k]) + [Lock(ContentLock(digests[k])), VerifyObject(digests[k])]
             + [InsertObject(digests[k])]
  {
    hide AttachObjects, ContentLock;
    assert digests[..k + 1] == digests[..k] + [digests[k]];
    AttachJoin(digests[..k], digests[k]);
  }

  lemma Missing(ops: seq<Op>, digests: seq<Digest>, present: set<Digest>, k: nat)
    requires k < |digests| && digests[k] !in present && forall j :: 0 <= j < k ==> digests[j] in present
    requires ops == AttachObjects(digests[..k]) + [Lock(ContentLock(digests[k])), VerifyObject(digests[k])]
    ensures StopsAtMissing(ops, digests, present)
  {}

  lemma ItemsNext(items: seq<PreparedItem>, i: nat)
    requires i < |items|
    ensures ObjectDigests(items[..i + 1])
              == ObjectDigests(items[..i]) + (if items[i].ObjectItem? then {items[i].digest} else {})
    ensures InlineDigests(items[..i + 1])
              == InlineDigests(items[..i]) + (if items[i].InlineItem? then {items[i].digest} else {})
  {
    var a, b := items[..i], items[..i + 1];
    assert forall k :: 0 <= k < i ==> a[k] == b[k];
    assert b[i] == items[i];
  }

  lemma {:induction false} AttachJoin(digests: seq<Digest>, d: Digest)
    ensures AttachObjects(digests + [d]) == AttachObjects(digests) + AttachOne(d)
  {
    if digests == [] {
      assert [] + [d] == [d] && [d][1..] == [];
    } else {
      assert (digests + [d])[1..] == digests[1..] + [d];
      AttachJoin(digests[1..], d);
    }
  }

  // ---- the sweeper -----------------------------------------------------------------------------

  datatype SweepReport = SweepReport(examined: nat, deleted: nat, retained: nat, skippedRecent: nat, wouldDelete: nat)

  datatype Listed = Listed(key: string, lastModified: int)

  /** What the sweep of a listing may delete: canonical, older than the cutoff, and unreferenced when its turn
      came. `rows(k)` is the catalog as the check of the `k`-th listed object sees it. */
  predicate Condemned(listing: seq<Listed>, rows: nat -> set<Digest>, cutoff: int, k: nat)
    requires k < |listing|
  {
    match ParseCanonicalKey(listing[k].key)
    case None => false
    case Some(digest) => listing[k].lastModified < cutoff && digest !in rows(k)
  }

  function CondemnedKeys(listing: seq<Listed>, rows: nat -> set<Digest>, cutoff: int, n: nat): set<string>
    requires n <= |listing|
  {
    set k | 0 <= k < n && Condemned(listing, rows, cutoff, k) :: listing[k].key
  }

  function EffectiveCutoff(cutoff: int, now: int, minAge: nat): int {
    if cutoff <= now - minAge then cutoff else now - minAge
  }

  class OrphanSweeper {
    const minAge: nat
    var store: set<string>

    constructor (minAge: nat, store: set<string>)
      ensures this.minAge == minAge && this.store == store
    {
      this.minAge := minAge;
      this.store := store;
    }

    /** `_sweep_one`: the sweep script, ended at its check when a row is there. */
    method SweepOne(digest: Digest, key: string, rows: set<Digest>, dryRun: bool)
      returns (gone: bool, ghost ops: seq<Op>)
      modifies this`store
      ensures gone == (digest !in rows)
      ensures store == if gone && !dryRun then old(store) - {key} else old(store)
      ensures ops <= SweepScript(digest, dryRun) && (gone ==> ops == SweepScript(digest, dryRun))
    {
      ops := [Lock(ContentLock(digest)), CheckUnreferenced(digest, dryRun)];
      if digest in rows {
        return false, ops;
      }
      if dryRun {
        return true, ops + [Commit];
      }
      store := store - {key};
      return true, ops + [IssueDelete(digest), AwaitDelete(digest), Commit];
    }

    /** `run`. Every canonical object is counted once; what is deleted is exactly what was condemned, never
        younger than the minimum age whatever cutoff was asked for; and a dry run deletes nothing and
        counts what a sweep would have deleted. */
    method Run(cutoff: int, now: int, dryRun: bool, listing: seq<Listed>, rows: nat -> set<Digest>)
      returns (r: SweepReport)
      modifies this`store
      ensures r.examined == r.deleted + r.retained + r.skippedRecent + r.wouldDelete
      ensures r.examined == |Canonical(listing)|
      ensures r.skippedRecent == RecentCount(listing, EffectiveCutoff(cutoff, now, minAge))
      ensures var effective := EffectiveCutoff(cutoff, now, minAge);
              var condemned := CondemnedCount(listing, rows, effective);
              if dryRun then r.deleted == 0 && store == old(store) && r.wouldDelete == condemned
              else r.wouldDelete == 0 && r.deleted == condemned
                   && store == old(store) - CondemnedKeys(listing, rows, effective, |listing|)
    {
      hide ParseCanonicalKey;
      var effective := EffectiveCutoff(cutoff, now, minAge);
      r := SweepReport(0, 0, 0, 0, 0);
      assert listing[..0] == [];
      for k := 0 to |listing|
        invariant r.examined == r.deleted + r.retained + r.skippedRecent + r.wouldDelete == |Canonical(listing[..k])|
        invariant r.deleted + r.wouldDelete == CondemnedCount(listing[..k], rows, effective)
        invariant r.skippedRecent == RecentCount(listing[..k], effective)
        invariant if dryRun then r.deleted == 0 && store == old(store)
                  else r.wouldDelete == 0 && store == old(store) - CondemnedKeys(listing, rows, effective, k)
      {
        assert listing[..k + 1][..k] == listing[..k];
        CondemnedNext(listing, rows, effective, k);
        var digest := ParseCanonicalKey(listing[k].key);
        if digest.Some? {
          r := r.(examined := r.examined + 1);
          if listing[k].lastModified >= effective {
            r := r.(skippedRecent := r.skippedRecent + 1);
          } else {
            OnlyCanonicalKeysParse(listing[k].key, digest.value);
            var gone, _ := SweepOne(digest.value, listing[k].key, rows(k), dryRun);
            if !gone {
              r := r.(retained := r.retained + 1);
            } else if dryRun {
              r := r.(wouldDelete := r.wouldDelete + 1);
            } else {
              r := r.(deleted := r.deleted + 1);
            }
          }
        }
      }
      assert listing[..|listing|] == listing;
    }
  }

  function Canonical(listing: seq<Listed>): seq<Listed> {
    if listing == [] then []
    else Canonical(listing[..|listing| - 1])
         + (if ParseCanonicalKey(listing[|listing| - 1].key).Some? then [listing[|listing| - 1]] else [])
  }

  /** The canonical objects not yet old enough. */
  function RecentCount(listing: seq<Listed>, cutoff: int): nat {
    if listing == [] then 0
    else
      var last := listing[|listing| - 1];
      RecentCount(listing[..|listing| - 1], cutoff)
      + (if ParseCanonicalKey(last.key).Some? && last.lastModified >= cutoff then 1 else 0)
  }

  function CondemnedCount(listing: seq<Listed>, rows: nat -> set<Digest>, cutoff: int): nat {
    if listing == [] then 0
    else CondemnedCount(listing[..|listing| - 1], rows, cutoff)
         + (if Condemned(listing, rows, cutoff, |listing| - 1) then 1 else 0)
  }

  lemma CondemnedNext(listing: seq<Listed>, rows: nat -> set<Digest>, cutoff: int, k: nat)
    requires k < |listing|
    ensures CondemnedKeys(listing, rows, cutoff, k + 1)
         == CondemnedKeys(listing, rows, cutoff, k)
             + (if Condemned(listing, rows, cutoff, k) then {listing[k].key} else {})
    ensures Condemned(listing[..k + 1], rows, cutoff, k) == Condemned(listing, rows, cutoff, k)
  {}

  /** CONDEMNED, exactly: a canonical key of a digest no row names at its check, older than the cutoff asked for
      and older than the minimum age. */
  lemma CondemnedExactly(listing: seq<Listed>, rows: nat -> set<Digest>, cutoff: int, now: int, minAge: nat, k: nat)
    requires k < |listing|
    ensures Condemned(listing, rows, EffectiveCutoff(cutoff, now, minAge), k)
            <==> && (exists d: Digest :: listing[k].key == CanonicalKey(d) && d !in rows(k))
                 && listing[k].lastModified < cutoff && listing[k].lastModified < now - minAge
  {
    hide ParseCanonicalKey;
    if d: Digest :| listing[k].key == CanonicalKey(d) && d !in rows(k) {
      OnlyCanonicalKeysParse(listing[k].key, d);
    }
    if digest :| ParseCanonicalKey(listing[k].key) == Some(digest) {
      OnlyCanonicalKeysParse(listing[k].key, digest);
    }
  }
}

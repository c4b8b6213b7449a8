/** The database and object-store operations of one transaction, in order: an ingestion (attach, then
    append) or one orphan sweep candidate; and why each operation is safe where it stands. */
module TransactionScripts {
  import opened Orders
  import opened LockOrder

  type Key = (string, string)

  datatype Op =
    | Lock(resource: Resource)                      // pg_advisory_xact_lock, or SELECT .. FOR UPDATE
    | VerifyObject(digest: Digest)                  // get_verified
    | InsertObject(digest: Digest)                  // catalog.content_objects, ON CONFLICT DO NOTHING
    | InsertInline(inlineId: string)                // catalog.inline_contents, ON CONFLICT DO NOTHING
    | InsertEvents(events: map<Key, set<Digest>>)   // ledger rows and their object refs, per key
    | CheckUnreferenced(digest: Digest, dryRun: bool)
    | IssueDelete(digest: Digest)                   // the delete thread starts
    | AwaitDelete(digest: Digest)                   // shielded wait for the thread
    | Commit

  /** What one ingestion transaction writes: the object digests and inline digests prepared for the
      batch, the streams it appends to and, per event key, the object digests its refs name. */
  datatype Batch = Batch(objects: set<Digest>, inlines: set<string>, streams: set<string>,
                         events: map<Key, set<Digest>>)
  {
    /** Refs are resolved from the prepared content only. */
    ghost predicate Resolved() {
      forall k :: k in events ==> events[k] <= objects
    }
  }

  // ---- scripts ---------------------------------------------------------------------------------

  ghost function SortedInts(s: set<int>): (r: seq<int>)
    ensures forall i, j :: 0 <= i < j < |r| ==> r[i] < r[j]
    ensures forall x :: x in r <==> x in s
  {
    if s == {} then [] else
      LeastInt(s);
      var m :| m in s && forall x :: x in s ==> m <= x;
      [m] + SortedInts(s - {m})
  }

  lemma {:induction false} LeastInt(s: set<int>)
    requires s != {}
    ensures exists m :: m in s && forall x :: x in s ==> m <= x
  {
    var y := Pick(s);
    if s - {y} == {} {
      assert forall x :: x in s ==> x == y || x in s - {y};
    } else {
      LeastInt(s - {y});
      var m :| m in s - {y} && forall x :: x in s - {y} ==> m <= x;
      var least := if m < y then m else y;
      assert least in s;
      forall x | x in s ensures least <= x {
        assert x == y || x in s - {y};
      }
    }
  }

  ghost function SortedDigests(s: set<Digest>): (r: seq<Digest>)
    ensures Ascending(r)
    ensures forall d :: d in r <==> d in s
  {
    var r := SortedSet(s);
    assert forall i :: 0 <= i < |r| ==> r[i] in s;
    r
  }

  ghost predicate Ascending(s: seq<string>) {
    forall i, j :: 0 <= i < j < |s| ==> Less(s[i], s[j])
  }

  /** One round of `attach`'s first loop: lock, re-verify under the lock, then record the digest. */
  function AttachOne(d: Digest): seq<Op> {
    [Lock(ContentLock(d)), VerifyObject(d), InsertObject(d)]
  }

  /** `attach`, first loop. */
  function AttachObjects(digests: seq<Digest>): seq<Op> {
    if digests == [] then [] else
      AttachOne(digests[0]) + AttachObjects(digests[1..])
  }

  /** `attach`, second loop. */
  function AttachInlines(ids: seq<string>): seq<Op> {
    seq(|ids|, i requires 0 <= i < |ids| => InsertInline(ids[i]))
  }

  /** `_lock_streams`. */
  function LockStreams(ids: seq<string>): seq<Op> {
    seq(|ids|, i requires 0 <= i < |ids| => Lock(StreamRow(ids[i])))
  }

  /** `_lock_idempotency_keys`, over the sorted distinct lock keys. */
  function LockIdempotencyKeys(keys: seq<int>): seq<Op> {
    seq(|keys|, i requires 0 <= i < |keys| => Lock(IdempotencyLock(keys[i])))
  }

  ghost function LockKeys(keyHash: Key -> int, keys: set<Key>): (r: set<int>)
    ensures forall k :: k in keys ==> keyHash(k) in r
  {
    set k | k in keys :: keyHash(k)
  }

  /** `IngestionService._commit`: attach, then append, then commit. `keyHash` is the first four bytes
      of the SHA-256 of a key, signed; any function at all may stand for it. */
  ghost function IngestScript(keyHash: Key -> int, b: Batch): seq<Op> {
    AttachObjects(SortedDigests(b.objects))
    + AttachInlines(SortedSet(b.inlines))
    + LockStreams(SortedSet(b.streams))
    + LockIdempotencyKeys(SortedInts(LockKeys(keyHash, b.events.Keys)))
    + [InsertEvents(b.events), Commit]
  }

  /** `OrphanSweeper._sweep_one`: a dry run returns after the check. */
  function SweepScript(d: Digest, dryRun: bool): seq<Op> {
    if dryRun then [Lock(ContentLock(d)), CheckUnreferenced(d, true), Commit]
    else [Lock(ContentLock(d)), CheckUnreferenced(d, false), IssueDelete(d), AwaitDelete(d), Commit]
  }

  /** What an operation makes its transaction wait for and keep. */
  function Acquires(op: Op): Option<Resource> {
    match op
    case Lock(r) => Some(r)
    case InsertInline(id) => Some(InlineRow(id))
    case _ => None
  }

  /** What must already have run before an operation, so that it is safe and in lock order. */
  ghost predicate Justified(keyHash: Key -> int, done: set<Op>, op: Op) {
    && Commit !in done
    && (Acquires(op).Some? ==>
          forall o :: o in done && Acquires(o).Some? ==>
            Acquires(o) == Acquires(op) || Below(Acquires(o).value, Acquires(op).value))
    && match op
       case VerifyObject(d) => Lock(ContentLock(d)) in done && forall o :: o in done ==> !o.IssueDelete?
       case InsertObject(d) => Lock(ContentLock(d)) in done && VerifyObject(d) in done
       case InsertEvents(events) =>
         forall k :: k in events ==>
           Lock(IdempotencyLock(keyHash(k))) in done && forall d :: d in events[k] ==> InsertObject(d) in done
       case CheckUnreferenced(d, _) => Lock(ContentLock(d)) in done
       case IssueDelete(d) =>
         Lock(ContentLock(d)) in done && CheckUnreferenced(d, false) in done &&
         forall o :: o in done ==> !o.VerifyObject?
       case _ => true
  }

  /** Each operation of `rest` is justified by `done` and what precedes it. */
  ghost predicate Good(keyHash: Key -> int, done: set<Op>, rest: seq<Op>)
    decreases |rest|
  {
    rest == [] || (Justified(keyHash, done, rest[0]) && Good(keyHash, done + {rest[0]}, rest[1..]))
  }

  /** What justification leaves behind, in any order of looking. */
  ghost predicate Past(keyHash: Key -> int, done: set<Op>) {
    && (forall d :: VerifyObject(d) in done ==> Lock(ContentLock(d)) in done)
    && (forall d :: InsertObject(d) in done ==> Lock(ContentLock(d)) in done && VerifyObject(d) in done)
    && (forall d, dry :: CheckUnreferenced(d, dry) in done ==> Lock(ContentLock(d)) in done)
    && (forall d :: IssueDelete(d) in done ==>
          Lock(ContentLock(d)) in done && CheckUnreferenced(d, false) in done && forall e :: VerifyObject(e) !in done)
  }

  lemma PastGrows(keyHash: Key -> int, done: set<Op>, op: Op)
    requires Past(keyHash, done) && Justified(keyHash, done, op)
    ensures Past(keyHash, done + {op})
  {}

  ghost predicate EndsWithCommit(script: seq<Op>) {
    script != [] && script[|script| - 1] == Commit
  }

  // ---- the scripts are good --------------------------------------------------------------------

  function Ops(s: seq<Op>): set<Op> {
    set o | o in s
  }

  lemma OpsSplit(done: set<Op>, a: seq<Op>)
    requires a != []
    ensures done + {a[0]} + Ops(a[1..]) == done + Ops(a)
  {
    assert a == [a[0]] + a[1..];
  }

  lemma {:induction false} GoodAppend(keyHash: Key -> int, done: set<Op>, a: seq<Op>, b: seq<Op>)
    requires Good(keyHash, done, a) && Good(keyHash, done + Ops(a), b)
    ensures Good(keyHash, done, a + b)
    decreases |a|
  {
    hide Justified;
    if a == [] {
      assert a + b == b && done + Ops(a) == done;
    } else {
      OpsSplit(done, a);
      GoodAppend(keyHash, done + {a[0]}, a[1..], b);
      assert (a + b)[1..] == a[1..] + b && (a + b)[0] == a[0];
    }
  }

  /** Everything acquired so far is below a given resource, or is that resource. */
  ghost predicate UpTo(done: set<Op>, r: Resource) {
    forall o :: o in done && Acquires(o).Some? ==> Acquires(o).value == r || Below(Acquires(o).value, r)
  }

  ghost predicate NoEnd(done: set<Op>) {
    forall o :: o in done ==> !o.Commit? && !o.IssueDelete?
  }

  lemma AttachOneGood(keyHash: Key -> int, done: set<Op>, d: Digest)
    requires NoEnd(done) && UpTo(done, ContentLock(d))
    ensures Good(keyHash, done, AttachOne(d))
  {
    var s := AttachOne(d);
    assert s[1..][1..] == [InsertObject(d)] && s[1..][1..][1..] == [];
    var done1 := done + {s[0]};
    var done2 := done1 + {s[1]};
    assert Justified(keyHash, done2, s[2]);
    assert Good(keyHash, done2, s[1..][1..]);
    assert Justified(keyHash, done1, s[1]);
    assert Good(keyHash, done1, s[1..]);
  }

  lemma UpToNext(done: set<Op>, d: Digest, next: Digest)
    requires UpTo(done, ContentLock(d)) && Less(d, next)
    ensures UpTo(done + Ops(AttachOne(d)), ContentLock(next))
  {
    ContentLocksAscend(d, next);
    var r := ContentLock(next);
    forall o | o in done + Ops(AttachOne(d)) && Acquires(o).Some?
      ensures Acquires(o).value == r || Below(Acquires(o).value, r)
    {
      if Below(Acquires(o).value, ContentLock(d)) && Below(ContentLock(d), r) {
        BelowTransitive(Acquires(o).value, ContentLock(d), r);
      }
    }
  }

  lemma {:induction false} AttachObjectsGood(keyHash: Key -> int, done: set<Op>, digests: seq<Digest>)
    requires Ascending(digests) && NoEnd(done)
    requires digests != [] ==> UpTo(done, ContentLock(digests[0]))
    ensures Good(keyHash, done, AttachObjects(digests))
    decreases |digests|
  {
    if digests != [] {
      AttachOneGood(keyHash, done, digests[0]);
      if |digests| > 1 { UpToNext(done, digests[0], digests[1]); }
      AttachObjectsGood(keyHash, done + Ops(AttachOne(digests[0])), digests[1..]);
      GoodAppend(keyHash, done, AttachOne(digests[0]), AttachObjects(digests[1..]));
    }
  }

  lemma {:induction false} AttachObjectsContents(digests: seq<Digest>)
    ensures forall d :: d in digests ==> InsertObject(d) in AttachObjects(digests)
    ensures forall o :: o in AttachObjects(digests) ==>
              !o.Commit? && !o.IssueDelete? && (Acquires(o).Some? ==> Class(Acquires(o).value) == 0)
  {
    if digests != [] {
      AttachObjectsContents(digests[1..]);
      assert forall d :: d in digests ==> d == digests[0] || d in digests[1..];
    }
  }

  /** A run of locks in rank order, above everything acquired before. */
  lemma {:induction false} LocksGood(keyHash: Key -> int, done: set<Op>, ops: seq<Op>)
    requires NoEnd(done)
    requires forall i :: 0 <= i < |ops| ==> ops[i].Lock? || ops[i].InsertInline?
    requires forall i, j :: 0 <= i < j < |ops| ==> Below(Acquires(ops[i]).value, Acquires(ops[j]).value)
    requires forall i :: 0 <= i < |ops| ==> UpTo(done, Acquires(ops[i]).value)
    ensures Good(keyHash, done, ops)
    decreases |ops|
  {
    if ops != [] {
      assert UpTo(done, Acquires(ops[0]).value);
      forall i | 0 <= i < |ops[1..]| ensures UpTo(done + {ops[0]}, Acquires(ops[1..][i]).value) {
        assert ops[1..][i] == ops[i + 1] && UpTo(done, Acquires(ops[i + 1]).value);
      }
      LocksGood(keyHash, done + {ops[0]}, ops[1..]);
    }
  }

  /** A phase whose locks are all of one class extends a script that has only lower ones. */
  lemma PhaseGood(keyHash: Key -> int, before: seq<Op>, ops: seq<Op>, level: nat)
    requires Good(keyHash, {}, before) && Phases(before, level)
    requires forall i :: 0 <= i < |ops| ==>
               (ops[i].Lock? || ops[i].InsertInline?) && Class(Acquires(ops[i]).value) == level
    requires forall i, j :: 0 <= i < j < |ops| ==> Below(Acquires(ops[i]).value, Acquires(ops[j]).value)
    ensures Good(keyHash, {}, before + ops) && Phases(before + ops, level + 1)
  {
    LocksGood(keyHash, Ops(before), ops);
    assert {} + Ops(before) == Ops(before);
    GoodAppend(keyHash, {}, before, ops);
  }

  ghost predicate Phases(ops: seq<Op>, level: nat) {
    forall o :: o in ops ==>
      !o.Commit? && !o.IssueDelete? && (Acquires(o).Some? ==> Class(Acquires(o).value) < level)
  }

  /** The writes and the commit that close a script which has taken every lock they need. */
  lemma FinishGood(keyHash: Key -> int, locked: seq<Op>, events: map<Key, set<Digest>>)
    requires Good(keyHash, {}, locked) && Phases(locked, 4)
    requires forall k :: k in events ==>
               Lock(IdempotencyLock(keyHash(k))) in locked && forall d :: d in events[k] ==> InsertObject(d) in locked
    ensures Good(keyHash, {}, locked + [InsertEvents(events), Commit])
  {
    var tail := [InsertEvents(events), Commit];
    var done := Ops(locked);
    assert Justified(keyHash, done, tail[0]);
    assert Justified(keyHash, done + {tail[0]}, tail[1]);
    assert tail[1..] == [Commit] && tail[1..][1..] == [];
    assert Good(keyHash, done + {tail[0]}, tail[1..]);
    assert {} + done == done;
    GoodAppend(keyHash, {}, locked, tail);
  }

  /** Every ingestion transaction acquires in rank order and does nothing before what justifies it:
      in particular the content locks ascend although digests sort as hex strings, lock keys are
      signed and prefixes collide. */
  lemma IngestScriptGood(keyHash: Key -> int, b: Batch)
    requires b.Resolved()
    ensures Good(keyHash, {}, IngestScript(keyHash, b)) && EndsWithCommit(IngestScript(keyHash, b))
  {
    var objects := AttachObjects(SortedDigests(b.objects));
    AttachObjectsGood(keyHash, {}, SortedDigests(b.objects));
    AttachObjectsContents(SortedDigests(b.objects));
    var inlines := SortedSet(b.inlines);
    InlinePhase(keyHash, objects, inlines);
    var streams := SortedSet(b.streams);
    StreamPhase(keyHash, objects + AttachInlines(inlines), streams);
    var lockKeys := SortedInts(LockKeys(keyHash, b.events.Keys));
    KeyPhase(keyHash, objects + AttachInlines(inlines) + LockStreams(streams), lockKeys);
    EventsJustified(keyHash, b, lockKeys);
    FinishGood(keyHash, objects + AttachInlines(inlines) + LockStreams(streams)
        + LockIdempotencyKeys(lockKeys), b.events);
  }

  lemma InlinePhase(keyHash: Key -> int, before: seq<Op>, ids: seq<string>)
    requires Good(keyHash, {}, before) && Phases(before, 1) && Ascending(ids)
    ensures Good(keyHash, {}, before + AttachInlines(ids)) && Phases(before + AttachInlines(ids), 2)
  {
    PhaseGood(keyHash, before, AttachInlines(ids), 1);
  }

  lemma StreamPhase(keyHash: Key -> int, before: seq<Op>, ids: seq<string>)
    requires Good(keyHash, {}, before) && Phases(before, 2) && Ascending(ids)
    ensures Good(keyHash, {}, before + LockStreams(ids)) && Phases(before + LockStreams(ids), 3)
  {
    PhaseGood(keyHash, before, LockStreams(ids), 2);
  }

  lemma KeyPhase(keyHash: Key -> int, before: seq<Op>, keys: seq<int>)
    requires Good(keyHash, {}, before) && Phases(before, 3) && forall i, j :: 0 <= i < j < |keys| ==> keys[i] < keys[j]
    ensures Good(keyHash, {}, before + LockIdempotencyKeys(keys)) && Phases(before + LockIdempotencyKeys(keys), 4)
  {
    PhaseGood(keyHash, before, LockIdempotencyKeys(keys), 3);
  }

  lemma EventsJustified(keyHash: Key -> int, b: Batch, lockKeys: seq<int>)
    requires b.Resolved() && forall k :: k in b.events ==> keyHash(k) in lockKeys
    ensures forall k :: k in b.events ==> Lock(IdempotencyLock(keyHash(k))) in LockIdempotencyKeys(lockKeys)
    ensures forall k, d :: k in b.events && d in b.events[k] ==>
              InsertObject(d) in AttachObjects(SortedDigests(b.objects))
  {
    AttachObjectsContents(SortedDigests(b.objects));
    forall k | k in b.events ensures Lock(IdempotencyLock(keyHash(k))) in LockIdempotencyKeys(lockKeys) {
      var i :| 0 <= i < |lockKeys| && lockKeys[i] == keyHash(k);
      assert LockIdempotencyKeys(lockKeys)[i] == Lock(IdempotencyLock(keyHash(k)));
    }
  }

  lemma SweepScriptGood(keyHash: Key -> int, d: Digest, dryRun: bool)
    ensures Good(keyHash, {}, SweepScript(d, dryRun)) && EndsWithCommit(SweepScript(d, dryRun))
  {
    hide Justified, Good;
    var lock, check := Lock(ContentLock(d)), CheckUnreferenced(d, dryRun);
    var done1 := {} + {lock};
    var done2 := done1 + {check};
    SweepJustified(keyHash, d, dryRun);
    var rest := if dryRun then [Commit] else [IssueDelete(d), AwaitDelete(d), Commit];
    if dryRun {
      GoodFirst(keyHash, done2, Commit, []);
      assert [Commit] + [] == [Commit];
    } else {
      var done3 := done2 + {IssueDelete(d)};
      var done4 := done3 + {AwaitDelete(d)};
      GoodFirst(keyHash, done4, Commit, []);
      assert [Commit] + [] == [Commit];
      GoodFirst(keyHash, done3, AwaitDelete(d), [Commit]);
      assert [AwaitDelete(d)] + [Commit] == [AwaitDelete(d), Commit];
      GoodFirst(keyHash, done2, IssueDelete(d), [AwaitDelete(d), Commit]);
      assert [IssueDelete(d)] + [AwaitDelete(d), Commit] == rest;
    }
    GoodFirst(keyHash, done1, check, rest);
    GoodFirst(keyHash, {}, lock, [check] + rest);
    assert SweepScript(d, dryRun) == [lock] + ([check] + rest);
  }

  /** A justified operation in front of a good script. */
  lemma GoodFirst(keyHash: Key -> int, done: set<Op>, op: Op, rest: seq<Op>)
    requires Justified(keyHash, done, op) && (rest == [] || Good(keyHash, done + {op}, rest))
    ensures Good(keyHash, done, [op] + rest)
  {
    hide Justified;
    assert ([op] + rest)[0] == op && ([op] + rest)[1..] == rest;
  }

  /** Each operation of a sweep, where it stands. */
  lemma SweepJustified(keyHash: Key -> int, d: Digest, dryRun: bool)
    ensures var done1 := {} + {Lock(ContentLock(d))};
            var done2 := done1 + {CheckUnreferenced(d, dryRun)};
            && Justified(keyHash, {}, Lock(ContentLock(d))) && Justified(keyHash, done1, CheckUnreferenced(d, dryRun))
            && (dryRun ==> Justified(keyHash, done2, Commit))
            && (!dryRun ==>
                  && Justified(keyHash, done2, IssueDelete(d))
                  && Justified(keyHash, done2 + {IssueDelete(d)}, AwaitDelete(d))
                  && Justified(keyHash, done2 + {IssueDelete(d)} + {AwaitDelete(d)}, Commit))
  {
    hide ContentLock;
  }
}

/** The walk that computes lineage: diff records reduced to removed and added paths, resolved and applied
    in place, commit by commit. It is proved to compute the function of the trees, so nothing Git's rename
    pairing says can change it. */
module LineageWalk {
  import opened Identity
  import opened Keyset
  import opened Lineage
  import opened Orders
  import opened Renames

  const GITLINK_MODE: string := "160000"
  const NO_MODE: string := "000000"

  datatype Entry = Entry(mode: string, oid: string)

  /** A commit's tree by raw path, gitlinks and unsafe paths included. */
  type Tree = map<string, Entry>

  /** The files lineage tracks: safe paths that are not submodules. */
  function FilesOf(safe: string -> bool, t: Tree): Files {
    map p | p in t && safe(p) && t[p].mode != GITLINK_MODE :: t[p].oid
  }

  /** One record of `git diff-tree --raw`, an unsafe path read as None. */
  datatype Record = Record(status: char, score: nat, oldMode: string, newMode: string, oldOid: string, newOid: string,
                           path: Option<string>, newPath: Option<string>)

  // ---- what a diff of two trees is -------------------------------------------------------------

  /** What Git may report about a pair of trees. It chooses how to pair deletions with additions, and
      scores the pairs. */
  datatype Change =
    | Added(path: string, new_: Entry)
    | Deleted(path: string, old_: Entry)
    | Changed(path: string, old_: Entry, new_: Entry, status: char)
    | Renamed(source: string, target: string, old_: Entry, new_: Entry, score: nat)
    | Copied(source: string, target: string, old_: Entry, new_: Entry, score: nat)

  predicate AddsTo(before: Tree, after: Tree, p: string, e: Entry) {
    p !in before && p in after && after[p] == e
  }

  predicate TakesFrom(before: Tree, after: Tree, p: string, e: Entry) {
    p in before && before[p] == e && p !in after
  }

  predicate ValidChange(before: Tree, after: Tree, c: Change) {
    match c
    case Added(p, e) => AddsTo(before, after, p, e)
    case Deleted(p, e) => TakesFrom(before, after, p, e)
    case Changed(p, o, n, status) => p in before && p in after && before[p] == o && after[p] == n
      && status in {'M', 'T'}
    case Renamed(p, q, o, n, score) => TakesFrom(before, after, p, o) && AddsTo(before, after, q, n) && score <= 100
    case Copied(p, q, o, n, score) => p in before && before[p] == o && AddsTo(before, after, q, n) && score <= 100
  }

  predicate CoversRemoval(c: Change, p: string) {
    (c.Deleted? && c.path == p) || (c.Renamed? && c.source == p)
  }

  predicate CoversAddition(c: Change, p: string) {
    (c.Added? && c.path == p) || (c.Renamed? && c.target == p) || (c.Copied? && c.target == p)
  }

  /** A diff: valid changes that account for every difference, paired and ordered in any way. */
  ghost predicate IsDiff(before: Tree, after: Tree, changes: seq<Change>) {
    && (forall c :: c in changes ==> ValidChange(before, after, c))
    && (forall p :: p in before && p !in after ==> exists c :: c in changes && CoversRemoval(c, p))
    && (forall p :: p in after && p !in before ==> exists c :: c in changes && CoversAddition(c, p))
    && (forall p :: p in before && p in after && before[p] != after[p] ==>
        exists c :: c in changes && c.Changed? && c.path == p)
  }

  function Shown(safe: string -> bool, p: string): Option<string> {
    if safe(p) then Some(p) else None
  }

  function RecordOf(safe: string -> bool, c: Change): Record {
    match c
    case Added(p, e) => Record('A', 0, NO_MODE, e.mode, NO_BLOB, e.oid, Shown(safe, p), None)
    case Deleted(p, e) => Record('D', 0, e.mode, NO_MODE, e.oid, NO_BLOB, Shown(safe, p), None)
    case Changed(p, o, n, status) => Record(status, 0, o.mode, n.mode, o.oid, n.oid, Shown(safe, p), None)
    case Renamed(p, q, o, n, score) => Record('R', score, o.mode, n.mode, o.oid, n.oid, Shown(safe, p), Shown(safe, q))
    case Copied(p, q, o, n, score) => Record('C', score, o.mode, n.mode, o.oid, n.oid, Shown(safe, p), Shown(safe, q))
  }

  ghost predicate Reports(safe: string -> bool, changes: seq<Change>, records: seq<Record>) {
    |records| == |changes| && forall i :: 0 <= i < |changes| ==> records[i] == RecordOf(safe, changes[i])
  }

  // ---- what the reduction takes from a record --------------------------------------------------

  predicate Paired(r: Record) {
    r.status == 'R' || r.status == 'C'
  }

  predicate OldExists(r: Record) {
    r.oldMode != GITLINK_MODE && r.status != 'A'
  }

  predicate NewExists(r: Record) {
    r.newMode != GITLINK_MODE && r.status != 'D'
  }

  predicate Removes(r: Record, p: string) {
    r.path == Some(p) && (r.status == 'R' || (!Paired(r) && OldExists(r) && !NewExists(r)))
  }

  predicate Adds(r: Record, p: string) {
    if Paired(r) then r.newPath == Some(p) && r.newMode != GITLINK_MODE
    else r.path == Some(p) && NewExists(r) && !OldExists(r)
  }

  predicate Keeps(r: Record, p: string) {
    !Paired(r) && r.path == Some(p) && OldExists(r) && NewExists(r)
  }

  /** A rename below the exact score is a guess about its pair. */
  predicate Suggests(r: Record, o: string, n: string) {
    r.status == 'R' && r.path == Some(o) && r.newPath == Some(n) && r.newMode != GITLINK_MODE && r.score < 100
  }

  lemma RecordMeans(safe: string -> bool, before: Tree, after: Tree, c: Change, p: string)
    requires ValidChange(before, after, c)
    ensures var r, fb, fa := RecordOf(safe, c), FilesOf(safe, before), FilesOf(safe, after);
            && (Removes(r, p) ==> p !in fa)
            && (Adds(r, p) ==> p in fa && fa[p] == r.newOid && p !in fb)
            && (Keeps(r, p) ==> p in fa && fa[p] == r.newOid && p in fb)
    ensures safe(p) && p in before && before[p].mode != GITLINK_MODE && CoversRemoval(c, p) ==>
              Removes(RecordOf(safe, c), p)
    ensures safe(p) && p in after && after[p].mode != GITLINK_MODE && CoversAddition(c, p) ==>
              Adds(RecordOf(safe, c), p)
    ensures c.Changed? && c.path == p && safe(p) ==>
              var o, n := before[p].mode != GITLINK_MODE, after[p].mode != GITLINK_MODE;
              && (o && !n ==> Removes(RecordOf(safe, c), p)) && (!o && n ==> Adds(RecordOf(safe, c), p))
              && (o && n ==> Keeps(RecordOf(safe, c), p))
  {}

  ghost predicate SomeRemoves(records: seq<Record>, p: string) {
    exists k :: 0 <= k < |records| && Removes(records[k], p)
  }

  ghost predicate SomeAdds(records: seq<Record>, p: string) {
    exists k :: 0 <= k < |records| && Adds(records[k], p)
  }

  ghost predicate SomeKeeps(records: seq<Record>, p: string) {
    exists k :: 0 <= k < |records| && Keeps(records[k], p)
  }

  ghost predicate AddedWith(records: seq<Record>, p: string, oid: string) {
    exists k :: 0 <= k < |records| && Adds(records[k], p) && records[k].newOid == oid
  }

  ghost predicate KeptWith(records: seq<Record>, p: string, oid: string) {
    exists k :: 0 <= k < |records| && Keeps(records[k], p) && records[k].newOid == oid
  }

  /** The records of a diff, read as sets, are exactly the difference of the two file maps. */
  lemma DiffMeans(safe: string -> bool, before: Tree, after: Tree, changes: seq<Change>, records: seq<Record>,
                  p: string)
    requires IsDiff(before, after, changes) && Reports(safe, changes, records)
    ensures var fb, fa := FilesOf(safe, before), FilesOf(safe, after);
            && (p in fb ==> (SomeRemoves(records, p) <==> p !in fa))
            && (SomeAdds(records, p) <==> p in fa && p !in fb)
            && (forall oid :: AddedWith(records, p, oid) ==> p in fa && fa[p] == oid)
            && (forall oid :: KeptWith(records, p, oid) ==> p in fa && fa[p] == oid)
            && (p in fa && p in fb && fa[p] != fb[p] ==> SomeKeeps(records, p))
  {
    hide FilesOf, RecordOf, Removes, Adds, Keeps, ValidChange;
    var fb, fa := FilesOf(safe, before), FilesOf(safe, after);
    forall k | 0 <= k < |records|
      ensures Removes(records[k], p) ==> p !in fa
      ensures Adds(records[k], p) ==> p in fa && fa[p] == records[k].newOid && p !in fb
      ensures Keeps(records[k], p) ==> p in fa && fa[p] == records[k].newOid && p in fb
    {
      assert changes[k] in changes;
      RecordMeans(safe, before, after, changes[k], p);
    }
    DiffCovers(safe, before, after, changes, records, p);
  }

  lemma DiffCovers(safe: string -> bool, before: Tree, after: Tree, changes: seq<Change>, records: seq<Record>,
                   p: string)
    requires IsDiff(before, after, changes) && Reports(safe, changes, records)
    ensures var fb, fa := FilesOf(safe, before), FilesOf(safe, after);
            && (p in fb && p !in fa ==> SomeRemoves(records, p))
            && (p in fa && p !in fb ==> SomeAdds(records, p))
            && (p in fa && p in fb && fa[p] != fb[p] ==> SomeKeeps(records, p))
  {
    hide RecordOf, Removes, Adds, Keeps, ValidChange;
    var fb, fa := FilesOf(safe, before), FilesOf(safe, after);
    if safe(p) && (p in before || p in after) && !(p in before && p in after && before[p] == after[p]) {
      var c :| c in changes && (p !in after ==> CoversRemoval(c, p)) && (p !in before ==> CoversAddition(c, p))
               && (p in before && p in after ==> c.Changed? && c.path == p);
      var k :| 0 <= k < |changes| && changes[k] == c;
      RecordMeans(safe, before, after, c, p);
      assert records[k] == RecordOf(safe, c);
    }
  }

  // ---- the state -------------------------------------------------------------------------------

  /** The files that left or were reborn, the files that appeared, and Git's guesses about pairs. */
  function LeavingFiles(live: map<string, Live>, files: Files): set<PriorFile> {
    set q | q in live && Leaves(live, files, q) :: PriorFile(q, live[q].id, live[q].blob)
  }

  function RebornFiles(s: Tracked, files: Files): set<PriorFile> {
    set p | p in s.dead && Appears(s.live, files, p) :: PriorFile(p, s.dead[p], NO_BLOB)
  }

  function AppearedFiles(live: map<string, Live>, files: Files): set<NewFile> {
    set p | p in files && Appears(live, files, p) :: NewFile(p, files[p])
  }

  function GuessedPairs(records: seq<Record>, live: map<string, Live>, files: Files): set<SimilarRename> {
    set k | 0 <= k < |records| && records[k].path.Some? && records[k].newPath.Some?
            && Suggests(records[k], records[k].path.value, records[k].newPath.value)
            && records[k].score > 0 && Leaves(live, files, records[k].path.value)
          :: SimilarRename(records[k].path.value, records[k].newPath.value, records[k].score as real / 100.0)
  }

  /** `file_logical_id` for the files a commit introduces. */
  function Mint(fid: (string, string) -> Id, commit: string): string -> Id {
    (path: string) => fid(path, commit)
  }

  /** The claims a commit adds. */
  ghost function CommitClaims(fid: (string, string) -> Id, commit: string, s: Tracked, files: Files,
                              records: seq<Record>): seq<Supersession> {
    Resolved(Mint(fid, commit), LeavingFiles(s.live, files) + RebornFiles(s, files),
             AppearedFiles(s.live, files), GuessedPairs(records, s.live, files)).supersessions
  }

  /** Edits in place give kept files their new blob. */
  function Refreshed(live: map<string, Live>, files: Files): map<string, Live> {
    map p | p in live :: if p in files then live[p].(blob := files[p]) else live[p]
  }

  ghost predicate Tracks(live: map<string, Live>, files: Files) {
    live.Keys == files.Keys && forall p :: p in live ==> live[p].blob == files[p]
  }

  /** The only deterministic evidence of the resolution is the continuation of the trees. */
  lemma MovesAreContinuations(s: Tracked, files: Files, x: PriorFile, p: string)
    requires s.live.Keys !! s.dead.Keys && Appears(s.live, files, p)
    requires forall q :: q in files ==> files[q] != NO_BLOB
    ensures var removed, added := LeavingFiles(s.live, files) + RebornFiles(s, files), AppearedFiles(s.live, files);
            Moves(removed, added, x, NewFile(p, files[p]))
            <==> x.path in s.live && x == PriorFile(x.path, s.live[x.path].id, s.live[x.path].blob)
                 && Continues(s.live, files, x.path, p)
  {
    var removed, added := LeavingFiles(s.live, files) + RebornFiles(s, files), AppearedFiles(s.live, files);
    var f := NewFile(p, files[p]);
    if Moves(removed, added, x, f) {
      assert x in LeavingFiles(s.live, files);
      forall r | Leaves(s.live, files, r) && s.live[r].blob == files[p] ensures r == x.path {
        assert PriorFile(r, s.live[r].id, s.live[r].blob) in removed;
      }
      forall r | Appears(s.live, files, r) && files[r] == files[p] ensures r == p {
        assert NewFile(r, files[r]) in added;
      }
    }
    if x.path in s.live && x == PriorFile(x.path, s.live[x.path].id, s.live[x.path].blob)
      && Continues(s.live, files, x.path, p) {
      assert x in removed && f in added;
      forall t | t in removed && t.blob == f.blob ensures t == x {
        assert t in LeavingFiles(s.live, files);
        assert Leaves(s.live, files, t.path);
      }
      forall g | g in added && g.blob == f.blob ensures g == f {
        assert Appears(s.live, files, g.path);
      }
    }
  }

  /** So the ID each appeared file gets is the one the trees determine. */
  lemma ResolvedIdIsArrival(fid: (string, string) -> Id, commit: string, s: Tracked, files: Files, p: string)
    requires s.live.Keys !! s.dead.Keys && Appears(s.live, files, p)
    requires forall q :: q in files ==> files[q] != NO_BLOB
    ensures IdFor(Mint(fid, commit), LeavingFiles(s.live, files) + RebornFiles(s, files),
                  AppearedFiles(s.live, files), NewFile(p, files[p]))
         == Arrival(fid, commit, s.live, files, p).id
  {
    hide Moves, Continues, LeavingFiles, RebornFiles, AppearedFiles;
    var removed, added := LeavingFiles(s.live, files) + RebornFiles(s, files), AppearedFiles(s.live, files);
    var f := NewFile(p, files[p]);
    var mint := Mint(fid, commit);
    if Moved(removed, added, f) {
      var x :| Moves(removed, added, x, f) && IdFor(mint, removed, added, f) == x.id;
      MovesAreContinuations(s, files, x, p);
      ArrivalFrom(fid, commit, s.live, files, x.path, p);
    } else {
      forall q ensures !Continues(s.live, files, q, p) {
        if Continues(s.live, files, q, p) {
          ContinuesFromLive(s.live, files, q, p);
          MovesAreContinuations(s, files, PriorFile(q, s.live[q].id, s.live[q].blob), p);
        }
      }
    }
  }

  lemma ArrivalFrom(fid: (string, string) -> Id, commit: string, live: map<string, Live>, files: Files, q: string,
                    p: string)
    requires Continues(live, files, q, p)
    ensures Arrival(fid, commit, live, files, p) == Live(live[q].id, live[q].origin, files[p])
  {}

  lemma ArrivalFresh(fid: (string, string) -> Id, commit: string, live: map<string, Live>, files: Files, p: string)
    requires Appears(live, files, p) && !HasSource(live, files, p)
    ensures Arrival(fid, commit, live, files, p) == Live(fid(p, commit), Origin(p, commit, files[p]), files[p])
  {}

  // ---- the walk --------------------------------------------------------------------------------

  /** A commit as Git reports it, with the trees it lies between. */
  datatype Step = Step(oid: string, records: seq<Record>, ghost tree: Tree, ghost changes: seq<Change>)

  ghost predicate SafeStart(fid: (string, string) -> Id, seen: set<string>, gone: set<Id>, s: Tracked) {
    InjectiveIds(fid) && Inv(fid, seen, gone, s)
  }

  class State {
    const fid: (string, string) -> Id
    var live: map<string, Live>
    var dead: map<string, Id>
    var supersessions: seq<Supersession>

    constructor (fid: (string, string) -> Id)
      ensures this.fid == fid && Value() == Untracked && supersessions == []
    {
      this.fid := fid;
      live := map[];
      dead := map[];
      supersessions := [];
    }

    ghost function Value(): Tracked
      reads this
    {
      Tracked(live, dead)
    }

    /** The first loop: records to removed and added paths and guesses; edits applied on the way. */
    method Reduce(records: seq<Record>)
      returns (removed: set<string>, added: map<string, string>, similar: seq<(string, string, nat)>)
      modifies this`live
      ensures forall p :: p in removed <==> SomeRemoves(records, p)
      ensures forall p :: p in added <==> SomeAdds(records, p)
      ensures forall p :: p in added ==> AddedWith(records, p, added[p])
      ensures live.Keys == old(live).Keys
      ensures forall p :: p in live ==>
                if SomeKeeps(records, p) then KeptWith(records, p, live[p].blob)
                  && live[p] == old(live)[p].(blob := live[p].blob)
                else live[p] == old(live)[p]
      ensures ListsPairs(records, similar)
    {
      hide Removes, Adds, Keeps, Suggests, SomeRemoves, SomeAdds, SomeKeeps, AddedWith, KeptWith;
      removed, added, similar := {}, map[], [];
      NoRecords();
      assert records[..0] == [];
      for i := 0 to |records|
        invariant forall p :: p in removed <==> SomeRemoves(records[..i], p)
        invariant forall p :: p in added <==> SomeAdds(records[..i], p)
        invariant forall p :: p in added ==> AddedWith(records[..i], p, added[p])
        invariant live.Keys == old(live).Keys
        invariant forall p :: p in live ==>
                    if SomeKeeps(records[..i], p) then KeptWith(records[..i], p, live[p].blob)
                      && live[p] == old(live)[p].(blob := live[p].blob)
                    else live[p] == old(live)[p]
        invariant forall o, n, sc :: (o, n, sc) in similar <==>
                    exists k :: 0 <= k < i && Suggests(records[k], o, n) && records[k].score == sc
      {
        var r := records[i];
        RecordsGrow(records, i);
        ReadsOneWay(r);
        if Paired(r) {
          if r.status == 'R' && r.path.Some? {
            removed := removed + {r.path.value};
          }
          if r.newPath.Some? && r.newMode != GITLINK_MODE {
            added := added[r.newPath.value := r.newOid];
            if r.status == 'R' && r.path.Some? && r.score < 100 {
              similar := similar + [(r.path.value, r.newPath.value, r.score)];
            }
          }
        } else if r.path.Some? {
          if OldExists(r) && !NewExists(r) {
            removed := removed + {r.path.value};
          } else if NewExists(r) && !OldExists(r) {
            added := added[r.path.value := r.newOid];
          } else if OldExists(r) && NewExists(r) && r.path.value in live {
            live := live[r.path.value := live[r.path.value].(blob := r.newOid)];
          }
        }
      }
      assert records[..|records|] == records;
    }

    /** The tracked files that left, in path order. */
    method Priors(removed: set<string>) returns (names: seq<string>, priors: seq<PriorFile>)
      ensures Elements(names) == removed * live.Keys && StrictlySorted(names, Less)
      ensures |priors| == |names| && forall i :: 0 <= i < |names| ==>
                names[i] in live && priors[i] == PriorFile(names[i], live[names[i]].id, live[names[i]].blob)
    {
      hide SortedSet;
      var wanted := removed * live.Keys;
      names := Smallest(wanted, |wanted|);
      assert names == SortedSet(wanted);
      assert Elements(names) == wanted;
      priors := [];
      for i := 0 to |names|
        invariant |priors| == i
        invariant forall k :: 0 <= k < i ==>
                    names[k] in live && priors[k] == PriorFile(names[k], live[names[k]].id, live[names[k]].blob)
      {
        assert names[i] in Elements(names);
        priors := priors + [PriorFile(names[i], live[names[i]].id, live[names[i]].blob)];
      }
    }

    /** Dead paths that appeared again, without a usable blob. */
    method Reborn(added: map<string, string>, names: seq<string>) returns (reused: seq<PriorFile>)
      ensures Elements(reused) == set p | p in added && p in dead && p !in names :: PriorFile(p, dead[p], NO_BLOB)
      ensures DistinctRemovedPaths(reused)
    {
      hide SortedSet, Less;
      var again := set p | p in added && p in dead && p !in names;
      var order := Smallest(again, |again|);
      assert order == SortedSet(again);
      assert forall i :: 0 <= i < |order| ==> order[i] in order;
      var dead := dead;
      reused := seq(|order|, i requires 0 <= i < |order| => PriorFile(order[i], dead[order[i]], NO_BLOB));
      forall i, j | 0 <= i < j < |reused| ensures reused[i].path != reused[j].path {
        assert Less(order[i], order[j]);
        LessIrreflexive(order[i]);
      }
      forall p | p in again ensures PriorFile(p, dead[p], NO_BLOB) in reused {
        assert p in order;
        var i :| 0 <= i < |order| && order[i] == p;
        assert reused[i] == PriorFile(p, dead[p], NO_BLOB);
      }
    }

    /** `carried`: the lineages that left, by ID. */
    method Carry(names: seq<string>) returns (carried: map<Id, Live>)
      requires DistinctLive(live) && forall q :: q in names ==> q in live
      ensures forall q :: q in names ==> live[q].id in carried && carried[live[q].id] == live[q]
      ensures forall id :: id in carried ==> exists q :: q in names && live[q].id == id
    {
      carried := map[];
      for i := 0 to |names|
        invariant forall k :: 0 <= k < i ==>
                    live[names[k]].id in carried && carried[live[names[k]].id] == live[names[k]]
        invariant forall id :: id in carried ==> exists k :: 0 <= k < i && live[names[k]].id == id
      {
        carried := carried[live[names[i]].id := live[names[i]]];
      }
      forall id | id in carried ensures exists q :: q in names && live[q].id == id {
        var k :| 0 <= k < |names| && live[names[k]].id == id;
        assert names[k] in names;
      }
    }

    /** Drop the files that left. */
    method Drop(names: seq<string>)
      modifies this`live
      ensures live == old(live) - Elements(names)
    {
      for i := 0 to |names|
        invariant live == old(live) - Elements(names[..i])
      {
        live := live - {names[i]};
        assert Elements(names[..i + 1]) == Elements(names[..i]) + {names[i]};
      }
      assert names[..|names|] == names;
    }

    /** Enter the files that appeared, in path order; their paths are no longer dead. */
    method Place(commit: string, order: seq<string>, added: map<string, string>, ids: map<string, Id>,
                 carried: map<Id, Live>)
      requires forall p :: p in order ==> p in added && p in ids
      modifies this`live, this`dead
      ensures live == old(live) + PlacedAll(commit, added, ids, carried, order)
      ensures dead == old(dead) - Elements(order)
    {
      hide Placed;
      for i := 0 to |order|
        invariant live == old(live) + PlacedAll(commit, added, ids, carried, order[..i])
        invariant dead == old(dead) - Elements(order[..i])
      {
        var path := order[i];
        var origin := if ids[path] in carried then carried[ids[path]].origin else Origin(path, commit, added[path]);
        PlacedNext(commit, added, ids, carried, order[..i], path, old(live), old(dead));
        assert order[..i + 1] == order[..i] + [path];
        live := live[path := Live(ids[path], origin, added[path])];
        dead := dead - {path};
      }
      assert order[..|order|] == order;
    }

    /** Bury what left and did not move. */
    method Bury(priors: seq<PriorFile>, moved: set<Id>)
      requires DistinctRemovedPaths(priors)
      modifies this`dead
      ensures forall p :: p in dead <==> p in old(dead) || exists x :: x in priors && x.path == p && x.id !in moved
      ensures forall p :: p in dead && (forall x :: x in priors ==> x.path != p) ==> dead[p] == old(dead)[p]
      ensures forall x :: x in priors && x.id !in moved ==> dead[x.path] == x.id
      ensures forall x :: x in priors && x.id in moved && x.path in dead ==> dead[x.path] == old(dead)[x.path]
    {
      for i := 0 to |priors|
        invariant forall p ::
                    p in dead
                    <==> p in old(dead) || exists k :: 0 <= k < i && priors[k].path == p && priors[k].id !in moved
        invariant forall k :: 0 <= k < i && priors[k].id !in moved ==> dead[priors[k].path] == priors[k].id
        invariant forall p ::
                    p in dead && (forall k :: 0 <= k < i && priors[k].id !in moved ==> priors[k].path != p) ==>
                      p in old(dead) && dead[p] == old(dead)[p]
      {
        if priors[i].id !in moved {
          dead := dead[priors[i].path := priors[i].id];
        }
      }
    }

    /** The live half: carry the lineages that move, start the new ones. */
    method Enter(commit: string, names: seq<string>, added: map<string, string>, ids: map<string, Id>,
                 ghost s: Tracked, ghost files: Files, ghost seen: set<string>, ghost gone: set<Id>)
      requires SafeStart(fid, seen, gone, s) && commit !in seen
      requires live == Refreshed(s.live, files) && dead == s.dead
      requires Elements(names) == LeavingNames(s.live, files) && added == Appearing(s.live, files)
      requires forall p :: p in added ==> p in ids && ids[p] == Arrival(fid, commit, s.live, files, p).id
      modifies this`live, this`dead
      ensures live == NextLive(fid, commit, s.live, files) && dead == s.dead - added.Keys
    {
      hide Arrival, NextLive, SafeStart, Appearing, Refreshed, PlacedAll, SortedSet, LeavingNames, CarriesLeaving;
      RefreshedKeeps(fid, seen, gone, s, files, names);
      var carried := Carry(names);
      CarriedLeaves(s.live, files, live, names, carried);
      Drop(names);
      var order := Smallest(added.Keys, |added.Keys|);
      assert order == SortedSet(added.Keys);
      Place(commit, order, added, ids, carried);
      assert Elements(order) == added.Keys;
      SettledLive(fid, seen, gone, commit, s, files, names, added, ids, carried, order);
    }

    /** The closing loops: enter what appeared, bury what left and did not move. */
    method Settle(commit: string, names: seq<string>, priors: seq<PriorFile>, added: map<string, string>,
                  ids: map<string, Id>,
                  ghost s: Tracked, ghost files: Files, ghost seen: set<string>, ghost gone: set<Id>)
      requires SafeStart(fid, seen, gone, s) && commit !in seen
      requires live == Refreshed(s.live, files) && dead == s.dead
      requires ListsLeaving(names, priors, s.live, files) && added == Appearing(s.live, files)
      requires forall p :: p in added ==> p in ids && ids[p] == Arrival(fid, commit, s.live, files, p).id
      modifies this`live, this`dead
      ensures Value() == Advance(fid, commit, s, files)
    {
      hide Arrival, NextLive, SafeStart, NextDead, ListsLeaving, Appearing, Refreshed, LeavingNames;
      hide DistinctRemovedPaths;
      LeavingListed(names, priors, s.live, files);
      Enter(commit, names, added, ids, s, files, seen, gone);
      AppearingEntered(fid, commit, s.live, files);
      var moved := set p | p in added :: live[p].id;
      Bury(priors, moved);
      MovedMeansTargets(fid, seen, gone, commit, s, files, added, moved);
      SettledDead(s, files, priors, added, moved, dead, s.dead - added.Keys);
    }

    /** One commit. The resolution never refuses, and whatever way Git paired, scored or ordered the
        changes, the state advances by the two trees alone. */
    method Apply(commit: string, records: seq<Record>, ghost safe: string -> bool, ghost before: Tree,
                 ghost after: Tree,
                 ghost changes: seq<Change>, ghost seen: set<string>, ghost gone: set<Id>)
      returns (r: Result<(), RenameError>)
      requires SafeStart(fid, seen, gone, Value()) && commit !in seen
      requires Tracks(live, FilesOf(safe, before)) && IsDiff(before, after, changes) && Reports(safe, changes, records)
      requires forall p :: p in FilesOf(safe, after) ==> FilesOf(safe, after)[p] != NO_BLOB
      modifies this
      ensures r.Ok?
      ensures Value() == Advance(fid, commit, old(Value()), FilesOf(safe, after))
      ensures supersessions
                == old(supersessions) + CommitClaims(fid, commit, old(Value()), FilesOf(safe, after), records)
    {
      hide FilesOf, IsDiff, Reports, SafeStart, Advance, Resolved, WellFormed, SomeRemoves, SomeAdds;
      hide SomeKeeps, AddedWith, KeptWith, Refreshed, LeavingFiles, RebornFiles, AppearedFiles, GuessedPairs;
      hide IdFor, Arrival, Tracks, ListsLeaving, Appearing, ListsPairs, ListsGuesses, DistinctRemovedPaths;
      hide DistinctAddedPaths;
      ghost var s := Value();
      ghost var files := FilesOf(safe, after);
      var removed, added, similar := Reduce(records);
      ReducedMeans(safe, before, after, changes, records, s.live, live, removed, added);
      var names, priors := Priors(removed);
      PriorsListLeaving(s.live, files, live, removed, names, priors);
      var reused := Reborn(added, names);
      var newFiles := NewFiles(added);
      var guesses := ScoredPairs(similar, names);
      InputsAreSets(fid, seen, gone, s, files, records, names, priors, added, reused, newFiles, similar, guesses);
      var resolution := ResolveRename(Mint(fid, commit), priors + reused, newFiles, guesses);
      supersessions := supersessions + resolution.value.supersessions;
      ResolvedIds(fid, seen, gone, commit, s, files, resolution.value.ids);
      Settle(commit, names, priors, added, resolution.value.ids, s, files, seen, gone);
      r := Ok(());
    }
  }

  /** The entry of an appeared file. */
  function Placed(commit: string, added: map<string, string>, ids: map<string, Id>, carried: map<Id, Live>,
                  p: string): Live
    requires p in added && p in ids
  {
    Live(ids[p], if ids[p] in carried then carried[ids[p]].origin else Origin(p, commit, added[p]), added[p])
  }

  function PlacedAll(commit: string, added: map<string, string>, ids: map<string, Id>, carried: map<Id, Live>,
                     order: seq<string>)
    : map<string, Live>
    requires forall p :: p in order ==> p in added && p in ids
  {
    map p | p in order :: Placed(commit, added, ids, carried, p)
  }

  lemma PlacedNext(commit: string, added: map<string, string>, ids: map<string, Id>, carried: map<Id, Live>,
                   order: seq<string>, p: string, live: map<string, Live>, dead: map<string, Id>)
    requires forall q :: q in order + [p] ==> q in added && q in ids
    ensures p in added && p in ids
    ensures Placed(commit, added, ids, carried, p)
         == Live(ids[p], if ids[p] in carried then carried[ids[p]].origin else Origin(p, commit, added[p]), added[p])
    ensures live + PlacedAll(commit, added, ids, carried, order + [p])
         == (live + PlacedAll(commit, added, ids, carried, order))[p := Placed(commit, added, ids, carried, p)]
    ensures dead - Elements(order + [p]) == (dead - Elements(order)) - {p}
  {
    assert p in order + [p];
    assert Elements(order + [p]) == Elements(order) + {p};
  }

  lemma NoRecords()
    ensures forall p :: !SomeRemoves([], p) && !SomeAdds([], p) && !SomeKeeps([], p)
  {}

  lemma RecordsGrow(records: seq<Record>, i: nat)
    requires i < |records|
    ensures forall p :: SomeRemoves(records[..i + 1], p) <==> SomeRemoves(records[..i], p) || Removes(records[i], p)
    ensures forall p :: SomeAdds(records[..i + 1], p) <==> SomeAdds(records[..i], p) || Adds(records[i], p)
    ensures forall p :: SomeKeeps(records[..i + 1], p) <==> SomeKeeps(records[..i], p) || Keeps(records[i], p)
    ensures forall p, oid :: AddedWith(records[..i], p, oid) ==> AddedWith(records[..i + 1], p, oid)
    ensures forall p, oid :: KeptWith(records[..i], p, oid) ==> KeptWith(records[..i + 1], p, oid)
    ensures forall p :: Adds(records[i], p) ==> AddedWith(records[..i + 1], p, records[i].newOid)
    ensures forall p :: Keeps(records[i], p) ==> KeptWith(records[..i + 1], p, records[i].newOid)
  {
    hide Removes, Adds, Keeps;
    var a, b := records[..i], records[..i + 1];
    assert b == a + [records[i]];
    assert b[i] == records[i];
    assert forall k :: 0 <= k < i ==> a[k] == b[k];
    forall p, oid | AddedWith(a, p, oid) ensures AddedWith(b, p, oid) {
      var k :| 0 <= k < |a| && Adds(a[k], p) && a[k].newOid == oid;
      assert Adds(b[k], p);
    }
    forall p, oid | KeptWith(a, p, oid) ensures KeptWith(b, p, oid) {
      var k :| 0 <= k < |a| && Keeps(a[k], p) && a[k].newOid == oid;
      assert Keeps(b[k], p);
    }
  }

  /** Which path, if any, each reading of a record concerns. */
  lemma ReadsOneWay(r: Record)
    ensures forall p ::
              Removes(r, p)
              <==> r.path == Some(p) && (r.status == 'R' || (!Paired(r) && OldExists(r) && !NewExists(r)))
    ensures forall p ::
              Adds(r, p)
              <==> if Paired(r) then r.newPath == Some(p) && r.newMode != GITLINK_MODE
                   else r.path == Some(p) && NewExists(r) && !OldExists(r)
    ensures forall p :: Keeps(r, p) <==> !Paired(r) && r.path == Some(p) && OldExists(r) && NewExists(r)
    ensures forall o, n :: Suggests(r, o, n) <==>
              r.status == 'R' && r.path == Some(o) && r.newPath == Some(n) && r.newMode != GITLINK_MODE && r.score < 100
  {}

  // ---- linking the lists to the trees ----------------------------------------------------------

  function Appearing(live: map<string, Live>, files: Files): map<string, string> {
    map p | p in files && Appears(live, files, p) :: files[p]
  }

  ghost predicate ListsLeaving(names: seq<string>, priors: seq<PriorFile>, live: map<string, Live>, files: Files) {
    && StrictlySorted(names, Less)
    && (forall q :: q in names <==> Leaves(live, files, q))
    && |priors| == |names|
    && forall i :: 0 <= i < |names| ==>
        names[i] in live && priors[i] == PriorFile(names[i], live[names[i]].id, live[names[i]].blob)
  }

  lemma ReducedMeans(safe: string -> bool, before: Tree, after: Tree, changes: seq<Change>, records: seq<Record>,
                     live: map<string, Live>, live': map<string, Live>, removed: set<string>,
                     added: map<string, string>)
    requires Tracks(live, FilesOf(safe, before)) && IsDiff(before, after, changes) && Reports(safe, changes, records)
    requires forall p :: p in removed <==> SomeRemoves(records, p)
    requires forall p :: p in added <==> SomeAdds(records, p)
    requires forall p :: p in added ==> AddedWith(records, p, added[p])
    requires live'.Keys == live.Keys
    requires forall p :: p in live' ==>
               if SomeKeeps(records, p) then KeptWith(records, p, live'[p].blob)
                 && live'[p] == live[p].(blob := live'[p].blob)
               else live'[p] == live[p]
    ensures live' == Refreshed(live, FilesOf(safe, after))
    ensures forall q :: q in removed && q in live' <==> Leaves(live, FilesOf(safe, after), q)
    ensures added == Appearing(live, FilesOf(safe, after))
  {
    hide FilesOf, IsDiff, Reports, SomeRemoves, SomeAdds, SomeKeeps, AddedWith, KeptWith;
    var fa := FilesOf(safe, after);
    forall p
      ensures p in live ==> (p in removed <==> p !in fa)
      ensures p in added <==> Appears(live, fa, p)
      ensures p in added ==> added[p] == fa[p]
      ensures p in live ==> live'[p] == if p in fa then live[p].(blob := fa[p]) else live[p]
    {
      DiffMeans(safe, before, after, changes, records, p);
    }
  }

  lemma PriorsListLeaving(live: map<string, Live>, files: Files, live': map<string, Live>, removed: set<string>,
                          names: seq<string>, priors: seq<PriorFile>)
    requires live' == Refreshed(live, files)
    requires forall q :: q in removed && q in live' <==> Leaves(live, files, q)
    requires Elements(names) == removed * live'.Keys && StrictlySorted(names, Less)
    requires |priors| == |names| && forall i :: 0 <= i < |names| ==>
               names[i] in live' && priors[i] == PriorFile(names[i], live'[names[i]].id, live'[names[i]].blob)
    ensures ListsLeaving(names, priors, live, files)
  {
    forall q ensures q in names <==> Leaves(live, files, q) {
      assert q in names <==> q in Elements(names);
    }
    forall i | 0 <= i < |names| ensures names[i] in live && live'[names[i]] == live[names[i]] {
      assert names[i] in names;
    }
  }

  function LeavingNames(live: map<string, Live>, files: Files): set<string> {
    set q | q in live && Leaves(live, files, q)
  }

  lemma LeavingListed(names: seq<string>, priors: seq<PriorFile>, live: map<string, Live>, files: Files)
    requires ListsLeaving(names, priors, live, files)
    ensures Elements(names) == LeavingNames(live, files)
    ensures DistinctRemovedPaths(priors)
    ensures forall x ::
              x in priors
              <==> Leaves(live, files, x.path) && x == PriorFile(x.path, live[x.path].id, live[x.path].blob)
  {
    hide Less;
    forall i, j | 0 <= i < j < |priors| ensures priors[i].path != priors[j].path {
      assert Less(names[i], names[j]);
      LessIrreflexive(names[i]);
    }
    forall x
      ensures x in priors
              <==> Leaves(live, files, x.path) && x == PriorFile(x.path, live[x.path].id, live[x.path].blob)
    {
      if x in priors {
        var i :| 0 <= i < |priors| && priors[i] == x;
        assert names[i] in names;
      }
      if Leaves(live, files, x.path) && x == PriorFile(x.path, live[x.path].id, live[x.path].blob) {
        assert x.path in names;
        var i :| 0 <= i < |names| && names[i] == x.path;
        assert priors[i] == x;
      }
    }
  }

  lemma RefreshedKeeps(fid: (string, string) -> Id, seen: set<string>, gone: set<Id>, s: Tracked, files: Files,
                       names: seq<string>)
    requires SafeStart(fid, seen, gone, s) && Elements(names) == LeavingNames(s.live, files)
    ensures DistinctLive(Refreshed(s.live, files)) && Refreshed(s.live, files).Keys == s.live.Keys
    ensures forall q :: q in names ==> q in Refreshed(s.live, files)
  {
    hide Born, InjectiveIds;
    forall q | q in names ensures q in Refreshed(s.live, files) {
      assert q in Elements(names);
    }
  }

  /** `carried` holds exactly the lineages that left, as they were. */
  ghost predicate CarriesLeaving(carried: map<Id, Live>, live: map<string, Live>, files: Files) {
    && (forall q :: Leaves(live, files, q) ==> live[q].id in carried && carried[live[q].id] == live[q])
    && (forall id :: id in carried ==> exists q :: Leaves(live, files, q) && live[q].id == id)
  }

  lemma CarriedLeaves(live: map<string, Live>, files: Files, live': map<string, Live>, names: seq<string>,
                      carried: map<Id, Live>)
    requires live' == Refreshed(live, files) && Elements(names) == LeavingNames(live, files)
    requires forall q :: q in names ==> q in live' && live'[q].id in carried && carried[live'[q].id] == live'[q]
    requires forall id :: id in carried ==> exists q :: q in names && q in live' && live'[q].id == id
    ensures CarriesLeaving(carried, live, files)
  {
    forall q ensures Leaves(live, files, q) <==> q in names {
      assert q in names <==> q in Elements(names);
    }
  }

  lemma AppearingEntered(fid: (string, string) -> Id, commit: string, live: map<string, Live>, files: Files)
    ensures forall p :: p in Appearing(live, files) ==> p in NextLive(fid, commit, live, files)
  {
    hide Arrival;
  }

  // ---- settling --------------------------------------------------------------------------------

  lemma PlacedIsArrival(fid: (string, string) -> Id, seen: set<string>, gone: set<Id>, commit: string, s: Tracked,
                        files: Files,
                        added: map<string, string>, ids: map<string, Id>, carried: map<Id, Live>, p: string)
    requires SafeStart(fid, seen, gone, s) && commit !in seen && CarriesLeaving(carried, s.live, files)
    requires added == Appearing(s.live, files) && p in added && p in ids
             && ids[p] == Arrival(fid, commit, s.live, files, p).id
    ensures Placed(commit, added, ids, carried, p) == Arrival(fid, commit, s.live, files, p)
  {
    hide InjectiveIds, Arrival, Born, Continues;
    LiveIdsBorn(fid, seen, gone, s);
    NotMintedBefore(fid, seen, p, commit);
    if HasSource(s.live, files, p) {
      var q :| Continues(s.live, files, q, p);
      ArrivalFrom(fid, commit, s.live, files, q, p);
      ContinuesAppears(s.live, files, q, p);
    } else {
      ArrivalFresh(fid, commit, s.live, files, p);
      assert ids[p] !in carried;
    }
  }

  lemma SettledLive(fid: (string, string) -> Id, seen: set<string>, gone: set<Id>, commit: string, s: Tracked,
                    files: Files,
                    names: seq<string>, added: map<string, string>, ids: map<string, Id>, carried: map<Id, Live>,
                    order: seq<string>)
    requires SafeStart(fid, seen, gone, s) && commit !in seen && CarriesLeaving(carried, s.live, files)
    requires Elements(names) == LeavingNames(s.live, files)
    requires added == Appearing(s.live, files) && Elements(order) == added.Keys
    requires forall p :: p in added ==> p in ids && ids[p] == Arrival(fid, commit, s.live, files, p).id
    requires forall p :: p in order ==> p in added && p in ids
    ensures (Refreshed(s.live, files) - Elements(names)) + PlacedAll(commit, added, ids, carried, order)
         == NextLive(fid, commit, s.live, files)
  {
    hide SafeStart, Arrival, Placed, HasSource, Continues, CarriesLeaving;
    var result := (Refreshed(s.live, files) - Elements(names)) + PlacedAll(commit, added, ids, carried, order);
    forall p ensures p in order <==> p in added {
      assert p in order <==> p in Elements(order);
    }
    assert result.Keys == files.Keys;
    forall p | p in files ensures result[p] == NextLive(fid, commit, s.live, files)[p] {
      if p !in s.live {
        assert p in order;
        PlacedIsArrival(fid, seen, gone, commit, s, files, added, ids, carried, p);
      }
    }
  }

  /** An ID that left was given to an appeared file iff its lineage continues. */
  lemma MovedMeansTarget(fid: (string, string) -> Id, seen: set<string>, gone: set<Id>, commit: string, s: Tracked,
                         files: Files, q: string)
    requires SafeStart(fid, seen, gone, s) && commit !in seen && Leaves(s.live, files, q)
    ensures HasTarget(s.live, files, q)
            <==> exists p ::
                   p in files && Appears(s.live, files, p) && NextLive(fid, commit, s.live, files)[p].id == s.live[q].id
  {
    hide InjectiveIds, Born, Continues;
    LiveIdsBorn(fid, seen, gone, s);
    if p :| p in files && Appears(s.live, files, p) && NextLive(fid, commit, s.live, files)[p].id == s.live[q].id {
      NotMintedBefore(fid, seen, p, commit);
      var a := LiveCases(fid, commit, s.live, files, p);
      ContinuesFromLive(s.live, files, a, p);
      assert a == q;
      assert Continues(s.live, files, q, p);
    }
    if HasTarget(s.live, files, q) {
      var p :| Continues(s.live, files, q, p);
      ArrivalFrom(fid, commit, s.live, files, q, p);
      ContinuesAppears(s.live, files, q, p);
      assert NextLive(fid, commit, s.live, files)[p].id == s.live[q].id;
    }
  }

  lemma ContinuesAppears(live: map<string, Live>, files: Files, q: string, p: string)
    requires Continues(live, files, q, p)
    ensures Leaves(live, files, q) && Appears(live, files, p)
  {}

  lemma MovedMeansTargets(fid: (string, string) -> Id, seen: set<string>, gone: set<Id>, commit: string, s: Tracked,
                          files: Files,
                          added: map<string, string>, moved: set<Id>)
    requires SafeStart(fid, seen, gone, s) && commit !in seen && added == Appearing(s.live, files)
    requires forall p :: p in added ==> p in NextLive(fid, commit, s.live, files)
    requires moved == set p | p in added :: NextLive(fid, commit, s.live, files)[p].id
    ensures forall q :: Leaves(s.live, files, q) ==> (s.live[q].id in moved <==> HasTarget(s.live, files, q))
  {
    hide NextLive, HasTarget, SafeStart;
    forall q | Leaves(s.live, files, q) ensures s.live[q].id in moved <==> HasTarget(s.live, files, q) {
      MovedMeansTarget(fid, seen, gone, commit, s, files, q);
    }
  }

  lemma SettledDead(s: Tracked, files: Files, priors: seq<PriorFile>, added: map<string, string>, moved: set<Id>,
                    dead: map<string, Id>, before: map<string, Id>)
    requires forall x ::
               x in priors
               <==> Leaves(s.live, files, x.path) && x == PriorFile(x.path, s.live[x.path].id, s.live[x.path].blob)
    requires added == Appearing(s.live, files) && before == s.dead - added.Keys
    requires forall q :: Leaves(s.live, files, q) ==> (s.live[q].id in moved <==> HasTarget(s.live, files, q))
    requires forall p :: p in dead <==> p in before || exists x :: x in priors && x.path == p && x.id !in moved
    requires forall p :: p in dead && (forall x :: x in priors ==> x.path != p) ==> dead[p] == before[p]
    requires forall x :: x in priors && x.id !in moved ==> dead[x.path] == x.id
    requires forall x :: x in priors && x.id in moved && x.path in dead ==> dead[x.path] == before[x.path]
    ensures dead == NextDead(s, files)
  {
    hide HasTarget;
    var dead' := NextDead(s, files);
    forall p
      ensures p in dead <==> p in dead'
      ensures p in dead && p in dead' ==> dead[p] == dead'[p]
    {
      if Leaves(s.live, files, p) {
        assert PriorFile(p, s.live[p].id, s.live[p].blob) in priors;
      }
      assert p in added <==> Appears(s.live, files, p);
    }
  }

  // ---- resolving -------------------------------------------------------------------------------

  lemma PriorsWellFormed(fid: (string, string) -> Id, seen: set<string>, gone: set<Id>, s: Tracked, files: Files,
                         names: seq<string>, priors: seq<PriorFile>, reused: seq<PriorFile>)
    requires SafeStart(fid, seen, gone, s) && ListsLeaving(names, priors, s.live, files)
    requires Elements(reused) == RebornFiles(s, files) && DistinctRemovedPaths(reused)
    ensures DistinctRemovedPaths(priors + reused) && DistinctRemovedIds(priors + reused)
    ensures Elements(priors + reused) == LeavingFiles(s.live, files) + RebornFiles(s, files)
  {
    hide Born, InjectiveIds;
    LeavingListed(names, priors, s.live, files);
    var all := priors + reused;
    forall i | 0 <= i < |all|
      ensures i < |priors| ==> all[i].path in s.live && all[i].id == s.live[all[i].path].id
      ensures i >= |priors| ==> all[i].path in s.dead && all[i].id == s.dead[all[i].path]
    {
      if i < |priors| {
        assert all[i] in priors;
      } else {
        assert all[i] in reused && all[i] in Elements(reused);
      }
    }
    assert forall i :: 0 <= i < |priors| ==> all[i] == priors[i];
    assert forall i :: 0 <= i < |reused| ==> all[|priors| + i] == reused[i];
    forall i, j | 0 <= i < j < |all| ensures all[i].path != all[j].path {
      if i >= |priors| { assert reused[i - |priors|].path != reused[j - |priors|].path; }
    }
    forall i, j | 0 <= i < j < |all| ensures all[i].id != all[j].id {
      assert all[i].path != all[j].path;
    }
    forall x ensures x in Elements(all) <==> x in LeavingFiles(s.live, files) + RebornFiles(s, files) {
      assert x in all <==> x in priors || x in reused;
      assert x in reused <==> x in Elements(reused);
    }
  }

  ghost predicate ListsPairs(records: seq<Record>, similar: seq<(string, string, nat)>) {
    forall o, n, sc :: (o, n, sc) in similar <==>
      exists k :: 0 <= k < |records| && Suggests(records[k], o, n) && records[k].score == sc
  }

  ghost predicate ListsGuesses(similar: seq<(string, string, nat)>, names: seq<string>, guesses: seq<SimilarRename>) {
    forall g :: g in guesses <==>
      exists sc: nat :: (g.oldPath, g.newPath, sc) in similar && g.oldPath in names && sc > 0
        && g.score == sc as real / 100.0
  }

  /** The record a guess was read from. */
  lemma GuessedFrom(records: seq<Record>, names: seq<string>, similar: seq<(string, string, nat)>,
                    guesses: seq<SimilarRename>, g: SimilarRename) returns (k: nat)
    requires ListsPairs(records, similar) && ListsGuesses(similar, names, guesses) && g in guesses
    ensures k < |records| && Suggests(records[k], g.oldPath, g.newPath) && records[k].score > 0
    ensures g.score == records[k].score as real / 100.0 && g.oldPath in names
  {
    hide Suggests;
    var sc: nat :| (g.oldPath, g.newPath, sc) in similar && g.oldPath in names && sc > 0
      && g.score == sc as real / 100.0;
    k :| 0 <= k < |records| && Suggests(records[k], g.oldPath, g.newPath) && records[k].score == sc;
  }

  lemma GuessIsPair(records: seq<Record>, live: map<string, Live>, files: Files, names: seq<string>,
                    similar: seq<(string, string, nat)>, guesses: seq<SimilarRename>, g: SimilarRename)
    requires Elements(names) == LeavingNames(live, files) && ListsPairs(records, similar)
             && ListsGuesses(similar, names, guesses)
    requires g in guesses
    ensures g in GuessedPairs(records, live, files)
    ensures 0.0 < g.score <= 1.0 && g.oldPath in names && SomeAdds(records, g.newPath)
  {
    hide ListsPairs, ListsGuesses;
    var k := GuessedFrom(records, names, similar, guesses, g);
    assert g.oldPath in Elements(names);
    assert Adds(records[k], g.newPath);
  }

  lemma PairIsGuess(records: seq<Record>, live: map<string, Live>, files: Files, names: seq<string>,
                    similar: seq<(string, string, nat)>, guesses: seq<SimilarRename>, g: SimilarRename)
    requires Elements(names) == LeavingNames(live, files) && ListsPairs(records, similar)
             && ListsGuesses(similar, names, guesses)
    requires g in GuessedPairs(records, live, files)
    ensures g in guesses
  {
    var k :| 0 <= k < |records| && records[k].path.Some? && records[k].newPath.Some?
             && Suggests(records[k], records[k].path.value, records[k].newPath.value)
             && records[k].score > 0 && Leaves(live, files, records[k].path.value)
             && g == SimilarRename(records[k].path.value, records[k].newPath.value, records[k].score as real / 100.0);
    assert g.oldPath in Elements(names);
    assert Suggests(records[k], g.oldPath, g.newPath);
    assert (g.oldPath, g.newPath, records[k].score) in similar;
  }

  lemma AppearedListed(live: map<string, Live>, files: Files, added: map<string, string>, newFiles: seq<NewFile>)
    requires added == Appearing(live, files) && Elements(newFiles) == set p | p in added :: NewFile(p, added[p])
    ensures Elements(newFiles) == AppearedFiles(live, files)
  {
    forall x ensures x in Elements(newFiles) <==> x in AppearedFiles(live, files) {
      if x in Elements(newFiles) {
        var p :| p in added && x == NewFile(p, added[p]);
        assert p in files && Appears(live, files, p);
      }
      if x in AppearedFiles(live, files) {
        var p :| p in files && Appears(live, files, p) && x == NewFile(p, files[p]);
        assert p in added;
      }
    }
  }

  lemma RebornListed(s: Tracked, files: Files, added: map<string, string>, names: seq<string>, reused: seq<PriorFile>)
    requires added == Appearing(s.live, files) && Elements(names) == LeavingNames(s.live, files)
    requires Elements(reused) == set p | p in added && p in s.dead && p !in names :: PriorFile(p, s.dead[p], NO_BLOB)
    ensures Elements(reused) == RebornFiles(s, files)
  {
    forall x ensures x in Elements(reused) <==> x in RebornFiles(s, files) {
      if x in Elements(reused) {
        var p :| p in added && p in s.dead && p !in names && x == PriorFile(p, s.dead[p], NO_BLOB);
        assert Appears(s.live, files, p);
      }
      if x in RebornFiles(s, files) {
        var p :| p in s.dead && Appears(s.live, files, p) && x == PriorFile(p, s.dead[p], NO_BLOB);
        assert p in added && p !in Elements(names);
      }
    }
  }

  /** The lists handed to the resolution are the sets of the specification, and it cannot refuse them. */
  lemma InputsAreSets(fid: (string, string) -> Id, seen: set<string>, gone: set<Id>, s: Tracked, files: Files,
                      records: seq<Record>, names: seq<string>, priors: seq<PriorFile>, added: map<string, string>,
                      reused: seq<PriorFile>, newFiles: seq<NewFile>, similar: seq<(string, string, nat)>,
                      guesses: seq<SimilarRename>)
    requires SafeStart(fid, seen, gone, s) && ListsLeaving(names, priors, s.live, files)
    requires added == Appearing(s.live, files) && forall p :: p in added <==> SomeAdds(records, p)
    requires Elements(reused) == (set p | p in added && p in s.dead && p !in names :: PriorFile(p, s.dead[p], NO_BLOB))
    requires DistinctRemovedPaths(reused) && DistinctAddedPaths(newFiles)
    requires Elements(newFiles) == set p | p in added :: NewFile(p, added[p])
    requires ListsPairs(records, similar) && ListsGuesses(similar, names, guesses)
    ensures WellFormed(priors + reused, newFiles, guesses)
    ensures Elements(priors + reused) == LeavingFiles(s.live, files) + RebornFiles(s, files)
    ensures Elements(newFiles) == AppearedFiles(s.live, files)
    ensures Elements(guesses) == GuessedPairs(records, s.live, files)
  {
    hide SafeStart, GuessedPairs, SomeAdds, DistinctRemovedPaths, DistinctAddedPaths, DistinctRemovedIds;
    hide ListsLeaving, LeavingFiles, RebornFiles, AppearedFiles, ListsPairs, ListsGuesses, LeavingNames;
    hide Appearing;
    LeavingListed(names, priors, s.live, files);
    RebornListed(s, files, added, names, reused);
    AppearedListed(s.live, files, added, newFiles);
    PriorsWellFormed(fid, seen, gone, s, files, names, priors, reused);
    forall g | g in guesses
      ensures g in GuessedPairs(records, s.live, files) && GoodGuess(priors + reused, newFiles, g)
    {
      GuessIsPair(records, s.live, files, names, similar, guesses, g);
      GuessIsGood(s, files, names, priors, reused, added, newFiles, g);
    }
    forall g | g in GuessedPairs(records, s.live, files) ensures g in guesses {
      PairIsGuess(records, s.live, files, names, similar, guesses, g);
    }
  }

  lemma GuessIsGood(s: Tracked, files: Files, names: seq<string>, priors: seq<PriorFile>, reused: seq<PriorFile>,
                    added: map<string, string>, newFiles: seq<NewFile>, g: SimilarRename)
    requires Elements(names) == LeavingNames(s.live, files)
    requires forall x ::
               x in priors
               <==> Leaves(s.live, files, x.path) && x == PriorFile(x.path, s.live[x.path].id, s.live[x.path].blob)
    requires Elements(newFiles) == set p | p in added :: NewFile(p, added[p])
    requires 0.0 < g.score <= 1.0 && g.oldPath in names && g.newPath in added
    ensures GoodGuess(priors + reused, newFiles, g)
  {
    assert g.oldPath in Elements(names);
    var x := PriorFile(g.oldPath, s.live[g.oldPath].id, s.live[g.oldPath].blob);
    assert x in priors && x in priors + reused;
    assert NewFile(g.newPath, added[g.newPath]) in Elements(newFiles);
  }

  lemma ResolvedIds(fid: (string, string) -> Id, seen: set<string>, gone: set<Id>, commit: string, s: Tracked,
                    files: Files,
                    ids: map<string, Id>)
    requires SafeStart(fid, seen, gone, s) && forall q :: q in files ==> files[q] != NO_BLOB
    requires exists similar :: ids == Resolved(Mint(fid, commit), LeavingFiles(s.live, files) + RebornFiles(s, files),
                                               AppearedFiles(s.live, files), similar).ids
    ensures forall p :: p in Appearing(s.live, files) ==>
              p in ids && ids[p] == Arrival(fid, commit, s.live, files, p).id
  {
    hide IdFor, Arrival, Claims, InPathOrder, LeavingFiles, RebornFiles;
    var added := AppearedFiles(s.live, files);
    forall p | p in Appearing(s.live, files) ensures p in ids && ids[p] == Arrival(fid, commit, s.live, files, p).id {
      assert NewFile(p, files[p]) in added;
      assert p in PathsOf(added);
      assert FileAt(added, p) == NewFile(p, files[p]);
      ResolvedIdIsArrival(fid, commit, s, files, p);
    }
  }

  method NewFiles(added: map<string, string>) returns (files: seq<NewFile>)
    ensures Elements(files) == set p | p in added :: NewFile(p, added[p])
    ensures DistinctAddedPaths(files)
  {
    hide SortedSet, Less;
    hide FirstOf;
    var order := Smallest(added.Keys, |added.Keys|);
    AllOf(added.Keys);
    assert forall i :: 0 <= i < |order| ==> order[i] in order;
    files := seq(|order|, i requires 0 <= i < |order| => NewFile(order[i], added[order[i]]));
    forall i, j | 0 <= i < j < |files| ensures files[i].path != files[j].path {
      assert Less(order[i], order[j]);
      LessIrreflexive(order[i]);
    }
    forall p | p in added ensures NewFile(p, added[p]) in files {
      assert p in order;
      var i :| 0 <= i < |order| && order[i] == p;
      assert files[i] == NewFile(p, added[p]);
    }
  }

  /** Only guesses about files that left, with a score, count. */
  method ScoredPairs(similar: seq<(string, string, nat)>, names: seq<string>) returns (guesses: seq<SimilarRename>)
    ensures ListsGuesses(similar, names, guesses)
  {
    guesses := [];
    for i := 0 to |similar|
      invariant forall g :: g in guesses <==>
                  exists sc: nat :: (g.oldPath, g.newPath, sc) in similar[..i] && g.oldPath in names && sc > 0
                    && g.score == sc as real / 100.0
    {
      var (o, n, sc) := similar[i];
      assert similar[..i + 1] == similar[..i] + [(o, n, sc)];
      if o in names && sc > 0 {
        guesses := guesses + [SimilarRename(o, n, sc as real / 100.0)];
      }
    }
    assert similar[..|similar|] == similar;
  }
}

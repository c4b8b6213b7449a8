/** The supersession claims of a whole walk: which of them `result` keeps, that it never has two to choose
    from, and which of them Git's rename pairing can change. */
module LineageClaims {
  import opened Identity
  import opened Keyset
  import opened Lineage
  import opened LineageWalk
  import opened Orders
  import opened Renames

  ghost function ChainOf(safe: string -> bool, steps: seq<Step>): seq<Commit> {
    seq(|steps|, i requires 0 <= i < |steps| => Commit(steps[i].oid, FilesOf(safe, steps[i].tree)))
  }

  /** The claims of the last commit of a walk. */
  ghost function LastClaims(fid: (string, string) -> Id, safe: string -> bool, steps: seq<Step>): seq<Supersession>
    requires steps != []
  {
    var n := |steps| - 1;
    CommitClaims(fid, steps[n].oid, After(fid, ChainOf(safe, steps[..n])), FilesOf(safe, steps[n].tree),
        steps[n].records)
  }

  /** Every claim a walk makes, in order. */
  ghost function ClaimsOfWalk(fid: (string, string) -> Id, safe: string -> bool, steps: seq<Step>): seq<Supersession> {
    if steps == [] then [] else ClaimsOfWalk(fid, safe, steps[..|steps| - 1]) + LastClaims(fid, safe, steps)
  }

  // ---- no pair is claimed twice ----------------------------------------------------------------

  ghost predicate DistinctPairs(claims: seq<Supersession>) {
    forall i, j :: 0 <= i < j < |claims| ==> claims[i].oldId != claims[j].oldId || claims[i].newId != claims[j].newId
  }

  lemma PairsJoin(a: seq<Supersession>, b: seq<Supersession>)
    requires DistinctPairs(a) && DistinctPairs(b) && forall x, y :: x in a && y in b ==> x.newId != y.newId
    ensures DistinctPairs(a + b)
  {
    forall i, j | 0 <= i < j < |a + b|
      ensures (a + b)[i].oldId != (a + b)[j].oldId || (a + b)[i].newId != (a + b)[j].newId
    {
      if i < |a| <= j { assert a[i] in a && b[j - |a|] in b; }
    }
  }

  lemma FileClaims(mint: string -> Id, removed: set<PriorFile>, added: set<NewFile>, similar: set<SimilarRename>,
                   f: NewFile)
    ensures DistinctPairs(ClaimsFor(mint, removed, added, similar, f))
    ensures forall x :: x in ClaimsFor(mint, removed, added, similar, f) ==> x.newId == mint(f.path)
  {
    hide SortedSet, LinkedIds, Link, Less;
    var ids := SortedSet(LinkedIds(removed, similar, f));
    forall i, j | 0 <= i < j < |ids| ensures ids[i] != ids[j] {
      assert Less(ids[i], ids[j]);
      LessIrreflexive(ids[i]);
    }
  }

  ghost predicate DistinctPaths(files: seq<NewFile>) {
    forall i, j :: 0 <= i < j < |files| ==> files[i].path != files[j].path
  }

  ghost predicate ClaimedFor(mint: string -> Id, files: seq<NewFile>, id: Id) {
    exists k :: 0 <= k < |files| && id == mint(files[k].path)
  }

  lemma {:induction false} FilesClaims(mint: string -> Id, removed: set<PriorFile>, added: set<NewFile>,
                                       similar: set<SimilarRename>, files: seq<NewFile>)
    requires DistinctPaths(files) && forall p, q :: mint(p) == mint(q) ==> p == q
    ensures DistinctPairs(Claims(mint, removed, added, similar, files))
    ensures forall x :: x in Claims(mint, removed, added, similar, files) ==> ClaimedFor(mint, files, x.newId)
  {
    hide ClaimsFor;
    if files != [] {
      var n := |files| - 1;
      var before, last := Claims(mint, removed, added, similar, files[..n]),
          ClaimsFor(mint, removed, added, similar, files[n]);
      FilesClaims(mint, removed, added, similar, files[..n]);
      FileClaims(mint, removed, added, similar, files[n]);
      forall x | x in before ensures x.newId != mint(files[n].path) && ClaimedFor(mint, files, x.newId) {
        var k :| 0 <= k < n && x.newId == mint(files[..n][k].path);
        assert files[..n][k] == files[k];
      }
      PairsJoin(before, last);
    }
  }

  lemma PathOrderIsDistinct(added: set<NewFile>)
    ensures DistinctPaths(InPathOrder(added))
  {
    hide SortedSet, Less;
    var paths := SortedSet(PathsOf(added));
    forall i, j | 0 <= i < j < |paths| ensures paths[i] != paths[j] {
      assert Less(paths[i], paths[j]);
      LessIrreflexive(paths[i]);
    }
  }

  ghost predicate MintedBy(fid: (string, string) -> Id, commit: string, id: Id) {
    exists p :: id == fid(p, commit)
  }

  lemma CommitPairs(fid: (string, string) -> Id, commit: string, s: Tracked, files: Files, records: seq<Record>)
    requires InjectiveIds(fid)
    ensures DistinctPairs(CommitClaims(fid, commit, s, files, records))
    ensures forall x :: x in CommitClaims(fid, commit, s, files, records) ==> MintedBy(fid, commit, x.newId)
  {
    hide Claims, DistinctPairs, LeavingFiles, RebornFiles, AppearedFiles, GuessedPairs, InPathOrder;
    var removed, added := LeavingFiles(s.live, files) + RebornFiles(s, files), AppearedFiles(s.live, files);
    var mint := Mint(fid, commit);
    MintIsInjective(fid, commit);
    PathOrderIsDistinct(added);
    FilesClaims(mint, removed, added, GuessedPairs(records, s.live, files), InPathOrder(added));
  }

  lemma MintIsInjective(fid: (string, string) -> Id, commit: string)
    requires InjectiveIds(fid)
    ensures forall p, q :: Mint(fid, commit)(p) == Mint(fid, commit)(q) ==> p == q
  {}

  lemma ChainPrefix(safe: string -> bool, steps: seq<Step>)
    requires steps != [] && DistinctCommits(ChainOf(safe, steps))
    ensures DistinctCommits(ChainOf(safe, steps[..|steps| - 1]))
    ensures forall k :: 0 <= k < |steps| - 1 ==> steps[k].oid != steps[|steps| - 1].oid
  {
    hide FilesOf;
    var n := |steps| - 1;
    var chain := ChainOf(safe, steps);
    assert ChainOf(safe, steps[..n]) == chain[..n];
    forall k | 0 <= k < n ensures steps[k].oid != steps[n].oid { assert chain[k].oid != chain[n].oid; }
  }

  lemma CommitsMintApart(fid: (string, string) -> Id, a: string, b: string, x: Id, y: Id)
    requires InjectiveIds(fid) && a != b && MintedBy(fid, a, x) && MintedBy(fid, b, y)
    ensures x != y
  {}

  /** ONCE. Over a whole history no old ID is ever claimed twice for the same new one. */
  lemma {:induction false} NoPairIsClaimedTwice(fid: (string, string) -> Id, safe: string -> bool, steps: seq<Step>)
    requires InjectiveIds(fid) && DistinctCommits(ChainOf(safe, steps))
    ensures DistinctPairs(ClaimsOfWalk(fid, safe, steps))
    ensures forall x :: x in ClaimsOfWalk(fid, safe, steps) ==>
              exists k :: 0 <= k < |steps| && MintedBy(fid, steps[k].oid, x.newId)
  {
    hide InjectiveIds, CommitClaims, After, FilesOf, MintedBy, DistinctPairs;
    if steps == [] {
      assert DistinctPairs([]) by { NoPairs(); }
    } else {
      var n := |steps| - 1;
      var before, last := ClaimsOfWalk(fid, safe, steps[..n]), LastClaims(fid, safe, steps);
      ChainPrefix(safe, steps);
      NoPairIsClaimedTwice(fid, safe, steps[..n]);
      CommitPairs(fid, steps[n].oid, After(fid, ChainOf(safe, steps[..n])), FilesOf(safe, steps[n].tree),
          steps[n].records);
      forall x | x in before ensures exists k :: 0 <= k < n && MintedBy(fid, steps[k].oid, x.newId) {
        var k :| 0 <= k < n && MintedBy(fid, steps[..n][k].oid, x.newId);
        assert steps[..n][k] == steps[k];
      }
      forall x, y | x in before && y in last ensures x.newId != y.newId {
        var k :| 0 <= k < n && MintedBy(fid, steps[k].oid, x.newId);
        CommitsMintApart(fid, steps[k].oid, steps[n].oid, x.newId, y.newId);
      }
      PairsJoin(before, last);
    }
  }

  lemma NoPairs()
    ensures DistinctPairs([])
  {}

  // ---- what Git's pairing can change -----------------------------------------------------------

  /** Removed files have distinct IDs. */
  lemma RemovedIdsAreDistinct(fid: (string, string) -> Id, seen: set<string>, gone: set<Id>, s: Tracked, files: Files,
                              x: PriorFile, y: PriorFile)
    requires Inv(fid, seen, gone, s) && x.id == y.id
    requires x in LeavingFiles(s.live, files) + RebornFiles(s, files)
             && y in LeavingFiles(s.live, files) + RebornFiles(s, files)
    ensures x == y
  {
    hide Born;
  }

  lemma {:induction false} ClaimSource(mint: string -> Id, removed: set<PriorFile>, added: set<NewFile>,
                                       similar: set<SimilarRename>, files: seq<NewFile>,
                                       x: Supersession) returns (f: NewFile)
    requires x in Claims(mint, removed, added, similar, files)
    ensures f in files && x in ClaimsFor(mint, removed, added, similar, f)
  {
    hide ClaimsFor;
    var n := |files| - 1;
    if x in ClaimsFor(mint, removed, added, similar, files[n]) {
      f := files[n];
    } else {
      f := ClaimSource(mint, removed, added, similar, files[..n], x);
    }
  }

  lemma {:induction false} ClaimMade(mint: string -> Id, removed: set<PriorFile>, added: set<NewFile>,
                                     similar: set<SimilarRename>, files: seq<NewFile>, f: NewFile, x: Supersession)
    requires f in files && x in ClaimsFor(mint, removed, added, similar, f)
    ensures x in Claims(mint, removed, added, similar, files)
  {
    hide ClaimsFor;
    var n := |files| - 1;
    if f != files[n] {
      assert f in files[..n];
      ClaimMade(mint, removed, added, similar, files[..n], f, x);
    }
  }

  /** The claim of a linked pair. */
  lemma PairClaimed(mint: string -> Id, removed: set<PriorFile>, added: set<NewFile>, similar: set<SimilarRename>,
                    f: NewFile, s: PriorFile)
    requires s in removed && Linked(similar, s, f) && !Moved(removed, added, f)
    requires forall t :: t in removed && t.id == s.id ==> t == s
    ensures Supersession(s.id, mint(f.path), Link(similar, s, f).1, Link(similar, s, f).0)
            in ClaimsFor(mint, removed, added, similar, f)
  {
    hide SortedSet, Moved, Linked, Link;
    var ids := SortedSet(LinkedIds(removed, similar, f));
    assert s.id in LinkedIds(removed, similar, f);
    assert s.id in ids;
    var i :| 0 <= i < |ids| && ids[i] == s.id;
    assert ClaimsFor(mint, removed, added, similar, f)[i] == ClaimOf(mint, removed, similar, f, s.id);
  }

  lemma ClaimedPair(mint: string -> Id, removed: set<PriorFile>, added: set<NewFile>, similar: set<SimilarRename>,
                    f: NewFile, x: Supersession) returns (s: PriorFile)
    requires x in ClaimsFor(mint, removed, added, similar, f)
    requires forall t, u :: t in removed && u in removed && t.id == u.id ==> t == u
    ensures s in removed && Linked(similar, s, f) && !Moved(removed, added, f)
    ensures x == Supersession(s.id, mint(f.path), Link(similar, s, f).1, Link(similar, s, f).0)
  {
    hide SortedSet, Moved, Linked, Link;
    var ids := SortedSet(LinkedIds(removed, similar, f));
    var i :| 0 <= i < |ids| && ClaimsFor(mint, removed, added, similar, f)[i] == x;
    assert ids[i] in ids;
    s := PriorOf(removed, ids[i]);
    var t :| t in removed && Linked(similar, t, f) && t.id == ids[i];
    assert t == s;
  }

  /** The same claim, or a guess that outranks a shared blob. */
  ghost predicate MadeToo(claims: seq<Supersession>, x: Supersession) {
    x in claims
    || (x.basis == AmbiguousBlobMatch
        && exists y :: y in claims && y.oldId == x.oldId && y.newId == x.newId && y.basis == Similarity)
  }

  lemma PairingMatters(mint: string -> Id, removed: set<PriorFile>, added: set<NewFile>, a: set<SimilarRename>,
                       b: set<SimilarRename>, files: seq<NewFile>, x: Supersession)
    requires forall t, u :: t in removed && u in removed && t.id == u.id ==> t == u
    requires x in Claims(mint, removed, added, a, files) && x.basis != Similarity
    ensures MadeToo(Claims(mint, removed, added, b, files), x)
  {
    hide ClaimsFor, Claims, Moved, Guessed;
    var f := ClaimSource(mint, removed, added, a, files, x);
    var s := ClaimedPair(mint, removed, added, a, f, x);
    PairClaimed(mint, removed, added, b, f, s);
    var y := Supersession(s.id, mint(f.path), Link(b, s, f).1, Link(b, s, f).0);
    ClaimMade(mint, removed, added, b, files, f, y);
  }

  lemma CommitPairing(fid: (string, string) -> Id, seen: set<string>, gone: set<Id>, commit: string, s: Tracked,
                      files: Files,
                      a: seq<Record>, b: seq<Record>, x: Supersession)
    requires Inv(fid, seen, gone, s) && x in CommitClaims(fid, commit, s, files, a) && x.basis != Similarity
    ensures MadeToo(CommitClaims(fid, commit, s, files, b), x)
  {
    hide Inv, LeavingFiles, RebornFiles, AppearedFiles, GuessedPairs, Claims, InPathOrder, MadeToo;
    var removed, added := LeavingFiles(s.live, files) + RebornFiles(s, files), AppearedFiles(s.live, files);
    forall t, u | t in removed && u in removed && t.id == u.id ensures t == u {
      RemovedIdsAreDistinct(fid, seen, gone, s, files, t, u);
    }
    PairingMatters(Mint(fid, commit), removed, added, GuessedPairs(a, s.live, files), GuessedPairs(b, s.live, files),
                   InPathOrder(added), x);
  }

  /** Two walks over the same commits and trees, paired, scored and ordered differently. */
  ghost predicate SameTrees(a: seq<Step>, b: seq<Step>) {
    |a| == |b| && forall i :: 0 <= i < |a| ==> a[i].oid == b[i].oid && a[i].tree == b[i].tree
  }

  /** PAIRING. However Git paired the changes, only similarity claims can differ: every other claim of one
      walk is made by the other, unless a similarity claim for the same pair outranks it. */
  lemma {:induction false} OnlySimilarityFollowsGit(fid: (string, string) -> Id, safe: string -> bool, a: seq<Step>,
                                                    b: seq<Step>,
                                                    x: Supersession)
    requires InjectiveIds(fid) && DistinctCommits(ChainOf(safe, a)) && SameTrees(a, b)
    requires x in ClaimsOfWalk(fid, safe, a) && x.basis != Similarity
    ensures MadeToo(ClaimsOfWalk(fid, safe, b), x)
  {
    hide InjectiveIds, CommitClaims, After, FilesOf, Inv, Gone, Seen;
    var n := |a| - 1;
    ChainPrefix(safe, a);
    SameChain(safe, a[..n], b[..n]);
    var s, files := After(fid, ChainOf(safe, a[..n])), FilesOf(safe, a[n].tree);
    if x in ClaimsOfWalk(fid, safe, a[..n]) {
      OnlySimilarityFollowsGit(fid, safe, a[..n], b[..n], x);
    } else {
      EveryHistoryIsSafe(fid, ChainOf(safe, a[..n]));
      CommitPairing(fid, Seen(ChainOf(safe, a[..n])), Gone(fid, ChainOf(safe, a[..n])), a[n].oid, s, files,
                    a[n].records, b[n].records, x);
      assert LastClaims(fid, safe, b) == CommitClaims(fid, a[n].oid, s, files, b[n].records);
    }
  }

  lemma SameChain(safe: string -> bool, a: seq<Step>, b: seq<Step>)
    requires SameTrees(a, b)
    ensures ChainOf(safe, a) == ChainOf(safe, b)
  {
    hide FilesOf;
  }

  // ---- `result` --------------------------------------------------------------------------------

  datatype ClaimKey = ClaimKey(oldId: Id, newId: Id, basis: Basis)

  function KeyOf(x: Supersession): ClaimKey {
    ClaimKey(x.oldId, x.newId, x.basis)
  }

  function BasisName(b: Basis): string {
    match b
    case AmbiguousBlobMatch => "ambiguous_blob_match"
    case PathReuse => "path_reuse"
    case ProvisionalCommitted => "provisional_committed"
    case ProvisionalPathMatch => "provisional_path_match"
    case Similarity => "similarity"
  }

  /** By new ID, then old ID, then basis. */
  function ClaimBefore(): (Supersession, Supersession) -> bool {
    (x: Supersession, y: Supersession) =>
      Less(x.newId, y.newId)
      || (x.newId == y.newId
        && (Less(x.oldId, y.oldId) || (x.oldId == y.oldId && Less(BasisName(x.basis), BasisName(y.basis)))))
  }

  lemma BasisNamesDiffer(a: Basis, b: Basis)
    requires BasisName(a) == BasisName(b)
    ensures a == b
  {
    var x, y := BasisName(a), BasisName(b);
    assert x[0] == y[0] && |x| == |y|;
    assert |x| == 21 ==> |y| == 21;
    assert |BasisName(ProvisionalCommitted)| == 21 && |BasisName(ProvisionalPathMatch)| == 22;
  }

  lemma ClaimsOrdered()
    ensures StrictOrder(ClaimBefore())
  {
    hide Less, BasisName;
    StringsOrdered();
    var lt := ClaimBefore();
    forall x: Supersession ensures !lt(x, x) {
      LessIrreflexive(x.newId);
      LessIrreflexive(x.oldId);
      LessIrreflexive(BasisName(x.basis));
    }
    forall x: Supersession, y: Supersession, z: Supersession | lt(x, y) && lt(y, z) ensures lt(x, z) {
      ClaimsTransitive(x, y, z);
    }
    forall x: Supersession, y: Supersession, z: Supersession | lt(x, z) ensures lt(x, y) || lt(y, z) {
      ClaimsBetween(x, y, z);
    }
  }

  lemma ClaimsTransitive(x: Supersession, y: Supersession, z: Supersession)
    requires ClaimBefore()(x, y) && ClaimBefore()(y, z)
    ensures ClaimBefore()(x, z)
  {
    hide Less, BasisName;
    if Less(x.newId, y.newId) && Less(y.newId, z.newId) { LessTransitive(x.newId, y.newId, z.newId); }
    if Less(x.oldId, y.oldId) && Less(y.oldId, z.oldId) { LessTransitive(x.oldId, y.oldId, z.oldId); }
    var a, b, c := BasisName(x.basis), BasisName(y.basis), BasisName(z.basis);
    if Less(a, b) && Less(b, c) { LessTransitive(a, b, c); }
  }

  lemma ClaimsBetween(x: Supersession, y: Supersession, z: Supersession)
    requires ClaimBefore()(x, z)
    ensures ClaimBefore()(x, y) || ClaimBefore()(y, z)
  {
    hide Less, BasisName;
    LessBetween(x.newId, y.newId, z.newId);
    LessBetween(x.oldId, y.oldId, z.oldId);
    LessBetween(BasisName(x.basis), BasisName(y.basis), BasisName(z.basis));
    LessTotal(x.newId, y.newId);
    LessTotal(x.oldId, y.oldId);
    LessTotal(BasisName(x.basis), BasisName(y.basis));
  }

  lemma LessBetween(a: string, b: string, c: string)
    ensures Less(a, c) ==> Less(a, b) || Less(b, c)
  {
    LessTotal(a, b);
    if Less(a, c) && Less(b, a) { LessTransitive(b, a, c); }
  }

  lemma DistinctKeysCompare(claims: seq<Supersession>)
    requires forall i, j :: 0 <= i < j < |claims| ==> KeyOf(claims[i]) != KeyOf(claims[j])
    ensures Comparable(claims, ClaimBefore())
  {
    hide Less, BasisName;
    var lt := ClaimBefore();
    forall i, j | 0 <= i < j < |claims| ensures lt(claims[i], claims[j]) || lt(claims[j], claims[i]) {
      LessTotal(claims[i].newId, claims[j].newId);
      LessTotal(claims[i].oldId, claims[j].oldId);
      LessTotal(BasisName(claims[i].basis), BasisName(claims[j].basis));
      if BasisName(claims[i].basis) == BasisName(claims[j].basis) {
        BasisNamesDiffer(claims[i].basis, claims[j].basis);
      }
    }
  }

  /** The last claim made with its key. */
  ghost predicate LastOfKey(all: seq<Supersession>, x: Supersession) {
    exists k :: 0 <= k < |all| && all[k] == x && forall j :: k < j < |all| ==> KeyOf(all[j]) != KeyOf(x)
  }

  lemma LastOfKeyNext(all: seq<Supersession>, next: Supersession, x: Supersession)
    ensures LastOfKey(all + [next], x) <==> if KeyOf(x) == KeyOf(next) then x == next else LastOfKey(all, x)
  {
    hide KeyOf;
    var longer := all + [next];
    assert longer[|all|] == next;
    if KeyOf(x) != KeyOf(next) {
      if LastOfKey(all, x) {
        var k :| 0 <= k < |all| && all[k] == x && forall j :: k < j < |all| ==> KeyOf(all[j]) != KeyOf(x);
        assert longer[k] == x;
      }
      if LastOfKey(longer, x) {
        var k :| 0 <= k < |longer| && longer[k] == x && forall j :: k < j < |longer| ==> KeyOf(longer[j]) != KeyOf(x);
        assert k < |all|;
        forall j | k < j < |all| ensures KeyOf(all[j]) != KeyOf(x) { assert longer[j] == all[j]; }
      }
    }
  }

  /** `result`'s claims: of those whose new ID is live, the last with each key, sorted. */
  ghost predicate KeepsClaims(all: seq<Supersession>, ids: set<Id>, kept: seq<Supersession>) {
    StrictlySorted(kept, ClaimBefore()) && forall x: Supersession :: x in kept <==> x.newId in ids && LastOfKey(all, x)
  }

  ghost predicate HoldsLast(all: seq<Supersession>, ids: set<Id>, unique: map<ClaimKey, Supersession>) {
    && (forall key :: key in unique ==> KeyOf(unique[key]) == key && key.newId in ids && LastOfKey(all, unique[key]))
    && (forall x: Supersession :: x.newId in ids && LastOfKey(all, x) ==> KeyOf(x) in unique && unique[KeyOf(x)] == x)
  }

  lemma HoldsLastNext(all: seq<Supersession>, ids: set<Id>, unique: map<ClaimKey, Supersession>, next: Supersession)
    requires HoldsLast(all, ids, unique)
    ensures HoldsLast(all + [next], ids, if next.newId in ids then unique[KeyOf(next) := next] else unique)
  {
    hide LastOfKey;
    forall x ensures LastOfKey(all + [next], x) <==> if KeyOf(x) == KeyOf(next) then x == next else LastOfKey(all, x) {
      LastOfKeyNext(all, next, x);
    }
  }

  method KeptClaims(all: seq<Supersession>, ids: set<Id>) returns (kept: seq<Supersession>)
    ensures KeepsClaims(all, ids, kept)
  {
    hide LastOfKey, HoldsLast;
    var unique: map<ClaimKey, Supersession> := map[];
    NothingHeld(ids);
    assert all[..0] == [];
    for i := 0 to |all|
      invariant HoldsLast(all[..i], ids, unique)
    {
      assert all[..i + 1] == all[..i] + [all[i]];
      HoldsLastNext(all[..i], ids, unique, all[i]);
      if all[i].newId in ids {
        unique := unique[KeyOf(all[i]) := all[i]];
      }
    }
    assert all[..|all|] == all;
    var values := Values(unique);
    assert forall key :: key in unique ==> KeyOf(unique[key]) == key by { HeldKeys(all, ids, unique); }
    kept := Sort(values, ClaimBefore());
    SortedValues(all, ids, unique, values);
  }

  lemma NothingHeld(ids: set<Id>)
    ensures HoldsLast([], ids, map[])
  {}

  lemma HeldKeys(all: seq<Supersession>, ids: set<Id>, unique: map<ClaimKey, Supersession>)
    requires HoldsLast(all, ids, unique)
    ensures forall key :: key in unique ==> KeyOf(unique[key]) == key
  {}

  /** The values of a dictionary, in some order. */
  method Values(unique: map<ClaimKey, Supersession>) returns (values: seq<Supersession>)
    ensures forall x :: x in values <==> exists key :: key in unique && unique[key] == x
    ensures (forall key :: key in unique ==> KeyOf(unique[key]) == key) ==>
              forall i, j :: 0 <= i < j < |values| ==> KeyOf(values[i]) != KeyOf(values[j])
  {
    hide KeyOf;
    values := [];
    var left := unique.Keys;
    while left != {}
      invariant left <= unique.Keys
      invariant forall x :: x in values <==> exists key :: key in unique && key !in left && unique[key] == x
      invariant (forall key :: key in unique ==> KeyOf(unique[key]) == key) ==>
                  forall i, j :: 0 <= i < j < |values| ==> KeyOf(values[i]) != KeyOf(values[j])
    {
      var key :| key in left;
      if forall k :: k in unique ==> KeyOf(unique[k]) == k {
        forall i | 0 <= i < |values| ensures KeyOf(values[i]) != KeyOf(unique[key]) { assert values[i] in values; }
      }
      values := values + [unique[key]];
      left := left - {key};
    }
  }

  lemma SortedValues(all: seq<Supersession>, ids: set<Id>, unique: map<ClaimKey, Supersession>,
                     values: seq<Supersession>)
    requires HoldsLast(all, ids, unique)
    requires forall x :: x in values <==> exists key :: key in unique && unique[key] == x
    requires forall i, j :: 0 <= i < j < |values| ==> KeyOf(values[i]) != KeyOf(values[j])
    ensures KeepsClaims(all, ids, Sort(values, ClaimBefore()))
  {
    hide LastOfKey, Sort, Less, BasisName;
    ClaimsOrdered();
    DistinctKeysCompare(values);
    SortStrict(values, ClaimBefore());
    forall x ensures x in Sort(values, ClaimBefore()) <==> x.newId in ids && LastOfKey(all, x) {
      SortKeeps(values, ClaimBefore(), x);
      if x.newId in ids && LastOfKey(all, x) { assert KeyOf(x) in unique && unique[KeyOf(x)] == x; }
    }
  }

  /** RESULT. A walk's claims need no deduplication: what `result` keeps is exactly the claims whose new ID
      is live in the target tree. */
  lemma KeptAreLive(fid: (string, string) -> Id, safe: string -> bool, steps: seq<Step>, ids: set<Id>,
                    kept: seq<Supersession>)
    requires InjectiveIds(fid) && DistinctCommits(ChainOf(safe, steps))
    requires KeepsClaims(ClaimsOfWalk(fid, safe, steps), ids, kept)
    ensures forall x :: x in kept <==> x in ClaimsOfWalk(fid, safe, steps) && x.newId in ids
  {
    hide InjectiveIds, ClaimsOfWalk, ChainOf, ClaimBefore;
    var all := ClaimsOfWalk(fid, safe, steps);
    NoPairIsClaimedTwice(fid, safe, steps);
    forall x ensures x in all <==> LastOfKey(all, x) {
      if x in all {
        var k :| 0 <= k < |all| && all[k] == x;
        assert forall j :: k < j < |all| ==> KeyOf(all[j]) != KeyOf(x);
      }
    }
  }
}

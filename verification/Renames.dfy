/** `resolve_rename`: which appeared path continues a removed file's lineage, and which claims link the
    rest. The specification is a function of the inputs as sets, so no input order can matter. */
module Renames {
  import opened Identity
  import opened Keyset
  import opened Orders

  datatype PriorFile = PriorFile(path: string, id: Id, blob: string)
  datatype NewFile = NewFile(path: string, blob: string)
  datatype SimilarRename = SimilarRename(oldPath: string, newPath: string, score: real)

  datatype Basis = AmbiguousBlobMatch | PathReuse | Similarity | ProvisionalCommitted | ProvisionalPathMatch
  datatype Supersession = Supersession(oldId: Id, newId: Id, confidence: real, basis: Basis)
  datatype Resolution = Resolution(ids: map<string, Id>, supersessions: seq<Supersession>)

  datatype RenameError = DuplicateAddedPath | DuplicateRemovedPath | DuplicateRemovedId | BadScore | UnlinkedGuess

  const AMBIGUOUS_BLOB_CONFIDENCE: real := 0.5
  const PATH_REUSE_CONFIDENCE: real := 0.25
  const SIMILARITY_MAX_CONFIDENCE: real := 0.9

  function Elements<T>(s: seq<T>): set<T> {
    set x | x in s
  }

  // ---- the specification, on sets --------------------------------------------------------------

  /** The only deterministic evidence: one removed and one added path with the identical blob. */
  ghost predicate Moves(removed: set<PriorFile>, added: set<NewFile>, s: PriorFile, f: NewFile) {
    && s in removed && f in added && s.blob == f.blob && s.path != f.path
    && (forall t :: t in removed && t.blob == f.blob ==> t == s)
    && (forall g :: g in added && g.blob == f.blob ==> g == f)
  }

  ghost predicate Moved(removed: set<PriorFile>, added: set<NewFile>, f: NewFile) {
    exists s :: Moves(removed, added, s, f)
  }

  ghost function IdFor(mint: string -> Id, removed: set<PriorFile>, added: set<NewFile>, f: NewFile): Id {
    if Moved(removed, added, f) then (var s :| Moves(removed, added, s, f); s.id) else mint(f.path)
  }

  function Clamp(score: real): real {
    if score < SIMILARITY_MAX_CONFIDENCE then score else SIMILARITY_MAX_CONFIDENCE
  }

  predicate Guesses(g: SimilarRename, oldPath: string, newPath: string) {
    g.oldPath == oldPath && g.newPath == newPath
  }

  ghost predicate Guessed(similar: set<SimilarRename>, oldPath: string, newPath: string) {
    exists g :: g in similar && Guesses(g, oldPath, newPath)
  }

  /** The largest clamped score of a pair. */
  ghost predicate IsBest(similar: set<SimilarRename>, oldPath: string, newPath: string, best: real) {
    && (exists g :: g in similar && Guesses(g, oldPath, newPath) && Clamp(g.score) == best)
    && (forall g :: g in similar && Guesses(g, oldPath, newPath) ==> Clamp(g.score) <= best)
  }

  lemma {:induction false} BestExists(similar: set<SimilarRename>, oldPath: string, newPath: string)
    requires Guessed(similar, oldPath, newPath)
    ensures exists best :: IsBest(similar, oldPath, newPath, best)
  {
    var g :| g in similar && Guesses(g, oldPath, newPath);
    var rest := similar - {g};
    if Guessed(rest, oldPath, newPath) {
      BestExists(rest, oldPath, newPath);
      var best :| IsBest(rest, oldPath, newPath, best);
      assert IsBest(similar, oldPath, newPath, if Clamp(g.score) > best then Clamp(g.score) else best);
    } else {
      assert IsBest(similar, oldPath, newPath, Clamp(g.score));
    }
  }

  ghost function BestScore(similar: set<SimilarRename>, oldPath: string, newPath: string): (best: real)
    requires Guessed(similar, oldPath, newPath)
    ensures IsBest(similar, oldPath, newPath, best)
  {
    BestExists(similar, oldPath, newPath);
    var best :| IsBest(similar, oldPath, newPath, best);
    best
  }

  /** Whether an appeared file is linked to a removed one. */
  ghost predicate Linked(similar: set<SimilarRename>, s: PriorFile, f: NewFile) {
    s.path == f.path || Guessed(similar, s.path, f.path) || s.blob == f.blob
  }

  /** How, and how confidently: path reuse over similarity over a shared blob. */
  ghost function Link(similar: set<SimilarRename>, s: PriorFile, f: NewFile): (Basis, real) {
    if s.path == f.path then (PathReuse, PATH_REUSE_CONFIDENCE)
    else if Guessed(similar, s.path, f.path) then (Similarity, BestScore(similar, s.path, f.path))
    else (AmbiguousBlobMatch, AMBIGUOUS_BLOB_CONFIDENCE)
  }

  ghost predicate HasPrior(removed: set<PriorFile>, id: Id) {
    exists s :: s in removed && s.id == id
  }

  ghost function PriorOf(removed: set<PriorFile>, id: Id): (s: PriorFile)
    requires HasPrior(removed, id)
    ensures s in removed && s.id == id
  {
    var s :| s in removed && s.id == id; s
  }

  ghost function LinkedIds(removed: set<PriorFile>, similar: set<SimilarRename>, f: NewFile): set<Id> {
    set s | s in removed && Linked(similar, s, f) :: s.id
  }

  ghost function ClaimOf(mint: string -> Id, removed: set<PriorFile>, similar: set<SimilarRename>, f: NewFile,
                         oldId: Id): Supersession
    requires HasPrior(removed, oldId)
  {
    var (basis, confidence) := Link(similar, PriorOf(removed, oldId), f);
    Supersession(oldId, mint(f.path), confidence, basis)
  }

  ghost function ClaimsOver(mint: string -> Id, removed: set<PriorFile>, similar: set<SimilarRename>, f: NewFile,
                            ids: seq<Id>): (claims: seq<Supersession>)
    requires forall id :: id in ids ==> HasPrior(removed, id)
    ensures |claims| == |ids|
  {
    seq(|ids|, i requires 0 <= i < |ids| => ClaimOf(mint, removed, similar, f, ids[i]))
  }

  /** The claims of one appeared file: none if it continues a lineage, else one per linked file, in ID
      order. */
  ghost function ClaimsFor(mint: string -> Id, removed: set<PriorFile>, added: set<NewFile>,
                           similar: set<SimilarRename>, f: NewFile): seq<Supersession> {
    if Moved(removed, added, f) then []
    else ClaimsOver(mint, removed, similar, f, SortedSet(LinkedIds(removed, similar, f)))
  }

  /** All claims, file by file in the given order. */
  ghost function Claims(mint: string -> Id, removed: set<PriorFile>, added: set<NewFile>,
                        similar: set<SimilarRename>, files: seq<NewFile>): seq<Supersession> {
    if files == [] then []
    else Claims(mint, removed, added, similar, files[..|files| - 1])
         + ClaimsFor(mint, removed, added, similar, files[|files| - 1])
  }

  function PathsOf(added: set<NewFile>): set<string> {
    set f | f in added :: f.path
  }

  ghost function FileAt(added: set<NewFile>, path: string): (f: NewFile)
    requires path in PathsOf(added)
    ensures f in added && f.path == path
  {
    var f :| f in added && f.path == path; f
  }

  /** The appeared files in path order. */
  ghost function InPathOrder(added: set<NewFile>): seq<NewFile> {
    var paths := SortedSet(PathsOf(added));
    seq(|paths|, i requires 0 <= i < |paths| => assert paths[i] in paths; FileAt(added, paths[i]))
  }

  /** What `resolve_rename` returns: a function of three sets. */
  ghost function Resolved(mint: string -> Id, removed: set<PriorFile>, added: set<NewFile>,
                          similar: set<SimilarRename>): Resolution {
    Resolution(map p | p in PathsOf(added) :: IdFor(mint, removed, added, FileAt(added, p)),
               Claims(mint, removed, added, similar, InPathOrder(added)))
  }

  predicate DistinctAddedPaths(added: seq<NewFile>) {
    forall i, j :: 0 <= i < j < |added| ==> added[i].path != added[j].path
  }

  predicate DistinctRemovedPaths(removed: seq<PriorFile>) {
    forall i, j :: 0 <= i < j < |removed| ==> removed[i].path != removed[j].path
  }

  predicate DistinctRemovedIds(removed: seq<PriorFile>) {
    forall i, j :: 0 <= i < j < |removed| ==> removed[i].id != removed[j].id
  }

  ghost predicate GoodGuess(removed: seq<PriorFile>, added: seq<NewFile>, g: SimilarRename) {
    && 0.0 < g.score <= 1.0
    && (exists s :: s in removed && s.path == g.oldPath)
    && (exists f :: f in added && f.path == g.newPath)
  }

  ghost predicate WellFormed(removed: seq<PriorFile>, added: seq<NewFile>, similar: seq<SimilarRename>) {
    && DistinctAddedPaths(added) && DistinctRemovedPaths(removed) && DistinctRemovedIds(removed)
    && forall g :: g in similar ==> GoodGuess(removed, added, g)
  }

  // ---- the dictionaries ------------------------------------------------------------------------

  /** The files of a list that have this blob, in order. */
  function WithBlob(s: seq<PriorFile>, blob: string): seq<PriorFile> {
    if s == [] then []
    else WithBlob(s[..|s| - 1], blob) + (if s[|s| - 1].blob == blob then [s[|s| - 1]] else [])
  }

  function NewWithBlob(s: seq<NewFile>, blob: string): seq<NewFile> {
    if s == [] then []
    else NewWithBlob(s[..|s| - 1], blob) + (if s[|s| - 1].blob == blob then [s[|s| - 1]] else [])
  }

  function Lookup<T>(m: map<string, seq<T>>, key: string): seq<T> {
    if key in m then m[key] else []
  }

  method GroupRemoved(prior: seq<PriorFile>) returns (byBlob: map<string, seq<PriorFile>>)
    ensures forall blob :: Lookup(byBlob, blob) == WithBlob(prior, blob)
  {
    byBlob := map[];
    assert forall blob :: WithBlob(prior[..0], blob) == [];
    for i := 0 to |prior|
      invariant forall blob :: Lookup(byBlob, blob) == WithBlob(prior[..i], blob)
    {
      assert prior[..i + 1][..i] == prior[..i];
      byBlob := byBlob[prior[i].blob := Lookup(byBlob, prior[i].blob) + [prior[i]]];
      forall blob ensures Lookup(byBlob, blob) == WithBlob(prior[..i + 1], blob) {}
    }
    assert prior[..|prior|] == prior;
  }

  method GroupAdded(added: seq<NewFile>) returns (byBlob: map<string, seq<NewFile>>)
    ensures forall blob :: Lookup(byBlob, blob) == NewWithBlob(added, blob)
  {
    byBlob := map[];
    assert forall blob :: NewWithBlob(added[..0], blob) == [];
    for i := 0 to |added|
      invariant forall blob :: Lookup(byBlob, blob) == NewWithBlob(added[..i], blob)
    {
      assert added[..i + 1][..i] == added[..i];
      byBlob := byBlob[added[i].blob := Lookup(byBlob, added[i].blob) + [added[i]]];
      forall blob ensures Lookup(byBlob, blob) == NewWithBlob(added[..i + 1], blob) {}
    }
    assert added[..|added|] == added;
  }

  lemma {:induction false} WithBlobMembers(s: seq<PriorFile>, blob: string)
    requires DistinctRemovedPaths(s)
    ensures forall x :: x in WithBlob(s, blob) <==> x in s && x.blob == blob
    ensures DistinctRemovedPaths(WithBlob(s, blob))
  {
    if s != [] {
      var n := |s| - 1;
      WithBlobMembers(s[..n], blob);
      assert s == s[..n] + [s[n]];
      var head := WithBlob(s[..n], blob);
      forall i | 0 <= i < |head| ensures head[i].path != s[n].path {
        assert head[i] in s[..n];
        var k :| 0 <= k < n && s[..n][k] == head[i];
        assert s[k] == head[i];
      }
    }
  }

  lemma {:induction false} NewWithBlobMembers(s: seq<NewFile>, blob: string)
    requires DistinctAddedPaths(s)
    ensures forall x :: x in NewWithBlob(s, blob) <==> x in s && x.blob == blob
    ensures DistinctAddedPaths(NewWithBlob(s, blob))
  {
    if s != [] {
      var n := |s| - 1;
      NewWithBlobMembers(s[..n], blob);
      assert s == s[..n] + [s[n]];
      var head := NewWithBlob(s[..n], blob);
      forall i | 0 <= i < |head| ensures head[i].path != s[n].path {
        assert head[i] in s[..n];
        var k :| 0 <= k < n && s[..n][k] == head[i];
        assert s[k] == head[i];
      }
    }
  }

  /** The test the loop makes on the two lists is the one the specification makes on the sets. */
  lemma ListsDecideMove(prior: seq<PriorFile>, added: seq<NewFile>, f: NewFile)
    requires DistinctRemovedPaths(prior) && DistinctAddedPaths(added) && f in added
    ensures var sources, siblings := WithBlob(prior, f.blob), NewWithBlob(added, f.blob);
            && (|sources| == 1 && |siblings| == 1 && sources[0].path != f.path ==>
                  Moves(Elements(prior), Elements(added), sources[0], f))
            && (Moved(Elements(prior), Elements(added), f) ==>
                  |sources| == 1 && |siblings| == 1 && sources[0].path != f.path)
  {
    hide WithBlob, NewWithBlob;
    var sources, siblings := WithBlob(prior, f.blob), NewWithBlob(added, f.blob);
    WithBlobMembers(prior, f.blob);
    NewWithBlobMembers(added, f.blob);
    assert f in siblings;
    if Moved(Elements(prior), Elements(added), f) {
      var s :| Moves(Elements(prior), Elements(added), s, f);
      assert s in sources;
      OnlyOne(sources, siblings, s, f);
    }
    if |sources| == 1 && |siblings| == 1 && sources[0].path != f.path {
      var s := sources[0];
      assert s in sources;
      forall t | t in Elements(prior) && t.blob == f.blob ensures t == s { assert t in sources; }
      forall g | g in Elements(added) && g.blob == f.blob ensures g == f { assert g in siblings; }
    }
  }

  lemma OnlyOne(sources: seq<PriorFile>, siblings: seq<NewFile>, s: PriorFile, f: NewFile)
    requires DistinctRemovedPaths(sources) && DistinctAddedPaths(siblings) && s in sources && f in siblings
    requires forall t :: t in sources ==> t == s
    requires forall g :: g in siblings ==> g == f
    ensures |sources| == 1 && |siblings| == 1 && sources[0] == s
  {
    forall i, j | 0 <= i < j < |sources| ensures sources[i] != sources[j] {
      assert sources[i].path != sources[j].path;
    }
    forall i, j | 0 <= i < j < |siblings| ensures siblings[i] != siblings[j] {
      assert siblings[i].path != siblings[j].path;
    }
    DistinctCount(sources);
    DistinctCount(siblings);
    assert (set t | t in sources) == {s} && (set g | g in siblings) == {f};
    assert sources[0] in sources;
  }

  /** `guesses`: per new path and old ID, the best clamped score. */
  method CollectGuesses(similar: seq<SimilarRename>, priorIds: map<string, Id>, paths: set<string>)
    returns (r: Result<map<(string, string), real>, RenameError>)
    ensures r.Ok? <==> forall g :: g in similar ==> 0.0 < g.score <= 1.0 && g.oldPath in priorIds && g.newPath in paths
    ensures r.Ok? ==> forall o, n :: (o, n) in r.value <==> Guessed(Elements(similar), o, n)
    ensures r.Ok? ==> forall o, n :: (o, n) in r.value ==> IsBest(Elements(similar), o, n, r.value[(o, n)])
  {
    hide Guessed, IsBest, Clamp;
    var guesses: map<(string, string), real> := map[];
    NoGuesses();
    for i := 0 to |similar|
      invariant forall k :: 0 <= k < i ==>
                  0.0 < similar[k].score <= 1.0 && similar[k].oldPath in priorIds && similar[k].newPath in paths
      invariant forall o, n :: (o, n) in guesses <==> Guessed(Elements(similar[..i]), o, n)
      invariant forall o, n :: (o, n) in guesses ==> IsBest(Elements(similar[..i]), o, n, guesses[(o, n)])
    {
      var g := similar[i];
      assert g in similar && similar[i] == g;
      if !(0.0 < g.score <= 1.0) {
        return Err(BadScore);
      }
      if g.oldPath !in priorIds || g.newPath !in paths {
        return Err(UnlinkedGuess);
      }
      var clamped := Clamp(g.score);
      var pair := (g.oldPath, g.newPath);
      var best := if pair in guesses && guesses[pair] > clamped then guesses[pair] else clamped;
      ghost var before := guesses;
      guesses := guesses[pair := best];
      assert Elements(similar[..i + 1]) == Elements(similar[..i]) + {g};
      GuessesGrow(Elements(similar[..i]), g, before, guesses);
    }
    assert similar[..|similar|] == similar;
    return Ok(guesses);
  }

  lemma NoGuesses()
    ensures forall o, n :: !Guessed(Elements([]), o, n)
  {}

  lemma GuessesGrow(similar: set<SimilarRename>, g: SimilarRename,
                    before: map<(string, string), real>, after: map<(string, string), real>)
    requires forall o, n :: (o, n) in before <==> Guessed(similar, o, n)
    requires forall o, n :: (o, n) in before ==> IsBest(similar, o, n, before[(o, n)])
    requires var pair := (g.oldPath, g.newPath);
             after == before[pair := if pair in before && before[pair] > Clamp(g.score) then before[pair]
                                     else Clamp(g.score)]
    ensures forall o, n :: (o, n) in after <==> Guessed(similar + {g}, o, n)
    ensures forall o, n :: (o, n) in after ==> IsBest(similar + {g}, o, n, after[(o, n)])
  {
    hide IsBest;
    forall o, n ensures (o, n) in after <==> Guessed(similar + {g}, o, n) {
      assert (o, n) in before <==> Guessed(similar, o, n);
      assert g in similar + {g} && (Guesses(g, o, n) <==> (o, n) == (g.oldPath, g.newPath));
    }
    forall o, n | (o, n) in after ensures IsBest(similar + {g}, o, n, after[(o, n)]) {
      BestOfMore(similar, g, o, n, before, after);
    }
  }

  lemma BestOfMore(similar: set<SimilarRename>, g: SimilarRename, o: string, n: string,
                   before: map<(string, string), real>, after: map<(string, string), real>)
    requires (o, n) in before <==> Guessed(similar, o, n)
    requires (o, n) in before ==> IsBest(similar, o, n, before[(o, n)])
    requires var pair := (g.oldPath, g.newPath);
             after == before[pair := if pair in before && before[pair] > Clamp(g.score) then before[pair]
                                     else Clamp(g.score)]
    requires (o, n) in after
    ensures IsBest(similar + {g}, o, n, after[(o, n)])
  {
    if Guesses(g, o, n) {
      assert g in similar + {g};
    }
    if (o, n) in before {
      var h :| h in similar && Guesses(h, o, n) && Clamp(h.score) == before[(o, n)];
      assert h in similar + {g};
    }
  }

  // ---- the algorithm ---------------------------------------------------------------------------

  function PathBefore(): (NewFile, NewFile) -> bool {
    (a: NewFile, b: NewFile) => Less(a.path, b.path)
  }

  function PriorBefore(): (PriorFile, PriorFile) -> bool {
    (a: PriorFile, b: PriorFile) => Less(a.path, b.path) || (a.path == b.path && Less(a.id, b.id))
  }

  lemma PathsOrdered()
    ensures StrictOrder(PathBefore())
  {
    StringsOrdered();
    var lt := PathBefore();
    forall x: NewFile, y: NewFile, z: NewFile | lt(x, z) ensures lt(x, y) || lt(y, z) {
      assert Less(x.path, y.path) || Less(y.path, z.path);
    }
  }

  function PathList(added: seq<NewFile>): seq<string> {
    seq(|added|, i requires 0 <= i < |added| => added[i].path)
  }

  function RemovedPathList(removed: seq<PriorFile>): seq<string> {
    seq(|removed|, i requires 0 <= i < |removed| => removed[i].path)
  }

  function RemovedIdList(removed: seq<PriorFile>): seq<Id> {
    seq(|removed|, i requires 0 <= i < |removed| => removed[i].id)
  }

  /** Counting a projection of a sorted copy finds the repetitions of the original. */
  lemma SortedKeepsDistinctness(removed: seq<PriorFile>, added: seq<NewFile>)
    ensures var prior, appeared := Sort(removed, PriorBefore()), Sort(added, PathBefore());
            && Elements(prior) == Elements(removed) && Elements(appeared) == Elements(added)
            && (DistinctAddedPaths(appeared) <==> DistinctAddedPaths(added))
            && (DistinctRemovedPaths(prior) <==> DistinctRemovedPaths(removed))
            && (DistinctRemovedIds(prior) <==> DistinctRemovedIds(removed))
  {
    var prior, appeared := Sort(removed, PriorBefore()), Sort(added, PathBefore());
    SortElements(removed, PriorBefore());
    SortElements(added, PathBefore());
    SameAddedPaths(added, appeared);
    SameRemoved(removed, prior);
  }

  lemma SameAddedPaths(a: seq<NewFile>, b: seq<NewFile>)
    requires |a| == |b| && forall x :: x in a <==> x in b
    ensures DistinctAddedPaths(a) <==> DistinctAddedPaths(b)
  {
    AddedPathCount(a);
    AddedPathCount(b);
    assert PathsOf(Elements(a)) == PathsOf(Elements(b));
  }

  lemma AddedPathCount(a: seq<NewFile>)
    ensures |PathsOf(Elements(a))| == |a| <==> DistinctAddedPaths(a)
  {
    var l := PathList(a);
    CountShowsRepetition(l);
    assert DistinctAddedPaths(a) <==> forall i, j :: 0 <= i < j < |l| ==> l[i] != l[j] by {
      assert forall i :: 0 <= i < |a| ==> l[i] == a[i].path;
    }
    forall p ensures p in PathsOf(Elements(a)) <==> p in PathList(a) {
      if p in PathsOf(Elements(a)) {
        var f :| f in Elements(a) && f.path == p;
        var i :| 0 <= i < |a| && a[i] == f;
        assert PathList(a)[i] == p;
      }
      if p in PathList(a) {
        var i :| 0 <= i < |a| && PathList(a)[i] == p;
        assert a[i] in Elements(a);
      }
    }
    assert PathsOf(Elements(a)) == set p | p in PathList(a);
  }

  function RemovedPaths(s: set<PriorFile>): set<string> {
    set x | x in s :: x.path
  }

  function RemovedIds(s: set<PriorFile>): set<Id> {
    set x | x in s :: x.id
  }

  lemma SameRemoved(a: seq<PriorFile>, b: seq<PriorFile>)
    requires |a| == |b| && forall x :: x in a <==> x in b
    ensures DistinctRemovedPaths(a) <==> DistinctRemovedPaths(b)
    ensures DistinctRemovedIds(a) <==> DistinctRemovedIds(b)
  {
    RemovedCounts(a);
    RemovedCounts(b);
    assert Elements(a) == Elements(b);
  }

  lemma RemovedCounts(a: seq<PriorFile>)
    ensures |RemovedPaths(Elements(a))| == |a| <==> DistinctRemovedPaths(a)
    ensures |RemovedIds(Elements(a))| == |a| <==> DistinctRemovedIds(a)
  {
    var l, m := RemovedPathList(a), RemovedIdList(a);
    CountShowsRepetition(l);
    CountShowsRepetition(m);
    assert DistinctRemovedPaths(a) <==> forall i, j :: 0 <= i < j < |l| ==> l[i] != l[j] by {
      assert forall i :: 0 <= i < |a| ==> l[i] == a[i].path;
    }
    assert DistinctRemovedIds(a) <==> forall i, j :: 0 <= i < j < |m| ==> m[i] != m[j] by {
      assert forall i :: 0 <= i < |a| ==> m[i] == a[i].id;
    }
    RemovedProjections(a);
  }

  lemma RemovedProjections(a: seq<PriorFile>)
    ensures RemovedPaths(Elements(a)) == set p | p in RemovedPathList(a)
    ensures RemovedIds(Elements(a)) == set p | p in RemovedIdList(a)
  {
    forall x | x in Elements(a) ensures x.path in RemovedPathList(a) && x.id in RemovedIdList(a) {
      var i :| 0 <= i < |a| && a[i] == x;
      assert RemovedPathList(a)[i] == x.path && RemovedIdList(a)[i] == x.id;
    }
    forall p | p in RemovedPathList(a) ensures p in RemovedPaths(Elements(a)) {
      var i :| 0 <= i < |a| && RemovedPathList(a)[i] == p;
      assert a[i] in Elements(a);
    }
    forall p | p in RemovedIdList(a) ensures p in RemovedIds(Elements(a)) {
      var i :| 0 <= i < |a| && RemovedIdList(a)[i] == p;
      assert a[i] in Elements(a);
    }
  }

  lemma SamePathSameFile(added: seq<NewFile>, f: NewFile, g: NewFile)
    requires DistinctAddedPaths(added) && f in added && g in added && f.path == g.path
    ensures f == g
  {
    var i :| 0 <= i < |added| && added[i] == f;
    var j :| 0 <= j < |added| && added[j] == g;
    assert added[i].path == added[j].path;
  }

  lemma PathOrderMembers(added: seq<NewFile>)
    requires DistinctAddedPaths(added)
    ensures StrictlySorted(InPathOrder(Elements(added)), PathBefore())
    ensures forall x :: x in InPathOrder(Elements(added)) <==> x in added
  {
    hide DistinctAddedPaths;
    var files, paths := InPathOrder(Elements(added)), SortedSet(PathsOf(Elements(added)));
    forall i | 0 <= i < |files| ensures files[i] in added && files[i].path == paths[i] {
      assert paths[i] in paths;
    }
    forall x | x in added ensures x in files {
      assert x in Elements(added) && x.path in paths;
      var i :| 0 <= i < |paths| && paths[i] == x.path;
      SamePathSameFile(added, files[i], x);
    }
    forall i, j | 0 <= i < j < |files| ensures PathBefore()(files[i], files[j]) {
      assert Less(paths[i], paths[j]);
    }
  }

  /** The sorted distinct list is the set in path order. */
  lemma SortedIsInPathOrder(added: seq<NewFile>)
    requires DistinctAddedPaths(added)
    ensures Sort(added, PathBefore()) == InPathOrder(Elements(added))
  {
    hide InPathOrder;
    PathsOrdered();
    forall i, j | 0 <= i < j < |added| ensures PathBefore()(added[i], added[j]) || PathBefore()(added[j], added[i]) {
      LessTotal(added[i].path, added[j].path);
    }
    SortStrict(added, PathBefore());
    SortElements(added, PathBefore());
    PathOrderMembers(added);
    StrictlySortedUnique(Sort(added, PathBefore()), InPathOrder(Elements(added)), PathBefore());
  }

  ghost predicate KnownPriors(prior: seq<PriorFile>, priorIds: map<string, Id>) {
    && DistinctRemovedPaths(prior) && DistinctRemovedIds(prior)
    && (forall s :: s in prior ==> s.path in priorIds && priorIds[s.path] == s.id)
    && (forall p :: p in priorIds ==> exists s :: s in prior && s.path == p)
  }

  ghost predicate KnownGuesses(priorIds: map<string, Id>, guesses: map<(string, string), real>,
                               similar: set<SimilarRename>) {
    && (forall o, n :: (o, n) in guesses <==> Guessed(similar, o, n))
    && (forall o, n :: (o, n) in guesses ==> o in priorIds && IsBest(similar, o, n, guesses[(o, n)]))
  }

  lemma BestUnique(similar: set<SimilarRename>, o: string, n: string, a: real, b: real)
    requires IsBest(similar, o, n, a) && IsBest(similar, o, n, b)
    ensures a == b
  {}

  type Linking = map<Id, (Basis, real)>

  /** `linked` once the guesses of `done` were entered over the shared blobs. */
  ghost predicate LinkedBy(linked: Linking, prior: seq<PriorFile>, guesses: map<(string, string), real>,
                           done: set<(string, string)>, f: NewFile)
    requires done <= guesses.Keys
  {
    && (forall id :: id in linked ==> exists s :: s in prior && s.id == id)
    && (forall s :: s in prior ==>
          && (s.id in linked <==> s.blob == f.blob || (s.path, f.path) in done)
          && (s.id in linked ==>
                linked[s.id] == if (s.path, f.path) in done then (Similarity, guesses[(s.path, f.path)])
                                else (AmbiguousBlobMatch, AMBIGUOUS_BLOB_CONFIDENCE)))
  }

  method LinkSources(prior: seq<PriorFile>, guesses: map<(string, string), real>, f: NewFile, sources: seq<PriorFile>)
    returns (linked: Linking)
    requires DistinctRemovedPaths(prior) && DistinctRemovedIds(prior) && sources == WithBlob(prior, f.blob)
    ensures LinkedBy(linked, prior, guesses, {}, f)
  {
    WithBlobMembers(prior, f.blob);
    linked := map[];
    for i := 0 to |sources|
      invariant forall id :: id in linked <==> exists k :: 0 <= k < i && sources[k].id == id
      invariant forall id :: id in linked ==> linked[id] == (AmbiguousBlobMatch, AMBIGUOUS_BLOB_CONFIDENCE)
    {
      linked := linked[sources[i].id := (AmbiguousBlobMatch, AMBIGUOUS_BLOB_CONFIDENCE)];
    }
    forall s | s in prior ensures s.id in linked <==> s.blob == f.blob {
      if s.blob == f.blob {
        assert s in sources;
        var k :| 0 <= k < |sources| && sources[k] == s;
      }
      if s.id in linked {
        var k :| 0 <= k < |sources| && sources[k].id == s.id;
        assert sources[k] in sources;
        SameIdSamePrior(prior, s, sources[k]);
      }
    }
    forall id | id in linked ensures exists s :: s in prior && s.id == id {
      var k :| 0 <= k < |sources| && sources[k].id == id;
      assert sources[k] in sources;
    }
  }

  lemma SameIdSamePrior(prior: seq<PriorFile>, s: PriorFile, t: PriorFile)
    requires DistinctRemovedIds(prior) && DistinctRemovedPaths(prior) && s in prior && t in prior
    ensures s.id == t.id ==> s == t
    ensures s.path == t.path ==> s == t
  {
    var i :| 0 <= i < |prior| && prior[i] == s;
    var j :| 0 <= j < |prior| && prior[j] == t;
  }

  lemma OneMoreGuess(linked: Linking, prior: seq<PriorFile>, priorIds: map<string, Id>,
                     guesses: map<(string, string), real>,
                     done: set<(string, string)>, f: NewFile, pair: (string, string))
    requires KnownPriors(prior, priorIds) && done <= guesses.Keys && LinkedBy(linked, prior, guesses, done, f)
    requires pair in guesses && pair.1 == f.path && pair.0 in priorIds
    ensures LinkedBy(linked[priorIds[pair.0] := (Similarity, guesses[pair])], prior, guesses, done + {pair}, f)
  {
    var id := priorIds[pair.0];
    var t :| t in prior && t.path == pair.0;
    forall s | s in prior ensures s.id == id <==> (s.path, f.path) == pair {
      SameIdSamePrior(prior, s, t);
    }
  }

  /** `linked` and the claims it becomes, for one appeared file. */
  method ClaimFile(mint: string -> Id, prior: seq<PriorFile>, sources: seq<PriorFile>, priorIds: map<string, Id>,
                   guesses: map<(string, string), real>, ghost similar: set<SimilarRename>, f: NewFile)
    returns (claims: seq<Supersession>)
    requires KnownPriors(prior, priorIds) && KnownGuesses(priorIds, guesses, similar)
             && sources == WithBlob(prior, f.blob)
    ensures claims == ClaimsOver(mint, Elements(prior), similar, f, SortedSet(LinkedIds(Elements(prior), similar, f)))
  {
    hide KnownPriors, LinkedBy, KnownGuesses;
    assert DistinctRemovedPaths(prior) && DistinctRemovedIds(prior) by { PriorsDistinct(prior, priorIds); }
    var linked := LinkSources(prior, guesses, f, sources);
    var rest := set pair | pair in guesses && pair.1 == f.path;
    ghost var done: set<(string, string)> := {};
    GuessesKnown(priorIds, guesses, similar);
    while rest != {}
      invariant rest <= guesses.Keys && done <= guesses.Keys
      invariant forall pair :: pair in guesses && pair.1 == f.path <==> pair in rest + done
      invariant LinkedBy(linked, prior, guesses, done, f)
    {
      var pair :| pair in rest;
      OneMoreGuess(linked, prior, priorIds, guesses, done, f, pair);
      linked := linked[priorIds[pair.0] := (Similarity, guesses[pair])];
      rest := rest - {pair};
      done := done + {pair};
    }
    if f.path in priorIds {
      linked := linked[priorIds[f.path] := (PathReuse, PATH_REUSE_CONFIDENCE)];
    }
    LinkedIsComplete(prior, priorIds, guesses, similar, f, done, linked);
    claims := ListClaims(mint, Elements(prior), similar, f, linked);
  }

  lemma PriorsDistinct(prior: seq<PriorFile>, priorIds: map<string, Id>)
    requires KnownPriors(prior, priorIds)
    ensures DistinctRemovedPaths(prior) && DistinctRemovedIds(prior)
  {}

  lemma GuessesKnown(priorIds: map<string, Id>, guesses: map<(string, string), real>, similar: set<SimilarRename>)
    requires KnownGuesses(priorIds, guesses, similar)
    ensures forall pair :: pair in guesses ==> pair.0 in priorIds
  {
    forall pair | pair in guesses ensures pair.0 in priorIds {
      assert (pair.0, pair.1) in guesses;
    }
  }

  /** The finished dictionary: exactly the linked IDs, each with its link. */
  ghost predicate LinkedExactly(linked: Linking, removed: set<PriorFile>, similar: set<SimilarRename>, f: NewFile) {
    && (forall id :: id in linked <==> id in LinkedIds(removed, similar, f))
    && (forall id :: id in linked ==> HasPrior(removed, id) && linked[id] == Link(similar, PriorOf(removed, id), f))
  }

  lemma LinkedIsComplete(prior: seq<PriorFile>, priorIds: map<string, Id>, guesses: map<(string, string), real>,
                         similar: set<SimilarRename>, f: NewFile, done: set<(string, string)>, linked: Linking)
    requires KnownPriors(prior, priorIds) && KnownGuesses(priorIds, guesses, similar)
    requires done <= guesses.Keys && forall pair :: pair in guesses && pair.1 == f.path <==> pair in done
    requires exists before :: LinkedBy(before, prior, guesses, done, f)
               && linked == if f.path in priorIds then before[priorIds[f.path] := (PathReuse, PATH_REUSE_CONFIDENCE)]
                   else before
    ensures LinkedExactly(linked, Elements(prior), similar, f)
  {
    var removed := Elements(prior);
    forall s | s in prior
      ensures s.id in linked <==> Linked(similar, s, f)
      ensures s.id in linked ==> linked[s.id] == Link(similar, s, f)
    {
      LinkedPrior(prior, priorIds, guesses, similar, f, done, linked, s);
    }
    forall id | id in linked ensures exists s :: s in prior && s.id == id {
      if f.path in priorIds && id == priorIds[f.path] {
        var s :| s in prior && s.path == f.path;
      }
    }
    forall id | id in LinkedIds(removed, similar, f) ensures id in linked {
      var s :| s in removed && Linked(similar, s, f) && s.id == id;
    }
    forall id | id in linked
      ensures HasPrior(removed, id) && linked[id] == Link(similar, PriorOf(removed, id), f)
              && id in LinkedIds(removed, similar, f)
    {
      var s :| s in prior && s.id == id;
      assert s in removed;
      SameIdSamePrior(prior, s, PriorOf(removed, id));
    }
  }

  lemma LinkedPrior(prior: seq<PriorFile>, priorIds: map<string, Id>, guesses: map<(string, string), real>,
                    similar: set<SimilarRename>, f: NewFile, done: set<(string, string)>, linked: Linking, s: PriorFile)
    requires KnownPriors(prior, priorIds) && KnownGuesses(priorIds, guesses, similar) && s in prior
    requires done <= guesses.Keys && forall pair :: pair in guesses && pair.1 == f.path <==> pair in done
    requires exists before :: LinkedBy(before, prior, guesses, done, f)
               && linked == if f.path in priorIds then before[priorIds[f.path] := (PathReuse, PATH_REUSE_CONFIDENCE)]
                   else before
    ensures s.id in linked <==> Linked(similar, s, f)
    ensures s.id in linked ==> linked[s.id] == Link(similar, s, f)
  {
    assert (s.path, f.path) in done <==> Guessed(similar, s.path, f.path);
    if f.path in priorIds {
      var t :| t in prior && t.path == f.path;
      SameIdSamePrior(prior, s, t);
    }
    if Guessed(similar, s.path, f.path) {
      BestUnique(similar, s.path, f.path, guesses[(s.path, f.path)], BestScore(similar, s.path, f.path));
    }
  }

  method ListClaims(mint: string -> Id, ghost removed: set<PriorFile>, ghost similar: set<SimilarRename>, f: NewFile,
                    linked: Linking)
    returns (claims: seq<Supersession>)
    requires LinkedExactly(linked, removed, similar, f)
    ensures claims == ClaimsOver(mint, removed, similar, f, SortedSet(LinkedIds(removed, similar, f)))
  {
    hide Link, Linked, SortedSet, LinkedIds, Less, FirstOf;
    var ids := Smallest(linked.Keys, |linked.Keys|);
    AllOf(linked.Keys);
    assert linked.Keys == LinkedIds(removed, similar, f);
    claims := [];
    for i := 0 to |ids|
      invariant |claims| == i
      invariant forall k :: 0 <= k < i ==>
                  HasPrior(removed, ids[k]) && claims[k] == ClaimOf(mint, removed, similar, f, ids[k])
    {
      assert ids[i] in linked;
      var (basis, confidence) := linked[ids[i]];
      claims := claims + [Supersession(ids[i], mint(f.path), confidence, basis)];
    }
  }

  /** `resolve_rename`: refused exactly for repeated paths or IDs or a guess that links nothing; else the
      function of the three input sets, whatever order the inputs came in. */
  method ResolveRename(mint: string -> Id, removed: seq<PriorFile>, added: seq<NewFile>, similar: seq<SimilarRename>)
    returns (r: Result<Resolution, RenameError>)
    ensures r.Ok? <==> WellFormed(removed, added, similar)
    ensures r.Ok? ==> r.value == Resolved(mint, Elements(removed), Elements(added), Elements(similar))
  {
    hide Link, Linked, LinkedIds, SortedSet, DistinctRemovedIds, DistinctRemovedPaths, DistinctAddedPaths;
    hide KnownPriors, KnownGuesses, ClaimsOver, Moves, Moved;
    var prior := Sort(removed, PriorBefore());
    var appeared := Sort(added, PathBefore());
    SortedKeepsDistinctness(removed, added);
    SortElements(removed, PriorBefore());
    SortElements(added, PathBefore());
    AddedPathCount(appeared);
    RemovedCounts(prior);
    var paths := PathsOf(Elements(appeared));
    if |paths| != |appeared| {
      return Err(DuplicateAddedPath);
    }
    var removedByBlob := GroupRemoved(prior);
    var addedByBlob := GroupAdded(appeared);
    var priorIds := PriorIds(prior);
    if |RemovedPaths(Elements(prior))| != |prior| {
      return Err(DuplicateRemovedPath);
    }
    if |RemovedIds(Elements(prior))| != |prior| {
      return Err(DuplicateRemovedId);
    }
    var guesses := CollectGuesses(similar, priorIds, paths);
    GuessesGood(removed, added, similar, prior, priorIds, paths);
    if guesses.Err? {
      return Err(guesses.error);
    }
    PriorsAndGuesses(prior, priorIds, guesses.value, Elements(similar), similar, paths);
    SortedIsInPathOrder(added);
    var resolution := Assign(mint, prior, appeared, removedByBlob, addedByBlob, priorIds, guesses.value,
        Elements(similar));
    return Ok(resolution);
  }

  method PriorIds(prior: seq<PriorFile>) returns (ids: map<string, Id>)
    ensures forall p :: p in ids <==> exists s :: s in prior && s.path == p
    ensures DistinctRemovedPaths(prior) ==> forall s :: s in prior ==> s.path in ids && ids[s.path] == s.id
  {
    ids := map[];
    for i := 0 to |prior|
      invariant forall k :: 0 <= k < i ==> prior[k].path in ids
      invariant forall p :: p in ids ==> exists k :: 0 <= k < i && prior[k].path == p && prior[k].id == ids[p]
    {
      ids := ids[prior[i].path := prior[i].id];
    }
    forall p | p in ids ensures exists s :: s in prior && s.path == p {
      var k :| 0 <= k < |prior| && prior[k].path == p && prior[k].id == ids[p];
      assert prior[k] in prior;
    }
  }

  lemma GuessesGood(removed: seq<PriorFile>, added: seq<NewFile>, similar: seq<SimilarRename>, prior: seq<PriorFile>,
                    priorIds: map<string, Id>, paths: set<string>)
    requires Elements(prior) == Elements(removed) && paths == PathsOf(Elements(added))
    requires forall p :: p in priorIds <==> exists s :: s in prior && s.path == p
    ensures (forall g :: g in similar ==> GoodGuess(removed, added, g))
            <==> forall g :: g in similar ==> 0.0 < g.score <= 1.0 && g.oldPath in priorIds && g.newPath in paths
  {
    forall g | g in similar
      ensures GoodGuess(removed, added, g) <==> 0.0 < g.score <= 1.0 && g.oldPath in priorIds && g.newPath in paths
    {
      assert forall s :: s in prior <==> s in Elements(removed);
    }
  }

  lemma PriorsAndGuesses(prior: seq<PriorFile>, priorIds: map<string, Id>, guesses: map<(string, string), real>,
                         similar: set<SimilarRename>, list: seq<SimilarRename>, paths: set<string>)
    requires DistinctRemovedPaths(prior) && DistinctRemovedIds(prior) && similar == Elements(list)
    requires forall p :: p in priorIds <==> exists s :: s in prior && s.path == p
    requires forall s :: s in prior ==> s.path in priorIds && priorIds[s.path] == s.id
    requires forall g :: g in list ==> 0.0 < g.score <= 1.0 && g.oldPath in priorIds && g.newPath in paths
    requires forall o, n :: (o, n) in guesses <==> Guessed(similar, o, n)
    requires forall o, n :: (o, n) in guesses ==> IsBest(similar, o, n, guesses[(o, n)])
    ensures KnownPriors(prior, priorIds) && KnownGuesses(priorIds, guesses, similar)
  {
    forall o, n | (o, n) in guesses ensures o in priorIds {
      var g :| g in similar && Guesses(g, o, n);
    }
  }

  /** The closing loop over the appeared files. */
  method Assign(mint: string -> Id, prior: seq<PriorFile>, appeared: seq<NewFile>,
                removedByBlob: map<string, seq<PriorFile>>, addedByBlob: map<string, seq<NewFile>>,
                priorIds: map<string, Id>, guesses: map<(string, string), real>, ghost similar: set<SimilarRename>)
    returns (r: Resolution)
    requires KnownPriors(prior, priorIds) && KnownGuesses(priorIds, guesses, similar)
    requires DistinctAddedPaths(appeared) && appeared == InPathOrder(Elements(appeared))
    requires forall blob :: Lookup(removedByBlob, blob) == WithBlob(prior, blob)
    requires forall blob :: Lookup(addedByBlob, blob) == NewWithBlob(appeared, blob)
    ensures r == Resolved(mint, Elements(prior), Elements(appeared), similar)
  {
    hide KnownPriors, KnownGuesses, ClaimsFor, WithBlob, NewWithBlob, InPathOrder, IdFor, Lookup, Moved;
    hide DistinctAddedPaths;
    ghost var removed, added := Elements(prior), Elements(appeared);
    var ids: map<string, Id> := map[];
    var supersessions: seq<Supersession> := [];
    for i := 0 to |appeared|
      invariant forall p :: p in ids <==> exists k :: 0 <= k < i && appeared[k].path == p
      invariant forall k :: 0 <= k < i ==>
                  appeared[k].path in ids && ids[appeared[k].path] == IdFor(mint, removed, added, appeared[k])
      invariant supersessions == Claims(mint, removed, added, similar, appeared[..i])
    {
      assert appeared[..i + 1][..i] == appeared[..i];
      PathIsNew(appeared, i);
      var id, claims := AssignFile(mint, prior, appeared, removedByBlob, addedByBlob, priorIds, guesses, similar,
          appeared[i]);
      ids := ids[appeared[i].path := id];
      supersessions := supersessions + claims;
    }
    assert appeared[..|appeared|] == appeared;
    r := Resolution(ids, supersessions);
    IdsAreResolved(mint, removed, appeared, ids);
  }

  lemma PathIsNew(appeared: seq<NewFile>, i: nat)
    requires DistinctAddedPaths(appeared) && i < |appeared|
    ensures forall k :: 0 <= k < i ==> appeared[k].path != appeared[i].path
  {}

  method AssignFile(mint: string -> Id, prior: seq<PriorFile>, appeared: seq<NewFile>,
                    removedByBlob: map<string, seq<PriorFile>>, addedByBlob: map<string, seq<NewFile>>,
                    priorIds: map<string, Id>, guesses: map<(string, string), real>, ghost similar: set<SimilarRename>,
                    f: NewFile)
    returns (id: Id, claims: seq<Supersession>)
    requires KnownPriors(prior, priorIds) && KnownGuesses(priorIds, guesses, similar)
    requires DistinctAddedPaths(appeared) && f in appeared
    requires forall blob :: Lookup(removedByBlob, blob) == WithBlob(prior, blob)
    requires forall blob :: Lookup(addedByBlob, blob) == NewWithBlob(appeared, blob)
    ensures id == IdFor(mint, Elements(prior), Elements(appeared), f)
    ensures claims == ClaimsFor(mint, Elements(prior), Elements(appeared), similar, f)
  {
    hide LinkedIds, SortedSet, KnownPriors, KnownGuesses, ClaimsOver, Moves, WithBlob, NewWithBlob;
    hide DistinctAddedPaths, DistinctRemovedPaths, DistinctRemovedIds, Lookup;
    PriorsDistinct(prior, priorIds);
    var sources := Lookup(removedByBlob, f.blob);
    var siblings := Lookup(addedByBlob, f.blob);
    ListsDecideMove(prior, appeared, f);
    if |sources| == 1 && |siblings| == 1 && sources[0].path != f.path {
      MoveIsUnique(mint, Elements(prior), Elements(appeared), sources[0], f);
      return sources[0].id, [];
    }
    id := mint(f.path);
    claims := ClaimFile(mint, prior, sources, priorIds, guesses, similar, f);
  }

  lemma MoveIsUnique(mint: string -> Id, removed: set<PriorFile>, added: set<NewFile>, s: PriorFile, f: NewFile)
    requires Moves(removed, added, s, f)
    ensures Moved(removed, added, f) && IdFor(mint, removed, added, f) == s.id
  {}

  lemma IdsAreResolved(mint: string -> Id, removed: set<PriorFile>, appeared: seq<NewFile>, ids: map<string, Id>)
    requires DistinctAddedPaths(appeared)
    requires forall p :: p in ids <==> exists k :: 0 <= k < |appeared| && appeared[k].path == p
    requires forall k :: 0 <= k < |appeared| ==>
               appeared[k].path in ids && ids[appeared[k].path] == IdFor(mint, removed, Elements(appeared), appeared[k])
    ensures ids == map p | p in PathsOf(Elements(appeared)) ::
              IdFor(mint, removed, Elements(appeared), FileAt(Elements(appeared), p))
  {
    hide IdFor;
    var added := Elements(appeared);
    forall p ensures p in ids <==> p in PathsOf(added) {
      if p in ids {
        var k :| 0 <= k < |appeared| && appeared[k].path == p;
        assert appeared[k] in added;
      }
    }
    forall p | p in ids ensures ids[p] == IdFor(mint, removed, added, FileAt(added, p)) {
      var k :| 0 <= k < |appeared| && appeared[k].path == p;
      SamePathSameFile(appeared, appeared[k], FileAt(added, p));
    }
  }

  // ---- consequences ----------------------------------------------------------------------------

  /** ORDER. Any permutation of the three inputs gives the same IDs and the same claims, or is refused
      as well. */
  lemma ResolutionIgnoresInputOrder(mint: string -> Id, removed: seq<PriorFile>, added: seq<NewFile>,
                                    similar: seq<SimilarRename>,
                                    removed': seq<PriorFile>, added': seq<NewFile>, similar': seq<SimilarRename>)
    requires multiset(removed) == multiset(removed') && multiset(added) == multiset(added')
    requires multiset(similar) == multiset(similar')
    ensures WellFormed(removed, added, similar) <==> WellFormed(removed', added', similar')
    ensures Resolved(mint, Elements(removed), Elements(added), Elements(similar))
         == Resolved(mint, Elements(removed'), Elements(added'), Elements(similar'))
  {
    SameMultisetSameElements(removed, removed');
    SameMultisetSameElements(added, added');
    SameMultisetSameElements(similar, similar');
    SameRemoved(removed, removed');
    SameAddedPaths(added, added');
    forall g | g in similar ensures GoodGuess(removed, added, g) <==> GoodGuess(removed', added', g) {}
    assert forall g :: g in similar <==> g in similar';
  }

  lemma SameMultisetSameElements<T>(a: seq<T>, b: seq<T>)
    requires multiset(a) == multiset(b)
    ensures |a| == |b| && Elements(a) == Elements(b) && forall x :: x in a <==> x in b
  {
    assert |multiset(a)| == |a| && |multiset(b)| == |b|;
    forall x ensures x in a <==> x in b {
      assert x in a <==> x in multiset(a);
      assert x in b <==> x in multiset(b);
    }
  }

  /** DISTINCT. Distinct appeared paths get distinct IDs whenever the removed IDs are distinct from each
      other and from the freshly minted ones. */
  lemma AppearedIdsAreDistinct(mint: string -> Id, removed: set<PriorFile>, added: set<NewFile>, f: NewFile, g: NewFile)
    requires forall p, q :: mint(p) == mint(q) ==> p == q
    requires forall s, p :: s in removed ==> s.id != mint(p)
    requires forall s, t :: s in removed && t in removed && s.id == t.id ==> s == t
    requires f in added && g in added && f.path != g.path
    ensures IdFor(mint, removed, added, f) != IdFor(mint, removed, added, g)
  {
    if Moved(removed, added, f) && Moved(removed, added, g) {
      var s :| Moves(removed, added, s, f) && s.id == IdFor(mint, removed, added, f);
      var t :| Moves(removed, added, t, g) && t.id == IdFor(mint, removed, added, g);
    }
  }

  // ---- which claims are made -------------------------------------------------------------------

  /** A removed file's claim on an appeared one that has a new ID: at its own path a quarter sure, else as Git's
      best score for the pair says but never above nine tenths, else half sure for the same blob. */
  ghost predicate Claimed(mint: string -> Id, similar: set<SimilarRename>, s: PriorFile, f: NewFile, c: Supersession) {
    && c.oldId == s.id && c.newId == mint(f.path)
    && if s.path == f.path then c.basis == PathReuse && c.confidence == 0.25
       else if exists g :: g in similar && Guesses(g, s.path, f.path)
       then c.basis == Similarity && c.confidence <= 0.9 && IsBest(similar, s.path, f.path, c.confidence)
       else s.blob == f.blob && c.basis == AmbiguousBlobMatch && c.confidence == 0.5
  }

  ghost predicate SomeClaim(mint: string -> Id, removed: set<PriorFile>, added: set<NewFile>,
                            similar: set<SimilarRename>, c: Supersession) {
    exists s, f :: s in removed && f in added && !Moved(removed, added, f) && Claimed(mint, similar, s, f, c)
  }

  lemma ClaimOfLink(mint: string -> Id, removed: set<PriorFile>, similar: set<SimilarRename>, f: NewFile, s: PriorFile,
                    c: Supersession)
    requires s in removed && forall t :: t in removed && t.id == s.id ==> t == s
    ensures HasPrior(removed, s.id)
    ensures Claimed(mint, similar, s, f, c) <==> Linked(similar, s, f) && c == ClaimOf(mint, removed, similar, f, s.id)
  {
    if exists g :: g in similar && Guesses(g, s.path, f.path) {
      assert Guessed(similar, s.path, f.path);
      var best := BestScore(similar, s.path, f.path);
      if IsBest(similar, s.path, f.path, c.confidence) { BestUnique(similar, s.path, f.path, best, c.confidence); }
    }
  }

  lemma ClaimsOfFile(mint: string -> Id, removed: set<PriorFile>, added: set<NewFile>, similar: set<SimilarRename>,
                     f: NewFile, c: Supersession)
    requires forall s, t :: s in removed && t in removed && s.id == t.id ==> s == t
    ensures c in ClaimsFor(mint, removed, added, similar, f)
            <==> !Moved(removed, added, f) && exists s :: s in removed && Claimed(mint, similar, s, f, c)
  {
    hide Moved, Claimed, SortedSet, ClaimOf, Linked;
    if !Moved(removed, added, f) {
      var ids := SortedSet(LinkedIds(removed, similar, f));
      var claims := ClaimsOver(mint, removed, similar, f, ids);
      if c in claims {
        var i :| 0 <= i < |claims| && claims[i] == c;
        assert ids[i] in LinkedIds(removed, similar, f);
        var s :| s in removed && Linked(similar, s, f) && s.id == ids[i];
        ClaimOfLink(mint, removed, similar, f, s, c);
      }
      if s :| s in removed && Claimed(mint, similar, s, f, c) {
        ClaimOfLink(mint, removed, similar, f, s, c);
        assert s.id in ids;
        var i :| 0 <= i < |ids| && ids[i] == s.id;
        assert claims[i] == c;
      }
    }
  }

  lemma {:induction false} ClaimsMembers(mint: string -> Id, removed: set<PriorFile>, added: set<NewFile>,
                                         similar: set<SimilarRename>, files: seq<NewFile>, c: Supersession)
    ensures c in Claims(mint, removed, added, similar, files)
            <==> exists f :: f in files && c in ClaimsFor(mint, removed, added, similar, f)
  {
    hide ClaimsFor;
    if files != [] {
      var n := |files| - 1;
      ClaimsMembers(mint, removed, added, similar, files[..n], c);
      assert files == files[..n] + [files[n]];
    }
  }

  /** CLAIMS, exactly. The resolution claims precisely what each removed file is to each appeared one that does not
      continue a lineage, with the basis and the confidence their paths, blobs and scores fix. */
  lemma ClaimedExactly(mint: string -> Id, removed: set<PriorFile>, added: set<NewFile>, similar: set<SimilarRename>,
                       c: Supersession)
    requires forall s, t :: s in removed && t in removed && s.id == t.id ==> s == t
    requires forall f, g :: f in added && g in added && f.path == g.path ==> f == g
    ensures c in Resolved(mint, removed, added, similar).supersessions
            <==> SomeClaim(mint, removed, added, similar, c)
  {
    hide Claims, ClaimsFor, Moved, Claimed, SortedSet;
    var files := InPathOrder(added);
    ClaimsMembers(mint, removed, added, similar, files, c);
    InPathOrderMembers(added);
    if f :| f in files && c in ClaimsFor(mint, removed, added, similar, f) {
      ClaimsOfFile(mint, removed, added, similar, f, c);
    }
    if s, f :| s in removed && f in added && !Moved(removed, added, f) && Claimed(mint, similar, s, f, c) {
      ClaimsOfFile(mint, removed, added, similar, f, c);
    }
  }

  lemma InPathOrderMembers(added: set<NewFile>)
    requires forall f, g :: f in added && g in added && f.path == g.path ==> f == g
    ensures forall f :: f in InPathOrder(added) <==> f in added
  {
    hide SortedSet;
    var paths, files := SortedSet(PathsOf(added)), InPathOrder(added);
    forall f | f in files ensures f in added {
      var i :| 0 <= i < |files| && files[i] == f;
      assert paths[i] in paths;
    }
    forall f | f in added ensures f in files {
      assert f.path in paths;
      var i :| 0 <= i < |paths| && paths[i] == f.path;
      assert files[i] == f;
    }
  }

  // ---- committing provisional files ------------------------------------------------------------

  datatype CommitError = DuplicateProvisionalPath | DuplicateCommittedPath

  /** The claim linking a provisional file to the committed one at its path. */
  function CommittedClaim(mint: string -> Id, s: PriorFile, f: NewFile): Supersession {
    if s.blob == f.blob then Supersession(s.id, mint(f.path), 1.0, ProvisionalCommitted)
    else Supersession(s.id, mint(f.path), 0.5, ProvisionalPathMatch)
  }

  /** One claim per committed file that has a provisional counterpart, in the given order. */
  ghost function CommittedClaims(mint: string -> Id, provisional: set<PriorFile>,
                                 files: seq<NewFile>): seq<Supersession> {
    if files == [] then []
    else
      var f := files[|files| - 1];
      CommittedClaims(mint, provisional, files[..|files| - 1])
      + (if s :| s in provisional && s.path == f.path then [CommittedClaim(mint, s, f)] else [])
  }

  /** `resolve_committed`. */
  method ResolveCommitted(mint: string -> Id, provisional: seq<PriorFile>, committed: seq<NewFile>)
    returns (r: Result<Resolution, CommitError>)
    ensures r.Ok? <==> DistinctRemovedPaths(provisional) && DistinctAddedPaths(committed)
    ensures r.Ok? ==> r.value.ids == map p | p in PathsOf(Elements(committed)) :: mint(p)
    ensures r.Ok? ==>
              r.value.supersessions == CommittedClaims(mint, Elements(provisional), InPathOrder(Elements(committed)))
  {
    var byPath: map<string, PriorFile> := map[];
    for i := 0 to |provisional|
      invariant DistinctRemovedPaths(provisional[..i])
      invariant forall k :: 0 <= k < i ==> provisional[k].path in byPath
      invariant forall p :: p in byPath ==> byPath[p].path == p && byPath[p] in provisional[..i]
    {
      if provisional[i].path in byPath {
        assert !DistinctRemovedPaths(provisional);
        return Err(DuplicateProvisionalPath);
      }
      byPath := byPath[provisional[i].path := provisional[i]];
      assert provisional[..i + 1] == provisional[..i] + [provisional[i]];
    }
    assert provisional[..|provisional|] == provisional;
    var ordered := Sort(committed, PathBefore());
    SortedKeepsDistinctness([], committed);
    SortElements(committed, PathBefore());
    r := CommitInOrder(mint, provisional, byPath, ordered);
    if r.Ok? {
      SortedIsInPathOrder(committed);
    }
  }

  method CommitInOrder(mint: string -> Id, ghost provisional: seq<PriorFile>, byPath: map<string, PriorFile>,
                       ordered: seq<NewFile>)
    returns (r: Result<Resolution, CommitError>)
    requires DistinctRemovedPaths(provisional)
    requires forall s :: s in provisional ==> s.path in byPath
    requires forall p :: p in byPath ==> byPath[p].path == p && byPath[p] in provisional
    ensures r.Ok? <==> DistinctAddedPaths(ordered)
    ensures r.Ok? ==> r.value == Resolution(map p | p in PathsOf(Elements(ordered)) :: mint(p),
                                            CommittedClaims(mint, Elements(provisional), ordered))
  {
    hide DistinctAddedPaths, DistinctRemovedPaths, CommittedClaims, CommittedClaim, PathsOf, Elements;
    var ids: map<string, Id> := map[];
    var supersessions: seq<Supersession> := [];
    CommitsNothing(mint, provisional, ordered);
    for i := 0 to |ordered|
      invariant DistinctAddedPaths(ordered[..i])
      invariant ids == map p | p in PathsOf(Elements(ordered[..i])) :: mint(p)
      invariant supersessions == CommittedClaims(mint, Elements(provisional), ordered[..i])
    {
      var f := ordered[i];
      PathsOfNext(ordered, i);
      if f.path in ids {
        RepeatedPath(ordered, i);
        return Err(DuplicateCommittedPath);
      }
      ids := ids[f.path := mint(f.path)];
      CommittedClaimsNext(mint, provisional, byPath, ordered, i);
      NewPathIsDistinct(ordered, i);
      if f.path in byPath {
        supersessions := supersessions + [CommittedClaim(mint, byPath[f.path], f)];
      }
    }
    assert ordered[..|ordered|] == ordered;
    return Ok(Resolution(ids, supersessions));
  }

  lemma CommitsNothing(mint: string -> Id, provisional: seq<PriorFile>, ordered: seq<NewFile>)
    ensures DistinctAddedPaths(ordered[..0]) && PathsOf(Elements(ordered[..0])) == {}
    ensures CommittedClaims(mint, Elements(provisional), ordered[..0]) == []
  {}

  lemma CommittedClaimsNext(mint: string -> Id, provisional: seq<PriorFile>, byPath: map<string, PriorFile>,
                            ordered: seq<NewFile>, i: nat)
    requires DistinctRemovedPaths(provisional) && i < |ordered|
    requires forall s :: s in provisional ==> s.path in byPath
    requires forall p :: p in byPath ==> byPath[p].path == p && byPath[p] in provisional
    ensures CommittedClaims(mint, Elements(provisional), ordered[..i + 1])
         == CommittedClaims(mint, Elements(provisional), ordered[..i])
            + (if ordered[i].path in byPath then [CommittedClaim(mint, byPath[ordered[i].path], ordered[i])] else [])
  {
    hide CommittedClaim, DistinctRemovedPaths;
    assert ordered[..i + 1][..i] == ordered[..i];
    if ordered[i].path in byPath { OnlyCounterpart(provisional, byPath[ordered[i].path]); }
  }

  lemma PathsOfNext(ordered: seq<NewFile>, i: nat)
    requires i < |ordered|
    ensures PathsOf(Elements(ordered[..i + 1])) == PathsOf(Elements(ordered[..i])) + {ordered[i].path}
  {
    assert Elements(ordered[..i + 1]) == Elements(ordered[..i]) + {ordered[i]};
  }

  lemma RepeatedPath(ordered: seq<NewFile>, i: nat)
    requires i < |ordered| && ordered[i].path in PathsOf(Elements(ordered[..i]))
    ensures !DistinctAddedPaths(ordered)
  {
    var f :| f in Elements(ordered[..i]) && f.path == ordered[i].path;
    var k :| 0 <= k < i && ordered[..i][k] == f;
    assert ordered[k].path == ordered[i].path;
  }

  lemma NewPathIsDistinct(ordered: seq<NewFile>, i: nat)
    requires i < |ordered| && DistinctAddedPaths(ordered[..i]) && ordered[i].path !in PathsOf(Elements(ordered[..i]))
    ensures DistinctAddedPaths(ordered[..i + 1])
  {
    forall k | 0 <= k < i ensures ordered[k].path != ordered[i].path {
      assert ordered[..i][k] in Elements(ordered[..i]);
    }
    forall j, k | 0 <= j < k < i ensures ordered[j].path != ordered[k].path {
      assert ordered[..i][j].path != ordered[..i][k].path;
    }
  }

  lemma OnlyCounterpart(provisional: seq<PriorFile>, s: PriorFile)
    requires DistinctRemovedPaths(provisional) && s in provisional
    ensures s in Elements(provisional) && forall t :: t in Elements(provisional) && t.path == s.path ==> t == s
  {
    forall t | t in Elements(provisional) && t.path == s.path ensures t == s {
      var i :| 0 <= i < |provisional| && provisional[i] == s;
      var j :| 0 <= j < |provisional| && provisional[j] == t;
    }
  }
}

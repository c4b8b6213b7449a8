/** File lineage over a first-parent history: the tracked tree as a function of the trees alone, and what
    every history keeps. */
module Lineage {
  import opened Identity
  import opened Orders

  /** Where a lineage began. */
  datatype Origin = Origin(path: string, commit: string, blob: string)
  datatype Live = Live(id: Id, origin: Origin, blob: string)

  /** The tracked files and the deleted lineages. */
  datatype Tracked = Tracked(live: map<string, Live>, dead: map<string, Id>)

  const NO_BLOB: string := "0000000000000000000000000000000000000000"

  /** The safe, non-gitlink paths of a tree with their blob OIDs. */
  type Files = map<string, string>

  /** One commit of the chain and the files of its tree. */
  datatype Commit = Commit(oid: string, files: Files)

  const Untracked := Tracked(map[], map[])

  // ---- one commit ------------------------------------------------------------------------------

  predicate Leaves(live: map<string, Live>, files: Files, q: string) {
    q in live && q !in files
  }

  predicate Appears(live: map<string, Live>, files: Files, p: string) {
    p in files && p !in live
  }

  /** The lineage at `q` continues at `p`: the only leaving and the only appearing path of that blob. */
  ghost predicate Continues(live: map<string, Live>, files: Files, q: string, p: string) {
    && Leaves(live, files, q) && Appears(live, files, p) && live[q].blob == files[p]
    && (forall r :: Leaves(live, files, r) && live[r].blob == files[p] ==> r == q)
    && (forall r :: Appears(live, files, r) && files[r] == files[p] ==> r == p)
  }

  ghost predicate HasSource(live: map<string, Live>, files: Files, p: string) {
    exists q :: Continues(live, files, q, p)
  }

  ghost predicate HasTarget(live: map<string, Live>, files: Files, q: string) {
    exists p :: Continues(live, files, q, p)
  }

  ghost function Arrival(fid: (string, string) -> Id, commit: string, live: map<string, Live>, files: Files,
                         p: string): Live
    requires Appears(live, files, p)
  {
    if HasSource(live, files, p)
    then (var q :| Continues(live, files, q, p); Live(live[q].id, live[q].origin, files[p]))
    else Live(fid(p, commit), Origin(p, commit, files[p]), files[p])
  }

  ghost function NextLive(fid: (string, string) -> Id, commit: string, live: map<string, Live>,
                          files: Files): map<string, Live> {
    map p | p in files :: if p in live then live[p].(blob := files[p]) else Arrival(fid, commit, live, files, p)
  }

  ghost predicate StaysDead(s: Tracked, files: Files, p: string) {
    p in s.dead && !Appears(s.live, files, p)
  }

  ghost predicate Dies(s: Tracked, files: Files, p: string) {
    Leaves(s.live, files, p) && !HasTarget(s.live, files, p)
  }

  ghost function NextDead(s: Tracked, files: Files): map<string, Id> {
    map p | p in s.dead.Keys + s.live.Keys && (StaysDead(s, files, p) || Dies(s, files, p)) ::
      if Dies(s, files, p) then s.live[p].id else s.dead[p]
  }

  /** One commit, as a function of the tracked state and the new tree only. */
  ghost function Advance(fid: (string, string) -> Id, commit: string, s: Tracked, files: Files): Tracked {
    Tracked(NextLive(fid, commit, s.live, files), NextDead(s, files))
  }

  /** The state after a chain of commits. */
  ghost function After(fid: (string, string) -> Id, chain: seq<Commit>): Tracked {
    if chain == [] then Untracked
    else
      var last := chain[|chain| - 1];
      Advance(fid, last.oid, After(fid, chain[..|chain| - 1]), last.files)
  }

  // ---- the invariant ---------------------------------------------------------------------------

  ghost predicate InjectiveIds(fid: (string, string) -> Id) {
    forall p, c, q, d :: fid(p, c) == fid(q, d) ==> p == q && c == d
  }

  function LiveIds(live: map<string, Live>): set<Id> {
    set p | p in live :: live[p].id
  }

  ghost predicate DistinctLive(live: map<string, Live>) {
    forall p, q :: p in live && q in live && live[p].id == live[q].id ==> p == q
  }

  ghost predicate DistinctDead(dead: map<string, Id>) {
    forall p, q :: p in dead && q in dead && dead[p] == dead[q] ==> p == q
  }

  /** An ID minted by a commit already walked. */
  ghost predicate Born(fid: (string, string) -> Id, seen: set<string>, id: Id) {
    exists p, c :: c in seen && id == fid(p, c)
  }

  /** `gone` holds every ID that ever stopped being live. */
  ghost predicate Inv(fid: (string, string) -> Id, seen: set<string>, gone: set<Id>, s: Tracked) {
    && s.live.Keys !! s.dead.Keys
    && DistinctLive(s.live) && DistinctDead(s.dead)
    && (forall p :: p in s.live ==> s.live[p].id !in gone)
    && (forall p :: p in s.dead ==> s.dead[p] in gone)
    && (forall p :: p in s.live ==>
        s.live[p].id == fid(s.live[p].origin.path, s.live[p].origin.commit) && s.live[p].origin.commit in seen)
    && (forall id :: id in gone ==> Born(fid, seen, id))
  }

  function NextGone(gone: set<Id>, live: map<string, Live>, live': map<string, Live>): set<Id> {
    gone + (LiveIds(live) - LiveIds(live'))
  }

  /** The three ways a path can be live. */
  lemma LiveCases(fid: (string, string) -> Id, commit: string, live: map<string, Live>, files: Files, p: string)
    returns (q: string)
    requires p in files
    ensures var x := NextLive(fid, commit, live, files)[p];
            && x.blob == files[p]
            && ((p in live && q == p && x.id == live[p].id && x.origin == live[p].origin)
                || (Continues(live, files, q, p) && x.id == live[q].id && x.origin == live[q].origin)
                || (Appears(live, files, p) && !HasSource(live, files, p) && x.id == fid(p, commit)
                    && x.origin == Origin(p, commit, files[p])))
  {
    q := p;
    if p !in live && HasSource(live, files, p) {
      q :| Continues(live, files, q, p)
        && NextLive(fid, commit, live, files)[p] == Live(live[q].id, live[q].origin, files[p]);
    }
  }

  lemma NotMintedBefore(fid: (string, string) -> Id, seen: set<string>, p: string, commit: string)
    requires InjectiveIds(fid) && commit !in seen
    ensures !Born(fid, seen, fid(p, commit))
  {}

  lemma LiveIdsBorn(fid: (string, string) -> Id, seen: set<string>, gone: set<Id>, s: Tracked)
    requires Inv(fid, seen, gone, s)
    ensures forall p :: p in s.live ==> Born(fid, seen, s.live[p].id)
  {}

  lemma NextLiveDistinct(fid: (string, string) -> Id, seen: set<string>, gone: set<Id>, commit: string, s: Tracked,
                         files: Files)
    requires InjectiveIds(fid) && commit !in seen && Inv(fid, seen, gone, s)
    ensures DistinctLive(NextLive(fid, commit, s.live, files))
  {
    hide InjectiveIds, NextLive, Born;
    var live' := NextLive(fid, commit, s.live, files);
    NextLiveKeys(fid, commit, s.live, files);
    LiveIdsBorn(fid, seen, gone, s);
    forall p, q | p in files && q in files && live'[p].id == live'[q].id ensures p == q {
      var a := LiveCases(fid, commit, s.live, files, p);
      var b := LiveCases(fid, commit, s.live, files, q);
      NotMintedBefore(fid, seen, p, commit);
      NotMintedBefore(fid, seen, q, commit);
      if live'[p].id == fid(p, commit) && live'[q].id == fid(q, commit) {
        SameMint(fid, p, q, commit);
      }
    }
  }

  lemma SameMint(fid: (string, string) -> Id, p: string, q: string, commit: string)
    requires InjectiveIds(fid) && fid(p, commit) == fid(q, commit)
    ensures p == q
  {}

  lemma NextLiveKeys(fid: (string, string) -> Id, commit: string, live: map<string, Live>, files: Files)
    ensures NextLive(fid, commit, live, files).Keys == files.Keys
    ensures forall p :: p in files ==> NextLive(fid, commit, live, files)[p].blob == files[p]
  {
    forall p | p in files ensures NextLive(fid, commit, live, files)[p].blob == files[p] {
      var q := LiveCases(fid, commit, live, files, p);
    }
  }

  /** A lineage that leaves with a target is still live; one that leaves without is not. */
  lemma LeavingIds(fid: (string, string) -> Id, seen: set<string>, gone: set<Id>, commit: string, s: Tracked,
                   files: Files, q: string)
    requires InjectiveIds(fid) && commit !in seen && Inv(fid, seen, gone, s) && Dies(s, files, q)
    ensures s.live[q].id !in LiveIds(NextLive(fid, commit, s.live, files))
  {
    hide NextLive, InjectiveIds, Born;
    var live' := NextLive(fid, commit, s.live, files);
    NextLiveKeys(fid, commit, s.live, files);
    LiveIdsBorn(fid, seen, gone, s);
    forall p | p in live' ensures live'[p].id != s.live[q].id {
      var a := LiveCases(fid, commit, s.live, files, p);
      NotMintedBefore(fid, seen, p, commit);
    }
  }

  /** No live ID after the commit was gone before it. */
  lemma NothingReturns(fid: (string, string) -> Id, seen: set<string>, gone: set<Id>, commit: string, s: Tracked,
                       files: Files, p: string)
    requires InjectiveIds(fid) && commit !in seen && Inv(fid, seen, gone, s) && p in files
    ensures NextLive(fid, commit, s.live, files)[p].id !in gone
    ensures var x := NextLive(fid, commit, s.live, files)[p];
            x.id == fid(x.origin.path, x.origin.commit) && x.origin.commit in seen + {commit}
  {
    hide NextLive, InjectiveIds, Born;
    var a := LiveCases(fid, commit, s.live, files, p);
    NotMintedBefore(fid, seen, p, commit);
  }

  lemma BornGrows(fid: (string, string) -> Id, seen: set<string>, commit: string, id: Id)
    requires Born(fid, seen, id)
    ensures Born(fid, seen + {commit}, id)
  {
    var p, c :| c in seen && id == fid(p, c);
    assert c in seen + {commit};
  }

  lemma NextDeadDistinct(fid: (string, string) -> Id, seen: set<string>, gone: set<Id>, s: Tracked, files: Files)
    requires Inv(fid, seen, gone, s)
    ensures DistinctDead(NextDead(s, files))
    ensures NextDead(s, files).Keys !! files.Keys
  {
    hide Born;
  }

  /** One commit keeps the invariant. */
  lemma AdvanceKeepsInv(fid: (string, string) -> Id, seen: set<string>, gone: set<Id>, commit: string, s: Tracked,
                        files: Files)
    requires InjectiveIds(fid) && commit !in seen && Inv(fid, seen, gone, s)
    ensures var s' := Advance(fid, commit, s, files);
            Inv(fid, seen + {commit}, NextGone(gone, s.live, s'.live), s')
  {
    hide NextLive, InjectiveIds, Born, HasTarget, DistinctLive, DistinctDead;
    var s' := Advance(fid, commit, s, files);
    var gone' := NextGone(gone, s.live, s'.live);
    NextLiveKeys(fid, commit, s.live, files);
    NextLiveDistinct(fid, seen, gone, commit, s, files);
    NextDeadDistinct(fid, seen, gone, s, files);
    LiveIdsBorn(fid, seen, gone, s);
    forall p | p in s'.live
      ensures s'.live[p].id !in gone'
      ensures s'.live[p].id == fid(s'.live[p].origin.path, s'.live[p].origin.commit)
              && s'.live[p].origin.commit in seen + {commit}
    {
      NothingReturns(fid, seen, gone, commit, s, files, p);
      assert s'.live[p].id in LiveIds(s'.live);
    }
    forall p | p in s'.dead ensures s'.dead[p] in gone' {
      if Dies(s, files, p) {
        LeavingIds(fid, seen, gone, commit, s, files, p);
        assert s.live[p].id in LiveIds(s.live);
      }
    }
    forall id | id in gone' ensures Born(fid, seen + {commit}, id) {
      BornGrows(fid, seen, commit, id);
    }
  }

  // ---- whole histories -------------------------------------------------------------------------

  ghost predicate DistinctCommits(chain: seq<Commit>) {
    forall i, j :: 0 <= i < j < |chain| ==> chain[i].oid != chain[j].oid
  }

  function Seen(chain: seq<Commit>): set<string> {
    set i | 0 <= i < |chain| :: chain[i].oid
  }

  /** Every ID that was live after some commit of the chain and not after a later one. */
  ghost function Gone(fid: (string, string) -> Id, chain: seq<Commit>): set<Id> {
    if chain == [] then {}
    else NextGone(Gone(fid, chain[..|chain| - 1]), After(fid, chain[..|chain| - 1]).live, After(fid, chain).live)
  }

  lemma SeenNext(chain: seq<Commit>)
    requires chain != [] && DistinctCommits(chain)
    ensures var n := |chain| - 1;
            && DistinctCommits(chain[..n]) && chain[n].oid !in Seen(chain[..n])
            && Seen(chain) == Seen(chain[..n]) + {chain[n].oid}
  {
    var n := |chain| - 1;
    forall x ensures x in Seen(chain) <==> x in Seen(chain[..n]) + {chain[n].oid} {
      if x in Seen(chain) {
        var i :| 0 <= i < |chain| && chain[i].oid == x;
        if i < n { assert chain[..n][i].oid == x; }
      }
      if x in Seen(chain[..n]) {
        var i :| 0 <= i < n && chain[..n][i].oid == x;
        assert chain[i].oid == x;
      }
    }
  }

  /** SAFETY. After any chain of distinct commits, the live paths are exactly the files of the last tree
      with their blobs; live and dead IDs are pairwise distinct; every live ID is the one minted for its
      recorded origin; and no ID that ever stopped being live is live again. */
  lemma {:induction false} EveryHistoryIsSafe(fid: (string, string) -> Id, chain: seq<Commit>)
    requires InjectiveIds(fid) && DistinctCommits(chain)
    ensures Inv(fid, Seen(chain), Gone(fid, chain), After(fid, chain))
    ensures chain != [] ==> After(fid, chain).live.Keys == chain[|chain| - 1].files.Keys
    ensures chain != [] ==> forall p :: p in After(fid, chain).live ==>
              After(fid, chain).live[p].blob == chain[|chain| - 1].files[p]
  {
    hide Inv, Advance, NextGone, InjectiveIds, DistinctCommits;
    if chain == [] {
      NothingTracked(fid);
    } else {
      var n := |chain| - 1;
      SeenNext(chain);
      EveryHistoryIsSafe(fid, chain[..n]);
      AdvanceKeepsInv(fid, Seen(chain[..n]), Gone(fid, chain[..n]), chain[n].oid, After(fid, chain[..n]),
          chain[n].files);
      AdvancedTree(fid, chain[n], After(fid, chain[..n]));
    }
  }

  lemma NothingTracked(fid: (string, string) -> Id)
    ensures Inv(fid, Seen([]), Gone(fid, []), After(fid, []))
  {}

  lemma AdvancedTree(fid: (string, string) -> Id, c: Commit, s: Tracked)
    ensures var s' := Advance(fid, c.oid, s, c.files);
            s'.live.Keys == c.files.Keys && forall p :: p in s'.live ==> s'.live[p].blob == c.files[p]
  {
    hide NextLive;
    NextLiveKeys(fid, c.oid, s.live, c.files);
  }

  /** An ID live after `i` commits and not after `j` is gone by then. */
  lemma {:induction false} DeathIsRecorded(fid: (string, string) -> Id, chain: seq<Commit>, i: nat, id: Id)
    requires i <= |chain|
    requires id in LiveIds(After(fid, chain[..i]).live) || id in Gone(fid, chain[..i])
    ensures id in LiveIds(After(fid, chain).live) || id in Gone(fid, chain)
    ensures id in Gone(fid, chain[..i]) ==> id in Gone(fid, chain)
  {
    hide Advance;
    if i < |chain| {
      var n := |chain| - 1;
      assert chain[..n][..i] == chain[..i];
      DeathIsRecorded(fid, chain[..n], i, id);
    } else {
      assert chain[..i] == chain;
    }
  }

  /** NO RESURRECTION. An ID live after `i` commits and not live after `j` is live after no later one. */
  lemma NoResurrection(fid: (string, string) -> Id, chain: seq<Commit>, i: nat, j: nat, id: Id)
    requires InjectiveIds(fid) && DistinctCommits(chain) && i <= j <= |chain|
    requires id in LiveIds(After(fid, chain[..i]).live) && id !in LiveIds(After(fid, chain[..j]).live)
    ensures id !in LiveIds(After(fid, chain).live)
  {
    hide After, Gone, InjectiveIds, DistinctCommits;
    assert chain[..j][..i] == chain[..i];
    DeathIsRecorded(fid, chain[..j], i, id);
    DeathIsRecorded(fid, chain, j, id);
    EveryHistoryIsSafe(fid, chain);
    assert forall p :: p in After(fid, chain).live ==> After(fid, chain).live[p].id !in Gone(fid, chain);
  }

  /** A commit that added a path with a blob. */
  predicate Introduces(chain: seq<Commit>, k: int, o: Origin) {
    && 0 <= k < |chain| && chain[k].oid == o.commit
    && o.path in chain[k].files && chain[k].files[o.path] == o.blob
    && (k == 0 || o.path !in chain[k - 1].files)
  }

  /** ORIGINS. The recorded origin of every live file is a commit of the chain that added the origin path
      with the recorded blob. */
  lemma {:induction false} OriginsAreAdditions(fid: (string, string) -> Id, chain: seq<Commit>, p: string)
    requires InjectiveIds(fid) && DistinctCommits(chain) && p in After(fid, chain).live
    ensures exists k :: Introduces(chain, k, After(fid, chain).live[p].origin)
  {
    hide Advance, InjectiveIds, DistinctCommits, Introduces, Inv;
    var n := |chain| - 1;
    var before, last := After(fid, chain[..n]), chain[n];
    SeenNext(chain);
    var q := OriginStep(fid, last, before, p);
    var o := After(fid, chain).live[p].origin;
    if q in before.live && o == before.live[q].origin {
      OriginsAreAdditions(fid, chain[..n], q);
      var k :| Introduces(chain[..n], k, o);
      IntroducedEarlier(chain, k, o);
    } else {
      EveryHistoryIsSafe(fid, chain[..n]);
      IntroducedNow(chain, before, p);
    }
  }

  lemma OriginStep(fid: (string, string) -> Id, c: Commit, s: Tracked, p: string) returns (q: string)
    requires p in Advance(fid, c.oid, s, c.files).live
    ensures var o := Advance(fid, c.oid, s, c.files).live[p].origin;
            (q in s.live && o == s.live[q].origin)
            || (p in c.files && p !in s.live && o == Origin(p, c.oid, c.files[p]))
  {
    hide NextLive, Continues;
    NextLiveKeys(fid, c.oid, s.live, c.files);
    q := LiveCases(fid, c.oid, s.live, c.files, p);
    if Continues(s.live, c.files, q, p) { ContinuesFromLive(s.live, c.files, q, p); }
  }

  lemma IntroducedEarlier(chain: seq<Commit>, k: int, o: Origin)
    requires chain != [] && Introduces(chain[..|chain| - 1], k, o)
    ensures Introduces(chain, k, o)
  {}

  lemma IntroducedNow(chain: seq<Commit>, before: Tracked, p: string)
    requires chain != [] && p in chain[|chain| - 1].files && p !in before.live
    requires |chain| > 1 ==> before.live.Keys == chain[..|chain| - 1][|chain| - 2].files.Keys
    ensures Introduces(chain, |chain| - 1, Origin(p, chain[|chain| - 1].oid, chain[|chain| - 1].files[p]))
  {}

  lemma ContinuesFromLive(live: map<string, Live>, files: Files, q: string, p: string)
    requires Continues(live, files, q, p)
    ensures q in live
  {}

  // ---- what an ID follows ----------------------------------------------------------------------

  /** The file at `q` in one tree is the file at `p` in the next: kept in place, or the one removed and the one
      added path of its blob. */
  ghost predicate SameFile(a: Files, b: Files, q: string, p: string) {
    && q in a && p in b
    && (p == q
        || (&& q !in b && p !in a && a[q] == b[p]
            && (forall r :: r in a && r !in b && a[r] == b[p] ==> r == q)
            && (forall r :: r in b && r !in a && b[r] == b[p] ==> r == p)))
  }

  lemma AdvancedIdIsKept(fid: (string, string) -> Id, seen: set<string>, gone: set<Id>, commit: string, s: Tracked,
                         files: Files, q: string, p: string)
    requires InjectiveIds(fid) && commit !in seen && Inv(fid, seen, gone, s) && q in s.live && p in files
    ensures NextLive(fid, commit, s.live, files)[p].id == s.live[q].id
            <==> (p in s.live && q == p) || Continues(s.live, files, q, p)
  {
    hide InjectiveIds, NextLive, Born;
    var a := LiveCases(fid, commit, s.live, files, p);
    LiveIdsBorn(fid, seen, gone, s);
    NotMintedBefore(fid, seen, p, commit);
  }

  /** IDENTITY. From one commit to the next a file has the ID of an earlier one iff it is the same file, by the two
      trees alone: a path kept in place keeps its ID whatever becomes of its content, a blob moved from one path to
      one other takes its ID along, and nothing else does. */
  lemma IdentityFollowsTheTrees(fid: (string, string) -> Id, chain: seq<Commit>, q: string, p: string)
    requires InjectiveIds(fid) && DistinctCommits(chain) && |chain| >= 2
    ensures var n := |chain| - 1;
            var before, after := After(fid, chain[..n]).live, After(fid, chain).live;
            && (q in before <==> q in chain[n - 1].files) && (p in after <==> p in chain[n].files)
            && (q in before && p in after ==>
                  (after[p].id == before[q].id <==> SameFile(chain[n - 1].files, chain[n].files, q, p)))
  {
    hide InjectiveIds, NextLive, NextDead, Inv, DistinctCommits;
    var n := |chain| - 1;
    var s, a, b := After(fid, chain[..n]), chain[n - 1].files, chain[n].files;
    SeenNext(chain);
    EveryHistoryIsSafe(fid, chain[..n]);
    EveryHistoryIsSafe(fid, chain);
    assert chain[..n][n - 1] == chain[n - 1];
    if q in s.live && p in b {
      AdvancedIdIsKept(fid, Seen(chain[..n]), Gone(fid, chain[..n]), chain[n].oid, s, b, q, p);
      assert forall r :: Leaves(s.live, b, r) <==> r in a && r !in b;
      assert forall r :: Appears(s.live, b, r) <==> r in b && r !in a;
    }
  }
}

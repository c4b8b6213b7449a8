/** The whole walk and the links it makes: what is derived depends on the trees of the history alone, and
    linking uncommitted files to it can never find it inconsistent. */
module LineageDerive {
  import opened Identity
  import opened Keyset
  import opened Lineage
  import opened LineageClaims
  import opened LineageWalk
  import opened Orders
  import opened Renames

  ghost function TreeBefore(steps: seq<Step>, i: nat): Tree
    requires i <= |steps|
  {
    if i == 0 then map[] else steps[i - 1].tree
  }

  /** Every commit's records describe the difference to the previous tree, paired as Git liked. */
  ghost predicate IsHistory(safe: string -> bool, steps: seq<Step>) {
    && DistinctCommits(ChainOf(safe, steps))
    && forall i :: 0 <= i < |steps| ==>
         && IsDiff(TreeBefore(steps, i), steps[i].tree, steps[i].changes)
         && Reports(safe, steps[i].changes, steps[i].records)
         && forall p :: p in FilesOf(safe, steps[i].tree) ==> FilesOf(safe, steps[i].tree)[p] != NO_BLOB
  }

  datatype HistoryError = HistoryTooLarge

  /** The walk. The derived state is the one the trees determine: replacing a rename by a deletion and an
      addition, a copy by an addition, changing scores or reordering records cannot change it. */
  method Walk(fid: (string, string) -> Id, steps: seq<Step>, maxCommits: nat, ghost safe: string -> bool)
    returns (r: Result<State, HistoryError>)
    requires InjectiveIds(fid) && IsHistory(safe, steps)
    ensures r.Ok? <==> |steps| <= maxCommits
    ensures r.Ok? ==> fresh(r.value) && r.value.fid == fid && r.value.Value() == After(fid, ChainOf(safe, steps))
    ensures r.Ok? ==> r.value.supersessions == ClaimsOfWalk(fid, safe, steps)
  {
    hide After, InjectiveIds, IsDiff, Reports, FilesOf, Inv, Gone, Seen, Advance, CommitClaims, ClaimsOfWalk;
    if |steps| > maxCommits {
      return Err(HistoryTooLarge);
    }
    var state := new State(fid);
    ghost var chain := ChainOf(safe, steps);
    NothingWalked(fid, safe, chain, steps, state.live);
    for i := 0 to |steps|
      invariant fresh(state) && state.fid == fid && state.Value() == After(fid, chain[..i])
      invariant Tracks(state.live, FilesOf(safe, TreeBefore(steps, i)))
      invariant state.supersessions == ClaimsOfWalk(fid, safe, steps[..i])
    {
      ghost var done := chain[..i];
      WalkReady(fid, chain, i);
      var applied := state.Apply(steps[i].oid, steps[i].records, safe, TreeBefore(steps, i), steps[i].tree,
                                 steps[i].changes, Seen(done), Gone(fid, done));
      AfterNext(fid, chain, i);
      ClaimsNext(fid, safe, steps, i);
      AdvancedTree(fid, chain[i], After(fid, done));
    }
    assert chain[..|steps|] == chain && steps[..|steps|] == steps;
    return Ok(state);
  }

  lemma ClaimsNext(fid: (string, string) -> Id, safe: string -> bool, steps: seq<Step>, i: nat)
    requires i < |steps|
    ensures ClaimsOfWalk(fid, safe, steps[..i + 1])
         == ClaimsOfWalk(fid, safe, steps[..i])
            + CommitClaims(fid, steps[i].oid, After(fid, ChainOf(safe, steps)[..i]), FilesOf(safe, steps[i].tree),
                steps[i].records)
  {
    hide CommitClaims, After, FilesOf;
    assert steps[..i + 1][..i] == steps[..i];
    assert ChainOf(safe, steps[..i]) == ChainOf(safe, steps)[..i];
  }

  lemma NothingWalked(fid: (string, string) -> Id, safe: string -> bool, chain: seq<Commit>, steps: seq<Step>,
                      live: map<string, Live>)
    ensures After(fid, chain[..0]) == Untracked && ClaimsOfWalk(fid, safe, steps[..0]) == []
    ensures live == map[] ==> Tracks(live, FilesOf(safe, map[]))
  {}

  lemma AfterNext(fid: (string, string) -> Id, chain: seq<Commit>, i: nat)
    requires i < |chain|
    ensures After(fid, chain[..i + 1]) == Advance(fid, chain[i].oid, After(fid, chain[..i]), chain[i].files)
  {
    assert chain[..i + 1][..i] == chain[..i];
  }

  lemma WalkReady(fid: (string, string) -> Id, chain: seq<Commit>, i: nat)
    requires InjectiveIds(fid) && DistinctCommits(chain) && i < |chain|
    ensures SafeStart(fid, Seen(chain[..i]), Gone(fid, chain[..i]), After(fid, chain[..i]))
    ensures chain[i].oid !in Seen(chain[..i])
  {
    hide Inv, Gone, After, InjectiveIds;
    EveryHistoryIsSafe(fid, chain[..i]);
  }

  // ---- the derived lineage ---------------------------------------------------------------------

  /** The lineage of every file of the target tree, by current path. */
  datatype Derived = Derived(logicalIds: map<string, Id>, origins: map<string, Origin>,
                             supersessions: seq<Supersession>, commitsWalked: nat)

  function IdsOf(live: map<string, Live>): map<string, Id> {
    map p | p in live :: live[p].id
  }

  function OriginsOf(live: map<string, Live>): map<string, Origin> {
    map p | p in live :: live[p].origin
  }

  /** Every ID is the one minted for its origin. */
  ghost predicate Consistent(fid: (string, string) -> Id, d: Derived) {
    d.logicalIds.Keys == d.origins.Keys
    && forall p :: p in d.origins ==> d.logicalIds[p] == fid(d.origins[p].path, d.origins[p].commit)
  }

  /** `derive_lineage`. The target tree's files with the IDs and origins the trees determine, every ID the one
      minted for its origin, and, in order, exactly the claims of the walk whose new ID is still live. */
  method DeriveLineage(fid: (string, string) -> Id, steps: seq<Step>, maxCommits: nat, ghost safe: string -> bool)
    returns (r: Result<Derived, HistoryError>)
    requires InjectiveIds(fid) && IsHistory(safe, steps)
    ensures r.Ok? <==> |steps| <= maxCommits
    ensures r.Ok? ==>
              var live := After(fid, ChainOf(safe, steps)).live;
              && r.value.logicalIds == IdsOf(live) && r.value.origins == OriginsOf(live) && Consistent(fid, r.value)
              && r.value.commitsWalked == |steps|
              && StrictlySorted(r.value.supersessions, ClaimBefore())
              && forall x :: x in r.value.supersessions <==>
                             x in ClaimsOfWalk(fid, safe, steps) && x.newId in r.value.logicalIds.Values
  {
    hide After, InjectiveIds, IsDiff, Reports, FilesOf, Inv, Gone, Seen, ClaimsOfWalk, ClaimBefore, LastOfKey;
    var walked := Walk(fid, steps, maxCommits, safe);
    if walked.Err? {
      return Err(walked.error);
    }
    var state := walked.value;
    var ids := IdsOf(state.live);
    var kept := KeptClaims(state.supersessions, ids.Values);
    KeptAreLive(fid, safe, steps, ids.Values, kept);
    EveryHistoryIsSafe(fid, ChainOf(safe, steps));
    LiveIdsMinted(fid, ChainOf(safe, steps));
    return Ok(Derived(ids, OriginsOf(state.live), kept, |steps|));
  }

  lemma LiveIdsMinted(fid: (string, string) -> Id, chain: seq<Commit>)
    requires Inv(fid, Seen(chain), Gone(fid, chain), After(fid, chain))
    ensures var live := After(fid, chain).live;
            forall p :: p in live ==> live[p].id == fid(live[p].origin.path, live[p].origin.commit)
  {
    hide After, Gone;
  }

  /** IDS. With `file_logical_id` as the derivation, every live ID of every history is `file_logical_id` of
      its recorded origin, given injective UUIDv5. */
  lemma EveryIdIsItsOrigins(d: Derivation, repository: string, chain: seq<Commit>, p: string)
    requires Injective(d) && DistinctCommits(chain)
    requires p in After(FileIds(d, repository), chain).live
    ensures InjectiveIds(FileIds(d, repository))
    ensures var x := After(FileIds(d, repository), chain).live[p];
            x.id == FileLogicalId(d, repository, x.origin.path, x.origin.commit)
  {
    hide After, Gone, Injective, FileLogicalId, DistinctCommits;
    var fid := FileIds(d, repository);
    FileIdsAreInjective(d, repository);
    EveryHistoryIsSafe(fid, chain);
    LiveIdsMinted(fid, chain);
  }

  function FileIds(d: Derivation, repository: string): (string, string) -> Id {
    (path: string, commit: string) => FileLogicalId(d, repository, path, commit)
  }

  lemma FileIdsAreInjective(d: Derivation, repository: string)
    requires Injective(d)
    ensures InjectiveIds(FileIds(d, repository))
  {
    hide IdOf, Injective;
    var fid := FileIds(d, repository);
    forall p, c, q, e | fid(p, c) == fid(q, e) ensures p == q && c == e {
      FileIsSubject(d, repository, p, c);
      FileIsSubject(d, repository, q, e);
      IdentitiesNeverCoincide(d, repository, File(p, c), repository, File(q, e));
    }
  }

  lemma FileIsSubject(d: Derivation, repository: string, p: string, c: string)
    ensures IdOf(d, repository, File(p, c)) == FileLogicalId(d, repository, p, c)
  {}

  // ---- linking uncommitted files ---------------------------------------------------------------

  ghost predicate BeganAt(origins: map<string, Origin>, origin: string, p: string) {
    p in origins && origins[p].path == origin
  }

  /** Of the live lineages that began at a path, the one whose current path sorts last. */
  ghost predicate LastBegunAt(origins: map<string, Origin>, origin: string, p: string) {
    BeganAt(origins, origin, p) && forall q :: BeganAt(origins, origin, q) ==> q == p || Less(q, p)
  }

  ghost predicate LinksFor(d: Derived, item: PriorFile, links: seq<Supersession>)
    requires d.origins.Keys == d.logicalIds.Keys
  {
    if p :| LastBegunAt(d.origins, item.path, p) then
      links == [if item.blob == d.origins[p].blob then Supersession(item.id, d.logicalIds[p], 1.0, ProvisionalCommitted)
                else Supersession(item.id, d.logicalIds[p], 0.5, ProvisionalPathMatch)]
    else links == []
  }

  /** One list of links per item, concatenated. */
  ghost predicate LinksOf(d: Derived, items: seq<PriorFile>, links: seq<Supersession>)
    requires d.origins.Keys == d.logicalIds.Keys
    decreases |items|
  {
    if items == [] then links == []
    else
      exists k ::
        && 0 <= k <= |links|
        && LinksOf(d, items[..|items| - 1], links[..k]) && LinksFor(d, items[|items| - 1], links[k..])
  }

  datatype LinkError = LineageInconsistent

  function OriginOf(origins: map<string, Origin>, p: string): string {
    if p in origins then origins[p].path else ""
  }

  /** `at` holds the last position of each origin path in the list. */
  ghost predicate LastPositions(origins: map<string, Origin>, order: seq<string>, byOrigin: map<string, string>,
                                at: map<string, nat>) {
    && byOrigin.Keys == at.Keys
    && (forall o :: o in at ==> at[o] < |order| && order[at[o]] == byOrigin[o] && OriginOf(origins, order[at[o]]) == o)
    && (forall k :: 0 <= k < |order| ==> OriginOf(origins, order[k]) in at && k <= at[OriginOf(origins, order[k])])
  }

  /** `by_origin`: later current paths overwrite earlier ones. */
  method ByOrigin(origins: map<string, Origin>) returns (byOrigin: map<string, string>)
    ensures forall o :: o in byOrigin ==> LastBegunAt(origins, o, byOrigin[o])
    ensures forall p :: p in origins ==> origins[p].path in byOrigin
  {
    hide SortedSet, Less, OriginOf, LastPositions, LastBegunAt;
    var order := Smallest(origins.Keys, |origins.Keys|);
    assert order == SortedSet(origins.Keys);
    byOrigin := map[];
    ghost var at: map<string, nat> := map[];
    NoPositions(origins);
    assert order[..0] == [];
    for i := 0 to |order|
      invariant LastPositions(origins, order[..i], byOrigin, at)
    {
      assert order[i] in order;
      assert order[..i + 1] == order[..i] + [order[i]];
      OriginOfKnown(origins, order[i]);
      LastPositionsNext(origins, order[..i], byOrigin, at, order[i]);
      byOrigin := byOrigin[origins[order[i]].path := order[i]];
      at := at[origins[order[i]].path := i];
    }
    assert order[..|order|] == order;
    LastPositionsMeaning(origins, order, byOrigin, at);
  }

  lemma NoPositions(origins: map<string, Origin>)
    ensures LastPositions(origins, [], map[], map[])
  {}

  lemma LastPositionsNext(origins: map<string, Origin>, order: seq<string>, byOrigin: map<string, string>,
                          at: map<string, nat>, p: string)
    requires LastPositions(origins, order, byOrigin, at)
    ensures var o := OriginOf(origins, p);
            LastPositions(origins, order + [p], byOrigin[o := p], at[o := |order|])
  {
    hide OriginOf;
  }

  lemma OriginOfKnown(origins: map<string, Origin>, p: string)
    requires p in origins
    ensures OriginOf(origins, p) == origins[p].path
  {}

  lemma LastPositionsMeaning(origins: map<string, Origin>, order: seq<string>, byOrigin: map<string, string>,
                             at: map<string, nat>)
    requires LastPositions(origins, order, byOrigin, at) && StrictlySorted(order, Less)
    requires forall p :: p in order <==> p in origins
    ensures forall o :: o in byOrigin ==> LastBegunAt(origins, o, byOrigin[o])
    ensures forall p :: p in origins ==> origins[p].path in byOrigin
  {
    hide Less;
    forall p | p in origins
      ensures origins[p].path in byOrigin
      ensures p == byOrigin[origins[p].path] || Less(p, byOrigin[origins[p].path])
    {
      assert p in order;
      var k :| 0 <= k < |order| && order[k] == p;
      assert OriginOf(origins, order[k]) == origins[p].path;
    }
    forall o | o in byOrigin ensures BeganAt(origins, o, byOrigin[o]) {
      assert order[at[o]] in order;
    }
  }

  lemma LastUnique(origins: map<string, Origin>, o: string, p: string, q: string)
    requires LastBegunAt(origins, o, p) && LastBegunAt(origins, o, q)
    ensures p == q
  {
    if p != q {
      LessTransitive(p, q, p);
      LessIrreflexive(p);
    }
  }

  /** `Lineage.link_provisional`. On a derived lineage the inconsistency it guards against cannot occur, and
      each item is linked to the live lineage that began at its path. */
  method LinkProvisional(fid: (string, string) -> Id, d: Derived, items: seq<PriorFile>)
    returns (r: Result<seq<Supersession>, LinkError>)
    requires Consistent(fid, d)
    ensures r.Ok? && LinksOf(d, items, r.value)
  {
    var byOrigin := ByOrigin(d.origins);
    var links: seq<Supersession> := [];
    for i := 0 to |items|
      invariant LinksOf(d, items[..i], links)
    {
      ghost var before := links;
      if items[i].path in byOrigin {
        var path := byOrigin[items[i].path];
        var origin := d.origins[path];
        var resolved := ResolveCommitted(Mint(fid, origin.commit), [items[i]], [NewFile(origin.path, origin.blob)]);
        OneCommitted(Mint(fid, origin.commit), items[i], NewFile(origin.path, origin.blob));
        if resolved.value.ids[origin.path] != d.logicalIds[path] {
          return Err(LineageInconsistent);
        }
        links := links + resolved.value.supersessions;
        LinkedItem(fid, d, items[i], path, resolved.value.supersessions);
      } else {
        NoLinks(d, items[i], byOrigin);
      }
      LinksNext(d, items, i, before, links);
    }
    assert items[..|items|] == items;
    return Ok(links);
  }

  lemma OneCommitted(mint: string -> Id, item: PriorFile, f: NewFile)
    requires item.path == f.path
    ensures PathsOf(Elements([f])) == {f.path}
    ensures CommittedClaims(mint, Elements([item]), InPathOrder(Elements([f]))) == [CommittedClaim(mint, item, f)]
  {
    SortedIsInPathOrder([f]);
    assert Sort([f], PathBefore()) == [f];
    assert [f][..0] == [];
    assert item in Elements([item]);
  }

  lemma LinkedItem(fid: (string, string) -> Id, d: Derived, item: PriorFile, path: string, links: seq<Supersession>)
    requires Consistent(fid, d) && LastBegunAt(d.origins, item.path, path)
    requires var o := d.origins[path]; links == [CommittedClaim(Mint(fid, o.commit), item, NewFile(o.path, o.blob))]
    ensures LinksFor(d, item, links)
  {
    forall p | LastBegunAt(d.origins, item.path, p) ensures p == path {
      LastUnique(d.origins, item.path, p, path);
    }
  }

  lemma NoLinks(d: Derived, item: PriorFile, byOrigin: map<string, string>)
    requires d.origins.Keys == d.logicalIds.Keys && item.path !in byOrigin
    requires forall p :: p in d.origins ==> d.origins[p].path in byOrigin
    ensures LinksFor(d, item, [])
  {}

  lemma LinksNext(d: Derived, items: seq<PriorFile>, i: nat, before: seq<Supersession>, links: seq<Supersession>)
    requires d.origins.Keys == d.logicalIds.Keys && i < |items| && LinksOf(d, items[..i], before)
    requires before <= links && LinksFor(d, items[i], links[|before|..])
    ensures LinksOf(d, items[..i + 1], links)
  {
    hide LinksFor;
    assert items[..i + 1][..i] == items[..i];
    assert links[..|before|] == before;
  }
}

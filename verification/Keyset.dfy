/** Keyset paging over the union of two tables: each side is limited before the union, and still every
    page is the true next page. */
module Keyset {
  import opened Orders

  function IdsAfter(ids: set<string>, after: string): set<string> {
    set x | x in ids && Less(after, x)
  }

  /** The smallest `n` of a set, in order. */
  ghost function FirstOf(ids: set<string>, n: nat): (r: seq<string>)
    ensures StrictlySorted(r, Less)
    ensures |r| == if n < |ids| then n else |ids|
  {
    var all := SortedSet(ids);
    if n < |all| then all[..n] else all
  }

  lemma AllOf(ids: set<string>)
    ensures FirstOf(ids, |ids|) == SortedSet(ids)
  {}

  lemma LeastUnique(ids: set<string>, m: string)
    requires m in ids && forall x :: x in ids - {m} ==> Less(m, x)
    ensures m == Least(ids)
  {
    hide Less;
    if m != Least(ids) {
      LessTransitive(m, Least(ids), m);
      LessIrreflexive(m);
    }
  }

  lemma SortedSetStep(ids: set<string>, m: string)
    requires m in ids && forall x :: x in ids - {m} ==> Less(m, x)
    ensures SortedSet(ids) == [m] + SortedSet(ids - {m})
    ensures |ids - {m}| == |ids| - 1
  {
    LeastUnique(ids, m);
  }

  /** What was taken so far, in front of what is left. */
  ghost predicate Taken(ids: set<string>, r: seq<string>, rest: set<string>) {
    SortedSet(ids) == r + SortedSet(rest)
  }

  lemma TakenNext(ids: set<string>, r: seq<string>, rest: set<string>, m: string)
    requires Taken(ids, r, rest) && m in rest && forall x :: x in rest - {m} ==> Less(m, x)
    ensures Taken(ids, r + [m], rest - {m}) && |rest - {m}| == |rest| - 1
  {
    hide SortedSet, Less;
    SortedSetStep(rest, m);
    assert r + SortedSet(rest) == (r + [m]) + SortedSet(rest - {m});
  }

  lemma TakenIsFirst(ids: set<string>, r: seq<string>, rest: set<string>, n: nat)
    requires Taken(ids, r, rest) && |r| <= n && (rest != {} ==> |r| == n)
    ensures r == FirstOf(ids, n)
  {
    hide Less;
    assert |SortedSet(ids)| == |r| + |SortedSet(rest)|;
    if rest == {} {
      assert SortedSet(rest) == [];
    } else {
      assert SortedSet(ids)[..n] == r;
    }
  }

  /** `ORDER BY ... LIMIT n`. */
  method Smallest(ids: set<string>, n: nat) returns (r: seq<string>)
    ensures r == FirstOf(ids, n)
  {
    hide SortedSet, Less, Taken, FirstOf;
    var rest := ids;
    r := [];
    assert Taken(ids, [], ids) by { NothingTaken(ids); }
    while rest != {} && |r| < n
      invariant |r| <= n && Taken(ids, r, rest)
      decreases |rest|
    {
      LeastExists(rest);
      var m :| m in rest && forall x :: x in rest - {m} ==> Less(m, x);
      TakenNext(ids, r, rest, m);
      r := r + [m];
      rest := rest - {m};
    }
    TakenIsFirst(ids, r, rest, n);
  }

  lemma NothingTaken(ids: set<string>)
    ensures Taken(ids, [], ids)
  {
    hide SortedSet;
    assert [] + SortedSet(ids) == SortedSet(ids);
  }

  ghost function BelowIn(ids: set<string>, x: string): set<string> {
    set y | y in ids && Less(y, x)
  }

  ghost predicate Among(ids: set<string>, n: nat, x: string) {
    x in ids && |BelowIn(ids, x)| < n
  }

  lemma ElementsOfSorted(r: seq<string>)
    requires StrictlySorted(r, Less)
    ensures |set x | x in r| == |r|
  {
    hide Less;
    forall i, j | 0 <= i < j < |r| ensures r[i] != r[j] {
      LessIrreflexive(r[i]);
    }
    DistinctCount(r);
  }

  /** A strictly sorted list splits at each element into what is below it and what is above. */
  lemma SortedSplits(r: seq<string>, i: nat, x: string)
    requires StrictlySorted(r, Less) && i < |r| && x in r
    ensures x in r[..i] <==> Less(x, r[i])
    ensures x in r[i + 1..] <==> Less(r[i], x)
  {
    hide Less;
    LessIrreflexive(x);
    var k :| 0 <= k < |r| && r[k] == x;
    assert k < i ==> r[..i][k] == x;
    assert k > i ==> r[i + 1..][k - i - 1] == x;
    assert k < i ==> Less(r[k], r[i]);
    assert k > i ==> Less(r[i], r[k]);
    if Less(x, r[i]) && k > i { LessTransitive(x, r[i], x); }
    if Less(r[i], x) && k < i { LessTransitive(x, r[i], x); }
  }

  lemma RankInOrder(ids: set<string>, i: nat)
    requires i < |SortedSet(ids)|
    ensures |BelowIn(ids, SortedSet(ids)[i])| == i
  {
    hide Less;
    var r := SortedSet(ids);
    forall y ensures y in BelowIn(ids, r[i]) <==> y in r[..i] {
      if y in r { SortedSplits(r, i, y); }
    }
    ElementsOfSorted(r[..i]);
    assert BelowIn(ids, r[i]) == set y | y in r[..i];
  }

  lemma PrefixIndex(all: seq<string>, n: nat, i: nat)
    requires StrictlySorted(all, Less) && n <= |all| && i < |all|
    ensures all[i] in all[..n] <==> i < n
  {
    hide Less;
    LessIrreflexive(all[i]);
    if i < n {
      assert all[..n][i] == all[i];
    } else {
      forall k | 0 <= k < n ensures all[..n][k] != all[i] {
        assert Less(all[k], all[i]);
      }
    }
  }

  /** Being among the first `n` means having fewer than `n` smaller elements. */
  lemma FirstOfIsAmong(ids: set<string>, n: nat, x: string)
    ensures x in FirstOf(ids, n) <==> Among(ids, n, x)
  {
    hide Less, SortedSet, BelowIn;
    var all := SortedSet(ids);
    FirstIsPrefix(ids, n);
    assert x in all[..|FirstOf(ids, n)|] ==> x in all;
    if x in ids {
      assert x in all;
      var i :| 0 <= i < |all| && all[i] == x;
      RankInOrder(ids, i);
      PrefixIndex(all, |FirstOf(ids, n)|, i);
    }
  }

  lemma FirstIsPrefix(ids: set<string>, n: nat)
    ensures FirstOf(ids, n) == SortedSet(ids)[..|FirstOf(ids, n)|]
  {
    hide SortedSet;
  }

  lemma RankMonotone(a: set<string>, b: set<string>, x: string)
    requires a <= b
    ensures |BelowIn(a, x)| <= |BelowIn(b, x)|
  {
    SubsetSize(BelowIn(a, x), BelowIn(b, x));
  }

  ghost function Limited(ids: set<string>, n: nat): set<string> {
    set x | x in FirstOf(ids, n)
  }

  lemma AmongUnion(a: set<string>, b: set<string>, n: nat, x: string)
    ensures Among(a + b, n, x) <==> Among(Limited(a, n) + Limited(b, n), n, x)
  {
    var c, d := a + b, Limited(a, n) + Limited(b, n);
    forall y ensures y in d <==> Among(a, n, y) || Among(b, n, y) {
      FirstOfIsAmong(a, n, y);
      FirstOfIsAmong(b, n, y);
    }
    assert d <= c;
    forall y | Among(c, n, y) ensures y in d {
      RankMonotone(a, c, y);
      RankMonotone(b, c, y);
    }
    RankMonotone(d, c, x);
    if Among(d, n, x) && !Among(c, n, x) {
      var top := FirstOf(c, n);
      forall y | y in top ensures y in BelowIn(d, x) {
        FirstOfIsAmong(c, n, y);
        LessTotal(y, x);
        if !Less(y, x) {
          forall z | z in BelowIn(c, x) ensures z in BelowIn(c, y) {
            if y != x { LessTransitive(z, x, y); }
          }
          SubsetSize(BelowIn(c, x), BelowIn(c, y));
          assert false;
        }
      }
      SubsetSize(BelowIn(c, x), c);
      ElementsOfSorted(top);
      SubsetSize((set y | y in top), BelowIn(d, x));
      assert false;
    }
  }

  /** Limiting both sides before the union loses nothing of the page. */
  lemma LimitBeforeUnion(a: set<string>, b: set<string>, n: nat)
    ensures FirstOf(Limited(a, n) + Limited(b, n), n) == FirstOf(a + b, n)
  {
    var d := Limited(a, n) + Limited(b, n);
    forall x ensures x in FirstOf(d, n) <==> x in FirstOf(a + b, n) {
      AmongUnion(a, b, n, x);
      FirstOfIsAmong(d, n, x);
      FirstOfIsAmong(a + b, n, x);
    }
    StringsOrdered();
    StrictlySortedUnique(FirstOf(d, n), FirstOf(a + b, n), Less);
  }

  /** One page of the two tables read as the source does. */
  lemma PageOfTwoTables(heads: set<string>, events: set<string>, after: string, n: nat)
    ensures FirstOf(Limited(IdsAfter(heads, after), n) + Limited(IdsAfter(events, after), n), n)
         == FirstOf(IdsAfter(heads + events, after), n)
  {
    LimitBeforeUnion(IdsAfter(heads, after), IdsAfter(events, after), n);
    assert IdsAfter(heads, after) + IdsAfter(events, after) == IdsAfter(heads + events, after);
  }

  /** What is left of an enumeration past one of its elements. */
  lemma RestIsAfter(ids: set<string>, after: string, i: nat)
    requires i < |SortedSet(IdsAfter(ids, after))|
    ensures var all := SortedSet(IdsAfter(ids, after));
            SortedSet(IdsAfter(ids, all[i])) == all[i + 1..]
  {
    hide Less, SortedSet;
    var all := SortedSet(IdsAfter(ids, after));
    var last, rest := all[i], all[i + 1..];
    assert last in all;
    forall x ensures x in rest <==> x in IdsAfter(ids, last) {
      if x in all { SortedSplits(all, i, x); }
      if x in IdsAfter(ids, last) { LessTransitive(after, last, x); }
    }
    SortedSetUnique(rest, IdsAfter(ids, last));
  }

  /** Where a page ends, the rest of the enumeration begins. */
  lemma PagingAdvances(ids: set<string>, after: string, n: nat)
    requires n >= 1 && FirstOf(IdsAfter(ids, after), n) != []
    ensures var all, page := SortedSet(IdsAfter(ids, after)), FirstOf(IdsAfter(ids, after), n);
            page <= all && SortedSet(IdsAfter(ids, page[|page| - 1])) == all[|page|..]
  {
    hide Less, SortedSet, FirstOf, IdsAfter;
    FirstIsPrefix(IdsAfter(ids, after), n);
    RestIsAfter(ids, after, |FirstOf(IdsAfter(ids, after), n)| - 1);
  }
}

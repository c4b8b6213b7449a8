/** Orders and sorting shared by every module: Python's code-point order on strings, and a stable
    insertion sort whose result is fixed by its elements whenever no two of them tie. */
module Orders {

  datatype Option<+T> = None | Some(value: T)
  datatype Result<+T, +E> = Ok(value: T) | Err(error: E)

  /** Some element of a non-empty set. */
  ghost function Pick<T>(s: set<T>): (x: T)
    requires s != {}
    ensures x in s
  {
    var x :| x in s; x
  }

  lemma SubsetSize<T>(a: set<T>, b: set<T>)
    requires a <= b
    ensures |a| <= |b|
  {
    assert b == a + (b - a);
  }

  /** Python's `a < b` on strings: lexicographic by code point, a proper prefix being smaller. */
  predicate Less(a: string, b: string) {
    b != [] && (a == [] || a[0] < b[0] || (a[0] == b[0] && Less(a[1..], b[1..])))
  }

  lemma {:induction false} LessTransitive(a: string, b: string, c: string)
    requires Less(a, b) && Less(b, c)
    ensures Less(a, c)
  {
    if a != [] && a[0] == b[0] == c[0] {
      LessTransitive(a[1..], b[1..], c[1..]);
    }
  }

  lemma {:induction false} LessIrreflexive(a: string)
    ensures !Less(a, a)
  {
    if a != [] {
      LessIrreflexive(a[1..]);
    }
  }

  lemma {:induction false} LessTotal(a: string, b: string)
    ensures a == b || Less(a, b) || Less(b, a)
  {
    if a != [] && b != [] && a[0] == b[0] {
      LessTotal(a[1..], b[1..]);
      assert a == [a[0]] + a[1..] && b == [b[0]] + b[1..];
    }
  }

  /** A strict order in which distinct elements may tie (a sort key that is not injective). */
  ghost predicate StrictOrder<T(!new)>(lt: (T, T) -> bool) {
    && (forall x :: !lt(x, x))
    && (forall x, y, z :: lt(x, y) && lt(y, z) ==> lt(x, z))
    && (forall x, y, z :: lt(x, z) ==> lt(x, y) || lt(y, z))
  }

  lemma StringsOrdered()
    ensures StrictOrder(Less)
  {
    forall x ensures !Less(x, x) { LessIrreflexive(x); }
    forall x, y, z | Less(x, y) && Less(y, z) ensures Less(x, z) { LessTransitive(x, y, z); }
    forall x, y, z | Less(x, z) ensures Less(x, y) || Less(y, z) {
      LessTotal(x, y);
      if Less(y, x) { LessTransitive(y, x, z); }
    }
  }

  /** No later element sorts before an earlier one. */
  ghost predicate Sorted<T>(s: seq<T>, lt: (T, T) -> bool) {
    forall i, j :: 0 <= i < j < |s| ==> !lt(s[j], s[i])
  }

  ghost predicate StrictlySorted<T>(s: seq<T>, lt: (T, T) -> bool) {
    forall i, j :: 0 <= i < j < |s| ==> lt(s[i], s[j])
  }

  function Insert<T>(x: T, s: seq<T>, lt: (T, T) -> bool): seq<T> {
    if s == [] || !lt(s[0], x) then [x] + s else [s[0]] + Insert(x, s[1..], lt)
  }

  /** Python's `sorted`: stable, so equal keys keep their given order. */
  function Sort<T>(s: seq<T>, lt: (T, T) -> bool): seq<T> {
    if s == [] then [] else Insert(s[0], Sort(s[1..], lt), lt)
  }

  lemma {:induction false} InsertElements<T>(x: T, s: seq<T>, lt: (T, T) -> bool)
    ensures multiset(Insert(x, s, lt)) == multiset{x} + multiset(s)
  {
    if s == [] || !lt(s[0], x) {
    } else {
      InsertElements(x, s[1..], lt);
      assert s == [s[0]] + s[1..];
    }
  }

  lemma {:induction false} SortElements<T>(s: seq<T>, lt: (T, T) -> bool)
    ensures multiset(Sort(s, lt)) == multiset(s)
    ensures |Sort(s, lt)| == |s|
    ensures forall x :: x in Sort(s, lt) <==> x in s
  {
    if s == [] {
    } else {
      SortElements(s[1..], lt);
      InsertElements(s[0], Sort(s[1..], lt), lt);
      assert s == [s[0]] + s[1..];
    }
    assert |multiset(Sort(s, lt))| == |Sort(s, lt)|;
    forall x ensures x in Sort(s, lt) <==> x in s {
      assert x in Sort(s, lt) <==> x in multiset(Sort(s, lt));
      assert x in s <==> x in multiset(s);
    }
  }

  lemma SortKeeps<T>(s: seq<T>, lt: (T, T) -> bool, x: T)
    ensures x in Sort(s, lt) <==> x in s
  {
    SortElements(s, lt);
  }

  lemma {:induction false} InsertSorted<T(!new)>(x: T, s: seq<T>, lt: (T, T) -> bool)
    requires StrictOrder(lt) && Sorted(s, lt)
    ensures Sorted(Insert(x, s, lt), lt)
  {
    if s == [] {
    } else if !lt(s[0], x) {
      var r := [x] + s;
      forall i, j | 0 <= i < j < |r| ensures !lt(r[j], r[i]) {
        assert r[j] == s[j - 1];
        if i == 0 {
          assert !lt(s[j - 1], s[0]) && !lt(s[0], x);
        } else {
          assert r[i] == s[i - 1];
        }
      }
    } else {
      InsertSorted(x, s[1..], lt);
      InsertElements(x, s[1..], lt);
      var t := Insert(x, s[1..], lt);
      var r := [s[0]] + t;
      forall i, j | 0 <= i < j < |r| ensures !lt(r[j], r[i]) {
        if i == 0 {
          assert r[j] == t[j - 1] && t[j - 1] in multiset(t);
          assert r[j] in multiset{x} + multiset(s[1..]);
          if r[j] == x {
            assert lt(s[0], x) && !lt(s[0], s[0]);
          } else {
            assert r[j] in s[1..];
            var k :| 0 <= k < |s[1..]| && s[1..][k] == r[j];
            assert s[k + 1] == r[j];
          }
        } else {
          assert r[i] == t[i - 1] && r[j] == t[j - 1];
        }
      }
    }
  }

  lemma {:induction false} SortSorts<T(!new)>(s: seq<T>, lt: (T, T) -> bool)
    requires StrictOrder(lt)
    ensures Sorted(Sort(s, lt), lt)
  {
    if s != [] {
      SortSorts(s[1..], lt);
      InsertSorted(s[0], Sort(s[1..], lt), lt);
    }
  }

  /** Any two elements are comparable. */
  ghost predicate Comparable<T>(s: seq<T>, lt: (T, T) -> bool) {
    forall i, j :: 0 <= i < j < |s| ==> lt(s[i], s[j]) || lt(s[j], s[i])
  }

  lemma {:induction false} StrictlySortedUnique<T(!new)>(a: seq<T>, b: seq<T>, lt: (T, T) -> bool)
    requires StrictOrder(lt) && StrictlySorted(a, lt) && StrictlySorted(b, lt)
    requires forall x :: x in a <==> x in b
    ensures a == b
  {
    assert a != [] ==> a[0] in b;
    assert b != [] ==> b[0] in a;
    if a != [] {
      var i :| 0 <= i < |b| && b[i] == a[0];
      var j :| 0 <= j < |a| && a[j] == b[0];
      assert a[0] == b[0];
      forall x ensures x in a[1..] <==> x in b[1..] {
        if x in a[1..] {
          var k :| 0 <= k < |a[1..]| && a[1..][k] == x;
          assert lt(a[0], a[k + 1]) && a[k + 1] in a;
          var m :| 0 <= m < |b| && b[m] == x;
          assert m > 0 && b[1..][m - 1] == x;
        }
        if x in b[1..] {
          var k :| 0 <= k < |b[1..]| && b[1..][k] == x;
          assert lt(b[0], b[k + 1]) && b[k + 1] in b;
          var m :| 0 <= m < |a| && a[m] == x;
          assert m > 0 && a[1..][m - 1] == x;
        }
      }
      StrictlySortedUnique(a[1..], b[1..], lt);
      assert a == [a[0]] + a[1..] && b == [b[0]] + b[1..];
    }
  }

  /** When no two elements tie, the sorted list depends on the elements alone, never on the order
      in which they were given. */
  lemma SortIsOrderIndependent<T(!new)>(a: seq<T>, b: seq<T>, lt: (T, T) -> bool)
    requires StrictOrder(lt) && Comparable(a, lt)
    requires multiset(a) == multiset(b)
    ensures Sort(a, lt) == Sort(b, lt)
    ensures StrictlySorted(Sort(a, lt), lt)
  {
    SortStrict(a, lt);
    ComparablePermutation(a, b, lt);
    SortStrict(b, lt);
    SortElements(a, lt);
    SortElements(b, lt);
    forall x ensures x in Sort(a, lt) <==> x in Sort(b, lt) {
      assert x in a <==> x in multiset(a);
      assert x in b <==> x in multiset(b);
    }
    StrictlySortedUnique(Sort(a, lt), Sort(b, lt), lt);
  }

  lemma DistinctOfComparable<T(!new)>(s: seq<T>, lt: (T, T) -> bool)
    requires StrictOrder(lt) && Comparable(s, lt)
    ensures forall i, j :: 0 <= i < j < |s| ==> s[i] != s[j]
  {}

  lemma {:induction false} MultiplicityOne<T>(s: seq<T>)
    requires forall i, j :: 0 <= i < j < |s| ==> s[i] != s[j]
    ensures forall x :: x in s ==> multiset(s)[x] == 1
  {
    if s != [] {
      MultiplicityOne(s[1..]);
      assert s == [s[0]] + s[1..];
      forall x | x in s ensures multiset(s)[x] == 1 {
        assert multiset(s) == multiset{s[0]} + multiset(s[1..]);
        if x == s[0] {
          assert x !in s[1..];
        } else {
          assert x in s[1..];
        }
      }
    }
  }

  lemma {:induction false} DistinctCount<T>(s: seq<T>)
    requires forall i, j :: 0 <= i < j < |s| ==> s[i] != s[j]
    ensures |set x | x in s| == |s|
  {
    if s == [] {
      assert (set x | x in s) == {};
    } else {
      var n := |s| - 1;
      DistinctCount(s[..n]);
      assert s == s[..n] + [s[n]];
      assert (set x | x in s) == (set x | x in s[..n]) + {s[n]};
    }
  }

  lemma {:induction false} CountAtMost<T>(s: seq<T>)
    ensures |set x | x in s| <= |s|
  {
    if s == [] {
      assert (set x | x in s) == {};
    } else {
      var n := |s| - 1;
      CountAtMost(s[..n]);
      assert s == s[..n] + [s[n]];
      assert (set x | x in s) == (set x | x in s[..n]) + {s[n]};
    }
  }

  /** Python's `len(set(s)) != len(s)` finds every repetition. */
  lemma CountShowsRepetition<T>(s: seq<T>)
    ensures |set x | x in s| == |s| <==> forall i, j :: 0 <= i < j < |s| ==> s[i] != s[j]
  {
    if i, j :| 0 <= i < j < |s| && s[i] == s[j] {
      var t := s[..j] + s[j + 1..];
      forall x ensures x in s <==> x in t {
        if x in s {
          var k :| 0 <= k < |s| && s[k] == x;
          assert k < j ==> t[k] == x;
          assert k > j ==> t[k - 1] == x;
          assert t[i] == s[i];
        }
      }
      assert (set x | x in s) == (set x | x in t);
      CountAtMost(t);
    } else {
      DistinctCount(s);
    }
  }

  lemma TwoOccurrences<T>(s: seq<T>, i: int, j: int)
    requires 0 <= i < j < |s| && s[i] == s[j]
    ensures multiset(s)[s[i]] >= 2
  {
    assert s == s[..j] + s[j..];
    assert s[i] in s[..j] && s[i] in s[j..];
    assert multiset(s) == multiset(s[..j]) + multiset(s[j..]);
  }

  lemma ComparablePermutation<T(!new)>(a: seq<T>, b: seq<T>, lt: (T, T) -> bool)
    requires StrictOrder(lt) && Comparable(a, lt)
    requires multiset(a) == multiset(b)
    ensures Comparable(b, lt)
  {
    DistinctOfComparable(a, lt);
    MultiplicityOne(a);
    forall i, j | 0 <= i < j < |b| ensures lt(b[i], b[j]) || lt(b[j], b[i]) {
      assert b[i] in multiset(b) && b[j] in multiset(b);
      assert b[i] in a && b[j] in a;
      assert b[i] != b[j] by {
        if b[i] == b[j] { TwoOccurrences(b, i, j); assert false; }
      }
      var x :| 0 <= x < |a| && a[x] == b[i];
      var y :| 0 <= y < |a| && a[y] == b[j];
    }
  }

  lemma SortStrict<T(!new)>(s: seq<T>, lt: (T, T) -> bool)
    requires StrictOrder(lt) && Comparable(s, lt)
    ensures StrictlySorted(Sort(s, lt), lt)
  {
    SortSorts(s, lt);
    SortElements(s, lt);
    ComparablePermutation(s, Sort(s, lt), lt);
  }

  /** A strictly sorted list of the elements of a finite set of strings: `sorted(set)`. */
  ghost function SortedSet(s: set<string>): (r: seq<string>)
    ensures StrictlySorted(r, Less)
    ensures forall x :: x in r <==> x in s
    ensures |r| == |s|
  {
    if s == {} then [] else
      var m := Least(s);
      var rest := SortedSet(s - {m});
      assert forall x :: x in rest ==> Less(m, x) by {
        forall x | x in rest ensures Less(m, x) { assert x in s - {m}; }
      }
      [m] + rest
  }

  ghost function Least(s: set<string>): (m: string)
    requires s != {}
    ensures m in s && forall x :: x in s - {m} ==> Less(m, x)
  {
    LeastExists(s);
    var m :| m in s && forall x :: x in s - {m} ==> Less(m, x);
    m
  }

  lemma {:induction false} LeastExists(s: set<string>)
    requires s != {}
    ensures exists m :: m in s && forall x :: x in s - {m} ==> Less(m, x)
  {
    var y :| y in s;
    if s == {y} {
      assert forall x :: x in s - {y} ==> Less(y, x);
    } else {
      var rest := s - {y};
      var z :| z in s && z != y;
      assert z in rest;
      LeastExists(rest);
      var m :| m in rest && forall x :: x in rest - {m} ==> Less(m, x);
      LessTotal(m, y);
      if Less(m, y) {
        assert forall x :: x in s - {m} ==> Less(m, x);
      } else {
        forall x | x in s - {y} ensures Less(y, x) {
          if x != m { assert x in rest - {m}; LessTransitive(y, m, x); }
        }
      }
    }
  }

  lemma SortedSetUnique(r: seq<string>, s: set<string>)
    requires StrictlySorted(r, Less) && forall x :: x in r <==> x in s
    ensures r == SortedSet(s)
  {
    StringsOrdered();
    StrictlySortedUnique(r, SortedSet(s), Less);
  }
}

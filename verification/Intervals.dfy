/** Innermost-span lookup: spans sorted once, each linked to the nearest earlier span that is at least as
    long, so that a query is a binary search and a walk up the links. */
module Intervals {
  import opened Orders

  datatype Span<T> = Span(start: int, end: int, item: T)

  predicate Contains<T>(s: Span<T>, begin: int, end: int) {
    s.start <= begin && end <= s.end
  }

  /** Latest start, then smallest end, then earliest given. */
  predicate Preferred<T>(a: Span<T>, i: int, b: Span<T>, j: int) {
    a.start > b.start || (a.start == b.start && (a.end < b.end || (a.end == b.end && i < j)))
  }

  /** The answer to a query: of the spans that contain the range, the preferred one. */
  ghost predicate IsInnermost<T>(spans: seq<Span<T>>, begin: int, end: int, k: nat)
    requires k < |spans|
  {
    && Contains(spans[k], begin, end)
    && forall j :: 0 <= j < |spans| && j != k && Contains(spans[j], begin, end) ==> Preferred(spans[k], k, spans[j], j)
  }

  // ---- the sort --------------------------------------------------------------------------------

  /** One entry with the position it was given at. */
  datatype Entry<T> = Entry(index: nat, span: Span<T>)

  /** Ascending by (start, -end, -index). */
  function Earlier<T>(): (Entry<T>, Entry<T>) -> bool {
    (a: Entry<T>, b: Entry<T>) => Preferred(b.span, b.index, a.span, a.index)
  }

  function Enumerate<T>(spans: seq<Span<T>>): seq<Entry<T>> {
    seq(|spans|, i requires 0 <= i < |spans| => Entry(i, spans[i]))
  }

  lemma EarlierOrders<T(!new)>()
    ensures StrictOrder(Earlier<T>())
  {
    var lt := Earlier<T>();
    forall x: Entry<T>, y: Entry<T>, z: Entry<T> | lt(x, z) ensures lt(x, y) || lt(y, z) {}
  }

  /** The sorted entries are the given spans, each once, in strictly ascending order. */
  ghost predicate Ordered<T>(spans: seq<Span<T>>, ordered: seq<Entry<T>>) {
    && (forall p :: 0 <= p < |ordered| ==> ordered[p].index < |spans| && ordered[p].span == spans[ordered[p].index])
    && (forall k :: 0 <= k < |spans| ==> Listed(ordered, k))
    && (forall p, q :: 0 <= p < q < |ordered| ==>
          Preferred(ordered[q].span, ordered[q].index, ordered[p].span, ordered[p].index))
  }

  ghost predicate Listed<T>(ordered: seq<Entry<T>>, k: nat) {
    exists p :: 0 <= p < |ordered| && ordered[p].index == k
  }

  lemma EntryAt<T>(spans: seq<Span<T>>, e: Entry<T>)
    requires e in Enumerate(spans)
    ensures e.index < |spans| && e.span == spans[e.index]
  {
    var i :| 0 <= i < |spans| && Enumerate(spans)[i] == e;
  }

  lemma SortedEntries<T(!new)>(spans: seq<Span<T>>)
    ensures forall e :: e in Sort(Enumerate(spans), Earlier()) <==> e in Enumerate(spans)
    ensures StrictlySorted(Sort(Enumerate(spans), Earlier()), Earlier())
  {
    hide Preferred, Sort, Earlier, Enumerate;
    var entries, lt := Enumerate(spans), Earlier<T>();
    EarlierOrders<T>();
    EntriesComparable(spans);
    SortStrict(entries, lt);
    forall e ensures e in Sort(entries, lt) <==> e in entries { SortKeeps(entries, lt, e); }
  }

  lemma EntriesComparable<T>(spans: seq<Span<T>>)
    ensures Comparable(Enumerate(spans), Earlier())
  {
    var entries, lt := Enumerate(spans), Earlier<T>();
    forall i, j | 0 <= i < j < |entries| ensures lt(entries[i], entries[j]) || lt(entries[j], entries[i]) {
      assert entries[i] == Entry(i, spans[i]) && entries[j] == Entry(j, spans[j]);
    }
  }

  lemma SortOrders<T(!new)>(spans: seq<Span<T>>)
    ensures Ordered(spans, Sort(Enumerate(spans), Earlier()))
  {
    hide Preferred, Sort;
    var entries, lt := Enumerate(spans), Earlier<T>();
    var ordered := Sort(entries, lt);
    SortedEntries(spans);
    forall p | 0 <= p < |ordered| ensures ordered[p].index < |spans| && ordered[p].span == spans[ordered[p].index] {
      assert ordered[p] in ordered;
      EntryAt(spans, ordered[p]);
    }
    forall k: nat | k < |spans| ensures Listed(ordered, k) {
      assert entries[k] in entries;
      var p :| 0 <= p < |ordered| && ordered[p] == entries[k];
    }
    forall p, q | 0 <= p < q < |ordered|
      ensures Preferred(ordered[q].span, ordered[q].index, ordered[p].span, ordered[p].index)
    {
      assert lt(ordered[p], ordered[q]);
    }
  }

  // ---- parents ---------------------------------------------------------------------------------

  /** Nothing between `p` and `q` reaches as far as `end`. */
  predicate Clear(ends: seq<int>, p: int, q: int, end: int)
    requires -1 <= p <= q <= |ends|
  {
    forall j :: p < j < q ==> ends[j] < end
  }

  /** The nearest earlier position that reaches at least as far, or -1. */
  predicate IsParent(ends: seq<int>, p: int, q: int)
    requires 0 <= q < |ends|
  {
    -1 <= p < q && (p >= 0 ==> ends[p] >= ends[q]) && Clear(ends, p, q, ends[q])
  }

  /** The stack of the construction: ascending positions up to the last one, each clear down to the one
      below it. */
  ghost predicate Stacked(ends: seq<int>, stack: seq<nat>, position: nat)
    requires position <= |ends|
  {
    && (position > 0 ==> stack != [] && stack[|stack| - 1] == position - 1)
    && (forall k :: 0 <= k < |stack| ==> stack[k] < position)
    && (forall k :: 0 < k < |stack| ==> stack[k - 1] < stack[k] && Clear(ends, stack[k - 1], stack[k], ends[stack[k]]))
    && (stack != [] ==> Clear(ends, -1, stack[0], ends[stack[0]]))
  }

  lemma ParentIsClear(ends: seq<int>, p: int, q: int)
    requires 0 <= q < |ends| && IsParent(ends, p, q)
    ensures -1 <= p < q && Clear(ends, p, q, ends[q])
  {}

  class Index<T(!new)> {
    ghost const spans: seq<Span<T>>
    ghost var ordered: seq<Entry<T>>
    var starts: seq<int>
    var ends: seq<int>
    var items: seq<T>
    var parents: seq<int>

    ghost predicate Valid()
      reads this
    {
      && Ordered(spans, ordered)
      && |starts| == |ends| == |items| == |parents| == |ordered|
      && (forall p :: 0 <= p < |ordered| ==>
            starts[p] == ordered[p].span.start && ends[p] == ordered[p].span.end && items[p] == ordered[p].span.item)
      && (forall q :: 0 <= q < |ends| ==> IsParent(ends, parents[q], q))
    }

    /** Sort, then link every span with a monotonic stack. */
    constructor (spans: seq<Span<T>>)
      ensures Valid() && this.spans == spans
    {
      this.spans := spans;
      var sorted := Sort(Enumerate(spans), Earlier());
      var reach := seq(|sorted|, p requires 0 <= p < |sorted| => sorted[p].span.end);
      ordered := sorted;
      starts := seq(|sorted|, p requires 0 <= p < |sorted| => sorted[p].span.start);
      ends := reach;
      items := seq(|sorted|, p requires 0 <= p < |sorted| => sorted[p].span.item);
      var links := Link(reach);
      parents := links;
      SortOrders(spans);
    }

    /** The stack pass: every position's parent. */
    static method Link(ends: seq<int>) returns (parents: seq<int>)
      ensures |parents| == |ends| && forall q :: 0 <= q < |ends| ==> IsParent(ends, parents[q], q)
    {
      hide Clear, IsParent;
      parents := [];
      var stack: seq<nat> := [];
      for position := 0 to |ends|
        invariant Stacked(ends, stack, position)
        invariant |parents| == position && forall q :: 0 <= q < position ==> IsParent(ends, parents[q], q)
      {
        var rest := Unwind(ends, stack, position);
        var parent := if rest != [] then rest[|rest| - 1] else -1;
        ParentIsClear(ends, parent, position);
        parents := parents + [parent];
        stack := rest + [position];
      }
    }

    /** Pop every span that ends before this one does. */
    static method Unwind(ends: seq<int>, given: seq<nat>, position: nat) returns (stack: seq<nat>)
      requires position < |ends| && Stacked(ends, given, position)
      ensures stack <= given
      ensures forall k :: 0 <= k < |stack| ==> stack[k] < position
      ensures forall k :: 0 < k < |stack| ==>
                stack[k - 1] < stack[k] && Clear(ends, stack[k - 1], stack[k], ends[stack[k]])
      ensures stack != [] ==> Clear(ends, -1, stack[0], ends[stack[0]])
      ensures IsParent(ends, if stack != [] then stack[|stack| - 1] else -1, position)
    {
      var n := |given|;
      while n > 0 && ends[given[n - 1]] < ends[position]
        invariant 0 <= n <= |given|
        invariant Clear(ends, if n > 0 then given[n - 1] else -1, position, ends[position])
      {
        n := n - 1;
      }
      stack := given[..n];
    }

    /** `bisect_right`: how many starts are at most `begin`. */
    method StartsUpTo(begin: int) returns (n: nat)
      requires Valid()
      ensures n <= |starts|
      ensures forall p :: 0 <= p < n ==> starts[p] <= begin
      ensures forall p :: n <= p < |starts| ==> begin < starts[p]
    {
      StartsAscend();
      var lo, hi := 0, |starts|;
      while lo < hi
        invariant 0 <= lo <= hi <= |starts|
        invariant forall p :: 0 <= p < lo ==> starts[p] <= begin
        invariant forall p :: hi <= p < |starts| ==> begin < starts[p]
      {
        var mid := (lo + hi) / 2;
        if begin < starts[mid] {
          hi := mid;
        } else {
          lo := mid + 1;
        }
      }
      n := lo;
    }

    lemma StartsAscend()
      requires Valid()
      ensures forall p, q :: 0 <= p < q < |starts| ==> starts[p] <= starts[q]
    {
      forall p, q | 0 <= p < q < |starts| ensures starts[p] <= starts[q] {
        assert Preferred(ordered[q].span, ordered[q].index, ordered[p].span, ordered[p].index);
      }
    }

    /** INNERMOST. For any spans, nested or not: the item of the containing span with the latest start, then
        the smallest end, then the earliest given, and none exactly when no span contains the range. */
    method Innermost(begin: int, end: int) returns (r: Option<T>)
      requires Valid()
      ensures r.Some? ==> exists k :: 0 <= k < |spans| && IsInnermost(spans, begin, end, k) && r.value == spans[k].item
      ensures r.None? <==> forall k :: 0 <= k < |spans| ==> !Contains(spans[k], begin, end)
    {
      var n := StartsUpTo(begin);
      var position: int := (n as int) - 1;
      while position >= 0
        invariant -1 <= position < n
        invariant forall p :: position < p < n ==> ends[p] < end
      {
        if end <= ends[position] {
          FoundInnermost(begin, end, n, position);
          return Some(items[position]);
        }
        position := parents[position];
      }
      forall k | 0 <= k < |spans| ensures !Contains(spans[k], begin, end) {
        assert Listed(ordered, k);
      }
      return None;
    }

    lemma FoundInnermost(begin: int, end: int, n: nat, position: nat)
      requires Valid() && position < n <= |starts|
      requires forall p :: 0 <= p < n ==> starts[p] <= begin
      requires forall p :: n <= p < |starts| ==> begin < starts[p]
      requires end <= ends[position] && forall p :: position < p < n ==> ends[p] < end
      ensures var k := ordered[position].index;
              k < |spans| && IsInnermost(spans, begin, end, k) && items[position] == spans[k].item
    {
      var k := ordered[position].index;
      forall j | 0 <= j < |spans| && j != k && Contains(spans[j], begin, end)
        ensures Preferred(spans[k], k, spans[j], j)
      {
        assert Listed(ordered, j);
        var p :| 0 <= p < |ordered| && ordered[p].index == j;
        assert p < position;
      }
    }
  }

  // ---- nesting spans ---------------------------------------------------------------------------

  /** Any two spans nest or do not overlap. */
  ghost predicate Nesting<T>(spans: seq<Span<T>>) {
    forall i, j :: 0 <= i < |spans| && 0 <= j < |spans| ==> Nest(spans[i], spans[j])
  }

  predicate Nest<T>(a: Span<T>, b: Span<T>) {
    (a.start <= b.start && b.end <= a.end) || (b.start <= a.start && a.end <= b.end) || a.end <= b.start
      || b.end <= a.start
  }

  /** The answer lies inside every span that contains the range. */
  ghost predicate IsSmallest<T>(spans: seq<Span<T>>, begin: int, end: int, k: nat)
    requires k < |spans|
  {
    Contains(spans[k], begin, end)
    && forall j :: 0 <= j < |spans| && Contains(spans[j], begin, end) ==>
        Contains(spans[j], spans[k].start, spans[k].end)
  }

  ghost predicate EmptyAt<T>(spans: seq<Span<T>>, at: int) {
    exists i :: 0 <= i < |spans| && spans[i].start == at == spans[i].end
  }

  /** Some span that started earlier ends here. */
  ghost predicate EndsAt<T>(spans: seq<Span<T>>, at: int) {
    exists i :: 0 <= i < |spans| && spans[i].start < at == spans[i].end
  }

  /** Some span that ends later starts here. */
  ghost predicate StartsAt<T>(spans: seq<Span<T>>, at: int) {
    exists i :: 0 <= i < |spans| && spans[i].start == at < spans[i].end
  }

  /** A boundary: one span ends where another starts, with no empty span between them. */
  ghost predicate BoundaryAt<T>(spans: seq<Span<T>>, at: int) {
    EndsAt(spans, at) && StartsAt(spans, at) && !EmptyAt(spans, at)
  }

  /** SMALLEST. Among nesting spans the answer is the smallest containing span, except exactly for an empty
      range at a boundary. */
  lemma InnermostIsSmallest<T>(spans: seq<Span<T>>, begin: int, end: int, k: nat)
    requires Nesting(spans) && begin <= end && k < |spans| && IsInnermost(spans, begin, end, k)
    ensures IsSmallest(spans, begin, end, k) <==> !(begin == end && BoundaryAt(spans, begin))
  {
    if begin == end && BoundaryAt(spans, begin) {
      BoundaryIsMissed(spans, begin, k);
    } else {
      forall j | 0 <= j < |spans| && Contains(spans[j], begin, end)
        ensures Contains(spans[j], spans[k].start, spans[k].end)
      {
        assert Nest(spans[j], spans[k]);
        assert j != k ==> Preferred(spans[k], k, spans[j], j);
        if begin == end && EmptyAt(spans, begin) {
          var i :| 0 <= i < |spans| && spans[i].start == begin == spans[i].end;
          assert Contains(spans[i], begin, end);
          assert i != k ==> Preferred(spans[k], k, spans[i], i);
        }
      }
    }
  }

  /** At a boundary the answer starts there and is not empty, so the span that ends there does not hold it. */
  lemma BoundaryIsMissed<T>(spans: seq<Span<T>>, at: int, k: nat)
    requires k < |spans| && IsInnermost(spans, at, at, k) && BoundaryAt(spans, at)
    ensures !IsSmallest(spans, at, at, k)
  {
    var i :| 0 <= i < |spans| && spans[i].start < at == spans[i].end;
    var j :| 0 <= j < |spans| && spans[j].start == at < spans[j].end;
    assert Contains(spans[j], at, at) && (j != k ==> Preferred(spans[k], k, spans[j], j));
    assert Contains(spans[i], at, at) && !Contains(spans[i], spans[k].start, spans[k].end);
  }

  /** Such boundaries exist: the later span is the answer even when it is longer. */
  lemma EmptyRangeTakesTheLaterSpan(at: int)
    ensures var spans := [Span(at - 1, at, "first"), Span(at, at + 2, "second")];
            Nesting(spans) && IsInnermost(spans, at, at, 1) && !IsSmallest(spans, at, at, 1)
  {
    var spans := [Span(at - 1, at, "first"), Span(at, at + 2, "second")];
    assert Contains(spans[0], at, at) && !Contains(spans[0], spans[1].start, spans[1].end);
  }
}

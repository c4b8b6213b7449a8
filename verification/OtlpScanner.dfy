/** The scanner itself: counters updated in place, byte loops, and the inlined shortcut for the common
    attribute. It is proved to compute the walk, so the shortcut changes nothing but speed. */
module OtlpScanner {
  import opened Orders
  import opened OtlpWire

  // ---- the shortcut ----------------------------------------------------------------------------

  function Tag(number: nat): nat {
    number * 8 + LENGTH_DELIMITED
  }

  /** Exactly a key and a single string value, every length in one byte. */
  predicate PlainShape(s: Schema, data: seq<byte>, start: nat, end: nat)
    requires start <= end <= |data|
  {
    && end - start >= 4 && data[start] as nat == Tag(s.key) && data[start + 1] < 128
    && var valueAt := start + 2 + data[start + 1] as nat;
    && valueAt + 3 <= end && data[valueAt] as nat == Tag(s.value)
    && data[valueAt + 1] < 128 && valueAt + 2 + data[valueAt + 1] as nat == end
    && data[valueAt + 2] as nat == Tag(s.stringValue) && valueAt + 3 < end
    && data[valueAt + 3] < 128 && valueAt + 4 + data[valueAt + 3] as nat == end
  }

  /** `n` fields visited. */
  function Visits(l: Limits, c: Counts, n: nat): Walked
    decreases n
  {
    if n == 0 then Go(c) else
      var w := FieldVisited(l, c);
      if w.error.Some? then w else Visits(l, w.counts, n - 1)
  }

  function PlainWalk(l: Limits, c: Counts, depth: nat): Walked {
    var w := Attribute(l, c, depth);
    if w.error.Some? then w else Visits(l, w.counts, 3)
  }

  /** A one-byte tag and a one-byte length. */
  lemma ReadShort(table: map<nat, Spec>, data: seq<byte>, p: nat, end: nat, n: nat)
    requires p + 2 <= end <= |data| && n < 16 && n in table && table[n].wireType == LENGTH_DELIMITED
    requires data[p] as nat == Tag(n) && data[p + 1] < 128 && p + 2 + data[p + 1] as nat <= end
    ensures ReadField(table, data, p, end) == Some(Field(n, Some(table[n]), p + 2, p + 2 + data[p + 1] as nat))
  {
    assert VarintFrom(data, p, end, 0) == Some((Tag(n), p + 1));
    assert Tag(n) / 8 == n && Tag(n) % 8 == LENGTH_DELIMITED;
    assert VarintFrom(data, p + 1, end, 0) == Some((data[p + 1] as nat, p + 2));
  }

  lemma PlainValueWalk(s: Schema, l: Limits, data: seq<byte>, start: nat, end: nat, depth: nat, c: Counts)
    requires PlainFields(s) && start + 2 <= end <= |data|
    requires data[start] as nat == Tag(s.stringValue) && data[start + 1] < 128
             && start + 2 + data[start + 1] as nat == end
    ensures Message(s, l, data, start, end, s.anyValue, depth, c) == FieldVisited(l, c)
  {
    hide ReadField, FieldVisited;
    ReadShort(s.tables[s.anyValue], data, start, end, s.stringValue);
    var w := FieldVisited(l, c);
    assert Enter(s, l, s.anyValue, depth, c) == Go(c);
    assert Fields(s, l, data, end, end, s.anyValue, depth, {}, 0, w.counts) == Go(w.counts);
    assert Fields(s, l, data, start, end, s.anyValue, depth, {}, 0, c) == w;
  }

  /** FAST PATH. Whatever the limits and the counts so far, the shortcut ends with the counts and the code
      of the generic walk. */
  lemma FastPathIsExact(s: Schema, l: Limits, data: seq<byte>, start: nat, end: nat, depth: nat, c: Counts)
    requires PlainFields(s) && start <= end <= |data| && PlainShape(s, data, start, end)
    ensures Message(s, l, data, start, end, s.keyValue, depth, c) == PlainWalk(l, c, depth)
  {
    hide ReadField, FieldVisited, Attribute, Message, Fields;
    var table := s.tables[s.keyValue];
    var valueAt := start + 2 + data[start + 1] as nat;
    ReadShort(table, data, start, end, s.key);
    ReadShort(table, data, valueAt, end, s.value);
    var w0 := Attribute(l, c, depth);
    PlainMessage(s, l, data, start, end, depth, c);
    if w0.error.None? {
      var w1 := FieldVisited(l, w0.counts);
      PlainKey(s, l, data, start, end, depth, w0.counts, valueAt);
      if w1.error.None? {
        PlainValue(s, l, data, valueAt, end, depth, w1.counts);
        assert Visits(l, w0.counts, 3) == Visits(l, w1.counts, 2);
      }
    }
  }

  lemma PlainMessage(s: Schema, l: Limits, data: seq<byte>, start: nat, end: nat, depth: nat, c: Counts)
    requires start <= end <= |data|
    ensures var w := Attribute(l, c, depth);
            Message(s, l, data, start, end, s.keyValue, depth, c)
            == if w.error.Some? then w else Fields(s, l, data, start, end, s.keyValue, depth, {}, 0, w.counts)
  {
    hide Fields, Attribute;
  }

  lemma PlainKey(s: Schema, l: Limits, data: seq<byte>, start: nat, end: nat, depth: nat, c: Counts, valueAt: nat)
    requires PlainFields(s) && start < valueAt <= end <= |data|
    requires ReadField(s.tables[s.keyValue], data, start, end)
               == Some(Field(s.key, Some(s.tables[s.keyValue][s.key]), start + 2, valueAt))
    ensures var w := FieldVisited(l, c);
            Fields(s, l, data, start, end, s.keyValue, depth, {}, 0, c)
            == if w.error.Some? then w else Fields(s, l, data, valueAt, end, s.keyValue, depth, {}, 0, w.counts)
  {
    hide ReadField, FieldVisited;
  }

  lemma PlainValue(s: Schema, l: Limits, data: seq<byte>, valueAt: nat, end: nat, depth: nat, c: Counts)
    requires PlainFields(s) && valueAt + 4 <= end <= |data|
    requires ReadField(s.tables[s.keyValue], data, valueAt, end)
               == Some(Field(s.value, Some(s.tables[s.keyValue][s.value]), valueAt + 2, end))
    requires data[valueAt + 2] as nat == Tag(s.stringValue) && data[valueAt + 3] < 128
             && valueAt + 4 + data[valueAt + 3] as nat == end
    ensures Fields(s, l, data, valueAt, end, s.keyValue, depth, {}, 0, c) == Visits(l, c, 2)
  {
    hide ReadField, FieldVisited, Message;
    var f := Field(s.value, Some(s.tables[s.keyValue][s.value]), valueAt + 2, end);
    var w := FieldVisited(l, c);
    if w.error.None? {
      assert Announce(s, l, s.keyValue, depth, f, {}, 0, w.counts) == w;
      PlainValueWalk(s, l, data, valueAt + 2, end, depth, w.counts);
      var w2 := FieldVisited(l, w.counts);
      assert Fields(s, l, data, end, end, s.keyValue, depth, SeenAfter(f, {}), 0, w2.counts) == Go(w2.counts);
      assert Visits(l, w.counts, 1) == (if w2.error.Some? then w2 else Visits(l, w2.counts, 0));
    }
  }

  // ---- bounds ----------------------------------------------------------------------------------

  /** The deepest a call for this kind at this depth can recurse: fixed by the schema alone. */
  function Budget(s: Schema, kind: Kind, depth: nat): nat {
    if depth > MAX_VALUE_DEPTH + 1 then 0
    else (MAX_VALUE_DEPTH + 1 - depth) * (s.maxRank + 1) + Ranked(s, kind) + 1
  }

  /** Depths the walk can be at when it enters a kind. */
  predicate Enterable(s: Schema, kind: Kind, depth: nat) {
    depth <= MAX_VALUE_DEPTH + 1 && (kind !in s.nesting ==> depth <= MAX_VALUE_DEPTH)
  }

  lemma EnteredIsShallow(s: Schema, l: Limits, kind: Kind, depth: nat, c: Counts)
    requires WellFormed(s) && Enterable(s, kind, depth) && Enter(s, l, kind, depth, c).error.None?
    ensures depth <= MAX_VALUE_DEPTH
  {}

  lemma BudgetShrinks(s: Schema, kind: Kind, depth: nat, n: nat)
    requires WellFormed(s) && depth <= MAX_VALUE_DEPTH && kind in s.tables && n in s.tables[kind]
    requires s.tables[kind][n].message.Some?
    ensures var child := s.tables[kind][n].message.value;
            && child in s.tables && Enterable(s, child, ChildDepth(s, child, depth))
            && Budget(s, child, ChildDepth(s, child, depth)) < Budget(s, kind, depth)
  {
    var child := s.tables[kind][n].message.value;
    assert FieldOk(s, kind, s.tables[kind][n]);
    var r := s.maxRank + 1;
    assert (MAX_VALUE_DEPTH + 1 - depth) * r == (MAX_VALUE_DEPTH - depth) * r + r;
  }

  /** HEIGHT. A tree that keeps to the tables and nests no too deeply is no higher than the budget. */
  function Height(t: Tree): nat
    decreases t
  {
    match t
    case End => 1
    case Plain(_, rest) => Height(rest)
    case Sub(_, _, _, body, rest) => if 1 + Height(body) > Height(rest) then 1 + Height(body) else Height(rest)
  }

  lemma {:induction false} DecodedHeight(s: Schema, data: seq<byte>, position: nat, end: nat, kind: Kind, depth: nat)
    requires WellFormed(s) && position <= end <= |data| && kind in s.tables && depth <= MAX_VALUE_DEPTH
    requires Decode(s, data, position, end, kind).Some?
    requires Shallow(s, kind, depth, Decode(s, data, position, end, kind).value)
    ensures Height(Decode(s, data, position, end, kind).value) <= Budget(s, kind, depth)
    decreases end - position
  {
    hide ReadField, WellFormed, Budget;
    assert Budget(s, kind, depth) >= 1 by { BudgetPositive(s, kind, depth); }
    if position < end {
      var f := ReadField(TableOf(s, kind), data, position, end).value;
      DecodedHeight(s, data, f.next, end, kind, depth);
      if IsMessage(f) {
        var child := f.spec.value.message.value;
        FieldInTable(s, data, position, end, kind);
        BudgetShrinks(s, kind, depth, f.number);
        ShallowChild(s, child, depth);
        DecodedHeight(s, data, f.body, f.next, child, ChildDepth(s, child, depth));
      }
    }
  }

  lemma BudgetPositive(s: Schema, kind: Kind, depth: nat)
    requires depth <= MAX_VALUE_DEPTH
    ensures Budget(s, kind, depth) >= 1
  {
    assert (MAX_VALUE_DEPTH + 1 - depth) * (s.maxRank + 1) >= 0;
  }

  lemma FieldInTable(s: Schema, data: seq<byte>, position: nat, end: nat, kind: Kind)
    requires position < end <= |data| && ReadField(TableOf(s, kind), data, position, end).Some?
    ensures var f := ReadField(TableOf(s, kind), data, position, end).value;
            f.spec.Some? ==> kind in s.tables && f.number in s.tables[kind] && s.tables[kind][f.number] == f.spec.value
  {}

  lemma ShallowChild(s: Schema, child: Kind, depth: nat)
    requires WellFormed(s) && depth <= MAX_VALUE_DEPTH && ShallowSelf(s, child, ChildDepth(s, child, depth))
    ensures ChildDepth(s, child, depth) <= MAX_VALUE_DEPTH
  {}

  /** COST. On any input and however it ends, the walk visits at most one field more than the budget. */
  lemma {:induction false} FieldVisitsAreBounded(s: Schema, l: Limits, data: seq<byte>, start: nat, end: nat,
                                                 kind: Kind, depth: nat, c: Counts)
    requires start <= end <= |data| && c.fields <= l.fields
    ensures var w := Message(s, l, data, start, end, kind, depth, c);
            c.fields <= w.counts.fields <= l.fields + 1 && (w.error.None? ==> w.counts.fields <= l.fields)
    decreases end - start, 1
  {
    var w := Enter(s, l, kind, depth, c);
    if w.error.None? { FieldsAreBounded(s, l, data, start, end, kind, depth, {}, 0, w.counts); }
  }

  lemma {:induction false} FieldsAreBounded(s: Schema, l: Limits, data: seq<byte>, position: nat, end: nat,
                                            kind: Kind, depth: nat,
                                            seen: set<nat>, container: nat, c: Counts)
    requires position <= end <= |data| && c.fields <= l.fields
    ensures var w := Fields(s, l, data, position, end, kind, depth, seen, container, c);
            c.fields <= w.counts.fields <= l.fields + 1 && (w.error.None? ==> w.counts.fields <= l.fields)
    decreases end - position, 0
  {
    hide ReadField, Message;
    var w := FieldVisited(l, c);
    if position < end && w.error.None? && ReadField(TableOf(s, kind), data, position, end).Some? {
      var f := ReadField(TableOf(s, kind), data, position, end).value;
      FieldBounds(s, data, position, end, kind);
      if !IsMessage(f) {
        var w1 := if f.spec.Some? && f.spec.value.repeated then OneObject(l, w.counts) else w;
        if w1.error.None? { FieldsAreBounded(s, l, data, f.next, end, kind, depth, seen, container, w1.counts); }
      } else {
        var w1 := Announce(s, l, kind, depth, f, seen, container, w.counts);
        if w1.error.None? {
          var child := f.spec.value.message.value;
          FieldVisitsAreBounded(s, l, data, f.body, f.next, child, ChildDepth(s, child, depth), w1.counts);
          var w2 := Message(s, l, data, f.body, f.next, child, ChildDepth(s, child, depth), w1.counts);
          if w2.error.None? {
            FieldsAreBounded(s, l, data, f.next, end, kind, depth, SeenAfter(f, seen),
                ContainerAfter(s, kind, f, container), w2.counts);
          }
        }
      }
    }
  }

  /** The bytes of a range, whatever lies outside it. */
  predicate SameRange(a: seq<byte>, b: seq<byte>, start: nat, end: nat)
    requires end <= |a| && end <= |b|
  {
    forall i :: start <= i < end ==> a[i] == b[i]
  }

  lemma {:induction false} VarintLocal(a: seq<byte>, b: seq<byte>, position: nat, end: nat, k: nat)
    requires end <= |a| && end <= |b| && SameRange(a, b, position, end)
    ensures VarintFrom(a, position, end, k) == VarintFrom(b, position, end, k)
    decreases end - position
  {
    if position < end { VarintLocal(a, b, position + 1, end, k + 1); }
  }

  lemma ReadLocal(table: map<nat, Spec>, a: seq<byte>, b: seq<byte>, position: nat, end: nat)
    requires position < end <= |a| && end <= |b| && SameRange(a, b, position, end)
    ensures ReadField(table, a, position, end) == ReadField(table, b, position, end)
  {
    hide VarintFrom;
    VarintLocal(a, b, position, end, 0);
    if VarintFrom(a, position, end, 0).Some? {
      VarintLocal(a, b, VarintFrom(a, position, end, 0).value.1, end, 0);
    }
  }

  /** LOCALITY. What a message's walk does depends on the bytes of its own range only. */
  lemma {:induction false} WalkStaysInRange(s: Schema, l: Limits, a: seq<byte>, b: seq<byte>, start: nat, end: nat,
                                            kind: Kind, depth: nat, c: Counts)
    requires start <= end <= |a| && end <= |b| && SameRange(a, b, start, end)
    ensures Message(s, l, a, start, end, kind, depth, c) == Message(s, l, b, start, end, kind, depth, c)
    decreases end - start, 1
  {
    var w := Enter(s, l, kind, depth, c);
    if w.error.None? { FieldsStayInRange(s, l, a, b, start, end, kind, depth, {}, 0, w.counts); }
  }

  lemma {:induction false} FieldsStayInRange(s: Schema, l: Limits, a: seq<byte>, b: seq<byte>, position: nat,
                                             end: nat, kind: Kind,
                                             depth: nat, seen: set<nat>, container: nat, c: Counts)
    requires position <= end <= |a| && end <= |b| && SameRange(a, b, position, end)
    ensures Fields(s, l, a, position, end, kind, depth, seen, container, c)
              == Fields(s, l, b, position, end, kind, depth, seen, container, c)
    decreases end - position, 0
  {
    hide ReadField, Message, FieldVisited, Announce, OneObject, SeenAfter, ContainerAfter;
    var w := FieldVisited(l, c);
    if position < end && w.error.None? {
      ReadLocal(TableOf(s, kind), a, b, position, end);
      if ReadField(TableOf(s, kind), a, position, end).Some? {
        var f := ReadField(TableOf(s, kind), a, position, end).value;
        FieldBounds(s, a, position, end, kind);
        if !IsMessage(f) {
          var w1 := if f.spec.Some? && f.spec.value.repeated then OneObject(l, w.counts) else w;
          FieldsStayInRange(s, l, a, b, f.next, end, kind, depth, seen, container, w1.counts);
        } else {
          var w1 := Announce(s, l, kind, depth, f, seen, container, w.counts);
          var child := f.spec.value.message.value;
          WalkStaysInRange(s, l, a, b, f.body, f.next, child, ChildDepth(s, child, depth), w1.counts);
          var w2 := Message(s, l, a, f.body, f.next, child, ChildDepth(s, child, depth), w1.counts);
          FieldsStayInRange(s, l, a, b, f.next, end, kind, depth, SeenAfter(f, seen),
              ContainerAfter(s, kind, f, container), w2.counts);
        }
      }
    }
  }

  // ---- the scanner -----------------------------------------------------------------------------

  function Pow128(k: nat): nat {
    if k == 0 then 1 else 128 * Pow128(k - 1)
  }

  class Scanner {
    const s: Schema
    const l: Limits
    const data: seq<byte>
    var counts: Counts

    constructor (s: Schema, l: Limits, data: seq<byte>)
      ensures this.s == s && this.l == l && this.data == data && counts == Zero
    {
      this.s := s;
      this.l := l;
      this.data := data;
      counts := Zero;
    }

    /** `_varint`: seven bits a byte, ten bytes at most, inside the range. */
    method Varint(start: nat, end: nat) returns (r: Option<(nat, nat)>)
      requires end <= |data|
      ensures r == VarintFrom(data, start, end, 0)
    {
      var position, result, k := start, 0, 0;
      while true
        invariant position == start + k
        invariant VarintFrom(data, start, end, 0)
               == (match VarintFrom(data, position, end, k)
                   case None => None
                   case Some((v, next)) => Some((result + Pow128(k) * v, next)))
        decreases end - position
      {
        if position >= end || k > 9 {
          return None;
        }
        var b := data[position] as nat;
        if b < 128 {
          return Some((result + Pow128(k) * b, position + 1));
        }
        ghost var rest := VarintFrom(data, position + 1, end, k + 1);
        if rest.Some? {
          assert result + Pow128(k) * (b % 128 + 128 * rest.value.0)
              == (result + Pow128(k) * (b % 128)) + Pow128(k + 1) * rest.value.0 by {
            Shifted(k, b % 128, rest.value.0);
          }
        }
        result := result + Pow128(k) * (b % 128);
        position := position + 1;
        k := k + 1;
      }
    }

    /** `_field_visited`. */
    method VisitField() returns (e: Option<Code>)
      modifies this`counts
      ensures Walked(counts, e) == FieldVisited(l, old(counts))
    {
      counts := counts.(fields := counts.fields + 1);
      if counts.fields > l.fields {
        return Some(TooManyFields);
      }
      return None;
    }

    /** `_objects(1)`. */
    method CountObject() returns (e: Option<Code>)
      modifies this`counts
      ensures Walked(counts, e) == OneObject(l, old(counts))
    {
      counts := counts.(objects := counts.objects + 1);
      if counts.objects > l.objects {
        return Some(TooManyObjects);
      }
      return None;
    }

    /** `_attribute`. */
    method CountAttribute(depth: nat) returns (e: Option<Code>)
      modifies this`counts
      ensures Walked(counts, e) == Attribute(l, old(counts), depth)
    {
      counts := counts.(attributes := counts.attributes + 1);
      if counts.attributes > l.attributes || depth > MAX_VALUE_DEPTH {
        return Some(TooManyAttributes);
      }
      return None;
    }

    /** `_record`. */
    method CountRecord() returns (e: Option<Code>)
      modifies this`counts
      ensures Walked(counts, e) == Record(l, old(counts))
    {
      counts := counts.(records := counts.records + 1);
      if counts.records > l.records {
        return Some(TooManyRecords);
      }
      return None;
    }

    /** `_enter`. */
    method EnterMessage(kind: Kind, depth: nat) returns (e: Option<Code>)
      modifies this`counts
      ensures Walked(counts, e) == Enter(s, l, kind, depth, old(counts))
    {
      if kind == s.keyValue {
        e := CountAttribute(depth);
      } else if kind == s.span {
        counts := counts.(spans := counts.spans + 1);
        if counts.spans > l.spans {
          return Some(TooManySpans);
        }
        e := CountRecord();
      } else if kind == s.event {
        e := CountRecord();
      } else if kind == s.link {
        counts := counts.(links := counts.links + 1);
        e := if counts.links > l.links then Some(TooManyLinks) else None;
      } else if kind == s.scopeSpans {
        counts := counts.(scopes := counts.scopes + 1);
        e := if counts.scopes > l.scopes then Some(TooManyScopes) else None;
      } else if kind == s.resourceSpans {
        counts := counts.(resources := counts.resources + 1);
        e := if counts.resources > l.resources then Some(TooManyResources) else None;
      } else if kind in s.nesting && depth > MAX_VALUE_DEPTH {
        e := Some(TooManyAttributes);
      } else {
        e := None;
      }
    }

    /** `_skip`. */
    method SkipScalar(position: nat, end: nat, wireType: nat) returns (r: Option<nat>)
      requires position <= end <= |data|
      ensures r == Skip(data, position, end, wireType)
    {
      if wireType == VARINT {
        var v := Varint(position, end);
        return if v.Some? then Some(v.value.1) else None;
      }
      var next := position + (if wireType == FIXED64 then 8 else 4);
      return if next > end then None else Some(next);
    }

    /** `_skip_unknown`, and the same bytes as the decoder reads them. */
    method SkipUnknown(position: nat, end: nat, wireType: nat) returns (r: Option<nat>)
      requires position <= end <= |data|
      ensures r == UnknownEnd(data, position, end, wireType)
    {
      if wireType == LENGTH_DELIMITED {
        var v := Varint(position, end);
        if v.None? || v.value.1 + v.value.0 > end {
          return None;
        }
        return Some(v.value.1 + v.value.0);
      }
      if wireType in {VARINT, FIXED64, FIXED32} {
        r := SkipScalar(position, end, wireType);
        return;
      }
      return None;
    }

    /** `_plain_attribute`: nothing counted unless the shape is the common one, then as the walk would. */
    method PlainAttribute(start: nat, end: nat, depth: nat) returns (plain: bool, e: Option<Code>)
      requires start <= end <= |data|
      modifies this`counts
      ensures plain == PlainShape(s, data, start, end)
      ensures plain ==> Walked(counts, e) == PlainWalk(l, old(counts), depth)
      ensures !plain ==> counts == old(counts) && e == None
    {
      if end - start < 4 || data[start] as nat != Tag(s.key) || data[start + 1] >= 128 {
        return false, None;
      }
      var valueAt := start + 2 + data[start + 1] as nat;
      if valueAt + 3 > end || data[valueAt] as nat != Tag(s.value) {
        return false, None;
      }
      var valueLength, valueStart := data[valueAt + 1], valueAt + 2;
      if valueLength >= 128 || valueStart + valueLength as nat != end {
        return false, None;
      }
      if data[valueStart] as nat != Tag(s.stringValue) || valueStart + 1 >= end {
        return false, None;
      }
      var stringLength := data[valueStart + 1];
      if stringLength >= 128 || valueStart + 2 + stringLength as nat != end {
        return false, None;
      }
      e := CountAttribute(depth);
      if e.Some? {
        return true, e;
      }
      ghost var counted := counts;
      for i := 0 to 3
        invariant Visits(l, counted, 3) == Visits(l, counts, 3 - i)
      {
        e := VisitField();
        if e.Some? {
          return true, e;
        }
      }
      return true, None;
    }

    /** The tag and length of the next field, with the one-byte cases read inline. */
    method ReadNext(table: map<nat, Spec>, start: nat, end: nat) returns (r: Option<Field>)
      requires start < end <= |data|
      ensures r == ReadField(table, data, start, end)
    {
      hide UnknownEnd, Skip;
      var tag, position := data[start] as nat, start + 1;
      if tag >= 128 {
        var v := Varint(start, end);
        if v.None? {
          return None;
        }
        tag, position := v.value.0, v.value.1;
      }
      assert VarintFrom(data, start, end, 0) == Some((tag, position));
      var number, wireType := tag / 8, tag % 8;
      if number !in table {
        var next := SkipUnknown(position, end, wireType);
        UnknownIsRead(table, data, start, end, tag, position);
        if next.None? {
          return None;
        }
        var body := if wireType == LENGTH_DELIMITED then BodyOf(data, position, end) else next.value;
        return Some(Field(number, None, body, next.value));
      }
      var spec := table[number];
      if wireType == LENGTH_DELIMITED {
        var length, body: nat;
        if position < end && data[position] < 128 {
          length, body := data[position] as nat, position + 1;
        } else {
          var v := Varint(position, end);
          if v.None? {
            return None;
          }
          length, body := v.value.0, v.value.1;
        }
        assert VarintFrom(data, position, end, 0) == Some((length, body));
        if body + length > end || spec.wireType != LENGTH_DELIMITED {
          return None;
        }
        return Some(Field(number, Some(spec), body, body + length));
      }
      if wireType != spec.wireType {
        return None;
      }
      var next := SkipScalar(position, end, wireType);
      return if next.None? then None else Some(Field(number, Some(spec), next.value, next.value));
    }

    /** `_message`. The recursion is bounded by `Budget`, which the schema and the depth fix. */
    method ScanMessage(start: nat, end: nat, kind: Kind, depth: nat) returns (e: Option<Code>)
      requires WellFormed(s) && start <= end <= |data| && kind in s.tables && Enterable(s, kind, depth)
      modifies this`counts
      ensures Walked(counts, e) == Message(s, l, data, start, end, kind, depth, old(counts))
      decreases Budget(s, kind, depth)
    {
      hide WellFormed, Budget, ReadField, FieldVisited, OneObject, Attribute, Enter, PlainShape, PlainWalk;
      hide TableOf, Enterable;
      ghost var whole := Message(s, l, data, start, end, kind, depth, counts);
      ghost var entry := counts;
      e := EnterMessage(kind, depth);
      if e.Some? {
        return;
      }
      EnteredIsShallow(s, l, kind, depth, entry);
      var table := s.tables[kind];
      assert table == TableOf(s, kind) by { KnownTable(s, kind); }
      var seen: set<nat> := {};
      var container := 0;
      var position := start;
      while position < end
        invariant start <= position <= end
        invariant whole == Fields(s, l, data, position, end, kind, depth, seen, container, counts)
      {
        e := VisitField();
        if e.Some? {
          return;
        }
        var next := ReadNext(table, position, end);
        if next.None? {
          return Some(MalformedRequest);
        }
        var f := next.value;
        FieldBounds(s, data, position, end, kind);
        if !IsMessage(f) {
          if f.spec.Some? && f.spec.value.repeated {
            e := CountObject();
            if e.Some? {
              return;
            }
          }
        } else {
          e := ScanSub(kind, depth, f, seen, container, position, end);
          if e.Some? {
            return;
          }
          seen := SeenAfter(f, seen);
          container := ContainerAfter(s, kind, f, container);
        }
        position := f.next;
      }
      e := None;
    }

    /** One message field: announced, then read inline or descended into. */
    method ScanSub(kind: Kind, depth: nat, f: Field, seen: set<nat>, container: nat, ghost position: nat,
                   ghost end: nat)
      returns (e: Option<Code>)
      requires WellFormed(s) && position < end <= |data| && kind in s.tables && depth <= MAX_VALUE_DEPTH
      requires ReadField(TableOf(s, kind), data, position, end) == Some(f) && IsMessage(f)
      requires f.body <= f.next <= end
      modifies this`counts
      ensures var w, child := Announce(s, l, kind, depth, f, seen, container, old(counts)), f.spec.value.message.value;
              Walked(counts, e) == if w.error.Some? then w
                                   else Message(s, l, data, f.body, f.next, child, ChildDepth(s, child, depth),
                                       w.counts)
      decreases Budget(s, kind, depth), 0
    {
      hide WellFormed, Budget, ReadField, OneObject, Attribute, Message, PlainShape, PlainWalk, TableOf, Enterable;
      FieldInTable(s, data, position, end, kind);
      BudgetShrinks(s, kind, depth, f.number);
      if f.spec.value.repeated {
        e := CountObject();
        if e.Some? {
          return;
        }
      } else if f.number in seen {
        return Some(RepeatedSingularField);
      }
      if kind in s.containers && f.number in s.containerAttributes && container + 1 > l.containerAttributes {
        return Some(TooManyAttributes);
      }
      if kind == s.arrayValue {
        e := CountAttribute(depth);
        if e.Some? {
          return;
        }
      }
      ghost var announced := counts;
      assert Announce(s, l, kind, depth, f, seen, container, old(counts)) == Go(announced);
      var child := f.spec.value.message.value;
      var childDepth := ChildDepth(s, child, depth);
      if child == s.keyValue {
        var plain;
        plain, e := PlainAttribute(f.body, f.next, childDepth);
        if plain {
          SchemaPlain(s);
          FastPathIsExact(s, l, data, f.body, f.next, childDepth, announced);
          return;
        }
      }
      e := ScanMessage(f.body, f.next, child, childDepth);
    }
  }

  /** `scan`: the counts, or the first code. */
  method ScanRequest(s: Schema, l: Limits, data: seq<byte>) returns (r: Result<Counts, Code>)
    requires WellFormed(s)
    ensures r == if Scan(s, l, data).error.None? then Ok(Scan(s, l, data).counts) else Err(Scan(s, l, data).error.value)
  {
    hide Message, WellFormed;
    RequestEnterable(s);
    var scanner := new Scanner(s, l, data);
    var e := scanner.ScanMessage(0, |data|, s.request, 0);
    if e.Some? {
      return Err(e.value);
    }
    return Ok(scanner.counts);
  }

  lemma Shifted(k: nat, b: nat, v: nat)
    ensures Pow128(k) * (b + 128 * v) == Pow128(k) * b + Pow128(k + 1) * v
  {
    assert Pow128(k + 1) == 128 * Pow128(k);
    assert Pow128(k) * (b + 128 * v) == Pow128(k) * b + Pow128(k) * (128 * v);
    assert Pow128(k) * (128 * v) == (128 * Pow128(k)) * v;
  }

  /** Where an unknown field ends: skipped by its length, never descended into. */
  function UnknownEnd(data: seq<byte>, position: nat, end: nat, wireType: nat): Option<nat>
    requires position <= end <= |data|
  {
    if wireType == LENGTH_DELIMITED then
      match LengthDelimited(data, position, end)
      case None => None
      case Some((_, next)) => Some(next)
    else if wireType in {VARINT, FIXED64, FIXED32} then Skip(data, position, end, wireType)
    else None
  }

  function BodyOf(data: seq<byte>, position: nat, end: nat): nat
    requires position <= end <= |data|
  {
    match LengthDelimited(data, position, end)
    case None => position
    case Some((body, _)) => body
  }

  lemma UnknownIsRead(table: map<nat, Spec>, data: seq<byte>, start: nat, end: nat, tag: nat, position: nat)
    requires start < end <= |data| && VarintFrom(data, start, end, 0) == Some((tag, position)) && tag / 8 !in table
    ensures position <= end
    ensures var next := UnknownEnd(data, position, end, tag % 8);
            ReadField(table, data, start, end)
            == if next.None? then None
               else
                 var body := if tag % 8 == LENGTH_DELIMITED then BodyOf(data, position, end) else next.value;
                 Some(Field(tag / 8, None, body, next.value))
  {
    hide VarintFrom;
  }

  lemma KnownTable(s: Schema, kind: Kind)
    requires kind in s.tables
    ensures TableOf(s, kind) == s.tables[kind]
  {}

  lemma SchemaPlain(s: Schema)
    requires WellFormed(s)
    ensures PlainFields(s)
  {}

  lemma RequestEnterable(s: Schema)
    requires WellFormed(s)
    ensures s.request in s.tables && Enterable(s, s.request, 0)
  {}
}

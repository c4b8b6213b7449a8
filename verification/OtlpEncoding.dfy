/** The wire format written rather than read: fields with varints of any width up to ten bytes, encoded to
    bytes. The reference decoder is its exact inverse, so what the scan accepts is fixed by what can be
    written, not by how it is read. */
module OtlpEncoding {
  import opened Orders
  import opened OtlpWire

  /** The body of a field; lengths and numbers may be padded to a wider varint than they need. */
  datatype Wire =
    | Number(value: nat, width: nat)
    | Fixed(bytes: seq<byte>)
    | Bytes(width: nat, content: seq<byte>)
    | Nested(width: nat, body: Fields)

  /** The fields of a message in order, each with its number and the width of its tag. */
  datatype Fields = Done | More(number: nat, tagWidth: nat, wire: Wire, rest: Fields)

  function Pow128(n: nat): nat {
    if n == 0 then 1 else 128 * Pow128(n - 1)
  }

  predicate FitsVarint(value: nat, width: nat) {
    1 <= width <= 10 && value < Pow128(width)
  }

  function EncodeVarint(value: nat, width: nat): (r: seq<byte>)
    requires width >= 1 && value < Pow128(width)
    ensures |r| == width
  {
    if width == 1 then [value as byte] else [(value % 128 + 128) as byte] + EncodeVarint(value / 128, width - 1)
  }

  function WireType(w: Wire): nat {
    match w
    case Number(_, _) => VARINT
    case Fixed(bytes) => if |bytes| == 8 then FIXED64 else FIXED32
    case Bytes(_, _) => LENGTH_DELIMITED
    case Nested(_, _) => LENGTH_DELIMITED
  }

  /** Every varint fits its width and every fixed scalar has its size. */
  predicate Writable(fs: Fields)
    decreases fs, 0
  {
    match fs
    case Done => true
    case More(number, tagWidth, wire, rest) =>
      FitsVarint(number * 8 + WireType(wire), tagWidth) && WritableWire(wire) && Writable(rest)
  }

  predicate WritableWire(w: Wire)
    decreases w, 0
  {
    match w
    case Number(value, width) => FitsVarint(value, width)
    case Fixed(bytes) => |bytes| == 8 || |bytes| == 4
    case Bytes(width, content) => FitsVarint(|content|, width)
    case Nested(width, body) => Writable(body) && FitsVarint(|Encode(body)|, width)
  }

  function Encode(fs: Fields): seq<byte>
    requires Writable(fs)
    decreases fs, 1
  {
    match fs
    case Done => []
    case More(number, tagWidth, wire, rest) =>
      EncodeVarint(number * 8 + WireType(wire), tagWidth) + EncodeWire(wire) + Encode(rest)
  }

  function EncodeWire(w: Wire): seq<byte>
    requires WritableWire(w)
    decreases w, 1
  {
    match w
    case Number(value, width) => EncodeVarint(value, width)
    case Fixed(bytes) => bytes
    case Bytes(width, content) => EncodeVarint(|content|, width) + content
    case Nested(width, body) => EncodeVarint(|Encode(body)|, width) + Encode(body)
  }

  /** Known fields have the declared wire type, message fields and no others hold messages of the declared
      kind, and unknown fields are passed over whole. */
  predicate Typed(s: Schema, kind: Kind, fs: Fields)
    decreases fs
  {
    match fs
    case Done => true
    case More(number, _, wire, rest) =>
      var table := TableOf(s, kind);
      && (if number in table then
            && WireType(wire) == table[number].wireType && (wire.Nested? <==> table[number].message.Some?)
            && (wire.Nested? ==> Typed(s, table[number].message.value, wire.body))
          else !wire.Nested?)
      && Typed(s, kind, rest)
  }

  /** The field tree: everything but messages is plain. */
  function Shape(s: Schema, kind: Kind, fs: Fields): Tree
    requires Typed(s, kind, fs)
    decreases fs
  {
    match fs
    case Done => End
    case More(number, _, wire, rest) =>
      var table := TableOf(s, kind);
      if wire.Nested? then
        var child := table[number].message.value;
        Sub(number, table[number].repeated, child, Shape(s, child, wire.body), Shape(s, kind, rest))
      else Plain(number in table && table[number].repeated, Shape(s, kind, rest))
  }

  // ---- varints ---------------------------------------------------------------------------------

  /** A written varint reads back, whatever follows it. */
  lemma {:induction false} VarintReads(data: seq<byte>, position: nat, end: nat, k: nat, value: nat, width: nat)
    requires 1 <= width && width + k <= 10 && value < Pow128(width) && position + width <= end <= |data|
    requires data[position..position + width] == EncodeVarint(value, width)
    ensures VarintFrom(data, position, end, k) == Some((value, position + width))
    decreases width
  {
    var written := EncodeVarint(value, width);
    assert data[position] == written[0];
    if width > 1 {
      assert data[position + 1..position + width] == written[1..];
      VarintReads(data, position + 1, end, k + 1, value / 128, width - 1);
    }
  }

  /** And what reads as a varint was written as one. */
  lemma {:induction false} VarintWritten(data: seq<byte>, position: nat, end: nat, k: nat)
    requires end <= |data| && VarintFrom(data, position, end, k).Some?
    ensures var (value, next) := VarintFrom(data, position, end, k).value;
            && position < next && next - position + k <= 10 && value < Pow128(next - position)
            && data[position..next] == EncodeVarint(value, next - position)
    decreases end - position
  {
    if data[position] >= 128 {
      VarintWritten(data, position + 1, end, k + 1);
      var (value, next) := VarintFrom(data, position + 1, end, k + 1).value;
      var low := data[position] as nat % 128;
      assert (low + 128 * value) / 128 == value && (low + 128 * value) % 128 == low;
      assert data[position..next] == [data[position]] + data[position + 1..next];
    }
  }

  lemma Slices(data: seq<byte>, position: nat, end: nat, a: seq<byte>, b: seq<byte>)
    requires position <= end <= |data| && data[position..end] == a + b
    ensures position + |a| <= end && data[position..position + |a|] == a && data[position + |a|..end] == b
  {
    assert data[position..end][..|a|] == a && data[position..end][|a|..] == b;
  }

  // ---- one field -------------------------------------------------------------------------------

  /** How the reader sees a written field. */
  ghost predicate ReadsAs(table: map<nat, Spec>, f: Field, number: nat, wire: Wire, data: seq<byte>) {
    && f.number == number && f.spec == (if number in table then Some(table[number]) else None)
    && f.body <= f.next <= |data|
    && (wire.Nested? ==> WritableWire(wire) && data[f.body..f.next] == Encode(wire.body))
  }

  lemma BodyReads(data: seq<byte>, at: nat, end: nat, next: nat, width: nat, content: seq<byte>)
    requires at <= next <= end <= |data| && FitsVarint(|content|, width)
    requires data[at..next] == EncodeVarint(|content|, width) + content
    ensures LengthDelimited(data, at, end) == Some((at + width, next)) && data[at + width..next] == content
  {
    Slices(data, at, next, EncodeVarint(|content|, width), content);
    VarintReads(data, at, end, 0, |content|, width);
  }

  /** A well-typed written field is read whole. */
  lemma FieldReads(s: Schema, kind: Kind, data: seq<byte>, position: nat, end: nat, fs: Fields) returns (f: Field)
    requires fs.More? && Writable(fs) && Typed(s, kind, fs)
    requires position <= end <= |data| && data[position..end] == Encode(fs)
    ensures position < end && ReadField(TableOf(s, kind), data, position, end) == Some(f)
    ensures ReadsAs(TableOf(s, kind), f, fs.number, fs.wire, data)
    ensures position < f.next <= end && data[f.next..end] == Encode(fs.rest)
  {
    hide Encode, EncodeWire, EncodeVarint, VarintFrom, Typed, Skip;
    var table := TableOf(s, kind);
    var tag, width := fs.number * 8 + WireType(fs.wire), fs.tagWidth;
    EncodedParts(fs);
    Slices(data, position, end, EncodeVarint(tag, width), EncodeWire(fs.wire) + Encode(fs.rest));
    var at := position + width;
    Slices(data, at, end, EncodeWire(fs.wire), Encode(fs.rest));
    var next := at + |EncodeWire(fs.wire)|;
    VarintReads(data, position, end, 0, tag, width);
    TagSplits(fs.number, WireType(fs.wire));
    TypedField(s, kind, fs);
    var body := WireReads(data, at, end, next, fs.wire);
    f := Field(fs.number, if fs.number in table then Some(table[fs.number]) else None, body, next);
  }

  lemma EncodedParts(fs: Fields)
    requires fs.More? && Writable(fs)
    ensures Encode(fs) == EncodeVarint(fs.number * 8 + WireType(fs.wire), fs.tagWidth)
              + (EncodeWire(fs.wire) + Encode(fs.rest))
    ensures |EncodeVarint(fs.number * 8 + WireType(fs.wire), fs.tagWidth)| == fs.tagWidth >= 1
  {
    hide EncodeWire, EncodeVarint;
  }

  lemma TagSplits(number: nat, wireType: nat)
    requires wireType < 8
    ensures (number * 8 + wireType) / 8 == number && (number * 8 + wireType) % 8 == wireType
  {}

  lemma TypedField(s: Schema, kind: Kind, fs: Fields)
    requires fs.More? && Typed(s, kind, fs)
    ensures var table := TableOf(s, kind);
            && (fs.number in table ==>
                  WireType(fs.wire) == table[fs.number].wireType
                    && (fs.wire.Nested? <==> table[fs.number].message.Some?))
            && (fs.number !in table ==> !fs.wire.Nested?)
            && Typed(s, kind, fs.rest)
  {}

  /** The body of a field, read by its wire type. */
  lemma WireReads(data: seq<byte>, at: nat, end: nat, next: nat, wire: Wire) returns (body: nat)
    requires WritableWire(wire) && at <= next <= end <= |data| && data[at..next] == EncodeWire(wire)
    ensures at < next && at <= body <= next
    ensures WireType(wire) == LENGTH_DELIMITED ==> LengthDelimited(data, at, end) == Some((body, next))
    ensures WireType(wire) != LENGTH_DELIMITED ==> Skip(data, at, end, WireType(wire)) == Some(next) && body == next
    ensures wire.Nested? ==> data[body..next] == Encode(wire.body)
  {
    hide Encode, VarintFrom;
    match wire {
      case Number(value, width) =>
        VarintReads(data, at, end, 0, value, width);
        body := next;
      case Fixed(bytes) =>
        body := next;
      case Bytes(width, content) =>
        BodyReads(data, at, end, next, width, content);
        body := at + width;
      case Nested(width, fields) =>
        BodyReads(data, at, end, next, width, Encode(fields));
        body := at + width;
    }
  }

  // ---- whole messages --------------------------------------------------------------------------

  /** WRITE, THEN DECODE. Every well-typed list of fields decodes to its shape, whatever widths its varints
      were written with and whatever surrounds it. */
  lemma {:induction false} EncodedDecodes(s: Schema, kind: Kind, data: seq<byte>, position: nat, end: nat, fs: Fields)
    requires Writable(fs) && Typed(s, kind, fs)
    requires position <= end <= |data| && data[position..end] == Encode(fs)
    ensures Decode(s, data, position, end, kind) == Some(Shape(s, kind, fs))
    decreases fs
  {
    hide ReadField, TableOf, Typed, Encode, Shape;
    if fs.Done? {
      assert Encode(fs) == [] && Shape(s, kind, fs) == End by { NothingEncoded(s, kind); }
    } else {
      var f := FieldReads(s, kind, data, position, end, fs);
      TypedField(s, kind, fs);
      ShapeOfField(s, kind, fs);
      EncodedDecodes(s, kind, data, f.next, end, fs.rest);
      if fs.wire.Nested? {
        var child := TableOf(s, kind)[fs.number].message.value;
        EncodedDecodes(s, child, data, f.body, f.next, fs.wire.body);
      }
    }
  }

  lemma NothingEncoded(s: Schema, kind: Kind)
    ensures Writable(Done) && Encode(Done) == [] && Typed(s, kind, Done) && Shape(s, kind, Done) == End
  {}

  lemma ShapeOfField(s: Schema, kind: Kind, fs: Fields)
    requires fs.More? && Typed(s, kind, fs)
    ensures var table := TableOf(s, kind);
            && Typed(s, kind, fs.rest)
            && (fs.wire.Nested? ==>
                  && fs.number in table && table[fs.number].message.Some?
                  && var child := table[fs.number].message.value;
                  && Typed(s, child, fs.wire.body)
                  && Shape(s, kind, fs)
                      == Sub(fs.number, table[fs.number].repeated, child, Shape(s, child, fs.wire.body),
                                               Shape(s, kind, fs.rest)))
            && (!fs.wire.Nested? ==>
                  Shape(s, kind, fs) == Plain(fs.number in table && table[fs.number].repeated, Shape(s, kind, fs.rest)))
  {}

  /** A known field's wire type is one of the four, and a message is length-delimited. */
  ghost predicate KnownWireTypes(s: Schema) {
    forall kind, n :: n in TableOf(s, kind) ==>
      && TableOf(s, kind)[n].wireType in {VARINT, FIXED64, LENGTH_DELIMITED, FIXED32}
      && (TableOf(s, kind)[n].message.Some? ==> TableOf(s, kind)[n].wireType == LENGTH_DELIMITED)
  }

  /** A tag and, for a length-delimited field, a length. */
  lemma FieldStarts(table: map<nat, Spec>, data: seq<byte>, position: nat, end: nat) returns (tag: nat, at: nat)
    requires position < end <= |data| && ReadField(table, data, position, end).Some?
    ensures var f := ReadField(table, data, position, end).value;
            && position < at <= f.body <= f.next <= end && f.number == tag / 8
            && FitsVarint(tag, at - position) && data[position..at] == EncodeVarint(tag, at - position)
            && f.spec == (if f.number in table then Some(table[f.number]) else None)
            && (tag % 8 == LENGTH_DELIMITED ==>
                  && LengthDelimited(data, at, end) == Some((f.body, f.next))
                  && (f.spec.Some? ==> f.spec.value.wireType == LENGTH_DELIMITED))
            && (tag % 8 != LENGTH_DELIMITED ==>
                  && Skip(data, at, end, tag % 8) == Some(f.next)
                  && (if f.spec.Some? then tag % 8 == f.spec.value.wireType else tag % 8 in {VARINT, FIXED64, FIXED32}))
  {
    hide EncodeVarint, VarintFrom, Skip, LengthDelimited;
    VarintWritten(data, position, end, 0);
    tag, at := VarintFrom(data, position, end, 0).value.0, VarintFrom(data, position, end, 0).value.1;
  }

  lemma LengthWritten(data: seq<byte>, at: nat, end: nat)
    requires at <= end <= |data| && LengthDelimited(data, at, end).Some?
    ensures var (body, next) := LengthDelimited(data, at, end).value;
            && at < body <= next <= end && FitsVarint(next - body, body - at)
            && data[at..next] == EncodeVarint(next - body, body - at) + data[body..next]
  {
    hide EncodeVarint, VarintFrom;
    VarintWritten(data, at, end, 0);
    var (body, next) := LengthDelimited(data, at, end).value;
    assert data[at..next] == data[at..body] + data[body..next];
  }

  lemma ScalarWritten(data: seq<byte>, at: nat, end: nat, wireType: nat) returns (wire: Wire)
    requires at <= end <= |data| && wireType in {VARINT, FIXED64, FIXED32} && Skip(data, at, end, wireType).Some?
    ensures !wire.Nested? && WritableWire(wire) && WireType(wire) == wireType
    ensures at < Skip(data, at, end, wireType).value <= end
    ensures EncodeWire(wire) == data[at..Skip(data, at, end, wireType).value]
  {
    hide EncodeVarint, VarintFrom;
    var next := Skip(data, at, end, wireType).value;
    if wireType == VARINT {
      VarintWritten(data, at, end, 0);
      wire := Number(VarintFrom(data, at, end, 0).value.0, next - at);
    } else {
      wire := Fixed(data[at..next]);
    }
  }

  /** What the reader read as a field was written as one. */
  lemma FieldWritten(s: Schema, kind: Kind, data: seq<byte>, position: nat, end: nat)
    returns (number: nat, tagWidth: nat, wire: Wire)
    requires KnownWireTypes(s) && position < end <= |data| && ReadField(TableOf(s, kind), data, position, end).Some?
    requires !IsMessage(ReadField(TableOf(s, kind), data, position, end).value)
    ensures var f, table := ReadField(TableOf(s, kind), data, position, end).value, TableOf(s, kind);
            && f.number == number && !wire.Nested? && WritableWire(wire)
            && FitsVarint(number * 8 + WireType(wire), tagWidth)
            && f.spec == (if number in table then Some(table[number]) else None)
            && (number in table ==> WireType(wire) == table[number].wireType && table[number].message.None?)
            && position < f.next <= end
            && data[position..f.next] == EncodeVarint(number * 8 + WireType(wire), tagWidth) + EncodeWire(wire)
  {
    hide EncodeVarint, VarintFrom, ReadField, LengthDelimited, Skip, TableOf;
    var table := TableOf(s, kind);
    var f := ReadField(table, data, position, end).value;
    var tag, at := FieldStarts(table, data, position, end);
    number, tagWidth := f.number, at - position;
    assert number in table ==> table[number].wireType in {VARINT, FIXED64, LENGTH_DELIMITED, FIXED32};
    if tag % 8 == LENGTH_DELIMITED {
      LengthWritten(data, at, end);
      wire := Bytes(f.body - at, data[f.body..f.next]);
    } else {
      wire := ScalarWritten(data, at, end, tag % 8);
    }
    assert number * 8 + WireType(wire) == tag;
    assert data[position..f.next] == data[position..at] + data[at..f.next];
  }

  lemma MessageWritten(s: Schema, kind: Kind, data: seq<byte>, position: nat, end: nat)
    returns (tagWidth: nat, width: nat)
    requires KnownWireTypes(s) && position < end <= |data| && ReadField(TableOf(s, kind), data, position, end).Some?
    requires IsMessage(ReadField(TableOf(s, kind), data, position, end).value)
    ensures var f := ReadField(TableOf(s, kind), data, position, end).value;
            && f.number in TableOf(s, kind) && f.spec == Some(TableOf(s, kind)[f.number])
            && TableOf(s, kind)[f.number].wireType == LENGTH_DELIMITED
            && f.body <= f.next && FitsVarint(f.number * 8 + LENGTH_DELIMITED, tagWidth)
            && FitsVarint(f.next - f.body, width)
            && data[position..f.next] == EncodeVarint(f.number * 8 + LENGTH_DELIMITED, tagWidth)
                                         + (EncodeVarint(f.next - f.body, width) + data[f.body..f.next])
  {
    hide EncodeVarint, VarintFrom, ReadField, LengthDelimited, Skip, TableOf;
    var table := TableOf(s, kind);
    var f := ReadField(table, data, position, end).value;
    var tag, at := FieldStarts(table, data, position, end);
    assert table[f.number].wireType == LENGTH_DELIMITED;
    LengthWritten(data, at, end);
    tagWidth, width := at - position, f.body - at;
    assert f.number * 8 + LENGTH_DELIMITED == tag;
    assert data[position..f.next] == data[position..at] + data[at..f.next];
  }

  /** DECODE, THEN WRITE. Whatever decodes was written: there are well-typed fields of that shape that encode
      to exactly those bytes. */
  lemma {:induction false} DecodedWasWritten(s: Schema, kind: Kind, data: seq<byte>, position: nat, end: nat)
    returns (fs: Fields)
    requires KnownWireTypes(s) && position <= end <= |data| && Decode(s, data, position, end, kind).Some?
    ensures Writable(fs) && Typed(s, kind, fs) && Encode(fs) == data[position..end]
    ensures Shape(s, kind, fs) == Decode(s, data, position, end, kind).value
    decreases end - position
  {
    hide ReadField, TableOf, KnownWireTypes, EncodeVarint, Encode, EncodeWire, Typed, Shape, Writable, WritableWire;
    if position == end {
      fs := Done;
      NothingEncoded(s, kind);
    } else {
      var f := ReadField(TableOf(s, kind), data, position, end).value;
      FieldBounds(s, data, position, end, kind);
      var rest := DecodedWasWritten(s, kind, data, f.next, end);
      assert data[position..end] == data[position..f.next] + data[f.next..end];
      if IsMessage(f) {
        var tagWidth, width := MessageWritten(s, kind, data, position, end);
        var body := DecodedWasWritten(s, f.spec.value.message.value, data, f.body, f.next);
        fs := More(f.number, tagWidth, Nested(width, body), rest);
        NestedJoins(s, kind, fs);
      } else {
        var number, tagWidth, wire := FieldWritten(s, kind, data, position, end);
        fs := More(number, tagWidth, wire, rest);
        PlainJoins(s, kind, fs);
      }
    }
  }

  lemma PlainJoins(s: Schema, kind: Kind, fs: Fields)
    requires fs.More? && !fs.wire.Nested? && WritableWire(fs.wire)
             && FitsVarint(fs.number * 8 + WireType(fs.wire), fs.tagWidth)
    requires Writable(fs.rest) && Typed(s, kind, fs.rest)
    requires var table := TableOf(s, kind);
             fs.number in table ==> WireType(fs.wire) == table[fs.number].wireType && table[fs.number].message.None?
    ensures Writable(fs) && Typed(s, kind, fs)
    ensures Encode(fs) == EncodeVarint(fs.number * 8 + WireType(fs.wire), fs.tagWidth) + EncodeWire(fs.wire)
              + Encode(fs.rest)
    ensures var table := TableOf(s, kind);
            Shape(s, kind, fs) == Plain(fs.number in table && table[fs.number].repeated, Shape(s, kind, fs.rest))
  {
    hide EncodeWire, EncodeVarint, TableOf, WritableWire;
  }

  lemma NestedJoins(s: Schema, kind: Kind, fs: Fields)
    requires fs.More? && fs.wire.Nested? && Writable(fs.wire.body) && Writable(fs.rest)
    requires FitsVarint(fs.number * 8 + LENGTH_DELIMITED, fs.tagWidth)
             && FitsVarint(|Encode(fs.wire.body)|, fs.wire.width)
    requires fs.number in TableOf(s, kind) && TableOf(s, kind)[fs.number].wireType == LENGTH_DELIMITED
    requires TableOf(s, kind)[fs.number].message.Some?
    requires Typed(s, TableOf(s, kind)[fs.number].message.value, fs.wire.body) && Typed(s, kind, fs.rest)
    ensures Writable(fs) && Typed(s, kind, fs)
    ensures Encode(fs) == EncodeVarint(fs.number * 8 + LENGTH_DELIMITED, fs.tagWidth)
                          + (EncodeVarint(|Encode(fs.wire.body)|, fs.wire.width) + Encode(fs.wire.body))
                              + Encode(fs.rest)
    ensures var spec := TableOf(s, kind)[fs.number];
            Shape(s, kind, fs) == Sub(fs.number, spec.repeated, spec.message.value,
                                      Shape(s, spec.message.value, fs.wire.body), Shape(s, kind, fs.rest))
  {
    hide EncodeVarint, TableOf;
  }

  /** WRITTEN. The scan accepts a request iff it is the encoding of some well-typed fields whose tree repeats
      no singular message, nests no too deeply and tallies within every limit; and it returns that tally. */
  lemma ScanAcceptsWhatCanBeWritten(s: Schema, l: Limits, data: seq<byte>, c: Counts)
    requires KnownWireTypes(s)
    ensures Scan(s, l, data) == Go(c)
            <==> exists fs :: Writable(fs) && Typed(s, s.request, fs) && Encode(fs) == data
                              && AcceptedShape(s, l, Shape(s, s.request, fs))
                              && c == Tally(s, s.request, Shape(s, s.request, fs))
  {
    hide Scan, Decode, Encode, Writable, Typed, Shape, AcceptedShape, KnownWireTypes, Tally;
    ScanIsAcceptance(s, l, data);
    assert data[0..|data|] == data;
    if Decode(s, data, 0, |data|, s.request).Some? {
      var fs := DecodedWasWritten(s, s.request, data, 0, |data|);
    }
    forall fs | Writable(fs) && Typed(s, s.request, fs) && Encode(fs) == data
      ensures Decode(s, data, 0, |data|, s.request) == Some(Shape(s, s.request, fs))
    {
      EncodedDecodes(s, s.request, data, 0, |data|, fs);
    }
  }

  ghost predicate AcceptedShape(s: Schema, l: Limits, t: Tree) {
    Acceptable(s, l, s.request, 0, t, {}, 0) && Within(l, Tally(s, s.request, t))
  }

  lemma ScanIsAcceptance(s: Schema, l: Limits, data: seq<byte>)
    ensures var w, t := Scan(s, l, data), Decode(s, data, 0, |data|, s.request);
            && (w.error.None? <==> t.Some? && AcceptedShape(s, l, t.value))
            && (w.error.None? ==> w == Go(Tally(s, s.request, t.value)))
  {
    hide Scan, Decode, Acceptable, Tally;
    ScanDecidesAcceptability(s, l, data);
  }
}

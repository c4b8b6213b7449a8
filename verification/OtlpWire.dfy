/** The bounded structural scan of a protobuf message: the walk as a function of the bytes, a reference
    decoder for the same wire format ("Base 128 Varints" and "Message Structure" in the Protocol Buffers
    encoding specification), and the agreement of the two. */
module OtlpWire {
  import opened Orders

  newtype byte = x: int | 0 <= x < 256

  type Kind = string

  const VARINT: nat := 0
  const FIXED64: nat := 1
  const LENGTH_DELIMITED: nat := 2
  const FIXED32: nat := 5

  /** Nested attribute values deeper than this are refused. */
  const MAX_VALUE_DEPTH: nat := 4

  datatype Spec = Spec(wireType: nat, repeated: bool, message: Option<Kind>)

  /** The descriptor tables and the kinds the domain hooks know. `rank` orders the kinds along message
      fields that do not nest attribute values. */
  datatype Schema = Schema(tables: map<Kind, map<nat, Spec>>, request: Kind, resourceSpans: Kind, scopeSpans: Kind,
                           span: Kind, event: Kind, link: Kind, keyValue: Kind, arrayValue: Kind, anyValue: Kind,
                           nesting: set<Kind>, containers: set<Kind>, containerAttributes: set<nat>,
                           key: nat, value: nat, stringValue: nat, rank: map<Kind, nat>, maxRank: nat)

  function Ranked(s: Schema, kind: Kind): nat {
    if kind in s.rank then s.rank[kind] else 0
  }

  /** Kinds counted on entry. */
  predicate Counted(s: Schema, kind: Kind) {
    kind in {s.resourceSpans, s.scopeSpans, s.span, s.event, s.link, s.keyValue}
  }

  /** What `_tables` builds or refuses to build, and the shape of the traces schema: repeated fields are
      length-delimited, messages have tables, and every cycle of message types passes a nesting type. */
  ghost predicate WellFormed(s: Schema) {
    && s.request in s.tables && s.request !in s.nesting
    && (forall k, n :: k in s.tables && n in s.tables[k] ==> FieldOk(s, k, s.tables[k][n]))
    && (forall k :: k in s.nesting ==> !Counted(s, k))
    && (forall k :: Ranked(s, k) <= s.maxRank)
    && PlainFields(s)
  }

  ghost predicate FieldOk(s: Schema, kind: Kind, f: Spec) {
    && (f.repeated ==> f.wireType == LENGTH_DELIMITED)
    && (f.message.Some? ==>
          && f.wireType == LENGTH_DELIMITED && f.message.value in s.tables
          && (f.message.value !in s.nesting ==> Ranked(s, f.message.value) < Ranked(s, kind)))
  }

  /** KeyValue{key: string, value: AnyValue{string_value: string}}. */
  ghost predicate PlainFields(s: Schema) {
    && s.keyValue in s.tables && s.anyValue in s.tables
    && 0 < s.key < 16 && 0 < s.value < 16 && 0 < s.stringValue < 16 && s.key != s.value
    && s.key in s.tables[s.keyValue] && s.tables[s.keyValue][s.key] == Spec(LENGTH_DELIMITED, false, None)
    && s.value in s.tables[s.keyValue]
    && s.tables[s.keyValue][s.value] == Spec(LENGTH_DELIMITED, false, Some(s.anyValue))
    && s.stringValue in s.tables[s.anyValue]
    && s.tables[s.anyValue][s.stringValue] == Spec(LENGTH_DELIMITED, false, None)
    && !Counted(s, s.anyValue) && s.anyValue !in s.nesting && s.anyValue !in s.containers && s.anyValue != s.arrayValue
    && s.keyValue !in s.containers && s.keyValue != s.arrayValue && s.keyValue !in s.nesting
    && s.keyValue !in {s.resourceSpans, s.scopeSpans, s.span, s.event, s.link}
  }

  datatype Limits = Limits(resources: nat, scopes: nat, spans: nat, records: nat, links: nat, attributes: nat,
                           containerAttributes: nat, fields: nat, objects: nat)

  datatype Counts = Counts(resources: nat, scopes: nat, spans: nat, records: nat, links: nat, attributes: nat,
                           fields: nat, objects: nat)

  const Zero := Counts(0, 0, 0, 0, 0, 0, 0, 0)

  datatype Code =
    | TooManyFields | TooManyObjects | TooManyAttributes | TooManySpans | TooManyRecords | TooManyLinks
    | TooManyScopes | TooManyResources        // a limit: 413
    | MalformedRequest | RepeatedSingularField  // refused: 400

  /** How far a walk came: the counts at its end, and the code it stopped with. */
  datatype Walked = Walked(counts: Counts, error: Option<Code>)

  function Go(c: Counts): Walked { Walked(c, None) }

  function Stop(c: Counts, code: Code): Walked { Walked(c, Some(code)) }

  function Checked(c: Counts, ok: bool, code: Code): Walked {
    if ok then Go(c) else Stop(c, code)
  }

  // ---- primitives ------------------------------------------------------------------------------

  /** A base-128 varint of at most ten bytes, the first of them the `k`-th. */
  function VarintFrom(data: seq<byte>, position: nat, end: nat, k: nat): (r: Option<(nat, nat)>)
    requires end <= |data|
    ensures r.Some? ==> position < r.value.1 <= end
    decreases end - position
  {
    if position >= end || k > 9 then None
    else if data[position] < 128 then Some((data[position] as nat, position + 1))
    else
      match VarintFrom(data, position + 1, end, k + 1)
      case None => None
      case Some((v, next)) => Some((data[position] as nat % 128 + 128 * v, next))
  }

  /** Past a scalar of a known width. */
  function Skip(data: seq<byte>, position: nat, end: nat, wireType: nat): (r: Option<nat>)
    requires position <= end <= |data|
    ensures r.Some? ==> position < r.value <= end
  {
    if wireType == VARINT then
      match VarintFrom(data, position, end, 0)
      case None => None
      case Some((_, next)) => Some(next)
    else
      var next := position + (if wireType == FIXED64 then 8 else 4);
      if next > end then None else Some(next)
  }

  /** A field occurrence: its number, its spec if known, where its body starts and where it ends. */
  datatype Field = Field(number: nat, spec: Option<Spec>, body: nat, next: nat)

  function LengthDelimited(data: seq<byte>, position: nat, end: nat): (r: Option<(nat, nat)>)
    requires position <= end <= |data|
    ensures r.Some? ==> position < r.value.0 <= r.value.1 <= end
  {
    match VarintFrom(data, position, end, 0)
    case None => None
    case Some((length, body)) => if body + length > end then None else Some((body, body + length))
  }

  /** One well-typed field occurrence, or None where the bytes hold none. */
  function ReadField(table: map<nat, Spec>, data: seq<byte>, position: nat, end: nat): (r: Option<Field>)
    requires position < end <= |data|
    ensures r.Some? ==> position < r.value.body <= r.value.next <= end
    ensures r.Some? && r.value.spec.Some? ==> r.value.number in table && table[r.value.number] == r.value.spec.value
  {
    match VarintFrom(data, position, end, 0)
    case None => None
    case Some((tag, at)) =>
      var number, wireType := tag / 8, tag % 8;
      var spec := if number in table then Some(table[number]) else None;
      if wireType == LENGTH_DELIMITED then
        if spec.Some? && spec.value.wireType != LENGTH_DELIMITED then None
        else
          match LengthDelimited(data, at, end)
          case None => None
          case Some((body, next)) => Some(Field(number, spec, body, next))
      else if (if spec.Some? then wireType == spec.value.wireType else wireType in {VARINT, FIXED64, FIXED32}) then
        match Skip(data, at, end, wireType)
        case None => None
        case Some(next) => Some(Field(number, spec, next, next))
      else None
  }

  predicate IsMessage(f: Field) {
    f.spec.Some? && f.spec.value.message.Some?
  }

  // ---- counting --------------------------------------------------------------------------------

  function Attribute(l: Limits, c: Counts, depth: nat): Walked {
    var c' := c.(attributes := c.attributes + 1);
    Checked(c', c'.attributes <= l.attributes && depth <= MAX_VALUE_DEPTH, TooManyAttributes)
  }

  function Record(l: Limits, c: Counts): Walked {
    var c' := c.(records := c.records + 1);
    Checked(c', c'.records <= l.records, TooManyRecords)
  }

  function FieldVisited(l: Limits, c: Counts): Walked {
    var c' := c.(fields := c.fields + 1);
    Checked(c', c'.fields <= l.fields, TooManyFields)
  }

  function OneObject(l: Limits, c: Counts): Walked {
    var c' := c.(objects := c.objects + 1);
    Checked(c', c'.objects <= l.objects, TooManyObjects)
  }

  /** `_enter`. */
  function Enter(s: Schema, l: Limits, kind: Kind, depth: nat, c: Counts): Walked {
    if kind == s.keyValue then Attribute(l, c, depth)
    else if kind == s.span then
      var c' := c.(spans := c.spans + 1);
      if c'.spans > l.spans then Stop(c', TooManySpans) else Record(l, c')
    else if kind == s.event then Record(l, c)
    else if kind == s.link then
      var c' := c.(links := c.links + 1);
      Checked(c', c'.links <= l.links, TooManyLinks)
    else if kind == s.scopeSpans then
      var c' := c.(scopes := c.scopes + 1);
      Checked(c', c'.scopes <= l.scopes, TooManyScopes)
    else if kind == s.resourceSpans then
      var c' := c.(resources := c.resources + 1);
      Checked(c', c'.resources <= l.resources, TooManyResources)
    else Checked(c, !(kind in s.nesting && depth > MAX_VALUE_DEPTH), TooManyAttributes)
  }

  /** Everything checked and counted before a message field is descended into. */
  function Announce(s: Schema, l: Limits, kind: Kind, depth: nat, f: Field, seen: set<nat>, container: nat,
                    c: Counts): Walked
    requires IsMessage(f)
  {
    var w := if f.spec.value.repeated then OneObject(l, c)
             else if f.number in seen then Stop(c, RepeatedSingularField) else Go(c);
    if w.error.Some? then w
    else if InContainer(s, kind, f.number)
      && container + 1 > l.containerAttributes then Stop(w.counts, TooManyAttributes)
    else if kind == s.arrayValue then Attribute(l, w.counts, depth)
    else w
  }

  predicate InContainer(s: Schema, kind: Kind, number: nat) {
    kind in s.containers && number in s.containerAttributes
  }

  function ChildDepth(s: Schema, child: Kind, depth: nat): nat {
    if child in s.nesting then depth + 1 else depth
  }

  function SeenAfter(f: Field, seen: set<nat>): set<nat>
    requires IsMessage(f)
  {
    if f.spec.value.repeated then seen else seen + {f.number}
  }

  function ContainerAfter(s: Schema, kind: Kind, f: Field, container: nat): nat {
    if InContainer(s, kind, f.number) then container + 1 else container
  }

  function TableOf(s: Schema, kind: Kind): map<nat, Spec> {
    if kind in s.tables then s.tables[kind] else map[]
  }

  // ---- the generic walk, as a function ---------------------------------------------------------

  /** `_message` without the shortcut: every field checked, counted and descended into. */
  function Message(s: Schema, l: Limits, data: seq<byte>, start: nat, end: nat, kind: Kind, depth: nat,
                   c: Counts): Walked
    requires start <= end <= |data|
    decreases end - start, 1
  {
    var w := Enter(s, l, kind, depth, c);
    if w.error.Some? then w else Fields(s, l, data, start, end, kind, depth, {}, 0, w.counts)
  }

  function Fields(s: Schema, l: Limits, data: seq<byte>, position: nat, end: nat, kind: Kind, depth: nat,
                  seen: set<nat>, container: nat, c: Counts): Walked
    requires position <= end <= |data|
    decreases end - position, 0
  {
    if position == end then Go(c) else
      var w := FieldVisited(l, c);
      if w.error.Some? then w else
        match ReadField(TableOf(s, kind), data, position, end)
        case None => Stop(w.counts, MalformedRequest)
        case Some(f) =>
          if !IsMessage(f) then
            var w1 := if f.spec.Some? && f.spec.value.repeated then OneObject(l, w.counts) else w;
            if w1.error.Some? then w1 else Fields(s, l, data, f.next, end, kind, depth, seen, container, w1.counts)
          else
            var w1 := Announce(s, l, kind, depth, f, seen, container, w.counts);
            if w1.error.Some? then w1 else
              var child := f.spec.value.message.value;
              var w2 := Message(s, l, data, f.body, f.next, child, ChildDepth(s, child, depth), w1.counts);
              if w2.error.Some? then w2
              else Fields(s, l, data, f.next, end, kind, depth, SeenAfter(f, seen),
                  ContainerAfter(s, kind, f, container), w2.counts)
  }

  function Scan(s: Schema, l: Limits, data: seq<byte>): Walked {
    Message(s, l, data, 0, |data|, s.request, 0, Zero)
  }

  // ---- the reference decoder -------------------------------------------------------------------

  /** The fields of a message in order: scalars, strings and unknown fields are plain. */
  datatype Tree =
    | End
    | Plain(repeated: bool, rest: Tree)
    | Sub(number: nat, repeated: bool, kind: Kind, body: Tree, rest: Tree)

  /** The well-typed field tree a range of bytes encodes, if it encodes one. */
  function Decode(s: Schema, data: seq<byte>, position: nat, end: nat, kind: Kind): Option<Tree>
    requires position <= end <= |data|
    decreases end - position
  {
    if position == end then Some(End) else
      match ReadField(TableOf(s, kind), data, position, end)
      case None => None
      case Some(f) =>
        if !IsMessage(f) then
          match Decode(s, data, f.next, end, kind)
          case None => None
          case Some(rest) => Some(Plain(f.spec.Some? && f.spec.value.repeated, rest))
        else
          var child := f.spec.value.message.value;
          match Decode(s, data, f.body, f.next, child)
          case None => None
          case Some(body) =>
            match Decode(s, data, f.next, end, kind)
            case None => None
            case Some(rest) => Some(Sub(f.number, f.spec.value.repeated, child, body, rest))
  }

  function Plus(a: Counts, b: Counts): Counts {
    Counts(a.resources + b.resources, a.scopes + b.scopes, a.spans + b.spans, a.records + b.records, a.links + b.links,
           a.attributes + b.attributes, a.fields + b.fields, a.objects + b.objects)
  }

  /** What one message of a kind is tallied as. */
  function Self(s: Schema, kind: Kind): Counts {
    if kind == s.keyValue then Zero.(attributes := 1)
    else if kind == s.span then Zero.(spans := 1, records := 1)
    else if kind == s.event then Zero.(records := 1)
    else if kind == s.link then Zero.(links := 1)
    else if kind == s.scopeSpans then Zero.(scopes := 1)
    else if kind == s.resourceSpans then Zero.(resources := 1)
    else Zero
  }

  function One(repeated: bool, element: bool): Counts {
    Zero.(fields := 1, objects := if repeated then 1 else 0, attributes := if element then 1 else 0)
  }

  function TallyFields(s: Schema, kind: Kind, t: Tree): Counts
    decreases t
  {
    match t
    case End => Zero
    case Plain(repeated, rest) => Plus(One(repeated, false), TallyFields(s, kind, rest))
    case Sub(_, repeated, child, body, rest) =>
      Plus(Plus(One(repeated, kind == s.arrayValue), Plus(Self(s, child), TallyFields(s, child, body))),
          TallyFields(s, kind, rest))
  }

  function Tally(s: Schema, kind: Kind, t: Tree): Counts {
    Plus(Self(s, kind), TallyFields(s, kind, t))
  }

  /** Attribute values nest no deeper than allowed. */
  predicate ShallowSelf(s: Schema, kind: Kind, depth: nat) {
    kind == s.keyValue || (kind in s.nesting && !Counted(s, kind)) ==> depth <= MAX_VALUE_DEPTH
  }

  predicate Shallow(s: Schema, kind: Kind, depth: nat, t: Tree)
    decreases t
  {
    match t
    case End => true
    case Plain(_, rest) => Shallow(s, kind, depth, rest)
    case Sub(_, _, child, body, rest) =>
      && (kind == s.arrayValue ==> depth <= MAX_VALUE_DEPTH)
      && ShallowSelf(s, child, ChildDepth(s, child, depth))
      && Shallow(s, child, ChildDepth(s, child, depth), body)
      && Shallow(s, kind, depth, rest)
  }

  /** No singular message field occurs twice in one message. */
  predicate NoRepeats(t: Tree, seen: set<nat>) {
    match t
    case End => true
    case Plain(_, rest) => NoRepeats(rest, seen)
    case Sub(number, repeated, _, body, rest) =>
      && (repeated || number !in seen)
      && NoRepeats(body, {})
      && NoRepeats(rest, if repeated then seen else seen + {number})
  }

  /** How many attributes one resource or scope carries. */
  function ContainerSize(s: Schema, kind: Kind, t: Tree): nat {
    match t
    case End => 0
    case Plain(_, rest) => ContainerSize(s, kind, rest)
    case Sub(number, _, _, _, rest) => (if InContainer(s, kind, number) then 1 else 0) + ContainerSize(s, kind, rest)
  }

  predicate SmallContainers(s: Schema, l: Limits, kind: Kind, t: Tree)
    decreases t
  {
    match t
    case End => true
    case Plain(_, rest) => SmallContainers(s, l, kind, rest)
    case Sub(_, _, child, body, rest) =>
      && ContainerSize(s, child, body) <= l.containerAttributes
      && SmallContainers(s, l, child, body)
      && SmallContainers(s, l, kind, rest)
  }

  predicate Within(l: Limits, c: Counts) {
    && c.resources <= l.resources && c.scopes <= l.scopes && c.spans <= l.spans && c.records <= l.records
    && c.links <= l.links && c.attributes <= l.attributes && c.fields <= l.fields && c.objects <= l.objects
  }

  /** What the scan is to accept, said of the field tree. */
  predicate Acceptable(s: Schema, l: Limits, kind: Kind, depth: nat, t: Tree, seen: set<nat>, container: nat) {
    Shallow(s, kind, depth, t) && NoRepeats(t, seen) && SmallContainers(s, l, kind, t)
    && container + ContainerSize(s, kind, t) <= l.containerAttributes
  }

  // ---- the walk agrees with the reference ------------------------------------------------------

  lemma EnterTallies(s: Schema, l: Limits, kind: Kind, depth: nat, c: Counts)
    requires Within(l, c)
    ensures var w := Enter(s, l, kind, depth, c);
            && (w.error.None? <==> Within(l, Plus(c, Self(s, kind))) && ShallowSelf(s, kind, depth))
            && (w.error.None? ==> w.counts == Plus(c, Self(s, kind)))
  {}

  lemma AnnounceTallies(s: Schema, l: Limits, kind: Kind, depth: nat, f: Field, seen: set<nat>, container: nat,
                        c: Counts)
    requires IsMessage(f) && Within(l, c)
    ensures var w := Announce(s, l, kind, depth, f, seen, container, c);
            var one := One(f.spec.value.repeated, kind == s.arrayValue).(fields := 0);
            && (w.error.None? <==>
                  && Within(l, Plus(c, one)) && (f.spec.value.repeated || f.number !in seen)
                  && (InContainer(s, kind, f.number) ==> container + 1 <= l.containerAttributes)
                  && (kind == s.arrayValue ==> depth <= MAX_VALUE_DEPTH))
            && (w.error.None? ==> w.counts == Plus(c, one))
  {}

  lemma WithinSum(l: Limits, a: Counts, b: Counts)
    requires Within(l, Plus(a, b))
    ensures Within(l, a)
  {}

  lemma PlusAssociates(a: Counts, b: Counts, c: Counts)
    ensures Plus(Plus(a, b), c) == Plus(a, Plus(b, c))
  {}

  ghost predicate FieldsAgree(s: Schema, l: Limits, data: seq<byte>, position: nat, end: nat, kind: Kind, depth: nat,
                              seen: set<nat>, container: nat, c: Counts)
    requires position <= end <= |data|
  {
    var w, t := Fields(s, l, data, position, end, kind, depth, seen, container, c),
        Decode(s, data, position, end, kind);
    && (w.error.None? <==>
          && t.Some? && Acceptable(s, l, kind, depth, t.value, seen, container)
          && Within(l, Plus(c, TallyFields(s, kind, t.value))))
    && (w.error.None? ==> w.counts == Plus(c, TallyFields(s, kind, t.value)))
  }

  ghost predicate MessageAgrees(s: Schema, l: Limits, data: seq<byte>, start: nat, end: nat, kind: Kind, depth: nat,
                                c: Counts)
    requires start <= end <= |data|
  {
    var w, t := Message(s, l, data, start, end, kind, depth, c), Decode(s, data, start, end, kind);
    && (w.error.None? <==>
          && t.Some? && ShallowSelf(s, kind, depth) && Acceptable(s, l, kind, depth, t.value, {}, 0)
          && Within(l, Plus(c, Tally(s, kind, t.value))))
    && (w.error.None? ==> w.counts == Plus(c, Tally(s, kind, t.value)))
  }

  /** The counters before a plain field's successor. */
  function PlainStep(l: Limits, f: Field, c: Counts): Walked {
    var w := FieldVisited(l, c);
    if w.error.Some? then w else if f.spec.Some? && f.spec.value.repeated then OneObject(l, w.counts) else w
  }

  lemma PlainStepTallies(l: Limits, f: Field, c: Counts)
    requires Within(l, c)
    ensures var one := One(f.spec.Some? && f.spec.value.repeated, false);
            && (PlainStep(l, f, c).error.None? <==> Within(l, Plus(c, one)))
            && (PlainStep(l, f, c).error.None? ==> PlainStep(l, f, c).counts == Plus(c, one))
  {}

  lemma PlainCombines(s: Schema, l: Limits, data: seq<byte>, position: nat, end: nat, kind: Kind, depth: nat,
                      seen: set<nat>, container: nat, c: Counts, f: Field)
    requires position < end <= |data| && Within(l, c)
    requires ReadField(TableOf(s, kind), data, position, end) == Some(f) && !IsMessage(f)
    requires PlainStep(l, f, c).error.None? ==>
               FieldsAgree(s, l, data, f.next, end, kind, depth, seen, container, PlainStep(l, f, c).counts)
    ensures FieldsAgree(s, l, data, position, end, kind, depth, seen, container, c)
  {
    hide ReadField, Within, Plus, OneObject, FieldVisited, One, TableOf;
    PlainStepTallies(l, f, c);
    var rest := Decode(s, data, f.next, end, kind);
    if rest.Some? {
      var one := One(f.spec.Some? && f.spec.value.repeated, false);
      PlusAssociates(c, one, TallyFields(s, kind, rest.value));
      if Within(l, Plus(Plus(c, one), TallyFields(s, kind, rest.value))) {
        WithinSum(l, Plus(c, one), TallyFields(s, kind, rest.value));
      }
    }
  }

  /** The counters before a message field is descended into. */
  function SubStep(s: Schema, l: Limits, kind: Kind, depth: nat, f: Field, seen: set<nat>, container: nat,
                   c: Counts): Walked
    requires IsMessage(f)
  {
    var w := FieldVisited(l, c);
    if w.error.Some? then w else Announce(s, l, kind, depth, f, seen, container, w.counts)
  }

  predicate SubAllowed(s: Schema, l: Limits, kind: Kind, depth: nat, f: Field, seen: set<nat>, container: nat)
    requires IsMessage(f)
  {
    && (f.spec.value.repeated || f.number !in seen)
    && (InContainer(s, kind, f.number) ==> container + 1 <= l.containerAttributes)
    && (kind == s.arrayValue ==> depth <= MAX_VALUE_DEPTH)
  }

  lemma SubStepTallies(s: Schema, l: Limits, kind: Kind, depth: nat, f: Field, seen: set<nat>, container: nat,
                       c: Counts)
    requires IsMessage(f) && Within(l, c)
    ensures var one, w := One(f.spec.value.repeated, kind == s.arrayValue),
              SubStep(s, l, kind, depth, f, seen, container, c);
            && (w.error.None? <==> Within(l, Plus(c, one)) && SubAllowed(s, l, kind, depth, f, seen, container))
            && (w.error.None? ==> w.counts == Plus(c, one))
  {
    if FieldVisited(l, c).error.None? {
      AnnounceTallies(s, l, kind, depth, f, seen, container, FieldVisited(l, c).counts);
    }
  }

  lemma SubUnfolds(s: Schema, l: Limits, data: seq<byte>, position: nat, end: nat, kind: Kind, depth: nat,
                   seen: set<nat>, container: nat, c: Counts, f: Field)
    requires position < end <= |data|
    requires ReadField(TableOf(s, kind), data, position, end) == Some(f) && IsMessage(f)
    ensures var w, child := SubStep(s, l, kind, depth, f, seen, container, c), f.spec.value.message.value;
            Fields(s, l, data, position, end, kind, depth, seen, container, c)
            == if w.error.Some? then w else
                 var w2 := Message(s, l, data, f.body, f.next, child, ChildDepth(s, child, depth), w.counts);
                 if w2.error.Some? then w2
                 else Fields(s, l, data, f.next, end, kind, depth, SeenAfter(f, seen),
                     ContainerAfter(s, kind, f, container), w2.counts)
    ensures var child := f.spec.value.message.value;
            var body, rest := Decode(s, data, f.body, f.next, child), Decode(s, data, f.next, end, kind);
            Decode(s, data, position, end, kind)
            == if body.Some? && rest.Some?
                then Some(Sub(f.number, f.spec.value.repeated, child, body.value, rest.value)) else None
  {
    hide ReadField, Announce, FieldVisited, Message, SeenAfter, ContainerAfter;
  }

  lemma SubAcceptable(s: Schema, l: Limits, kind: Kind, depth: nat, seen: set<nat>, container: nat, f: Field,
                      body: Tree, rest: Tree)
    requires IsMessage(f) && container <= l.containerAttributes
    ensures var child := f.spec.value.message.value;
            Acceptable(s, l, kind, depth, Sub(f.number, f.spec.value.repeated, child, body, rest), seen, container)
            <==> (kind == s.arrayValue ==> depth <= MAX_VALUE_DEPTH) && (f.spec.value.repeated || f.number !in seen)
                 && ShallowSelf(s, child, ChildDepth(s, child, depth))
                 && Acceptable(s, l, child, ChildDepth(s, child, depth), body, {}, 0)
                 && Acceptable(s, l, kind, depth, rest, SeenAfter(f, seen), ContainerAfter(s, kind, f, container))
  {}

  lemma ContainerFits(s: Schema, l: Limits, kind: Kind, depth: nat, seen: set<nat>, container: nat, t: Tree)
    requires Acceptable(s, l, kind, depth, t, seen, container)
    ensures container <= l.containerAttributes
  {}

  lemma TallySub(s: Schema, kind: Kind, c: Counts, number: nat, repeated: bool, child: Kind, body: Tree, rest: Tree)
    ensures Plus(c, TallyFields(s, kind, Sub(number, repeated, child, body, rest)))
         == Plus(Plus(Plus(c, One(repeated, kind == s.arrayValue)), Tally(s, child, body)), TallyFields(s, kind, rest))
  {
    hide One, Self, Plus;
    var one, sub, after := One(repeated, kind == s.arrayValue), Tally(s, child, body), TallyFields(s, kind, rest);
    PlusAssociates(c, Plus(one, sub), after);
    PlusAssociates(c, one, sub);
  }

  lemma SubCombines(s: Schema, l: Limits, data: seq<byte>, position: nat, end: nat, kind: Kind, depth: nat,
                    seen: set<nat>, container: nat, c: Counts, f: Field)
    requires position < end <= |data| && Within(l, c) && container <= l.containerAttributes
    requires ReadField(TableOf(s, kind), data, position, end) == Some(f) && IsMessage(f)
    requires var w, child := SubStep(s, l, kind, depth, f, seen, container, c), f.spec.value.message.value;
             w.error.None? ==>
               && MessageAgrees(s, l, data, f.body, f.next, child, ChildDepth(s, child, depth), w.counts)
               && var w2 := Message(s, l, data, f.body, f.next, child, ChildDepth(s, child, depth), w.counts);
                  w2.error.None? ==>
                    FieldsAgree(s, l, data, f.next, end, kind, depth, SeenAfter(f, seen),
                        ContainerAfter(s, kind, f, container), w2.counts)
    ensures FieldsAgree(s, l, data, position, end, kind, depth, seen, container, c)
  {
    hide ReadField, Within, Plus, One, TableOf, SubStep, Fields, Message, Decode, Acceptable, Tally;
    hide TallyFields, ShallowSelf, SeenAfter;
    SubUnfolds(s, l, data, position, end, kind, depth, seen, container, c, f);
    SubStepTallies(s, l, kind, depth, f, seen, container, c);
    var child := f.spec.value.message.value;
    var body, rest := Decode(s, data, f.body, f.next, child), Decode(s, data, f.next, end, kind);
    if body.Some? && rest.Some? {
      var one := One(f.spec.value.repeated, kind == s.arrayValue);
      SubAcceptable(s, l, kind, depth, seen, container, f, body.value, rest.value);
      TallySub(s, kind, c, f.number, f.spec.value.repeated, child, body.value, rest.value);
      var c1 := Plus(c, one);
      var c2 := Plus(c1, Tally(s, child, body.value));
      var c3 := Plus(c2, TallyFields(s, kind, rest.value));
      if Within(l, c3) {
        WithinSum(l, c2, TallyFields(s, kind, rest.value));
        WithinSum(l, c1, Tally(s, child, body.value));
      }
      if Acceptable(s, l, kind, depth, rest.value, SeenAfter(f, seen), ContainerAfter(s, kind, f, container)) {
        ContainerFits(s, l, kind, depth, SeenAfter(f, seen), ContainerAfter(s, kind, f, container), rest.value);
      }
    }
  }

  /** REFERENCE. From any counts within the limits, the walk of a message succeeds iff its bytes decode to
      a well-typed tree that repeats no singular message, nests no too deeply, and whose tallies added to
      the counts are within every limit; and then the counts are exactly those. */
  lemma {:induction false} MessageRefines(s: Schema, l: Limits, data: seq<byte>, start: nat, end: nat, kind: Kind,
                                          depth: nat, c: Counts)
    requires start <= end <= |data| && Within(l, c)
    ensures MessageAgrees(s, l, data, start, end, kind, depth, c)
    decreases end - start, 1
  {
    hide Fields, Decode, Within, Plus, Self, TallyFields, Acceptable, ShallowSelf, Enter;
    EnterTallies(s, l, kind, depth, c);
    var w := Enter(s, l, kind, depth, c);
    var t := Decode(s, data, start, end, kind);
    if t.Some? {
      PlusAssociates(c, Self(s, kind), TallyFields(s, kind, t.value));
      if Within(l, Plus(Plus(c, Self(s, kind)), TallyFields(s, kind, t.value))) {
        WithinSum(l, Plus(c, Self(s, kind)), TallyFields(s, kind, t.value));
      }
    }
    if w.error.None? {
      FieldsRefine(s, l, data, start, end, kind, depth, {}, 0, w.counts);
    }
  }

  lemma {:induction false} FieldsRefine(s: Schema, l: Limits, data: seq<byte>, position: nat, end: nat, kind: Kind,
                                        depth: nat,
                                        seen: set<nat>, container: nat, c: Counts)
    requires position <= end <= |data| && Within(l, c) && container <= l.containerAttributes
    ensures FieldsAgree(s, l, data, position, end, kind, depth, seen, container, c)
    decreases end - position, 0
  {
    hide Fields, Decode, Within, Plus, TallyFields, Acceptable, ReadField, TableOf, SubStep, PlainStep;
    hide Message, FieldsAgree, MessageAgrees;
    if position == end {
      EmptyAgrees(s, l, data, position, kind, depth, seen, container, c);
    } else if ReadField(TableOf(s, kind), data, position, end).None? {
      MalformedAgrees(s, l, data, position, end, kind, depth, seen, container, c);
    } else {
      var f := ReadField(TableOf(s, kind), data, position, end).value;
      FieldBounds(s, data, position, end, kind);
      if !IsMessage(f) {
        var w := PlainStep(l, f, c);
        PlainStepTallies(l, f, c);
        if w.error.None? { FieldsRefine(s, l, data, f.next, end, kind, depth, seen, container, w.counts); }
        PlainCombines(s, l, data, position, end, kind, depth, seen, container, c, f);
      } else {
        var w, child := SubStep(s, l, kind, depth, f, seen, container, c), f.spec.value.message.value;
        SubStepTallies(s, l, kind, depth, f, seen, container, c);
        if w.error.None? {
          MessageRefines(s, l, data, f.body, f.next, child, ChildDepth(s, child, depth), w.counts);
          var w2 := Message(s, l, data, f.body, f.next, child, ChildDepth(s, child, depth), w.counts);
          if w2.error.None? {
            WalkedWithin(s, l, data, f.body, f.next, child, ChildDepth(s, child, depth), w.counts);
            FieldsRefine(s, l, data, f.next, end, kind, depth, SeenAfter(f, seen),
                ContainerAfter(s, kind, f, container), w2.counts);
          }
        }
        SubCombines(s, l, data, position, end, kind, depth, seen, container, c, f);
      }
    }
  }

  lemma FieldBounds(s: Schema, data: seq<byte>, position: nat, end: nat, kind: Kind)
    requires position < end <= |data| && ReadField(TableOf(s, kind), data, position, end).Some?
    ensures var f := ReadField(TableOf(s, kind), data, position, end).value; position < f.body <= f.next <= end
  {}

  lemma EmptyAgrees(s: Schema, l: Limits, data: seq<byte>, position: nat, kind: Kind, depth: nat,
                    seen: set<nat>, container: nat, c: Counts)
    requires position <= |data| && Within(l, c) && container <= l.containerAttributes
    ensures FieldsAgree(s, l, data, position, position, kind, depth, seen, container, c)
  {}

  lemma MalformedAgrees(s: Schema, l: Limits, data: seq<byte>, position: nat, end: nat, kind: Kind, depth: nat,
                        seen: set<nat>, container: nat, c: Counts)
    requires position < end <= |data| && ReadField(TableOf(s, kind), data, position, end).None?
    ensures FieldsAgree(s, l, data, position, end, kind, depth, seen, container, c)
  {}

  lemma WalkedWithin(s: Schema, l: Limits, data: seq<byte>, start: nat, end: nat, kind: Kind, depth: nat, c: Counts)
    requires start <= end <= |data| && MessageAgrees(s, l, data, start, end, kind, depth, c)
    ensures Message(s, l, data, start, end, kind, depth, c).error.None? ==>
              Within(l, Message(s, l, data, start, end, kind, depth, c).counts)
  {
    hide Message, Decode, Within, Plus, Tally, Acceptable, ShallowSelf;
  }

  /** SCAN. The bytes are accepted iff they decode to a well-typed field tree with no repeated singular
      message whose tallies, containers and nesting are all within the limits; the counts returned are
      exactly the tallies. */
  lemma ScanDecidesAcceptability(s: Schema, l: Limits, data: seq<byte>)
    ensures var w, t := Scan(s, l, data), Decode(s, data, 0, |data|, s.request);
            && (w.error.None? <==>
                  t.Some? && Acceptable(s, l, s.request, 0, t.value, {}, 0) && Within(l, Tally(s, s.request, t.value)))
            && (w.error.None? ==> w.counts == Tally(s, s.request, t.value))
  {
    hide Message, Decode, Acceptable, TallyFields;
    MessageRefines(s, l, data, 0, |data|, s.request, 0, Zero);
  }
}

/** The SCIP symbol grammar (the symbol grammar comment of scip.proto) and the single-pass recognizer
    against it. */
module ScipSymbol {
  import opened Orders

  // ---- the grammar -----------------------------------------------------------------------------

  predicate IdentChar(c: char) {
    'a' <= c <= 'z' || 'A' <= c <= 'Z' || '0' <= c <= '9' || c == '_' || c == '+' || c == '-' || c == '$'
  }

  predicate SuffixChar(c: char) {
    c == '/' || c == '#' || c == '.' || c == ':' || c == '!'
  }

  predicate Ident(s: string) {
    forall i :: 0 <= i < |s| ==> IdentChar(s[i])
  }

  datatype Name = Simple(text: string) | Escaped(text: string)

  datatype Descriptor =
    | Suffixed(name: Name, suffix: char)            // namespace, type, term, meta, macro
    | Method(name: Name, disambiguator: string)
    | TypeParameter(name: Name)
    | Parameter(name: Name)

  datatype Symbol =
    | Local(id: string)
    | Global(scheme: string, manager: string, package: string, version: string, descriptors: seq<Descriptor>)

  /** A character written twice. */
  function Double(s: string, c: char): string {
    if s == [] then [] else (if s[0] == c then [c, c] else [s[0]]) + Double(s[1..], c)
  }

  predicate GoodName(n: Name) {
    match n
    case Simple(text) => text != [] && Ident(text)
    case Escaped(text) => !Ident(text)
  }

  function PrintName(n: Name): string {
    match n
    case Simple(text) => text
    case Escaped(text) => "`" + Double(text, '`') + "`"
  }

  predicate GoodDescriptor(d: Descriptor) {
    GoodName(d.name) && (d.Suffixed? ==> SuffixChar(d.suffix)) && (d.Method? ==> Ident(d.disambiguator))
  }

  function PrintDescriptor(d: Descriptor): string {
    match d
    case Suffixed(n, suffix) => PrintName(n) + [suffix]
    case Method(n, disambiguator) => PrintName(n) + "(" + disambiguator + ")."
    case TypeParameter(n) => "[" + PrintName(n) + "]"
    case Parameter(n) => "(" + PrintName(n) + ")"
  }

  function PrintAll(ds: seq<Descriptor>): string {
    if ds == [] then [] else PrintDescriptor(ds[0]) + PrintAll(ds[1..])
  }

  predicate GoodDescriptors(ds: seq<Descriptor>) {
    ds != [] && forall i :: 0 <= i < |ds| ==> GoodDescriptor(ds[i])
  }

  predicate StartsWith(s: string, prefix: string) {
    |prefix| <= |s| && s[..|prefix|] == prefix
  }

  predicate GoodSymbol(y: Symbol) {
    match y
    case Local(id) => id != [] && Ident(id)
    case Global(scheme, manager, package, version, ds) =>
      && scheme != [] && manager != [] && package != [] && version != []
      && !StartsWith(scheme, "local") && GoodDescriptors(ds)
  }

  /** A field and the separator before each later one; the last one runs into the descriptors. */
  function Text(field: string, rest: seq<string>, tail: string): string
    decreases |rest|
  {
    if rest == [] then Double(field, ' ') + tail
    else Double(field, ' ') + " " + Text(rest[0], rest[1..], tail)
  }

  function Print(y: Symbol): string {
    match y
    case Local(id) => "local " + id
    case Global(scheme, manager, package, version, ds) => Text(scheme, [manager, package, version, ""], PrintAll(ds))
  }

  predicate NoControls(s: string) {
    forall i :: 0 <= i < |s| ==> 32 as char <= s[i] && s[i] != 127 as char
  }

  predicate HasNonSpace(s: string) {
    exists i :: 0 <= i < |s| && s[i] != ' '
  }

  // ---- the recognizer, on what is left of the text ---------------------------------------------

  /** Up to the next single space. */
  function FieldLen(t: string): (k: nat)
    ensures k <= |t|
  {
    if t == [] then 0
    else if t[0] != ' ' then 1 + FieldLen(t[1..])
    else if |t| > 1 && t[1] == ' ' then 2 + FieldLen(t[2..])
    else 0
  }

  function IdentLen(t: string): (k: nat)
    ensures k <= |t|
  {
    if t == [] || !IdentChar(t[0]) then 0 else 1 + IdentLen(t[1..])
  }

  /** After an opening backtick: past the closing one, if something needed escaping. */
  function QuotedLen(t: string, special: bool): (k: Option<nat>)
    ensures k.Some? ==> 0 < k.value <= |t|
  {
    if t == [] then None
    else if t[0] == '`' then
      if |t| > 1 && t[1] == '`' then
        match QuotedLen(t[2..], true)
        case None => None
        case Some(k) => Some(2 + k)
      else if special then Some(1) else None
    else
      match QuotedLen(t[1..], special || !IdentChar(t[0]))
      case None => None
      case Some(k) => Some(1 + k)
  }

  function NameLen(t: string): (k: Option<nat>)
    ensures k.Some? ==> 0 < k.value <= |t|
  {
    if t != [] && t[0] == '`' then
      match QuotedLen(t[1..], false)
      case None => None
      case Some(k) => Some(1 + k)
    else if IdentLen(t) > 0 then Some(IdentLen(t)) else None
  }

  function DescriptorLen(t: string): (k: Option<nat>)
    ensures k.Some? ==> 0 < k.value <= |t|
  {
    if t == [] then None
    else if t[0] == '(' || t[0] == '[' then
      match NameLen(t[1..])
      case None => None
      case Some(k) => if 1 + k < |t| && t[1 + k] == (if t[0] == '(' then ')' else ']') then Some(k + 2) else None
    else
      match NameLen(t)
      case None => None
      case Some(k) =>
        if k >= |t| then None
        else if SuffixChar(t[k]) then Some(k + 1)
        else if t[k] == '(' then
          var c := k + 1 + IdentLen(t[k + 1..]);
          if StartsWith(t[c..], ").") then Some(c + 2) else None
        else None
  }

  predicate Descriptors(t: string)
    decreases |t|
  {
    var k := DescriptorLen(t);
    k.Some? && (k.value == |t| || Descriptors(t[k.value..]))
  }

  predicate Fields(t: string, n: nat)
    decreases n
  {
    if n == 0 then Descriptors(t)
    else
      var k := FieldLen(t);
      0 < k < |t| && Fields(t[k + 1..], n - 1)
  }

  predicate Accepts(s: string) {
    && s != [] && NoControls(s)
    && (if StartsWith(s, "local ") then |s| > 6 && Ident(s[6..])
        else Fields(s, 4) && !StartsWith(s, "local"))
  }

  // ---- names and descriptors -------------------------------------------------------------------

  lemma {:induction false} IdentLenOf(a: string, rest: string)
    requires Ident(a) && (rest == [] || !IdentChar(rest[0]))
    ensures IdentLen(a + rest) == |a|
  {
    if a == [] {
      assert a + rest == rest;
    } else {
      assert (a + rest)[1..] == a[1..] + rest;
      IdentLenOf(a[1..], rest);
    }
  }

  lemma {:induction false} IdentPrefix(t: string)
    ensures Ident(t[..IdentLen(t)])
    ensures IdentLen(t) < |t| ==> !IdentChar(t[IdentLen(t)])
  {
    if t != [] && IdentChar(t[0]) {
      IdentPrefix(t[1..]);
      assert t[..IdentLen(t)] == [t[0]] + t[1..][..IdentLen(t[1..])];
    }
  }

  lemma {:induction false} QuotedLenOf(text: string, rest: string, special: bool)
    requires special || !Ident(text)
    requires rest == [] || rest[0] != '`'
    ensures QuotedLen(Double(text, '`') + "`" + rest, special) == Some(|Double(text, '`')| + 1)
  {
    hide Ident;
    var t := Double(text, '`') + "`" + rest;
    if text != [] {
      assert text == [text[0]] + text[1..];
      IdentFirst(text[0], text[1..]);
    }
    if text == [] {
      assert t == "`" + rest && Ident(text) by { IdentNothing(); }
    } else if text[0] == '`' {
      assert t[2..] == Double(text[1..], '`') + "`" + rest;
      QuotedLenOf(text[1..], rest, true);
    } else {
      assert t[1..] == Double(text[1..], '`') + "`" + rest;
      assert t[0] == text[0];
      QuotedLenOf(text[1..], rest, special || !IdentChar(text[0]));
    }
  }

  lemma {:induction false} QuotedIsEscaped(t: string, special: bool) returns (text: string)
    requires QuotedLen(t, special).Some?
    ensures t[..QuotedLen(t, special).value] == Double(text, '`') + "`"
    ensures special || !Ident(text)
  {
    hide Double, Ident;
    var k := QuotedLen(t, special).value;
    if t[0] == '`' {
      if |t| > 1 && t[1] == '`' {
        var inner := QuotedIsEscaped(t[2..], true);
        text := "`" + inner;
        DoubleFirst('`', inner, '`');
        IdentFirst('`', inner);
        assert t[..k] == [t[0], t[1]] + t[2..][..k - 2];
      } else {
        text := "";
        assert t[..1] == "`" && Double("", '`') == "" by { DoubleNothing('`'); }
      }
    } else {
      var inner := QuotedIsEscaped(t[1..], special || !IdentChar(t[0]));
      text := [t[0]] + inner;
      DoubleFirst(t[0], inner, '`');
      IdentFirst(t[0], inner);
      assert t[..k] == [t[0]] + t[1..][..k - 1];
    }
  }

  lemma IdentNothing()
    ensures Ident("")
  {}

  lemma DoubleNothing(c: char)
    ensures Double("", c) == ""
  {}

  lemma DoubleFirst(x: char, s: string, c: char)
    ensures Double([x] + s, c) == (if x == c then [c, c] else [x]) + Double(s, c)
  {
    assert ([x] + s)[1..] == s;
  }

  lemma IdentFirst(x: char, s: string)
    ensures Ident([x] + s) <==> IdentChar(x) && Ident(s)
  {
    assert forall i :: 0 <= i < |s| ==> ([x] + s)[i + 1] == s[i];
    assert ([x] + s)[0] == x;
  }

  /** A printed name is read whole when what follows cannot continue it. */
  lemma NameLenOf(n: Name, rest: string)
    requires GoodName(n) && (rest == [] || (rest[0] != '`' && !IdentChar(rest[0])))
    ensures NameLen(PrintName(n) + rest) == Some(|PrintName(n)|)
  {
    hide QuotedLen, IdentLen, Double;
    var t := PrintName(n) + rest;
    match n {
      case Simple(text) => IdentLenOf(text, rest); assert t[0] == text[0];
      case Escaped(text) =>
        assert t[1..] == Double(text, '`') + "`" + rest;
        QuotedLenOf(text, rest, false);
    }
  }

  lemma ReadName(t: string) returns (n: Name)
    requires NameLen(t).Some?
    ensures GoodName(n) && PrintName(n) == t[..NameLen(t).value]
  {
    if t[0] == '`' {
      var text := QuotedIsEscaped(t[1..], false);
      n := Escaped(text);
      var k := NameLen(t).value;
      assert t[..k] == [t[0]] + t[1..][..k - 1];
    } else {
      IdentPrefix(t);
      n := Simple(t[..IdentLen(t)]);
    }
  }

  /** A printed descriptor is read whole, whatever follows it. */
  lemma DescriptorLenOf(d: Descriptor, rest: string)
    requires GoodDescriptor(d)
    ensures DescriptorLen(PrintDescriptor(d) + rest) == Some(|PrintDescriptor(d)|)
  {
    hide DescriptorLen, PrintName, GoodName, Ident, SuffixChar;
    match d {
      case Suffixed(n, suffix) => SuffixedLen(n, suffix, rest);
      case Method(n, disambiguator) => MethodLen(n, disambiguator, rest);
      case TypeParameter(n) => BracketLen(n, '[', ']', rest);
      case Parameter(n) => BracketLen(n, '(', ')', rest);
    }
  }

  lemma SuffixedLen(n: Name, suffix: char, rest: string)
    requires GoodName(n) && SuffixChar(suffix)
    ensures DescriptorLen(PrintName(n) + [suffix] + rest) == Some(|PrintName(n)| + 1)
  {
    hide NameLen, IdentLen, PrintName, GoodName;
    var t, p := PrintName(n) + [suffix] + rest, PrintName(n);
    NameStart(n);
    assert t == p + ([suffix] + rest);
    NameLenOf(n, [suffix] + rest);
    assert t[|p|] == suffix && t[0] == p[0];
  }

  lemma MethodLen(n: Name, disambiguator: string, rest: string)
    requires GoodName(n) && Ident(disambiguator)
    ensures DescriptorLen(PrintName(n) + "(" + disambiguator + ")." + rest)
              == Some(|PrintName(n)| + 1 + |disambiguator| + 2)
  {
    hide NameLen, IdentLen, PrintName, GoodName, Ident;
    var t, p := PrintName(n) + "(" + disambiguator + ")." + rest, PrintName(n);
    NameStart(n);
    var after := disambiguator + (")." + rest);
    assert t == p + ("(" + after);
    NameLenOf(n, "(" + after);
    assert t[|p|] == '(' && t[|p| + 1..] == after && t[0] == p[0];
    IdentLenOf(disambiguator, ")." + rest);
    assert t[|p| + 1 + |disambiguator|..] == ")." + rest;
  }

  lemma BracketLen(n: Name, open: char, close: char, rest: string)
    requires GoodName(n) && ((open == '[' && close == ']') || (open == '(' && close == ')'))
    ensures DescriptorLen([open] + PrintName(n) + [close] + rest) == Some(|PrintName(n)| + 2)
  {
    hide NameLen, IdentLen, PrintName, GoodName;
    var t, p := [open] + PrintName(n) + [close] + rest, PrintName(n);
    NameStart(n);
    assert t[1..] == p + ([close] + rest);
    NameLenOf(n, [close] + rest);
    assert t[1 + |p|] == close;
  }

  lemma NameStart(n: Name)
    requires GoodName(n)
    ensures PrintName(n) != [] && PrintName(n)[0] != '(' && PrintName(n)[0] != '[' && PrintName(n)[0] != ' '
  {}

  lemma ReadDescriptor(t: string) returns (d: Descriptor)
    requires DescriptorLen(t).Some?
    ensures GoodDescriptor(d) && PrintDescriptor(d) == t[..DescriptorLen(t).value]
  {
    hide NameLen, IdentLen, PrintName, GoodName;
    var k := DescriptorLen(t).value;
    if t[0] == '(' || t[0] == '[' {
      var n := ReadName(t[1..]);
      d := if t[0] == '(' then Parameter(n) else TypeParameter(n);
      assert t[..k] == [t[0]] + t[1..][..k - 2] + [t[k - 1]];
    } else {
      var n := ReadName(t);
      var m := NameLen(t).value;
      if SuffixChar(t[m]) {
        d := Suffixed(n, t[m]);
        assert t[..k] == t[..m] + [t[m]];
      } else {
        var c := IdentLen(t[m + 1..]);
        IdentPrefix(t[m + 1..]);
        d := Method(n, t[m + 1..][..c]);
        assert t[m + 1 + c..][..2] == ").";
        assert t[..k] == t[..m] + [t[m]] + t[m + 1..][..c] + t[m + 1 + c..][..2];
      }
    }
  }

  /** The descriptor loop accepts exactly the printed non-empty lists. */
  lemma {:induction false} DescriptorsOf(ds: seq<Descriptor>)
    requires GoodDescriptors(ds)
    ensures Descriptors(PrintAll(ds))
  {
    var p := PrintDescriptor(ds[0]);
    DescriptorLenOf(ds[0], PrintAll(ds[1..]));
    assert PrintAll(ds)[|p|..] == PrintAll(ds[1..]);
    if |ds| > 1 { DescriptorsOf(ds[1..]); } else { assert PrintAll(ds[1..]) == []; }
  }

  lemma {:induction false} ReadDescriptors(t: string) returns (ds: seq<Descriptor>)
    requires Descriptors(t)
    ensures GoodDescriptors(ds) && PrintAll(ds) == t
    decreases |t|
  {
    hide DescriptorLen, PrintDescriptor, GoodDescriptor;
    var k := DescriptorLen(t).value;
    var d := ReadDescriptor(t);
    assert t == t[..k] + t[k..];
    if k == |t| {
      ds := [d];
      OneMoreDescriptor(d, []);
      assert [d] + [] == [d];
    } else {
      var rest := ReadDescriptors(t[k..]);
      ds := [d] + rest;
      OneMoreDescriptor(d, rest);
    }
  }

  lemma OneMoreDescriptor(d: Descriptor, rest: seq<Descriptor>)
    requires GoodDescriptor(d) && forall i :: 0 <= i < |rest| ==> GoodDescriptor(rest[i])
    ensures GoodDescriptors([d] + rest) && PrintAll([d] + rest) == PrintDescriptor(d) + PrintAll(rest)
  {
    hide PrintDescriptor, GoodDescriptor;
    assert ([d] + rest)[1..] == rest;
  }

  // ---- fields ----------------------------------------------------------------------------------

  /** An escaped field is scanned whole, and the scan goes on with what follows. */
  lemma {:induction false} FieldLenOf(f: string, rest: string)
    ensures FieldLen(Double(f, ' ') + rest) == |Double(f, ' ')| + FieldLen(rest)
  {
    var t := Double(f, ' ') + rest;
    if f == [] {
      assert t == rest;
    } else if f[0] == ' ' {
      assert t[2..] == Double(f[1..], ' ') + rest;
      FieldLenOf(f[1..], rest);
    } else {
      assert t[1..] == Double(f[1..], ' ') + rest;
      FieldLenOf(f[1..], rest);
    }
  }

  lemma {:induction false} ReadField(t: string) returns (f: string)
    ensures Double(f, ' ') == t[..FieldLen(t)]
    ensures FieldLen(t) < |t| ==> t[FieldLen(t)] == ' ' && (FieldLen(t) + 1 < |t| ==> t[FieldLen(t) + 1] != ' ')
  {
    var k := FieldLen(t);
    if t != [] && t[0] != ' ' {
      var g := ReadField(t[1..]);
      f := [t[0]] + g;
      assert f[1..] == g;
      assert t[..k] == [t[0]] + t[1..][..k - 1];
    } else if |t| > 1 && t[1] == ' ' {
      var g := ReadField(t[2..]);
      f := " " + g;
      assert f[1..] == g;
      assert t[..k] == [t[0], t[1]] + t[2..][..k - 2];
    } else {
      f := "";
    }
  }

  lemma {:induction false} DoubleJoin(a: string, b: string, c: char)
    ensures Double(a + b, c) == Double(a, c) + Double(b, c)
  {
    if a == [] {
      assert a + b == b;
    } else {
      assert (a + b)[1..] == a[1..] + b;
      DoubleJoin(a[1..], b, c);
    }
  }

  /** A leading space of the next field is read as the end of this one. */
  lemma SpaceMoves(f: string, g: string, rest: seq<string>, tail: string)
    ensures Text(f, [" " + g] + rest, tail) == Text(f + " ", [g] + rest, tail)
  {
    DoubleJoin(f, " ", ' ');
    assert (" " + g)[1..] == g;
    assert Double(" ", ' ') == "  ";
    var next := Text(g, rest, tail);
    assert ([" " + g] + rest)[1..] == rest && ([g] + rest)[1..] == rest;
    assert Text(" " + g, rest, tail) == "  " + next;
    assert Double(f, ' ') + " " + ("  " + next) == (Double(f, ' ') + "  ") + " " + next;
  }

  /** An empty field between two separators disappears: they read as one escaped space. */
  lemma EmptyFieldMerges(f: string, h: string, rest: seq<string>, tail: string)
    ensures Text(f, ["", h] + rest, tail) == Text(f + " " + h, rest, tail)
  {
    DoubleJoin(f, " ", ' ');
    DoubleJoin(f + " ", h, ' ');
    assert Double(" ", ' ') == "  " && Double("", ' ') == "";
    hide Double, Text;
    var all, after := ["", h] + rest, After(rest, tail);
    assert all[1..] == [h] + rest && ([h] + rest)[1..] == rest;
    TextSplits(f, all, tail);
    TextSplits("", [h] + rest, tail);
    TextSplits(h, rest, tail);
    TextSplits(f + " " + h, rest, tail);
    assert Double(f, ' ') + " " + (" " + (Double(h, ' ') + after)) == (Double(f, ' ') + "  " + Double(h, ' ')) + after;
  }

  function After(rest: seq<string>, tail: string): string {
    if rest == [] then tail else " " + Text(rest[0], rest[1..], tail)
  }

  lemma TextSplits(f: string, rest: seq<string>, tail: string)
    ensures Text(f, rest, tail) == Double(f, ' ') + After(rest, tail)
  {
    hide Double;
  }

  function TotalSize(fields: seq<string>): nat {
    if fields == [] then 0 else |fields[0]| + TotalSize(fields[1..])
  }

  // ---- backticks -------------------------------------------------------------------------------

  function Backticks(t: string): nat {
    if t == [] then 0 else (if t[0] == '`' then 1 else 0) + Backticks(t[1..])
  }

  lemma {:induction false} BackticksJoin(a: string, b: string)
    ensures Backticks(a + b) == Backticks(a) + Backticks(b)
  {
    if a == [] {
      assert a + b == b;
    } else {
      assert (a + b)[1..] == a[1..] + b;
      BackticksJoin(a[1..], b);
    }
  }

  lemma {:induction false} IdentHasNone(t: string)
    requires Ident(t)
    ensures Backticks(t) == 0 && ' ' !in t
  {
    if t != [] { IdentHasNone(t[1..]); assert t == [t[0]] + t[1..]; }
  }

  /** Inside doubled text, an even number of backticks follows any other character. */
  lemma {:induction false} DoubledIsEven(text: string, p: nat)
    requires p <= |Double(text, '`')|
    requires p > 0 ==> Double(text, '`')[p - 1] != '`'
    ensures Backticks(Double(text, '`')[p..]) % 2 == 0
  {
    hide Double, Backticks;
    var t := Double(text, '`');
    if text == [] {
      assert t[p..] == [] && Backticks([]) == 0 by { NothingHasNone(); }
    } else {
      var unit, more := if text[0] == '`' then "``" else [text[0]], Double(text[1..], '`');
      assert text == [text[0]] + text[1..];
      DoubleFirst(text[0], text[1..], '`');
      if p == 0 {
        DoubledIsEven(text[1..], 0);
        BackticksJoin(unit, more);
        UnitIsEven(text[0]);
        assert t[0..] == t && more[0..] == more;
      } else if p == |unit| {
        DoubledIsEven(text[1..], 0);
        assert t[p..] == more[0..];
      } else {
        assert t[p..] == more[p - |unit|..];
        DoubledIsEven(text[1..], p - |unit|);
      }
    }
  }

  lemma NothingHasNone()
    ensures Backticks([]) == 0 && Double([], '`') == []
  {}

  lemma UnitIsEven(x: char)
    ensures Backticks(if x == '`' then "``" else [x]) % 2 == 0
  {
    assert "``"[1..] == "`" && "`"[1..] == "" && [x][1..] == [];
  }

  /** In a printed name, a space has an odd number of backticks after it; in all it has an even number. */
  lemma NameParity(n: Name, p: nat)
    requires GoodName(n) && p < |PrintName(n)| && PrintName(n)[p] == ' '
    ensures Backticks(PrintName(n)[p + 1..]) % 2 == 1
  {
    match n {
      case Simple(text) => IdentHasNone(text);
      case Escaped(text) =>
        var inner := Double(text, '`');
        SpaceInMiddle("`", inner, "`", p);
        DoubledIsEven(text, p);
        BackticksJoin(inner[p..], "`");
        assert PrintName(n)[p + 1..] == inner[p..] + "`";
    }
  }

  lemma NameEven(n: Name)
    requires GoodName(n)
    ensures Backticks(PrintName(n)) % 2 == 0
  {
    match n {
      case Simple(text) => IdentHasNone(text);
      case Escaped(text) =>
        var inner := Double(text, '`');
        DoubledIsEven(text, 0);
        assert inner[0..] == inner;
        BackticksJoin("`" + inner, "`");
        BackticksJoin("`", inner);
    }
  }

  /** The parts of a printed descriptor around its name hold neither spaces nor backticks. */
  lemma DescriptorShape(d: Descriptor) returns (before: string, after: string)
    requires GoodDescriptor(d)
    ensures PrintDescriptor(d) == before + PrintName(d.name) + after
    ensures ' ' !in before && ' ' !in after && Backticks(before) == 0 && Backticks(after) == 0
  {
    match d {
      case Suffixed(n, suffix) => before, after := "", [suffix];
      case Method(n, disambiguator) =>
        before, after := "", "(" + disambiguator + ").";
        IdentHasNone(disambiguator);
        BackticksJoin("(" + disambiguator, ").");
        BackticksJoin("(", disambiguator);
        assert Backticks(").") == Backticks(".");
      case TypeParameter(n) => before, after := "[", "]";
      case Parameter(n) => before, after := "(", ")";
    }
  }

  lemma SpaceInMiddle(before: string, middle: string, after: string, p: nat)
    requires p < |before + middle + after| && (before + middle + after)[p] == ' ' && ' ' !in before && ' ' !in after
    ensures |before| <= p < |before| + |middle| && middle[p - |before|] == ' '
  {}

  lemma DescriptorParity(d: Descriptor, p: nat)
    requires GoodDescriptor(d) && p < |PrintDescriptor(d)| && PrintDescriptor(d)[p] == ' '
    ensures Backticks(PrintDescriptor(d)[p + 1..]) % 2 == 1
  {
    hide Backticks, PrintDescriptor, PrintName, GoodName;
    var before, after := DescriptorShape(d);
    var t, n := PrintDescriptor(d), PrintName(d.name);
    SpaceInMiddle(before, n, after, p);
    NameParity(d.name, p - |before|);
    assert t[p + 1..] == n[p - |before| + 1..] + after;
    BackticksJoin(n[p - |before| + 1..], after);
  }

  lemma DescriptorEven(d: Descriptor)
    requires GoodDescriptor(d)
    ensures Backticks(PrintDescriptor(d)) % 2 == 0
  {
    var before, after := DescriptorShape(d);
    NameEven(d.name);
    BackticksJoin(before + PrintName(d.name), after);
    BackticksJoin(before, PrintName(d.name));
  }

  lemma NoBackticks()
    ensures Backticks([]) == 0
  {}

  lemma {:induction false} AllParity(ds: seq<Descriptor>, p: nat)
    requires forall i :: 0 <= i < |ds| ==> GoodDescriptor(ds[i])
    ensures Backticks(PrintAll(ds)) % 2 == 0
    ensures p < |PrintAll(ds)| && PrintAll(ds)[p] == ' ' ==> Backticks(PrintAll(ds)[p + 1..]) % 2 == 1
  {
    hide Backticks, PrintDescriptor, GoodDescriptor;
    NoBackticks();
    if ds != [] {
      var first, rest := PrintDescriptor(ds[0]), PrintAll(ds[1..]);
      DescriptorEven(ds[0]);
      BackticksJoin(first, rest);
      AllParity(ds[1..], if p >= |first| then p - |first| else 0);
      if p < |PrintAll(ds)| && PrintAll(ds)[p] == ' ' {
        if p < |first| {
          DescriptorParity(ds[0], p);
          assert PrintAll(ds)[p + 1..] == first[p + 1..] + rest;
          BackticksJoin(first[p + 1..], rest);
        } else {
          assert PrintAll(ds)[p + 1..] == rest[p - |first| + 1..];
        }
      }
    }
  }

  /** No descriptor list begins right after a space of another. */
  lemma NoSplitInside(ds: seq<Descriptor>, p: nat)
    requires GoodDescriptors(ds) && p < |PrintAll(ds)| && PrintAll(ds)[p] == ' '
    ensures !Descriptors(PrintAll(ds)[p + 1..])
  {
    AllParity(ds, p);
    if Descriptors(PrintAll(ds)[p + 1..]) {
      var es := ReadDescriptors(PrintAll(ds)[p + 1..]);
      AllParity(es, 0);
      assert false;
    }
  }

  /** So fields cannot be taken out of a descriptor list. */
  lemma {:induction false} NoFieldsInside(ds: seq<Descriptor>, p: nat, n: nat)
    requires GoodDescriptors(ds) && p < |PrintAll(ds)| && PrintAll(ds)[p] == ' '
    ensures !Fields(PrintAll(ds)[p + 1..], n)
    decreases n
  {
    hide Descriptors, FieldLen, PrintAll, GoodDescriptors;
    var d := PrintAll(ds);
    var t := d[p + 1..];
    if n == 0 {
      NoSplitInside(ds, p);
    } else if 0 < FieldLen(t) < |t| {
      var f := ReadField(t);
      var q := p + 1 + FieldLen(t);
      assert d[q] == t[FieldLen(t)] == ' ';
      assert d[q + 1..] == t[FieldLen(t) + 1..];
      NoFieldsInside(ds, q, n - 1);
    }
  }

  lemma DescriptorsStart(ds: seq<Descriptor>)
    requires GoodDescriptors(ds)
    ensures PrintAll(ds) != [] && PrintAll(ds)[0] != ' '
  {
    NameStart(ds[0].name);
    assert PrintDescriptor(ds[0]) != [] && PrintDescriptor(ds[0])[0] != ' ';
  }

  /** With fewer separators than fields asked for, the text is refused. */
  lemma {:induction false} TooFewSeparators(f: string, rest: seq<string>, ds: seq<Descriptor>, n: nat)
    requires GoodDescriptors(ds) && |rest| < n
    ensures !Fields(Text(f, rest, PrintAll(ds)), n)
    decreases |rest|, TotalSize(rest)
  {
    hide Descriptors, FieldLen, PrintAll, GoodDescriptors, Double;
    var d := PrintAll(ds);
    var t := Text(f, rest, d);
    DescriptorsStart(ds);
    if rest == [] {
      FieldLenOf(f, d);
      var k := FieldLen(d);
      if k < |d| {
        var g := ReadField(d);
        assert t[|Double(f, ' ')| + k + 1..] == d[k + 1..];
        NoFieldsInside(ds, k, n - 1);
      }
    } else {
      NextField(f, rest, d);
      var g, more := rest[0], rest[1..];
      if g != [] && g[0] == ' ' {
        assert g == " " + g[1..] && rest == [" " + g[1..]] + more;
        SpaceMoves(f, g[1..], more, d);
        assert ([g[1..]] + more)[1..] == more;
        TooFewSeparators(f + " ", [g[1..]] + more, ds, n);
      } else if g == [] && more != [] {
        assert rest == ["", more[0]] + more[1..];
        EmptyFieldMerges(f, more[0], more[1..], d);
        TooFewSeparators(f + " " + more[0], more[1..], ds, n);
      } else {
        TooFewSeparators(g, more, ds, n - 1);
      }
    }
  }

  /** Where the next part does not begin with a space, it is the next field's text. */
  lemma NextField(f: string, rest: seq<string>, tail: string)
    requires rest != [] && tail != [] && tail[0] != ' '
    ensures var t := Text(f, rest, tail);
            var next := Text(rest[0], rest[1..], tail);
            && (rest[0] != [] && rest[0][0] != ' ' ==> next != [] && next[0] != ' ')
            && (rest[0] == [] && rest[1..] == [] ==> next != [] && next[0] != ' ')
            && (next != [] && next[0] != ' ' ==>
                  FieldLen(t) == |Double(f, ' ')| && FieldLen(t) < |t| && t[FieldLen(t) + 1..] == next)
  {
    var next := Text(rest[0], rest[1..], tail);
    FieldLenOf(f, " " + next);
    assert Text(f, rest, tail) == Double(f, ' ') + (" " + next);
    if next != [] && next[0] != ' ' {
      assert (" " + next)[1] == next[0];
    }
  }

  predicate AllSolid(rest: seq<string>) {
    forall i :: 0 <= i < |rest| - 1 ==> HasNonSpace(rest[i])
  }

  /** With one separator per field, the text is accepted iff every middle field has a non-space. */
  lemma {:induction false} ExactSeparators(f: string, rest: seq<string>, ds: seq<Descriptor>)
    requires GoodDescriptors(ds) && f != [] && rest != [] && rest[|rest| - 1] == ""
    ensures Fields(Text(f, rest, PrintAll(ds)), |rest|) <==> AllSolid(rest)
    decreases |rest|, TotalSize(rest)
  {
    hide Descriptors, FieldLen, PrintAll, GoodDescriptors, Double, AllSolid, HasNonSpace;
    var d := PrintAll(ds);
    var g, more := rest[0], rest[1..];
    DescriptorsStart(ds);
    NextField(f, rest, d);
    DoubledNonEmpty(f);
    SolidCases(rest);
    if |rest| == 1 {
      DescriptorsOf(ds);
      NothingDoubled(d);
    } else if g == [] {
      assert rest == ["", more[0]] + more[1..];
      EmptyFieldMerges(f, more[0], more[1..], d);
      TooFewSeparators(f + " " + more[0], more[1..], ds, |rest|);
    } else if g[0] == ' ' {
      var trimmed := [g[1..]] + more;
      assert g == " " + g[1..] && rest == [" " + g[1..]] + more;
      SpaceMoves(f, g[1..], more, d);
      assert trimmed[1..] == more;
      ExactSeparators(f + " ", trimmed, ds);
      SolidCases(trimmed);
      SolidTrimmed(g);
    } else {
      ExactSeparators(g, more, ds);
      StartsSolid(g);
    }
  }

  lemma DoubledNonEmpty(f: string)
    requires f != []
    ensures Double(f, ' ') != []
  {}

  lemma NothingDoubled(tail: string)
    ensures Text("", [], tail) == tail
  {}

  lemma StartsSolid(g: string)
    requires g != [] && g[0] != ' '
    ensures HasNonSpace(g)
  {}

  /** Solidity, a field at a time. */
  lemma SolidCases(rest: seq<string>)
    requires rest != []
    ensures !HasNonSpace("")
    ensures AllSolid(rest) <==> |rest| == 1 || (HasNonSpace(rest[0]) && AllSolid(rest[1..]))
  {
    hide HasNonSpace;
    assert !HasNonSpace("") by { NothingSolid(); }
    if |rest| > 1 && HasNonSpace(rest[0]) && AllSolid(rest[1..]) {
      forall i | 0 <= i < |rest| - 1 ensures HasNonSpace(rest[i]) {
        if i > 0 { assert rest[i] == rest[1..][i - 1]; }
      }
    }
    if AllSolid(rest) {
      forall i | 0 <= i < |rest[1..]| - 1 ensures HasNonSpace(rest[1..][i]) {
        assert rest[1..][i] == rest[i + 1];
      }
    }
  }

  lemma NothingSolid()
    ensures !HasNonSpace("")
  {}

  lemma SolidTrimmed(g: string)
    requires g != [] && g[0] == ' '
    ensures HasNonSpace(g) <==> HasNonSpace(g[1..])
  {
    if HasNonSpace(g) {
      var i :| 0 <= i < |g| && g[i] != ' ';
      assert g[1..][i - 1] == g[i];
    }
  }

  // ---- the recognizer against the grammar ------------------------------------------------------

  /** DERIVABLE. Every accepted text prints some symbol of the grammar, without control characters and with
      a manager, package name and version that begin with a non-space. */
  lemma AcceptedIsDerivable(s: string) returns (y: Symbol)
    requires Accepts(s)
    ensures GoodSymbol(y) && Print(y) == s && NoControls(s)
    ensures y.Global? ==> y.manager[0] != ' ' && y.package[0] != ' ' && y.version[0] != ' '
  {
    hide Fields, Double, FieldLen, Text, Ident, NoControls, Descriptors, GoodDescriptors, PrintAll;
    if StartsWith(s, "local ") {
      y := Local(s[6..]);
      assert s == s[..6] + s[6..];
    } else {
      var f0, t1 := TakeField(s, 4);
      var f1, t2 := TakeField(t1, 3);
      var f2, t3 := TakeField(t2, 2);
      var f3, t4 := TakeField(t3, 1);
      DescriptorsOfNothing(t4);
      var ds := ReadDescriptors(t4);
      y := Global(f0, f1, f2, f3, ds);
      LocalScheme(f0, " " + t1);
      assert s == Double(f0, ' ') + (" " + t1);
      DescriptorsOfNothing(t4);
      PrintsAs(f0, f1, f2, f3, t4);
      assert s == Text(f0, [f1, f2, f3, ""], t4);
    }
  }

  lemma TakeField(t: string, n: nat) returns (f: string, rest: string)
    requires n > 0 && Fields(t, n)
    ensures f != [] && t == Double(f, ' ') + " " + rest && Fields(rest, n - 1)
    ensures rest != [] && rest[0] != ' '
    ensures t[0] != ' ' ==> f[0] != ' '
  {
    var k := FieldLen(t);
    f := ReadField(t);
    rest := t[k + 1..];
    assert t == t[..k] + [t[k]] + t[k + 1..];
    FieldsNonEmpty(rest, n - 1);
    assert Double("", ' ') == "";
  }

  lemma DescriptorsOfNothing(t: string)
    ensures Fields(t, 0) <==> Descriptors(t)
  {}

  lemma FieldsNonEmpty(t: string, n: nat)
    requires Fields(t, n)
    ensures t != []
  {}

  lemma {:induction false} LocalScheme(f: string, rest: string)
    requires rest != [] && rest[0] == ' '
    ensures StartsWith(Double(f, ' ') + rest, "local") <==> StartsWith(f, "local")
  {
    SameStart(f, rest, "local");
  }

  lemma {:induction false} SameStart(f: string, rest: string, prefix: string)
    requires rest != [] && rest[0] == ' ' && ' ' !in prefix
    ensures StartsWith(Double(f, ' ') + rest, prefix) <==> StartsWith(f, prefix)
  {
    var t := Double(f, ' ') + rest;
    if prefix != [] {
      assert prefix == [prefix[0]] + prefix[1..];
      if f == [] {
        assert t[0] == ' ' && prefix[0] in prefix;
      } else if f[0] == ' ' {
        assert t[0] == ' ' && prefix[0] in prefix;
      } else {
        assert t[0] == f[0] && t[1..] == Double(f[1..], ' ') + rest;
        SameStart(f[1..], rest, prefix[1..]);
        StartsByOne(t, prefix);
        StartsByOne(f, prefix);
      }
    }
  }

  lemma StartsByOne(s: string, prefix: string)
    requires s != [] && prefix != []
    ensures StartsWith(s, prefix) <==> s[0] == prefix[0] && StartsWith(s[1..], prefix[1..])
  {
    if StartsWith(s, prefix) {
      assert s[0] == s[..|prefix|][0];
      assert s[1..][..|prefix| - 1] == s[..|prefix|][1..];
    }
    if s[0] == prefix[0] && StartsWith(s[1..], prefix[1..]) {
      assert s[..|prefix|] == [s[0]] + s[1..][..|prefix| - 1];
      assert prefix == [prefix[0]] + prefix[1..];
    }
  }

  lemma PrintsAs(f0: string, f1: string, f2: string, f3: string, tail: string)
    ensures Text(f0, [f1, f2, f3, ""], tail)
         == Double(f0, ' ') + " " + (Double(f1, ' ') + " " + (Double(f2, ' ') + " " + (Double(f3, ' ') + " " + tail)))
  {
    var all := [f1, f2, f3, ""];
    assert all[1..] == [f2, f3, ""] && [f2, f3, ""][1..] == [f3, ""] && [f3, ""][1..] == [""] && [""][1..] == [];
    assert Text("", [], tail) == tail;
    assert Text(f3, [""], tail) == Double(f3, ' ') + " " + tail;
    assert Text(f2, [f3, ""], tail) == Double(f2, ' ') + " " + Text(f3, [""], tail);
    assert Text(f1, [f2, f3, ""], tail) == Double(f1, ' ') + " " + Text(f2, [f3, ""], tail);
  }

  /** EXACT. A printed symbol of the grammar is accepted iff it has no control characters and, unless it is
      local, its manager, package name and version each hold something besides spaces: separators around
      a field of spaces read as one run of escaped spaces. */
  lemma PrintedIsAccepted(y: Symbol)
    requires GoodSymbol(y)
    ensures Accepts(Print(y)) <==>
              && NoControls(Print(y))
              && (y.Global? ==> HasNonSpace(y.manager) && HasNonSpace(y.package) && HasNonSpace(y.version))
  {
    hide Fields, Double, Text, Ident, NoControls, HasNonSpace, GoodDescriptors, PrintAll;
    var s := Print(y);
    match y {
      case Local(id) =>
        assert s[..6] == "local " && s[6..] == id;
      case Global(scheme, manager, package, version, ds) =>
        var rest := [manager, package, version, ""];
        ExactSeparators(scheme, rest, ds);
        assert AllSolid(rest) <==> HasNonSpace(rest[0]) && HasNonSpace(rest[1]) && HasNonSpace(rest[2]);
        NotLocal(scheme, rest, PrintAll(ds));
    }
  }

  lemma NotLocal(scheme: string, rest: seq<string>, tail: string)
    requires !StartsWith(scheme, "local") && scheme != [] && rest != []
    ensures var s := Text(scheme, rest, tail); s != [] && !StartsWith(s, "local") && !StartsWith(s, "local ")
  {
    hide Double;
    var s, next := Text(scheme, rest, tail), " " + Text(rest[0], rest[1..], tail);
    assert s == Double(scheme, ' ') + next;
    LocalScheme(scheme, next);
    ShorterStart(s);
  }

  lemma ShorterStart(s: string)
    ensures StartsWith(s, "local ") ==> StartsWith(s, "local")
  {
    if StartsWith(s, "local ") { assert s[..5] == s[..6][..5]; }
  }

  /** The grammar alone does not decide: a version of two spaces is derivable and refused. */
  lemma SpacesOnlyFieldIsRefused()
    ensures var y := Global("s", "m", "p", "  ", [Suffixed(Simple("d"), '#')]);
            GoodSymbol(y) && Print(y) == "s m p      d#" && !Accepts("s m p      d#")
  {
    hide Accepts;
    var y := Global("s", "m", "p", "  ", [Suffixed(Simple("d"), '#')]);
    SpacesOnlyPrints();
    PrintedIsAccepted(y);
    assert !HasNonSpace("  ");
  }

  lemma SpacesOnlyPrints()
    ensures Print(Global("s", "m", "p", "  ", [Suffixed(Simple("d"), '#')])) == "s m p      d#"
  {
    hide Text, Double, PrintAll;
    var ds := [Suffixed(Simple("d"), '#')];
    PrintsAs("s", "m", "p", "  ", PrintAll(ds));
    OneDescriptor(ds[0]);
    DoubleOne('s');
    DoubleOne('m');
    DoubleOne('p');
    DoubleSpaces();
  }

  lemma OneDescriptor(d: Descriptor)
    ensures PrintAll([d]) == PrintDescriptor(d)
  {
    assert [d][1..] == [];
  }

  lemma DoubleOne(c: char)
    requires c != ' '
    ensures Double([c], ' ') == [c]
  {
    assert [c][1..] == [];
  }

  lemma DoubleSpaces()
    ensures Double("  ", ' ') == "    "
  {
    assert "  "[1..] == " " && " "[1..] == "";
  }
}

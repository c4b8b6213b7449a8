/** Deterministic logical identities: the component encoding is injective, so identities of different
    kinds, repositories or components never coincide. UUIDv5 (section 5.5 of RFC 9562) is a parameter,
    injective where a lemma says so. */
module Identity {
  import opened Orders

  /** Bytes of one Unicode scalar value in UTF-8. */
  function Utf8Width(c: char): nat {
    if c < 0x80 as char then 1 else if c < 0x800 as char then 2 else if c < 0x1_0000 as char then 3 else 4
  }

  function Utf8Length(s: string): nat {
    if s == [] then 0 else Utf8Width(s[0]) + Utf8Length(s[1..])
  }

  function Digit(d: nat): char
    requires d < 10
  {
    ['0', '1', '2', '3', '4', '5', '6', '7', '8', '9'][d]
  }

  /** Python's `str` of a natural number. */
  function Decimal(n: nat): (s: string)
    ensures s != [] && forall i :: 0 <= i < |s| ==> '0' <= s[i] <= '9'
  {
    if n < 10 then [Digit(n)] else Decimal(n / 10) + [Digit(n % 10)]
  }

  function EncodeOne(part: string): string {
    Decimal(Utf8Length(part)) + ":" + part
  }

  /** `encode_components`: `<utf-8 byte length>:<text>` items. */
  function EncodeComponents(components: seq<string>): string {
    if components == [] then "" else EncodeOne(components[0]) + EncodeComponents(components[1..])
  }

  // ---- the encoding loses nothing --------------------------------------------------------------

  function Value(digits: string): nat {
    if digits == [] then 0
    else
      var last := digits[|digits| - 1];
      10 * Value(digits[..|digits| - 1]) + (if '0' <= last <= '9' then (last - '0') as nat else 0)
  }

  lemma {:induction false} DecimalValue(n: nat)
    ensures Value(Decimal(n)) == n
  {
    if n >= 10 {
      DecimalValue(n / 10);
      assert Decimal(n)[..|Decimal(n)| - 1] == Decimal(n / 10);
    } else {
      assert Decimal(n)[..0] == [];
    }
  }

  /** Two digit runs that end at the first colon of the same text are the same run. */
  lemma {:induction false} SameDigits(a: string, x: string, b: string, y: string)
    requires a + ":" + x == b + ":" + y
    requires forall i :: 0 <= i < |a| ==> '0' <= a[i] <= '9'
    requires forall i :: 0 <= i < |b| ==> '0' <= b[i] <= '9'
    ensures a == b && x == y
  {
    var s, t := a + ":" + x, b + ":" + y;
    assert a == [] <==> s[0] == ':';
    assert b == [] <==> t[0] == ':';
    if a == [] {
      assert x == s[1..] && y == t[1..];
    } else {
      assert a[1..] + ":" + x == s[1..] && b[1..] + ":" + y == t[1..];
      SameDigits(a[1..], x, b[1..], y);
      assert a == [s[0]] + a[1..] && b == [t[0]] + b[1..];
    }
  }

  /** Two prefixes of the same text with equally many bytes are equal. */
  lemma {:induction false} SamePrefix(a: string, x: string, b: string, y: string)
    requires a + x == b + y && Utf8Length(a) == Utf8Length(b)
    ensures a == b && x == y
  {
    if a == [] || b == [] {
      assert a == b;
      assert x == (a + x)[|a|..] && y == (b + y)[|b|..];
    } else {
      assert a[0] == (a + x)[0] == (b + y)[0] == b[0];
      assert a[1..] + x == (a + x)[1..] == (b + y)[1..] == b[1..] + y;
      SamePrefix(a[1..], x, b[1..], y);
      assert a == [a[0]] + a[1..] && b == [b[0]] + b[1..];
    }
  }

  lemma SameFirst(p: string, x: string, q: string, y: string)
    requires EncodeOne(p) + x == EncodeOne(q) + y
    ensures p == q && x == y
  {
    var m, n := Decimal(Utf8Length(p)), Decimal(Utf8Length(q));
    assert m + ":" + (p + x) == EncodeOne(p) + x;
    assert n + ":" + (q + y) == EncodeOne(q) + y;
    SameDigits(m, p + x, n, q + y);
    DecimalValue(Utf8Length(p));
    DecimalValue(Utf8Length(q));
    SamePrefix(p, x, q, y);
  }

  /** INJECTIVE. Component lists of any length with one encoding are the same list. */
  lemma {:induction false} EncodingIsInjective(a: seq<string>, b: seq<string>)
    requires EncodeComponents(a) == EncodeComponents(b)
    ensures a == b
  {
    if a != [] && b != [] {
      SameFirst(a[0], EncodeComponents(a[1..]), b[0], EncodeComponents(b[1..]));
      EncodingIsInjective(a[1..], b[1..]);
      assert a == [a[0]] + a[1..] && b == [b[0]] + b[1..];
    }
  }

  // ---- identities ------------------------------------------------------------------------------

  type Id = string

  /** UUIDv5 of a name under a namespace, and the frozen root namespace: itself derived from the URL
      namespace and a fixed URN. */
  datatype Derivation = Derivation(uuid5: (Id, string) -> Id, url: Id, urn: string)

  function Root(d: Derivation): Id {
    d.uuid5(d.url, d.urn)
  }

  ghost predicate Injective(d: Derivation) {
    && (forall n1, x1, n2, x2 :: d.uuid5(n1, x1) == d.uuid5(n2, x2) ==> n1 == n2 && x1 == x2)
    && d.url != Root(d)
  }

  function RepositoryNamespace(d: Derivation, repository: string): Id {
    d.uuid5(Root(d), EncodeComponents(["repository", repository]))
  }

  function Derive(d: Derivation, repository: string, components: seq<string>): Id {
    d.uuid5(RepositoryNamespace(d, repository), EncodeComponents(components))
  }

  function FileLogicalId(d: Derivation, repository: string, originPath: string, introducingCommit: string): Id {
    Derive(d, repository, ["file", originPath, introducingCommit])
  }

  function UncommittedFileLogicalId(d: Derivation, repository: string, path: string): Id {
    d.uuid5(Derive(d, repository, ["namespace", "uncommitted"]), EncodeComponents([path]))
  }

  /** Everything the module gives an ID to. */
  datatype Subject =
    | File(originPath: string, introducingCommit: string)
    | ProvisionalFile(checkout: string, path: string)
    | UncommittedFile(path: string)
    | FileRevision(file: Id, blobOid: string, language: string, parserFingerprint: string)
    | ScipSymbol(symbol: string)
    | FallbackSymbol(language: string, file: Id, qualifiedName: string, kind: string, disambiguator: string)
    | SymbolRevision(symbolId: Id, signatureDigest: string, semanticFingerprint: string)

  function IdOf(d: Derivation, repository: string, s: Subject): Id {
    match s
    case File(path, commit) => FileLogicalId(d, repository, path, commit)
    case ProvisionalFile(checkout, path) =>
      d.uuid5(Derive(d, repository, ["namespace", "provisional"]), EncodeComponents([checkout, path]))
    case UncommittedFile(path) => UncommittedFileLogicalId(d, repository, path)
    case FileRevision(file, blob, language, parser) =>
      Derive(d, repository, ["file_revision", file, blob, language, parser])
    case ScipSymbol(symbol) => Derive(d, repository, ["symbol_scip", symbol])
    case FallbackSymbol(language, file, name, kind, disambiguator) =>
      Derive(d, repository, ["symbol_fallback", language, file, name, kind, disambiguator])
    case SymbolRevision(symbol, signature, semantic) =>
      Derive(d, repository, ["symbol_revision", symbol, signature, semantic])
  }

  /** The namespace and the components an ID is derived from. */
  function Components(s: Subject): seq<string> {
    match s
    case File(path, commit) => ["file", path, commit]
    case ProvisionalFile(checkout, path) => [checkout, path]
    case UncommittedFile(path) => [path]
    case FileRevision(file, blob, language, parser) => ["file_revision", file, blob, language, parser]
    case ScipSymbol(symbol) => ["symbol_scip", symbol]
    case FallbackSymbol(language, file, name, kind, disambiguator) =>
      ["symbol_fallback", language, file, name, kind, disambiguator]
    case SymbolRevision(symbol, signature, semantic) => ["symbol_revision", symbol, signature, semantic]
  }

  function Namespace(d: Derivation, repository: string, s: Subject): Id {
    if s.ProvisionalFile? then Derive(d, repository, ["namespace", "provisional"])
    else if s.UncommittedFile? then Derive(d, repository, ["namespace", "uncommitted"])
    else RepositoryNamespace(d, repository)
  }

  lemma SameDerivation(d: Derivation, r: string, a: seq<string>, t: string, b: seq<string>)
    requires Injective(d)
    ensures Derive(d, r, a) == Derive(d, t, b) ==> r == t && a == b
    ensures RepositoryNamespace(d, r) == RepositoryNamespace(d, t) ==> r == t
    ensures RepositoryNamespace(d, r) != Derive(d, t, b)
  {
    hide EncodeComponents;
    if RepositoryNamespace(d, r) == RepositoryNamespace(d, t) {
      EncodingIsInjective(["repository", r], ["repository", t]);
      assert ["repository", r][1] == ["repository", t][1];
    }
    if Derive(d, r, a) == Derive(d, t, b) {
      EncodingIsInjective(["repository", r], ["repository", t]);
      assert ["repository", r][1] == ["repository", t][1];
      EncodingIsInjective(a, b);
    }
    assert RepositoryNamespace(d, t) != Root(d);
  }

  /** IDENTITY. Two subjects share an ID only if they are the same subject of the same repository; in
      particular an uncommitted or provisional file never shares one with a committed file. */
  lemma IdentitiesNeverCoincide(d: Derivation, r: string, a: Subject, t: string, b: Subject)
    requires Injective(d) && IdOf(d, r, a) == IdOf(d, t, b)
    ensures r == t && a == b
  {
    hide EncodeComponents, Derive, RepositoryNamespace;
    assert IdOf(d, r, a) == d.uuid5(Namespace(d, r, a), EncodeComponents(Components(a))) by { IdShape(d, r, a); }
    assert IdOf(d, t, b) == d.uuid5(Namespace(d, t, b), EncodeComponents(Components(b))) by { IdShape(d, t, b); }
    assert Namespace(d, r, a) == Namespace(d, t, b);
    EncodingIsInjective(Components(a), Components(b));
    SameNamespace(d, r, a, t, b);
    SameComponents(a, b);
  }

  lemma IdShape(d: Derivation, r: string, s: Subject)
    ensures IdOf(d, r, s) == d.uuid5(Namespace(d, r, s), EncodeComponents(Components(s)))
  {
    hide EncodeComponents;
  }

  lemma SameNamespace(d: Derivation, r: string, a: Subject, t: string, b: Subject)
    requires Injective(d) && Namespace(d, r, a) == Namespace(d, t, b)
    ensures r == t && a.ProvisionalFile? == b.ProvisionalFile? && a.UncommittedFile? == b.UncommittedFile?
  {
    hide EncodeComponents, Derive, RepositoryNamespace, Injective;
    var p, u := ["namespace", "provisional"], ["namespace", "uncommitted"];
    assert p[1][0] == 'p' && u[1][0] == 'u';
    SameDerivation(d, r, p, t, p);
    SameDerivation(d, r, u, t, u);
    SameDerivation(d, r, p, t, u);
    SameDerivation(d, r, u, t, p);
    SameDerivation(d, t, p, r, p);
    SameDerivation(d, t, p, r, u);
  }

  lemma SameComponents(a: Subject, b: Subject)
    requires Components(a) == Components(b)
    requires a.ProvisionalFile? == b.ProvisionalFile? && a.UncommittedFile? == b.UncommittedFile?
    ensures a == b
  {
    var x, y := Components(a), Components(b);
    assert x[0] == y[0] && |x| == |y|;
    assert |x| > 1 ==> x[1] == y[1];
    assert |x| > 2 ==> x[2] == y[2];
    assert |x| > 3 ==> x[3] == y[3];
    assert |x| > 4 ==> x[4] == y[4];
    assert |x| > 5 ==> x[5] == y[5];
    assert |"file"| == 4 && |"file_revision"| == 13 && |"symbol_scip"| == 11 && |"symbol_fallback"| == 15
      && |"symbol_revision"| == 15;
    assert "symbol_fallback"[7] == 'f' && "symbol_revision"[7] == 'r';
  }
}

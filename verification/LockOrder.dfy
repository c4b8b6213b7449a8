/** The lock keys of the write path and the one order in which a transaction takes them. */
module LockOrder {
  import opened Orders

  const CONTENT_NAMESPACE: int := 0x434F_4E54
  const IDEMPOTENCY_NAMESPACE: int := 0x4944_454D

  predicate IsHex(c: char) {
    '0' <= c <= '9' || 'a' <= c <= 'f'
  }

  predicate IsDigest(s: string) {
    |s| == 64 && forall i :: 0 <= i < |s| ==> IsHex(s[i])
  }

  type Digest = s: string | IsDigest(s) witness seq(64, _ => '0')

  function HexDigit(c: char): nat
    requires IsHex(c)
  {
    if c <= '9' then (c - '0') as nat else 10 + (c - 'a') as nat
  }

  function Pow16(n: nat): nat {
    if n == 0 then 1 else 16 * Pow16(n - 1)
  }

  /** A big-endian run of hex digits as an unsigned number. */
  function HexNumber(s: string): nat
    requires forall i :: 0 <= i < |s| ==> IsHex(s[i])
  {
    if s == [] then 0 else 16 * HexNumber(s[..|s| - 1]) + HexDigit(s[|s| - 1])
  }

  function Signed32(u: nat): int {
    if u < 0x8000_0000 then u else u - 0x1_0000_0000
  }

  function Unsigned32(key: int): int {
    if key < 0 then key + 0x1_0000_0000 else key
  }

  /** The two-int4 advisory lock key of a content digest: the first four digest bytes read as a
      signed big-endian int32, under the content namespace. */
  function ContentDigestLockKey(digest: Digest): (int, int) {
    (CONTENT_NAMESPACE, Signed32(HexNumber(digest[..8])))
  }

  /** Anything a transaction waits for and keeps until it ends. */
  datatype Resource =
    | Advisory(namespace: int, key: int)
    | InlineRow(inlineId: string)
    | StreamRow(streamId: string)

  function ContentLock(digest: Digest): Resource {
    var (namespace, key) := ContentDigestLockKey(digest);
    Advisory(namespace, key)
  }

  function IdempotencyLock(key: int): Resource {
    Advisory(IDEMPOTENCY_NAMESPACE, key)
  }

  function Class(r: Resource): nat {
    match r
    case Advisory(namespace, _) => if namespace == CONTENT_NAMESPACE then 0 else 3
    case InlineRow(_) => 1
    case StreamRow(_) => 2
  }

  /** The global rank: content locks by UNSIGNED digest prefix, then inline rows, then stream rows,
      then idempotency locks by SIGNED key. */
  predicate Below(a: Resource, b: Resource) {
    Class(a) < Class(b) ||
    (Class(a) == Class(b) &&
     match (a, b)
     case (Advisory(n, k), Advisory(m, l)) =>
       if n == CONTENT_NAMESPACE then Unsigned32(k) < Unsigned32(l) else n == m && k < l
     case (InlineRow(x), InlineRow(y)) => Less(x, y)
     case (StreamRow(x), StreamRow(y)) => Less(x, y)
     case _ => false)
  }

  lemma BelowTransitive(a: Resource, b: Resource, c: Resource)
    requires Below(a, b) && Below(b, c)
    ensures Below(a, c)
  {
    match (a, b, c) {
      case (InlineRow(x), InlineRow(y), InlineRow(z)) => LessTransitive(x, y, z);
      case (StreamRow(x), StreamRow(y), StreamRow(z)) => LessTransitive(x, y, z);
      case _ =>
    }
  }

  lemma BelowIrreflexive(a: Resource)
    ensures !Below(a, a)
  {
    match a {
      case InlineRow(x) => LessIrreflexive(x);
      case StreamRow(x) => LessIrreflexive(x);
      case _ =>
    }
  }

  lemma {:induction false} HexNumberBound(s: string)
    requires forall i :: 0 <= i < |s| ==> IsHex(s[i])
    ensures HexNumber(s) < Pow16(|s|)
  {
    if s != [] { HexNumberBound(s[..|s| - 1]); }
  }

  lemma Pow16Eight()
    ensures Pow16(8) == 0x1_0000_0000
  {
    assert Pow16(4) == 65536;
    assert Pow16(6) == 256 * Pow16(4);
    assert Pow16(8) == 256 * Pow16(6);
  }

  lemma {:induction false} LessAfterCommonPrefix(a: string, b: string, n: nat)
    requires n < |a| && n < |b| && a[..n] == b[..n]
    requires Less(a, b)
    ensures a[n] <= b[n]
  {
    if n > 0 {
      assert a[0] == a[..n][0] == b[..n][0] == b[0];
      assert a[1..][..n - 1] == a[..n][1..] == b[..n][1..] == b[1..][..n - 1];
      LessAfterCommonPrefix(a[1..], b[1..], n - 1);
    }
  }

  /** Sorting hex strings sorts the numbers their equally long prefixes denote. */
  lemma {:induction false} HexOrder(a: string, b: string, n: nat)
    requires n <= |a| && n <= |b|
    requires forall i :: 0 <= i < |a| ==> IsHex(a[i])
    requires forall i :: 0 <= i < |b| ==> IsHex(b[i])
    requires Less(a, b)
    ensures a[..n] == b[..n] || HexNumber(a[..n]) < HexNumber(b[..n])
  {
    hide HexNumber, HexDigit, Less;
    if n > 0 {
      HexOrder(a, b, n - 1);
      HexNumberNext(a, n);
      HexNumberNext(b, n);
      if a[..n - 1] == b[..n - 1] {
        LessAfterCommonPrefix(a, b, n - 1);
        if a[n - 1] < b[n - 1] { HexDigitsAscend(a[n - 1], b[n - 1]); }
      }
    }
  }

  lemma HexNumberNext(a: string, n: nat)
    requires 0 < n <= |a| && forall i :: 0 <= i < |a| ==> IsHex(a[i])
    ensures HexNumber(a[..n]) == 16 * HexNumber(a[..n - 1]) + HexDigit(a[n - 1]) && HexDigit(a[n - 1]) < 16
    ensures a[..n] == a[..n - 1] + [a[n - 1]]
  {
    assert a[..n][..n - 1] == a[..n - 1];
  }

  lemma HexDigitsAscend(x: char, y: char)
    requires IsHex(x) && IsHex(y) && x < y
    ensures HexDigit(x) < HexDigit(y)
  {}

  /** The lock keys are signed, digests sort as strings and prefixes collide, yet two digests in
      sorted order always have content locks that are equal or in rank order. */
  lemma ContentLocksAscend(a: Digest, b: Digest)
    requires Less(a, b)
    ensures ContentLock(a) == ContentLock(b) || Below(ContentLock(a), ContentLock(b))
  {
    HexOrder(a, b, 8);
    HexNumberBound(a[..8]);
    HexNumberBound(b[..8]);
    Pow16Eight();
  }

  /** The signed key order alone would not do: sorted digests can have descending signed keys. */
  lemma SignedKeysDoNotFollowDigestOrder()
    ensures exists a: Digest, b: Digest ::
              Less(a, b) && ContentDigestLockKey(a).1 > ContentDigestLockKey(b).1
  {
    var a: Digest := seq(64, _ => '0');
    var b: Digest := seq(64, i => if i == 0 then '8' else '0');
    assert Less(a, b);
    HexNumberZeros(a[..8], '0');
    HexNumberZeros(b[..8], '8');
    Pow16Eight();
    assert Pow16(8) == 16 * Pow16(7);
    assert ContentDigestLockKey(a).1 > ContentDigestLockKey(b).1;
  }

  lemma {:induction false} HexNumberZeros(s: string, c: char)
    requires s != [] && IsHex(c) && s[0] == c && forall i :: 0 < i < |s| ==> s[i] == '0'
    ensures HexNumber(s) == HexDigit(c) * Pow16(|s| - 1)
  {
    if |s| == 1 {
      assert HexNumber(s[..0]) == 0;
    } else {
      HexNumberZeros(s[..|s| - 1], c);
      assert Pow16(|s| - 1) == 16 * Pow16(|s| - 2);
    }
  }
}

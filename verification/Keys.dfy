/** Key encodings: order preservation, round trips and the ranges scans use. */
module Keys {
  import opened LockSpec
  import opened Bytes

  // --- big-endian integers ---

  function Pow256(width: nat): (r: nat)
    ensures r > 0
  {
    if width == 0 then 1 else 256 * Pow256(width - 1)
  }

  function BigEndian(n: nat, width: nat): (r: Key)
    ensures |r| == width
  {
    if width == 0 then [] else BigEndian(n / 256, width - 1) + [n % 256]
  }

  function FromBigEndian(s: Key): (n: nat) {
    if s == [] then 0 else FromBigEndian(s[..|s| - 1]) * 256 + s[|s| - 1]
  }

  /** Reading back what was written, for every integer that fits. */
  lemma {:induction false} BigEndianRoundTrip(n: nat, width: nat)
    requires n < Pow256(width)
    ensures FromBigEndian(BigEndian(n, width)) == n
  {
    if width > 0 {
      BigEndianRoundTrip(n / 256, width - 1);
      assert BigEndian(n, width)[..width - 1] == BigEndian(n / 256, width - 1);
    }
  }

  /** Key order is integer order. */
  lemma {:induction false} BigEndianOrder(a: nat, b: nat, width: nat)
    requires a < Pow256(width) && b < Pow256(width)
    ensures KeyBefore(BigEndian(a, width), BigEndian(b, width)) <==> a < b
    decreases width
  {
    if width > 0 {
      var x, y := BigEndian(a / 256, width - 1), BigEndian(b / 256, width - 1);
      if a / 256 == b / 256 {
        SamePrefix(x, [a % 256], [b % 256]);
        OneByte([a % 256], b % 256);
      } else {
        BigEndianOrder(a / 256, b / 256, width - 1);
        BigEndianOrder(b / 256, a / 256, width - 1);
        DecidedByPrefix(x, [a % 256], y, [b % 256]);
      }
    }
  }

  /** Keys of equal length that differ are ordered before anything appended to them. */
  lemma {:induction false} DecidedByPrefix(x: Key, a: Key, y: Key, b: Key)
    requires |x| == |y| && x != y
    ensures KeyBefore(x + a, y + b) <==> KeyBefore(x, y)
  {
    if x != [] {
      assert (x + a)[1..] == x[1..] + a && (y + b)[1..] == y[1..] + b;
      if x[0] == y[0] {
        assert x == [x[0]] + x[1..] && y == [y[0]] + y[1..];
        DecidedByPrefix(x[1..], a, y[1..], b);
      }
    }
  }

  const U64: nat := 8

  predicate IsU64(n: nat) { n < Pow256(U64) }

  // --- wait-queue keys ---

  const ENTRY_TAG: Byte := 101
  const OWNER_TAG: Byte := 111
  const PATH_TAG: Byte := 112

  function QueueEntryKey(s: nat): (r: Key) { [ENTRY_TAG] + BigEndian(s, U64) }

  function QueueOwnerKey(owner: Key): (r: Key) { [OWNER_TAG] + owner }

  function QueuePathPrefix(path: Key): (r: Key) { [PATH_TAG] + path + [0] }

  function QueuePathUpper(path: Key): (r: Key) { [PATH_TAG] + path + [1] }

  function QueuePathKey(path: Key, s: nat): (r: Key) { QueuePathPrefix(path) + BigEndian(s, U64) }

  function DecodeQueueEntrySeq(key: Key): (r: Option<nat>) {
    if |key| != 9 || key[0] != ENTRY_TAG then None else Some(FromBigEndian(key[1..]))
  }

  function DecodeQueuePathSeq(key: Key): (r: Option<nat>) {
    if |key| < 10 || key[0] != PATH_TAG || key[|key| - 9] != 0 then None else Some(FromBigEndian(key[|key| - 8..]))
  }

  lemma QueueEntryRoundTrip(s: nat)
    requires IsU64(s)
    ensures DecodeQueueEntrySeq(QueueEntryKey(s)) == Some(s)
  {
    BigEndianRoundTrip(s, U64);
    assert QueueEntryKey(s)[1..] == BigEndian(s, U64);
  }

  lemma QueuePathRoundTrip(path: Key, s: nat)
    requires IsU64(s)
    ensures DecodeQueuePathSeq(QueuePathKey(path, s)) == Some(s)
    ensures DecodeQueueEntrySeq(QueuePathKey(path, s)) == None
  {
    BigEndianRoundTrip(s, U64);
    var k := QueuePathKey(path, s);
    assert |k| == |path| + 10 && k[|k| - 8..] == BigEndian(s, U64) && k[|k| - 9] == 0 && k[0] == PATH_TAG;
  }

  /** The entry scan meets every entry in sequence order, and no owner or path record. */
  lemma EntryScanIsFifo(a: nat, b: nat, owner: Key, path: Key)
    requires IsU64(a) && IsU64(b)
    ensures KeyBefore(QueueEntryKey(a), QueueEntryKey(b)) <==> a < b
    ensures !KeyBefore(QueueEntryKey(a), [ENTRY_TAG]) && KeyBefore(QueueEntryKey(a), [ENTRY_TAG + 1])
    ensures !KeyBefore(QueueOwnerKey(owner), [ENTRY_TAG + 1]) && !KeyBefore(QueuePathKey(path, a), [ENTRY_TAG + 1])
  {
    SamePrefix([ENTRY_TAG], BigEndian(a, U64), BigEndian(b, U64));
    BigEndianOrder(a, b, U64);
    OneByte(QueueEntryKey(a), ENTRY_TAG);
    OneByte(QueueEntryKey(a), ENTRY_TAG + 1);
    OneByte(QueueOwnerKey(owner), ENTRY_TAG + 1);
    OneByte(QueuePathKey(path, a), ENTRY_TAG + 1);
  }

  lemma {:induction false} NulFreePrefix(p: Key, q: Key, rest: Key)
    requires 0 !in p && 0 !in q
    ensures p + [0] <= q + [0] + rest <==> p == q
  {
    if p == [] && q != [] {
      assert (q + [0] + rest)[0] == q[0] && q[0] in q;
    } else if p != [] && q == [] {
      assert (p + [0])[0] == p[0] && p[0] in p;
    } else if p != [] && q != [] {
      NulFreePrefix(p[1..], q[1..], rest);
      assert (p + [0])[1..] == p[1..] + [0] && (q + [0] + rest)[1..] == q[1..] + [0] + rest;
      assert p == [p[0]] + p[1..] && q == [q[0]] + q[1..];
      TailPrefix(p + [0], q + [0] + rest);
    }
  }

  lemma TailPrefix(a: Key, b: Key)
    requires a != [] && b != []
    ensures a <= b <==> a[0] == b[0] && a[1..] <= b[1..]
  {
    if a[0] == b[0] && a[1..] <= b[1..] {
      assert a == [a[0]] + a[1..] && b == [b[0]] + b[1..];
    }
  }

  /** The exact-path scan meets the records of that path and of no other. */
  lemma ExactPathScan(path: Key, other: Key, s: nat)
    requires 0 !in path && 0 !in other
    ensures var k := QueuePathKey(other, s);
            (!KeyBefore(k, QueuePathPrefix(path)) && KeyBefore(k, QueuePathUpper(path))) <==> path == other
  {
    var k := QueuePathKey(other, s);
    NextByte([PATH_TAG] + path, 0, k);
    NulFreePrefix(path, other, BigEndian(s, U64));
    assert QueuePathPrefix(path) == [PATH_TAG] + path + [0];
    assert k == [PATH_TAG] + (other + [0] + BigEndian(s, U64));
    TailPrefix(QueuePathPrefix(path), k);
    assert QueuePathPrefix(path)[1..] == path + [0] && k[1..] == other + [0] + BigEndian(s, U64);
  }

  // --- expiry index keys ---

  function ExpiryKey(exp: nat, kind: Key, primary: Key): (r: Key) { BigEndian(exp, U64) + [0] + kind + [0] + primary }

  function ExpiryScanUpper(now: nat): (r: Key) { BigEndian(now, U64) + [0, 0] }

  function NulAt(s: Key): (r: Option<nat>) {
    if s == [] then None
    else if s[0] == 0 then Some(0)
    else match NulAt(s[1..])
      case None => None
      case Some(i) => Some(i + 1)
  }

  lemma {:induction false} NulAtIs(kind: Key, rest: Key)
    requires 0 !in kind
    ensures NulAt(kind + [0] + rest) == Some(|kind|)
  {
    if kind != [] {
      assert (kind + [0] + rest)[1..] == kind[1..] + [0] + rest;
      NulAtIs(kind[1..], rest);
    }
  }

  lemma {:induction false} NulAtBound(s: Key)
    ensures NulAt(s).Some? ==> NulAt(s).value < |s|
  {
    if s != [] { NulAtBound(s[1..]); }
  }

  function DecodeExpiryEntry(key: Key): (r: Option<(nat, Key, Key)>) {
    if |key| < 9 then None
    else
      var rest := key[9..];
      NulAtBound(rest);
      match NulAt(rest)
      case None => None
      case Some(i) => Some((FromBigEndian(key[..8]), rest[..i], rest[i + 1..]))
  }

  /** Decoding returns exactly what was filed, even for primary keys with NUL bytes. */
  lemma ExpiryRoundTrip(exp: nat, kind: Key, primary: Key)
    requires IsU64(exp) && 0 !in kind
    ensures DecodeExpiryEntry(ExpiryKey(exp, kind, primary)) == Some((exp, kind, primary))
  {
    BigEndianRoundTrip(exp, U64);
    var k := ExpiryKey(exp, kind, primary);
    var rest := kind + [0] + primary;
    assert k == BigEndian(exp, U64) + [0] + rest;
    assert k[..8] == BigEndian(exp, U64) && k[9..] == rest;
    NulAtIs(kind, primary);
    NulAtBound(rest);
    assert rest[..|kind|] == kind && rest[|kind| + 1..] == primary;
  }

  /** The garbage collector's scan reaches exactly the entries filed before now. */
  lemma ExpiryScanReaches(exp: nat, kind: Key, primary: Key, now: nat)
    requires IsU64(exp) && IsU64(now) && kind != [] && 0 !in kind
    ensures KeyBefore(ExpiryKey(exp, kind, primary), ExpiryScanUpper(now)) <==> exp < now
  {
    var x, y := BigEndian(exp, U64), BigEndian(now, U64);
    var a := [0] + kind + [0] + primary;
    assert ExpiryKey(exp, kind, primary) == x + a;
    if exp == now {
      SamePrefix(x, a, [0, 0]);
      assert a == [0] + (kind + [0] + primary) && [0, 0] == [0] + [0];
      SamePrefix([0], kind + [0] + primary, [0]);
      OneByte(kind + [0] + primary, 0);
    } else {
      BigEndianOrder(exp, now, U64);
      BigEndianOrder(now, exp, U64);
      DecidedByPrefix(x, a, y, [0, 0]);
    }
  }

  /** Earlier expiries come first in the index. */
  lemma ExpiryOrder(exp: nat, kind: Key, primary: Key, later: nat, kind2: Key, primary2: Key)
    requires IsU64(exp) && IsU64(later) && exp < later
    ensures KeyBefore(ExpiryKey(exp, kind, primary), ExpiryKey(later, kind2, primary2))
  {
    var x, y := BigEndian(exp, U64), BigEndian(later, U64);
    BigEndianOrder(exp, later, U64);
    BigEndianOrder(later, exp, U64);
    var a, b := [0] + kind + [0] + primary, [0] + kind2 + [0] + primary2;
    assert ExpiryKey(exp, kind, primary) == x + a && ExpiryKey(later, kind2, primary2) == y + b;
    DecidedByPrefix(x, a, y, b);
  }

  // --- group scoping ---

  function GroupPrefix(group: nat): (r: Key) { BigEndian(group, 4) }

  function GroupKey(group: nat, key: Key): (r: Key) { GroupPrefix(group) + key }

  /** Groups share no key, and each keeps its own order. */
  lemma GroupsDisjoint(g: nat, h: nat, a: Key, b: Key)
    requires g < Pow256(4) && h < Pow256(4)
    ensures GroupKey(g, a) == GroupKey(h, b) <==> g == h && a == b
    ensures g == h ==> (KeyBefore(GroupKey(g, a), GroupKey(h, b)) <==> KeyBefore(a, b))
  {
    BigEndianRoundTrip(g, 4);
    BigEndianRoundTrip(h, 4);
    assert GroupKey(g, a)[..4] == GroupPrefix(g) && GroupKey(h, b)[..4] == GroupPrefix(h);
    assert GroupKey(g, a)[4..] == a && GroupKey(h, b)[4..] == b;
    SamePrefix(GroupPrefix(g), a, b);
  }

  // --- every key a state family holds ---

  /** Text is UTF-8, which has no 0xFF byte; integers are 64 bits wide. */
  datatype StateKey =
    | TextKey(text: Key)
    | NulKey(text: Key, rest: Key)
    | EntryKey(seqno: nat)
    | OwnerKey(owner: Key)
    | PathKey(path: Key, seqno: nat)
    | SlotKey(exp: nat, kind: Key, primary: Key)
  {
    predicate Valid() { (TextKey? || NulKey?) ==> 255 !in text }

    function Encode(): (r: Key) {
      match this
      case TextKey(text) => text
      case NulKey(text, rest) => text + [0] + rest
      case EntryKey(s) => QueueEntryKey(s)
      case OwnerKey(owner) => QueueOwnerKey(owner)
      case PathKey(path, s) => QueuePathKey(path, s)
      case SlotKey(exp, kind, primary) => ExpiryKey(exp, kind, primary)
    }
  }

  function Ones(n: nat): (r: Key) { seq(n, _ => 255) }

  /** No state key starts with nine 0xFF bytes: text has none, queue keys start with a tag, and a timestamp is eight bytes before a NUL. */
  lemma FewOnes(k: StateKey, n: nat)
    requires k.Valid() && n >= 9
    ensures !(Ones(n) <= k.Encode())
  {
    hide BigEndian;
    var e := k.Encode();
    match k
    case TextKey(text) => if e != [] { assert e[0] in text; }
    case NulKey(text, rest) =>
      if text == [] { assert e[0] == 0; } else { assert e[0] == text[0] && text[0] in text; }
    case EntryKey(s) => assert e[0] == ENTRY_TAG;
    case OwnerKey(owner) => assert e[0] == OWNER_TAG;
    case PathKey(path, s) => assert e[0] == PATH_TAG;
    case SlotKey(exp, kind, primary) =>
      assert e == BigEndian(exp, U64) + ([0] + kind + [0] + primary);
      assert e[8] == 0;
  }
}

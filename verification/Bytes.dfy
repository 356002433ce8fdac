/** Byte keys: lexicographic order, prefix ranges and successors. */
module Bytes {
  import opened Ordering
  import opened LockSpec

  type Byte = b: int | 0 <= b < 256
  type Key = seq<Byte>

  predicate ByteLess(a: Byte, b: Byte) { a < b }

  predicate KeyBefore(a: Key, b: Key) { Lex(ByteLess, a, b) }

  lemma KeyBeforeTotal()
    ensures StrictTotal(KeyBefore)
  {
    assert StrictTotal(ByteLess);
    forall a, b | KeyBefore(a, b) ensures !KeyBefore(b, a) { LexAsymmetric(ByteLess, a, b); }
    forall a, b | a != b ensures KeyBefore(a, b) || KeyBefore(b, a) { LexConnected(ByteLess, a, b); }
    forall a, b, c | KeyBefore(a, b) && KeyBefore(b, c) ensures KeyBefore(a, c) { LexTransitive(ByteLess, a, b, c); }
  }

  function SortedByteKeys(s: set<Key>): (r: seq<Key>)
    ensures forall x :: x in r <==> x in s
    ensures |r| == |s|
    ensures Ascending(r, KeyBefore)
  {
    KeyBeforeTotal();
    Sorted(s, KeyBefore)
  }

  // --- common prefixes ---

  /** Order under a common prefix is the order of the rests. */
  lemma {:induction false} SamePrefix(p: Key, a: Key, b: Key)
    ensures KeyBefore(p + a, p + b) <==> KeyBefore(a, b)
  {
    if p == [] {
      assert p + a == a && p + b == b;
    } else {
      SamePrefix(p[1..], a, b);
      assert (p + a)[1..] == p[1..] + a && (p + b)[1..] == p[1..] + b;
    }
  }

  /** A key is not before its own prefix. */
  lemma PrefixFirst(p: Key, k: Key)
    requires p <= k
    ensures !KeyBefore(k, p)
  {
    SamePrefix(p, k[|p|..], []);
    assert p + k[|p|..] == k && p + [] == p;
  }

  /** Between two keys with a common prefix, every key has it. */
  lemma {:induction false} PrefixConvex(p: Key, a: Key, k: Key, b: Key)
    requires p <= a && p <= b && !KeyBefore(k, a) && KeyBefore(k, b)
    ensures p <= k
  {
    if p != [] {
      assert k != [] && k[0] == a[0] == b[0] == p[0];
      PrefixConvex(p[1..], a[1..], k[1..], b[1..]);
      assert k == [k[0]] + k[1..] && p == [p[0]] + p[1..];
    }
  }

  // --- the end of a prefix's range ---

  /** The least key after every key with the prefix; none when all its bytes are 0xFF. */
  function UpperOf(prefix: Key): (r: Option<Key>) {
    if prefix == [] then None
    else
      var n := |prefix| - 1;
      if prefix[n] == 255 then UpperOf(prefix[..n]) else Some(prefix[..n] + [prefix[n] + 1])
  }

  ghost predicate Below(k: Key, upper: Option<Key>) { upper.Some? ==> KeyBefore(k, upper.value) }

  /** The keys with a prefix are exactly those from it up to its upper bound. */
  lemma {:induction false} UpperOfIs(prefix: Key, k: Key)
    ensures prefix <= k <==> !KeyBefore(k, prefix) && Below(k, UpperOf(prefix))
  {
    if prefix != [] {
      var n := |prefix| - 1;
      var p, c := prefix[..n], prefix[n];
      assert prefix == p + [c];
      if c == 255 { UpperOfIs(p, k); LastByte(p, k); } else { NextByte(p, c, k); }
    }
  }

  lemma LexNil(rest: Key)
    ensures !Lex(ByteLess, rest, [])
  {
  }

  /** Comparing with a single byte looks at the first byte only. */
  lemma OneByte(rest: Key, c: Byte)
    ensures KeyBefore(rest, [c]) <==> rest == [] || rest[0] < c
  {
    if rest != [] {
      LexNil(rest[1..]);
      assert [c][1..] == [];
    }
  }

  lemma StartsWith(p: Key, c: Byte, rest: Key)
    ensures p + [c] <= p + rest <==> rest != [] && rest[0] == c
  {
    if rest != [] { assert (p + rest)[|p|] == rest[0]; }
  }

  lemma NextByte(p: Key, c: Byte, k: Key)
    requires c < 255
    ensures p + [c] <= k <==> !KeyBefore(k, p + [c]) && KeyBefore(k, p + [c + 1])
  {
    if p <= k {
      var rest := k[|p|..];
      assert k == p + rest;
      SamePrefix(p, rest, [c]);
      SamePrefix(p, rest, [c + 1]);
      OneByte(rest, c);
      OneByte(rest, c + 1);
      StartsWith(p, c, rest);
    } else if !KeyBefore(k, p + [c]) && KeyBefore(k, p + [c + 1]) {
      PrefixConvex(p, p + [c], k, p + [c + 1]);
      assert false;
    }
  }

  lemma LastByte(p: Key, k: Key)
    requires p <= k <==> !KeyBefore(k, p) && Below(k, UpperOf(p))
    ensures p + [255] <= k <==> !KeyBefore(k, p + [255]) && Below(k, UpperOf(p))
  {
    KeyBeforeTotal();
    if p <= k {
      var rest := k[|p|..];
      assert k == p + rest;
      SamePrefix(p, rest, [255]);
      OneByte(rest, 255);
      StartsWith(p, 255, rest);
    } else {
      assert KeyBefore(p, p + [255]) by { SamePrefix(p, [], [255]); assert p + [] == p; }
    }
  }

  /** `prefix_upper_bound`: drops trailing 0xFF bytes, then adds one. */
  method PrefixUpperBound(prefix: Key) returns (r: Option<Key>)
    ensures r == UpperOf(prefix)
    ensures forall k :: prefix <= k <==> !KeyBefore(k, prefix) && Below(k, r)
  {
    forall k ensures prefix <= k <==> !KeyBefore(k, prefix) && Below(k, UpperOf(prefix)) { UpperOfIs(prefix, k); }
    var upper := prefix;
    while upper != []
      invariant UpperOf(upper) == UpperOf(prefix)
      decreases |upper|
    {
      var n := |upper| - 1;
      if upper[n] == 255 {
        upper := upper[..n];
      } else {
        return Some(upper[..n] + [upper[n] + 1]);
      }
    }
    return None;
  }

  /** The queue's own form of the same bound: searches back for a byte to raise, then truncates. */
  method PrefixSuccessor(prefix: Key) returns (r: Option<Key>)
    ensures r == UpperOf(prefix)
  {
    var i := |prefix|;
    assert prefix[..i] == prefix;
    while i > 0
      invariant i <= |prefix| && UpperOf(prefix[..i]) == UpperOf(prefix)
    {
      i := i - 1;
      assert prefix[..i + 1][..i] == prefix[..i];
      if prefix[i] != 255 { return Some(prefix[..i] + [prefix[i] + 1]); }
    }
    return None;
  }

  // --- the next key ---

  function KeySuccessor(key: Key): (r: Key) { key + [0] }

  /** Resuming at the successor skips the key and nothing else. */
  lemma {:induction false} SuccessorIsNext(key: Key, k: Key)
    ensures KeyBefore(key, k) <==> !KeyBefore(k, KeySuccessor(key))
  {
    if key == [] {
      LexNil(k[..0]);
      assert KeySuccessor(key) == [0];
      if k != [] { LexNil(k[1..]); }
    } else if k != [] && k[0] == key[0] {
      SuccessorIsNext(key[1..], k[1..]);
      assert KeySuccessor(key)[1..] == KeySuccessor(key[1..]);
    }
  }
}

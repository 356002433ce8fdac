/**
 Ordered iteration. The store keeps every column family sorted by key, so each
 enumeration of a set in the system is the ascending sequence of its members.
 */
module Ordering {

  ghost predicate StrictTotal<T(!new)>(less: (T, T) -> bool) {
    && (forall a, b :: less(a, b) ==> !less(b, a))
    && (forall a, b :: a != b ==> less(a, b) || less(b, a))
    && (forall a, b, c :: less(a, b) && less(b, c) ==> less(a, c))
  }

  ghost predicate Ascending<T>(s: seq<T>, less: (T, T) -> bool) {
    forall i, j :: 0 <= i < j < |s| ==> less(s[i], s[j])
  }

  ghost predicate IsLeast<T>(m: T, s: set<T>, less: (T, T) -> bool) {
    m in s && forall y :: y in s ==> y == m || less(m, y)
  }

  lemma {:induction false} HasLeast<T(!new)>(s: set<T>, less: (T, T) -> bool)
    requires StrictTotal(less) && s != {}
    ensures exists m :: IsLeast(m, s, less)
  {
    var x :| x in s;
    if s == {x} {
      assert IsLeast(x, s, less);
    } else {
      HasLeast(s - {x}, less);
      var m :| IsLeast(m, s - {x}, less);
      var k := if less(x, m) then x else m;
      assert IsLeast(k, s, less);
    }
  }

  /** The members of a finite set in ascending order. */
  function Sorted<T(!new, ==)>(s: set<T>, less: (T, T) -> bool): (r: seq<T>)
    requires StrictTotal(less)
    ensures forall x :: x in r <==> x in s
    ensures |r| == |s|
    ensures Ascending(r, less)
  {
    if s == {} then [] else
      HasLeast(s, less);
      assert exists m :: m in s && forall y :: y in s ==> y == m || less(m, y) by {
        var m :| IsLeast(m, s, less);
      }
      var m :| m in s && forall y :: y in s ==> y == m || less(m, y);
      [m] + Sorted(s - {m}, less)
  }

  /** An ascending sequence is determined by its elements. */
  lemma {:induction false} AscendingUnique<T(!new)>(a: seq<T>, b: seq<T>, less: (T, T) -> bool)
    requires StrictTotal(less)
    requires Ascending(a, less) && Ascending(b, less)
    requires forall x :: x in a <==> x in b
    ensures a == b
  {
    assert a == [] <==> b == [] by {
      assert a != [] ==> a[0] in b;
      assert b != [] ==> b[0] in a;
    }
    if a != [] {
      assert a[0] in b;
      assert b[0] in a;
      assert a[0] == b[0];
      forall x ensures x in a[1..] <==> x in b[1..] {
        if x in a[1..] { assert x in b; assert less(a[0], x); }
        if x in b[1..] { assert x in a; assert less(b[0], x); }
      }
      AscendingUnique(a[1..], b[1..], less);
      assert a == [a[0]] + a[1..];
      assert b == [b[0]] + b[1..];
    }
  }

  // --- lexicographic order ---

  predicate Lex<T(==)>(less: (T, T) -> bool, a: seq<T>, b: seq<T>) {
    b != [] && (a == [] || less(a[0], b[0]) || (a[0] == b[0] && Lex(less, a[1..], b[1..])))
  }

  lemma {:induction false} LexAsymmetric<T(!new)>(less: (T, T) -> bool, a: seq<T>, b: seq<T>)
    requires StrictTotal(less)
    requires Lex(less, a, b)
    ensures !Lex(less, b, a)
  {
    if a != [] && a[0] == b[0] { LexAsymmetric(less, a[1..], b[1..]); }
  }

  lemma {:induction false} LexConnected<T(!new)>(less: (T, T) -> bool, a: seq<T>, b: seq<T>)
    requires StrictTotal(less)
    requires a != b
    ensures Lex(less, a, b) || Lex(less, b, a)
  {
    if a != [] && b != [] && a[0] == b[0] {
      assert a == [a[0]] + a[1..] && b == [b[0]] + b[1..];
      LexConnected(less, a[1..], b[1..]);
    }
  }

  lemma {:induction false} LexTransitive<T(!new)>(less: (T, T) -> bool, a: seq<T>, b: seq<T>, c: seq<T>)
    requires StrictTotal(less)
    requires Lex(less, a, b) && Lex(less, b, c)
    ensures Lex(less, a, c)
  {
    if a != [] && a[0] == b[0] == c[0] { LexTransitive(less, a[1..], b[1..], c[1..]); }
  }

  predicate CharLess(a: char, b: char) { a < b }

  /** Byte order of strings; code point order agrees with UTF-8 byte order. */
  predicate StrLess(a: string, b: string) { Lex(CharLess, a, b) }

  lemma StrLessTotal()
    ensures StrictTotal(StrLess)
  {
    assert StrictTotal(CharLess);
    forall a, b | StrLess(a, b) ensures !StrLess(b, a) { LexAsymmetric(CharLess, a, b); }
    forall a, b | a != b ensures StrLess(a, b) || StrLess(b, a) { LexConnected(CharLess, a, b); }
    forall a, b, c | StrLess(a, b) && StrLess(b, c) ensures StrLess(a, c) { LexTransitive(CharLess, a, b, c); }
  }

  /** The members of a set of strings, in key order. */
  function SortedStrings(s: set<string>): (r: seq<string>)
    ensures forall x :: x in r <==> x in s
    ensures |r| == |s|
    ensures Ascending(r, StrLess)
  {
    StrLessTotal();
    Sorted(s, StrLess)
  }

  predicate NatLess(a: nat, b: nat) { a < b }

  function SortedNats(s: set<nat>): (r: seq<nat>)
    ensures forall x :: x in r <==> x in s
    ensures |r| == |s|
    ensures Ascending(r, NatLess)
  {
    Sorted(s, NatLess)
  }

  /** Strings that begin with a prefix form one contiguous block, starting at the prefix. */
  lemma {:induction false} PrefixBlock(prefix: string, x: string, y: string)
    requires !StrLess(x, prefix) && !(prefix <= x)
    requires StrLess(x, y)
    ensures !(prefix <= y)
  {
    if x != [] && prefix != [] && x[0] == prefix[0] == y[0] {
      assert x == [x[0]] + x[1..] && prefix == [x[0]] + prefix[1..];
      if prefix <= y {
        assert prefix[1..] <= y[1..];
        PrefixBlock(prefix[1..], x[1..], y[1..]);
      }
    }
  }

  /** A string that begins with a prefix is not below it. */
  lemma {:induction false} PrefixNotAbove(prefix: string, x: string)
    requires prefix <= x
    ensures !StrLess(x, prefix)
  {
    if prefix != [] && x != [] && x[0] == prefix[0] {
      assert prefix[1..] <= x[1..];
      PrefixNotAbove(prefix[1..], x[1..]);
    }
  }
}

/**
 Routing by namespace: what a validated path renders to, which namespace contains
 it, and that ancestors are never routed apart.
 */
module Routing {
  import opened Paths
  import opened LockSpec
  import opened Roots

  // --- validated paths: a handler and segments ---

  predicate IsHandler(h: string) { h != "" && ':' !in h && '/' !in h && SCOPED_PATH_SEP !in h }

  predicate IsSegment(s: string) { s != "" && '/' !in s && SCOPED_PATH_SEP !in s }

  predicate AreSegments(segs: seq<string>) { forall s :: s in segs ==> IsSegment(s) }

  function Tail(segs: seq<string>): (r: string) { if segs == [] then "" else "/" + segs[0] + Tail(segs[1..]) }

  function Rel(segs: seq<string>): (r: string) { if segs == [] then "/" else Tail(segs) }

  /** The normalized form `handler:/seg/seg`. */
  function Render(h: string, segs: seq<string>): (r: string) { h + ":" + Rel(segs) }

  /** Empty, or at a segment boundary. */
  predicate AtBoundary(s: string) { s == "" || s[0] == '/' }

  lemma Assoc(a: string, b: string, c: string)
    ensures (a + b) + c == a + (b + c)
  {
  }

  lemma {:induction false} TailConcat(a: seq<string>, b: seq<string>)
    ensures Tail(a + b) == Tail(a) + Tail(b)
  {
    if a == [] {
      assert a + b == b;
      assert Tail(a) + Tail(b) == Tail(b);
    } else {
      TailConcat(a[1..], b);
      assert (a + b)[1..] == a[1..] + b && (a + b)[0] == a[0];
      hide Tail;
      TailStep(a);
      TailStep(a + b);
      Assoc("/" + a[0], Tail(a[1..]), Tail(b));
    }
  }

  lemma TailStep(segs: seq<string>)
    requires segs != []
    ensures Tail(segs) == ("/" + segs[0]) + Tail(segs[1..])
  {
  }

  lemma {:induction false} TailClean(segs: seq<string>)
    requires AreSegments(segs)
    ensures SCOPED_PATH_SEP !in Tail(segs) && AtBoundary(Tail(segs))
  {
    if segs != [] {
      assert segs[0] in segs;
      TailClean(segs[1..]);
    }
  }

  /** The length of the first segment: up to the first slash, or all of it. */
  function SegmentLength(s: string): (n: nat) { if IndexOf(s, '/') < 0 then |s| else IndexOf(s, '/') }

  lemma SegmentLengthIs(x: string, rest: string)
    requires '/' !in x && AtBoundary(rest)
    ensures SegmentLength(x + rest) == |x|
  {
    if rest == "" {
      assert x + rest == x;
    } else {
      FirstIndex(x, '/', rest[1..]);
      assert rest == ['/'] + rest[1..];
      assert x + rest == x + ['/'] + rest[1..];
    }
  }

  lemma SplitSegment(x: string, rest: string, y: string, other: string)
    requires '/' !in x && '/' !in y && AtBoundary(rest) && AtBoundary(other) && x + rest == y + other
    ensures x == y && rest == other
  {
    hide SegmentLength;
    SegmentLengthIs(x, rest);
    SegmentLengthIs(y, other);
    assert x == (x + rest)[..|x|] == (y + other)[..|x|] == y;
    assert rest == (x + rest)[|x|..] == (y + other)[|x|..] == other;
  }

  lemma BoundaryStep(a: seq<string>, s: seq<string>, rest: string)
    requires AreSegments(a) && AreSegments(s) && a != [] && s != [] && Tail(s) == Tail(a) + rest && AtBoundary(rest)
    ensures a[0] == s[0] && Tail(s[1..]) == Tail(a[1..]) + rest
  {
    assert a[0] in a && s[0] in s;
    TailClean(a[1..]);
    TailClean(s[1..]);
    TailStep(a);
    TailStep(s);
    hide Tail;
    var x, y := Tail(a[1..]) + rest, Tail(s[1..]);
    Assoc("/" + a[0], Tail(a[1..]), rest);
    Assoc("/", a[0], x);
    Assoc("/", s[0], y);
    assert ("/" + (a[0] + x))[1..] == a[0] + x && ("/" + (s[0] + y))[1..] == s[0] + y;
    SplitSegment(a[0], x, s[0], y);
  }

  lemma TailFull(a: seq<string>)
    ensures Tail(a) == "" <==> a == []
  {
  }

  /** A rendered prefix that stops at a boundary is a prefix of segments. */
  lemma {:induction false} BoundaryPrefix(a: seq<string>, s: seq<string>, rest: string)
    requires AreSegments(a) && AreSegments(s) && Tail(s) == Tail(a) + rest && AtBoundary(rest)
    ensures a <= s && rest == Tail(s[|a|..])
  {
    TailFull(a);
    TailFull(s);
    if a == [] {
      assert s[0..] == s;
      assert Tail(a) + rest == rest;
    } else {
      BoundaryStep(a, s, rest);
      hide Tail;
      BoundaryPrefix(a[1..], s[1..], rest);
      assert a == [a[0]] + a[1..] && s == [s[0]] + s[1..];
      assert s[1..][|a| - 1..] == s[|a|..];
    }
  }

  lemma TailInjective(a: seq<string>, b: seq<string>)
    requires AreSegments(a) && AreSegments(b) && Tail(a) == Tail(b)
    ensures a == b
  {
    assert Tail(b) == Tail(a) + "" && Tail(a) == Tail(b) + "";
    BoundaryPrefix(a, b, "");
    BoundaryPrefix(b, a, "");
  }

  lemma TailNotRoot(a: seq<string>)
    requires AreSegments(a)
    ensures Tail(a) != "/"
  {
    if a != [] { assert a[0] in a; }
  }

  lemma RelInjective(a: seq<string>, b: seq<string>)
    requires AreSegments(a) && AreSegments(b)
    ensures Rel(a) == Rel(b) <==> a == b
  {
    TailNotRoot(a);
    TailNotRoot(b);
    if Rel(a) == Rel(b) && a != [] && b != [] { TailInjective(a, b); }
  }

  // --- ancestors of rendered paths ---

  lemma {:induction false} LastIndexIs(s: string, c: char, i: nat)
    requires i < |s| && s[i] == c && c !in s[i + 1..]
    ensures LastIndexOf(s, c) == i
  {
    var n := |s| - 1;
    if i < n {
      assert s[n] == s[i + 1..][n - i - 1];
      assert s[i + 1..] == s[..n][i + 1..] + [s[n]];
      LastIndexIs(s[..n], c, i);
    }
  }

  lemma LastSlash(front: string, seg: string)
    requires '/' !in seg
    ensures LastIndexOf(front + "/" + seg, '/') == |front|
  {
    var s := front + "/" + seg;
    assert s[|front|] == '/' && s[|front| + 1..] == seg;
    LastIndexIs(s, '/', |front|);
  }

  lemma TailSnoc(segs: seq<string>)
    requires segs != []
    ensures var n := |segs| - 1; Tail(segs) == Tail(segs[..n]) + "/" + segs[n]
  {
    var n := |segs| - 1;
    TailConcat(segs[..n], [segs[n]]);
    assert segs == segs[..n] + [segs[n]];
    assert [segs[n]][1..] == [] && Tail([]) == "";
    TailStep([segs[n]]);
    hide Tail;
    assert ("/" + segs[n]) + "" == "/" + segs[n];
    Assoc(Tail(segs[..n]), "/", segs[n]);
  }

  lemma RelStep(prefix: string, segs: seq<string>)
    requires AreSegments(segs) && segs != []
    ensures var n := |segs| - 1; RelAncestors(prefix, Rel(segs)) == [prefix + Rel(segs[..n])] + RelAncestors(prefix, Rel(segs[..n]))
  {
    var n := |segs| - 1;
    var front := Tail(segs[..n]);
    assert segs[n] in segs;
    TailSnoc(segs);
    TailNotRoot(segs);
    LastSlash(front, segs[n]);
    assert Rel(segs) == front + "/" + segs[n];
    assert Rel(segs)[..|front|] == front;
    if n == 0 {
      assert RelAncestors(prefix, "/") == [];
    } else {
      assert front != "";
    }
  }

  /** The ancestor walk visits exactly the proper prefixes of the segments. */
  lemma {:induction false} RelAncestorsAre(prefix: string, segs: seq<string>, a: string)
    requires AreSegments(segs)
    ensures a in RelAncestors(prefix, Rel(segs)) <==> exists k :: 0 <= k < |segs| && a == prefix + Rel(segs[..k])
  {
    hide RelAncestors, Rel;
    if segs == [] {
      assert RelAncestors(prefix, Rel([])) == [] by { NoneAbove(prefix); }
    } else {
      var n := |segs| - 1;
      RelStep(prefix, segs);
      RelAncestorsAre(prefix, segs[..n], a);
      assert forall k :: 0 <= k < n ==> segs[..n][..k] == segs[..k];
    }
  }

  lemma NoneAbove(prefix: string)
    ensures RelAncestors(prefix, Rel([])) == []
  {
  }

  ghost predicate ProperPrefix(a: seq<string>, b: seq<string>) { |a| < |b| && a <= b }

  lemma AncestorsByPrefix(prefix: string, p: seq<string>, q: seq<string>)
    requires AreSegments(p) && AreSegments(q)
    ensures prefix + Rel(p) in RelAncestors(prefix, Rel(q)) <==> ProperPrefix(p, q)
  {
    hide RelAncestors, Rel;
    RelAncestorsAre(prefix, q, prefix + Rel(p));
    if prefix + Rel(p) in RelAncestors(prefix, Rel(q)) {
      var k :| 0 <= k < |q| && prefix + Rel(p) == prefix + Rel(q[..k]);
      assert (prefix + Rel(p))[|prefix|..] == Rel(p) && (prefix + Rel(q[..k]))[|prefix|..] == Rel(q[..k]);
      RelInjective(p, q[..k]);
    }
    if ProperPrefix(p, q) { assert p == q[..|p|]; }
  }

  lemma RenderClean(h: string, segs: seq<string>)
    requires IsHandler(h) && AreSegments(segs)
    ensures SCOPED_PATH_SEP !in Render(h, segs) && IndexOf(Render(h, segs), ':') == |h|
    ensures Render(h, segs)[..|h|] == h && Render(h, segs)[|h| + 1..] == Rel(segs)
  {
    TailClean(segs);
    FirstIndex(h, ':', Rel(segs));
    assert Render(h, segs) == h + [':'] + Rel(segs);
  }

  /** Public paths: strict ancestor means same handler and a proper prefix of segments. */
  lemma PublicAncestors(h: string, p: seq<string>, q: seq<string>)
    requires IsHandler(h) && AreSegments(p) && AreSegments(q)
    ensures IsStrictAncestor(Render(h, p), Render(h, q)) <==> ProperPrefix(p, q)
  {
    RenderClean(h, q);
    hide RelAncestors, Rel;
    var prefix := h + ":";
    assert Render(h, q)[..|h| + 1] == prefix && Render(h, p) == prefix + Rel(p);
    AncestorsByPrefix(prefix, p, q);
  }

  // --- namespaces ---

  /** A validated namespace: a whole handler, or the subtree at a path. */
  datatype Space = OfHandler(h: string) | OfRoot(h: string, segs: seq<string>) {
    predicate Valid() { IsHandler(h) && (OfRoot? ==> AreSegments(segs)) }
    function Text(): string { if OfHandler? then h else Render(h, segs) }
    function Above(): seq<string> { if OfHandler? then [] else segs }
    predicate Holds(handler: string, path: seq<string>) { h == handler && Above() <= path }
  }

  lemma LastChar(segs: seq<string>)
    requires AreSegments(segs) && segs != []
    ensures Tail(segs) != "" && Tail(segs)[|Tail(segs)| - 1] != '/'
  {
    var n := |segs| - 1;
    assert segs[n] in segs;
    TailSnoc(segs);
    var last := segs[n];
    assert last[|last| - 1] in last;
  }

  lemma RootEnding(h: string, segs: seq<string>)
    requires IsHandler(h) && AreSegments(segs)
    ensures EndsWith(Render(h, segs), ":/") <==> segs == []
  {
    if segs != [] {
      LastChar(segs);
      var r := Render(h, segs);
      assert r[|r| - 1] == Tail(segs)[|Tail(segs)| - 1];
      assert r[|r| - 2..][1] == r[|r| - 1];
    }
  }

  /** Subtree containment of rendered strings is the prefix relation of segments. */
  lemma ContainsIs(ns: Space, h: string, s: seq<string>)
    requires ns.Valid() && IsHandler(h) && AreSegments(s)
    ensures NamespaceContains(ns.Text(), Render(h, s)) <==> ns.Holds(h, s)
  {
    RenderClean(h, s);
    hide IndexOf;
    if ns.OfRoot? {
      RenderClean(ns.h, ns.segs);
      if ns.h == h {
        RootEnding(h, ns.segs);
        if ns.segs == [] { RootContains(h, s); } else { SubtreeContains(h, ns.segs, s); }
      }
    }
  }

  lemma RootContains(h: string, s: seq<string>)
    requires AreSegments(s)
    ensures Render(h, []) <= Render(h, s)
  {
    TailClean(s);
    if s != [] { TailFull(s); assert Rel(s)[0] == '/'; }
    assert Render(h, []) == h + ":" + "/";
  }

  /** The text of the namespace is followed by nothing or by a slash. */
  predicate Under(ns: string, path: string) { ns <= path && AtBoundary(path[|ns|..]) }

  lemma UnderOf(h: string, n: seq<string>, s: seq<string>)
    requires AreSegments(n) && AreSegments(s) && n != [] && n <= s
    ensures Render(h, s) == Render(h, n) + Tail(s[|n|..]) && AtBoundary(Tail(s[|n|..]))
  {
    var rest := s[|n|..];
    assert s == n + rest;
    TailConcat(n, rest);
    TailClean(rest);
    hide Tail;
    Assoc(h + ":", Tail(n), Tail(rest));
  }

  lemma TailLong(n: seq<string>)
    requires AreSegments(n) && n != []
    ensures |Tail(n)| >= 2
  {
    assert n[0] in n;
  }

  lemma SameRest(h: string, n: seq<string>, s: seq<string>, rest: string)
    requires AreSegments(n) && n != [] && Render(h, s) == Render(h, n) + rest
    ensures Tail(s) == Tail(n) + rest
  {
    TailLong(n);
    hide Tail;
    Assoc(h + ":", Tail(n), rest);
    Cancel(h + ":", Rel(s), Tail(n) + rest);
  }

  lemma Cancel(p: string, x: string, y: string)
    requires p + x == p + y
    ensures x == y
  {
    assert x == (p + x)[|p|..] && y == (p + y)[|p|..];
  }

  lemma UnderOnly(h: string, n: seq<string>, s: seq<string>)
    requires AreSegments(n) && AreSegments(s) && n != [] && Under(Render(h, n), Render(h, s))
    ensures n <= s
  {
    hide Render, Tail;
    var a, b := Render(h, n), Render(h, s);
    var rest := b[|a|..];
    assert b == a + rest;
    SameRest(h, n, s, rest);
    BoundaryPrefix(n, s, rest);
  }

  lemma SubtreeContains(h: string, n: seq<string>, s: seq<string>)
    requires AreSegments(n) && AreSegments(s) && n != []
    ensures Render(h, n) == Render(h, s) || (Render(h, n) <= Render(h, s) && |Render(h, s)| > |Render(h, n)| && Render(h, s)[|Render(h, n)|] == '/')
            <==> n <= s
  {
    hide Render, Tail;
    var a, b := Render(h, n), Render(h, s);
    assert Under(a, b) <==> a == b || (a <= b && |b| > |a| && b[|a|] == '/') by { UnderIs(a, b); }
    if n <= s { UnderOf(h, n, s); }
    if Under(a, b) { UnderOnly(h, n, s); }
  }

  lemma UnderIs(a: string, b: string)
    ensures Under(a, b) <==> a == b || (a <= b && |b| > |a| && b[|a|] == '/')
  {
    if a <= b { assert b == a + b[|a|..]; }
  }

  /** Where a namespace-relative path is filed. */
  function KeyIn(text: string, rest: seq<string>): (r: string) { text + [SCOPED_PATH_SEP] + Rel(rest) }

  lemma ScopedHandler(h: string, s: seq<string>)
    requires IsHandler(h) && AreSegments(s)
    ensures RelativePath(h, Render(h, s)) == Rel(s)
  {
    RenderClean(h, s);
    hide IndexOf, Rel;
  }

  lemma ScopedWhole(h: string, s: seq<string>)
    requires IsHandler(h) && AreSegments(s)
    ensures RelativePath(Render(h, []), Render(h, s)) == Rel(s)
  {
    RenderClean(h, []);
    RootEnding(h, []);
    RootContains(h, s);
    var ns, path := Render(h, []), Render(h, s);
    assert ':' in ns by { assert ns[|h|] == ':'; }
    if s != [] {
      TailLong(s);
      TailClean(s);
      hide Tail, IndexOf;
      assert path[|ns|..] == Tail(s)[1..];
      assert Tail(s) == "/" + Tail(s)[1..];
    }
  }

  lemma ScopedSubtree(h: string, n: seq<string>, s: seq<string>)
    requires IsHandler(h) && AreSegments(n) && AreSegments(s) && n != [] && n <= s
    ensures RelativePath(Render(h, n), Render(h, s)) == Rel(s[|n|..])
  {
    RootEnding(h, n);
    UnderOf(h, n, s);
    TailFull(s[|n|..]);
    hide Tail, IndexOf;
    var ns, path := Render(h, n), Render(h, s);
    assert ns[|h|] == ':' && ':' in ns;
    if s[|n|..] == [] { assert path == ns + ""; } else { assert path[|ns|..] == Tail(s[|n|..]); }
  }

  /** A contained path is filed under the namespace and its remaining segments. */
  lemma ScopedIs(ns: Space, s: seq<string>)
    requires ns.Valid() && AreSegments(s) && ns.Above() <= s
    ensures ScopedPath(ns.Text(), Render(ns.h, s)) == KeyIn(ns.Text(), s[|ns.Above()|..])
  {
    hide Render, Rel, RelativePath;
    if ns.Above() == [] { assert s[0..] == s; }
    if ns.OfHandler? { ScopedHandler(ns.h, s); }
    else if ns.segs == [] { ScopedWhole(ns.h, s); }
    else { ScopedSubtree(ns.h, ns.segs, s); }
  }

  lemma TrimOne(segs: seq<string>)
    requires AreSegments(segs) && segs != []
    ensures "/" + TrimStart(Tail(segs), '/') == Tail(segs)
  {
    assert segs[0] in segs;
    assert segs[0][0] in segs[0];
    var rest := segs[0] + Tail(segs[1..]);
    assert Tail(segs) == "/" + rest;
    assert Tail(segs)[1..] == rest && rest[0] == segs[0][0];
    assert TrimStart(rest, '/') == rest;
  }

  lemma KeySplits(text: string, rest: seq<string>)
    requires SCOPED_PATH_SEP !in text
    ensures IndexOf(KeyIn(text, rest), SCOPED_PATH_SEP) == |text| && KeyIn(text, rest)[|text| + 1..] == Rel(rest)
  {
    FirstIndex(text, SCOPED_PATH_SEP, Rel(rest));
  }

  lemma PublicHandler(h: string, rest: seq<string>)
    requires IsHandler(h) && AreSegments(rest)
    ensures PublicPath(h, KeyIn(h, rest)) == Render(h, rest)
  {
    KeySplits(h, rest);
    TailNotRoot(rest);
    hide Tail, IndexOf, KeyIn;
  }

  lemma PublicWhole(h: string, rest: seq<string>)
    requires IsHandler(h) && AreSegments(rest)
    ensures PublicPath(Render(h, []), KeyIn(Render(h, []), rest)) == Render(h, rest)
  {
    RenderClean(h, []);
    RootEnding(h, []);
    var text := Render(h, []);
    KeySplits(text, rest);
    TailNotRoot(rest);
    assert text == h + ":" + "/" && text[|h|] == ':' && ':' in text;
    if rest != [] {
      TrimOne(rest);
      hide Tail, IndexOf, KeyIn, TrimStart;
      Assoc(h + ":", "/", TrimStart(Tail(rest), '/'));
    }
  }

  lemma PublicSubtree(h: string, n: seq<string>, rest: seq<string>)
    requires IsHandler(h) && AreSegments(n) && AreSegments(rest) && n != []
    ensures PublicPath(Render(h, n), KeyIn(Render(h, n), rest)) == Render(h, n + rest)
  {
    RenderClean(h, n);
    RootEnding(h, n);
    var text := Render(h, n);
    KeySplits(text, rest);
    TailNotRoot(rest);
    assert text[|h|] == ':' && ':' in text;
    TailConcat(n, rest);
    hide Tail, IndexOf, KeyIn;
    if rest == [] { assert n + rest == n; } else { Assoc(h + ":", Tail(n), Tail(rest)); }
  }

  lemma PublicIs(ns: Space, rest: seq<string>)
    requires ns.Valid() && AreSegments(rest)
    ensures PublicPath(ns.Text(), KeyIn(ns.Text(), rest)) == Render(ns.h, ns.Above() + rest)
  {
    hide Render, Rel, PublicPath, KeyIn;
    if ns.Above() == [] { assert [] + rest == rest; }
    if ns.OfHandler? { PublicHandler(ns.h, rest); }
    else if ns.segs == [] { PublicWhole(ns.h, rest); }
    else { PublicSubtree(ns.h, ns.segs, rest); }
  }

  /** Scoping a contained path loses nothing. */
  lemma PublicUndoesScoped(ns: Space, s: seq<string>)
    requires ns.Valid() && AreSegments(s) && ns.Above() <= s
    ensures PublicPath(ns.Text(), ScopedPath(ns.Text(), Render(ns.h, s))) == Render(ns.h, s)
  {
    hide Rel, Render;
    var rest := s[|ns.Above()|..];
    ScopedIs(ns, s);
    PublicIs(ns, rest);
    assert ns.Above() + rest == s;
  }

  /** Scoped keys of one namespace have exactly the public ancestor relation. */
  lemma ScopedKeepsAncestors(ns: Space, p: seq<string>, q: seq<string>)
    requires ns.Valid() && AreSegments(p) && AreSegments(q) && ns.Above() <= p && ns.Above() <= q
    ensures IsStrictAncestor(ScopedPath(ns.Text(), Render(ns.h, p)), ScopedPath(ns.Text(), Render(ns.h, q))) <==>
            IsStrictAncestor(Render(ns.h, p), Render(ns.h, q))
  {
    var n, text := |ns.Above()|, ns.Text();
    RenderClean(ns.h, ns.Above());
    hide Rel, Render, RelAncestors, RelativePath, ScopedPath;
    ScopedIs(ns, p);
    ScopedIs(ns, q);
    PublicAncestors(ns.h, p, q);
    var prefix := text + [SCOPED_PATH_SEP];
    AncestorsByPrefix(prefix, p[n..], q[n..]);
    FirstIndex(text, SCOPED_PATH_SEP, Rel(q[n..]));
    var key := prefix + Rel(q[n..]);
    assert key[..|text| + 1] == prefix && key[|text| + 1..] == Rel(q[n..]);
    SuffixPrefix(ns.Above(), p, q);
  }

  lemma SuffixPrefix(a: seq<string>, p: seq<string>, q: seq<string>)
    requires a <= p && a <= q
    ensures ProperPrefix(p[|a|..], q[|a|..]) <==> ProperPrefix(p, q)
  {
    assert p == a + p[|a|..] && q == a + q[|a|..];
  }

  // --- fallback routing ---

  /** Where the `n`-th slash of a text is, not counting one at its start. */
  function NthSlash(s: string, from: nat, n: nat): (r: int)
    requires from <= |s| && n > 0
    ensures -1 <= r < |s|
    decreases |s| - from
  {
    if from == |s| then -1
    else if s[from] == '/' && from > 0 then (if n == 1 then from else NthSlash(s, from + 1, n - 1))
    else NthSlash(s, from + 1, n)
  }

  function RoutingPrefix(path: string, depth: nat): (r: string) {
    var colon := IndexOf(path, ':');
    if colon < 0 then path
    else if depth == 0 then path[..colon]
    else
      var i := NthSlash(path[colon + 1..], 0, depth);
      if i < 0 then path else path[..colon + 1 + i]
  }

  /** The counting loop over the path part. */
  method FindRoutingPrefix(path: string, depth: nat) returns (r: string)
    ensures r == RoutingPrefix(path, depth)
  {
    hide IndexOf;
    var colon := IndexOf(path, ':');
    if colon < 0 { return path; }
    if depth == 0 { return path[..colon]; }
    var rest := path[colon + 1..];
    var segs := 0;
    for i := 0 to |rest|
      invariant segs < depth && NthSlash(rest, 0, depth) == NthSlash(rest, i, depth - segs)
    {
      if rest[i] == '/' && i > 0 {
        segs := segs + 1;
        if segs == depth { return path[..colon + 1 + i]; }
      }
    }
    return path;
  }

  function CountSlashes(s: string): (n: nat) { if s == "" then 0 else (if s[0] == '/' then 1 else 0) + CountSlashes(s[1..]) }

  function PathDepth(path: string): (n: nat) {
    var colon := IndexOf(path, ':');
    if colon < 0 then 0
    else
      var rest := path[colon + 1..];
      if rest == "/" || rest == "" then 0 else CountSlashes(rest)
  }

  lemma {:induction false} CountConcat(a: string, b: string)
    ensures CountSlashes(a + b) == CountSlashes(a) + CountSlashes(b)
  {
    if a == "" {
      assert a + b == b;
    } else {
      CountConcat(a[1..], b);
      assert (a + b)[1..] == a[1..] + b;
    }
  }

  lemma {:induction false} CountNone(s: string)
    requires '/' !in s
    ensures CountSlashes(s) == 0
  {
    if s != "" { assert s[0] in s; CountNone(s[1..]); }
  }

  lemma {:induction false} TailCount(segs: seq<string>)
    requires AreSegments(segs)
    ensures CountSlashes(Tail(segs)) == |segs|
  {
    if segs != [] {
      assert segs[0] in segs;
      TailCount(segs[1..]);
      TailStep(segs);
      hide Tail;
      CountNone(segs[0]);
      CountConcat("/", segs[0]);
      assert CountSlashes("/") == 1 by { assert "/"[1..] == ""; }
      CountConcat("/" + segs[0], Tail(segs[1..]));
    }
  }

  /** Depth counts segments. */
  lemma DepthIs(h: string, segs: seq<string>)
    requires IsHandler(h) && AreSegments(segs)
    ensures PathDepth(Render(h, segs)) == |segs|
  {
    RenderClean(h, segs);
    TailNotRoot(segs);
    TailFull(segs);
    TailCount(segs);
    hide IndexOf, Tail, CountSlashes;
  }

  lemma {:induction false} SkipSegment(front: string, seg: string, rest: string, n: nat, i: nat)
    requires '/' !in seg && n > 0 && i <= |seg|
    ensures var s := front + seg + rest; NthSlash(s, |front| + i, n) == NthSlash(s, |front| + |seg|, n)
    decreases |seg| - i
  {
    if i < |seg| {
      assert (front + seg + rest)[|front| + i] == seg[i] && seg[i] in seg;
      SkipSegment(front, seg, rest, n, i + 1);
    }
  }

  /** From a boundary after some segments, the slash before the n-th further one. */
  lemma {:induction false} NthBoundary(front: string, segs: seq<string>, n: nat)
    requires AreSegments(segs) && n > 0 && front != ""
    ensures NthSlash(front + Tail(segs), |front|, n) == if n <= |segs| then |front + Tail(segs[..n - 1])| else -1
    decreases |segs|
  {
    if segs == [] {
      assert front + Tail(segs) == front;
    } else {
      var seg, rest := segs[0], segs[1..];
      assert seg in segs;
      TailStep(segs);
      if n <= |segs| && n > 1 {
        assert segs[..n - 1][0] == seg && segs[..n - 1][1..] == rest[..n - 2];
        TailStep(segs[..n - 1]);
      }
      assert segs[..0] == [] && Tail([]) == "";
      hide Tail;
      var s := front + Tail(segs);
      var next := front + ("/" + seg);
      Assoc(front, "/" + seg, Tail(rest));
      assert s == next + Tail(rest) && s[|front|] == '/';
      if n == 1 {
        assert front + "" == front;
      } else {
        NthBoundary(next, rest, n - 1);
        SkipAfterSlash(front, seg, Tail(rest), n - 1);
      }
    }
  }

  lemma SkipAfterSlash(front: string, seg: string, rest: string, n: nat)
    requires '/' !in seg && n > 0
    ensures var s := front + ("/" + seg) + rest; NthSlash(s, |front| + 1, n) == NthSlash(s, |front + ("/" + seg)|, n)
  {
    Assoc(front, "/", seg);
    SkipSegment(front + "/", seg, rest, n, 0);
  }

  lemma NthFromStart(segs: seq<string>, n: nat)
    requires AreSegments(segs) && n > 0 && segs != []
    ensures NthSlash(Tail(segs), 0, n) == if n < |segs| then |Tail(segs[..n])| else -1
  {
    var seg, rest := segs[0], segs[1..];
    assert seg in segs;
    TailStep(segs);
    var s := Tail(segs);
    if n < |segs| {
      assert segs[..n][0] == seg && segs[..n][1..] == rest[..n - 1];
      TailStep(segs[..n]);
    }
    hide Tail;
    assert s == "" + ("/" + seg) + Tail(rest) by { assert "" + ("/" + seg) == "/" + seg; }
    SkipAfterSlash("", seg, Tail(rest), n);
    NthBoundary("/" + seg, rest, n);
  }

  /** Fallback routing keeps the handler, or the first segments up to the depth. */
  lemma RoutingPrefixIs(h: string, segs: seq<string>, depth: nat)
    requires IsHandler(h) && AreSegments(segs)
    ensures RoutingPrefix(Render(h, segs), depth) ==
            if depth == 0 then h else if depth < |segs| then Render(h, segs[..depth]) else Render(h, segs)
  {
    RenderClean(h, segs);
    hide IndexOf;
    var path := Render(h, segs);
    if depth > 0 {
      if segs == [] {
        assert NthSlash("/", 0, depth) == NthSlash("/", 1, depth) == -1;
      } else {
        NthFromStart(segs, depth);
        if depth < |segs| {
          var rest := segs[depth..];
          assert segs == segs[..depth] + rest;
          TailConcat(segs[..depth], rest);
          hide Tail;
          assert path == h + ":" + (Tail(segs[..depth]) + Tail(rest));
          assert path[..|h| + 1 + |Tail(segs[..depth])|] == h + ":" + Tail(segs[..depth]);
        }
      }
    }
  }

  // --- resolution ---

  datatype Route = Route(namespace: string, explicit: bool)

  function Resolve(roots: set<string>, depth: nat, path: string): (r: Route) {
    match RootOf(roots, path)
    case Some(root) => Route(root, true)
    case None => Route(RoutingPrefix(path, depth), false)
  }

  /** Explicit or by fallback, a path resolves to a namespace that contains it. */
  lemma ResolvedContains(roots: set<string>, depth: nat, h: string, segs: seq<string>)
    requires IsHandler(h) && AreSegments(segs)
    ensures NamespaceContains(Resolve(roots, depth, Render(h, segs)).namespace, Render(h, segs))
  {
    hide NamespaceContains, Render, RoutingPrefix, RootOf;
    RootOfIs(roots, Render(h, segs));
    RoutingPrefixIs(h, segs, depth);
    var ns := if depth == 0 then OfHandler(h) else if depth < |segs| then OfRoot(h, segs[..depth]) else OfRoot(h, segs);
    ContainsIs(ns, h, segs);
  }

  predicate Lockable(depth: nat, path: string, route: Route) { route.explicit || depth == 0 || PathDepth(path) >= depth }

  ghost predicate AreSpaces(roots: set<string>) { forall r :: r in roots ==> exists ns: Space :: ns.Valid() && ns.Text() == r }

  /** A namespace that contains a path contains everything below it. */
  lemma ContainsBelow(r: string, ns: Space, h: string, p: seq<string>, q: seq<string>)
    requires ns.Valid() && ns.Text() == r && IsHandler(h) && AreSegments(p) && AreSegments(q) && p <= q
    ensures NamespaceContains(r, Render(h, p)) ==> NamespaceContains(r, Render(h, q))
  {
    hide NamespaceContains, Render;
    ContainsIs(ns, h, p);
    ContainsIs(ns, h, q);
  }

  lemma {:induction false} SameFirst(roots: seq<string>, p: string, q: string)
    requires forall r :: r in roots ==> (NamespaceContains(r, p) <==> NamespaceContains(r, q))
    ensures FirstContaining(roots, p) == FirstContaining(roots, q)
  {
    hide NamespaceContains;
    if roots != [] {
      assert roots[0] in roots;
      SameFirst(roots[1..], p, q);
    }
  }

  /**
   A lockable path and everything below it route to one namespace, unless an
   explicit root lies between them.
   */
  lemma RoutingClosed(roots: set<string>, depth: nat, h: string, p: seq<string>, q: seq<string>)
    requires AreSpaces(roots) && IsHandler(h) && AreSegments(p) && AreSegments(q) && p <= q
    requires Lockable(depth, Render(h, p), Resolve(roots, depth, Render(h, p)))
    requires forall r :: r in roots && NamespaceContains(r, Render(h, q)) ==> NamespaceContains(r, Render(h, p))
    ensures Resolve(roots, depth, Render(h, p)) == Resolve(roots, depth, Render(h, q))
  {
    hide NamespaceContains, Render, RoutingPrefix, PathDepth;
    forall r | r in roots ensures NamespaceContains(r, Render(h, p)) <==> NamespaceContains(r, Render(h, q)) {
      var ns: Space :| ns.Valid() && ns.Text() == r;
      ContainsBelow(r, ns, h, p, q);
    }
    SameFirst(SortedRoots(roots), Render(h, p), Render(h, q));
    RoutingPrefixIs(h, p, depth);
    RoutingPrefixIs(h, q, depth);
    DepthIs(h, p);
    if 0 < depth <= |p| {
      assert p[..depth] == q[..depth];
      assert depth == |p| ==> p[..depth] == p;
      assert depth == |q| ==> q[..depth] == q;
    }
  }

  /** The cached roots: kept longest first and without duplicates. */
  class NamespaceCache {
    var roots: seq<string>
    const depth: nat

    constructor (depth: nat)
      ensures roots == [] && this.depth == depth
    {
      roots := [];
      this.depth := depth;
    }

    function Known(): set<string>
      reads this
    {
      set r | r in roots
    }

    ghost predicate Valid()
      reads this
    {
      roots == SortedRoots(Known())
    }

    method CacheRoot(namespace: string)
      requires Valid()
      modifies this
      ensures Valid() && Known() == old(Known()) + {namespace}
    {
      var all := set r | r in roots + [namespace];
      assert all == Known() + {namespace};
      roots := SortedRoots(all);
      assert Known() == all;
    }

    /** The first containing root of the list, or the fallback. */
    method ResolveNamespace(path: string) returns (route: Route)
      requires Valid()
      ensures route == Resolve(Known(), depth, path)
    {
      hide FirstContaining, RoutingPrefix, SortedRoots;
      var root := FindRoot(roots, path);
      if root.Some? { return Route(root.value, true); }
      var fallback := FindRoutingPrefix(path, depth);
      return Route(fallback, false);
    }
  }

  method FindRoot(roots: seq<string>, path: string) returns (root: Option<string>)
    ensures root == FirstContaining(roots, path)
  {
    hide NamespaceContains;
    assert roots[0..] == roots;
    for i := 0 to |roots|
      invariant FirstContaining(roots, path) == FirstContaining(roots[i..], path)
    {
      assert roots[i..][0] == roots[i] && roots[i..][1..] == roots[i + 1..];
      if NamespaceContains(roots[i], path) { return Some(roots[i]); }
    }
    return None;
  }
}

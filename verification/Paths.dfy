/**
 Path strings: a public path is `handler:/seg/seg`, a scoped path prefixes the
 namespace-relative part with the namespace and a separator character.
 */
module Paths {

  const SCOPED_PATH_SEP: char := '\U{1F}'

  function IndexOf(s: string, c: char): (r: int)
    ensures -1 <= r < |s|
    ensures r == -1 <==> c !in s
    ensures r >= 0 ==> s[r] == c && c !in s[..r]
  {
    if s == [] then -1
    else if s[0] == c then 0
    else
      var k := IndexOf(s[1..], c);
      assert k >= 0 ==> s[..k + 1] == [s[0]] + s[1..][..k];
      if k < 0 then -1 else k + 1
  }

  function LastIndexOf(s: string, c: char): (r: int)
    ensures -1 <= r < |s|
    ensures r == -1 <==> c !in s
    ensures r >= 0 ==> s[r] == c && c !in s[r + 1..]
  {
    if s == [] then -1
    else if s[|s| - 1] == c then |s| - 1
    else
      var k := LastIndexOf(s[..|s| - 1], c);
      assert k >= 0 ==> s[k + 1..] == s[..|s| - 1][k + 1..] + [s[|s| - 1]];
      assert s == s[..|s| - 1] + [s[|s| - 1]];
      k
  }

  /** `s` ends with `t`. */
  predicate EndsWith(s: string, t: string) { |t| <= |s| && s[|s| - |t|..] == t }

  // --- namespace-relative and scoped paths ---

  function RelativePath(ns: string, path: string): (r: string) {
    if ':' !in ns then
      var colon := IndexOf(path, ':');
      if colon < 0 then path else path[colon + 1..]
    else if path == ns then "/"
    else if EndsWith(ns, ":/") then
      if ns <= path && |path| > |ns| then "/" + path[|ns|..] else "/"
    else if ns <= path && |path| > |ns| && path[|ns|] == '/' then path[|ns|..]
    else path
  }

  function ScopedPath(ns: string, path: string): (r: string) {
    ns + [SCOPED_PATH_SEP] + RelativePath(ns, path)
  }

  function TrimStart(s: string, c: char): (r: string) {
    if s != [] && s[0] == c then TrimStart(s[1..], c) else s
  }

  function PublicPath(ns: string, path: string): (r: string) {
    var i := IndexOf(path, SCOPED_PATH_SEP);
    if i < 0 then path
    else
      var rel := path[i + 1..];
      if rel == "/" then (if ':' in ns then ns else ns + ":/")
      else if ':' in ns then
        if EndsWith(ns, ":/") then ns + TrimStart(rel, '/') else ns + rel
      else ns + ":" + rel
  }

  /** The namespace a scoped path was filed under. */
  function NamespaceOf(key: string): (ns: string) {
    var i := IndexOf(key, SCOPED_PATH_SEP);
    if i < 0 then "" else key[..i]
  }

  predicate NoSep(ns: string) { SCOPED_PATH_SEP !in ns }

  lemma {:induction false} FirstIndex(a: string, c: char, b: string)
    requires c !in a
    ensures IndexOf(a + [c] + b, c) == |a|
  {
    if a != [] {
      assert (a + [c] + b)[1..] == a[1..] + [c] + b;
      FirstIndex(a[1..], c, b);
    }
  }

  lemma NamespaceOfScoped(ns: string, path: string)
    requires NoSep(ns)
    ensures NamespaceOf(ScopedPath(ns, path)) == ns
  {
    FirstIndex(ns, SCOPED_PATH_SEP, RelativePath(ns, path));
  }

  // --- ancestors ---

  /** Ancestors of `prefix + current`, nearest first. */
  function RelAncestors(prefix: string, current: string): (r: seq<string>)
    decreases |current|
  {
    if current == "/" || current == "" then []
    else
      var i := LastIndexOf(current, '/');
      if i < 0 then []
      else if i == 0 then [prefix + "/"]
      else [prefix + current[..i]] + RelAncestors(prefix, current[..i])
  }

  function GetAncestors(full: string): (r: seq<string>) {
    var s := IndexOf(full, SCOPED_PATH_SEP);
    if s >= 0 then RelAncestors(full[..s + 1], full[s + 1..])
    else
      var c := IndexOf(full, ':');
      if c < 0 then [] else RelAncestors(full[..c + 1], full[c + 1..])
  }

  predicate IsStrictAncestor(anc: string, desc: string) { anc in GetAncestors(desc) }

  /** The range prefix under which every descendant's key starts. */
  function DescendantPrefix(path: string): (r: string) {
    if EndsWith(path, "/") then path else path + "/"
  }

  lemma {:induction false} RelAncestorShape(prefix: string, current: string, a: string)
    requires a in RelAncestors(prefix, current)
    ensures prefix <= a && |a| < |prefix + current|
    ensures DescendantPrefix(a) <= prefix + current
    decreases |current|
  {
    var i := LastIndexOf(current, '/');
    if i == 0 {
      assert a == prefix + "/";
      assert current == "/" + current[1..];
      assert EndsWith(a, "/");
    } else {
      var cut := current[..i];
      assert current == cut + "/" + current[i + 1..];
      if a == prefix + cut {
        assert a + "/" <= prefix + current;
      } else {
        assert a in RelAncestors(prefix, cut);
        RelAncestorShape(prefix, cut, a);
        assert DescendantPrefix(a) <= prefix + cut <= prefix + current;
      }
    }
  }

  /** An ancestor is a shorter key of the same namespace, and its descendant prefix starts the key. */
  lemma AncestorShape(a: string, p: string)
    requires IsStrictAncestor(a, p)
    ensures |a| < |p|
    ensures NamespaceOf(a) == NamespaceOf(p)
    ensures DescendantPrefix(a) <= p
  {
    var s := IndexOf(p, SCOPED_PATH_SEP);
    var n := if s >= 0 then s + 1 else IndexOf(p, ':') + 1;
    assert p == p[..n] + p[n..];
    RelAncestorShape(p[..n], p[n..], a);
    if s >= 0 {
      SharedNamespace(p, s, a);
    } else {
      PrefixKeepsNoSep(a, p);
    }
  }

  lemma SharedNamespace(p: string, s: nat, a: string)
    requires s < |p| && SCOPED_PATH_SEP !in p[..s] && p[s] == SCOPED_PATH_SEP
    requires p[..s + 1] <= a
    ensures NamespaceOf(a) == p[..s] == NamespaceOf(p)
  {
    var ns := p[..s];
    assert a == ns + [SCOPED_PATH_SEP] + a[s + 1..];
    assert p == ns + [SCOPED_PATH_SEP] + p[s + 1..];
    FirstIndex(ns, SCOPED_PATH_SEP, a[s + 1..]);
    FirstIndex(ns, SCOPED_PATH_SEP, p[s + 1..]);
  }

  lemma PrefixKeepsNoSep(a: string, p: string)
    requires SCOPED_PATH_SEP !in p && DescendantPrefix(a) <= p
    ensures SCOPED_PATH_SEP !in a
  {
    assert a <= DescendantPrefix(a);
  }

  /** The ancestor walk, as the loop that builds the vector. */
  method CollectAncestors(full: string) returns (ancestors: seq<string>)
    ensures ancestors == GetAncestors(full)
  {
    hide RelAncestors, LastIndexOf;
    var start := IndexOf(full, SCOPED_PATH_SEP);
    if start < 0 {
      start := IndexOf(full, ':');
      if start < 0 { return []; }
    }
    ancestors := WalkUp(full[..start + 1], full[start + 1..]);
  }

  method WalkUp(prefix: string, path: string) returns (ancestors: seq<string>)
    ensures ancestors == RelAncestors(prefix, path)
  {
    hide RelAncestors, LastIndexOf;
    ancestors := [];
    var current := path;
    while current != "/" && current != ""
      invariant ancestors + RelAncestors(prefix, current) == RelAncestors(prefix, path)
      decreases |current|
    {
      var idx := LastIndexOf(current, '/');
      if idx < 0 { break; }
      StepUp(prefix, current, ancestors);
      current := if idx == 0 then "/" else current[..idx];
      ancestors := ancestors + [prefix + current];
      if current == "/" { break; }
    }
    NoStep(prefix, current);
  }

  lemma NoStep(prefix: string, current: string)
    requires current == "/" || '/' !in current
    ensures RelAncestors(prefix, current) == []
  {
  }

  /** One turn of the walk: the nearest ancestor, then that ancestor's ancestors. */
  lemma StepUp(prefix: string, current: string, done: seq<string>)
    requires current != "/" && '/' in current
    ensures var i := LastIndexOf(current, '/');
            var up := if i == 0 then "/" else current[..i];
            done + RelAncestors(prefix, current) == (done + [prefix + up]) + RelAncestors(prefix, up)
  {
    var i := LastIndexOf(current, '/');
    assert current[i] == '/';
    assert RelAncestors(prefix, "/") == [];
  }

  // --- namespaces and routing ---

  /** Whether a handler-only or path namespace contains a public path. */
  predicate NamespaceContains(ns: string, path: string) {
    var nc := IndexOf(ns, ':');
    var pc := IndexOf(path, ':');
    if nc < 0 then pc >= 0 && path[..pc] == ns
    else if pc < 0 then false
    else if ns[..nc] != path[..pc] then false
    else if ns == path then true
    else if EndsWith(ns, ":/") then ns <= path
    else ns <= path && |path| > |ns| && path[|ns|] == '/'
  }
}

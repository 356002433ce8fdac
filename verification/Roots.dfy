/** Explicit namespace roots, longest first, and the root a path resolves to. */
module Roots {
  import opened Ordering
  import opened Paths
  import opened LockSpec

  predicate RootLess(a: string, b: string) { |a| > |b| || (|a| == |b| && StrLess(a, b)) }

  lemma RootLessTotal()
    ensures StrictTotal(RootLess)
  {
    StrLessTotal();
  }

  function SortedRoots(roots: set<string>): (r: seq<string>)
    ensures forall x :: x in r <==> x in roots
    ensures Ascending(r, RootLess)
  {
    RootLessTotal();
    Sorted(roots, RootLess)
  }

  function FirstContaining(roots: seq<string>, path: string): (r: Option<string>) {
    if roots == [] then None
    else if NamespaceContains(roots[0], path) then Some(roots[0])
    else FirstContaining(roots[1..], path)
  }

  /** The explicit root a path belongs to. */
  function RootOf(roots: set<string>, path: string): (r: Option<string>) { FirstContaining(SortedRoots(roots), path) }

  lemma {:induction false} FirstContainingIs(roots: seq<string>, path: string)
    requires Ascending(roots, RootLess)
    ensures match FirstContaining(roots, path)
            case Some(r) => r in roots && NamespaceContains(r, path)
                            && forall x :: x in roots && NamespaceContains(x, path) ==> |x| <= |r|
            case None => forall x :: x in roots ==> !NamespaceContains(x, path)
  {
    hide NamespaceContains;
    if roots != [] {
      FirstContainingIs(roots[1..], path);
      assert forall x :: x in roots <==> x == roots[0] || x in roots[1..];
      assert forall x :: x in roots[1..] ==> RootLess(roots[0], x);
    }
  }

  /** A path resolves to the longest explicit root that contains it, whatever the order roots were added in. */
  lemma RootOfIs(roots: set<string>, path: string)
    ensures match RootOf(roots, path)
            case Some(r) => r in roots && NamespaceContains(r, path)
                            && forall x :: x in roots && NamespaceContains(x, path) ==> |x| <= |r|
            case None => forall x :: x in roots ==> !NamespaceContains(x, path)
  {
    hide NamespaceContains, FirstContaining;
    FirstContainingIs(SortedRoots(roots), path);
  }

  lemma ContainsPrefix(ns: string, path: string)
    requires NamespaceContains(ns, path)
    ensures ns <= path
  {
  }

  /** Of the roots that contain a path, the one it belongs to is the only longest. */
  lemma RootOfIff(roots: set<string>, path: string, r: string)
    ensures RootOf(roots, path) == Some(r) <==>
            r in roots && NamespaceContains(r, path) && forall x :: x in roots && NamespaceContains(x, path) ==> |x| <= |r|
  {
    hide NamespaceContains, RootOf;
    RootOfIs(roots, path);
    var o := RootOf(roots, path);
    if r in roots && NamespaceContains(r, path) && forall x :: x in roots && NamespaceContains(x, path) ==> |x| <= |r| {
      ContainsPrefix(r, path);
      ContainsPrefix(o.value, path);
      assert |o.value| == |r| && o.value == path[..|r|] == r;
    }
  }

  /** Of the explicit roots that contain the path, the longest is not this namespace. */
  ghost predicate Claimed(roots: set<string>, ns: string, path: string) {
    exists root :: root in roots && root != ns && NamespaceContains(root, path)
                   && forall x :: x in roots && NamespaceContains(x, path) ==> |x| <= |root|
  }

  lemma ClaimedIff(roots: set<string>, ns: string, path: string)
    ensures Claimed(roots, ns, path) <==> RootOf(roots, path).Some? && RootOf(roots, path).value != ns
  {
    hide NamespaceContains, RootOf;
    RootOfIs(roots, path);
    if root :| root in roots && root != ns && NamespaceContains(root, path) && forall x :: x in roots && NamespaceContains(x, path) ==> |x| <= |root| {
      RootOfIff(roots, path, root);
    }
  }
}

/** Paths reserved by waiters a sweep could not grant, keyed by path for cheap conflict checks. */
module Reserved {
  import opened Ordering
  import opened Paths
  import opened LockSpec
  import opened QueueSpec

  /** A conflict is at the path itself, at one of its ancestors, or below it. */
  lemma ConflictWhere(x: Want, y: Want)
    requires WantsConflict(x, y)
    ensures || y.path == x.path
            || y.path in GetAncestors(x.path)
            || (x.mode == Write && x.alg.Recursive() && DescendantPrefix(x.path) <= y.path)
  {
    if y.path != x.path && IsStrictAncestor(x.path, y.path) { AncestorShape(x.path, y.path); }
  }

  class ReservedPaths {
    var byPath: map<string, seq<(Mode, LockAlgorithm)>>

    predicate Contains(w: Want)
      reads this
    {
      w.path in byPath && (w.mode, w.alg) in byPath[w.path]
    }

    constructor ()
      ensures forall w :: !Contains(w)
    {
      byPath := map[];
    }

    method Insert(ws: seq<Want>)
      modifies this
      ensures forall w :: Contains(w) <==> old(Contains(w)) || w in ws
    {
      for i := 0 to |ws|
        invariant forall w :: Contains(w) <==> old(Contains(w)) || w in ws[..i]
      {
        assert ws[..i + 1] == ws[..i] + [ws[i]];
        var at := if ws[i].path in byPath then byPath[ws[i].path] else [];
        byPath := byPath[ws[i].path := at + [(ws[i].mode, ws[i].alg)]];
      }
      assert ws[..|ws|] == ws;
    }

    /** Whether something reserved at exactly `path` conflicts with `w`. */
    predicate ConflictAt(w: Want, path: string)
      reads this
    {
      path in byPath && exists x :: x in byPath[path] && WantsConflict(w, Want(path, x.0, x.1))
    }

    ghost predicate ConflictAny(w: Want)
      reads this
    {
      exists y :: Contains(y) && WantsConflict(w, y)
    }

    lemma AtIsAny(w: Want, path: string)
      ensures ConflictAt(w, path) ==> ConflictAny(w)
      ensures forall y :: Contains(y) && y.path == path && WantsConflict(w, y) ==> ConflictAt(w, path)
    {
      hide WantsConflict;
      if ConflictAt(w, path) {
        var x :| x in byPath[path] && WantsConflict(w, Want(path, x.0, x.1));
        assert Contains(Want(path, x.0, x.1));
      }
      forall y | Contains(y) && y.path == path && WantsConflict(w, y) ensures ConflictAt(w, path) {
        var x := (y.mode, y.alg);
        assert x in byPath[path] && Want(path, x.0, x.1) == y;
      }
    }

    /** The indexed check equals the pairwise test against everything reserved. */
    method PathConflicts(w: Want) returns (hit: bool)
      ensures hit <==> ConflictAny(w)
    {
      hide WantsConflict, ConflictAny, ConflictAt, GetAncestors;
      AtIsAny(w, w.path);
      if ConflictAt(w, w.path) { return true; }
      var ancs := CollectAncestors(w.path);
      for i := 0 to |ancs|
        invariant forall a :: a in ancs[..i] ==> !ConflictAt(w, a)
      {
        assert ancs[..i + 1] == ancs[..i] + [ancs[i]];
        AtIsAny(w, ancs[i]);
        if ConflictAt(w, ancs[i]) { return true; }
      }
      assert ancs[..|ancs|] == ancs;
      if w.mode == Write && w.alg.Recursive() {
        hit := SubtreeConflicts(w);
        if hit { return; }
      }
      NoConflictLeft(w);
      return false;
    }

    /** The ordered walk from the descendant prefix, up to the first key outside it. */
    method SubtreeConflicts(w: Want) returns (hit: bool)
      ensures hit ==> ConflictAny(w)
      ensures !hit ==> forall k :: k in byPath && DescendantPrefix(w.path) <= k ==> !ConflictAt(w, k)
    {
      hide WantsConflict, ConflictAny, ConflictAt, DescendantPrefix;
      var prefix := DescendantPrefix(w.path);
      var from := SortedStrings(set k | k in byPath && !StrLess(k, prefix));
      for i := 0 to |from|
        invariant forall j :: 0 <= j < i ==> !ConflictAt(w, from[j])
      {
        if !(prefix <= from[i]) {
          assert from[i] in from;
          WalkEnds(prefix, from, i);
          WalkCovers(byPath.Keys, prefix, from, i);
          forall k | k in byPath && prefix <= k ensures !ConflictAt(w, k) {
            var j :| 0 <= j < i && from[j] == k;
          }
          return false;
        }
        AtIsAny(w, from[i]);
        if ConflictAt(w, from[i]) { return true; }
      }
      forall k | k in byPath && prefix <= k ensures !ConflictAt(w, k) {
        PrefixNotAbove(prefix, k);
        assert k in from;
      }
      return false;
    }

    lemma NoConflictLeft(w: Want)
      requires !ConflictAt(w, w.path)
      requires forall a :: a in GetAncestors(w.path) ==> !ConflictAt(w, a)
      requires w.mode == Write && w.alg.Recursive() ==>
                 forall k :: k in byPath && DescendantPrefix(w.path) <= k ==> !ConflictAt(w, k)
      ensures !ConflictAny(w)
    {
      hide WantsConflict, ConflictAt, GetAncestors, DescendantPrefix;
      forall y | Contains(y) ensures !WantsConflict(w, y) {
        if WantsConflict(w, y) {
          ConflictWhere(w, y);
          AtIsAny(w, y.path);
        }
      }
    }

    /** Any of the wants against anything reserved. */
    method Conflicts(ws: seq<Want>) returns (hit: bool)
      ensures hit <==> exists x, y :: x in ws && Contains(y) && WantsConflict(x, y)
    {
      hide WantsConflict;
      for i := 0 to |ws|
        invariant forall x, y :: x in ws[..i] && Contains(y) ==> !WantsConflict(x, y)
      {
        assert ws[..i + 1] == ws[..i] + [ws[i]];
        hit := PathConflicts(ws[i]);
        if hit { assert ws[i] in ws; return; }
      }
      assert ws[..|ws|] == ws;
      return false;
    }
  }

  /** Keys from a non-matching one on do not match either. */
  lemma WalkEnds(prefix: string, from: seq<string>, i: nat)
    requires i < |from| && Ascending(from, StrLess) && !StrLess(from[i], prefix) && !(prefix <= from[i])
    ensures forall j :: i <= j < |from| ==> !(prefix <= from[j])
  {
    forall j | i < j < |from| ensures !(prefix <= from[j]) { PrefixBlock(prefix, from[i], from[j]); }
  }

  lemma WalkCovers(keys: set<string>, prefix: string, from: seq<string>, i: nat)
    requires forall k :: k in from <==> k in keys && !StrLess(k, prefix)
    requires i < |from| && forall j :: i <= j < |from| ==> !(prefix <= from[j])
    ensures forall k :: k in keys && prefix <= k ==> exists j :: 0 <= j < i && from[j] == k
  {
    forall k | k in keys && prefix <= k ensures exists j :: 0 <= j < i && from[j] == k {
      PrefixNotAbove(prefix, k);
      assert k in from;
      var j :| 0 <= j < |from| && from[j] == k;
    }
  }
}

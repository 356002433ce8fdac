/**
 The transactional store: committed column families, an overlay of pending
 writes, the merged scan over both, and the atomic commit.
 */
module Store {
  import opened Ordering
  import opened LockSpec
  import opened Bytes

  type Committed = map<Key, Key>

  /** Pending writes; None marks a deletion. */
  type Overlay = map<Key, Option<Key>>

  type Entries = seq<(Key, Key)>

  // --- the plain map a scan must agree with ---

  function Lookup(m: Committed, k: Key): (r: Option<Key>) { if k in m then Some(m[k]) else None }

  function Overlaid(db: Committed, ov: Overlay): (r: Committed) {
    map k | k in db.Keys + ov.Keys && (k in ov ==> ov[k].Some?) :: if k in ov then ov[k].value else db[k]
  }

  /** A point read through the overlay. */
  lemma OverlaidAt(db: Committed, ov: Overlay, k: Key)
    ensures Lookup(Overlaid(db, ov), k) == if k in ov then ov[k] else Lookup(db, k)
  {
  }

  predicate InRange(k: Key, start: Option<Key>, upper: Option<Key>) {
    (start.Some? ==> !KeyBefore(k, start.value)) && (upper.Some? ==> KeyBefore(k, upper.value))
  }

  ghost predicate KeysAscend(es: Entries) { forall i, j :: 0 <= i < j < |es| ==> KeyBefore(es[i].0, es[j].0) }

  /** The entries of a map within bounds, in key order, once each. */
  ghost predicate IsRangeOf(es: Entries, m: Committed, start: Option<Key>, upper: Option<Key>) {
    && KeysAscend(es)
    && forall k, v :: (k, v) in es <==> Lookup(m, k) == Some(v) && InRange(k, start, upper)
  }

  function KeysIn(ks: set<Key>, start: Option<Key>, upper: Option<Key>): (r: seq<Key>) {
    SortedByteKeys(set k | k in ks && InRange(k, start, upper))
  }

  lemma KeysInHas(ks: set<Key>, start: Option<Key>, upper: Option<Key>, k: Key)
    ensures k in KeysIn(ks, start, upper) <==> k in ks && InRange(k, start, upper)
  {
    hide InRange;
  }

  /** The range as a list. */
  function RangeOf(m: Committed, start: Option<Key>, upper: Option<Key>): (r: Entries) {
    var ks := KeysIn(m.Keys, start, upper);
    assert forall i :: 0 <= i < |ks| ==> ks[i] in m by {
      forall i | 0 <= i < |ks| ensures ks[i] in m { assert ks[i] in ks; }
    }
    seq(|ks|, i requires 0 <= i < |ks| => (ks[i], m[ks[i]]))
  }

  lemma RangeOfIs(m: Committed, start: Option<Key>, upper: Option<Key>)
    ensures IsRangeOf(RangeOf(m, start, upper), m, start, upper)
  {
    hide KeyBefore, InRange;
    var ks, es := KeysIn(m.Keys, start, upper), RangeOf(m, start, upper);
    assert KeysAscend(es) by { assert Ascending(ks, KeyBefore); }
    forall k, v ensures (k, v) in es <==> Lookup(m, k) == Some(v) && InRange(k, start, upper) {
      KeysInHas(m.Keys, start, upper, k);
      if (k, v) in es { var i :| 0 <= i < |es| && es[i] == (k, v); assert ks[i] in ks; }
      if k in ks && Lookup(m, k) == Some(v) { var i :| 0 <= i < |ks| && ks[i] == k; assert es[i] == (k, v); }
    }
  }

  function KeysOf(es: Entries): (r: seq<Key>) { seq(|es|, i requires 0 <= i < |es| => es[i].0) }

  lemma KeysOfHas(es: Entries, m: Committed, start: Option<Key>, upper: Option<Key>, k: Key)
    requires IsRangeOf(es, m, start, upper)
    ensures k in KeysOf(es) <==> k in m && InRange(k, start, upper)
  {
    hide KeyBefore, InRange;
    if k in KeysOf(es) {
      var i :| 0 <= i < |es| && KeysOf(es)[i] == k;
      assert es[i] in es && es[i] == (k, es[i].1);
    }
    if k in m && InRange(k, start, upper) {
      assert (k, m[k]) in es;
      var i :| 0 <= i < |es| && es[i] == (k, m[k]);
      assert KeysOf(es)[i] == k;
    }
  }

  /** There is only one such list. */
  lemma RangeUnique(a: Entries, b: Entries, m: Committed, start: Option<Key>, upper: Option<Key>)
    requires IsRangeOf(a, m, start, upper) && IsRangeOf(b, m, start, upper)
    ensures a == b
  {
    hide KeyBefore, InRange;
    KeyBeforeTotal();
    forall k ensures k in KeysOf(a) <==> k in KeysOf(b) {
      KeysOfHas(a, m, start, upper, k);
      KeysOfHas(b, m, start, upper, k);
    }
    AscendingUnique(KeysOf(a), KeysOf(b), KeyBefore);
    forall i | 0 <= i < |a| ensures a[i] == b[i] {
      assert a[i] in a && b[i] in b && KeysOf(a)[i] == KeysOf(b)[i];
      assert (a[i].0, a[i].1) in a && (b[i].0, b[i].1) in b;
    }
  }

  /** What a visitor that stops when `keep` fails has seen of a list. */
  ghost predicate Visits(seen: Entries, all: Entries, keep: Entries -> bool) {
    && seen <= all
    && (forall i :: 0 < i < |seen| ==> keep(seen[..i]))
    && (seen == all || (seen != [] && !keep(seen)))
  }

  // --- the two-cursor merge ---

  ghost predicate Listed(dk: seq<Key>, ok: seq<Key>, db: Committed, ov: Overlay) {
    && (forall k :: k in dk ==> k in db) && (forall k :: k in ok ==> k in ov)
    && Ascending(dk, KeyBefore) && Ascending(ok, KeyBefore)
  }

  function Merge(dk: seq<Key>, ok: seq<Key>, db: Committed, ov: Overlay): (r: Entries)
    requires Listed(dk, ok, db, ov)
    decreases |dk| + |ok|
  {
    if dk == [] && ok == [] then []
    else if ok != [] && (dk == [] || !KeyBefore(dk[0], ok[0])) then
      assert ok[0] in ok;
      var k := ok[0];
      var rest := Merge(if dk != [] && dk[0] == k then dk[1..] else dk, ok[1..], db, ov);
      (if ov[k].Some? then [(k, ov[k].value)] else []) + rest
    else
      assert dk[0] in dk;
      [(dk[0], db[dk[0]])] + Merge(dk[1..], ok, db, ov)
  }

  /** What the merge yields for one key. */
  ghost predicate Merged(e: (Key, Key), dk: seq<Key>, ok: seq<Key>, db: Committed, ov: Overlay) {
    if e.0 in ok then e.0 in ov && ov[e.0] == Some(e.1) else e.0 in dk && e.0 in db && db[e.0] == e.1
  }

  lemma HeadLeast(ks: seq<Key>, k: Key)
    requires ks != [] && Ascending(ks, KeyBefore) && k in ks
    ensures k == ks[0] || KeyBefore(ks[0], k)
    ensures k in ks[1..] <==> k != ks[0]
  {
    KeyBeforeTotal();
    hide KeyBefore;
    var i :| 0 <= i < |ks| && ks[i] == k;
    if i > 0 { assert ks[1..][i - 1] == k; }
    forall j | 0 <= j < |ks[1..]| ensures ks[1..][j] != ks[0] { assert KeyBefore(ks[0], ks[j + 1]); }
  }

  ghost predicate MergeSpec(es: Entries, dk: seq<Key>, ok: seq<Key>, db: Committed, ov: Overlay) {
    KeysAscend(es) && forall e :: e in es <==> Merged(e, dk, ok, db, ov)
  }

  lemma ConsAscends(e: (Key, Key), es: Entries)
    requires KeysAscend(es) && forall x :: x in es ==> KeyBefore(e.0, x.0)
    ensures KeysAscend([e] + es)
  {
    hide KeyBefore;
    assert forall i :: 0 <= i < |es| ==> es[i] in es;
  }

  lemma TakeOverlay(dk: seq<Key>, ok: seq<Key>, db: Committed, ov: Overlay, rest: Entries)
    requires Listed(dk, ok, db, ov) && ok != [] && (dk == [] || !KeyBefore(dk[0], ok[0]))
    requires MergeSpec(rest, if dk != [] && dk[0] == ok[0] then dk[1..] else dk, ok[1..], db, ov)
    ensures ok[0] in ov && MergeSpec((if ov[ok[0]].Some? then [(ok[0], ov[ok[0]].value)] else []) + rest, dk, ok, db, ov)
  {
    KeyBeforeTotal();
    hide KeyBefore;
    var k := ok[0];
    assert k in ok;
    var dk1 := if dk != [] && dk[0] == k then dk[1..] else dk;
    forall x | x in ok ensures x == k || KeyBefore(k, x) { HeadLeast(ok, x); }
    forall x | x in ok ensures x in ok[1..] <==> x != k { HeadLeast(ok, x); }
    forall x | x in dk ensures x == dk[0] || KeyBefore(dk[0], x) { HeadLeast(dk, x); }
    forall x | x in dk ensures x in dk[1..] <==> x != dk[0] { HeadLeast(dk, x); }
    assert forall x :: x in dk1 <==> x in dk && x != k;
    forall e | e in rest ensures KeyBefore(k, e.0) { assert Merged(e, dk1, ok[1..], db, ov); }
    if ov[k].Some? {
      ConsAscends((k, ov[k].value), rest);
      assert ([(k, ov[k].value)] + rest)[1..] == rest;
    }
  }

  lemma TakeCommitted(dk: seq<Key>, ok: seq<Key>, db: Committed, ov: Overlay, rest: Entries)
    requires Listed(dk, ok, db, ov) && dk != [] && (ok == [] || KeyBefore(dk[0], ok[0]))
    requires MergeSpec(rest, dk[1..], ok, db, ov)
    ensures dk[0] in db && MergeSpec([(dk[0], db[dk[0]])] + rest, dk, ok, db, ov)
  {
    KeyBeforeTotal();
    hide KeyBefore;
    var k := dk[0];
    assert k in dk;
    forall x | x in dk ensures x == k || KeyBefore(k, x) { HeadLeast(dk, x); }
    forall x | x in dk ensures x in dk[1..] <==> x != k { HeadLeast(dk, x); }
    forall x | x in ok ensures KeyBefore(k, x) { HeadLeast(ok, x); }
    forall e | e in rest ensures KeyBefore(k, e.0) { assert Merged(e, dk[1..], ok, db, ov); }
    ConsAscends((k, db[k]), rest);
    var all := [(k, db[k])] + rest;
    assert all[1..] == rest;
    assert forall e :: e in all <==> e == (k, db[k]) || e in rest;
  }

  lemma {:induction false} MergeIs(dk: seq<Key>, ok: seq<Key>, db: Committed, ov: Overlay)
    requires Listed(dk, ok, db, ov)
    ensures MergeSpec(Merge(dk, ok, db, ov), dk, ok, db, ov)
    decreases |dk| + |ok|
  {
    hide KeyBefore, MergeSpec;
    if dk == [] && ok == [] {
      EmptyMerge(db, ov);
    } else if ok != [] && (dk == [] || !KeyBefore(dk[0], ok[0])) {
      assert ok[0] in ok;
      var dk1 := if dk != [] && dk[0] == ok[0] then dk[1..] else dk;
      MergeIs(dk1, ok[1..], db, ov);
      TakeOverlay(dk, ok, db, ov, Merge(dk1, ok[1..], db, ov));
    } else {
      assert dk[0] in dk;
      MergeIs(dk[1..], ok, db, ov);
      TakeCommitted(dk, ok, db, ov, Merge(dk[1..], ok, db, ov));
    }
  }

  lemma EmptyMerge(db: Committed, ov: Overlay)
    ensures MergeSpec([], [], [], db, ov)
  {
  }

  lemma RangesListed(db: Committed, ov: Overlay, start: Option<Key>, upper: Option<Key>)
    ensures Listed(KeysIn(db.Keys, start, upper), KeysIn(ov.Keys, start, upper), db, ov)
  {
    hide KeyBefore, InRange;
  }

  lemma RangeAt(db: Committed, ov: Overlay, start: Option<Key>, upper: Option<Key>, e: (Key, Key))
    ensures Merged(e, KeysIn(db.Keys, start, upper), KeysIn(ov.Keys, start, upper), db, ov) <==>
            Lookup(Overlaid(db, ov), e.0) == Some(e.1) && InRange(e.0, start, upper)
  {
    hide KeysIn, InRange, Overlaid;
    KeysInHas(db.Keys, start, upper, e.0);
    KeysInHas(ov.Keys, start, upper, e.0);
    OverlaidAt(db, ov, e.0);
  }

  /** The merge of the two ranges is the range of the overlaid map. */
  lemma MergeIsRange(db: Committed, ov: Overlay, start: Option<Key>, upper: Option<Key>)
    requires Listed(KeysIn(db.Keys, start, upper), KeysIn(ov.Keys, start, upper), db, ov)
    ensures Merge(KeysIn(db.Keys, start, upper), KeysIn(ov.Keys, start, upper), db, ov) == RangeOf(Overlaid(db, ov), start, upper)
  {
    hide KeyBefore, Merge, InRange, KeysIn, Overlaid, Lookup, Merged, RangeOf;
    var dk, ok := KeysIn(db.Keys, start, upper), KeysIn(ov.Keys, start, upper);
    MergeIs(dk, ok, db, ov);
    var es := Merge(dk, ok, db, ov);
    forall k, v ensures (k, v) in es <==> Lookup(Overlaid(db, ov), k) == Some(v) && InRange(k, start, upper) {
      RangeAt(db, ov, start, upper, (k, v));
    }
    RangeOfIs(Overlaid(db, ov), start, upper);
    RangeUnique(es, RangeOf(Overlaid(db, ov), start, upper), Overlaid(db, ov), start, upper);
  }

  /** The merge from two positions on. */
  function Ahead(dk: seq<Key>, ok: seq<Key>, i: nat, j: nat, db: Committed, ov: Overlay): (r: Entries)
    requires Listed(dk, ok, db, ov) && i <= |dk| && j <= |ok|
  {
    Merge(dk[i..], ok[j..], db, ov)
  }

  /** The overlay's key comes next; a committed entry with the same key is shadowed. */
  lemma AheadOverlay(dk: seq<Key>, ok: seq<Key>, i: nat, j: nat, db: Committed, ov: Overlay)
    requires Listed(dk, ok, db, ov) && i <= |dk| && j < |ok| && (i == |dk| || !KeyBefore(dk[i], ok[j]))
    ensures ok[j] in ov
    ensures var i1 := if i < |dk| && dk[i] == ok[j] then i + 1 else i;
            Ahead(dk, ok, i, j, db, ov) == (if ov[ok[j]].Some? then [(ok[j], ov[ok[j]].value)] else []) + Ahead(dk, ok, i1, j + 1, db, ov)
  {
    hide KeyBefore;
    assert ok[j] in ok;
    assert ok[j..][0] == ok[j] && ok[j..][1..] == ok[j + 1..];
    if i < |dk| { assert dk[i..][0] == dk[i] && dk[i..][1..] == dk[i + 1..]; }
  }

  lemma AheadCommitted(dk: seq<Key>, ok: seq<Key>, i: nat, j: nat, db: Committed, ov: Overlay)
    requires Listed(dk, ok, db, ov) && i < |dk| && j <= |ok| && (j == |ok| || KeyBefore(dk[i], ok[j]))
    ensures dk[i] in db
    ensures Ahead(dk, ok, i, j, db, ov) == [(dk[i], db[dk[i]])] + Ahead(dk, ok, i + 1, j, db, ov)
  {
    hide KeyBefore;
    assert dk[i] in dk;
    assert dk[i..][0] == dk[i] && dk[i..][1..] == dk[i + 1..];
    if j < |ok| { assert ok[j..][0] == ok[j]; }
  }

  lemma AheadEnds(dk: seq<Key>, ok: seq<Key>, db: Committed, ov: Overlay)
    requires Listed(dk, ok, db, ov)
    ensures Ahead(dk, ok, 0, 0, db, ov) == Merge(dk, ok, db, ov) && Ahead(dk, ok, |dk|, |ok|, db, ov) == []
  {
    assert dk[0..] == dk && ok[0..] == ok;
  }

  /** The visitor kept going before the last entry, and says whether it still does. */
  ghost predicate Kept(seen: Entries, going: bool, keep: Entries -> bool) {
    && (forall n :: 0 < n < |seen| ==> keep(seen[..n]))
    && (if going then seen == [] || keep(seen) else seen != [] && !keep(seen))
  }

  lemma KeptMore(seen: Entries, e: (Key, Key), keep: Entries -> bool)
    requires Kept(seen, true, keep)
    ensures Kept(seen + [e], keep(seen + [e]), keep)
  {
    forall n | 0 < n < |seen + [e]| ensures keep((seen + [e])[..n]) {
      assert (seen + [e])[..n] == seen[..n];
      if n == |seen| { assert seen[..n] == seen; }
    }
  }

  lemma KeptVisits(seen: Entries, rest: Entries, all: Entries, going: bool, keep: Entries -> bool)
    requires Kept(seen, going, keep) && seen + rest == all && (going ==> rest == [])
    ensures Visits(seen, all, keep)
  {
    if going { assert seen == all; }
  }

  /** Walks the committed range and the overlay range together; overlay entries shadow committed ones. */
  method ScanWithOverlay(db: Committed, ov: Overlay, start: Option<Key>, upper: Option<Key>, keep: Entries -> bool)
    returns (seen: Entries)
    requires start.Some? && upper.Some? ==> !KeyBefore(upper.value, start.value)
    ensures Visits(seen, RangeOf(Overlaid(db, ov), start, upper), keep)
  {
    hide KeyBefore, InRange, RangeOf, Visits, Kept, Ahead, Merge, Listed, KeysIn, Overlaid;
    var dk, ok := KeysIn(db.Keys, start, upper), KeysIn(ov.Keys, start, upper);
    RangesListed(db, ov, start, upper);
    MergeIsRange(db, ov, start, upper);
    ghost var all := Ahead(dk, ok, 0, 0, db, ov);
    AheadEnds(dk, ok, db, ov);
    seen := [];
    var i, j, going := 0, 0, true;
    assert Kept(seen, true, keep) by { NothingSeen(keep); }
    while going && (i < |dk| || j < |ok|)
      invariant i <= |dk| && j <= |ok|
      invariant seen + Ahead(dk, ok, i, j, db, ov) == all
      invariant Kept(seen, going, keep)
      decreases |dk| - i + |ok| - j
    {
      var next: Option<(Key, Key)>;
      if j < |ok| && (i == |dk| || !KeyBefore(dk[i], ok[j])) {
        AheadOverlay(dk, ok, i, j, db, ov);
        var k := ok[j];
        if i < |dk| && dk[i] == k { i := i + 1; }
        j := j + 1;
        next := if ov[k].Some? then Some((k, ov[k].value)) else None;
      } else {
        AheadCommitted(dk, ok, i, j, db, ov);
        next := Some((dk[i], db[dk[i]]));
        i := i + 1;
      }
      if next.Some? {
        KeptMore(seen, next.value, keep);
        seen := seen + [next.value];
        going := keep(seen);
      }
    }
    KeptVisits(seen, Ahead(dk, ok, i, j, db, ov), all, going, keep);
  }

  lemma NothingSeen(keep: Entries -> bool)
    ensures Kept([], true, keep)
  {
  }
}

/** One command's transaction: reads see its own writes, scans agree with reads, and it commits as a whole. */
module Txn {
  import opened LockSpec
  import opened Bytes
  import opened Keys
  import opened Store

  datatype Write = Put(cf: string, key: Key, value: Key) | Delete(cf: string, key: Key)

  function Family(cfs: map<string, Committed>, cf: string): (r: Committed) { if cf in cfs then cfs[cf] else map[] }

  function WriteOne(cfs: map<string, Committed>, w: Write): (r: map<string, Committed>) {
    match w
    case Put(cf, k, v) => cfs[cf := Family(cfs, cf)[k := v]]
    case Delete(cf, k) => cfs[cf := Family(cfs, cf) - {k}]
  }

  /** The database applies a batch in order. */
  function WriteBatch(cfs: map<string, Committed>, batch: seq<Write>): (r: map<string, Committed>) {
    if batch == [] then cfs else WriteOne(WriteBatch(cfs, batch[..|batch| - 1]), batch[|batch| - 1])
  }

  function Shadow(ovs: map<string, Overlay>, cf: string): (r: Overlay) { if cf in ovs then ovs[cf] else map[] }

  function ShadowOne(ovs: map<string, Overlay>, w: Write): (r: map<string, Overlay>) {
    match w
    case Put(cf, k, v) => ovs[cf := Shadow(ovs, cf)[k := Some(v)]]
    case Delete(cf, k) => ovs[cf := Shadow(ovs, cf)[k := None]]
  }

  function ShadowBatch(batch: seq<Write>): (r: map<string, Overlay>) {
    if batch == [] then map[] else ShadowOne(ShadowBatch(batch[..|batch| - 1]), batch[|batch| - 1])
  }

  /** Applying the batch to the database is laying the overlay over it, family by family. */
  lemma {:induction false} BatchIsOverlay(cfs: map<string, Committed>, batch: seq<Write>, cf: string)
    ensures Family(WriteBatch(cfs, batch), cf) == Overlaid(Family(cfs, cf), Shadow(ShadowBatch(batch), cf))
  {
    if batch == [] {
      assert Overlaid(Family(cfs, cf), map[]) == Family(cfs, cf);
    } else {
      var front, w := batch[..|batch| - 1], batch[|batch| - 1];
      BatchIsOverlay(cfs, front, cf);
      WriteShadows(Family(cfs, cf), WriteBatch(cfs, front), ShadowBatch(front), w, cf);
    }
  }

  lemma WriteShadows(base: Committed, cfs: map<string, Committed>, ovs: map<string, Overlay>, w: Write, cf: string)
    requires Family(cfs, cf) == Overlaid(base, Shadow(ovs, cf))
    ensures Family(WriteOne(cfs, w), cf) == Overlaid(base, Shadow(ShadowOne(ovs, w), cf))
  {
    hide Overlaid;
    if w.cf == cf {
      match w
      case Put(_, k, v) => PutOver(base, Shadow(ovs, cf), k, v);
      case Delete(_, k) => DeleteOver(base, Shadow(ovs, cf), k);
    }
  }

  /** The shared database. */
  class Db {
    var cfs: map<string, Committed>
  }

  /** A group's part of a column family, keys relative to the group. */
  function GroupPart(m: Committed, prefix: Key): (r: Committed) {
    var ks := set f | f in m && prefix <= f :: f[|prefix|..];
    map k | k in ks && prefix + k in m :: m[prefix + k]
  }

  lemma GroupPartAt(m: Committed, prefix: Key, k: Key)
    ensures Lookup(GroupPart(m, prefix), k) == Lookup(m, prefix + k)
  {
    var f := prefix + k;
    assert prefix <= f && f[|prefix|..] == k;
  }

  function Relative(es: Entries, n: nat): (r: Entries)
    requires forall e :: e in es ==> n <= |e.0|
  {
    seq(|es|, i requires 0 <= i < |es| => assert es[i] in es; (es[i].0[n..], es[i].1))
  }

  class WriteTxn {
    const db: Db
    const group: nat
    var batch: seq<Write>
    var overlay: map<string, Overlay>
    var cache: map<string, map<Key, Option<Key>>>
    var dirty: bool

    constructor (db: Db, group: nat)
      ensures this.db == db && this.group == group && Valid()
      ensures forall cf :: View(cf) == Family(db.cfs, cf)
    {
      this.db := db;
      this.group := group;
      batch := [];
      overlay := map[];
      cache := map[];
      dirty := false;
      new;
      assert forall cf :: Overlaid(Family(db.cfs, cf), map[]) == Family(db.cfs, cf);
    }

    /** The overlay is what the batch will do; the cache holds committed values; dirty means there is a batch. */
    ghost predicate Valid()
      reads this, db
    {
      && overlay == ShadowBatch(batch) && (dirty <==> batch != [])
      && forall cf, k :: cf in cache && k in cache[cf] ==> cache[cf][k] == Lookup(Family(db.cfs, cf), k)
    }

    /** What this transaction sees of a column family. */
    ghost function View(cf: string): Committed
      reads this, db
    {
      Overlaid(Family(db.cfs, cf), Shadow(overlay, cf))
    }

    /** A point read: overlay first, then the read cache, then the database. */
    method Get(cf: string, key: Key) returns (v: Option<Key>)
      requires Valid()
      modifies this`cache
      ensures Valid() && v == Lookup(View(cf), key)
    {
      hide Overlaid;
      OverlaidAt(Family(db.cfs, cf), Shadow(overlay, cf), key);
      if cf in overlay && key in overlay[cf] { return overlay[cf][key]; }
      if cf in cache && key in cache[cf] { return cache[cf][key]; }
      v := Lookup(Family(db.cfs, cf), key);
      var known: map<Key, Option<Key>> := if cf in cache then cache[cf] else map[];
      cache := cache[cf := known[key := v]];
    }

    method PutKey(cf: string, key: Key, value: Key)
      requires Valid()
      modifies this`batch, this`overlay, this`cache, this`dirty
      ensures Valid() && View(cf) == old(View(cf))[key := value]
      ensures forall c :: c != cf ==> View(c) == old(View(c))
    {
      hide Overlaid;
      batch := batch + [Put(cf, key, value)];
      overlay := overlay[cf := Shadow(overlay, cf)[key := Some(value)]];
      cache := cache - {cf};
      dirty := true;
      assert batch[..|batch| - 1] == old(batch);
      assert View(cf) == old(View(cf))[key := value] by { PutOver(Family(db.cfs, cf), old(Shadow(overlay, cf)), key, value); }
    }

    method DeleteKey(cf: string, key: Key)
      requires Valid()
      modifies this`batch, this`overlay, this`cache, this`dirty
      ensures Valid() && View(cf) == old(View(cf)) - {key}
      ensures forall c :: c != cf ==> View(c) == old(View(c))
    {
      hide Overlaid;
      batch := batch + [Delete(cf, key)];
      overlay := overlay[cf := Shadow(overlay, cf)[key := None]];
      cache := cache - {cf};
      dirty := true;
      assert batch[..|batch| - 1] == old(batch);
      assert View(cf) == old(View(cf)) - {key} by { DeleteOver(Family(db.cfs, cf), old(Shadow(overlay, cf)), key); }
    }

    /** A scan within this group's keys agrees with point reads: same entries, in order, once each. */
    method ScanMerged(cf: string, start: Option<Key>, upper: Option<Key>, keep: Entries -> bool) returns (seen: Entries)
      requires start.Some? && upper.Some? ==> !KeyBefore(upper.value, start.value)
      ensures Visits(seen, RangeOf(GroupPart(View(cf), GroupPrefix(group)), start, upper), keep)
    {
      hide KeyBefore, InRange, IsRangeOf, Overlaid, GroupPart, Visits, RangeOf;
      var gp := GroupPrefix(group);
      var from := gp + (if start.Some? then start.value else []);
      var to: Option<Key>;
      if upper.Some? { to := Some(gp + upper.value); } else { to := PrefixUpperBound(gp); }
      BoundsOrdered(gp, start, upper);
      var n := |gp|;
      var inner := ScanWithOverlay(Family(db.cfs, cf), Shadow(overlay, cf), Some(from), to, es => Trimmed(es, n, keep));
      ghost var full := RangeOf(View(cf), Some(from), to);
      RangeOfIs(View(cf), Some(from), to);
      GroupRange(View(cf), gp, start, upper, full);
      RangeOfIs(GroupPart(View(cf), gp), start, upper);
      RangeUnique(Relative(full, n), RangeOf(GroupPart(View(cf), gp), start, upper), GroupPart(View(cf), gp), start, upper);
      VisitsRelative(inner, full, n, keep);
      seen := Relative(inner, n);
    }

    /** The whole batch reaches the database at once; before that nothing does. */
    method Commit() returns (wrote: bool)
      requires Valid()
      modifies db
      ensures wrote == (batch != [])
      ensures forall cf :: Family(db.cfs, cf) == old(View(cf))
    {
      forall cf ensures Family(WriteBatch(db.cfs, batch), cf) == View(cf) { BatchIsOverlay(db.cfs, batch, cf); }
      if !dirty { return false; }
      hide WriteBatch, Overlaid;
      db.cfs := WriteBatch(db.cfs, batch);
      return true;
    }
  }

  lemma PutOver(base: Committed, ov: Overlay, key: Key, value: Key)
    ensures Overlaid(base, ov[key := Some(value)]) == Overlaid(base, ov)[key := value]
  {
  }

  lemma DeleteOver(base: Committed, ov: Overlay, key: Key)
    ensures Overlaid(base, ov[key := None]) == Overlaid(base, ov) - {key}
  {
  }

  // --- group-relative scans ---

  /** The visitor's answer on a list of full keys, or stop if one is outside the group. */
  predicate Trimmed(es: Entries, n: nat, keep: Entries -> bool) { (forall e :: e in es ==> n <= |e.0|) && keep(Relative(es, n)) }

  function UpperIn(prefix: Key, upper: Option<Key>): (r: Option<Key>) {
    if upper.Some? then Some(prefix + upper.value) else UpperOf(prefix)
  }

  function StartIn(prefix: Key, start: Option<Key>): (r: Key) { prefix + (if start.Some? then start.value else []) }

  lemma BoundsOrdered(prefix: Key, start: Option<Key>, upper: Option<Key>)
    requires start.Some? && upper.Some? ==> !KeyBefore(upper.value, start.value)
    ensures var to := UpperIn(prefix, upper); to.Some? ==> !KeyBefore(to.value, StartIn(prefix, start))
  {
    KeyBeforeTotal();
    if upper.Some? {
      LexNil(upper.value);
      SamePrefix(prefix, upper.value, if start.Some? then start.value else []);
    } else if UpperOf(prefix).Some? {
      UpperOfIs(prefix, StartIn(prefix, start));
      assert prefix <= StartIn(prefix, start);
    }
  }

  /** A key is in the scoped range exactly when it is the group's and its rest is in the relative range. */
  lemma ScopedRange(prefix: Key, start: Option<Key>, upper: Option<Key>, f: Key)
    ensures InRange(f, Some(StartIn(prefix, start)), UpperIn(prefix, upper)) <==>
            prefix <= f && InRange(f[|prefix|..], start, upper)
  {
    KeyBeforeTotal();
    UpperOfIs(prefix, f);
    var s := StartIn(prefix, start);
    assert prefix <= s;
    if prefix <= f {
      var rest := f[|prefix|..];
      assert f == prefix + rest;
      SamePrefix(prefix, rest, if start.Some? then start.value else []);
      LexNil(rest);
      if upper.Some? { SamePrefix(prefix, rest, upper.value); }
    } else if InRange(f, Some(s), UpperIn(prefix, upper)) {
      if upper.Some? { PrefixConvex(prefix, s, f, prefix + upper.value); }
      else { PrefixFirst(prefix, s); }
      assert false;
    }
  }

  lemma GroupRange(m: Committed, prefix: Key, start: Option<Key>, upper: Option<Key>, full: Entries)
    requires IsRangeOf(full, m, Some(StartIn(prefix, start)), UpperIn(prefix, upper))
    ensures forall e :: e in full ==> prefix <= e.0
    ensures (forall e :: e in full ==> |prefix| <= |e.0|) && IsRangeOf(Relative(full, |prefix|), GroupPart(m, prefix), start, upper)
  {
    hide KeyBefore, InRange, GroupPart, UpperIn, StartIn;
    var n := |prefix|;
    forall e | e in full ensures prefix <= e.0 && n <= |e.0| {
      assert (e.0, e.1) in full;
      ScopedRange(prefix, start, upper, e.0);
    }
    var es := Relative(full, n);
    forall i, j | 0 <= i < j < |es| ensures KeyBefore(es[i].0, es[j].0) {
      assert full[i] in full && full[j] in full;
      assert full[i].0 == prefix + es[i].0 && full[j].0 == prefix + es[j].0;
      SamePrefix(prefix, es[i].0, es[j].0);
    }
    forall k, v ensures (k, v) in es <==> Lookup(GroupPart(m, prefix), k) == Some(v) && InRange(k, start, upper) {
      GroupPartAt(m, prefix, k);
      ScopedRange(prefix, start, upper, prefix + k);
      assert (prefix + k)[n..] == k;
      RelativeHas(full, prefix, k, v);
    }
  }

  lemma RelativeHas(full: Entries, prefix: Key, k: Key, v: Key)
    requires forall e :: e in full ==> prefix <= e.0
    ensures (forall e :: e in full ==> |prefix| <= |e.0|) && ((k, v) in Relative(full, |prefix|) <==> (prefix + k, v) in full)
  {
    var es := Relative(full, |prefix|);
    if (k, v) in es {
      var i :| 0 <= i < |es| && es[i] == (k, v);
      assert full[i] in full;
      assert full[i].0 == prefix + full[i].0[|prefix|..];
    }
    if (prefix + k, v) in full {
      var i :| 0 <= i < |full| && full[i] == (prefix + k, v);
      assert (prefix + k)[|prefix|..] == k;
      assert es[i] == (k, v);
    }
  }

  lemma VisitsRelative(inner: Entries, full: Entries, n: nat, keep: Entries -> bool)
    requires (forall e :: e in full ==> n <= |e.0|) && Visits(inner, full, es => Trimmed(es, n, keep))
    ensures (forall e :: e in inner ==> n <= |e.0|) && Visits(Relative(inner, n), Relative(full, n), keep)
  {
    assert forall i :: 0 <= i < |inner| ==> inner[i] == full[i] && full[i] in full;
    var seen := Relative(inner, n);
    forall i | 0 < i < |seen| ensures keep(seen[..i]) {
      assert Trimmed(inner[..i], n, keep);
      assert Relative(inner[..i], n) == seen[..i];
    }
  }

  // --- set members, page by page ---

  /** The entries whose record has not expired. */
  function Living(es: Entries, live: Key -> bool): (r: Entries)
    ensures forall e :: e in r <==> e in es && live(e.1)
  {
    if es == [] then [] else (if live(es[0].1) then [es[0]] else []) + Living(es[1..], live)
  }

  /** Members from a cursor: a page counts every record, returns the unexpired ones, and the next one starts at the first record not counted. */
  method MembersPage(db: Committed, ov: Overlay, prefix: Key, cursor: Option<Key>, page: nat, live: Key -> bool)
    returns (members: Entries, next: Option<Key>)
    requires cursor.Some? ==> prefix <= cursor.value
    ensures var all := RangeOf(Overlaid(db, ov), Some(if cursor.Some? then cursor.value else prefix), UpperOf(prefix));
            if |all| <= page then members == Living(all, live) && next == None
            else members == Living(all[..page], live) && next == Some(all[page].0)
  {
    hide KeyBefore, RangeOf, Overlaid, Living;
    var start := if cursor.Some? then cursor.value else prefix;
    var upper := PrefixUpperBound(prefix);
    PageBounds(prefix, start);
    var seen := ScanWithOverlay(db, ov, Some(start), upper, es => |es| <= page);
    if |seen| <= page { return Living(seen, live), None; }
    if |seen| > 1 { assert |seen[..|seen| - 1]| <= page; }
    assert seen[..page] == RangeOf(Overlaid(db, ov), Some(start), upper)[..page];
    return Living(seen[..page], live), Some(seen[page].0);
  }

  lemma PageBounds(prefix: Key, start: Key)
    requires prefix <= start
    ensures UpperOf(prefix).Some? ==> !KeyBefore(UpperOf(prefix).value, start)
  {
    KeyBeforeTotal();
    UpperOfIs(prefix, start);
  }
}

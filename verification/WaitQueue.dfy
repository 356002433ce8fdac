/**
 The wait queue in its own form: entries, indexes and counters updated in place,
 admission through the path indexes, and the grant sweep's loop.
 */
module WaitQueue {
  import opened Ordering
  import opened Paths
  import opened Expiry
  import opened LockSpec
  import opened LockInvariant
  import opened Engine
  import opened QueueSpec
  import opened QueueProof
  import opened SweepProof
  import opened Reserved

  // --- path index records ---

  function KeysOf(ps: seq<(string, Mode)>, s: nat): (r: set<(string, nat)>) { set p | p in ps :: (p.0, s) }

  function SlotsOf(ks: set<(string, nat)>, at: Time): (r: set<Slot>) { set k | k in ks :: Slot(at, PathRef(k.0, k.1)) }

  function WithRecords(m: map<(string, nat), Time>, ks: set<(string, nat)>, exp: Time): (r: map<(string, nat), Time>) {
    m + (map k | k in ks :: exp)
  }

  lemma WithRecordsMore(m: map<(string, nat), Time>, ks: set<(string, nat)>, k: (string, nat), exp: Time)
    ensures WithRecords(m, ks + {k}, exp) == WithRecords(m, ks, exp)[k := exp]
  {
  }

  lemma SlotsMore(ks: set<(string, nat)>, k: (string, nat), slot: Time)
    ensures SlotsOf(ks + {k}, slot) == SlotsOf(ks, slot) + {Slot(slot, PathRef(k.0, k.1))}
  {
  }

  /** The queue with index records for the given path keys. */
  function Linking(q: Queue, ks: set<(string, nat)>, exp: Time, slot: Time): (r: Queue) {
    q.(paths := WithRecords(q.paths, ks, exp), slots := q.slots + SlotsOf(ks, slot))
  }

  lemma LinkingMore(q: Queue, ks: set<(string, nat)>, k: (string, nat), exp: Time, slot: Time)
    ensures var r := Linking(q, ks, exp, slot);
            Linking(q, ks + {k}, exp, slot) == r.(paths := r.paths[k := exp], slots := r.slots + {Slot(slot, PathRef(k.0, k.1))})
  {
    hide WithRecords, SlotsOf;
    WithRecordsMore(q.paths, ks, k, exp);
    SlotsMore(ks, k, slot);
    assert q.slots + (SlotsOf(ks, slot) + {Slot(slot, PathRef(k.0, k.1))}) == q.slots + SlotsOf(ks, slot) + {Slot(slot, PathRef(k.0, k.1))};
  }

  lemma LinkingNone(q: Queue, ps: seq<(string, Mode)>, s: nat, exp: Time, slot: Time)
    ensures Linking(q, KeysOf(ps[..0], s), exp, slot) == q
  {
    assert KeysOf(ps[..0], s) == {};
    assert SlotsOf({}, slot) == {};
  }

  lemma StoreLinks(q: Queue, now: Time, e: Entry)
    ensures var exp := ExpiryAt(now, EntryTtl(e.args));
            var slot := QuantizedIndexExpiry(now, exp);
            StoreEntry(q, now, e) ==
            Linking(q.(entries := q.entries[e.seqno := (e, exp)], owners := q.owners[e.owner := (e.seqno, exp)],
                       slots := q.slots + {Slot(slot, EntryRef(e.seqno)), Slot(slot, OwnerRef(e.owner))}), PathKeys(e), exp, slot)
  {
    hide PathKeys, QuantizedIndexExpiry, ExpiryAt, EntryTtl;
    var slot := QuantizedIndexExpiry(now, ExpiryAt(now, EntryTtl(e.args)));
    assert SlotsOf(PathKeys(e), slot) == set k | k in PathKeys(e) :: Slot(slot, PathRef(k.0, k.1));
  }

  lemma OneMoreKey(ps: seq<(string, Mode)>, s: nat, i: nat)
    requires i < |ps|
    ensures KeysOf(ps[..i + 1], s) == KeysOf(ps[..i], s) + {(ps[i].0, s)}
  {
    assert ps[..i + 1] == ps[..i] + [ps[i]];
  }

  // --- candidate collection never hits the scan limit ---

  lemma {:induction false} KeysWithinUnits(m: map<nat, (Entry, Time)>, ks: set<(string, nat)>)
    requires forall s :: s in m ==> m[s].0.seqno == s
    requires forall k :: k in ks ==> k.1 in m && k in PathKeys(m[k.1].0)
    ensures |ks| <= UnitSum(m)
    decreases |m|
  {
    hide PathKeys, QueueUnits, LeastKey;
    if m == map[] {
      assert ks == {};
    } else {
      var low := LeastKey(m);
      var here := set k | k in ks && k.1 == low;
      var rest := ks - here;
      KeysWithinUnits(m - {low}, rest);
      assert ks == here + rest;
      assert here <= PathKeys(m[low].0);
      SubsetSize(here, PathKeys(m[low].0));
      PathKeysSize(m[low].0);
    }
  }

  lemma {:induction false} KeysSize(ps: seq<(string, Mode)>, s: nat)
    ensures |KeysOf(ps, s)| <= |ps|
  {
    if ps != [] {
      var n := |ps| - 1;
      KeysSize(ps[..n], s);
      OneMoreKey(ps, s, n);
      assert ps[..n + 1] == ps;
    }
  }

  lemma {:induction false} NewPathsLength(a: string, b: string, reqs: seq<LockReq>)
    ensures |NewPaths(a, reqs)| == |NewPaths(b, reqs)|
  {
    if reqs != [] { NewPathsLength(a, b, reqs[1..]); }
  }

  lemma PathKeysSize(e: Entry)
    ensures |PathKeys(e)| <= QueueUnits(e.args)
  {
    KeysSize(NewPaths(e.ns, e.args.requests), e.seqno);
    NewPathsLength(e.ns, "", e.args.requests);
    assert PathKeys(e) == KeysOf(NewPaths(e.ns, e.args.requests), e.seqno);
  }

  lemma PathRecordsBounded(q: Queue, now: Time, pol: Policies)
    requires QueueGood(q, now, pol)
    ensures |q.paths| <= QUEUE_SCAN_LIMIT
  {
    hide UnitSum, PathKeys, Indexed, OwnersPoint, QueueFiled, Current;
    KeysWithinUnits(q.entries, q.paths.Keys);
  }

  // --- admission ---

  /** The first blocker of a scan, one sequence number at a time. */
  lemma BlockerStep(q: Queue, now: Time, seqs: seq<nat>, owner: string, mine: Option<nat>, ws: seq<Want>)
    requires seqs != []
    ensures FirstBlocker(LiveOf(q, now, seqs), owner, mine, ws) ==
            (if Live(q, now, seqs[0]) && Before(q.entries[seqs[0]].0, owner, mine)
                && FirstConflict(EntryWants(q.entries[seqs[0]].0), ws).Some?
             then Some((q.entries[seqs[0]].0, FirstConflict(EntryWants(q.entries[seqs[0]].0), ws).value))
             else FirstBlocker(LiveOf(q, now, seqs[1..]), owner, mine, ws))
  {
    hide AnyConflict, EntryWants, FirstConflict;
    var tail := LiveOf(q, now, seqs[1..]);
    if Live(q, now, seqs[0]) {
      assert LiveOf(q, now, seqs) == [q.entries[seqs[0]].0] + tail;
      assert LiveOf(q, now, seqs)[1..] == tail;
    } else {
      assert LiveOf(q, now, seqs) == tail;
    }
  }

  /** Waiters outside the candidates never block, so the candidate walk finds the same first blocker. */
  lemma {:induction false} CandidatesSuffice(
    q: Queue, now: Time, all: seq<nat>, some: seq<nat>, owner: string, mine: Option<nat>, ws: seq<Want>)
    requires Ascending(all, NatLess) && Ascending(some, NatLess)
    requires forall s :: s in some && s in q.entries ==> s in all
    requires forall s :: s in all && s !in some && Live(q, now, s) ==> !AnyConflict(EntryWants(q.entries[s].0), ws)
    ensures FirstBlocker(LiveOf(q, now, all), owner, mine, ws) == FirstBlocker(LiveOf(q, now, some), owner, mine, ws)
    decreases |all| + |some|
  {
    hide AnyConflict, EntryWants, FirstConflict, LiveOf, FirstBlocker;
    if some != [] { BlockerStep(q, now, some, owner, mine, ws); }
    if all != [] { BlockerStep(q, now, all, owner, mine, ws); }
    if some == [] && all == [] {
    } else if some != [] && (all == [] || some[0] < all[0]) {
      assert some[0] in some;
      assert forall s :: s in some[1..] ==> s in some;
      if all != [] { NotBelow(all, some[0]); }
      CandidatesSuffice(q, now, all, some[1..], owner, mine, ws);
    } else {
      var a := all[0];
      assert forall s :: s in all <==> s == a || s in all[1..];
      if some != [] && some[0] == a {
        assert forall s :: s in some <==> s == a || s in some[1..];
        assert forall s :: s in all[1..] ==> NatLess(a, s);
        assert forall s :: s in some[1..] ==> NatLess(a, s);
        CandidatesSuffice(q, now, all[1..], some[1..], owner, mine, ws);
      } else {
        if some != [] { NotBelow(some, a); }
        if Live(q, now, a) { FirstConflictIff(EntryWants(q.entries[a].0), ws); }
        CandidatesSuffice(q, now, all[1..], some, owner, mine, ws);
      }
    }
  }

  lemma NotBelow(some: seq<nat>, a: nat)
    requires some != [] && Ascending(some, NatLess) && a < some[0]
    ensures a !in some
  {
    forall i | 0 <= i < |some| ensures some[i] != a { if i > 0 { assert NatLess(some[0], some[i]); } }
  }

  // --- candidate waiters ---

  predicate KeyLess(a: (string, nat), b: (string, nat)) { StrLess(a.0, b.0) || (a.0 == b.0 && a.1 < b.1) }

  lemma KeyLessTotal()
    ensures StrictTotal(KeyLess)
  {
    StrLessTotal();
    forall a, b: (string, nat) | a != b ensures KeyLess(a, b) || KeyLess(b, a) { assert a.0 != b.0 || a.1 != b.1; }
    forall a, b, c | KeyLess(a, b) && KeyLess(b, c) ensures KeyLess(a, c) { }
  }

  /** Stored path records in key order. */
  function SortedKeys(ks: set<(string, nat)>): (r: seq<(string, nat)>)
    ensures forall x :: x in r <==> x in ks
    ensures |r| == |ks|
  {
    KeyLessTotal();
    Sorted(ks, KeyLess)
  }

  /** Sequence numbers of the live records among the given ones. */
  function LiveSeqs(q: Queue, now: Time, ks: set<(string, nat)>): (r: set<nat>) {
    set k | k in ks && k in q.paths && !Expired(q.paths[k], now) :: k.1
  }

  ghost function First(ks: seq<(string, nat)>, i: nat): set<(string, nat)>
    requires i <= |ks|
  {
    set k | k in ks[..i]
  }

  lemma LiveSeqsNone(q: Queue, now: Time, all: seq<(string, nat)>)
    ensures LiveSeqs(q, now, First(all, 0)) == {}
  {
  }

  lemma LiveSeqsMore(q: Queue, now: Time, all: seq<(string, nat)>, i: nat)
    requires i < |all| && all[i] in q.paths
    ensures LiveSeqs(q, now, First(all, i + 1)) ==
            LiveSeqs(q, now, First(all, i)) + (if Expired(q.paths[all[i]], now) then {} else {all[i].1})
  {
    assert all[..i + 1] == all[..i] + [all[i]];
    assert First(all, i + 1) == First(all, i) + {all[i]};
  }

  lemma FirstAll(all: seq<(string, nat)>, ks: set<(string, nat)>)
    requires forall k :: k in all <==> k in ks
    ensures First(all, |all|) == ks
  {
    assert all[..|all|] == all;
  }

  function RecordsAt(q: Queue, path: string): (r: set<(string, nat)>) { set k | k in q.paths && k.0 == path }

  function RecordsUnder(q: Queue, prefix: string): (r: set<(string, nat)>) { set k | k in q.paths && prefix <= k.0 }

  /** Where a waiter that conflicts with a want can have a path. */
  predicate Near(w: Want, path: string) {
    || path == w.path
    || path in GetAncestors(w.path)
    || (w.mode == Write && w.alg.Recursive() && DescendantPrefix(w.path) <= path)
  }

  lemma ConflictNear(x: Want, w: Want)
    requires WantsConflict(x, w)
    ensures Near(w, x.path)
  {
    assert WantsConflict(w, x) by {
      if IsStrictAncestor(x.path, w.path) { AncestorShape(x.path, w.path); }
      if IsStrictAncestor(w.path, x.path) { AncestorShape(w.path, x.path); }
    }
    ConflictWhere(w, x);
  }

  /** A live waiter that conflicts is found through the index of one of the contended paths. */
  lemma ConflictIsCandidate(q: Queue, now: Time, s: nat, ws: seq<Want>, seqs: set<nat>)
    requires Numbered(q) && Indexed(q, now) && Live(q, now, s) && AnyConflict(EntryWants(q.entries[s].0), ws)
    requires forall w, k :: w in ws && k in q.paths && Near(w, k.0) && !Expired(q.paths[k], now) ==> k.1 in seqs
    ensures s in seqs
  {
    hide WantsConflict, Near, GetAncestors, DescendantPrefix, NewPaths;
    var e := q.entries[s].0;
    var x, w :| x in EntryWants(e) && w in ws && WantsConflict(x, w);
    ConflictNear(x, w);
    var ps := NewPaths(e.ns, e.args.requests);
    var i :| 0 <= i < |ps| && EntryWants(e)[i] == x;
    assert ps[i] in ps;
    assert (x.path, s) in PathKeys(e);
  }

  lemma CandidatesCover(q: Queue, now: Time, pol: Policies, owner: string, ws: seq<Want>, seqs: set<nat>)
    requires QueueGood(q, now, pol)
    requires forall w, k :: w in ws && k in q.paths && Near(w, k.0) && !Expired(q.paths[k], now) ==> k.1 in seqs
    requires forall s :: s in seqs ==> s in q.entries
    ensures FirstBlocker(LiveEntries(q, now), owner, OwnerSeq(q, now, owner), ws) ==
            FirstBlocker(LiveOf(q, now, SortedNats(seqs)), owner, OwnerSeq(q, now, owner), ws)
  {
    hide Near, AnyConflict, EntryWants, FirstBlocker, LiveOf, PathKeys, UnitSum, Indexed, OwnersPoint, NoOrphans, QueueFiled, Current;
    var all, some := SortedNats(q.entries.Keys), SortedNats(seqs);
    forall s | s in all && s !in some && Live(q, now, s) ensures !AnyConflict(EntryWants(q.entries[s].0), ws) {
      if AnyConflict(EntryWants(q.entries[s].0), ws) { ConflictIsCandidate(q, now, s, ws, seqs); }
    }
    CandidatesSuffice(q, now, all, some, owner, OwnerSeq(q, now, owner), ws);
  }

  // --- units ---

  /** The entries of the listed sequence numbers. */
  ghost function Listed(m: map<nat, (Entry, Time)>, seqs: seq<nat>): map<nat, (Entry, Time)> { map s | s in m && s in seqs :: m[s] }

  lemma UnitsListed(m: map<nat, (Entry, Time)>, seqs: seq<nat>)
    requires seqs != [] && seqs[0] in m && Ascending(seqs, NatLess)
    ensures UnitSum(Listed(m, seqs)) == QueueUnits(m[seqs[0]].0.args) + UnitSum(Listed(m, seqs[1..]))
  {
    hide UnitSum, QueueUnits;
    UnitsWithout(Listed(m, seqs), seqs[0]);
    assert forall x :: x in seqs[1..] ==> NatLess(seqs[0], x);
    assert Listed(m, seqs) - {seqs[0]} == Listed(m, seqs[1..]);
  }

  lemma ListedAll(m: map<nat, (Entry, Time)>)
    ensures var all := SortedNats(m.Keys); Listed(m, all[0..]) == m
  {
    assert forall s :: s in m ==> s in SortedNats(m.Keys);
    assert SortedNats(m.Keys)[0..] == SortedNats(m.Keys);
  }

  lemma ListedNone(m: map<nat, (Entry, Time)>)
    ensures UnitSum(Listed(m, [])) == 0
  {
    assert Listed(m, []) == map[];
  }

  class QueueTxn {
    var q: Queue
    const now: Time

    constructor (q: Queue, now: Time)
      ensures this.q == q && this.now == now
    {
      this.q := q;
      this.now := now;
    }

    // --- the unit counter ---

    method SumUnits() returns (n: nat)
      ensures n == UnitSum(q.entries)
    {
      hide UnitSum, QueueUnits, Listed;
      var m := q.entries;
      var all := SortedNats(m.Keys);
      assert Listed(m, all[0..]) == m by { ListedAll(m); }
      n := 0;
      for i := 0 to |all|
        invariant n + UnitSum(Listed(m, all[i..])) == UnitSum(m)
      {
        assert all[i] in all;
        UnitsListed(m, all[i..]);
        assert all[i..][1..] == all[i + 1..];
        n := n + QueueUnits(m[all[i]].0.args);
      }
      ListedNone(m);
    }

    /** The stored counter, or the sum of all stored units when it was never written. */
    method CountUnits() returns (n: nat)
      modifies this
      ensures n == QueueCount(old(q)) && q == old(q).(count := Some(n))
    {
      hide UnitSum;
      if q.count.Some? { return q.count.value; }
      n := SumUnits();
      q := q.(count := Some(n));
    }

    method ReleaseUnits(units: nat)
      modifies this
      ensures q == DropUnits(old(q), units)
    {
      hide QueueCount;
      var n := CountUnits();
      q := q.(count := Some(SaturatingSub(n, units)));
    }

    // --- path indexes ---

    method DeletePathIndexes(e: Entry)
      modifies this
      ensures q == DeletePaths(old(q), e)
    {
      hide NewPaths;
      var ps := NewPaths(e.ns, e.args.requests);
      for i := 0 to |ps|
        invariant q == old(q).(paths := old(q).paths - KeysOf(ps[..i], e.seqno))
      {
        OneMoreKey(ps, e.seqno, i);
        q := q.(paths := q.paths - {(ps[i].0, e.seqno)});
      }
      assert ps[..|ps|] == ps && KeysOf(ps, e.seqno) == PathKeys(e);
    }

    method WritePathIndexes(e: Entry, exp: Time, slot: Time)
      modifies this
      ensures q == Linking(old(q), PathKeys(e), exp, slot)
    {
      hide NewPaths, PathKeys, KeysOf;
      var ps := NewPaths(e.ns, e.args.requests);
      LinkingNone(q, ps, e.seqno, exp, slot);
      for i := 0 to |ps|
        invariant q == Linking(old(q), KeysOf(ps[..i], e.seqno), exp, slot)
      {
        OneMoreKey(ps, e.seqno, i);
        LinkingMore(old(q), KeysOf(ps[..i], e.seqno), (ps[i].0, e.seqno), exp, slot);
        hide Linking;
        q := q.(paths := q.paths[(ps[i].0, e.seqno) := exp], slots := q.slots + {Slot(slot, PathRef(ps[i].0, e.seqno))});
      }
      PathKeysDef(e);
      assert ps[..|ps|] == ps;
    }

    // --- enqueue, dequeue, expire ---

    /** Deletes a stored entry whatever its age, with its records; false: nothing stored. */
    method ExpireStored(s: nat) returns (gone: bool)
      modifies this
      ensures (gone, q) == ExpireEntry(old(q), now, s)
    {
      hide PathKeys, QueueUnits, UnitSum;
      if s !in q.entries { return false; }
      var e := q.entries[s].0;
      DeletePathIndexes(e);
      if OwnerSeq(q, now, e.owner) == Some(s) { q := q.(owners := q.owners - {e.owner}); }
      ReleaseUnits(QueueUnits(e.args));
      q := q.(entries := q.entries - {s});
      return true;
    }

    method DequeueOwner(owner: string)
      modifies this
      ensures q == Dequeue(old(q), now, owner)
    {
      hide PathKeys, QueueUnits, UnitSum;
      var s := OwnerSeq(q, now, owner);
      if s.Some? {
        var e := ReadEntry(q, now, s.value);
        if e.Some? { DeletePathIndexes(e.value); }
        if s.value in q.entries { ReleaseUnits(QueueUnits(q.entries[s.value].0.args)); }
        q := q.(entries := q.entries - {s.value});
      }
      q := q.(owners := q.owners - {owner});
      assert s.Some? && s.value !in old(q).entries ==> old(q).entries - {s.value} == old(q).entries;
    }

    method ReserveUnits(oldUnits: nat, newUnits: nat) returns (ok: bool)
      modifies this
      ensures var next := SaturatingSub(QueueCount(old(q)), oldUnits) + newUnits;
              ok == (next <= QUEUE_SCAN_LIMIT) && q == old(q).(count := Some(if ok then next else QueueCount(old(q))))
    {
      hide QueueCount;
      var n := CountUnits();
      var next := SaturatingSub(n, oldUnits) + newUnits;
      if next > QUEUE_SCAN_LIMIT { return false; }
      q := q.(count := Some(next));
      return true;
    }

    /** Parks an acquire. None: full; the owner's earlier place is gone and the units are counted. */
    method EnqueueEntry(ns: string, args: AcquireArgs, policy: LockPolicy) returns (r: Option<nat>)
      modifies this
      ensures match Enqueue(old(q), now, ns, args, policy)
              case Some((s, q1)) => r == Some(s) && q == q1
              case None => r == None && var q1 := Supersede(old(q), now, ns, args, policy).2; q == q1.(count := Some(QueueCount(q1)))
    {
      hide PathKeys, QueueUnits, UnitSum, ExpireEntry, Supersede, StoreEntry, Linking;
      var oldUnits, s := SupersedeOld(ns, args, policy);
      var ok := ReserveUnits(oldUnits, QueueUnits(args));
      if !ok { return None; }
      var e := Entry(s, args.owner, ns, args, policy);
      var exp := ExpiryAt(now, EntryTtl(args));
      var slot := QuantizedIndexExpiry(now, exp);
      StoreLinks(q, now, e);
      q := q.(entries := q.entries[s := (e, exp)], owners := q.owners[args.owner := (s, exp)],
              slots := q.slots + {Slot(slot, EntryRef(s)), Slot(slot, OwnerRef(args.owner))});
      WritePathIndexes(e, exp, slot);
      return Some(s);
    }

    method SupersedeOld(ns: string, args: AcquireArgs, policy: LockPolicy) returns (oldUnits: nat, s: nat)
      modifies this
      ensures (oldUnits, s, q) == Supersede(old(q), now, ns, args, policy)
    {
      hide PathKeys, QueueUnits, UnitSum, ExpireEntry;
      oldUnits := 0;
      var mine := OwnerSeq(q, now, args.owner);
      if mine.Some? {
        var e := ReadEntry(q, now, mine.value);
        if e.Some? {
          oldUnits := QueueUnits(e.value.args);
          DeletePathIndexes(e.value);
          if e.value.ns == ns && e.value.args == args && e.value.policy == policy { return oldUnits, mine.value; }
          q := q.(entries := q.entries - {mine.value}, owners := q.owners - {args.owner});
        } else {
          LastSeqKept(q, now, mine.value);
          var _ := ExpireStored(mine.value);
          q := q.(owners := q.owners - {args.owner});
        }
      }
      s := q.lastSeq + 1;
      q := q.(lastSeq := s);
    }

    // --- scans ---

    /** Live waiters in FIFO order, stopping at the cap on raw records. */
    method ScanLive() returns (es: seq<Entry>)
      ensures es == Scan(q, now)
    {
      hide ReadEntry, LiveOf, SortedNats;
      var all := SortedNats(q.entries.Keys);
      var raw := 0;
      es := [];
      LiveOfNone(q, now);
      while raw < |all| && raw < QUEUE_SCAN_LIMIT
        invariant raw <= |all| && raw <= QUEUE_SCAN_LIMIT
        invariant es == LiveOf(q, now, all[..raw])
      {
        LiveOfSnoc(q, now, all[..raw], all[raw]);
        assert all[..raw + 1] == all[..raw] + [all[raw]];
        var e := ReadEntry(q, now, all[raw]);
        if e.Some? { es := es + [e.value]; }
        raw := raw + 1;
      }
      ScanTake(q, now, raw);
    }

    /** Adds the live records' sequence numbers. None: over the scan limit. */
    method CollectRange(ks: set<(string, nat)>, into: set<nat>) returns (r: Option<set<nat>>)
      requires ks <= q.paths.Keys
      ensures if |ks| <= QUEUE_SCAN_LIMIT then r == Some(into + LiveSeqs(q, now, ks)) else r == None
    {
      hide LiveSeqs, First, SortedKeys, Expired;
      var all := SortedKeys(ks);
      var out := into;
      LiveSeqsNone(q, now, all);
      for i := 0 to |all|
        invariant i <= QUEUE_SCAN_LIMIT
        invariant out == into + LiveSeqs(q, now, First(all, i))
      {
        if i >= QUEUE_SCAN_LIMIT { return None; }
        LiveSeqsMore(q, now, all, i);
        assert all[i] in all;
        if !Expired(q.paths[all[i]], now) { out := out + {all[i].1}; }
      }
      FirstAll(all, ks);
      return Some(out);
    }

    /** The waiters indexed at a path, at its ancestors and, when asked, under it. */
    method CollectAround(path: string, under: bool, into: set<nat>) returns (seqs: set<nat>)
      requires |q.paths| <= QUEUE_SCAN_LIMIT
      ensures forall s :: s in seqs <==>
                s in into || exists k :: k in q.paths && k.1 == s && !Expired(q.paths[k], now)
                                         && (k.0 == path || k.0 in GetAncestors(path) || (under && DescendantPrefix(path) <= k.0))
    {
      hide GetAncestors, DescendantPrefix;
      RecordsFit(q);
      var r := CollectRange(RecordsAt(q, path), into);
      seqs := r.value;
      var ancs := CollectAncestors(path);
      for i := 0 to |ancs|
        invariant forall s :: s in seqs <==>
                    s in into || exists k :: k in q.paths && k.1 == s && !Expired(q.paths[k], now) && (k.0 == path || k.0 in ancs[..i])
      {
        assert ancs[..i + 1] == ancs[..i] + [ancs[i]];
        r := CollectRange(RecordsAt(q, ancs[i]), seqs);
        seqs := r.value;
      }
      assert ancs[..|ancs|] == ancs;
      if under {
        r := CollectRange(RecordsUnder(q, DescendantPrefix(path)), seqs);
        seqs := r.value;
      }
    }

    // --- admission ---

    /** The indexed admission check finds exactly the blocker the brute scan over all waiters finds. */
    method BlockedByEarlierIndexed(t: Tables, ns: string, args: AcquireArgs, alg: LockAlgorithm, ghost pol: Policies)
      returns (r: Option<(Entry, string)>)
      requires QueueGood(q, now, pol)
      ensures r == BlockedByEarlier(t, q, now, ns, args, alg)
    {
      hide Near, FirstBlocker, LiveOf, LiveEntries, QueueGood, EntryWants, HoldsOrCovers, WantsOf, NewPaths, FirstConflict, OwnerSeq;
      PathRecordsBounded(q, now, pol);
      var ws := WantsOf(NewPaths(ns, args.requests), alg);
      var mine, seqs := [], {};
      for i := 0 to |ws|
        invariant mine == Contending(t, args.owner, ws[..i])
        invariant forall w, k :: w in mine && k in q.paths && Near(w, k.0) && !Expired(q.paths[k], now) ==> k.1 in seqs
        invariant forall s :: s in seqs ==> exists k :: k in q.paths && k.1 == s
      {
        assert ws[..i + 1] == ws[..i] + [ws[i]];
        ContendingSnoc(t, args.owner, ws[..i], ws[i]);
        if !HoldsOrCovers(t, args.owner, ws[i]) {
          seqs := CollectNear(ws[i], seqs);
          mine := mine + [ws[i]];
        }
      }
      assert ws[..|ws|] == ws;
      RecordsStored(q, now, pol, seqs);
      CandidatesCover(q, now, pol, args.owner, mine, seqs);
      r := FindBlocker(SortedNats(seqs), args.owner, OwnerSeq(q, now, args.owner), mine);
    }

    method CollectNear(w: Want, into: set<nat>) returns (seqs: set<nat>)
      requires |q.paths| <= QUEUE_SCAN_LIMIT
      ensures forall s :: s in seqs <==>
                s in into || exists k :: k in q.paths && k.1 == s && !Expired(q.paths[k], now) && Near(w, k.0)
    {
      hide GetAncestors, DescendantPrefix;
      seqs := CollectAround(w.path, w.mode == Write && w.alg.Recursive(), into);
    }

    method FindBlocker(seqs: seq<nat>, owner: string, mine: Option<nat>, ws: seq<Want>) returns (r: Option<(Entry, string)>)
      ensures r == FirstBlocker(LiveOf(q, now, seqs), owner, mine, ws)
    {
      hide LiveOf, FirstBlocker, EntryWants, FirstConflict;
      assert seqs[0..] == seqs;
      for i := 0 to |seqs|
        invariant FirstBlocker(LiveOf(q, now, seqs), owner, mine, ws) == FirstBlocker(LiveOf(q, now, seqs[i..]), owner, mine, ws)
      {
        BlockerStep(q, now, seqs[i..], owner, mine, ws);
        assert seqs[i..][1..] == seqs[i + 1..];
        var e := ReadEntry(q, now, seqs[i]);
        if e.Some? && Before(e.value, owner, mine) {
          var hit := FirstConflict(EntryWants(e.value), ws);
          if hit.Some? { return Some((e.value, hit.value)); }
        }
      }
      NoBlockerLeft(q, now, owner, mine, ws);
      return None;
    }

    // --- grant sweeps ---

    /** The sweep's loop: grants, wakes, drops and reservations exactly as specified. */
    method RunGrantSweep(txn: LockTxn, es: seq<Entry>, ghost pol: Policies) returns (notify: seq<string>)
      requires Good(txn.t, pol) && InForceAll(es, pol) && txn.now == now
      modifies this, txn
      ensures var r := RunSweep(old(txn.t), old(q), now, es, []); notify == r.notify && txn.t == r.t && q == r.q
    {
      hide Good, RunSweep, EntryWants, Acquire, Dequeue, NoSep, WantsConflict;
      notify := [];
      var reserved := new ReservedPaths();
      ghost var res: seq<Want> := [];
      ghost var spec := RunSweep(txn.t, q, now, es, []);
      assert es[0..] == es;
      for i := 0 to |es|
        invariant Good(txn.t, pol) && fresh(reserved)
        invariant forall w :: reserved.Contains(w) <==> w in res
        invariant var r := RunSweep(txn.t, q, now, es[i..], res); spec.notify == notify + r.notify && spec.t == r.t && spec.q == r.q
      {
        var e := es[i];
        assert es[i..][0] == e && es[i..][1..] == es[i + 1..];
        assert e in es && Lawful(e, pol);
        SweepStep(txn.t, q, now, es[i..], res);
        var blocked := reserved.Conflicts(EntryWants(e));
        assert blocked == AnyConflict(EntryWants(e), res);
        var v := Wait;
        if !blocked {
          var o := txn.AcquireInNamespace(e.ns, e.policy.algorithm, e.args, pol);
          v := Judge(o);
        }
        if v.Leaves() {
          DequeueOwner(e.owner);
        } else {
          reserved.Insert(EntryWants(e));
          res := res + EntryWants(e);
        }
        if v.Notifies() { notify := notify + [e.owner]; }
      }
      EmptySweep(txn.t, q, now, res);
    }

    method SweepAll(txn: LockTxn, ghost pol: Policies) returns (notify: seq<string>)
      requires Good(txn.t, pol) && QueueGood(q, now, pol) && txn.now == now
      modifies this, txn
      ensures var r := GrantSweep(old(txn.t), old(q), now); notify == r.notify && txn.t == r.t && q == r.q
    {
      hide Good, QueueGood, RunSweep;
      ScanInForce(q, now, pol);
      var es := ScanLive();
      notify := RunGrantSweep(txn, es, pol);
    }

    /** Considers only waiters indexed near a freed path. */
    method SweepFreed(txn: LockTxn, freed: seq<string>, ghost pol: Policies) returns (notify: seq<string>)
      requires Good(txn.t, pol) && QueueGood(q, now, pol) && txn.now == now
      modifies this, txn
      ensures var r := GrantSweepForPaths(old(txn.t), old(q), now, freed); notify == r.notify && txn.t == r.t && q == r.q
    {
      hide Good, QueueGood, RunSweep, GetAncestors, DescendantPrefix, LiveOf, CandidateSeqs;
      CandidatesNone(q, now);
      PathRecordsBounded(q, now, pol);
      var seqs := {};
      for i := 0 to |freed|
        invariant q == old(q) && txn.t == old(txn.t)
        invariant seqs == CandidateSeqs(q, now, freed[..i])
      {
        assert freed[..i + 1] == freed[..i] + [freed[i]];
        seqs := CollectAround(freed[i], true, seqs);
        CandidatesSnoc(q, now, freed[..i], freed[i], seqs);
      }
      assert freed[..|freed|] == freed;
      CandidatesInForce(q, now, pol, freed);
      var es := ReadLive(SortedNats(seqs));
      notify := RunGrantSweep(txn, es, pol);
    }

    method ReadLive(seqs: seq<nat>) returns (es: seq<Entry>)
      ensures es == LiveOf(q, now, seqs)
    {
      hide ReadEntry;
      es := [];
      for i := 0 to |seqs|
        invariant es == LiveOf(q, now, seqs[..i])
      {
        LiveOfSnoc(q, now, seqs[..i], seqs[i]);
        assert seqs[..i + 1] == seqs[..i] + [seqs[i]];
        var e := ReadEntry(q, now, seqs[i]);
        if e.Some? { es := es + [e.value]; }
      }
      assert seqs[..|seqs|] == seqs;
    }
  }

  // --- helpers for the loops ---

  lemma PathKeysDef(e: Entry)
    ensures PathKeys(e) == KeysOf(NewPaths(e.ns, e.args.requests), e.seqno)
  {
  }

  lemma LastSeqKept(q: Queue, now: Time, s: nat)
    ensures ExpireEntry(q, now, s).1.lastSeq == q.lastSeq
  {
    hide QueueCount, PathKeys, QueueUnits;
  }

  lemma LiveOfNone(q: Queue, now: Time)
    ensures LiveOf(q, now, []) == []
  {
  }

  lemma ScanTake(q: Queue, now: Time, raw: nat)
    requires var all := SortedNats(q.entries.Keys); raw <= |all| && raw <= QUEUE_SCAN_LIMIT && (raw == |all| || raw == QUEUE_SCAN_LIMIT)
    ensures Scan(q, now) == LiveOf(q, now, SortedNats(q.entries.Keys)[..raw])
  {
    hide LiveOf, SortedNats;
    var all := SortedNats(q.entries.Keys);
    assert all[..|all|] == all;
  }

  lemma {:induction false} LiveOfSnoc(q: Queue, now: Time, seqs: seq<nat>, s: nat)
    ensures LiveOf(q, now, seqs + [s]) == LiveOf(q, now, seqs) + (if ReadEntry(q, now, s).Some? then [ReadEntry(q, now, s).value] else [])
  {
    hide ReadEntry;
    if seqs == [] {
      assert [] + [s] == [s];
    } else {
      LiveOfSnoc(q, now, seqs[1..], s);
      assert (seqs + [s])[1..] == seqs[1..] + [s];
    }
  }

  lemma {:induction false} ContendingSnoc(t: Tables, owner: string, ws: seq<Want>, w: Want)
    ensures Contending(t, owner, ws + [w]) == Contending(t, owner, ws) + (if HoldsOrCovers(t, owner, w) then [] else [w])
  {
    hide HoldsOrCovers;
    if ws == [] {
      assert [] + [w] == [w];
    } else {
      ContendingSnoc(t, owner, ws[1..], w);
      assert (ws + [w])[1..] == ws[1..] + [w];
    }
  }

  lemma CandidatesNone(q: Queue, now: Time)
    ensures CandidateSeqs(q, now, []) == {}
  {
  }

  lemma CandidatesSnoc(q: Queue, now: Time, fs: seq<string>, f: string, seqs: set<nat>)
    requires forall s :: s in seqs <==>
               s in CandidateSeqs(q, now, fs)
               || exists k :: k in q.paths && k.1 == s && !Expired(q.paths[k], now)
                              && (k.0 == f || k.0 in GetAncestors(f) || (true && DescendantPrefix(f) <= k.0))
    ensures seqs == CandidateSeqs(q, now, fs + [f])
  {
    hide GetAncestors, DescendantPrefix;
    assert forall x :: x in fs + [f] <==> x in fs || x == f;
    forall s | s in seqs ensures s in CandidateSeqs(q, now, fs + [f]) {
      if s in CandidateSeqs(q, now, fs) {
        var k :| k in q.paths && !Expired(q.paths[k], now) && (exists g :: g in fs && Touches(k.0, g)) && k.1 == s;
        var g :| g in fs && Touches(k.0, g);
        assert g in fs + [f];
      } else {
        var k :| k in q.paths && k.1 == s && !Expired(q.paths[k], now) && (k.0 == f || k.0 in GetAncestors(f) || DescendantPrefix(f) <= k.0);
        assert Touches(k.0, f) && f in fs + [f];
      }
    }
    forall s | s in CandidateSeqs(q, now, fs + [f]) ensures s in seqs {
      var k :| k in q.paths && !Expired(q.paths[k], now) && (exists g :: g in fs + [f] && Touches(k.0, g)) && k.1 == s;
      var g :| g in fs + [f] && Touches(k.0, g);
    }
  }

  lemma RecordsFit(q: Queue)
    ensures forall p :: |RecordsAt(q, p)| <= |q.paths| && |RecordsUnder(q, p)| <= |q.paths|
  {
    forall p ensures |RecordsAt(q, p)| <= |q.paths| && |RecordsUnder(q, p)| <= |q.paths| {
      SubsetSize(RecordsAt(q, p), q.paths.Keys);
      SubsetSize(RecordsUnder(q, p), q.paths.Keys);
    }
  }

  lemma RecordsStored(q: Queue, now: Time, pol: Policies, seqs: set<nat>)
    requires QueueGood(q, now, pol)
    requires forall s :: s in seqs ==> exists k :: k in q.paths && k.1 == s
    ensures forall s :: s in seqs ==> s in q.entries
  {
    hide UnitSum, PathKeys, Indexed, OwnersPoint, QueueFiled, Current;
  }

  lemma NoBlockerLeft(q: Queue, now: Time, owner: string, mine: Option<nat>, ws: seq<Want>)
    ensures FirstBlocker(LiveOf(q, now, []), owner, mine, ws) == None
  {
  }
}

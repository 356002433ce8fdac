/**
 Validation prunes only lapsed owners and leaves a request list whose execution
 cannot conflict; execution then keeps the invariant of the tables.
 */
module AcquireProof {
  import opened Paths
  import opened Expiry
  import opened LockSpec
  import opened LockInvariant

  // --- pruning ---

  /** `r` is `t` without some holds of owners whose lease has lapsed. */
  ghost predicate Pruned(t: Tables, r: Tables, now: Time) {
    && r == Drop(t, t.alg.Keys - r.alg.Keys)
    && forall h :: h in t.alg && h !in r.alg ==> !t.Alive(h.owner, now)
  }

  lemma DropTwice(t: Tables, h1: set<Hold>, h2: set<Hold>)
    ensures Drop(Drop(t, h1), h2) == Drop(t, h1 + h2)
  {
    var a, b := Drop(Drop(t, h1), h2), Drop(t, h1 + h2);
    assert a.wr == b.wr;
    assert a.rd == b.rd && a.sem == b.sem && a.alg == b.alg;
    assert a.wrdesc == b.wrdesc;
    forall k | HasMember(b.rd, k) ensures HasMember(Drop(t, h1).rd, k) {
      var e :| e in b.rd && e.0 == k;
      assert e in Drop(t, h1).rd;
    }
    assert a.rddesc == b.rddesc;
  }

  /** Only holds on record matter to a removal. */
  lemma DropStored(t: Tables, hs: set<Hold>)
    requires Core(t)
    ensures Drop(t, hs) == Drop(t, t.alg.Keys - Drop(t, hs).alg.Keys)
  {
    var g := t.alg.Keys - Drop(t, hs).alg.Keys;
    assert forall h :: h in t.alg ==> (h in hs <==> h in g);
    var a, b := Drop(t, hs), Drop(t, g);
    forall k | k in t.wr ensures Hold(t.wr[k], Write, k) in t.alg {
      assert HasHold(t, Hold(t.wr[k], Write, k));
    }
    forall e | e in t.rd ensures Hold(e.1, Read, e.0) in t.alg { assert HasHold(t, Hold(e.1, Read, e.0)); }
    forall e | e in t.sem ensures Hold(e.1, Write, e.0) in t.alg { assert HasHold(t, Hold(e.1, Write, e.0)); }
    assert a.wr == b.wr;
    assert a.rd == b.rd && a.sem == b.sem && a.alg == b.alg;
  }

  lemma DropNothing(t: Tables)
    requires Core(t)
    ensures Drop(t, {}) == t
  {
    assert t.wr == Drop(t, {}).wr && t.rd == Drop(t, {}).rd;
    assert t.alg == Drop(t, {}).alg;
  }

  lemma PrunedBy(t: Tables, hs: set<Hold>, now: Time)
    requires Core(t)
    requires forall h :: h in hs ==> !t.Alive(h.owner, now)
    ensures Pruned(t, Drop(t, hs), now)
  {
    DropStored(t, hs);
  }

  lemma PrunedRefl(t: Tables, now: Time)
    requires Core(t)
    ensures Pruned(t, t, now)
  {
    DropNothing(t);
    assert t.alg.Keys - t.alg.Keys == {};
  }

  lemma PrunedTrans(t: Tables, r: Tables, s: Tables, now: Time)
    requires Pruned(t, r, now) && Pruned(r, s, now)
    ensures Pruned(t, s, now)
  {
    DropTwice(t, t.alg.Keys - r.alg.Keys, r.alg.Keys - s.alg.Keys);
    assert (t.alg.Keys - r.alg.Keys) + (r.alg.Keys - s.alg.Keys) == t.alg.Keys - s.alg.Keys;
  }

  lemma PrunedGood(t: Tables, r: Tables, now: Time, pol: Policies)
    requires Pruned(t, r, now) && Good(t, pol)
    ensures Good(r, pol)
  {
    assert t.(own := t.own) == t;
    DropGood(t, pol, t.own, t.alg.Keys - r.alg.Keys);
  }

  lemma PruneWriterOk(t: Tables, now: Time, key: string)
    requires Core(t)
    ensures Pruned(t, PruneWriter(t, now, key), now)
    ensures key in PruneWriter(t, now, key).wr ==> t.Alive(PruneWriter(t, now, key).wr[key], now)
  {
    if key in t.wr && !t.Alive(t.wr[key], now) { PrunedBy(t, {Hold(t.wr[key], Write, key)}, now); }
    else { PrunedRefl(t, now); }
  }

  lemma PruneReadersOk(t: Tables, now: Time, key: string)
    requires Core(t)
    ensures Pruned(t, PruneReaders(t, now, key), now)
  {
    PrunedBy(t, set o | o in MembersAt(t.rd, key) && !t.Alive(o, now) :: Hold(o, Read, key), now);
  }

  lemma PruneSemaphoreOk(t: Tables, now: Time, key: string)
    requires Core(t)
    ensures Pruned(t, PruneSemaphore(t, now, key), now)
  {
    PrunedBy(t, set o | o in MembersAt(t.sem, key) && !t.Alive(o, now) :: Hold(o, Write, key), now);
  }

  lemma PrunedCore(t: Tables, r: Tables, now: Time)
    requires Pruned(t, r, now) && Core(t)
    ensures Core(r)
  {
    DropCore(t, t.alg.Keys - r.alg.Keys);
  }

  // --- what a request needs of the tables ---

  /** The owner is alive, or has nothing on record that pruning could take. */
  ghost predicate Solid(t: Tables, owner: string, now: Time) {
    t.Alive(owner, now) || forall h :: h in t.alg ==> h.owner != owner
  }

  lemma SolidKept(t: Tables, r: Tables, owner: string, now: Time)
    requires Pruned(t, r, now) && Solid(t, owner, now)
    ensures Solid(r, owner, now)
    ensures forall h :: h in t.alg && h.owner == owner ==> h in r.alg
  {
  }

  ghost predicate AncestorsClear(t: Tables, owner: string, key: string) {
    forall a :: IsStrictAncestor(a, key) && RecursiveWriter(t, a) ==> t.wr[a] == owner
  }

  ghost predicate SubtreeClear(t: Tables, owner: string, key: string) {
    && (forall k :: IsStrictAncestor(key, k) && k in t.wr ==> t.wr[k] == owner)
    && (forall k, o :: IsStrictAncestor(key, k) && (k, o) in t.rd ==> o == owner)
  }

  ghost predicate HeldClear(t: Tables, owner: string, token: int, ns: string, req: LockReq) {
    var h := Hold(owner, req.mode, ScopedPath(ns, req.path));
    && h in t.alg
    && (req.mode == Write && !t.alg[h].Semaphore? ==> h.key in t.fence && t.fence[h.key] <= token)
  }

  ghost predicate SemaphoreClear(t: Tables, owner: string, ns: string, req: LockReq) {
    var key := ScopedPath(ns, req.path);
    req.mode == Write && req.permits > 0 && ((key, owner) in t.sem || |MembersAt(t.sem, key)| < req.permits)
  }

  ghost predicate ReadClear(t: Tables, owner: string, key: string) {
    AncestorsClear(t, owner, key) && (key in t.wr ==> t.wr[key] == owner)
  }

  ghost predicate WriteClear(t: Tables, owner: string, token: int, key: string, recursive: bool) {
    && ReadClear(t, owner, key)
    && (forall o :: (key, o) in t.rd ==> o == owner)
    && (recursive ==> SubtreeClear(t, owner, key))
    && !StaleFence(t, key, token, key in t.wr)
  }

  ghost predicate ReqClear(t: Tables, owner: string, token: int, ns: string, alg: LockAlgorithm, req: LockReq) {
    var key := ScopedPath(ns, req.path);
    if req.state == Held then HeldClear(t, owner, token, ns, req)
    else if alg.Semaphore? then SemaphoreClear(t, owner, ns, req)
    else if req.mode == Write then WriteClear(t, owner, token, key, alg.Recursive())
    else alg.AllowsRead() && ReadClear(t, owner, key)
  }

  /** The capacity a semaphore request names agrees with the stored one, if any. */
  predicate CapacityAgrees(t: Tables, ns: string, alg: LockAlgorithm, req: LockReq) {
    var key := ScopedPath(ns, req.path);
    req.state == New && alg.Semaphore? && key in t.cap ==> t.cap[key] == req.permits
  }

  lemma ReadClearKept(t: Tables, r: Tables, now: Time, owner: string, key: string)
    requires Pruned(t, r, now) && Core(t) && ReadClear(t, owner, key)
    ensures ReadClear(r, owner, key)
  {
    forall a | RecursiveWriter(r, a) ensures RecursiveWriter(t, a) && r.wr[a] == t.wr[a] {
      assert HasHold(t, Hold(t.wr[a], Write, a));
    }
  }

  /** What validation established stays true while later requests prune. */
  lemma ReqClearKept(
    t: Tables, r: Tables, now: Time, owner: string, token: int, ns: string, alg: LockAlgorithm, req: LockReq)
    requires Pruned(t, r, now) && Core(t) && Solid(t, owner, now)
    requires ReqClear(t, owner, token, ns, alg, req)
    ensures ReqClear(r, owner, token, ns, alg, req)
    ensures CapacityAgrees(t, ns, alg, req) ==> CapacityAgrees(r, ns, alg, req)
  {
    var key := ScopedPath(ns, req.path);
    SolidKept(t, r, owner, now);
    PrunedCore(t, r, now);
    if req.state == Held {
    } else if alg.Semaphore? {
      if (key, owner) in t.sem {
        assert HasHold(t, Hold(owner, Write, key));
        assert HasHold(r, Hold(owner, Write, key));
      }
      SubsetSize(MembersAt(r.sem, key), MembersAt(t.sem, key));
    } else {
      ReadClearKept(t, r, now, owner, key);
      if key in t.wr {
        assert HasHold(t, Hold(owner, Write, key));
        assert Hold(owner, Write, key) in r.alg;
      }
    }
  }
}

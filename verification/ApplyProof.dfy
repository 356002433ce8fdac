/** Execution of a validated request list. */
module ApplyProof {
  import opened Paths
  import opened LockSpec
  import opened LockInvariant
  import opened AcquireProof

  /** The hold a request asks for. */
  function Wanted(owner: string, ns: string, req: LockReq): Hold {
    Hold(owner, req.mode, ScopedPath(ns, req.path))
  }

  /** `r` has every hold of `t`, and the new ones are the owner's. */
  ghost predicate Grew(t: Tables, r: Tables, owner: string) {
    && (forall h :: h in t.alg ==> h in r.alg && r.alg[h] == t.alg[h])
    && (forall h :: h in r.alg && h !in t.alg ==> h.owner == owner)
    && r.alive == t.alive && r.slots == t.slots
    && (forall k :: k in t.cap ==> k in r.cap && r.cap[k] == t.cap[k])
  }

  /** Fences never fall, a path under a new writer has a strictly larger one, and a capacity once set stays. */
  ghost predicate Onward(t: Tables, r: Tables) {
    && (forall k :: k in t.cap ==> k in r.cap && t.cap[k] == r.cap[k])
    && (forall k :: k in t.fence ==> k in r.fence && t.fence[k] <= r.fence[k])
    && (forall k :: k in r.wr && k in t.fence && !t.Writes(r.wr[k], k) ==> k in r.fence && t.fence[k] < r.fence[k])
  }

  lemma OnwardTrans(t: Tables, r: Tables, s: Tables)
    requires Onward(t, r) && Onward(r, s)
    ensures Onward(t, s)
  {
    forall k | k in s.wr && k in t.fence && !t.Writes(s.wr[k], k) ensures t.fence[k] < s.fence[k] {
      assert k in r.fence && t.fence[k] <= r.fence[k] <= s.fence[k];
      if r.Writes(s.wr[k], k) { assert k in r.wr && t.fence[k] < r.fence[k]; }
    }
  }

  // --- one request ---

  lemma WriteExclusive(t: Tables, r: Tables, owner: string, token: int, key: string, alg: LockAlgorithm)
    requires Core(t) && Exclusive(t) && WriteClear(t, owner, token, key, alg.Recursive())
    requires r.wr == t.wr[key := owner] && r.rd == t.rd
    requires r.alg == t.alg[Hold(owner, Write, key) := alg]
    ensures Exclusive(r)
  {
    hide GetAncestors;
    forall a | RecursiveWriter(r, a) && a != key ensures RecursiveWriter(t, a) && r.wr[a] == t.wr[a] {
      assert Hold(r.wr[a], Write, a) != Hold(owner, Write, key);
    }
    forall a, k | RecursiveWriter(r, a) && IsStrictAncestor(a, k) && k in r.wr ensures r.wr[k] == r.wr[a] {
      if a == key { AncestorShape(a, k); assert alg.Recursive() && k in t.wr; }
    }
    forall a, k, o | RecursiveWriter(r, a) && IsStrictAncestor(a, k) && (k, o) in r.rd ensures o == r.wr[a] {
      if a == key { assert alg.Recursive(); }
    }
  }

  lemma ReadExclusive(t: Tables, r: Tables, owner: string, key: string, alg: LockAlgorithm)
    requires Core(t) && Exclusive(t) && ReadClear(t, owner, key)
    requires r.wr == t.wr && r.rd == t.rd + {(key, owner)}
    requires r.alg == t.alg[Hold(owner, Read, key) := alg]
    ensures Exclusive(r)
  {
    forall a | RecursiveWriter(r, a) ensures RecursiveWriter(t, a) {
      assert Hold(r.wr[a], Write, a) != Hold(owner, Read, key);
    }
  }

  lemma CoverNew(t: Tables, r: Tables, owner: string, ns: string, req: LockReq)
    requires OwnCovers(t) && NoSep(ns)
    requires r.own == t.own + {(owner, Member(req.mode, ns, req.path))}
    requires r.alg.Keys <= t.alg.Keys + {Wanted(owner, ns, req)}
    ensures OwnCovers(r)
  {
    forall h | h in r.alg ensures CoversHold(r.own, h) {
      if h in t.alg {
        assert CoversHold(t.own, h);
        var m :| (h.owner, m) in t.own && m.mode == h.mode && m.Key() == h.key;
        assert (h.owner, m) in r.own;
      } else {
        var m := Member(req.mode, ns, req.path);
        assert (h.owner, m) in r.own && m.Key() == h.key;
      }
    }
  }

  lemma WriteCore(t: Tables, r: Tables, owner: string, key: string, alg: LockAlgorithm)
    requires Core(t) && !alg.Semaphore? && (key in t.wr ==> t.wr[key] == owner) && (key, owner) !in t.sem
    requires r.wr == t.wr[key := owner] && r.rd == t.rd && r.sem == t.sem
    requires r.alg == t.alg[Hold(owner, Write, key) := alg]
    requires r.wrdesc == t.wrdesc + IndexPairs(key) && r.rddesc == t.rddesc
    ensures Core(r)
  {
    hide GetAncestors;
    forall h ensures h in r.alg <==> HasHold(r, h) {
      assert h in t.alg <==> HasHold(t, h);
    }
    assert AlgTyped(r);
    assert IndexExact(r);
  }

  lemma ReadCore(t: Tables, r: Tables, owner: string, key: string, alg: LockAlgorithm)
    requires Core(t) && !alg.Semaphore?
    requires r.wr == t.wr && r.rd == t.rd + {(key, owner)} && r.sem == t.sem
    requires r.alg == t.alg[Hold(owner, Read, key) := alg]
    requires r.wrdesc == t.wrdesc && r.rddesc == t.rddesc + IndexPairs(key)
    ensures Core(r)
  {
    assert (key, owner) in r.rd && (key, owner).0 == key;
    forall k ensures HasMember(r.rd, k) <==> HasMember(t.rd, k) || k == key {
      if HasMember(t.rd, k) { var e :| e in t.rd && e.0 == k; assert e in r.rd; }
    }
    forall h ensures h in r.alg <==> HasHold(r, h) {
      assert h in t.alg <==> HasHold(t, h);
    }
  }

  lemma SemaphoreCore(t: Tables, r: Tables, owner: string, key: string)
    requires Core(t) && !t.Writes(owner, key)
    requires r.wr == t.wr && r.rd == t.rd && r.sem == t.sem + {(key, owner)}
    requires r.alg == t.alg[Hold(owner, Write, key) := Semaphore]
    requires r.wrdesc == t.wrdesc && r.rddesc == t.rddesc
    ensures Core(r)
  {
    forall h ensures h in r.alg <==> HasHold(r, h) {
      assert h in t.alg <==> HasHold(t, h);
    }
  }

  lemma SemaphoreGrows(t: Tables, r: Tables, owner: string, key: string, permits: nat)
    requires SemaphoreBounded(t)
    requires (key, owner) in t.sem || |MembersAt(t.sem, key)| < permits
    requires r.sem == t.sem + {(key, owner)}
    requires key in r.cap && (r.cap[key] == permits || (key, owner) in t.sem)
    requires forall k :: k in t.cap ==> k in r.cap && r.cap[k] == t.cap[k]
    ensures SemaphoreBounded(r)
  {
    forall k | HasMember(r.sem, k) ensures k in r.cap && |MembersAt(r.sem, k)| <= r.cap[k] {
      if k == key {
        assert MembersAt(r.sem, key) == MembersAt(t.sem, key) + {owner};
        if (key, owner) in t.sem {
          assert HasMember(t.sem, (key, owner).0);
          assert MembersAt(r.sem, key) == MembersAt(t.sem, key);
        }
      } else {
        var e :| e in r.sem && e.0 == k;
        assert e in t.sem;
        assert MembersAt(r.sem, k) == MembersAt(t.sem, k);
      }
    }
  }

  /** In one namespace all holds carry one algorithm, so a write lock and a semaphore hold never mix. */
  lemma NeverMixed(t: Tables, pol: Policies, owner: string, ns: string, path: string, mode: Mode)
    requires Good(t, pol) && NoSep(ns)
    ensures var key := ScopedPath(ns, path);
            && (t.Writes(owner, key) ==> !pol.InForce(ns).Semaphore?)
            && ((key, owner) in t.sem ==> pol.InForce(ns).Semaphore?)
            && (Hold(owner, mode, key) in t.alg ==> t.alg[Hold(owner, mode, key)] == pol.InForce(ns))
  {
    var key := ScopedPath(ns, path);
    NamespaceOfScoped(ns, path);
    var w := Hold(owner, Write, key);
    assert HasHold(t, w) <==> w in t.alg;
  }

  // --- what the parts of the invariant depend on ---

  lemma CoreFrame(t: Tables, r: Tables)
    requires Core(t)
    requires r.wr == t.wr && r.rd == t.rd && r.sem == t.sem && r.alg == t.alg
    requires r.wrdesc == t.wrdesc && r.rddesc == t.rddesc
    ensures Core(r)
  {
    assert forall h :: HasHold(r, h) <==> HasHold(t, h);
  }

  lemma ExclusiveFrame(t: Tables, r: Tables)
    requires Exclusive(t) && r.wr == t.wr && r.rd == t.rd && r.alg == t.alg
    ensures Exclusive(r)
  {
    assert forall a :: RecursiveWriter(r, a) ==> RecursiveWriter(t, a);
  }

  lemma BoundFrame(t: Tables, r: Tables)
    requires SemaphoreBounded(t) && r.sem == t.sem && r.cap == t.cap
    ensures SemaphoreBounded(r)
  {
  }

  lemma LeaseFrame(t: Tables, r: Tables)
    requires LeasesFiled(t) && r.alive == t.alive && r.slots == t.slots
    ensures LeasesFiled(r)
  {
  }

  lemma OneAlgorithmExtended(t: Tables, r: Tables, pol: Policies, h: Hold)
    requires OneAlgorithm(t, pol)
    requires r.alg == t.alg[h := pol.InForce(NamespaceOf(h.key))] && pol.InForce(NamespaceOf(h.key)).AllowsMode(h.mode)
    ensures OneAlgorithm(r, pol)
  {
  }

  lemma FencedExtended(t: Tables, r: Tables, key: string)
    requires Fenced(t) && r.wr.Keys <= t.wr.Keys + {key} && t.fence.Keys <= r.fence.Keys
    requires key in r.wr ==> key in r.fence
    ensures Fenced(r)
  {
    assert forall k :: k in r.wr ==> k in t.wr.Keys + {key};
  }

  lemma FencedStays(t: Tables, r: Tables)
    requires Fenced(t) && r.wr == t.wr && t.fence.Keys <= r.fence.Keys
    ensures Fenced(r)
  {
    assert forall k :: k in t.fence ==> k in r.fence.Keys;
  }

  /** Holds, leases and indexes as before; only hold-set members and fences were added. */
  lemma ExtendGood(t: Tables, r: Tables, pol: Policies)
    requires Good(t, pol) && OwnCovers(r) && Fenced(r)
    requires r == t.(own := r.own, fence := r.fence)
    ensures Good(r, pol)
  {
    assert OneAlgorithm(r, pol);
    hide Core, Exclusive, SemaphoreBounded, OneAlgorithm, OwnCovers, LeasesFiled, Fenced;
    CoreFrame(t, r);
    ExclusiveFrame(t, r);
    BoundFrame(t, r);
    LeaseFrame(t, r);
  }

  // --- re-asserting a held lock ---

  ghost predicate HeldPre(t: Tables, pol: Policies, owner: string, token: int, ns: string, alg: LockAlgorithm, req: LockReq) {
    Good(t, pol) && NoSep(ns) && alg == pol.InForce(ns) && req.state == Held && HeldClear(t, owner, token, ns, req)
  }

  /** Re-asserting a held lock changes its fence and nothing else but the hold set. */
  ghost predicate HeldEffect(t: Tables, r: Tables, token: int, owner: string, ns: string, req: LockReq) {
    var key := Wanted(owner, ns, req).key;
    && r == t.(own := t.own + {(owner, Member(req.mode, ns, req.path))}, fence := r.fence)
    && (r.fence == t.fence || (key in t.fence && t.fence[key] <= token && r.fence == t.fence[key := token]))
  }

  lemma HeldSemaphoreEffect(t: Tables, owner: string, token: int, ns: string, req: LockReq)
    requires AlgExact(t) && AlgTyped(t) && req.state == Held && HeldClear(t, owner, token, ns, req)
    requires t.alg[Wanted(owner, ns, req)].Semaphore?
    ensures ApplySemaphore(t, owner, ns, req).0.None?
    ensures HeldEffect(t, ApplySemaphore(t, owner, ns, req).1, token, owner, ns, req)
  {
    hide ScopedPath;
    var r := ApplySemaphore(t, owner, ns, req).1;
    assert r.alg == t.alg;
    assert r.sem == t.sem;
  }

  lemma HeldWriteEffect(t: Tables, owner: string, token: int, ns: string, alg: LockAlgorithm, req: LockReq)
    requires Core(t) && req.state == Held && HeldClear(t, owner, token, ns, req) && req.mode == Write
    requires t.alg[Wanted(owner, ns, req)] == alg && !alg.Semaphore?
    ensures ApplyWrite(t, owner, token, ns, req, alg).0.None?
    ensures HeldEffect(t, ApplyWrite(t, owner, token, ns, req, alg).1, token, owner, ns, req)
  {
    hide ScopedPath;
    var key := ScopedPath(ns, req.path);
    assert HasHold(t, Wanted(owner, ns, req));
    assert t.wrdesc + IndexPairs(key) == t.wrdesc;
    var r := ApplyWrite(t, owner, token, ns, req, alg).1;
    assert r.wr == t.wr && r.alg == t.alg;
  }

  lemma HeldReadEffect(t: Tables, owner: string, token: int, ns: string, alg: LockAlgorithm, req: LockReq)
    requires Core(t) && req.state == Held && HeldClear(t, owner, token, ns, req) && req.mode == Read
    requires t.alg[Wanted(owner, ns, req)] == alg
    ensures HeldEffect(t, ApplyRead(t, owner, ns, req, alg), token, owner, ns, req)
  {
    hide ScopedPath;
    var key := ScopedPath(ns, req.path);
    assert HasHold(t, Wanted(owner, ns, req));
    assert HasMember(t.rd, (key, owner).0);
    assert t.rddesc + IndexPairs(key) == t.rddesc;
    var r := ApplyRead(t, owner, ns, req, alg);
    assert r.rd == t.rd && r.alg == t.alg;
  }

  lemma ApplyHeldEffect(t: Tables, pol: Policies, owner: string, token: int, ns: string, alg: LockAlgorithm, req: LockReq)
    requires HeldPre(t, pol, owner, token, ns, alg, req)
    ensures ApplyReq(t, owner, token, ns, alg, req).0.None?
    ensures HeldEffect(t, ApplyReq(t, owner, token, ns, alg, req).1, token, owner, ns, req)
  {
    hide ScopedPath, HeldEffect, Exclusive, OwnCovers, SemaphoreBounded, Fenced, LeasesFiled, IndexExact, OneAlgorithm;
    NeverMixed(t, pol, owner, ns, req.path, req.mode);
    if alg.Semaphore? { HeldSemaphoreEffect(t, owner, token, ns, req); }
    else if req.mode == Write { HeldWriteEffect(t, owner, token, ns, alg, req); }
    else { HeldReadEffect(t, owner, token, ns, alg, req); }
  }

  lemma ApplyHeldOk(t: Tables, pol: Policies, owner: string, token: int, ns: string, alg: LockAlgorithm, req: LockReq)
    requires HeldPre(t, pol, owner, token, ns, alg, req)
    ensures Applied(t, pol, owner, token, ns, alg, req)
  {
    hide ScopedPath, ApplyReq, Core, Exclusive, SemaphoreBounded, OneAlgorithm, OwnCovers, LeasesFiled, Fenced;
    var r := ApplyReq(t, owner, token, ns, alg, req).1;
    ApplyHeldEffect(t, pol, owner, token, ns, alg, req);
    CoverNew(t, r, owner, ns, req);
    FencedStays(t, r);
    ExtendGood(t, r, pol);
  }

  // --- new locks ---

  /** The request was granted: its hold is on record and the tables are still good. */
  ghost predicate Applied(t: Tables, pol: Policies, owner: string, token: int, ns: string, alg: LockAlgorithm, req: LockReq) {
    var (o, r) := ApplyReq(t, owner, token, ns, alg, req);
    o.None? && Good(r, pol) && Wanted(owner, ns, req) in r.alg && Grew(t, r, owner) && Onward(t, r)
  }

  ghost predicate NewPre(t: Tables, pol: Policies, ns: string, alg: LockAlgorithm, req: LockReq) {
    Good(t, pol) && NoSep(ns) && alg == pol.InForce(ns) && req.state == New
  }

  ghost predicate NewWritePre(t: Tables, pol: Policies, owner: string, token: int, ns: string, alg: LockAlgorithm, req: LockReq) {
    && NewPre(t, pol, ns, alg, req) && !alg.Semaphore? && req.mode == Write
    && WriteClear(t, owner, token, ScopedPath(ns, req.path), alg.Recursive())
  }

  lemma NewWriteLocks(t: Tables, pol: Policies, owner: string, token: int, ns: string, alg: LockAlgorithm, req: LockReq)
    requires NewWritePre(t, pol, owner, token, ns, alg, req)
    ensures var r := ApplyWrite(t, owner, token, ns, req, alg).1; Core(r) && Exclusive(r)
  {
    hide ScopedPath, Core, Exclusive, OwnCovers, SemaphoreBounded, Fenced, LeasesFiled, OneAlgorithm;
    NeverMixed(t, pol, owner, ns, req.path, Write);
    var key := ScopedPath(ns, req.path);
    var r := ApplyWrite(t, owner, token, ns, req, alg).1;
    WriteCore(t, r, owner, key, alg);
    WriteExclusive(t, r, owner, token, key, alg);
  }

  lemma NewWriteRest(t: Tables, pol: Policies, owner: string, token: int, ns: string, alg: LockAlgorithm, req: LockReq)
    requires NewWritePre(t, pol, owner, token, ns, alg, req)
    ensures var r := ApplyWrite(t, owner, token, ns, req, alg).1;
            OneAlgorithm(r, pol) && OwnCovers(r) && SemaphoreBounded(r) && Fenced(r) && LeasesFiled(r)
  {
    hide ScopedPath, NamespaceOf, Core, Exclusive, OwnCovers, SemaphoreBounded, Fenced, LeasesFiled, OneAlgorithm;
    NamespaceOfScoped(ns, req.path);
    var r := ApplyWrite(t, owner, token, ns, req, alg).1;
    CoverNew(t, r, owner, ns, req);
    OneAlgorithmExtended(t, r, pol, Wanted(owner, ns, req));
    BoundFrame(t, r);
    LeaseFrame(t, r);
    FencedExtended(t, r, ScopedPath(ns, req.path));
  }

  lemma GrewByOne(t: Tables, r: Tables, h: Hold, a: LockAlgorithm)
    requires r.alg == t.alg[h := a] && (h in t.alg ==> t.alg[h] == a)
    requires r.alive == t.alive && r.slots == t.slots
    requires forall k :: k in t.cap ==> k in r.cap && r.cap[k] == t.cap[k]
    ensures Grew(t, r, h.owner)
  {
  }

  lemma NewWriteGrew(t: Tables, pol: Policies, owner: string, token: int, ns: string, alg: LockAlgorithm, req: LockReq)
    requires NewWritePre(t, pol, owner, token, ns, alg, req)
    ensures var (o, r) := ApplyWrite(t, owner, token, ns, req, alg);
            o.None? && Wanted(owner, ns, req) in r.alg && Grew(t, r, owner)
  {
    hide ScopedPath, Good, AncestorsClear, SubtreeClear, StaleFence, Grew, GetAncestors;
    NeverMixed(t, pol, owner, ns, req.path, Write);
    GrewByOne(t, ApplyWrite(t, owner, token, ns, req, alg).1, Wanted(owner, ns, req), alg);
  }

  lemma NewWriteFences(t: Tables, owner: string, token: int, ns: string, alg: LockAlgorithm, req: LockReq)
    requires WriteClear(t, owner, token, ScopedPath(ns, req.path), alg.Recursive())
    ensures Onward(t, ApplyWrite(t, owner, token, ns, req, alg).1)
  {
    hide ScopedPath, AncestorsClear, SubtreeClear, IndexPairs;
    var key := ScopedPath(ns, req.path);
    var r := ApplyWrite(t, owner, token, ns, req, alg).1;
    assert r.wr == t.wr[key := owner] && r.fence == t.fence[key := token];
  }

  lemma ApplyNewWriteOk(t: Tables, pol: Policies, owner: string, token: int, ns: string, alg: LockAlgorithm, req: LockReq)
    requires NewWritePre(t, pol, owner, token, ns, alg, req)
    ensures Applied(t, pol, owner, token, ns, alg, req)
  {
    hide ApplyWrite, ScopedPath, WriteClear, Core, Exclusive, OwnCovers, SemaphoreBounded, Fenced, LeasesFiled, OneAlgorithm, Onward, Grew;
    NewWriteLocks(t, pol, owner, token, ns, alg, req);
    NewWriteRest(t, pol, owner, token, ns, alg, req);
    NewWriteGrew(t, pol, owner, token, ns, alg, req);
    NewWriteFences(t, owner, token, ns, alg, req);
  }

  ghost predicate NewReadPre(t: Tables, pol: Policies, owner: string, ns: string, alg: LockAlgorithm, req: LockReq) {
    && NewPre(t, pol, ns, alg, req) && req.mode == Read && alg.AllowsRead()
    && ReadClear(t, owner, ScopedPath(ns, req.path))
  }

  lemma NewReadLocks(t: Tables, pol: Policies, owner: string, ns: string, alg: LockAlgorithm, req: LockReq)
    requires NewReadPre(t, pol, owner, ns, alg, req)
    ensures var r := ApplyRead(t, owner, ns, req, alg); Core(r) && Exclusive(r)
  {
    hide ScopedPath, Core, Exclusive, OwnCovers, SemaphoreBounded, Fenced, LeasesFiled, OneAlgorithm;
    var key := ScopedPath(ns, req.path);
    var r := ApplyRead(t, owner, ns, req, alg);
    ReadCore(t, r, owner, key, alg);
    ReadExclusive(t, r, owner, key, alg);
  }

  lemma NewReadRest(t: Tables, pol: Policies, owner: string, ns: string, alg: LockAlgorithm, req: LockReq)
    requires NewReadPre(t, pol, owner, ns, alg, req)
    ensures var r := ApplyRead(t, owner, ns, req, alg);
            OneAlgorithm(r, pol) && OwnCovers(r) && SemaphoreBounded(r) && Fenced(r) && LeasesFiled(r)
  {
    hide ScopedPath, NamespaceOf, Core, Exclusive, OwnCovers, SemaphoreBounded, Fenced, LeasesFiled, OneAlgorithm;
    NamespaceOfScoped(ns, req.path);
    var r := ApplyRead(t, owner, ns, req, alg);
    CoverNew(t, r, owner, ns, req);
    OneAlgorithmExtended(t, r, pol, Wanted(owner, ns, req));
    BoundFrame(t, r);
    LeaseFrame(t, r);
    FencedStays(t, r);
  }

  lemma ApplyNewReadOk(t: Tables, pol: Policies, owner: string, token: int, ns: string, alg: LockAlgorithm, req: LockReq)
    requires NewReadPre(t, pol, owner, ns, alg, req)
    ensures Applied(t, pol, owner, token, ns, alg, req)
  {
    hide ApplyRead, ScopedPath, ReadClear, Core, Exclusive, OwnCovers, SemaphoreBounded, Fenced, LeasesFiled, OneAlgorithm, Onward, Grew;
    NewReadLocks(t, pol, owner, ns, alg, req);
    NewReadRest(t, pol, owner, ns, alg, req);
    NewReadGrew(t, pol, owner, ns, alg, req);
  }

  lemma NewReadGrew(t: Tables, pol: Policies, owner: string, ns: string, alg: LockAlgorithm, req: LockReq)
    requires NewReadPre(t, pol, owner, ns, alg, req)
    ensures var r := ApplyRead(t, owner, ns, req, alg);
            Wanted(owner, ns, req) in r.alg && Grew(t, r, owner) && Onward(t, r)
  {
    hide ScopedPath, Good, Grew, GetAncestors;
    NeverMixed(t, pol, owner, ns, req.path, Read);
    GrewByOne(t, ApplyRead(t, owner, ns, req, alg), Wanted(owner, ns, req), alg);
  }

  ghost predicate NewSemaphorePre(t: Tables, pol: Policies, owner: string, ns: string, alg: LockAlgorithm, req: LockReq) {
    && NewPre(t, pol, ns, alg, req) && alg.Semaphore?
    && SemaphoreClear(t, owner, ns, req) && CapacityAgrees(t, ns, alg, req)
  }

  lemma NewSemaphoreLocks(t: Tables, pol: Policies, owner: string, ns: string, alg: LockAlgorithm, req: LockReq)
    requires NewSemaphorePre(t, pol, owner, ns, alg, req)
    ensures var r := ApplySemaphore(t, owner, ns, req).1; Core(r) && Exclusive(r) && SemaphoreBounded(r)
  {
    hide ScopedPath, Core, Exclusive, OwnCovers, SemaphoreBounded, Fenced, LeasesFiled, OneAlgorithm;
    NeverMixed(t, pol, owner, ns, req.path, Write);
    var key := ScopedPath(ns, req.path);
    var r := ApplySemaphore(t, owner, ns, req).1;
    SemaphoreCore(t, r, owner, key);
    SemaphoreExclusive(t, r, owner, key);
    SemaphoreGrows(t, r, owner, key, req.permits);
  }

  lemma NewSemaphoreRest(t: Tables, pol: Policies, owner: string, ns: string, alg: LockAlgorithm, req: LockReq)
    requires NewSemaphorePre(t, pol, owner, ns, alg, req)
    ensures var r := ApplySemaphore(t, owner, ns, req).1;
            OneAlgorithm(r, pol) && OwnCovers(r) && Fenced(r) && LeasesFiled(r)
  {
    hide ScopedPath, NamespaceOf, Core, Exclusive, OwnCovers, SemaphoreBounded, Fenced, LeasesFiled, OneAlgorithm;
    NamespaceOfScoped(ns, req.path);
    var r := ApplySemaphore(t, owner, ns, req).1;
    CoverNew(t, r, owner, ns, req);
    OneAlgorithmExtended(t, r, pol, Wanted(owner, ns, req));
    LeaseFrame(t, r);
    FencedStays(t, r);
  }

  lemma ApplyNewSemaphoreOk(t: Tables, pol: Policies, owner: string, token: int, ns: string, alg: LockAlgorithm, req: LockReq)
    requires NewSemaphorePre(t, pol, owner, ns, alg, req)
    ensures Applied(t, pol, owner, token, ns, alg, req)
  {
    hide ApplySemaphore, ScopedPath, Core, Exclusive, OwnCovers, SemaphoreBounded, Fenced, LeasesFiled, OneAlgorithm, Onward, Grew, SemaphoreClear;
    NewSemaphoreLocks(t, pol, owner, ns, alg, req);
    NewSemaphoreRest(t, pol, owner, ns, alg, req);
    NewSemaphoreGrew(t, pol, owner, ns, alg, req);
  }

  lemma NewSemaphoreGrew(t: Tables, pol: Policies, owner: string, ns: string, alg: LockAlgorithm, req: LockReq)
    requires NewSemaphorePre(t, pol, owner, ns, alg, req)
    ensures var (o, r) := ApplySemaphore(t, owner, ns, req);
            o.None? && Wanted(owner, ns, req) in r.alg && Grew(t, r, owner) && Onward(t, r)
  {
    hide ScopedPath, Good, Grew;
    NeverMixed(t, pol, owner, ns, req.path, Write);
    GrewByOne(t, ApplySemaphore(t, owner, ns, req).1, Wanted(owner, ns, req), Semaphore);
  }

  lemma SemaphoreExclusive(t: Tables, r: Tables, owner: string, key: string)
    requires Exclusive(t) && r.wr == t.wr && r.rd == t.rd && r.alg == t.alg[Hold(owner, Write, key) := Semaphore]
    ensures Exclusive(r)
  {
    assert forall a :: RecursiveWriter(r, a) ==> RecursiveWriter(t, a);
  }

  /** One validated request: it fails exactly on a capacity mismatch, and otherwise grants its hold. */
  lemma ApplyReqOk(t: Tables, pol: Policies, owner: string, token: int, ns: string, alg: LockAlgorithm, req: LockReq)
    requires Good(t, pol) && NoSep(ns) && alg == pol.InForce(ns)
    requires ReqClear(t, owner, token, ns, alg, req)
    ensures var (o, r) := ApplyReq(t, owner, token, ns, alg, req);
            && (o.None? <==> CapacityAgrees(t, ns, alg, req))
            && (o.Some? ==> r == t)
            && (o.None? ==> Applied(t, pol, owner, token, ns, alg, req))
  {
    hide ScopedPath, ApplyWrite, ApplyRead, Good, Grew, Onward, HeldClear, WriteClear, ReadClear;
    if req.state == Held { ApplyHeldOk(t, pol, owner, token, ns, alg, req); }
    else if alg.Semaphore? {
      if CapacityAgrees(t, ns, alg, req) { ApplyNewSemaphoreOk(t, pol, owner, token, ns, alg, req); }
    }
    else if req.mode == Write { ApplyNewWriteOk(t, pol, owner, token, ns, alg, req); }
    else { ApplyNewReadOk(t, pol, owner, token, ns, alg, req); }
  }

  // --- later requests of the list stay clear ---

  /** `r` differs from `t` by records of one owner on one path. */
  ghost predicate OneOwnersRecord(t: Tables, r: Tables, owner: string, token: int, key: string) {
    && ((r.wr == t.wr && r.fence == t.fence) || (r.wr == t.wr[key := owner] && r.fence == t.fence[key := token]))
    && (r.rd == t.rd || r.rd == t.rd + {(key, owner)})
    && (r.sem == t.sem || r.sem == t.sem + {(key, owner)})
    && Grew(t, r, owner)
  }

  lemma AppliedRecord(t: Tables, pol: Policies, owner: string, token: int, ns: string, alg: LockAlgorithm, req: LockReq)
    requires Applied(t, pol, owner, token, ns, alg, req)
    ensures OneOwnersRecord(t, ApplyReq(t, owner, token, ns, alg, req).1, owner, token, ScopedPath(ns, req.path))
  {
    hide ScopedPath, Good, Onward, Grew, GetAncestors, ApplySemaphore, ApplyWrite, ApplyRead, RecordHold;
    var key := ScopedPath(ns, req.path);
    var a := if req.state == Held then t.HoldAlgorithm(Hold(owner, req.mode, key)) else alg;
    if a.Semaphore? { SemaphoreRecord(t, owner, ns, req); }
    else if req.mode == Write { WriteRecord(t, owner, token, ns, req, a); }
    else { ReadRecord(t, owner, ns, req, a); }
  }

  lemma SemaphoreRecord(t: Tables, owner: string, ns: string, req: LockReq)
    ensures var r := ApplySemaphore(t, owner, ns, req).1;
            r.wr == t.wr && r.fence == t.fence && r.rd == t.rd
            && (r.sem == t.sem || r.sem == t.sem + {(ScopedPath(ns, req.path), owner)})
  {
    hide ScopedPath;
  }

  lemma WriteRecord(t: Tables, owner: string, token: int, ns: string, req: LockReq, a: LockAlgorithm)
    ensures var (o, r) := ApplyWrite(t, owner, token, ns, req, a);
            r.rd == t.rd && r.sem == t.sem
            && (o.None? ==> r.wr == t.wr[ScopedPath(ns, req.path) := owner] && r.fence == t.fence[ScopedPath(ns, req.path) := token])
  {
    hide ScopedPath, IndexPairs;
  }

  lemma ReadRecord(t: Tables, owner: string, ns: string, req: LockReq, a: LockAlgorithm)
    ensures var r := ApplyRead(t, owner, ns, req, a);
            r.wr == t.wr && r.fence == t.fence && r.sem == t.sem && r.rd == t.rd + {(ScopedPath(ns, req.path), owner)}
  {
    hide ScopedPath, IndexPairs;
  }

  lemma ReadStaysClear(t: Tables, r: Tables, owner: string, token: int, key: string, k2: string)
    requires OneOwnersRecord(t, r, owner, token, key) && ReadClear(t, owner, k2)
    ensures ReadClear(r, owner, k2)
  {
    hide GetAncestors;
    forall a | RecursiveWriter(r, a) && r.wr[a] != owner ensures RecursiveWriter(t, a) && t.wr[a] == r.wr[a] {
      assert a in t.wr && t.wr[a] == r.wr[a];
    }
  }

  lemma WriteStaysClear(t: Tables, r: Tables, owner: string, token: int, key: string, k2: string, recursive: bool)
    requires OneOwnersRecord(t, r, owner, token, key) && WriteClear(t, owner, token, k2, recursive)
    ensures WriteClear(r, owner, token, k2, recursive)
  {
    ReadStaysClear(t, r, owner, token, key, k2);
    hide GetAncestors, ReadClear;
    assert recursive ==> SubtreeClear(r, owner, k2);
    assert k2 in t.wr ==> k2 in r.wr;
  }

  lemma StaysClear(t: Tables, r: Tables, owner: string, token: int, key: string, ns: string, alg: LockAlgorithm, q: LockReq)
    requires OneOwnersRecord(t, r, owner, token, key) && ReqClear(t, owner, token, ns, alg, q)
    ensures ReqClear(r, owner, token, ns, alg, q)
  {
    hide ScopedPath, ReadClear, WriteClear;
    var k2 := ScopedPath(ns, q.path);
    if q.state == Held {
    } else if alg.Semaphore? {
      if r.sem != t.sem && k2 != key { assert MembersAt(r.sem, k2) == MembersAt(t.sem, k2); }
    } else if q.mode == Write {
      WriteStaysClear(t, r, owner, token, key, k2, alg.Recursive());
    } else {
      ReadStaysClear(t, r, owner, token, key, k2);
    }
  }

  // --- the whole list ---

  lemma GrewTrans(t: Tables, r: Tables, s: Tables, owner: string)
    requires Grew(t, r, owner) && Grew(r, s, owner)
    ensures Grew(t, s, owner)
  {
  }

  lemma GrewRefl(t: Tables, owner: string)
    ensures Grew(t, t, owner) && Onward(t, t)
  {
  }

  /** Some new semaphore request names a capacity other than the stored one. */
  predicate Mismatch(t: Tables, ns: string, alg: LockAlgorithm, reqs: seq<LockReq>) {
    exists q :: q in reqs && !CapacityAgrees(t, ns, alg, q)
  }

  /** The list names one semaphore path twice with different permits. */
  predicate SelfConflicting(ns: string, alg: LockAlgorithm, reqs: seq<LockReq>) {
    && alg.Semaphore?
    && exists i, j :: 0 <= i < j < |reqs| && Clash(ns, reqs[i], reqs[j])
  }

  predicate Clash(ns: string, p: LockReq, q: LockReq) {
    p.state == New && q.state == New && ScopedPath(ns, p.path) == ScopedPath(ns, q.path) && p.permits != q.permits
  }

  ghost predicate AllClear(t: Tables, owner: string, token: int, ns: string, alg: LockAlgorithm, reqs: seq<LockReq>) {
    forall q :: q in reqs ==> ReqClear(t, owner, token, ns, alg, q)
  }

  /** Executing a validated list keeps the tables good, whatever its outcome. */
  lemma {:induction false} ApplyAllOk(
    t: Tables, pol: Policies, owner: string, token: int, ns: string, alg: LockAlgorithm, reqs: seq<LockReq>)
    requires Good(t, pol) && NoSep(ns) && alg == pol.InForce(ns) && AllClear(t, owner, token, ns, alg, reqs)
    ensures var (o, r) := ApplyAll(t, owner, token, ns, alg, reqs);
            && Good(r, pol) && Grew(t, r, owner) && Onward(t, r)
            && (o.None? ==> forall q :: q in reqs ==> Wanted(owner, ns, q) in r.alg)
    decreases |reqs|
  {
    hide ScopedPath, ApplyReq, Good, Grew, Onward, ReqClear, OneOwnersRecord;
    if reqs == [] {
      GrewRefl(t, owner);
    } else {
      var (o1, t1) := ApplyReq(t, owner, token, ns, alg, reqs[0]);
      ApplyReqOk(t, pol, owner, token, ns, alg, reqs[0]);
      if o1.Some? {
        GrewRefl(t, owner);
      } else {
        AppliedRecord(t, pol, owner, token, ns, alg, reqs[0]);
        forall q | q in reqs[1..] ensures ReqClear(t1, owner, token, ns, alg, q) {
          StaysClear(t, t1, owner, token, ScopedPath(ns, reqs[0].path), ns, alg, q);
        }
        ApplyAllOk(t1, pol, owner, token, ns, alg, reqs[1..]);
        var r := ApplyAll(t1, owner, token, ns, alg, reqs[1..]).1;
        GrewTrans(t, t1, r, owner);
        OnwardTrans(t, t1, r);
        GrewKeeps(t1, r, owner, Wanted(owner, ns, reqs[0]));
        assert forall q :: q in reqs ==> q == reqs[0] || q in reqs[1..];
      }
    }
  }

  lemma GrewKeeps(t: Tables, r: Tables, owner: string, h: Hold)
    requires Grew(t, r, owner) && h in t.alg
    ensures h in r.alg
  {
  }
}

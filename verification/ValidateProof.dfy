/** Validation: what it prunes, and what a pass establishes for every request. */
module ValidateProof {
  import opened Ordering
  import opened Paths
  import opened Expiry
  import opened LockSpec
  import opened LockInvariant
  import opened AcquireProof

  lemma {:induction false} AncestorsOk(t: Tables, now: Time, owner: string, ns: string, ancs: seq<string>)
    requires Core(t)
    ensures Pruned(t, ValidateAncestors(t, now, owner, ns, ancs).1, now)
    ensures var (o, r) := ValidateAncestors(t, now, owner, ns, ancs);
            o.None? ==> forall a :: a in ancs && RecursiveWriter(r, a) ==> r.wr[a] == owner
    decreases |ancs|
  {
    hide Drop, Core, PruneWriter, Pruned, PublicPath;
    if ancs == [] {
      PrunedRefl(t, now);
    } else {
      var a := ancs[0];
      var t1 := PruneWriter(t, now, a);
      PruneWriterOk(t, now, a);
      PrunedCore(t, t1, now);
      var (o, r) := ValidateAncestors(t, now, owner, ns, ancs);
      if !(RecursiveWriter(t1, a) && t1.wr[a] != owner) {
        AncestorsOk(t1, now, owner, ns, ancs[1..]);
        PrunedTrans(t, t1, r, now);
        RecursiveWriterKept(t1, r, now, a);
        assert forall x :: x in ancs ==> x == a || x in ancs[1..];
      }
    }
  }

  lemma RecursiveWriterKept(t: Tables, r: Tables, now: Time, a: string)
    requires Pruned(t, r, now) && Core(t)
    ensures RecursiveWriter(r, a) ==> RecursiveWriter(t, a) && r.wr[a] == t.wr[a]
  {
    if RecursiveWriter(r, a) { assert HasHold(t, Hold(t.wr[a], Write, a)); }
  }

  lemma WriterKept(t: Tables, r: Tables, now: Time, c: string)
    requires Pruned(t, r, now)
    ensures c in r.wr ==> c in t.wr && r.wr[c] == t.wr[c]
  {
  }

  /** A path without a writer has no index entry left to remove. */
  lemma NoWritePairs(t: Tables, key: string, c: string)
    requires Core(t) && c !in t.wr
    ensures t.(wrdesc := t.wrdesc - {(key, c)} - IndexPairs(c)) == t
  {
    assert t.wrdesc - {(key, c)} - IndexPairs(c) == t.wrdesc;
  }

  lemma NoReadPairs(t: Tables, key: string, c: string)
    requires Core(t) && !HasMember(t.rd, c)
    ensures t.(rddesc := t.rddesc - {(key, c)} - IndexPairs(c)) == t
    ensures forall x :: (c, x) !in t.rd
  {
    assert t.rddesc - {(key, c)} - IndexPairs(c) == t.rddesc;
    assert forall x :: (c, x) in t.rd ==> HasMember(t.rd, (c, x).0);
  }

  lemma {:induction false} DescendantWriteOk(
    t: Tables, now: Time, owner: string, ns: string, key: string, cs: seq<string>)
    requires Core(t)
    ensures Pruned(t, FindDescendantWrite(t, now, owner, ns, key, cs).1, now)
    ensures var (o, r) := FindDescendantWrite(t, now, owner, ns, key, cs);
            o.None? ==> forall c :: c in cs && c in r.wr ==> r.wr[c] == owner
    decreases |cs|
  {
    hide Drop, IndexExact, PruneWriter, PruneReaders;
    if cs == [] {
      PrunedRefl(t, now);
    } else {
      var c := cs[0];
      var t1 := PruneWriter(t, now, c);
      PruneWriterOk(t, now, c);
      PrunedCore(t, t1, now);
      var r := FindDescendantWrite(t, now, owner, ns, key, cs).1;
      if c !in t1.wr { NoWritePairs(t1, key, c); }
      if !(c in t1.wr && t1.wr[c] != owner) {
        DescendantWriteOk(t1, now, owner, ns, key, cs[1..]);
        PrunedTrans(t, t1, r, now);
        WriterKept(t1, r, now, c);
        assert forall x :: x in cs ==> x == c || x in cs[1..];
      }
    }
  }

  lemma {:induction false} FirstForeignOk(owners: seq<string>, owner: string)
    ensures FirstForeign(owners, owner).None? <==> forall o :: o in owners ==> o == owner
    ensures FirstForeign(owners, owner).Some? ==>
              FirstForeign(owners, owner).value in owners && FirstForeign(owners, owner).value != owner
  {
    if owners != [] {
      FirstForeignOk(owners[1..], owner);
      assert owners[0] in owners;
      assert forall o :: o in owners <==> o == owners[0] || o in owners[1..];
    }
  }

  lemma ForeignReaderOk(t: Tables, key: string, owner: string)
    ensures ForeignReader(t, key, owner).None? <==> forall o :: (key, o) in t.rd ==> o == owner
    ensures var f := ForeignReader(t, key, owner); f.Some? ==> (key, f.value) in t.rd && f.value != owner
  {
    FirstForeignOk(SortedStrings(MembersAt(t.rd, key)), owner);
  }

  lemma {:induction false} DescendantReadOk(
    t: Tables, now: Time, owner: string, ns: string, key: string, cs: seq<string>)
    requires Core(t)
    ensures Pruned(t, FindDescendantRead(t, now, owner, ns, key, cs).1, now)
    ensures var (o, r) := FindDescendantRead(t, now, owner, ns, key, cs);
            o.None? ==> forall c, x :: c in cs && (c, x) in r.rd ==> x == owner
    decreases |cs|
  {
    hide Drop, IndexExact, PruneWriter, PruneReaders;
    if cs == [] {
      PrunedRefl(t, now);
    } else {
      var c := cs[0];
      var t1 := PruneReaders(t, now, c);
      PruneReadersOk(t, now, c);
      PrunedCore(t, t1, now);
      ForeignReaderOk(t1, c, owner);
      var r := FindDescendantRead(t, now, owner, ns, key, cs).1;
      if !HasMember(t1.rd, c) { NoReadPairs(t1, key, c); }
      if !HasMember(t1.rd, c) || ForeignReader(t1, c, owner).None? {
        DescendantReadOk(t1, now, owner, ns, key, cs[1..]);
        PrunedTrans(t, t1, r, now);
        ForeignReadersStayGone(t1, r, now, owner, c);
        assert forall x :: x in cs ==> x == c || x in cs[1..];
      }
    }
  }

  /** The indexed search of a subtree: a pass means no foreign record is left below the path. */
  lemma SubtreeOk(t: Tables, now: Time, owner: string, ns: string, key: string)
    requires Core(t)
    ensures Pruned(t, ValidateSubtree(t, now, owner, ns, key).1, now)
    ensures ValidateSubtree(t, now, owner, ns, key).0.None? ==>
              SubtreeClear(ValidateSubtree(t, now, owner, ns, key).1, owner, key)
  {
    hide Drop, SubtreeClear, IndexExact;
    var ws := SortedStrings(MembersAt(t.wrdesc, key));
    DescendantWriteOk(t, now, owner, ns, key, ws);
    var (o1, t1) := FindDescendantWrite(t, now, owner, ns, key, ws);
    if o1.None? {
      PrunedCore(t, t1, now);
      var rs := SortedStrings(MembersAt(t1.rddesc, key));
      DescendantReadOk(t1, now, owner, ns, key, rs);
      var (o2, t2) := FindDescendantRead(t1, now, owner, ns, key, rs);
      PrunedTrans(t, t1, t2, now);
      if o2.None? { SubtreeClearFrom(t, t1, t2, now, owner, key, ws, rs); }
    }
  }

  lemma SubtreeClearFrom(
    t: Tables, t1: Tables, t2: Tables, now: Time, owner: string, key: string, ws: seq<string>, rs: seq<string>)
    requires Core(t) && Core(t1) && Pruned(t, t1, now) && Pruned(t1, t2, now)
    requires forall k :: k in ws <==> (key, k) in t.wrdesc
    requires forall k :: k in rs <==> (key, k) in t1.rddesc
    requires forall c :: c in ws && c in t1.wr ==> t1.wr[c] == owner
    requires forall c, x :: c in rs && (c, x) in t2.rd ==> x == owner
    ensures SubtreeClear(t2, owner, key)
  {
    forall k | IsStrictAncestor(key, k) && k in t2.wr ensures t2.wr[k] == owner {
      assert k in t1.wr && k in t.wr;
      assert k in ws;
    }
    forall k, o | IsStrictAncestor(key, k) && (k, o) in t2.rd ensures o == owner {
      assert (k, o) in t1.rd && HasMember(t1.rd, k);
      assert k in rs;
    }
  }

  lemma OwnWriteKept(t: Tables, r: Tables, now: Time, owner: string, key: string)
    requires Core(t) && Solid(t, owner, now) && Pruned(t, r, now)
    requires key in t.wr ==> t.wr[key] == owner
    ensures key in r.wr <==> key in t.wr
  {
    SolidKept(t, r, owner, now);
    if key in t.wr { assert HasHold(t, Hold(owner, Write, key)); }
  }

  lemma ForeignReadersStayGone(t: Tables, r: Tables, now: Time, owner: string, key: string)
    requires Pruned(t, r, now)
    requires forall o :: (key, o) in t.rd ==> o == owner
    ensures forall o :: (key, o) in r.rd ==> o == owner
  {
  }

  lemma NewWriteOk(
    t: Tables, now: Time, owner: string, token: int, ns: string, alg: LockAlgorithm, path: string, same: bool)
    requires Core(t) && Solid(t, owner, now)
    requires ReadClear(t, owner, ScopedPath(ns, path)) && same == (ScopedPath(ns, path) in t.wr)
    ensures Pruned(t, ValidateNewWrite(t, now, owner, token, ns, alg, path, same).1, now)
    ensures var (o, r) := ValidateNewWrite(t, now, owner, token, ns, alg, path, same);
            o.None? ==> WriteClear(r, owner, token, ScopedPath(ns, path), alg.Recursive())
  {
    hide Drop, SubtreeClear, IndexExact, ScopedPath, Core, Pruned, PruneReaders, AncestorsClear, ValidateSubtree, ForeignReader, PublicPath;
    var key := ScopedPath(ns, path);
    var t1 := PruneReaders(t, now, key);
    PruneReadersOk(t, now, key);
    PrunedCore(t, t1, now);
    ForeignReaderOk(t1, key, owner);
    if ForeignReader(t1, key, owner).None? {
      var (o2, t2) := if alg.Recursive() then ValidateSubtree(t1, now, owner, ns, key) else (None, t1);
      if alg.Recursive() { SubtreeOk(t1, now, owner, ns, key); } else { PrunedRefl(t1, now); }
      PrunedTrans(t, t1, t2, now);
      ReadClearKept(t, t2, now, owner, key);
      OwnWriteKept(t, t2, now, owner, key);
      if o2.None? { ForeignReadersStayGone(t1, t2, now, owner, key); }
    }
  }

  lemma NewSemaphoreOk(t: Tables, now: Time, owner: string, ns: string, req: LockReq)
    requires Core(t) && req.state == New && req.mode == Write
    ensures Pruned(t, ValidateNewSemaphore(t, now, owner, ns, req).1, now)
    ensures var (o, r) := ValidateNewSemaphore(t, now, owner, ns, req);
            o.None? ==> SemaphoreClear(r, owner, ns, req) && CapacityAgrees(r, ns, Semaphore, req)
  {
    PrunedRefl(t, now);
    PruneSemaphoreOk(t, now, ScopedPath(ns, req.path));
  }

  lemma NewOk(t: Tables, now: Time, owner: string, token: int, ns: string, alg: LockAlgorithm, req: LockReq)
    requires Core(t) && Solid(t, owner, now) && req.state == New
    ensures Pruned(t, ValidateNew(t, now, owner, token, ns, alg, req).1, now)
    ensures var (o, r) := ValidateNew(t, now, owner, token, ns, alg, req);
            o.None? ==> ReqClear(r, owner, token, ns, alg, req) && CapacityAgrees(r, ns, alg, req)
  {
    var key := ScopedPath(ns, req.path);
    PrunedRefl(t, now);
    if alg.AllowsMode(req.mode) {
      var (o1, t1) := ValidateAncestors(t, now, owner, ns, GetAncestors(key));
      AncestorsOk(t, now, owner, ns, GetAncestors(key));
      PrunedCore(t, t1, now);
      SolidKept(t, t1, owner, now);
      if o1.None? {
        if alg.Semaphore? {
          NewSemaphoreOk(t1, now, owner, ns, req);
          PrunedTrans(t, t1, ValidateNewSemaphore(t1, now, owner, ns, req).1, now);
        } else {
          NewLockOk(t, t1, now, owner, token, ns, alg, req);
        }
      }
    }
  }

  lemma NewLockOk(
    t: Tables, t1: Tables, now: Time, owner: string, token: int, ns: string, alg: LockAlgorithm, req: LockReq)
    requires Core(t) && Pruned(t, t1, now) && Core(t1) && Solid(t1, owner, now) && req.state == New
    requires !alg.Semaphore? && alg.AllowsMode(req.mode)
    requires ValidateAncestors(t, now, owner, ns, GetAncestors(ScopedPath(ns, req.path))) == (None, t1)
    requires AncestorsClear(t1, owner, ScopedPath(ns, req.path))
    ensures Pruned(t, ValidateNew(t, now, owner, token, ns, alg, req).1, now)
    ensures var (o, r) := ValidateNew(t, now, owner, token, ns, alg, req);
            o.None? ==> ReqClear(r, owner, token, ns, alg, req)
  {
    hide Drop, SubtreeClear, IndexExact, ScopedPath;
    var key := ScopedPath(ns, req.path);
    var t2 := PruneWriter(t1, now, key);
    PruneWriterOk(t1, now, key);
    PrunedTrans(t, t1, t2, now);
    PrunedCore(t1, t2, now);
    SolidKept(t1, t2, owner, now);
    if !(key in t2.wr && t2.wr[key] != owner) {
      forall a | RecursiveWriter(t2, a) ensures RecursiveWriter(t1, a) && t2.wr[a] == t1.wr[a] {
        RecursiveWriterKept(t1, t2, now, a);
      }
      if req.mode == Write {
        NewWriteOk(t2, now, owner, token, ns, alg, req.path, key in t2.wr);
        PrunedTrans(t, t2, ValidateNewWrite(t2, now, owner, token, ns, alg, req.path, key in t2.wr).1, now);
      }
    }
  }

  lemma ReqOk(t: Tables, now: Time, owner: string, token: int, ns: string, alg: LockAlgorithm, req: LockReq)
    requires Core(t) && Solid(t, owner, now)
    ensures Pruned(t, ValidateReq(t, now, owner, token, ns, alg, req).1, now)
    ensures var (o, r) := ValidateReq(t, now, owner, token, ns, alg, req);
            o.None? ==> ReqClear(r, owner, token, ns, alg, req) && CapacityAgrees(r, ns, alg, req)
  {
    if req.state == Held {
      PrunedRefl(t, now);
      assert HasHold(t, Hold(owner, req.mode, ScopedPath(ns, req.path))) <==>
             Hold(owner, req.mode, ScopedPath(ns, req.path)) in t.alg;
    } else {
      NewOk(t, now, owner, token, ns, alg, req);
    }
  }

  /** Validation of a whole request list. */
  lemma {:induction false} AllOk(
    t: Tables, now: Time, owner: string, token: int, ns: string, alg: LockAlgorithm, reqs: seq<LockReq>)
    requires Core(t) && Solid(t, owner, now)
    ensures Pruned(t, ValidateAll(t, now, owner, token, ns, alg, reqs).1, now)
    ensures var (o, r) := ValidateAll(t, now, owner, token, ns, alg, reqs);
            o.None? ==> forall q :: q in reqs ==> ReqClear(r, owner, token, ns, alg, q) && CapacityAgrees(r, ns, alg, q)
    decreases |reqs|
  {
    if reqs == [] {
      PrunedRefl(t, now);
    } else {
      var (o1, t1) := ValidateReq(t, now, owner, token, ns, alg, reqs[0]);
      ReqOk(t, now, owner, token, ns, alg, reqs[0]);
      if o1.None? {
        PrunedCore(t, t1, now);
        SolidKept(t, t1, owner, now);
        AllOk(t1, now, owner, token, ns, alg, reqs[1..]);
        var (o, r) := ValidateAll(t1, now, owner, token, ns, alg, reqs[1..]);
        PrunedTrans(t, t1, r, now);
        ReqClearKept(t1, r, now, owner, token, ns, alg, reqs[0]);
        assert forall q :: q in reqs ==> q == reqs[0] || q in reqs[1..];
      }
    }
  }
}

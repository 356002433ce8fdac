/** Whom a refusal names: the owner reported to a client has a live hold in its way at the reported path. */
module Blame {
  import opened Ordering
  import opened Paths
  import opened Expiry
  import opened LockSpec
  import opened LockInvariant
  import opened AcquireProof
  import opened ValidateProof
  import opened ApplyProof
  import opened EngineProof
  import opened Decision
  import opened AllOrNothing
  import opened AcquireDecision
  import opened AcquireFrame
  import opened Outcomes
  import opened Leftover

  // --- the three searches ---

  ghost predicate BlamesWriter(t: Tables, now: Time, owner: string, ns: string, o: AcquireOutcome, reason: Reason, a: string) {
    LiveWriter(t, now, owner, a) && o == Conflict(PublicPath(ns, a), t.wr[a], 0, reason)
  }

  ghost predicate BlamesReader(t: Tables, now: Time, owner: string, ns: string, o: AcquireOutcome, c: string, x: string) {
    (c, x) in t.rd && x != owner && t.Alive(x, now) && o == Conflict(PublicPath(ns, c), x, 0, DescendantReadLocked)
  }

  lemma WriterBefore(t: Tables, r: Tables, now: Time, owner: string, ns: string, o: AcquireOutcome, reason: Reason, a: string)
    requires Pruned(t, r, now) && Core(t) && BlamesWriter(r, now, owner, ns, o, reason, a)
    ensures BlamesWriter(t, now, owner, ns, o, reason, a) && (RecursiveWriter(r, a) ==> RecursiveWriter(t, a))
  {
    hide Pruned, Core, PublicPath, RecursiveWriter;
    LiveSame(t, r, now, owner, a);
    WriterKept(t, r, now, a);
  }

  lemma {:induction false} AncestorsBlame(t: Tables, now: Time, owner: string, ns: string, ancs: seq<string>)
    requires Core(t)
    ensures var o := ValidateAncestors(t, now, owner, ns, ancs).0;
            o.Some? ==> exists a :: a in ancs && RecursiveWriter(t, a) && BlamesWriter(t, now, owner, ns, o.value, AncestorLocked, a)
    decreases |ancs|
  {
    hide Pruned, Core, Drop, PruneWriter, PublicPath;
    if ancs != [] {
      var a := ancs[0];
      var t1 := PruneWriter(t, now, a);
      PruneWriterOk(t, now, a);
      PrunedCore(t, t1, now);
      PrunedAlive(t, t1, now);
      AncestorsBlame(t1, now, owner, ns, ancs[1..]);
      var o := ValidateAncestors(t, now, owner, ns, ancs).0;
      if o.Some? {
        var b := a;
        if !(a in t1.wr && t1.wr[a] != owner && RecursiveWriter(t1, a)) {
          b :| b in ancs[1..] && RecursiveWriter(t1, b) && BlamesWriter(t1, now, owner, ns, o.value, AncestorLocked, b);
        }
        assert b in ancs;
        WriterBefore(t, t1, now, owner, ns, o.value, AncestorLocked, b);
      }
    }
  }

  lemma {:induction false} DescendantWriteBlames(t: Tables, now: Time, owner: string, ns: string, key: string, cs: seq<string>)
    requires Core(t)
    ensures var o := FindDescendantWrite(t, now, owner, ns, key, cs).0;
            o.Some? ==> exists c :: c in cs && BlamesWriter(t, now, owner, ns, o.value, DescendantWriteLocked, c)
    decreases |cs|
  {
    hide Pruned, Core, Drop, PruneWriter, IndexPairs, PublicPath;
    if cs != [] {
      var c := cs[0];
      var t1 := PruneWriter(t, now, c);
      PruneWriterOk(t, now, c);
      PrunedCore(t, t1, now);
      PrunedAlive(t, t1, now);
      if c !in t1.wr { NoWritePairs(t1, key, c); }
      DescendantWriteBlames(t1, now, owner, ns, key, cs[1..]);
      var o := FindDescendantWrite(t, now, owner, ns, key, cs).0;
      if o.Some? {
        var b := c;
        if c !in t1.wr || t1.wr[c] == owner {
          b :| b in cs[1..] && BlamesWriter(t1, now, owner, ns, o.value, DescendantWriteLocked, b);
        }
        assert b in cs;
        WriterBefore(t, t1, now, owner, ns, o.value, DescendantWriteLocked, b);
      }
    }
  }

  lemma ReadersLive(t: Tables, now: Time, c: string)
    requires Core(t)
    ensures forall x :: (c, x) in PruneReaders(t, now, c).rd ==> t.Alive(x, now)
  {
  }

  lemma ReaderBefore(t: Tables, r: Tables, now: Time, owner: string, ns: string, o: AcquireOutcome, c: string, x: string)
    requires Pruned(t, r, now) && BlamesReader(r, now, owner, ns, o, c, x)
    ensures BlamesReader(t, now, owner, ns, o, c, x)
  {
    hide PublicPath;
  }

  lemma {:induction false} DescendantReadBlames(t: Tables, now: Time, owner: string, ns: string, key: string, cs: seq<string>)
    requires Core(t)
    ensures var o := FindDescendantRead(t, now, owner, ns, key, cs).0;
            o.Some? ==> exists c, x :: c in cs && BlamesReader(t, now, owner, ns, o.value, c, x)
    decreases |cs|
  {
    hide Pruned, Core, Drop, PruneReaders, IndexPairs, PublicPath, ForeignReader;
    if cs != [] {
      var c := cs[0];
      var t1 := PruneReaders(t, now, c);
      PruneReadersOk(t, now, c);
      PrunedCore(t, t1, now);
      PrunedAlive(t, t1, now);
      ForeignReaderOk(t1, c, owner);
      ReadersLive(t, now, c);
      if !HasMember(t1.rd, c) { NoReadPairs(t1, key, c); }
      DescendantReadBlames(t1, now, owner, ns, key, cs[1..]);
      var o := FindDescendantRead(t, now, owner, ns, key, cs).0;
      if o.Some? {
        var b, x := c, owner;
        if HasMember(t1.rd, c) && ForeignReader(t1, c, owner).Some? {
          x := ForeignReader(t1, c, owner).value;
        } else {
          b, x :| b in cs[1..] && BlamesReader(t1, now, owner, ns, o.value, b, x);
        }
        assert b in cs;
        ReaderBefore(t, t1, now, owner, ns, o.value, b, x);
      }
    }
  }

  // --- one new request ---

  /** The reason a hold that is in the way of a request gives for refusing it. */
  predicate GivesReason(alg: LockAlgorithm, key: string, h: Hold, reason: Reason) {
    if IsStrictAncestor(h.key, key) then reason == AncestorLocked
    else if alg.Semaphore? then reason == SemaphoreFull
    else if h.mode == Write then reason == if h.key == key then WriteLocked else DescendantWriteLocked
    else reason == if h.key == key then ReadLocked else DescendantReadLocked
  }

  /** The refusal names a live hold in the way of the request: its owner, the path it is on, and how it is in the way. */
  ghost predicate Names(t: Tables, now: Time, owner: string, ns: string, alg: LockAlgorithm, q: LockReq, o: AcquireOutcome, h: Hold) {
    var key := ScopedPath(ns, q.path);
    && InWay(t, now, owner, alg, key, q.mode, h) && o.Conflict? && o.owner == h.owner && GivesReason(alg, key, h, o.reason)
    && o.path == if h.key == key then q.path else PublicPath(ns, h.key)
  }

  lemma NotOwnAncestor(key: string)
    ensures !IsStrictAncestor(key, key)
  {
    hide GetAncestors, DescendantPrefix, NamespaceOf;
    if IsStrictAncestor(key, key) { AncestorShape(key, key); assert false; }
  }

  lemma WriterNamed(t: Tables, pol: Policies, now: Time, owner: string, ns: string, alg: LockAlgorithm, q: LockReq, o: AcquireOutcome, k: string)
    requires Good(t, pol) && LiveWriter(t, now, owner, k) && alg.AllowsMode(q.mode) && o.Conflict? && o.owner == t.wr[k]
    requires o.path == if k == ScopedPath(ns, q.path) then q.path else PublicPath(ns, k)
    requires var key := ScopedPath(ns, q.path);
             || (k == key && !alg.Semaphore? && o.reason == WriteLocked)
             || (IsStrictAncestor(k, key) && RecursiveWriter(t, k) && o.reason == AncestorLocked)
             || (IsStrictAncestor(key, k) && q.mode == Write && alg.Recursive() && o.reason == DescendantWriteLocked)
    ensures Names(t, now, owner, ns, alg, q, o, Hold(t.wr[k], Write, k))
  {
    hide Good, ScopedPath, PublicPath, GetAncestors, DescendantPrefix, NamespaceOf;
    var h := Hold(t.wr[k], Write, k);
    GoodCore(t, pol);
    LockOnRecord(t, h);
    var key := ScopedPath(ns, q.path);
    NotOwnAncestor(key);
    if IsStrictAncestor(k, key) { AncestorShape(k, key); }
    if IsStrictAncestor(key, k) { AncestorShape(key, k); }
  }

  lemma ReaderNamed(t: Tables, pol: Policies, now: Time, owner: string, ns: string, alg: LockAlgorithm, q: LockReq, o: AcquireOutcome, k: string, x: string)
    requires Good(t, pol) && (k, x) in t.rd && x != owner && t.Alive(x, now) && q.mode == Write && o.Conflict? && o.owner == x
    requires o.path == if k == ScopedPath(ns, q.path) then q.path else PublicPath(ns, k)
    requires || (k == ScopedPath(ns, q.path) && !alg.Semaphore? && o.reason == ReadLocked)
             || (IsStrictAncestor(ScopedPath(ns, q.path), k) && alg.Recursive() && o.reason == DescendantReadLocked)
    ensures Names(t, now, owner, ns, alg, q, o, Hold(x, Read, k))
  {
    hide Good, ScopedPath, PublicPath, GetAncestors, DescendantPrefix, NamespaceOf;
    var h := Hold(x, Read, k);
    GoodCore(t, pol);
    LockOnRecord(t, h);
    StoredModeAllowed(t, pol, h);
    NotOwnAncestor(k);
    if IsStrictAncestor(k, ScopedPath(ns, q.path)) { AncestorShape(k, ScopedPath(ns, q.path)); }
    if IsStrictAncestor(ScopedPath(ns, q.path), k) { AncestorShape(ScopedPath(ns, q.path), k); }
  }

  lemma HolderNamed(t: Tables, pol: Policies, now: Time, owner: string, ns: string, q: LockReq, o: AcquireOutcome, x: string)
    requires Good(t, pol) && (ScopedPath(ns, q.path), x) in t.sem && x != owner && t.Alive(x, now) && q.mode == Write
    requires o.Conflict? && o.owner == x && o.path == q.path && o.reason == SemaphoreFull
    ensures Names(t, now, owner, ns, Semaphore, q, o, Hold(x, Write, ScopedPath(ns, q.path)))
  {
    hide Good, ScopedPath, PublicPath, GetAncestors;
    NotOwnAncestor(ScopedPath(ns, q.path));
    SemaphoreOnRecord(t, pol, ScopedPath(ns, q.path), x);
  }

  ghost predicate BlamesBelow(t: Tables, now: Time, owner: string, ns: string, key: string, o: AcquireOutcome) {
    || (exists c :: IsStrictAncestor(key, c) && BlamesWriter(t, now, owner, ns, o, DescendantWriteLocked, c))
    || (exists c, x :: IsStrictAncestor(key, c) && BlamesReader(t, now, owner, ns, o, c, x))
  }

  lemma SubtreeBlames(t: Tables, now: Time, owner: string, ns: string, key: string)
    requires Core(t)
    ensures var o := ValidateSubtree(t, now, owner, ns, key).0; o.Some? ==> BlamesBelow(t, now, owner, ns, key, o.value)
  {
    var ws := SortedStrings(MembersAt(t.wrdesc, key));
    IndexedBelow(t, key);
    DescendantWriteBlames(t, now, owner, ns, key, ws);
    DescendantWriteOk(t, now, owner, ns, key, ws);
    hide Core, Pruned, FindDescendantWrite, FindDescendantRead, SortedStrings, MembersAt, BlamesWriter, BlamesReader, IsStrictAncestor;
    var (o1, t1) := FindDescendantWrite(t, now, owner, ns, key, ws);
    if o1.None? {
      var rs := SortedStrings(MembersAt(t1.rddesc, key));
      PrunedCore(t, t1, now);
      IndexedBelow(t1, key);
      DescendantReadBlames(t1, now, owner, ns, key, rs);
      var o := FindDescendantRead(t1, now, owner, ns, key, rs).0;
      if o.Some? {
        var c, x :| c in rs && BlamesReader(t1, now, owner, ns, o.value, c, x);
        ReaderBefore(t, t1, now, owner, ns, o.value, c, x);
      }
    }
  }

  lemma IndexedBelow(t: Tables, key: string)
    requires Core(t)
    ensures forall c :: c in SortedStrings(MembersAt(t.wrdesc, key)) ==> IsStrictAncestor(key, c)
    ensures forall c :: c in SortedStrings(MembersAt(t.rddesc, key)) ==> IsStrictAncestor(key, c)
  {
    hide GetAncestors;
  }

  lemma BelowBefore(t: Tables, r: Tables, now: Time, owner: string, ns: string, key: string, o: AcquireOutcome)
    requires Pruned(t, r, now) && Core(t) && BlamesBelow(r, now, owner, ns, key, o)
    ensures BlamesBelow(t, now, owner, ns, key, o)
  {
    hide Pruned, Core, BlamesWriter, BlamesReader, IsStrictAncestor, RecursiveWriter;
    if c :| IsStrictAncestor(key, c) && BlamesWriter(r, now, owner, ns, o, DescendantWriteLocked, c) {
      WriterBefore(t, r, now, owner, ns, o, DescendantWriteLocked, c);
    } else {
      var c, x :| IsStrictAncestor(key, c) && BlamesReader(r, now, owner, ns, o, c, x);
      ReaderBefore(t, r, now, owner, ns, o, c, x);
    }
  }

  ghost predicate BlamesHere(t: Tables, now: Time, owner: string, key: string, path: string, o: AcquireOutcome) {
    exists x :: (key, x) in t.rd && x != owner && t.Alive(x, now) && o == Conflict(path, x, 0, ReadLocked)
  }

  lemma NewWriteBlames(t: Tables, now: Time, owner: string, token: int, ns: string, alg: LockAlgorithm, path: string, same: bool)
    requires Core(t)
    ensures var o := ValidateNewWrite(t, now, owner, token, ns, alg, path, same).0;
            RefusedForContention(o) ==>
              || BlamesHere(t, now, owner, ScopedPath(ns, path), path, o.value)
              || (alg.Recursive() && BlamesBelow(t, now, owner, ns, ScopedPath(ns, path), o.value))
  {
    hide Pruned, Core, PruneReaders, ScopedPath, ValidateSubtree, ForeignReader, BlamesBelow;
    var key := ScopedPath(ns, path);
    var t1 := PruneReaders(t, now, key);
    PruneReadersOk(t, now, key);
    PrunedCore(t, t1, now);
    PrunedAlive(t, t1, now);
    ForeignReaderOk(t1, key, owner);
    ReadersLive(t, now, key);
    ReadersFewer(t, t1, now);
    SubtreeBlames(t1, now, owner, ns, key);
    var o := ValidateSubtree(t1, now, owner, ns, key).0;
    if o.Some? { BelowBefore(t, t1, now, owner, ns, key, o.value); }
  }

  lemma ReadersFewer(t: Tables, r: Tables, now: Time)
    requires Pruned(t, r, now)
    ensures r.rd <= t.rd && r.sem <= t.sem
  {
  }

  lemma SemaphoreBlames(t: Tables, now: Time, owner: string, ns: string, q: LockReq)
    ensures var o := ValidateNewSemaphore(t, now, owner, ns, q).0;
            RefusedForContention(o) ==>
              && o.value.path == q.path && o.value.owner != owner && o.value.reason == SemaphoreFull
              && (ScopedPath(ns, q.path), o.value.owner) in t.sem && t.Alive(o.value.owner, now)
  {
    hide ScopedPath;
    var key := ScopedPath(ns, q.path);
    var t1 := PruneSemaphore(t, now, key);
    var holders := SortedStrings(MembersAt(t1.sem, key));
    if holders != [] { assert holders[0] in holders; }
  }

  ghost predicate NamesSome(t: Tables, now: Time, owner: string, ns: string, alg: LockAlgorithm, q: LockReq, o: AcquireOutcome) {
    exists h :: Names(t, now, owner, ns, alg, q, o, h)
  }

  lemma BelowNamed(t: Tables, pol: Policies, now: Time, owner: string, ns: string, alg: LockAlgorithm, q: LockReq, o: AcquireOutcome)
    requires Good(t, pol) && q.mode == Write && alg.Recursive() && BlamesBelow(t, now, owner, ns, ScopedPath(ns, q.path), o)
    ensures NamesSome(t, now, owner, ns, alg, q, o)
  {
    hide Good, ScopedPath, PublicPath, Names, DescendantPrefix, NamespaceOf, GetAncestors;
    var key := ScopedPath(ns, q.path);
    if c :| IsStrictAncestor(key, c) && BlamesWriter(t, now, owner, ns, o, DescendantWriteLocked, c) {
      AncestorShape(key, c);
      WriterNamed(t, pol, now, owner, ns, alg, q, o, c);
    } else {
      var c, x :| IsStrictAncestor(key, c) && BlamesReader(t, now, owner, ns, o, c, x);
      AncestorShape(key, c);
      ReaderNamed(t, pol, now, owner, ns, alg, q, o, c, x);
    }
  }

  lemma AncestorNamed(t: Tables, pol: Policies, now: Time, owner: string, ns: string, alg: LockAlgorithm, q: LockReq, o: AcquireOutcome, a: string)
    requires Good(t, pol) && alg.AllowsMode(q.mode) && a in GetAncestors(ScopedPath(ns, q.path)) && RecursiveWriter(t, a)
    requires BlamesWriter(t, now, owner, ns, o, AncestorLocked, a)
    ensures NamesSome(t, now, owner, ns, alg, q, o)
  {
    hide Good, ScopedPath, PublicPath, Names, DescendantPrefix, NamespaceOf;
    AncestorShape(a, ScopedPath(ns, q.path));
    WriterNamed(t, pol, now, owner, ns, alg, q, o, a);
  }

  /** A new request refused for contention names a live hold that is in its way. */
  lemma NewBlames(t: Tables, pol: Policies, now: Time, owner: string, token: int, ns: string, alg: LockAlgorithm, q: LockReq)
    requires Good(t, pol)
    ensures var o := ValidateNew(t, now, owner, token, ns, alg, q).0; RefusedForContention(o) ==> NamesSome(t, now, owner, ns, alg, q, o.value)
  {
    hide Good, Pruned, Core, PruneWriter, ScopedPath, ValidateAncestors, ValidateNewWrite, ValidateNewSemaphore, GetAncestors, PublicPath, NamesSome,
         BlamesBelow, RecursiveWriter;
    var key := ScopedPath(ns, q.path);
    var o := ValidateNew(t, now, owner, token, ns, alg, q).0;
    LockInvariantCore(t, pol);
    var (o1, t1) := ValidateAncestors(t, now, owner, ns, GetAncestors(key));
    AncestorsBlame(t, now, owner, ns, GetAncestors(key));
    AncestorsOk(t, now, owner, ns, GetAncestors(key));
    PrunedCore(t, t1, now);
    PrunedAlive(t, t1, now);
    if RefusedForContention(o) {
      if o1.Some? {
        var a :| a in GetAncestors(key) && RecursiveWriter(t, a) && BlamesWriter(t, now, owner, ns, o1.value, AncestorLocked, a);
        AncestorNamed(t, pol, now, owner, ns, alg, q, o.value, a);
      } else if alg.Semaphore? {
        SemaphoreBlames(t1, now, owner, ns, q);
        ReadersFewer(t, t1, now);
        HolderNamed(t, pol, now, owner, ns, q, o.value, o.value.owner);
        assert Names(t, now, owner, ns, alg, q, o.value, Hold(o.value.owner, Write, key));
        NamedIs(t, now, owner, ns, alg, q, o.value, Hold(o.value.owner, Write, key));
      } else {
        LockBlames(t, t1, pol, now, owner, token, ns, alg, q);
      }
    }
  }

  lemma NamedIs(t: Tables, now: Time, owner: string, ns: string, alg: LockAlgorithm, q: LockReq, o: AcquireOutcome, h: Hold)
    requires Names(t, now, owner, ns, alg, q, o, h)
    ensures NamesSome(t, now, owner, ns, alg, q, o)
  {
  }

  lemma LockBlames(t: Tables, t1: Tables, pol: Policies, now: Time, owner: string, token: int, ns: string, alg: LockAlgorithm, q: LockReq)
    requires Good(t, pol) && Pruned(t, t1, now) && !alg.Semaphore? && alg.AllowsMode(q.mode)
    requires ValidateAncestors(t, now, owner, ns, GetAncestors(ScopedPath(ns, q.path))) == (None, t1)
    requires RefusedForContention(ValidateNew(t, now, owner, token, ns, alg, q).0)
    ensures NamesSome(t, now, owner, ns, alg, q, ValidateNew(t, now, owner, token, ns, alg, q).0.value)
  {
    hide Good, Pruned, Core, PruneWriter, ScopedPath, ValidateAncestors, ValidateNewWrite, GetAncestors, PublicPath, NamesSome, BlamesBelow, RecursiveWriter,
         Names;
    var key := ScopedPath(ns, q.path);
    var o := ValidateNew(t, now, owner, token, ns, alg, q).0.value;
    LockInvariantCore(t, pol);
    PrunedCore(t, t1, now);
    var t2 := PruneWriter(t1, now, key);
    PruneWriterOk(t1, now, key);
    PrunedTrans(t, t1, t2, now);
    PrunedCore(t, t2, now);
    PrunedAlive(t, t1, now);
    PrunedAlive(t, t2, now);
    LiveSame(t, t2, now, owner, key);
    WriterKept(t, t2, now, key);
    if key in t2.wr && t2.wr[key] != owner {
      WriterNamed(t, pol, now, owner, ns, alg, q, o, key);
      NamedIs(t, now, owner, ns, alg, q, o, Hold(t.wr[key], Write, key));
    } else {
      NewWriteBlames(t2, now, owner, token, ns, alg, q.path, key in t2.wr);
      if BlamesHere(t2, now, owner, key, q.path, o) {
        var x :| (key, x) in t2.rd && x != owner && t2.Alive(x, now) && o == Conflict(q.path, x, 0, ReadLocked);
        ReadersFewer(t, t2, now);
        ReaderNamed(t, pol, now, owner, ns, alg, q, o, key, x);
        NamedIs(t, now, owner, ns, alg, q, o, Hold(x, Read, key));
      } else {
        BelowBefore(t, t2, now, owner, ns, key, o);
        BelowNamed(t, pol, now, owner, ns, alg, q, o);
      }
    }
  }

  // --- the whole acquire ---

  lemma NamedBefore(t: Tables, r: Tables, now: Time, owner: string, ns: string, alg: LockAlgorithm, q: LockReq, o: AcquireOutcome)
    requires forall h :: HeldLive(r, now, h) ==> HeldLive(t, now, h) && r.alg[h] == t.alg[h]
    requires NamesSome(r, now, owner, ns, alg, q, o)
    ensures NamesSome(t, now, owner, ns, alg, q, o)
  {
    hide LocksConflict, ScopedPath, PublicPath, GivesReason;
    var h :| Names(r, now, owner, ns, alg, q, o, h);
    assert Names(t, now, owner, ns, alg, q, o, h);
  }

  lemma PrunedLive(t: Tables, r: Tables, now: Time)
    requires Pruned(t, r, now)
    ensures forall h :: HeldLive(r, now, h) ==> HeldLive(t, now, h) && r.alg[h] == t.alg[h]
  {
  }

  lemma {:induction false} ListBlames(
    t: Tables, pol: Policies, now: Time, owner: string, token: int, ns: string, alg: LockAlgorithm, reqs: seq<LockReq>, i: nat)
    requires Good(t, pol) && Solid(t, owner, now) && i < |reqs| && !Grantable(t, now, owner, token, ns, alg, reqs[i])
    requires forall j :: 0 <= j < i ==> Grantable(t, now, owner, token, ns, alg, reqs[j])
    ensures var o := ValidateAll(t, now, owner, token, ns, alg, reqs).0;
            RefusedForContention(o) ==> NamesSome(t, now, owner, ns, alg, reqs[i], o.value)
    decreases |reqs|
  {
    hide Good, Solid, Pruned, Grantable, ValidateNew, ValidateHeld, ReqClear, CapacityAgrees, Core, NamesSome, HeldLive;
    var p, rest := reqs[0], reqs[1..];
    ReqDecides(t, pol, now, owner, token, ns, alg, p);
    if i == 0 {
      HeldRefuses(t, pol, owner, token, ns, p);
      NewBlames(t, pol, now, owner, token, ns, alg, p);
    } else {
      GoodCore(t, pol);
      ReqOk(t, now, owner, token, ns, alg, p);
      hide ValidateReq;
      var t1 := ValidateReq(t, now, owner, token, ns, alg, p).1;
      PrunedGood(t, t1, now, pol);
      SolidKept(t, t1, owner, now);
      forall q ensures Grantable(t1, now, owner, token, ns, alg, q) <==> Grantable(t, now, owner, token, ns, alg, q) {
        GrantableSame(t, t1, pol, now, owner, token, ns, alg, q);
      }
      assert forall j :: 0 <= j < i - 1 ==> rest[j] == reqs[j + 1];
      ListBlames(t1, pol, now, owner, token, ns, alg, rest, i - 1);
      var o := ValidateAll(t, now, owner, token, ns, alg, reqs).0;
      PrunedLive(t, t1, now);
      if RefusedForContention(o) { NamedBefore(t, t1, now, owner, ns, alg, reqs[i], o.value); }
    }
  }

  lemma BeginLive(t: Tables, now: Time, args: AcquireArgs)
    ensures var t0 := BeginAcquire(t, now, args); forall h :: HeldLive(t0, now, h) ==> HeldLive(t, now, h) && t0.alg[h] == t.alg[h]
  {
  }

  /**
   An acquire refused for contention names, for the first request that cannot be
   granted, another owner's live hold in its way: who has it, on which path, and how
   it conflicts.
   */
  lemma AcquireBlames(t: Tables, pol: Policies, now: Time, ns: string, alg: LockAlgorithm, args: AcquireArgs)
    requires Good(t, pol) && NoSep(ns) && alg == pol.InForce(ns) && RefusedForContention(Some(Acquire(t, now, ns, alg, args).0))
    ensures var o := Acquire(t, now, ns, alg, args).0;
            exists i: nat, h :: FirstRefused(t, now, ns, alg, args, i) && Names(t, now, args.owner, ns, alg, args.requests[i], o, h)
  {
    hide Good, NoSep, Acquire, GrantableTo, Contends, Outdated, Names;
    AcquireEnds(t, pol, now, ns, alg, args);
    var i: nat :| FirstRefused(t, now, ns, alg, args, i) && Contends(t, now, ns, alg, args, args.requests[i]);
    FirstBlames(t, pol, now, ns, alg, args, i);
    var h :| Names(t, now, args.owner, ns, alg, args.requests[i], Acquire(t, now, ns, alg, args).0, h);
  }

  lemma FirstBlames(t: Tables, pol: Policies, now: Time, ns: string, alg: LockAlgorithm, args: AcquireArgs, i: nat)
    requires Good(t, pol) && NoSep(ns) && alg == pol.InForce(ns) && !LeaseGone(t, now, args)
    requires FirstRefused(t, now, ns, alg, args, i) && RefusedForContention(Some(Acquire(t, now, ns, alg, args).0))
    ensures NamesSome(t, now, args.owner, ns, alg, args.requests[i], Acquire(t, now, ns, alg, args).0)
  {
    hide Good, Grantable, GrantableTo, ValidateAll, ApplyAll, BeginAcquire, FinishAcquire, Solid, Onward, NamesSome, HeldLive,
         SelfConflicting, Validated, OnlyLapsedRemoved, NoSep, CapacityAgrees, ReqClear;
    var t0 := BeginAcquire(t, now, args);
    BeginGood(t, pol, now, args);
    BeginLive(t, now, args);
    forall q | q in args.requests
      ensures Grantable(t0, now, args.owner, args.token, ns, alg, q) <==> GrantableTo(t, now, args.owner, args.token, ns, alg, q)
    {
      BeginGrantable(t, pol, now, ns, alg, args, q);
    }
    ListRefuses(t0, pol, now, args.owner, args.token, ns, alg, args.requests, i);
    ListBlames(t0, pol, now, args.owner, args.token, ns, alg, args.requests, i);
    NamedBefore(t, t0, now, args.owner, ns, alg, args.requests[i], Acquire(t, now, ns, alg, args).0);
  }

  // --- refusals for good ---

  /** Such a refusal names the request's own path, nobody, and the stored fence or capacity the request fell short of. */
  ghost predicate Says(t: Tables, ns: string, q: LockReq, o: AcquireOutcome) {
    var key := ScopedPath(ns, q.path);
    && o.Conflict? && o.path == q.path && o.owner == ""
    && (o.reason == StaleFencingToken ==> key in t.fence && o.current == t.fence[key])
    && (o.reason == InvalidPermits && q.permits > 0 ==> key in t.cap && o.current == t.cap[key])
  }

  lemma SaysBefore(t: Tables, r: Tables, ns: string, q: LockReq, o: AcquireOutcome)
    requires r.fence == t.fence && r.cap == t.cap && Says(r, ns, q, o)
    ensures Says(t, ns, q, o)
  {
    hide ScopedPath;
  }

  lemma PrunedMarks(t: Tables, r: Tables, now: Time)
    requires Pruned(t, r, now)
    ensures r.fence == t.fence && r.cap == t.cap
  {
  }

  lemma SemaphoreSays(t: Tables, now: Time, owner: string, ns: string, q: LockReq)
    ensures var o := ValidateNewSemaphore(t, now, owner, ns, q).0; o.Some? && !RefusedForContention(o) ==> Says(t, ns, q, o.value)
  {
    hide ScopedPath, PruneSemaphore;
  }

  lemma NewWriteSays(t: Tables, now: Time, owner: string, token: int, ns: string, alg: LockAlgorithm, q: LockReq, same: bool)
    requires Core(t)
    ensures var o := ValidateNewWrite(t, now, owner, token, ns, alg, q.path, same).0; o.Some? && !RefusedForContention(o) ==> Says(t, ns, q, o.value)
  {
    hide Pruned, Core, PruneReaders, ScopedPath, ValidateSubtree, ForeignReader, BlamesBelow;
    var key := ScopedPath(ns, q.path);
    var t1 := PruneReaders(t, now, key);
    PruneReadersOk(t, now, key);
    PrunedCore(t, t1, now);
    PrunedMarks(t, t1, now);
    SubtreeBlames(t1, now, owner, ns, key);
    SubtreeOk(t1, now, owner, ns, key);
    var (o2, t2) := ValidateSubtree(t1, now, owner, ns, key);
    if o2.Some? { BelowContends(t1, now, owner, ns, key, o2.value); }
    PrunedMarks(t1, t2, now);
  }

  lemma BelowContends(t: Tables, now: Time, owner: string, ns: string, key: string, o: AcquireOutcome)
    requires BlamesBelow(t, now, owner, ns, key, o)
    ensures RefusedForContention(Some(o))
  {
    hide IsStrictAncestor, LiveWriter, PublicPath;
  }

  lemma NewSays(t: Tables, pol: Policies, now: Time, owner: string, token: int, ns: string, alg: LockAlgorithm, q: LockReq)
    requires Good(t, pol)
    ensures var o := ValidateNew(t, now, owner, token, ns, alg, q).0; o.Some? && !RefusedForContention(o) ==> Says(t, ns, q, o.value)
  {
    hide Good, Pruned, Core, PruneWriter, ScopedPath, ValidateAncestors, ValidateNewWrite, ValidateNewSemaphore, GetAncestors, Says;
    var key := ScopedPath(ns, q.path);
    if !alg.AllowsMode(q.mode) {
      DisabledSays(t, ns, q);
    } else {
      LockInvariantCore(t, pol);
      AncestorsBlame(t, now, owner, ns, GetAncestors(key));
      AncestorsOk(t, now, owner, ns, GetAncestors(key));
      var (o1, t1) := ValidateAncestors(t, now, owner, ns, GetAncestors(key));
      PrunedCore(t, t1, now);
      PrunedMarks(t, t1, now);
      var t2 := PruneWriter(t1, now, key);
      PruneWriterOk(t1, now, key);
      PrunedCore(t1, t2, now);
      PrunedMarks(t1, t2, now);
      SemaphoreSays(t1, now, owner, ns, q);
      NewWriteSays(t2, now, owner, token, ns, alg, q, key in t2.wr);
      var o := ValidateNew(t, now, owner, token, ns, alg, q).0;
      if o.Some? && Says(t1, ns, q, o.value) { SaysBefore(t, t1, ns, q, o.value); }
      if o.Some? && Says(t2, ns, q, o.value) { SaysBefore(t, t2, ns, q, o.value); }
    }
  }

  lemma DisabledSays(t: Tables, ns: string, q: LockReq)
    ensures Says(t, ns, q, Conflict(q.path, "", 0, ReadLocksDisabled))
  {
  }

  lemma HeldSays(t: Tables, owner: string, token: int, ns: string, q: LockReq)
    ensures var o := ValidateHeld(t, owner, token, ns, q); o.Some? && o.value.Conflict? ==> Says(t, ns, q, o.value)
  {
    hide ScopedPath;
  }

  /** The request is not there to be held, or such a refusal names what it fell short of. */
  ghost predicate SaysWhy(t: Tables, ns: string, q: LockReq, o: AcquireOutcome) {
    if o.Lost? then q.state == Held && o.path == q.path else Says(t, ns, q, o)
  }

  lemma ReqSays(t: Tables, pol: Policies, now: Time, owner: string, token: int, ns: string, alg: LockAlgorithm, q: LockReq)
    requires Good(t, pol)
    ensures var o := ValidateReq(t, now, owner, token, ns, alg, q).0; o.Some? && !RefusedForContention(o) ==> SaysWhy(t, ns, q, o.value)
  {
    hide Good, ValidateNew, Says, ScopedPath;
    NewSays(t, pol, now, owner, token, ns, alg, q);
    HeldSays(t, owner, token, ns, q);
    if q.state == New { LockInvariantCore(t, pol); NewRefusalNotOk(t, now, owner, token, ns, alg, q); }
  }

  lemma {:induction false} ListSays(
    t: Tables, pol: Policies, now: Time, owner: string, token: int, ns: string, alg: LockAlgorithm, reqs: seq<LockReq>, i: nat)
    requires Good(t, pol) && Solid(t, owner, now) && i < |reqs| && !Grantable(t, now, owner, token, ns, alg, reqs[i])
    requires forall j :: 0 <= j < i ==> Grantable(t, now, owner, token, ns, alg, reqs[j])
    ensures var o := ValidateAll(t, now, owner, token, ns, alg, reqs).0; o.Some? && !RefusedForContention(o) ==> SaysWhy(t, ns, reqs[i], o.value)
    decreases |reqs|
  {
    hide Good, Solid, Pruned, Grantable, ReqClear, CapacityAgrees, Core, ValidateReq, Says;
    var p, rest := reqs[0], reqs[1..];
    ReqDecides(t, pol, now, owner, token, ns, alg, p);
    ReqSays(t, pol, now, owner, token, ns, alg, p);
    if i > 0 {
      GoodCore(t, pol);
      ReqOk(t, now, owner, token, ns, alg, p);
      var t1 := ValidateReq(t, now, owner, token, ns, alg, p).1;
      PrunedGood(t, t1, now, pol);
      SolidKept(t, t1, owner, now);
      PrunedMarks(t, t1, now);
      forall q ensures Grantable(t1, now, owner, token, ns, alg, q) <==> Grantable(t, now, owner, token, ns, alg, q) {
        GrantableSame(t, t1, pol, now, owner, token, ns, alg, q);
      }
      assert forall j :: 0 <= j < i - 1 ==> rest[j] == reqs[j + 1];
      ListSays(t1, pol, now, owner, token, ns, alg, rest, i - 1);
      var o := ValidateAll(t, now, owner, token, ns, alg, reqs).0;
      if o.Some? && Says(t1, ns, reqs[i], o.value) { SaysBefore(t, t1, ns, reqs[i], o.value); }
    }
  }

  lemma BeginMarks(t: Tables, now: Time, args: AcquireArgs)
    ensures var t0 := BeginAcquire(t, now, args); t0.fence == t.fence && t0.cap == t.cap
  {
  }

  /** An acquire refused other than for contention says of its first request that cannot be granted what is missing or what it fell short of. */
  lemma AcquireSays(t: Tables, pol: Policies, now: Time, ns: string, alg: LockAlgorithm, args: AcquireArgs, i: nat)
    requires Good(t, pol) && NoSep(ns) && alg == pol.InForce(ns) && !LeaseGone(t, now, args) && FirstRefused(t, now, ns, alg, args, i)
    ensures var o := Acquire(t, now, ns, alg, args).0; !o.Ok? && (!RefusedForContention(Some(o)) ==> SaysWhy(t, ns, args.requests[i], o))
  {
    hide Good, Grantable, GrantableTo, ValidateAll, ApplyAll, BeginAcquire, FinishAcquire, Solid, Onward, Says,
         SelfConflicting, Validated, OnlyLapsedRemoved, NoSep, CapacityAgrees, ReqClear;
    var t0 := BeginAcquire(t, now, args);
    BeginGood(t, pol, now, args);
    BeginMarks(t, now, args);
    forall q | q in args.requests
      ensures Grantable(t0, now, args.owner, args.token, ns, alg, q) <==> GrantableTo(t, now, args.owner, args.token, ns, alg, q)
    {
      BeginGrantable(t, pol, now, ns, alg, args, q);
    }
    ListRefuses(t0, pol, now, args.owner, args.token, ns, alg, args.requests, i);
    ListSays(t0, pol, now, args.owner, args.token, ns, alg, args.requests, i);
    ValidationRemoves(t, pol, now, ns, alg, args);
    var o := Acquire(t, now, ns, alg, args).0;
    if Says(t0, ns, args.requests[i], o) { SaysBefore(t, t0, ns, args.requests[i], o); }
  }
}

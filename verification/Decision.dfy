/**
 The engine's decision, declaratively: a new lock is refused for contention
 exactly when a live lock of another owner conflicts with it, as a brute scan of
 the lock tables would find; otherwise only its fence can refuse it.
 */
module Decision {
  import opened Ordering
  import opened Paths
  import opened Expiry
  import opened LockSpec
  import opened LockInvariant
  import opened AcquireProof
  import opened ValidateProof

  predicate LiveWriter(t: Tables, now: Time, owner: string, k: string) {
    k in t.wr && t.wr[k] != owner && t.Alive(t.wr[k], now)
  }

  ghost predicate LiveReader(t: Tables, now: Time, owner: string, k: string) {
    exists o :: (k, o) in t.rd && o != owner && t.Alive(o, now)
  }

  ghost predicate AncestorBlocks(t: Tables, now: Time, owner: string, ancs: seq<string>) {
    exists a :: a in ancs && RecursiveWriter(t, a) && LiveWriter(t, now, owner, a)
  }

  ghost predicate SubtreeBlocks(t: Tables, now: Time, owner: string, key: string) {
    exists k :: IsStrictAncestor(key, k) && (LiveWriter(t, now, owner, k) || LiveReader(t, now, owner, k))
  }

  // --- pruning changes none of these ---

  lemma LiveSame(t: Tables, r: Tables, now: Time, owner: string, k: string)
    requires Pruned(t, r, now) && Core(t)
    ensures LiveWriter(r, now, owner, k) <==> LiveWriter(t, now, owner, k)
    ensures LiveReader(r, now, owner, k) <==> LiveReader(t, now, owner, k)
    ensures LiveWriter(t, now, owner, k) ==> (RecursiveWriter(r, k) <==> RecursiveWriter(t, k))
  {
    hide GetAncestors;
    if LiveWriter(t, now, owner, k) { assert HasHold(t, Hold(t.wr[k], Write, k)); }
    if LiveReader(t, now, owner, k) {
      var o :| (k, o) in t.rd && o != owner && t.Alive(o, now);
      assert HasHold(t, Hold(o, Read, k));
      assert (k, o) in r.rd;
    }
    if LiveReader(r, now, owner, k) {
      var o :| (k, o) in r.rd && o != owner && r.Alive(o, now);
      assert (k, o) in t.rd;
    }
  }

  lemma AncestorBlocksSame(t: Tables, r: Tables, now: Time, owner: string, ancs: seq<string>)
    requires Pruned(t, r, now) && Core(t)
    ensures AncestorBlocks(r, now, owner, ancs) <==> AncestorBlocks(t, now, owner, ancs)
  {
    hide Pruned, Core, RecursiveWriter, LiveWriter;
    forall a ensures LiveWriter(r, now, owner, a) <==> LiveWriter(t, now, owner, a) { LiveSame(t, r, now, owner, a); }
    forall a | LiveWriter(t, now, owner, a) ensures RecursiveWriter(r, a) <==> RecursiveWriter(t, a) {
      LiveSame(t, r, now, owner, a);
    }
  }

  lemma SubtreeBlocksSame(t: Tables, r: Tables, now: Time, owner: string, key: string)
    requires Pruned(t, r, now) && Core(t)
    ensures SubtreeBlocks(r, now, owner, key) <==> SubtreeBlocks(t, now, owner, key)
  {
    hide Pruned, Core, LiveWriter, LiveReader, IsStrictAncestor;
    forall k ensures LiveWriter(r, now, owner, k) <==> LiveWriter(t, now, owner, k) { LiveSame(t, r, now, owner, k); }
    forall k ensures LiveReader(r, now, owner, k) <==> LiveReader(t, now, owner, k) { LiveSame(t, r, now, owner, k); }
  }

  // --- the ancestor walk ---

  lemma {:induction false} AncestorsDecide(t: Tables, now: Time, owner: string, ns: string, ancs: seq<string>)
    requires Core(t)
    ensures ValidateAncestors(t, now, owner, ns, ancs).0.Some? <==> AncestorBlocks(t, now, owner, ancs)
    ensures var o := ValidateAncestors(t, now, owner, ns, ancs).0;
            o.Some? ==> o.value.Conflict? && o.value.reason == AncestorLocked
    decreases |ancs|
  {
    hide Pruned, Core, Drop, PruneWriter;
    if ancs != [] {
      var a := ancs[0];
      var t1 := PruneWriter(t, now, a);
      PruneWriterOk(t, now, a);
      PrunedCore(t, t1, now);
      PrunedAlive(t, t1, now);
      AncestorsDecide(t1, now, owner, ns, ancs[1..]);
      AncestorBlocksSame(t, t1, now, owner, ancs[1..]);
      LiveSame(t, t1, now, owner, a);
      assert forall x :: x in ancs <==> x == a || x in ancs[1..];
    }
  }

  lemma PrunedAlive(t: Tables, r: Tables, now: Time)
    requires Pruned(t, r, now)
    ensures r.alive == t.alive
  {
  }

  // --- the indexed subtree search ---

  ghost predicate WriterIn(t: Tables, now: Time, owner: string, cs: seq<string>) {
    exists c :: c in cs && LiveWriter(t, now, owner, c)
  }

  ghost predicate ReaderIn(t: Tables, now: Time, owner: string, cs: seq<string>) {
    exists c :: c in cs && LiveReader(t, now, owner, c)
  }

  lemma WriterInSame(t: Tables, r: Tables, now: Time, owner: string, cs: seq<string>)
    requires Pruned(t, r, now) && Core(t)
    ensures WriterIn(r, now, owner, cs) <==> WriterIn(t, now, owner, cs)
    ensures ReaderIn(r, now, owner, cs) <==> ReaderIn(t, now, owner, cs)
  {
    hide Pruned, Core, LiveWriter, LiveReader;
    forall k ensures LiveWriter(r, now, owner, k) <==> LiveWriter(t, now, owner, k) { LiveSame(t, r, now, owner, k); }
    forall k ensures LiveReader(r, now, owner, k) <==> LiveReader(t, now, owner, k) { LiveSame(t, r, now, owner, k); }
  }

  lemma {:induction false} DescendantWriteDecides(
    t: Tables, now: Time, owner: string, ns: string, key: string, cs: seq<string>)
    requires Core(t)
    ensures FindDescendantWrite(t, now, owner, ns, key, cs).0.Some? <==> WriterIn(t, now, owner, cs)
    ensures var o := FindDescendantWrite(t, now, owner, ns, key, cs).0;
            o.Some? ==> o.value.Conflict? && o.value.reason == DescendantWriteLocked
    decreases |cs|
  {
    hide Pruned, Core, Drop, PruneWriter, IndexPairs;
    if cs != [] {
      var c := cs[0];
      var t1 := PruneWriter(t, now, c);
      PruneWriterOk(t, now, c);
      PrunedCore(t, t1, now);
      PrunedAlive(t, t1, now);
      if c !in t1.wr { NoWritePairs(t1, key, c); }
      DescendantWriteDecides(t1, now, owner, ns, key, cs[1..]);
      WriterInSame(t, t1, now, owner, cs[1..]);
      LiveSame(t, t1, now, owner, c);
      assert forall x :: x in cs <==> x == c || x in cs[1..];
    }
  }

  lemma ReadersAfterPrune(t: Tables, now: Time, owner: string, c: string)
    requires Core(t)
    ensures var t1 := PruneReaders(t, now, c);
            LiveReader(t1, now, owner, c) <==> HasMember(t1.rd, c) && ForeignReader(t1, c, owner).Some?
  {
    var t1 := PruneReaders(t, now, c);
    ForeignReaderOk(t1, c, owner);
    assert forall o :: (c, o) in t1.rd ==> t.Alive(o, now) && HasMember(t1.rd, (c, o).0);
  }

  lemma {:induction false} DescendantReadDecides(
    t: Tables, now: Time, owner: string, ns: string, key: string, cs: seq<string>)
    requires Core(t)
    ensures FindDescendantRead(t, now, owner, ns, key, cs).0.Some? <==> ReaderIn(t, now, owner, cs)
    ensures var o := FindDescendantRead(t, now, owner, ns, key, cs).0;
            o.Some? ==> o.value.Conflict? && o.value.reason == DescendantReadLocked
    decreases |cs|
  {
    hide Pruned, Core, Drop, PruneReaders, IndexPairs, LiveReader, LiveWriter, ForeignReader;
    if cs != [] {
      var c := cs[0];
      var t1 := PruneReaders(t, now, c);
      PruneReadersOk(t, now, c);
      PrunedCore(t, t1, now);
      ReadersAfterPrune(t, now, owner, c);
      if !HasMember(t1.rd, c) { NoReadPairs(t1, key, c); }
      DescendantReadDecides(t1, now, owner, ns, key, cs[1..]);
      WriterInSame(t, t1, now, owner, cs[1..]);
      LiveSame(t, t1, now, owner, c);
      assert forall x :: x in cs <==> x == c || x in cs[1..];
    }
  }

  /** The indexed search finds a conflict exactly when a brute scan of the tables would. */
  lemma SubtreeDecides(t: Tables, now: Time, owner: string, ns: string, key: string)
    requires Core(t)
    ensures ValidateSubtree(t, now, owner, ns, key).0.Some? <==> SubtreeBlocks(t, now, owner, key)
    ensures var o := ValidateSubtree(t, now, owner, ns, key).0;
            o.Some? ==> o.value.Conflict? && o.value.reason.IsQueueable()
  {
    var ws := SortedStrings(MembersAt(t.wrdesc, key));
    IndexedWriters(t, now, owner, key);
    DescendantWriteDecides(t, now, owner, ns, key, ws);
    DescendantWriteOk(t, now, owner, ns, key, ws);
    hide Core, Pruned, FindDescendantWrite, FindDescendantRead, SortedStrings, MembersAt, LiveWriter, LiveReader;
    var (o1, t1) := FindDescendantWrite(t, now, owner, ns, key, ws);
    if o1.None? {
      var rs := SortedStrings(MembersAt(t1.rddesc, key));
      PrunedCore(t, t1, now);
      IndexedReaders(t1, now, owner, key);
      DescendantReadDecides(t1, now, owner, ns, key, rs);
      forall k ensures LiveReader(t1, now, owner, k) <==> LiveReader(t, now, owner, k) { LiveSame(t, t1, now, owner, k); }
    }
  }

  lemma IndexedWriters(t: Tables, now: Time, owner: string, key: string)
    requires Core(t)
    ensures WriterIn(t, now, owner, SortedStrings(MembersAt(t.wrdesc, key))) <==>
            exists k :: IsStrictAncestor(key, k) && LiveWriter(t, now, owner, k)
  {
    hide GetAncestors;
    var ws := SortedStrings(MembersAt(t.wrdesc, key));
    assert forall k :: k in ws <==> (key, k) in t.wrdesc;
  }

  lemma IndexedReaders(t: Tables, now: Time, owner: string, key: string)
    requires Core(t)
    ensures ReaderIn(t, now, owner, SortedStrings(MembersAt(t.rddesc, key))) <==>
            exists k :: IsStrictAncestor(key, k) && LiveReader(t, now, owner, k)
  {
    hide GetAncestors;
    var rs := SortedStrings(MembersAt(t.rddesc, key));
    assert forall k :: k in rs <==> (key, k) in t.rddesc;
    assert forall k, o :: (k, o) in t.rd ==> HasMember(t.rd, (k, o).0);
  }

  // --- the whole decision ---

  /** A live lock of another owner conflicts with the requested one. */
  ghost predicate Contended(t: Tables, now: Time, owner: string, alg: LockAlgorithm, key: string, mode: Mode) {
    exists h :: HasLock(t, h) && h.owner != owner && t.Alive(h.owner, now)
                && LocksConflict(alg, key, mode, t.HoldAlgorithm(h), h.key, h.mode)
  }

  ghost predicate Blocked(t: Tables, now: Time, owner: string, alg: LockAlgorithm, key: string, mode: Mode) {
    || AncestorBlocks(t, now, owner, GetAncestors(key))
    || LiveWriter(t, now, owner, key)
    || (mode == Write && (LiveReader(t, now, owner, key) || (alg.Recursive() && SubtreeBlocks(t, now, owner, key))))
  }

  lemma ConflictBlocks(t: Tables, now: Time, owner: string, alg: LockAlgorithm, key: string, mode: Mode, h: Hold)
    requires HasLock(t, h) && h.owner != owner && t.Alive(h.owner, now)
    requires LocksConflict(alg, key, mode, t.HoldAlgorithm(h), h.key, h.mode)
    ensures Blocked(t, now, owner, alg, key, mode)
  {
    hide GetAncestors, AncestorBlocks, SubtreeBlocks;
    if h.mode == Write { assert LiveWriter(t, now, owner, h.key); }
    else { assert (h.key, h.owner) in t.rd; assert LiveReader(t, now, owner, h.key); }
    if IsStrictAncestor(h.key, key) && h.mode == Write && t.HoldAlgorithm(h).Recursive() {
      AncestorBlocksBy(t, now, owner, key, h.key);
    }
    if IsStrictAncestor(key, h.key) { SubtreeBlocksBy(t, now, owner, key, h.key); }
  }

  lemma AncestorBlocksBy(t: Tables, now: Time, owner: string, key: string, a: string)
    requires IsStrictAncestor(a, key) && LiveWriter(t, now, owner, a) && RecursiveWriter(t, a)
    ensures AncestorBlocks(t, now, owner, GetAncestors(key))
  {
  }

  lemma SubtreeBlocksBy(t: Tables, now: Time, owner: string, key: string, k: string)
    requires IsStrictAncestor(key, k) && (LiveWriter(t, now, owner, k) || LiveReader(t, now, owner, k))
    ensures SubtreeBlocks(t, now, owner, key)
  {
  }

  lemma Witness(t: Tables, now: Time, owner: string, alg: LockAlgorithm, key: string, mode: Mode, h: Hold)
    requires HasLock(t, h) && h.owner != owner && t.Alive(h.owner, now)
    requires LocksConflict(alg, key, mode, t.HoldAlgorithm(h), h.key, h.mode)
    ensures Contended(t, now, owner, alg, key, mode)
  {
  }

  lemma StoredModeAllowed(t: Tables, pol: Policies, h: Hold)
    requires Good(t, pol) && HasLock(t, h)
    ensures t.HoldAlgorithm(h).AllowsMode(h.mode)
  {
    assert HasHold(t, h);
  }

  lemma AncestorContends(t: Tables, pol: Policies, now: Time, owner: string, alg: LockAlgorithm, key: string, mode: Mode)
    requires Good(t, pol) && alg.AllowsMode(mode) && AncestorBlocks(t, now, owner, GetAncestors(key))
    ensures Contended(t, now, owner, alg, key, mode)
  {
    hide Good;
    var a :| a in GetAncestors(key) && RecursiveWriter(t, a) && LiveWriter(t, now, owner, a);
    var h := Hold(t.wr[a], Write, a);
    AncestorShape(a, key);
    if IsStrictAncestor(key, a) { AncestorShape(key, a); }
    Witness(t, now, owner, alg, key, mode, h);
  }

  lemma SubtreeContends(t: Tables, pol: Policies, now: Time, owner: string, alg: LockAlgorithm, key: string)
    requires Good(t, pol) && alg.Recursive() && SubtreeBlocks(t, now, owner, key)
    ensures Contended(t, now, owner, alg, key, Write)
  {
    hide Good, GetAncestors;
    var k :| IsStrictAncestor(key, k) && (LiveWriter(t, now, owner, k) || LiveReader(t, now, owner, k));
    AncestorShape(key, k);
    if LiveWriter(t, now, owner, k) {
      Witness(t, now, owner, alg, key, Write, Hold(t.wr[k], Write, k));
    } else {
      ReaderContends(t, pol, now, owner, alg, key, k);
    }
  }

  lemma ReaderContends(t: Tables, pol: Policies, now: Time, owner: string, alg: LockAlgorithm, key: string, k: string)
    requires Good(t, pol) && LiveReader(t, now, owner, k)
    requires k == key || (alg.Recursive() && IsStrictAncestor(key, k) && |key| < |k|)
    ensures Contended(t, now, owner, alg, key, Write)
  {
    hide Good, GetAncestors;
    var o :| (k, o) in t.rd && o != owner && t.Alive(o, now);
    StoredModeAllowed(t, pol, Hold(o, Read, k));
    Witness(t, now, owner, alg, key, Write, Hold(o, Read, k));
  }

  /** The staged checks together are the declarative conflict test against live locks. */
  lemma ContendedIffBlocked(t: Tables, pol: Policies, now: Time, owner: string, alg: LockAlgorithm, key: string, mode: Mode)
    requires Good(t, pol) && alg.AllowsMode(mode)
    ensures Contended(t, now, owner, alg, key, mode) <==> Blocked(t, now, owner, alg, key, mode)
  {
    hide Good, GetAncestors, AncestorBlocks, SubtreeBlocks, LiveReader;
    if Contended(t, now, owner, alg, key, mode) {
      var h :| HasLock(t, h) && h.owner != owner && t.Alive(h.owner, now)
               && LocksConflict(alg, key, mode, t.HoldAlgorithm(h), h.key, h.mode);
      ConflictBlocks(t, now, owner, alg, key, mode, h);
    }
    if AncestorBlocks(t, now, owner, GetAncestors(key)) { AncestorContends(t, pol, now, owner, alg, key, mode); }
    if LiveWriter(t, now, owner, key) { Witness(t, now, owner, alg, key, mode, Hold(t.wr[key], Write, key)); }
    if mode == Write && LiveReader(t, now, owner, key) { ReaderContends(t, pol, now, owner, alg, key, key); }
    if mode == Write && alg.Recursive() && SubtreeBlocks(t, now, owner, key) { SubtreeContends(t, pol, now, owner, alg, key); }
  }

  predicate RefusedForContention(o: Option<AcquireOutcome>) {
    o.Some? && o.value.Conflict? && o.value.reason.IsQueueable()
  }

  predicate RefusedStale(o: Option<AcquireOutcome>) {
    o.Some? && o.value.Conflict? && o.value.reason == StaleFencingToken
  }

  lemma NewWriteDecides(
    t: Tables, now: Time, owner: string, token: int, ns: string, alg: LockAlgorithm, path: string, same: bool)
    requires Core(t)
    ensures var o := ValidateNewWrite(t, now, owner, token, ns, alg, path, same).0;
            var key := ScopedPath(ns, path);
            var b := LiveReader(t, now, owner, key) || (alg.Recursive() && SubtreeBlocks(t, now, owner, key));
            && (RefusedForContention(o) <==> b)
            && (RefusedStale(o) <==> !b && StaleFence(t, key, token, same))
            && (o.Some? ==> RefusedForContention(o) || RefusedStale(o))
  {
    hide Pruned, Core, PruneReaders, ScopedPath, ValidateSubtree, SubtreeBlocks, LiveReader, ForeignReader;
    var key := ScopedPath(ns, path);
    var t1 := PruneReaders(t, now, key);
    PruneReadersOk(t, now, key);
    PrunedCore(t, t1, now);
    ReadersAfterPrune(t, now, owner, key);
    LiveSame(t, t1, now, owner, key);
    ForeignNeedsMember(t1, key, owner);
    SubtreeDecides(t1, now, owner, ns, key);
    SubtreeBlocksSame(t, t1, now, owner, key);
    SubtreeOk(t1, now, owner, ns, key);
    PrunedSameFence(t1, ValidateSubtree(t1, now, owner, ns, key).1, now);
    PrunedSameFence(t, t1, now);
  }

  lemma ForeignNeedsMember(t: Tables, key: string, owner: string)
    ensures ForeignReader(t, key, owner).Some? ==> HasMember(t.rd, key)
  {
    ForeignReaderOk(t, key, owner);
    assert forall o :: (key, o) in t.rd ==> HasMember(t.rd, (key, o).0);
  }

  lemma PrunedSameFence(t: Tables, r: Tables, now: Time)
    requires Pruned(t, r, now)
    ensures r.fence == t.fence
  {
  }

  /**
   A new lock is refused for contention exactly when a live conflicting lock of
   another owner is on record; failing that, exactly when its token is stale.
   */
  lemma LockDecides(
    t: Tables, pol: Policies, now: Time, owner: string, token: int, ns: string, alg: LockAlgorithm, req: LockReq)
    requires Good(t, pol) && Solid(t, owner, now) && !alg.Semaphore? && alg.AllowsMode(req.mode)
    ensures var o := ValidateNew(t, now, owner, token, ns, alg, req).0;
            var key := ScopedPath(ns, req.path);
            var c := Contended(t, now, owner, alg, key, req.mode);
            && (RefusedForContention(o) <==> c)
            && (RefusedStale(o) <==> !c && req.mode == Write && StaleFence(t, key, token, t.Writes(owner, key)))
            && (o.Some? ==> RefusedForContention(o) || RefusedStale(o))
  {
    hide Good, Pruned, Core, PruneWriter, ScopedPath, ValidateAncestors, ValidateNewWrite, Contended, Solid,
         AncestorBlocks, SubtreeBlocks, LiveReader, GetAncestors;
    var key := ScopedPath(ns, req.path);
    ContendedIffBlocked(t, pol, now, owner, alg, key, req.mode);
    LockInvariantCore(t, pol);
    var (o1, t1) := ValidateAncestors(t, now, owner, ns, GetAncestors(key));
    AncestorsDecide(t, now, owner, ns, GetAncestors(key));
    AncestorsOk(t, now, owner, ns, GetAncestors(key));
    PrunedCore(t, t1, now);
    var t2 := PruneWriter(t1, now, key);
    PruneWriterOk(t1, now, key);
    PrunedTrans(t, t1, t2, now);
    PrunedCore(t, t2, now);
    LiveSame(t, t2, now, owner, key);
    PrunedAlive(t, t1, now);
    PrunedAlive(t, t2, now);
    NewWriteDecides(t2, now, owner, token, ns, alg, req.path, key in t2.wr);
    SubtreeBlocksSame(t, t2, now, owner, key);
    PrunedSameFence(t, t2, now);
    if !LiveWriter(t, now, owner, key) { SameOwnerWrite(t, t2, now, owner, key); }
  }

  // --- semaphores ---

  ghost function LiveHolders(t: Tables, now: Time, key: string): (r: set<string>)
    ensures forall o :: o in r <==> (key, o) in t.sem && t.Alive(o, now)
  {
    set o | o in MembersAt(t.sem, key) && t.Alive(o, now)
  }

  /** The permit count is positive and agrees with the path's capacity, if it has one. */
  predicate PermitsFit(t: Tables, key: string, permits: nat) { permits > 0 && (key in t.cap ==> t.cap[key] == permits) }

  /** The owner is not a holder yet and the live holders take every permit. */
  ghost predicate Full(t: Tables, now: Time, owner: string, key: string, permits: nat) {
    (key, owner) !in t.sem && |LiveHolders(t, now, key)| >= permits
  }

  predicate RefusedPermits(o: Option<AcquireOutcome>) {
    o.Some? && o.value.Conflict? && o.value.reason == InvalidPermits
  }

  lemma SemaphoreDecides(t: Tables, now: Time, owner: string, ns: string, req: LockReq)
    ensures var o := ValidateNewSemaphore(t, now, owner, ns, req).0;
            var key := ScopedPath(ns, req.path);
            var fit := PermitsFit(t, key, req.permits);
            && (RefusedForContention(o) <==> fit && Full(t, now, owner, key, req.permits))
            && (RefusedPermits(o) <==> !fit)
            && (o.Some? ==> RefusedForContention(o) || RefusedPermits(o))
  {
    hide ScopedPath;
    var key := ScopedPath(ns, req.path);
    assert MembersAt(PruneSemaphore(t, now, key).sem, key) == LiveHolders(t, now, key);
  }

  lemma FullSame(t: Tables, r: Tables, now: Time, owner: string, key: string, permits: nat)
    requires Pruned(t, r, now) && Core(t) && Solid(t, owner, now)
    ensures Full(r, now, owner, key, permits) <==> Full(t, now, owner, key, permits)
    ensures PermitsFit(r, key, permits) <==> PermitsFit(t, key, permits)
  {
    hide GetAncestors;
    forall o | (key, o) in t.sem ensures Hold(o, Write, key) in t.alg { assert HasHold(t, Hold(o, Write, key)); }
    SolidKept(t, r, owner, now);
    assert (key, owner) in r.sem <==> (key, owner) in t.sem;
    assert LiveHolders(r, now, key) == LiveHolders(t, now, key);
  }

  // --- every new request ---

  /** Another owner's live record stands in the way of the request. */
  ghost predicate Busy(t: Tables, now: Time, owner: string, alg: LockAlgorithm, key: string, req: LockReq) {
    if alg.Semaphore?
    then AncestorBlocks(t, now, owner, GetAncestors(key)) || (PermitsFit(t, key, req.permits) && Full(t, now, owner, key, req.permits))
    else Contended(t, now, owner, alg, key, req.mode)
  }

  predicate RefusedMode(o: Option<AcquireOutcome>) {
    o.Some? && o.value.Conflict? && o.value.reason == ReadLocksDisabled
  }

  /**
   Every new request, lock or semaphore: refused for contention exactly when a live
   record of another owner is in the way; failing that, a lock exactly when its
   token is stale and a semaphore exactly when its permit count does not fit.
   */
  lemma NewDecides(
    t: Tables, pol: Policies, now: Time, owner: string, token: int, ns: string, alg: LockAlgorithm, req: LockReq)
    requires Good(t, pol) && Solid(t, owner, now)
    ensures var o := ValidateNew(t, now, owner, token, ns, alg, req).0;
            var key := ScopedPath(ns, req.path);
            var c := Busy(t, now, owner, alg, key, req);
            if !alg.AllowsMode(req.mode) then RefusedMode(o) else
            && (RefusedForContention(o) <==> c)
            && (RefusedStale(o) <==> !c && !alg.Semaphore? && req.mode == Write && StaleFence(t, key, token, t.Writes(owner, key)))
            && (RefusedPermits(o) <==> !c && alg.Semaphore? && !PermitsFit(t, key, req.permits))
            && (o.Some? ==> RefusedForContention(o) || RefusedStale(o) || RefusedPermits(o))
  {
    hide Good, Solid, Core, Pruned, ScopedPath, GetAncestors, AncestorBlocks, Full, PermitsFit, Contended, StaleFence,
         ValidateAncestors, ValidateNewSemaphore, PruneWriter, ValidateNewWrite;
    var key := ScopedPath(ns, req.path);
    if alg.Semaphore? {
      LockInvariantCore(t, pol);
      AncestorsDecide(t, now, owner, ns, GetAncestors(key));
      AncestorsOk(t, now, owner, ns, GetAncestors(key));
      var t1 := ValidateAncestors(t, now, owner, ns, GetAncestors(key)).1;
      SemaphoreDecides(t1, now, owner, ns, req);
      FullSame(t, t1, now, owner, key, req.permits);
    } else if alg.AllowsMode(req.mode) {
      LockDecides(t, pol, now, owner, token, ns, alg, req);
    }
  }

  lemma LockInvariantCore(t: Tables, pol: Policies)
    requires Good(t, pol)
    ensures Core(t)
  {
  }

  lemma SameOwnerWrite(t: Tables, r: Tables, now: Time, owner: string, key: string)
    requires Core(t) && Solid(t, owner, now) && Pruned(t, r, now)
    requires key in r.wr ==> r.Alive(r.wr[key], now)
    requires !LiveWriter(t, now, owner, key)
    ensures key in r.wr <==> t.Writes(owner, key)
  {
    SolidKept(t, r, owner, now);
    if t.Writes(owner, key) { assert HasHold(t, Hold(owner, Write, key)); }
  }
}

/** Acquire as a whole: when it grants, and what it never takes. */
module AcquireDecision {
  import opened Paths
  import opened Expiry
  import opened LockSpec
  import opened LockInvariant
  import opened AcquireProof
  import opened ValidateProof
  import opened ApplyProof
  import opened EngineProof
  import opened Decision
  import opened AllOrNothing

  lemma BlockedSame(t: Tables, r: Tables, now: Time, owner: string, alg: LockAlgorithm, key: string, mode: Mode)
    requires Pruned(t, r, now) && Core(t)
    ensures Blocked(r, now, owner, alg, key, mode) <==> Blocked(t, now, owner, alg, key, mode)
  {
    hide Pruned, Core, AncestorBlocks, SubtreeBlocks, LiveReader, LiveWriter, GetAncestors;
    AncestorBlocksSame(t, r, now, owner, GetAncestors(key));
    SubtreeBlocksSame(t, r, now, owner, key);
    LiveSame(t, r, now, owner, key);
  }

  lemma ContendedSame(
    t: Tables, r: Tables, pol: Policies, now: Time, owner: string, alg: LockAlgorithm, key: string, mode: Mode)
    requires Pruned(t, r, now) && Good(t, pol) && alg.AllowsMode(mode)
    ensures Contended(r, now, owner, alg, key, mode) <==> Contended(t, now, owner, alg, key, mode)
  {
    hide Pruned, Good, Contended, Blocked;
    PrunedGood(t, r, now, pol);
    GoodCore(t, pol);
    BlockedSame(t, r, now, owner, alg, key, mode);
    ContendedIffBlocked(t, pol, now, owner, alg, key, mode);
    ContendedIffBlocked(r, pol, now, owner, alg, key, mode);
  }

  /** The owner has the hold it claims, under a token not below the stored fence. */
  ghost predicate StillHeld(t: Tables, owner: string, token: int, ns: string, q: LockReq) {
    var h := Wanted(owner, ns, q);
    HasHold(t, h) && (HasLock(t, h) && q.mode == Write ==> h.key in t.fence && t.fence[h.key] <= token)
  }

  /** One new request can be granted: nothing live in its way, and a fresh token or a fitting permit count. */
  ghost predicate Open(t: Tables, now: Time, owner: string, token: int, alg: LockAlgorithm, key: string, q: LockReq, same: bool) {
    && alg.AllowsMode(q.mode)
    && !Busy(t, now, owner, alg, key, q)
    && (alg.Semaphore? ==> PermitsFit(t, key, q.permits))
    && (!alg.Semaphore? && q.mode == Write ==> !StaleFence(t, key, token, same))
  }

  ghost predicate Grantable(t: Tables, now: Time, owner: string, token: int, ns: string, alg: LockAlgorithm, q: LockReq) {
    var key := ScopedPath(ns, q.path);
    if q.state == Held then StillHeld(t, owner, token, ns, q)
    else Open(t, now, owner, token, alg, key, q, t.Writes(owner, key))
  }

  lemma BusySame(t: Tables, r: Tables, pol: Policies, now: Time, owner: string, alg: LockAlgorithm, key: string, q: LockReq)
    requires Pruned(t, r, now) && Good(t, pol) && Solid(t, owner, now) && alg.AllowsMode(q.mode)
    ensures Busy(r, now, owner, alg, key, q) <==> Busy(t, now, owner, alg, key, q)
    ensures PermitsFit(r, key, q.permits) <==> PermitsFit(t, key, q.permits)
  {
    hide Good, Pruned, Contended, Solid, Core, AncestorBlocks, Full, GetAncestors, PermitsFit;
    GoodCore(t, pol);
    ContendedSame(t, r, pol, now, owner, alg, key, q.mode);
    AncestorBlocksSame(t, r, now, owner, GetAncestors(key));
    FullSame(t, r, now, owner, key, q.permits);
  }

  lemma StillHeldSame(t: Tables, r: Tables, now: Time, owner: string, token: int, ns: string, q: LockReq)
    requires Pruned(t, r, now) && Core(t) && Solid(t, owner, now)
    ensures StillHeld(r, owner, token, ns, q) <==> StillHeld(t, owner, token, ns, q)
  {
    hide ScopedPath, GetAncestors;
    var h := Wanted(owner, ns, q);
    SolidKept(t, r, owner, now);
    PrunedCore(t, r, now);
    assert h in t.alg <==> HasHold(t, h);
    assert h in r.alg <==> HasHold(r, h);
  }

  lemma GrantableSame(
    t: Tables, r: Tables, pol: Policies, now: Time, owner: string, token: int, ns: string, alg: LockAlgorithm, q: LockReq)
    requires Pruned(t, r, now) && Good(t, pol) && Solid(t, owner, now)
    ensures Grantable(r, now, owner, token, ns, alg, q) <==> Grantable(t, now, owner, token, ns, alg, q)
  {
    hide Good, Busy, PermitsFit, StillHeld, ScopedPath, Pruned, Solid, Core;
    GoodCore(t, pol);
    StillHeldSame(t, r, now, owner, token, ns, q);
    if alg.AllowsMode(q.mode) { BusySame(t, r, pol, now, owner, alg, ScopedPath(ns, q.path), q); }
    PrunedSameFence(t, r, now);
    OwnWritesSame(t, r, now, owner, ScopedPath(ns, q.path));
  }

  lemma OwnWritesSame(t: Tables, r: Tables, now: Time, owner: string, key: string)
    requires Pruned(t, r, now) && Core(t) && Solid(t, owner, now)
    ensures r.Writes(owner, key) <==> t.Writes(owner, key)
  {
    SolidKept(t, r, owner, now);
    if t.Writes(owner, key) { assert HasHold(t, Hold(owner, Write, key)); }
  }

  lemma HeldDecides(t: Tables, pol: Policies, owner: string, token: int, ns: string, q: LockReq)
    requires Good(t, pol)
    ensures ValidateHeld(t, owner, token, ns, q).None? <==> StillHeld(t, owner, token, ns, q)
  {
    hide ScopedPath, GetAncestors;
    var h := Wanted(owner, ns, q);
    assert h in t.alg <==> HasHold(t, h);
  }

  lemma ReqDecides(
    t: Tables, pol: Policies, now: Time, owner: string, token: int, ns: string, alg: LockAlgorithm, q: LockReq)
    requires Good(t, pol) && Solid(t, owner, now)
    ensures ValidateReq(t, now, owner, token, ns, alg, q).0.None? <==> Grantable(t, now, owner, token, ns, alg, q)
  {
    hide Good, Solid, Busy, PermitsFit, StaleFence, StillHeld, ScopedPath, ValidateNew, ValidateHeld;
    HeldDecides(t, pol, owner, token, ns, q);
    NewDecides(t, pol, now, owner, token, ns, alg, q);
  }

  /** A request list passes validation exactly when each request is grantable. */
  lemma {:induction false} ListDecides(
    t: Tables, pol: Policies, now: Time, owner: string, token: int, ns: string, alg: LockAlgorithm, reqs: seq<LockReq>)
    requires Good(t, pol) && Solid(t, owner, now)
    ensures ValidateAll(t, now, owner, token, ns, alg, reqs).0.None? <==>
            forall q :: q in reqs ==> Grantable(t, now, owner, token, ns, alg, q)
    decreases |reqs|
  {
    hide Good, Solid, Pruned, Grantable, ValidateReq, ReqClear, CapacityAgrees, Core;
    if reqs != [] {
      var p, rest := reqs[0], reqs[1..];
      assert forall q :: q in reqs <==> q == p || q in rest;
      ReqDecides(t, pol, now, owner, token, ns, alg, p);
      GoodCore(t, pol);
      ReqOk(t, now, owner, token, ns, alg, p);
      var t1 := ValidateReq(t, now, owner, token, ns, alg, p).1;
      PrunedGood(t, t1, now, pol);
      SolidKept(t, t1, owner, now);
      ListDecides(t1, pol, now, owner, token, ns, alg, rest);
      forall q | q in rest ensures Grantable(t1, now, owner, token, ns, alg, q) <==> Grantable(t, now, owner, token, ns, alg, q) {
        GrantableSame(t, t1, pol, now, owner, token, ns, alg, q);
      }
    }
  }

  /** As `Full`, with the leftovers of a lapsed requester out of account. */
  ghost predicate FullTo(t: Tables, now: Time, owner: string, key: string, permits: nat) {
    !(t.Alive(owner, now) && (key, owner) in t.sem) && |LiveHolders(t, now, key)| >= permits
  }

  /** As `Busy`, with the leftovers of a lapsed requester out of account. */
  ghost predicate BusyTo(t: Tables, now: Time, owner: string, alg: LockAlgorithm, key: string, q: LockReq) {
    if alg.Semaphore?
    then AncestorBlocks(t, now, owner, GetAncestors(key)) || (PermitsFit(t, key, q.permits) && FullTo(t, now, owner, key, q.permits))
    else Contended(t, now, owner, alg, key, q.mode)
  }

  /** As `Grantable`, with the leftovers of a lapsed requester out of account. */
  ghost predicate GrantableTo(t: Tables, now: Time, owner: string, token: int, ns: string, alg: LockAlgorithm, q: LockReq) {
    var key := ScopedPath(ns, q.path);
    if q.state == Held then StillHeld(t, owner, token, ns, q)
    else
      && alg.AllowsMode(q.mode)
      && !BusyTo(t, now, owner, alg, key, q)
      && (alg.Semaphore? ==> PermitsFit(t, key, q.permits))
      && (!alg.Semaphore? && q.mode == Write ==> !StaleFence(t, key, token, t.Alive(owner, now) && t.Writes(owner, key)))
  }

  lemma ContendedWithout(t: Tables, now: Time, owner: string, alg: LockAlgorithm, key: string, mode: Mode)
    ensures Contended(ReleaseOwner(t, owner), now, owner, alg, key, mode) <==> Contended(t, now, owner, alg, key, mode)
  {
    hide LocksConflict, GetAncestors, ReleaseOwner, HasLock;
    var r := ReleaseOwner(t, owner);
    forall h: Hold | h.owner != owner
      ensures HasLock(r, h) <==> HasLock(t, h)
      ensures r.Alive(h.owner, now) <==> t.Alive(h.owner, now)
      ensures r.HoldAlgorithm(h) == t.HoldAlgorithm(h)
    {
      OthersUntouched(t, now, owner, h);
    }
  }

  lemma OthersUntouched(t: Tables, now: Time, owner: string, h: Hold)
    requires h.owner != owner
    ensures var r := ReleaseOwner(t, owner);
            && (HasLock(r, h) <==> HasLock(t, h))
            && (r.Alive(h.owner, now) <==> t.Alive(h.owner, now))
            && r.HoldAlgorithm(h) == t.HoldAlgorithm(h)
  {
    hide GetAncestors;
  }

  lemma AncestorBlocksWithout(t: Tables, now: Time, owner: string, ancs: seq<string>)
    ensures AncestorBlocks(ReleaseOwner(t, owner), now, owner, ancs) <==> AncestorBlocks(t, now, owner, ancs)
  {
    hide GetAncestors;
    var r := ReleaseOwner(t, owner);
    forall a ensures RecursiveWriter(r, a) && LiveWriter(r, now, owner, a) <==> RecursiveWriter(t, a) && LiveWriter(t, now, owner, a) {
      if a in t.wr && t.wr[a] != owner { assert Hold(t.wr[a], Write, a).owner != owner; }
    }
  }

  lemma FullWithout(t: Tables, now: Time, owner: string, key: string, permits: nat)
    requires AlgExact(t) && !t.Alive(owner, now)
    ensures Full(ReleaseOwner(t, owner), now, owner, key, permits) <==> FullTo(t, now, owner, key, permits)
    ensures ReleaseOwner(t, owner).cap == t.cap
  {
    hide GetAncestors;
    var r := ReleaseOwner(t, owner);
    if (key, owner) in t.sem { assert HasHold(t, Hold(owner, Write, key)); }
    assert LiveHolders(r, now, key) == LiveHolders(t, now, key);
  }

  lemma GoodExact(t: Tables, pol: Policies)
    requires Good(t, pol)
    ensures AlgExact(t)
  {
  }

  lemma BusyWithout(t: Tables, pol: Policies, now: Time, owner: string, alg: LockAlgorithm, key: string, q: LockReq)
    requires Good(t, pol) && !t.Alive(owner, now)
    ensures Busy(ReleaseOwner(t, owner), now, owner, alg, key, q) <==> BusyTo(t, now, owner, alg, key, q)
    ensures PermitsFit(ReleaseOwner(t, owner), key, q.permits) <==> PermitsFit(t, key, q.permits)
  {
    hide Good, Contended, AncestorBlocks, Full, FullTo, GetAncestors, ReleaseOwner, AlgExact;
    ContendedWithout(t, now, owner, alg, key, q.mode);
    AncestorBlocksWithout(t, now, owner, GetAncestors(key));
    GoodExact(t, pol);
    FullWithout(t, now, owner, key, q.permits);
  }

  lemma BeginGrantable(
    t: Tables, pol: Policies, now: Time, ns: string, alg: LockAlgorithm, args: AcquireArgs, q: LockReq)
    requires Good(t, pol) && q in args.requests && (HasHeld(args.requests) ==> t.Alive(args.owner, now))
    ensures Grantable(BeginAcquire(t, now, args), now, args.owner, args.token, ns, alg, q) <==>
            GrantableTo(t, now, args.owner, args.token, ns, alg, q)
  {
    hide Good, AncestorBlocks, Contended, PermitsFit, StillHeld, ScopedPath, ReleaseOwner, GetAncestors;
    if !t.Alive(args.owner, now) {
      BusyWithout(t, pol, now, args.owner, alg, ScopedPath(ns, q.path), q);
      ReleasedWrites(t, pol, args.owner, ScopedPath(ns, q.path));
    }
  }

  lemma ReleasedWrites(t: Tables, pol: Policies, owner: string, key: string)
    requires Good(t, pol)
    ensures !ReleaseOwner(t, owner).Writes(owner, key)
    ensures ReleaseOwner(t, owner).fence == t.fence
  {
    hide GetAncestors;
    if t.Writes(owner, key) { assert HasHold(t, Hold(owner, Write, key)); }
  }

  /** The whole list passes validation exactly when each request is grantable. */
  lemma ValidationDecides(t: Tables, pol: Policies, now: Time, ns: string, alg: LockAlgorithm, args: AcquireArgs)
    requires Good(t, pol) && NoSep(ns) && alg == pol.InForce(ns)
    requires args.requests != [] && (HasHeld(args.requests) ==> t.Alive(args.owner, now))
    ensures ValidateAll(BeginAcquire(t, now, args), now, args.owner, args.token, ns, alg, args.requests).0.None? <==>
            forall q :: q in args.requests ==> GrantableTo(t, now, args.owner, args.token, ns, alg, q)
  {
    hide Good, Grantable, GrantableTo, ValidateAll, BeginAcquire, Solid, Onward;
    var t0 := BeginAcquire(t, now, args);
    BeginGood(t, pol, now, args);
    ListDecides(t0, pol, now, args.owner, args.token, ns, alg, args.requests);
    forall q | q in args.requests
      ensures Grantable(t0, now, args.owner, args.token, ns, alg, q) <==> GrantableTo(t, now, args.owner, args.token, ns, alg, q)
    {
      BeginGrantable(t, pol, now, ns, alg, args, q);
    }
  }

  /**
   An acquire is granted exactly when its owner still has the lease its held
   requests rely on, each request is grantable, and the list does not name one
   fresh semaphore with two permit counts.
   */
  lemma AcquireDecides(t: Tables, pol: Policies, now: Time, ns: string, alg: LockAlgorithm, args: AcquireArgs)
    requires Good(t, pol) && NoSep(ns) && alg == pol.InForce(ns)
    ensures Acquire(t, now, ns, alg, args).0.Ok? <==>
            && (HasHeld(args.requests) ==> t.Alive(args.owner, now))
            && (forall q :: q in args.requests ==> GrantableTo(t, now, args.owner, args.token, ns, alg, q))
            && !SelfConflicting(ns, alg, args.requests)
  {
    hide Good, Grantable, GrantableTo, ValidateAll, ApplyAll, BeginAcquire, FinishAcquire, Solid, SelfConflicting, Onward, OnlyLapsedRemoved,
         AllGranted;
    if args.requests == [] {
      EmptyHarmless(ns, alg);
      NothingAsked(t, now, ns, alg, args);
    } else if !HasHeld(args.requests) || t.Alive(args.owner, now) {
      var t0 := BeginAcquire(t, now, args);
      ValidationDecides(t, pol, now, ns, alg, args);
      ValidationRemoves(t, pol, now, ns, alg, args);
      var (o1, t1) := ValidateAll(t0, now, args.owner, args.token, ns, alg, args.requests);
      if o1.None? {
        ValidatedOutcome(t1, pol, now, ns, alg, args);
        var (o2, t2) := ApplyAll(t1, args.owner, args.token, ns, alg, args.requests);
        assert o2.None? <==> !SelfConflicting(ns, alg, args.requests);
      }
    }
  }

  // --- an acquire never takes a live owner's holds ---

  ghost predicate KeepsLive(t: Tables, r: Tables, now: Time, owner: string) {
    forall h: Hold :: h in t.alg && h.owner != owner && t.Alive(h.owner, now) ==>
      h in r.alg && r.alg[h] == t.alg[h] && r.Alive(h.owner, now)
  }

  lemma KeepsLiveTrans(t: Tables, r: Tables, s: Tables, now: Time, owner: string)
    requires KeepsLive(t, r, now, owner) && KeepsLive(r, s, now, owner)
    ensures KeepsLive(t, s, now, owner)
  {
  }

  lemma ReleaseOneKeepsLive(t: Tables, now: Time, ns: string, owner: string, req: RelReq)
    ensures KeepsLive(t, ReleaseOne(t, ns, owner, req), now, owner)
  {
    hide ScopedPath;
  }

  lemma {:induction false} ReleaseEachKeepsLive(t: Tables, now: Time, ns: string, owner: string, reqs: seq<RelReq>)
    ensures KeepsLive(t, ReleaseEach(t, ns, owner, reqs), now, owner)
    decreases |reqs|
  {
    hide ReleaseOne, KeepsLive;
    if reqs == [] {
      KeepsLiveRefl(t, now, owner);
    } else {
      var t1 := ReleaseOne(t, ns, owner, reqs[0]);
      ReleaseOneKeepsLive(t, now, ns, owner, reqs[0]);
      ReleaseEachKeepsLive(t1, now, ns, owner, reqs[1..]);
      KeepsLiveTrans(t, t1, ReleaseEach(t1, ns, owner, reqs[1..]), now, owner);
    }
  }

  lemma KeepsLiveRefl(t: Tables, now: Time, owner: string)
    ensures KeepsLive(t, t, now, owner)
  {
  }

  lemma FinishKeepsLive(t: Tables, now: Time, ns: string, args: AcquireArgs)
    ensures KeepsLive(t, FinishAcquire(t, now, ns, args), now, args.owner)
  {
    var t1 := RefreshLease(t, now, args.owner, args.ttl);
    assert KeepsLive(t, t1, now, args.owner);
    ReleaseEachKeepsLive(t1, now, ns, args.owner, args.releases);
    var t2 := ReleaseEach(t1, ns, args.owner, args.releases);
    assert KeepsLive(t2, DropLeaseIfIdle(t2, args.owner), now, args.owner);
    hide KeepsLive, RefreshLease, ReleaseEach;
    KeepsLiveTrans(t, t1, t2, now, args.owner);
    KeepsLiveTrans(t, t2, DropLeaseIfIdle(t2, args.owner), now, args.owner);
  }

  /** Whatever an acquire does, another owner's live holds and lease stay as they were. */
  lemma AcquireKeepsLive(t: Tables, pol: Policies, now: Time, ns: string, alg: LockAlgorithm, args: AcquireArgs)
    requires Good(t, pol) && NoSep(ns) && alg == pol.InForce(ns)
    ensures KeepsLive(t, Acquire(t, now, ns, alg, args).1, now, args.owner)
  {
    hide Good, FinishAcquire, KeepsLive, ValidateAll, ApplyAll, BeginAcquire, OnlyLapsedRemoved, Validated, AllGranted, SelfConflicting;
    KeepsLiveRefl(t, now, args.owner);
    if args.requests == [] {
      FinishKeepsLive(t, now, ns, args);
      NothingBegins(t, now, ns, alg, args);
    } else if !HasHeld(args.requests) || t.Alive(args.owner, now) {
      var t0 := BeginAcquire(t, now, args);
      var (o1, t1) := ValidateAll(t0, now, args.owner, args.token, ns, alg, args.requests);
      ValidationRemoves(t, pol, now, ns, alg, args);
      LapsedKeepsLive(t, t1, now, args.owner);
      if o1.None? {
        var (o2, t2) := ApplyAll(t1, args.owner, args.token, ns, alg, args.requests);
        ValidatedClear(t1, ns, alg, args);
        ApplyAllOk(t1, pol, args.owner, args.token, ns, alg, args.requests);
        GrewKeepsLive(t1, t2, now, args.owner);
        KeepsLiveTrans(t, t1, t2, now, args.owner);
        FinishKeepsLive(t2, now, ns, args);
        KeepsLiveTrans(t, t2, FinishAcquire(t2, now, ns, args), now, args.owner);
      }
    }
  }

  lemma NothingBegins(t: Tables, now: Time, ns: string, alg: LockAlgorithm, args: AcquireArgs)
    requires args.requests == []
    ensures Acquire(t, now, ns, alg, args).1 == t || Acquire(t, now, ns, alg, args).1 == FinishAcquire(t, now, ns, args)
  {
  }

  lemma LapsedKeepsLive(t: Tables, r: Tables, now: Time, owner: string)
    requires OnlyLapsedRemoved(t, r, now)
    ensures KeepsLive(t, r, now, owner)
  {
  }

  lemma GrewKeepsLive(t: Tables, r: Tables, now: Time, owner: string)
    requires Grew(t, r, owner)
    ensures KeepsLive(t, r, now, owner)
  {
  }

  lemma ValidatedClear(t: Tables, ns: string, alg: LockAlgorithm, args: AcquireArgs)
    requires Validated(t, ns, alg, args)
    ensures AllClear(t, args.owner, args.token, ns, alg, args.requests)
  {
  }
}

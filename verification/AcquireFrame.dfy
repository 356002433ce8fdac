/** What an acquire changes, exactly: which live holds come and go, and which fences, capacities and leases move. */
module AcquireFrame {
  import opened Paths
  import opened Expiry
  import opened LockSpec
  import opened LockInvariant
  import opened AcquireProof
  import opened ValidateProof
  import opened ApplyProof
  import opened EngineProof
  import opened Decision
  import opened AllOrNothing
  import opened AcquireDecision

  /** On record, and its owner's lease is live. */
  ghost predicate HeldLive(t: Tables, now: Time, h: Hold) { h in t.alg && t.Alive(h.owner, now) }

  ghost predicate SameHold(t: Tables, r: Tables, h: Hold) { h in t.alg && h in r.alg && r.alg[h] == t.alg[h] }

  predicate SameAt<V(==)>(a: map<string, V>, b: map<string, V>, k: string) { (k in a <==> k in b) && (k in a ==> a[k] == b[k]) }

  /** A lease granted now that is already over: only at the last tick of the clock. */
  predicate Lapses(now: Time, ttl: Time) { Expired(ExpiryAt(now, ttl), now) }

  lemma LapsesIff(now: Time, ttl: Time)
    ensures Lapses(now, ttl) <==> ttl > 0 && now == U64_MAX
  {
  }

  // --- releases ---

  /** Exactly the owner's named holds go. */
  lemma {:induction false} ReleaseExact(t: Tables, ns: string, owner: string, rels: seq<RelReq>, h: Hold)
    ensures var r := ReleaseEach(t, ns, owner, rels);
            && (h in r.alg <==> h in t.alg && !(h.owner == owner && ReleasedInline(ns, rels, h)))
            && (h in r.alg ==> r.alg[h] == t.alg[h])
    decreases |rels|
  {
    hide ScopedPath;
    if rels != [] {
      var t1 := ReleaseOne(t, ns, owner, rels[0]);
      ReleaseExact(t1, ns, owner, rels[1..], h);
      assert forall q :: q in rels <==> q == rels[0] || q in rels[1..];
    }
  }

  lemma {:induction false} ReleaseFrame(t: Tables, ns: string, owner: string, rels: seq<RelReq>)
    ensures var r := ReleaseEach(t, ns, owner, rels);
            r.alive == t.alive && r.fence == t.fence && r.cap == t.cap && r.own <= t.own
    decreases |rels|
  {
    hide ScopedPath;
    if rels != [] { ReleaseFrame(ReleaseOne(t, ns, owner, rels[0]), ns, owner, rels[1..]); }
  }

  lemma HolderNotIdle(t: Tables, pol: Policies, h: Hold)
    requires Good(t, pol) && h in t.alg
    ensures !HoldsNothing(t, h.owner)
  {
    hide Core, Exclusive, OneAlgorithm, SemaphoreBounded, Fenced, LeasesFiled, ScopedPath;
    var m :| (h.owner, m) in t.own && m.mode == h.mode && m.Key() == h.key;
    assert (h.owner, m).0 == h.owner;
  }

  /** The holds and leases a finished acquire leaves. */
  lemma FinishExact(t: Tables, pol: Policies, now: Time, ns: string, args: AcquireArgs, h: Hold)
    requires Good(FinishAcquire(t, now, ns, args), pol)
    ensures var r := FinishAcquire(t, now, ns, args);
            && (h in r.alg <==> h in t.alg && !(h.owner == args.owner && ReleasedInline(ns, args.releases, h)))
            && (h in r.alg ==> r.alg[h] == t.alg[h])
            && (h.owner != args.owner ==> (r.Alive(h.owner, now) <==> t.Alive(h.owner, now)))
            && (h in r.alg && h.owner == args.owner ==> (r.Alive(h.owner, now) <==> !Lapses(now, args.ttl)))
  {
    hide Good, ReleaseEach, ReleasedInline, HoldsNothing, ScopedPath;
    var t1 := RefreshLease(t, now, args.owner, args.ttl);
    var r := FinishAcquire(t, now, ns, args);
    ReleaseExact(t1, ns, args.owner, args.releases, h);
    ReleaseFrame(t1, ns, args.owner, args.releases);
    if args.releases == [] { NothingReleased(ns, h); }
    if h in r.alg { HolderNotIdle(r, pol, h); }
    IdleSame(ReleaseEach(t1, ns, args.owner, args.releases), args.owner, h.owner);
  }

  lemma NothingReleased(ns: string, h: Hold)
    ensures !ReleasedInline(ns, [], h)
  {
  }

  lemma IdleSame(t: Tables, owner: string, o: string)
    ensures HoldsNothing(DropLeaseIfIdle(t, owner), o) <==> HoldsNothing(t, o)
  {
  }

  lemma FinishFrame(t: Tables, now: Time, ns: string, args: AcquireArgs)
    ensures var r := FinishAcquire(t, now, ns, args); r.fence == t.fence && r.cap == t.cap && r.own <= t.own
    ensures var r := FinishAcquire(t, now, ns, args); forall o :: o != args.owner ==> (r.Alive(o, now) <==> t.Alive(o, now))
  {
    hide ReleaseEach;
    ReleaseFrame(RefreshLease(t, now, args.owner, args.ttl), ns, args.owner, args.releases);
  }

  // --- execution ---

  ghost predicate AsksFor(ns: string, reqs: seq<LockReq>, owner: string, h: Hold) { exists q :: q in reqs && h == Wanted(owner, ns, q) }

  /** The list newly asks for this hold. */
  ghost predicate AsksNew(ns: string, reqs: seq<LockReq>, owner: string, h: Hold) {
    exists q :: q in reqs && q.state == New && h == Wanted(owner, ns, q)
  }

  /** The list newly asks for a write lock, or a semaphore, on this path. */
  predicate NewAt(ns: string, reqs: seq<LockReq>, key: string) {
    exists q :: q in reqs && q.state == New && q.mode == Write && ScopedPath(ns, q.path) == key
  }

  ghost predicate SeatsWrite(alg: LockAlgorithm, reqs: seq<LockReq>) {
    alg.Semaphore? ==> forall q :: q in reqs && q.state == New ==> q.mode == Write
  }

  lemma ClearModes(t: Tables, owner: string, token: int, ns: string, alg: LockAlgorithm, reqs: seq<LockReq>)
    requires AllClear(t, owner, token, ns, alg, reqs)
    ensures SeatsWrite(alg, reqs)
  {
    hide HeldClear, WriteClear, ReadClear, ScopedPath;
  }

  function RecordedOwn(t: Tables, owner: string, ns: string, q: LockReq, o: Option<AcquireOutcome>): set<(string, Member)> {
    if o.None? then t.own + {(owner, Member(q.mode, ns, q.path))} else t.own
  }

  lemma WriteFrame(t: Tables, owner: string, token: int, ns: string, q: LockReq, a: LockAlgorithm)
    requires q.mode == Write
    ensures var (o, r) := ApplyWrite(t, owner, token, ns, q, a);
            && r.alg.Keys <= t.alg.Keys + {Wanted(owner, ns, q)} && r.cap == t.cap
            && (o.Some? ==> r == t) && r.own == RecordedOwn(t, owner, ns, q, o) && r.alive == t.alive
            && (o.None? ==> r.fence == t.fence[ScopedPath(ns, q.path) := token] && r.wr == t.wr[ScopedPath(ns, q.path) := owner])
  {
    hide ScopedPath, IndexPairs;
  }

  lemma ReadFrame(t: Tables, owner: string, ns: string, q: LockReq, a: LockAlgorithm)
    ensures var r := ApplyRead(t, owner, ns, q, a);
            && r.alg.Keys <= t.alg.Keys + {Wanted(owner, ns, q)} && r.cap == t.cap && r.fence == t.fence && r.wr == t.wr
            && r.own == RecordedOwn(t, owner, ns, q, None) && r.alive == t.alive
  {
    hide ScopedPath, IndexPairs;
  }

  lemma SemaphoreFrame(t: Tables, owner: string, ns: string, q: LockReq)
    ensures var (o, r) := ApplySemaphore(t, owner, ns, q);
            && r.own == RecordedOwn(t, owner, ns, q, o) && r.alive == t.alive
            && r.alg.Keys <= t.alg.Keys + {Wanted(owner, ns, q)} && r.fence == t.fence && r.wr == t.wr
            && (r.cap == t.cap || (q.state == New && r.cap == t.cap[ScopedPath(ns, q.path) := q.permits]))
  {
    hide ScopedPath;
  }

  lemma ReqFrame(t: Tables, owner: string, token: int, ns: string, alg: LockAlgorithm, q: LockReq)
    ensures var (o, r) := ApplyReq(t, owner, token, ns, alg, q);
            var a := if q.state == Held then t.HoldAlgorithm(Wanted(owner, ns, q)) else alg;
            && r.alg.Keys <= t.alg.Keys + {Wanted(owner, ns, q)} && r.own == RecordedOwn(t, owner, ns, q, o) && r.alive == t.alive
            && (r.cap == t.cap || (q.state == New && alg.Semaphore? && r.cap == t.cap[ScopedPath(ns, q.path) := q.permits]))
            && ((r.fence == t.fence && r.wr == t.wr)
                || (r.fence == t.fence[ScopedPath(ns, q.path) := token] && r.wr == t.wr[ScopedPath(ns, q.path) := owner]))
            && (o.None? ==> r.fence == if !a.Semaphore? && q.mode == Write then t.fence[ScopedPath(ns, q.path) := token] else t.fence)
  {
    hide ScopedPath, ApplyWrite, ApplyRead, ApplySemaphore;
    var a := if q.state == Held then t.HoldAlgorithm(Wanted(owner, ns, q)) else alg;
    if a.Semaphore? { SemaphoreFrame(t, owner, ns, q); }
    else if q.mode == Write {
      WriteFrame(t, owner, token, ns, q, a);
      assert ApplyReq(t, owner, token, ns, alg, q) == ApplyWrite(t, owner, token, ns, q, a);
    } else { ReadFrame(t, owner, ns, q, a); }
  }

  lemma {:induction false} ApplyGains(t: Tables, owner: string, token: int, ns: string, alg: LockAlgorithm, reqs: seq<LockReq>, h: Hold)
    ensures h in ApplyAll(t, owner, token, ns, alg, reqs).1.alg ==> h in t.alg || AsksFor(ns, reqs, owner, h)
    decreases |reqs|
  {
    hide ScopedPath, ApplyReq, Wanted;
    if reqs != [] {
      ReqFrame(t, owner, token, ns, alg, reqs[0]);
      ApplyGains(ApplyReq(t, owner, token, ns, alg, reqs[0]).1, owner, token, ns, alg, reqs[1..], h);
      assert reqs[0] in reqs && forall q :: q in reqs[1..] ==> q in reqs;
    }
  }

  lemma {:induction false} ApplyCaps(t: Tables, owner: string, token: int, ns: string, alg: LockAlgorithm, reqs: seq<LockReq>, k: string)
    requires SeatsWrite(alg, reqs) && !NewAt(ns, reqs, k)
    ensures SameAt(t.cap, ApplyAll(t, owner, token, ns, alg, reqs).1.cap, k)
    decreases |reqs|
  {
    hide ScopedPath, ApplyReq;
    if reqs != [] {
      assert reqs[0] in reqs && forall q :: q in reqs[1..] ==> q in reqs;
      ReqFrame(t, owner, token, ns, alg, reqs[0]);
      ApplyCaps(ApplyReq(t, owner, token, ns, alg, reqs[0]).1, owner, token, ns, alg, reqs[1..], k);
    }
  }

  /** The list carries a write lock on this path over to the acquire's own token. */
  predicate Rewrites(ns: string, alg: LockAlgorithm, reqs: seq<LockReq>, key: string) {
    !alg.Semaphore? && exists q :: q in reqs && q.state == Held && q.mode == Write && ScopedPath(ns, q.path) == key
  }

  lemma {:induction false} ApplyFences(
    t: Tables, pol: Policies, owner: string, token: int, ns: string, alg: LockAlgorithm, reqs: seq<LockReq>, k: string)
    requires Good(t, pol) && NoSep(ns) && alg == pol.InForce(ns) && AllClear(t, owner, token, ns, alg, reqs) && !NewAt(ns, reqs, k)
    ensures var (o, r) := ApplyAll(t, owner, token, ns, alg, reqs);
            && (o.None? && Rewrites(ns, alg, reqs, k) ==> k in r.fence && r.fence[k] == token)
            && (!Rewrites(ns, alg, reqs, k) ==> SameAt(t.fence, r.fence, k))
    decreases |reqs|
  {
    hide ScopedPath, ApplyReq, Good, Grew, Onward, ReqClear, OneOwnersRecord, CapacityAgrees;
    if reqs != [] {
      var p, rest := reqs[0], reqs[1..];
      assert forall q :: q in reqs <==> q == p || q in rest;
      ApplyReqOk(t, pol, owner, token, ns, alg, p);
      var (o1, t1) := ApplyReq(t, owner, token, ns, alg, p);
      if o1.None? {
        ReqFrame(t, owner, token, ns, alg, p);
        HeldAlgorithm(t, pol, owner, token, ns, alg, p);
        AppliedRecord(t, pol, owner, token, ns, alg, p);
        forall q | q in rest ensures ReqClear(t1, owner, token, ns, alg, q) {
          StaysClear(t, t1, owner, token, ScopedPath(ns, p.path), ns, alg, q);
        }
        ApplyFences(t1, pol, owner, token, ns, alg, rest, k);
      }
    }
  }

  /** A fence that moved names a path the owner now writes. */
  lemma {:induction false} ApplyMoves(t: Tables, owner: string, token: int, ns: string, alg: LockAlgorithm, reqs: seq<LockReq>, k: string)
    ensures var r := ApplyAll(t, owner, token, ns, alg, reqs).1;
            && (SameAt(t.fence, r.fence, k) || r.Writes(owner, k))
            && (t.Writes(owner, k) ==> r.Writes(owner, k))
    decreases |reqs|
  {
    hide ScopedPath, ApplyReq;
    if reqs != [] {
      ReqFrame(t, owner, token, ns, alg, reqs[0]);
      ApplyMoves(ApplyReq(t, owner, token, ns, alg, reqs[0]).1, owner, token, ns, alg, reqs[1..], k);
    }
  }

  // --- the acquire before its releases ---

  /** The tables when the requests have been executed, or where the acquire stopped. */
  function Executed(t: Tables, now: Time, ns: string, alg: LockAlgorithm, args: AcquireArgs): Tables {
    if HasHeld(args.requests) && !t.Alive(args.owner, now) then t
    else
      var (o1, t1) := ValidateAll(BeginAcquire(t, now, args), now, args.owner, args.token, ns, alg, args.requests);
      if o1.Some? then t1 else ApplyAll(t1, args.owner, args.token, ns, alg, args.requests).1
  }

  lemma ExecutedIs(t: Tables, pol: Policies, now: Time, ns: string, alg: LockAlgorithm, args: AcquireArgs)
    requires Good(t, pol) && NoSep(ns) && alg == pol.InForce(ns) && args.requests != []
    ensures var (o, r) := Acquire(t, now, ns, alg, args);
            r == if o.Ok? then FinishAcquire(Executed(t, now, ns, alg, args), now, ns, args) else Executed(t, now, ns, alg, args)
  {
    hide Good, NoSep, FinishAcquire, ValidateAll, ApplyAll, BeginAcquire, Validated, OnlyLapsedRemoved;
    if !HasHeld(args.requests) || t.Alive(args.owner, now) {
      ValidationRemoves(t, pol, now, ns, alg, args);
      var t1 := ValidateAll(BeginAcquire(t, now, args), now, args.owner, args.token, ns, alg, args.requests).1;
      ApplyNeverOk(t1, args.owner, args.token, ns, alg, args.requests);
    }
  }

  /** Live holds stay and nobody but the given owner gains one. */
  ghost predicate Steady(t: Tables, r: Tables, now: Time, gainer: string) {
    && (forall h: Hold :: h in r.alg && h.owner != gainer ==> SameHold(t, r, h))
    && (forall h: Hold :: h in t.alg && t.Alive(h.owner, now) ==> SameHold(t, r, h))
    && (forall o :: r.Alive(o, now) <==> t.Alive(o, now))
  }

  lemma ValidationAlive(t: Tables, pol: Policies, now: Time, ns: string, alg: LockAlgorithm, args: AcquireArgs)
    requires Good(t, pol) && args.requests != [] && (HasHeld(args.requests) ==> t.Alive(args.owner, now))
    ensures var t1 := ValidateAll(BeginAcquire(t, now, args), now, args.owner, args.token, ns, alg, args.requests).1;
            forall o :: t1.Alive(o, now) ==> t.Alive(o, now)
    ensures var t1 := ValidateAll(BeginAcquire(t, now, args), now, args.owner, args.token, ns, alg, args.requests).1;
            forall h :: h in t1.alg && h.owner == args.owner ==> t.Alive(args.owner, now)
  {
    hide Good, Core, Pruned, ReqClear, CapacityAgrees, ValidateAll, BeginAcquire, Onward;
    var t0 := BeginAcquire(t, now, args);
    BeginGood(t, pol, now, args);
    BeginAlive(t, now, args);
    GoodCore(t0, pol);
    AllOk(t0, now, args.owner, args.token, ns, alg, args.requests);
    var t1 := ValidateAll(t0, now, args.owner, args.token, ns, alg, args.requests).1;
    PrunedAlive(t0, t1, now);
    SolidKept(t0, t1, args.owner, now);
  }

  lemma LapsedSteady(t: Tables, t1: Tables, t2: Tables, now: Time, owner: string)
    requires OnlyLapsedRemoved(t, t1, now) && Grew(t1, t2, owner) && forall o :: t1.Alive(o, now) ==> t.Alive(o, now)
    ensures Steady(t, t2, now, owner)
  {
  }

  lemma SteadyRefl(t: Tables, now: Time, owner: string)
    ensures Steady(t, t, now, owner)
  {
  }

  lemma ExecutedSteady(t: Tables, pol: Policies, now: Time, ns: string, alg: LockAlgorithm, args: AcquireArgs)
    requires Good(t, pol) && NoSep(ns) && alg == pol.InForce(ns) && args.requests != []
    ensures Steady(t, Executed(t, now, ns, alg, args), now, args.owner)
  {
    hide Good, Steady, ValidateAll, ApplyAll, BeginAcquire, OnlyLapsedRemoved, Validated, Grew, Onward, NoSep;
    SteadyRefl(t, now, args.owner);
    if !HasHeld(args.requests) || t.Alive(args.owner, now) {
      var (o1, t1) := ValidateAll(BeginAcquire(t, now, args), now, args.owner, args.token, ns, alg, args.requests);
      ValidationRemoves(t, pol, now, ns, alg, args);
      ValidationAlive(t, pol, now, ns, alg, args);
      GrewRefl(t1, args.owner);
      LapsedSteady(t, t1, t1, now, args.owner);
      if o1.None? {
        ValidatedClear(t1, ns, alg, args);
        ApplyAllOk(t1, pol, args.owner, args.token, ns, alg, args.requests);
        LapsedSteady(t, t1, ApplyAll(t1, args.owner, args.token, ns, alg, args.requests).1, now, args.owner);
      }
    }
  }

  /** The owner has, besides what it newly asks for, only holds it had under a live lease. */
  lemma ExecutedGains(t: Tables, pol: Policies, now: Time, ns: string, alg: LockAlgorithm, args: AcquireArgs, h: Hold)
    requires Good(t, pol) && NoSep(ns) && alg == pol.InForce(ns) && args.requests != []
    requires h in Executed(t, now, ns, alg, args).alg && h.owner == args.owner && !AsksNew(ns, args.requests, args.owner, h)
    ensures h in t.alg && (Acquire(t, now, ns, alg, args).0.Ok? ==> t.Alive(args.owner, now))
  {
    hide Good, ValidateAll, ApplyAll, BeginAcquire, Validated, NoSep, Wanted, AsksNew, FinishAcquire;
    if !HasHeld(args.requests) || t.Alive(args.owner, now) {
      var (o1, t1) := ValidateAll(BeginAcquire(t, now, args), now, args.owner, args.token, ns, alg, args.requests);
      ValidationRemoves(t, pol, now, ns, alg, args);
      ValidationAlive(t, pol, now, ns, alg, args);
      if o1.None? {
        ValidatedClear(t1, ns, alg, args);
        ApplyGains(t1, args.owner, args.token, ns, alg, args.requests, h);
        if h !in t1.alg { HeldOnRecord(t1, args.owner, args.token, ns, alg, args.requests, h); }
      }
    }
  }

  lemma HeldOnRecord(t: Tables, owner: string, token: int, ns: string, alg: LockAlgorithm, reqs: seq<LockReq>, h: Hold)
    requires AllClear(t, owner, token, ns, alg, reqs) && AsksFor(ns, reqs, owner, h) && !AsksNew(ns, reqs, owner, h)
    ensures h in t.alg
  {
    hide SemaphoreClear, WriteClear, ReadClear, ScopedPath;
    var q :| q in reqs && h == Wanted(owner, ns, q);
  }

  lemma ExecutedCaps(t: Tables, pol: Policies, now: Time, ns: string, alg: LockAlgorithm, args: AcquireArgs, k: string)
    requires Good(t, pol) && NoSep(ns) && alg == pol.InForce(ns) && args.requests != [] && !NewAt(ns, args.requests, k)
    ensures SameAt(t.cap, Executed(t, now, ns, alg, args).cap, k)
  {
    hide Good, ValidateAll, ApplyAll, BeginAcquire, Validated, NoSep, NewAt;
    if !HasHeld(args.requests) || t.Alive(args.owner, now) {
      var (o1, t1) := ValidateAll(BeginAcquire(t, now, args), now, args.owner, args.token, ns, alg, args.requests);
      ValidationRemoves(t, pol, now, ns, alg, args);
      if o1.None? {
        ValidatedClear(t1, ns, alg, args);
        ClearModes(t1, args.owner, args.token, ns, alg, args.requests);
        ApplyCaps(t1, args.owner, args.token, ns, alg, args.requests, k);
      }
    }
  }

  /** Off the newly asked paths a fence moves exactly when a granted acquire carries its write lock over. */
  lemma ExecutedFences(t: Tables, pol: Policies, now: Time, ns: string, alg: LockAlgorithm, args: AcquireArgs, k: string)
    requires Good(t, pol) && NoSep(ns) && alg == pol.InForce(ns) && args.requests != [] && !NewAt(ns, args.requests, k)
    ensures var (o, r) := (Acquire(t, now, ns, alg, args).0, Executed(t, now, ns, alg, args));
            if o.Ok? && Rewrites(ns, alg, args.requests, k) then k in r.fence && r.fence[k] == args.token
            else SameAt(t.fence, r.fence, k)
  {
    hide Good, ValidateAll, ApplyAll, BeginAcquire, FinishAcquire, Validated, NoSep, NewAt, Rewrites, SelfConflicting, AllGranted;
    if !HasHeld(args.requests) || t.Alive(args.owner, now) {
      var (o1, t1) := ValidateAll(BeginAcquire(t, now, args), now, args.owner, args.token, ns, alg, args.requests);
      ValidationRemoves(t, pol, now, ns, alg, args);
      if o1.None? {
        ValidatedClear(t1, ns, alg, args);
        ApplyFences(t1, pol, args.owner, args.token, ns, alg, args.requests, k);
        ValidatedOutcome(t1, pol, now, ns, alg, args);
        LocksNeverClash(ns, alg, args.requests, k);
      }
    }
  }

  lemma LocksNeverClash(ns: string, alg: LockAlgorithm, reqs: seq<LockReq>, k: string)
    ensures Rewrites(ns, alg, reqs, k) ==> !SelfConflicting(ns, alg, reqs)
  {
  }

  /** A lock that is still on record under the same algorithm is still a lock. */
  lemma SameLock(t: Tables, r: Tables, h: Hold)
    requires Core(t) && Core(r) && SameHold(t, r, h)
    ensures HasLock(t, h) <==> HasLock(r, h)
    ensures HasHold(t, h) && HasHold(r, h) && t.HoldAlgorithm(h) == r.HoldAlgorithm(h)
    ensures h.mode == Write ==> ((h.key, h.owner) in t.sem <==> (h.key, h.owner) in r.sem)
  {
    hide IndexExact;
  }

  lemma ExecutedGood(t: Tables, pol: Policies, now: Time, ns: string, alg: LockAlgorithm, args: AcquireArgs)
    requires Good(t, pol) && NoSep(ns) && alg == pol.InForce(ns) && args.requests != []
    ensures Good(Executed(t, now, ns, alg, args), pol)
  {
    hide Good, ValidateAll, ApplyAll, BeginAcquire, Validated, NoSep, Grew, Onward, OnlyLapsedRemoved;
    if !HasHeld(args.requests) || t.Alive(args.owner, now) {
      var (o1, t1) := ValidateAll(BeginAcquire(t, now, args), now, args.owner, args.token, ns, alg, args.requests);
      ValidationRemoves(t, pol, now, ns, alg, args);
      if o1.None? {
        ValidatedClear(t1, ns, alg, args);
        ApplyAllOk(t1, pol, args.owner, args.token, ns, alg, args.requests);
      }
    }
  }

  /** The fence of a path another owner writes under a live lease stays. */
  lemma ForeignFence(t: Tables, pol: Policies, now: Time, ns: string, alg: LockAlgorithm, args: AcquireArgs, x: string, k: string)
    requires Good(t, pol) && NoSep(ns) && alg == pol.InForce(ns) && args.requests != []
    requires x != args.owner && t.Writes(x, k) && t.Alive(x, now)
    ensures SameAt(t.fence, Acquire(t, now, ns, alg, args).1.fence, k)
  {
    hide Good, ValidateAll, ApplyAll, BeginAcquire, FinishAcquire, Validated, NoSep, Core, Acquire;
    var t2 := Executed(t, now, ns, alg, args);
    var h := Hold(x, Write, k);
    GoodCore(t, pol);
    LockOnRecord(t, h);
    ExecutedGood(t, pol, now, ns, alg, args);
    GoodCore(t2, pol);
    ExecutedSteady(t, pol, now, ns, alg, args);
    SameLock(t, t2, h);
    if !HasHeld(args.requests) || t.Alive(args.owner, now) {
      var (o1, t1) := ValidateAll(BeginAcquire(t, now, args), now, args.owner, args.token, ns, alg, args.requests);
      ValidationRemoves(t, pol, now, ns, alg, args);
      if o1.None? { ApplyMoves(t1, args.owner, args.token, ns, alg, args.requests, k); }
    }
    ExecutedIs(t, pol, now, ns, alg, args);
    FinishFrame(t2, now, ns, args);
  }

  lemma LockOnRecord(t: Tables, h: Hold)
    requires Core(t) && HasLock(t, h)
    ensures h in t.alg && !t.alg[h].Semaphore?
  {
    hide IndexExact;
    assert HasHold(t, h);
  }

  // --- the acquire, hold by hold ---

  /** A grant of this acquire takes the hold from its owner: by an inline release, or with a lease that is over at once. */
  predicate GivesUp(now: Time, ns: string, args: AcquireArgs, h: Hold) {
    h.owner == args.owner && (Lapses(now, args.ttl) || ReleasedInline(ns, args.releases, h))
  }

  /** A hold the acquire does not newly ask for is live after it exactly when it was before, unless its grant gives it up. */
  lemma AcquireHolds(t: Tables, pol: Policies, now: Time, ns: string, alg: LockAlgorithm, args: AcquireArgs, h: Hold)
    requires Good(t, pol) && NoSep(ns) && alg == pol.InForce(ns) && args.requests != []
    requires !AsksNew(ns, args.requests, args.owner, h)
    ensures var (o, r) := Acquire(t, now, ns, alg, args);
            && (HeldLive(r, now, h) <==> HeldLive(t, now, h) && !(o.Ok? && GivesUp(now, ns, args, h)))
            && (HeldLive(r, now, h) ==> r.alg[h] == t.alg[h])
  {
    hide Good, Acquire, Executed, FinishAcquire, NoSep, AsksNew, ReleasedInline, Lapses, Onward;
    var (o, r) := Acquire(t, now, ns, alg, args);
    var t2 := Executed(t, now, ns, alg, args);
    AcquireGood(t, pol, now, ns, alg, args);
    ExecutedIs(t, pol, now, ns, alg, args);
    ExecutedSteady(t, pol, now, ns, alg, args);
    if h in t2.alg && h.owner == args.owner { ExecutedGains(t, pol, now, ns, alg, args, h); }
    if o.Ok? { FinishExact(t2, pol, now, ns, args, h); }
  }

  /** The rest of what others see of an acquire: their leases, and fences and capacities off the newly asked paths. */
  lemma AcquireElsewhere(t: Tables, pol: Policies, now: Time, ns: string, alg: LockAlgorithm, args: AcquireArgs, k: string)
    requires Good(t, pol) && NoSep(ns) && alg == pol.InForce(ns) && args.requests != []
    ensures var (o, r) := Acquire(t, now, ns, alg, args);
            && (forall x :: x != args.owner ==> (r.Alive(x, now) <==> t.Alive(x, now)))
            && (!NewAt(ns, args.requests, k) ==>
                  && SameAt(t.cap, r.cap, k)
                  && if o.Ok? && Rewrites(ns, alg, args.requests, k) then k in r.fence && r.fence[k] == args.token
                     else SameAt(t.fence, r.fence, k))
  {
    hide Good, Acquire, Executed, FinishAcquire, NoSep, NewAt, Rewrites, SameHold, SameAt;
    var t2 := Executed(t, now, ns, alg, args);
    ExecutedIs(t, pol, now, ns, alg, args);
    ExecutedSteady(t, pol, now, ns, alg, args);
    FinishFrame(t2, now, ns, args);
    if !NewAt(ns, args.requests, k) {
      ExecutedCaps(t, pol, now, ns, alg, args, k);
      ExecutedFences(t, pol, now, ns, alg, args, k);
    }
  }

  // --- hold sets and leases of other owners ---

  ghost predicate SameOwner(t: Tables, r: Tables, o: string) {
    && (forall m :: (o, m) in r.own <==> (o, m) in t.own)
    && SameAt(t.alive, r.alive, o)
  }

  /** Exactly the named members of the owner leave its hold set. */
  lemma {:induction false} ReleaseOwn(t: Tables, ns: string, owner: string, rels: seq<RelReq>, e: (string, Member))
    ensures e in ReleaseEach(t, ns, owner, rels).own <==>
            e in t.own && !(e.0 == owner && exists q :: q in rels && e.1 == Member(q.mode, ns, q.path))
    decreases |rels|
  {
    hide ScopedPath, Drop;
    if rels != [] {
      var t1 := ReleaseOne(t, ns, owner, rels[0]);
      DropOwn(t, ns, owner, rels[0]);
      hide ReleaseOne;
      ReleaseOwn(t1, ns, owner, rels[1..], e);
      assert forall q :: q in rels <==> q == rels[0] || q in rels[1..];
    }
  }

  lemma DropOwn(t: Tables, ns: string, owner: string, q: RelReq)
    ensures ReleaseOne(t, ns, owner, q).own == t.own - {(owner, Member(q.mode, ns, q.path))}
  {
  }

  lemma FinishOthers(t: Tables, now: Time, ns: string, args: AcquireArgs, o: string)
    requires o != args.owner
    ensures SameOwner(t, FinishAcquire(t, now, ns, args), o)
  {
    hide ReleaseEach;
    var t1 := RefreshLease(t, now, args.owner, args.ttl);
    ReleaseFrame(t1, ns, args.owner, args.releases);
    forall m ensures (o, m) in ReleaseEach(t1, ns, args.owner, args.releases).own <==> (o, m) in t.own {
      ReleaseOwn(t1, ns, args.owner, args.releases, (o, m));
    }
  }

  lemma BeginOthers(t: Tables, now: Time, args: AcquireArgs, o: string)
    requires o != args.owner
    ensures SameOwner(t, BeginAcquire(t, now, args), o)
  {
  }

  lemma ExecutedOthers(t: Tables, pol: Policies, now: Time, ns: string, alg: LockAlgorithm, args: AcquireArgs, o: string)
    requires Good(t, pol) && NoSep(ns) && alg == pol.InForce(ns) && args.requests != [] && o != args.owner
    ensures SameOwner(t, Executed(t, now, ns, alg, args), o)
  {
    hide Good, NoSep, ValidateAll, ApplyAll, BeginAcquire, ReqClear, CapacityAgrees, Core, Solid, Onward, Pruned;
    if !HasHeld(args.requests) || t.Alive(args.owner, now) {
      var t0 := BeginAcquire(t, now, args);
      BeginGood(t, pol, now, args);
      BeginOthers(t, now, args, o);
      GoodCore(t0, pol);
      AllOk(t0, now, args.owner, args.token, ns, alg, args.requests);
      var t1 := ValidateAll(t0, now, args.owner, args.token, ns, alg, args.requests).1;
      PrunedFrame(t0, t1, now);
      ApplyOwn(t1, args.owner, args.token, ns, alg, args.requests);
    }
  }

  /** An acquire leaves the hold sets and the leases of other owners as they are. */
  lemma AcquireOthers(t: Tables, pol: Policies, now: Time, ns: string, alg: LockAlgorithm, args: AcquireArgs, o: string)
    requires Good(t, pol) && NoSep(ns) && alg == pol.InForce(ns) && args.requests != [] && o != args.owner
    ensures SameOwner(t, Acquire(t, now, ns, alg, args).1, o)
  {
    hide Good, NoSep, Acquire, Executed, FinishAcquire;
    ExecutedIs(t, pol, now, ns, alg, args);
    ExecutedOthers(t, pol, now, ns, alg, args, o);
    FinishOthers(Executed(t, now, ns, alg, args), now, ns, args, o);
  }

  lemma {:induction false} ApplyOwn(t: Tables, owner: string, token: int, ns: string, alg: LockAlgorithm, reqs: seq<LockReq>)
    ensures var r := ApplyAll(t, owner, token, ns, alg, reqs).1;
            && t.own <= r.own && (forall e :: e in r.own && e !in t.own ==> e.0 == owner) && r.alive == t.alive
    decreases |reqs|
  {
    hide ScopedPath, ApplyReq;
    if reqs != [] {
      ReqFrame(t, owner, token, ns, alg, reqs[0]);
      ApplyOwn(ApplyReq(t, owner, token, ns, alg, reqs[0]).1, owner, token, ns, alg, reqs[1..]);
    }
  }

  lemma PrunedFrame(t: Tables, r: Tables, now: Time)
    requires Pruned(t, r, now)
    ensures r.own == t.own && r.alive == t.alive
  {
  }
}

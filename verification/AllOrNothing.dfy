/**
 Acquire grants every requested hold or changes nothing but the records of
 lapsed owners. The one exception is a list that names a fresh semaphore path
 twice with different permits: exactly those lists fail halfway.
 */
module AllOrNothing {
  import opened Paths
  import opened Expiry
  import opened LockSpec
  import opened LockInvariant
  import opened AcquireProof
  import opened ValidateProof
  import opened ApplyProof
  import opened EngineProof
  import opened Decision

  /** The capacities after one request was applied. */
  lemma CapacityAfter(t: Tables, owner: string, token: int, ns: string, alg: LockAlgorithm, p: LockReq, q: LockReq)
    requires ApplyReq(t, owner, token, ns, alg, p).0.None?
    requires p.state == Held ==> t.HoldAlgorithm(Wanted(owner, ns, p)) == alg
    ensures CapacityAgrees(ApplyReq(t, owner, token, ns, alg, p).1, ns, alg, q) <==>
            CapacityAgrees(t, ns, alg, q) && !(alg.Semaphore? && Clash(ns, p, q))
  {
    hide ScopedPath, IndexPairs;
  }

  lemma SelfConflictSplit(ns: string, alg: LockAlgorithm, p: LockReq, rest: seq<LockReq>)
    ensures SelfConflicting(ns, alg, [p] + rest) <==>
            SelfConflicting(ns, alg, rest) || (alg.Semaphore? && exists q :: q in rest && Clash(ns, p, q))
  {
    hide ScopedPath, Clash;
    var all := [p] + rest;
    if SelfConflicting(ns, alg, all) {
      var i, j :| 0 <= i < j < |all| && Clash(ns, all[i], all[j]);
      if i > 0 { assert Clash(ns, rest[i - 1], rest[j - 1]); } else { assert rest[j - 1] in rest; }
    }
    if SelfConflicting(ns, alg, rest) {
      var i, j :| 0 <= i < j < |rest| && Clash(ns, rest[i], rest[j]);
      assert Clash(ns, all[i + 1], all[j + 1]);
    }
    if q :| q in rest && Clash(ns, p, q) {
      var j :| 0 <= j < |rest| && rest[j] == q;
      assert Clash(ns, all[0], all[j + 1]);
    }
  }

  lemma HeldAlgorithm(t: Tables, pol: Policies, owner: string, token: int, ns: string, alg: LockAlgorithm, p: LockReq)
    requires Good(t, pol) && NoSep(ns) && alg == pol.InForce(ns) && ReqClear(t, owner, token, ns, alg, p)
    ensures p.state == Held ==> t.HoldAlgorithm(Wanted(owner, ns, p)) == alg
  {
    NeverMixed(t, pol, owner, ns, p.path, p.mode);
  }

  /** Execution fails exactly on a capacity mismatch or a self-conflicting list. */
  lemma {:induction false} ApplyFailsIff(
    t: Tables, pol: Policies, owner: string, token: int, ns: string, alg: LockAlgorithm, reqs: seq<LockReq>)
    requires Good(t, pol) && NoSep(ns) && alg == pol.InForce(ns) && AllClear(t, owner, token, ns, alg, reqs)
    ensures ApplyAll(t, owner, token, ns, alg, reqs).0.Some? <==>
            Mismatch(t, ns, alg, reqs) || SelfConflicting(ns, alg, reqs)
    decreases |reqs|
  {
    hide ScopedPath, ApplyReq, Good, Grew, Onward, ReqClear, OneOwnersRecord, SelfConflicting, CapacityAgrees, Clash;
    if reqs == [] {
      assert !SelfConflicting(ns, alg, []) by { EmptyHarmless(ns, alg); }
    } else {
      var p, rest := reqs[0], reqs[1..];
      var (o1, t1) := ApplyReq(t, owner, token, ns, alg, p);
      ApplyReqOk(t, pol, owner, token, ns, alg, p);
      if o1.None? {
        AppliedRecord(t, pol, owner, token, ns, alg, p);
        forall q | q in rest ensures ReqClear(t1, owner, token, ns, alg, q) {
          StaysClear(t, t1, owner, token, ScopedPath(ns, p.path), ns, alg, q);
        }
        ApplyFailsIff(t1, pol, owner, token, ns, alg, rest);
        HeldAlgorithm(t, pol, owner, token, ns, alg, p);
        forall q ensures CapacityAgrees(t1, ns, alg, q) <==>
                         CapacityAgrees(t, ns, alg, q) && !(alg.Semaphore? && Clash(ns, p, q)) {
          CapacityAfter(t, owner, token, ns, alg, p, q);
        }
        SelfConflictSplit(ns, alg, p, rest);
        assert reqs == [p] + rest;
      }
      assert forall q :: q in reqs <==> q == p || q in rest;
    }
  }

  lemma EmptyHarmless(ns: string, alg: LockAlgorithm)
    ensures !SelfConflicting(ns, alg, [])
  {
  }

  /** Nothing was granted, and only holds of lapsed owners were removed. */
  ghost predicate OnlyLapsedRemoved(t: Tables, r: Tables, now: Time) {
    && (forall h :: h in r.alg ==> h in t.alg && r.alg[h] == t.alg[h])
    && (forall h :: h in t.alg && h !in r.alg ==> !t.Alive(h.owner, now))
    && (forall o :: t.Alive(o, now) ==> r.Alive(o, now))
    && (forall e :: e in t.own && e !in r.own ==> !t.Alive(e.0, now))
    && r.own <= t.own && r.fence == t.fence && r.cap == t.cap
  }

  lemma BeginRemoves(t: Tables, now: Time, args: AcquireArgs)
    ensures OnlyLapsedRemoved(t, BeginAcquire(t, now, args), now)
  {
  }

  lemma PrunedRemoves(t: Tables, t0: Tables, t1: Tables, now: Time)
    requires OnlyLapsedRemoved(t, t0, now) && Pruned(t0, t1, now)
    requires forall o :: o in t0.alive ==> o in t.alive && t0.alive[o] == t.alive[o]
    ensures OnlyLapsedRemoved(t, t1, now)
  {
  }

  /** An inline release of the same acquire that gives the hold up again. */
  predicate ReleasedInline(ns: string, rels: seq<RelReq>, h: Hold) {
    exists q :: q in rels && q.mode == h.mode && ScopedPath(ns, q.path) == h.key
  }

  lemma {:induction false} ReleaseKeeps(t: Tables, ns: string, owner: string, rels: seq<RelReq>, h: Hold)
    requires h in t.alg && !ReleasedInline(ns, rels, h)
    ensures h in ReleaseEach(t, ns, owner, rels).alg
    decreases |rels|
  {
    hide ScopedPath;
    if rels != [] {
      assert rels[0] in rels;
      assert forall q :: q in rels[1..] ==> q in rels;
      ReleaseKeeps(ReleaseOne(t, ns, owner, rels[0]), ns, owner, rels[1..], h);
    }
  }

  lemma FinishKeeps(t: Tables, now: Time, ns: string, args: AcquireArgs, h: Hold)
    requires h in t.alg && !ReleasedInline(ns, args.releases, h)
    ensures h in FinishAcquire(t, now, ns, args).alg
  {
    ReleaseKeeps(RefreshLease(t, now, args.owner, args.ttl), ns, args.owner, args.releases, h);
  }

  /** Every requested hold is on record, unless the same acquire released it inline. */
  ghost predicate AllGranted(r: Tables, ns: string, args: AcquireArgs) {
    forall q :: q in args.requests ==>
      Wanted(args.owner, ns, q) in r.alg || ReleasedInline(ns, args.releases, Wanted(args.owner, ns, q))
  }

  /**
   On success every requested hold is granted. On refusal only lapsed owners lost
   records, except when the list is self-conflicting.
   */
  lemma AcquireAllOrNothing(t: Tables, pol: Policies, now: Time, ns: string, alg: LockAlgorithm, args: AcquireArgs)
    requires Good(t, pol) && NoSep(ns) && alg == pol.InForce(ns)
    ensures var (o, r) := Acquire(t, now, ns, alg, args);
            && (o.Ok? ==> AllGranted(r, ns, args))
            && (!o.Ok? && !SelfConflicting(ns, alg, args.requests) ==> OnlyLapsedRemoved(t, r, now))
  {
    hide Good, FinishAcquire, SelfConflicting, OnlyLapsedRemoved, AllGranted, ValidateAll, ApplyAll, BeginAcquire;
    SelfRemoves(t, now);
    if args.requests == [] {
      NothingAsked(t, now, ns, alg, args);
    } else if !HasHeld(args.requests) || t.Alive(args.owner, now) {
      var t0 := BeginAcquire(t, now, args);
      var (o1, t1) := ValidateAll(t0, now, args.owner, args.token, ns, alg, args.requests);
      ValidationRemoves(t, pol, now, ns, alg, args);
      if o1.None? {
        ValidatedOutcome(t1, pol, now, ns, alg, args);
        var (o2, t2) := ApplyAll(t1, args.owner, args.token, ns, alg, args.requests);
        assert o2.None? ==> Acquire(t, now, ns, alg, args).1 == FinishAcquire(t2, now, ns, args);
      }
    }
  }

  lemma NothingAsked(t: Tables, now: Time, ns: string, alg: LockAlgorithm, args: AcquireArgs)
    requires args.requests == []
    ensures Acquire(t, now, ns, alg, args).0.Ok? && AllGranted(Acquire(t, now, ns, alg, args).1, ns, args)
  {
  }

  lemma ValidationRemoves(t: Tables, pol: Policies, now: Time, ns: string, alg: LockAlgorithm, args: AcquireArgs)
    requires Good(t, pol) && NoSep(ns) && alg == pol.InForce(ns)
    requires args.requests != [] && (HasHeld(args.requests) ==> t.Alive(args.owner, now))
    ensures var (o1, t1) := ValidateAll(BeginAcquire(t, now, args), now, args.owner, args.token, ns, alg, args.requests);
            && OnlyLapsedRemoved(t, t1, now) && Good(t1, pol)
            && (o1.Some? ==> o1.value.Conflict? || o1.value.Lost?)
            && (o1.None? ==> Validated(t1, ns, alg, args))
  {
    hide Good, Pruned, ReqClear, Solid, OnlyLapsedRemoved, CapacityAgrees, ValidateAll;
    var t0 := BeginAcquire(t, now, args);
    BeginGood(t, pol, now, args);
    BeginRemoves(t, now, args);
    BeginAlive(t, now, args);
    GoodCore(t0, pol);
    hide BeginAcquire, Core;
    var (o1, t1) := ValidateAll(t0, now, args.owner, args.token, ns, alg, args.requests);
    AllOk(t0, now, args.owner, args.token, ns, alg, args.requests);
    PrunedGood(t0, t1, now, pol);
    PrunedRemoves(t, t0, t1, now);
    RefusalNeverOk(t0, now, args.owner, args.token, ns, alg, args.requests);
  }

  ghost predicate Validated(t: Tables, ns: string, alg: LockAlgorithm, args: AcquireArgs) {
    forall q :: q in args.requests ==> ReqClear(t, args.owner, args.token, ns, alg, q) && CapacityAgrees(t, ns, alg, q)
  }

  lemma NewRefusalNotOk(t: Tables, now: Time, owner: string, token: int, ns: string, alg: LockAlgorithm, req: LockReq)
    requires Core(t)
    ensures var o := ValidateNew(t, now, owner, token, ns, alg, req).0; o.Some? ==> o.value.Conflict?
  {
    hide Core, ScopedPath, GetAncestors, PruneWriter, PruneSemaphore, ValidateNewWrite, ValidateAncestors, LiveReader, SubtreeBlocks, Pruned;
    var key := ScopedPath(ns, req.path);
    AncestorsDecide(t, now, owner, ns, GetAncestors(key));
    AncestorsOk(t, now, owner, ns, GetAncestors(key));
    var t1 := ValidateAncestors(t, now, owner, ns, GetAncestors(key)).1;
    PrunedCore(t, t1, now);
    var t2 := PruneWriter(t1, now, key);
    PruneWriterOk(t1, now, key);
    PrunedCore(t1, t2, now);
    NewWriteDecides(t2, now, owner, token, ns, alg, req.path, key in t2.wr);
  }

  lemma {:induction false} RefusalNeverOk(
    t: Tables, now: Time, owner: string, token: int, ns: string, alg: LockAlgorithm, reqs: seq<LockReq>)
    requires Core(t) && Solid(t, owner, now)
    ensures var o := ValidateAll(t, now, owner, token, ns, alg, reqs).0; o.Some? ==> o.value.Conflict? || o.value.Lost?
    decreases |reqs|
  {
    hide Core, ScopedPath, Solid, Pruned, ReqClear, ValidateNew;
    if reqs != [] {
      var t1 := ValidateReq(t, now, owner, token, ns, alg, reqs[0]).1;
      NewRefusalNotOk(t, now, owner, token, ns, alg, reqs[0]);
      ReqOk(t, now, owner, token, ns, alg, reqs[0]);
      PrunedCore(t, t1, now);
      SolidKept(t, t1, owner, now);
      RefusalNeverOk(t1, now, owner, token, ns, alg, reqs[1..]);
    }
  }

  lemma SelfRemoves(t: Tables, now: Time)
    ensures OnlyLapsedRemoved(t, t, now)
  {
  }

  lemma BeginAlive(t: Tables, now: Time, args: AcquireArgs)
    ensures var t0 := BeginAcquire(t, now, args); forall o :: o in t0.alive ==> o in t.alive && t0.alive[o] == t.alive[o]
  {
  }

  lemma ValidatedOutcome(t1: Tables, pol: Policies, now: Time, ns: string, alg: LockAlgorithm, args: AcquireArgs)
    requires Good(t1, pol) && NoSep(ns) && alg == pol.InForce(ns) && Validated(t1, ns, alg, args)
    ensures var (o, t2) := ApplyAll(t1, args.owner, args.token, ns, alg, args.requests);
            && (o.Some? <==> SelfConflicting(ns, alg, args.requests))
            && (o.Some? ==> !o.value.Ok?)
            && (o.None? ==> AllGranted(FinishAcquire(t2, now, ns, args), ns, args))
  {
    hide Good, Onward, ReqClear, FinishAcquire, ScopedPath, SelfConflicting, ReleasedInline, Grew, Wanted, CapacityAgrees;
    ApplyAllOk(t1, pol, args.owner, args.token, ns, alg, args.requests);
    ApplyFailsIff(t1, pol, args.owner, args.token, ns, alg, args.requests);
    ApplyNeverOk(t1, args.owner, args.token, ns, alg, args.requests);
    var (o, t2) := ApplyAll(t1, args.owner, args.token, ns, alg, args.requests);
    if o.None? {
      forall q | q in args.requests && !ReleasedInline(ns, args.releases, Wanted(args.owner, ns, q))
        ensures Wanted(args.owner, ns, q) in FinishAcquire(t2, now, ns, args).alg
      {
        FinishKeeps(t2, now, ns, args, Wanted(args.owner, ns, q));
      }
    }
  }

  lemma {:induction false} ApplyNeverOk(t: Tables, owner: string, token: int, ns: string, alg: LockAlgorithm, reqs: seq<LockReq>)
    ensures var o := ApplyAll(t, owner, token, ns, alg, reqs).0; o.Some? ==> o.value.Conflict?
    decreases |reqs|
  {
    hide ScopedPath, IndexPairs, RecordHold;
    if reqs != [] {
      var (o1, t1) := ApplyReq(t, owner, token, ns, alg, reqs[0]);
      ApplyNeverOk(t1, owner, token, ns, alg, reqs[1..]);
    }
  }

  /** The failing family is real: two permit counts for one fresh path leave half a grant behind. */
  lemma HalfGrant(now: Time)
    ensures var reqs := [LockReq("h:/s", Write, New, 1), LockReq("h:/s", Write, New, 2)];
            var args := AcquireArgs("o", 5, reqs, 0, [], 0);
            var (o, r) := Acquire(EMPTY, now, "h", Semaphore, args);
            && SelfConflicting("h", Semaphore, reqs)
            && o.Conflict? && o.reason == InvalidPermits && (ScopedPath("h", "h:/s"), "o") in r.sem && "o" !in r.alive
  {
    hide ScopedPath, GetAncestors;
    var p, q := LockReq("h:/s", Write, New, 1), LockReq("h:/s", Write, New, 2);
    var reqs := [p, q];
    var key := ScopedPath("h", "h:/s");
    var args := AcquireArgs("o", 5, reqs, 0, [], 0);
    assert Clash("h", reqs[0], reqs[1]);
    var pol := Policies(map[], Semaphore);
    EmptyGood(pol);
    EmptyValidates(now, p);
    EmptyValidates(now, q);
    assert reqs[1..] == [q] && reqs[2..] == [];
    assert BeginAcquire(EMPTY, now, args) == EMPTY by { EmptyBegin(now, args); }
    assert ValidateAll(EMPTY, now, "o", 0, "h", Semaphore, [q]) == (None, EMPTY);
    assert ValidateAll(EMPTY, now, "o", 0, "h", Semaphore, reqs) == (None, EMPTY);
    HalfApplied(p, q);
  }

  lemma EmptyBegin(now: Time, args: AcquireArgs)
    ensures BeginAcquire(EMPTY, now, args) == EMPTY
  {
    var r := ReleaseOwner(EMPTY, args.owner);
    assert r.wr == map[] && r.alg == map[] && r.alive == map[];
    assert r.own == {} && r.sem == {} && r.rd == {} && r.wrdesc == {} && r.rddesc == {};
  }

  lemma {:induction false} EmptyAncestors(now: Time, owner: string, ns: string, ancs: seq<string>)
    ensures ValidateAncestors(EMPTY, now, owner, ns, ancs) == (None, EMPTY)
    decreases |ancs|
  {
    if ancs != [] { EmptyAncestors(now, owner, ns, ancs[1..]); }
  }

  lemma EmptyValidates(now: Time, p: LockReq)
    requires p.mode == Write && p.state == New && p.permits > 0
    ensures ValidateReq(EMPTY, now, "o", 0, "h", Semaphore, p) == (None, EMPTY)
  {
    hide ScopedPath, GetAncestors;
    var key := ScopedPath("h", p.path);
    EmptyAncestors(now, "o", "h", GetAncestors(key));
    var t1 := PruneSemaphore(EMPTY, now, key);
    assert t1.wr == map[] && t1.alg == map[] && t1.sem == {} && t1.rd == {} && t1.wrdesc == {} && t1.rddesc == {};
    assert MembersAt(t1.sem, key) == {};
  }

  lemma HalfApplied(p: LockReq, q: LockReq)
    requires p == LockReq("h:/s", Write, New, 1) && q == LockReq("h:/s", Write, New, 2)
    ensures var (o, r) := ApplyAll(EMPTY, "o", 0, "h", Semaphore, [p, q]);
            && o.Some? && o.value.Conflict? && o.value.reason == InvalidPermits
            && (ScopedPath("h", "h:/s"), "o") in r.sem && "o" !in r.alive
  {
    hide ScopedPath;
    var (o1, t1) := ApplyReq(EMPTY, "o", 0, "h", Semaphore, p);
    assert [p, q][1..] == [q];
    assert ApplyAll(t1, "o", 0, "h", Semaphore, [q]).1 == t1;
  }
}

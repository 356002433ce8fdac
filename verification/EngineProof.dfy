/** Every engine primitive keeps the invariant; acquire is all-or-nothing; fences only rise. */
module EngineProof {
  import opened Paths
  import opened Expiry
  import opened LockSpec
  import opened LockInvariant
  import opened AcquireProof
  import opened ValidateProof
  import opened ApplyProof

  // --- release ---

  lemma ReleaseOneGood(t: Tables, pol: Policies, ns: string, owner: string, req: RelReq)
    requires Good(t, pol)
    ensures Good(ReleaseOne(t, ns, owner, req), pol)
    ensures Onward(t, ReleaseOne(t, ns, owner, req))
  {
    hide ScopedPath, Core, Exclusive, SemaphoreBounded, OneAlgorithm, Fenced, LeasesFiled;
    var gone := Member(req.mode, ns, req.path);
    var h := Hold(owner, req.mode, ScopedPath(ns, req.path));
    var own := t.own - {(owner, gone)};
    forall g | g in t.alg && g !in {h} ensures CoversHold(own, g) {
      assert CoversHold(t.own, g);
      var m :| (g.owner, m) in t.own && m.mode == g.mode && m.Key() == g.key;
      assert (g.owner, m) in own;
    }
    DropGood(t, pol, own, {h});
    DropOnward(t.(own := own), {h});
  }

  lemma DropOnward(t: Tables, hs: set<Hold>)
    ensures Onward(t, Drop(t, hs))
  {
  }

  lemma {:induction false} ReleaseEachGood(t: Tables, pol: Policies, ns: string, owner: string, reqs: seq<RelReq>)
    requires Good(t, pol)
    ensures Good(ReleaseEach(t, ns, owner, reqs), pol)
    ensures Onward(t, ReleaseEach(t, ns, owner, reqs))
    decreases |reqs|
  {
    hide Good, ReleaseOne, Onward;
    if reqs == [] {
      GrewRefl(t, owner);
    } else {
      var t1 := ReleaseOne(t, ns, owner, reqs[0]);
      ReleaseOneGood(t, pol, ns, owner, reqs[0]);
      ReleaseEachGood(t1, pol, ns, owner, reqs[1..]);
      OnwardTrans(t, t1, ReleaseEach(t, ns, owner, reqs));
    }
  }

  /** Losing leases never hurts the invariant. */
  lemma LeaseLossGood(t: Tables, pol: Policies, owners: set<string>)
    requires Good(t, pol)
    ensures Good(t.(alive := t.alive - owners), pol)
  {
    var r := t.(alive := t.alive - owners);
    assert OneAlgorithm(r, pol) && OwnCovers(r) && Fenced(r) && LeasesFiled(r);
    hide Core, Exclusive, SemaphoreBounded, OneAlgorithm, OwnCovers, LeasesFiled, Fenced;
    CoreFrame(t, r);
    ExclusiveFrame(t, r);
    BoundFrame(t, r);
  }

  lemma ReleaseGood(t: Tables, pol: Policies, ns: string, owner: string, reqs: seq<RelReq>)
    requires Good(t, pol)
    ensures Good(Release(t, ns, owner, reqs), pol)
    ensures Onward(t, Release(t, ns, owner, reqs))
  {
    hide Good;
    ReleaseEachGood(t, pol, ns, owner, reqs);
    LeaseLossGood(ReleaseEach(t, ns, owner, reqs), pol, {owner});
  }

  lemma ReleaseOwnerGood(t: Tables, pol: Policies, owner: string)
    requires Good(t, pol)
    ensures Good(ReleaseOwner(t, owner), pol)
    ensures Onward(t, ReleaseOwner(t, owner))
  {
    hide Core, Exclusive, SemaphoreBounded, OneAlgorithm, Fenced, LeasesFiled, Drop, Onward;
    var hs := set h | h in t.alg && h.owner == owner;
    var own := set e | e in t.own && e.0 != owner;
    forall g | g in t.alg && g !in hs ensures CoversHold(own, g) {
      assert CoversHold(t.own, g);
      var m :| (g.owner, m) in t.own && m.mode == g.mode && m.Key() == g.key;
      assert (g.owner, m) in own;
    }
    hide CoversHold;
    DropGood(t, pol, own, hs);
    ReleaseOwnerIs(t, owner, own, hs);
    hide Good, ReleaseOwner;
    LeaseLossGood(Drop(t.(own := own), hs), pol, {owner});
    DropOnward(t, hs);
  }

  lemma ReleaseOwnerIs(t: Tables, owner: string, own: set<(string, Member)>, hs: set<Hold>)
    requires hs == (set h | h in t.alg && h.owner == owner) && own == (set e | e in t.own && e.0 != owner)
    ensures ReleaseOwner(t, owner) == Drop(t.(own := own), hs).(alive := Drop(t.(own := own), hs).alive - {owner})
    ensures Onward(t, Drop(t, hs)) ==> Onward(t, ReleaseOwner(t, owner))
  {
  }

  /** Owner-wide release is complete and local. */
  lemma ReleaseOwnerComplete(t: Tables, pol: Policies, owner: string)
    requires Good(t, pol)
    ensures var r := ReleaseOwner(t, owner);
            && (forall h: Hold :: h.owner == owner ==> !HasHold(r, h))
            && (forall h: Hold :: h.owner != owner ==> (HasHold(r, h) <==> HasHold(t, h)))
            && HoldsNothing(r, owner) && owner !in r.alive
            && r.fence == t.fence && r.cap == t.cap
  {
    ReleaseOwnerGood(t, pol, owner);
    var r := ReleaseOwner(t, owner);
    assert forall h :: h in r.alg <==> HasHold(r, h);
    assert forall h :: h in t.alg <==> HasHold(t, h);
    hide Good;
  }

  // --- leases ---

  lemma RefreshGood(t: Tables, pol: Policies, now: Time, owner: string, ttl: Time)
    requires Good(t, pol)
    ensures Good(RefreshLease(t, now, owner, ttl), pol)
    ensures Onward(t, RefreshLease(t, now, owner, ttl))
  {
    var r := RefreshLease(t, now, owner, ttl);
    assert OneAlgorithm(r, pol) && OwnCovers(r) && Fenced(r);
    RefreshFiled(t, now, owner, ttl);
    hide Core, Exclusive, SemaphoreBounded, OneAlgorithm, OwnCovers, LeasesFiled, Fenced;
    CoreFrame(t, r);
    ExclusiveFrame(t, r);
    BoundFrame(t, r);
  }

  /** Renewal succeeds exactly for a live owner with something in its hold set, and then only moves the lease; otherwise nothing changes. */
  lemma RenewExact(t: Tables, now: Time, owner: string, ttl: Time)
    ensures var (o, r) := Renew(t, now, owner, ttl);
            && (o.Renewed? <==> t.Alive(owner, now) && exists m :: (owner, m) in t.own)
            && (o.Renewed? ==> owner in r.alive && r.alive[owner] == ExpiryAt(now, ttl) && r.alive - {owner} == t.alive - {owner})
            && r == t.(alive := r.alive, slots := r.slots)
            && (!o.Renewed? ==> r == t)
  {
    hide QuantizedIndexExpiry;
    if !HoldsNothing(t, owner) {
      var e :| e in t.own && e.0 == owner;
      assert e == (owner, e.1);
    }
  }

  lemma RefreshFiled(t: Tables, now: Time, owner: string, ttl: Time)
    requires LeasesFiled(t)
    ensures LeasesFiled(RefreshLease(t, now, owner, ttl))
  {
    var r := RefreshLease(t, now, owner, ttl);
    FileSlotCovers(t.slots, now, ExpiryAt(now, ttl), AliveRef(owner));
    forall o | o in r.alive && o != owner ensures Covered(r.slots, r.alive[o], AliveRef(o)) {
      CoveredMore(t.slots, r.slots, t.alive[o], AliveRef(o));
    }
  }

  lemma CoveredMore(a: set<Slot>, b: set<Slot>, exp: nat, ref: Ref)
    requires Covered(a, exp, ref) && a <= b
    ensures Covered(b, exp, ref)
  {
    if exp != 0 {
      var s :| s in a && s.ref == ref && exp <= s.exp < exp + EXPIRY_INDEX_QUANTUM_MS;
      assert s in b;
    }
  }

  // --- acquire ---

  lemma BeginGood(t: Tables, pol: Policies, now: Time, args: AcquireArgs)
    requires Good(t, pol)
    requires args.requests != [] && (HasHeld(args.requests) ==> t.Alive(args.owner, now))
    ensures var t0 := BeginAcquire(t, now, args);
            Good(t0, pol) && Onward(t, t0) && Solid(t0, args.owner, now)
  {
    if !HasHeld(args.requests) && !t.Alive(args.owner, now) {
      ReleaseOwnerGood(t, pol, args.owner);
      hide Good;
    } else {
      GrewRefl(t, args.owner);
    }
  }

  lemma FinishGood(t: Tables, pol: Policies, now: Time, ns: string, args: AcquireArgs)
    requires Good(t, pol)
    ensures Good(FinishAcquire(t, now, ns, args), pol)
    ensures Onward(t, FinishAcquire(t, now, ns, args))
  {
    hide Good, Onward, Release, RefreshLease;
    var t1 := RefreshLease(t, now, args.owner, args.ttl);
    RefreshGood(t, pol, now, args.owner, args.ttl);
    ReleaseGood(t1, pol, ns, args.owner, args.releases);
    OnwardTrans(t, t1, Release(t1, ns, args.owner, args.releases));
  }

  lemma PrunedFences(t: Tables, r: Tables, now: Time)
    requires Pruned(t, r, now)
    ensures Onward(t, r)
  {
    DropOnward(t, t.alg.Keys - r.alg.Keys);
  }

  /** Every acquire, granted or refused, keeps the invariant and only raises fences. */
  lemma AcquireGood(t: Tables, pol: Policies, now: Time, ns: string, alg: LockAlgorithm, args: AcquireArgs)
    requires Good(t, pol) && NoSep(ns) && alg == pol.InForce(ns)
    ensures Good(Acquire(t, now, ns, alg, args).1, pol)
    ensures Onward(t, Acquire(t, now, ns, alg, args).1)
  {
    GrewRefl(t, args.owner);
    hide Good, Onward, Pruned, ReqClear, Solid, FinishAcquire;
    if args.requests == [] {
      FinishGood(t, pol, now, ns, args);
    } else if !HasHeld(args.requests) || t.Alive(args.owner, now) {
      var t0 := BeginAcquire(t, now, args);
      BeginGood(t, pol, now, args);
      GoodCore(t0, pol);
      hide BeginAcquire;
      var (o1, t1) := ValidateAll(t0, now, args.owner, args.token, ns, alg, args.requests);
      AllOk(t0, now, args.owner, args.token, ns, alg, args.requests);
      PrunedGood(t0, t1, now, pol);
      PrunedFences(t0, t1, now);
      OnwardTrans(t, t0, t1);
      if o1.None? {
        var (o2, t2) := ApplyAll(t1, args.owner, args.token, ns, alg, args.requests);
        ApplyAllOk(t1, pol, args.owner, args.token, ns, alg, args.requests);
        OnwardTrans(t, t1, t2);
        FinishGood(t2, pol, now, ns, args);
        OnwardTrans(t, t2, FinishAcquire(t2, now, ns, args));
      }
    }
  }

  lemma GoodCore(t: Tables, pol: Policies)
    requires Good(t, pol)
    ensures Core(t)
  {
  }
}

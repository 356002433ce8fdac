/**
 The waiters a sweep leaves: exactly when one of them could be granted in the
 tables the sweep ends with. What stood in its way at its turn must have been
 given up, hold by hold, by waiters granted after it.
 */
module Leftover {
  import opened Ordering
  import opened Paths
  import opened Expiry
  import opened LockSpec
  import opened LockInvariant
  import opened ApplyProof
  import opened EngineProof
  import opened Decision
  import opened AllOrNothing
  import opened AcquireDecision
  import opened AcquireFrame
  import opened QueueSpec
  import opened QueueProof
  import opened SweepProof
  import opened MachineSpec
  import opened Fairness
  import opened Delivery
  import opened Progress

  // --- the condition ---

  ghost predicate GivenUp(now: Time, later: set<Entry>, h: Hold) { exists g :: g in later && GivesUp(now, g.ns, g.args, h) }

  /** A live hold of another owner that conflicts with the wanted lock. */
  ghost predicate InWay(t: Tables, now: Time, me: string, alg: LockAlgorithm, key: string, mode: Mode, h: Hold) {
    h.owner != me && HeldLive(t, now, h) && LocksConflict(alg, key, mode, t.alg[h], h.key, h.mode)
  }

  /** The live holders of a semaphore that the later grants leave in place. */
  ghost function StillIn(t: Tables, now: Time, key: string, later: set<Entry>): (r: set<string>)
    ensures forall o :: o in r <==> o in LiveHolders(t, now, key) && !GivenUp(now, later, Hold(o, Write, key))
  {
    set o | o in LiveHolders(t, now, key) && !GivenUp(now, later, Hold(o, Write, key))
  }

  ghost predicate CarriesOver(g: Entry, key: string) { Rewrites(g.ns, g.policy.algorithm, g.args.requests, key) }

  /** The waiter's token beats the stored fence and every token a later grant carries the path over to. */
  ghost predicate TokenBeats(t: Tables, now: Time, w: Entry, key: string, later: set<Entry>) {
    && !StaleFence(t, key, w.args.token, t.Alive(w.args.owner, now) && t.Writes(w.args.owner, key))
    && (forall g :: g in later && CarriesOver(g, key) ==> g.args.token < w.args.token)
  }

  ghost predicate Unlocks(t: Tables, now: Time, w: Entry, key: string, mode: Mode, later: set<Entry>) {
    && (forall h :: InWay(t, now, w.args.owner, w.policy.algorithm, key, mode, h) ==> GivenUp(now, later, h))
    && (mode == Write ==> TokenBeats(t, now, w, key, later))
  }

  ghost predicate Seats(t: Tables, now: Time, w: Entry, key: string, permits: nat, later: set<Entry>) {
    && PermitsFit(t, key, permits)
    && ((t.Alive(w.args.owner, now) && (key, w.args.owner) in t.sem) || |StillIn(t, now, key, later)| < permits)
  }

  /** One new request of the waiter, met at its turn by these tables, once the later grants are made. */
  ghost predicate Opens(t: Tables, now: Time, w: Entry, q: LockReq, later: set<Entry>) {
    var key := ScopedPath(w.ns, q.path);
    && w.policy.algorithm.AllowsMode(q.mode)
    && if w.policy.algorithm.Semaphore? then Seats(t, now, w, key, q.permits, later) else Unlocks(t, now, w, key, q.mode, later)
  }

  /**
   The later grants clear the waiter's way: nothing stands against it at its turn but
   contention, and every hold in its way is given up by a later grant of its owner,
   for a semaphore enough of them.
   */
  ghost predicate Clears(t: Tables, now: Time, w: Entry, later: set<Entry>) {
    && (HasHeld(w.args.requests) ==> t.Alive(w.args.owner, now))
    && !SelfConflicting(w.ns, w.policy.algorithm, w.args.requests)
    && forall q :: q in w.args.requests ==>
         if q.state == Held then StillHeld(t, w.args.owner, w.args.token, w.ns, q) else Opens(t, now, w, q, later)
  }

  // --- with no later grants it is the acquire's own decision ---

  lemma ConflictHere(a: LockAlgorithm, p: string, m: Mode, b: LockAlgorithm, q: string, n: Mode)
    requires LocksConflict(a, p, m, b, q, n)
    ensures NamespaceOf(p) == NamespaceOf(q)
  {
    hide GetAncestors, DescendantPrefix, NamespaceOf;
    if p != q {
      if IsStrictAncestor(p, q) { AncestorShape(p, q); } else { AncestorShape(q, p); }
    }
  }

  /** Holds carry the algorithm in force, so one in the way of a request carries the request's. */
  lemma HoldKind(t: Tables, pol: Policies, ns: string, path: string, h: Hold)
    requires Good(t, pol) && NoSep(ns) && h in t.alg && NamespaceOf(h.key) == NamespaceOf(ScopedPath(ns, path))
    ensures t.alg[h] == pol.InForce(ns) && HasHold(t, h) && (pol.InForce(ns).Semaphore? <==> h.mode == Write && (h.key, h.owner) in t.sem)
    ensures !pol.InForce(ns).Semaphore? ==> HasLock(t, h)
  {
    hide IndexExact, Exclusive, OwnCovers, SemaphoreBounded, Fenced, LeasesFiled, ScopedPath, NamespaceOf;
    NamespaceOfScoped(ns, path);
  }

  lemma WayIsContended(t: Tables, pol: Policies, now: Time, w: Entry, q: LockReq)
    requires Good(t, pol) && Lawful(w, pol) && !w.policy.algorithm.Semaphore?
    ensures var key := ScopedPath(w.ns, q.path);
            Contended(t, now, w.args.owner, w.policy.algorithm, key, q.mode) <==>
            exists h :: InWay(t, now, w.args.owner, w.policy.algorithm, key, q.mode, h)
  {
    hide Good, LocksConflict, ScopedPath, NamespaceOf, HasLock;
    var me, alg, key := w.args.owner, w.policy.algorithm, ScopedPath(w.ns, q.path);
    if Contended(t, now, me, alg, key, q.mode) {
      var h :| HasLock(t, h) && h.owner != me && t.Alive(h.owner, now) && LocksConflict(alg, key, q.mode, t.HoldAlgorithm(h), h.key, h.mode);
      GoodCore(t, pol);
      LockOnRecord(t, h);
      assert InWay(t, now, me, alg, key, q.mode, h);
    }
    if h :| InWay(t, now, me, alg, key, q.mode, h) {
      ConflictHere(alg, key, q.mode, t.alg[h], h.key, h.mode);
      HoldKind(t, pol, w.ns, q.path, h);
      Witness(t, now, me, alg, key, q.mode, h);
    }
  }

  lemma SemaphoreFreeAbove(t: Tables, pol: Policies, now: Time, w: Entry, q: LockReq)
    requires Good(t, pol) && Lawful(w, pol) && w.policy.algorithm.Semaphore?
    ensures !AncestorBlocks(t, now, w.args.owner, GetAncestors(ScopedPath(w.ns, q.path)))
  {
    hide Good, ScopedPath, NamespaceOf, DescendantPrefix;
    var key := ScopedPath(w.ns, q.path);
    GoodCore(t, pol);
    forall a | a in GetAncestors(key) ensures a !in t.wr {
      AncestorShape(a, key);
      if a in t.wr {
        var h := Hold(t.wr[a], Write, a);
        LockOnRecord(t, h);
        HoldKind(t, pol, w.ns, q.path, h);
        assert false;
      }
    }
  }

  lemma OpensNow(t: Tables, pol: Policies, now: Time, w: Entry, q: LockReq)
    requires Good(t, pol) && Lawful(w, pol) && q.state == New
    ensures Opens(t, now, w, q, {}) <==> GrantableTo(t, now, w.args.owner, w.args.token, w.ns, w.policy.algorithm, q)
  {
    hide Good, ScopedPath, NoSep, AncestorBlocks, Contended, InWay, GivesUp, StaleFence, PermitsFit, GetAncestors;
    if w.policy.algorithm.Semaphore? {
      SemaphoreFreeAbove(t, pol, now, w, q);
      assert StillIn(t, now, ScopedPath(w.ns, q.path), {}) == LiveHolders(t, now, ScopedPath(w.ns, q.path));
    } else {
      WayIsContended(t, pol, now, w, q);
    }
  }

  lemma ClearsNow(t: Tables, pol: Policies, now: Time, w: Entry)
    requires Good(t, pol) && Lawful(w, pol)
    ensures Clears(t, now, w, {}) <==> Ready(t, now, w)
  {
    hide Good, NoSep, Acquire, Opens, GrantableTo, SelfConflicting, ScopedPath;
    AcquireDecides(t, pol, now, w.ns, w.policy.algorithm, w.args);
    forall q | q in w.args.requests && q.state == New
      ensures Opens(t, now, w, q, {}) <==> GrantableTo(t, now, w.args.owner, w.args.token, w.ns, w.policy.algorithm, q)
    {
      OpensNow(t, pol, now, w, q);
    }
    forall q | q in w.args.requests && q.state == Held
      ensures StillHeld(t, w.args.owner, w.args.token, w.ns, q) <==>
              GrantableTo(t, now, w.args.owner, w.args.token, w.ns, w.policy.algorithm, q)
    {
      HeldIsGrantable(t, now, w, q);
    }
  }

  lemma HeldIsGrantable(t: Tables, now: Time, w: Entry, q: LockReq)
    requires q.state == Held
    ensures StillHeld(t, w.args.owner, w.args.token, w.ns, q) <==>
            GrantableTo(t, now, w.args.owner, w.args.token, w.ns, w.policy.algorithm, q)
  {
    hide StillHeld;
  }

  // --- what one more attempt changes for the waiter ---

  /** A hold that would be in the way of some new request of the waiter. */
  ghost predicate Relevant(pol: Policies, w: Entry, h: Hold) {
    exists x :: x in EntryWants(w) && LocksConflict(x.alg, x.path, x.mode, pol.InForce(NamespaceOf(h.key)), h.key, h.mode)
  }

  /** The waiter newly asks for something on this path that its algorithm can grant. */
  ghost predicate WantedKey(w: Entry, key: string) {
    exists q :: q in w.args.requests && q.state == New && w.policy.algorithm.AllowsMode(q.mode) && ScopedPath(w.ns, q.path) == key
  }

  /** The holds and leases that matter to the waiter changed only by what the granted ones gave up. */
  ghost predicate ShiftsHolds(t: Tables, r: Tables, pol: Policies, now: Time, w: Entry, granted: set<Entry>) {
    && (r.Alive(w.args.owner, now) <==> t.Alive(w.args.owner, now))
    && (forall h: Hold :: h.owner == w.args.owner ==> (HeldLive(r, now, h) <==> HeldLive(t, now, h)))
    && (forall h: Hold :: h.owner != w.args.owner && Relevant(pol, w, h) ==>
          (HeldLive(r, now, h) <==> HeldLive(t, now, h) && !GivenUp(now, granted, h)))
  }

  /** So did the fences and capacities that matter to it. */
  ghost predicate ShiftsMarks(t: Tables, r: Tables, now: Time, w: Entry, granted: set<Entry>) {
    && (forall k :: WantedKey(w, k) ==> SameAt(t.cap, r.cap, k))
    && (forall k :: WantedKey(w, k) && (forall g :: g in granted ==> !CarriesOver(g, k)) ==> SameAt(t.fence, r.fence, k))
    && (forall g, k :: g in granted && CarriesOver(g, k) && WantedKey(w, k) ==>
          && k in t.fence && t.fence[k] <= g.args.token && k in r.fence && r.fence[k] == g.args.token
          && !t.Writes(w.args.owner, k))
    && (forall k :: t.Alive(w.args.owner, now) && t.Writes(w.args.owner, k) ==> SameAt(t.fence, r.fence, k))
  }

  ghost predicate Sides(t: Tables, r: Tables, pol: Policies, w: Entry) { Good(t, pol) && Good(r, pol) && Lawful(w, pol) }

  lemma OwnHoldSame(t: Tables, r: Tables, pol: Policies, now: Time, w: Entry, granted: set<Entry>, h: Hold)
    requires Good(t, pol) && Good(r, pol) && ShiftsHolds(t, r, pol, now, w, granted) && t.Alive(w.args.owner, now) && h.owner == w.args.owner
    ensures HasHold(r, h) <==> HasHold(t, h)
    ensures HasLock(r, h) <==> HasLock(t, h)
    ensures h.mode == Write ==> ((h.key, h.owner) in r.sem <==> (h.key, h.owner) in t.sem)
  {
    hide IndexExact, Exclusive, OwnCovers, SemaphoreBounded, Fenced, LeasesFiled, NamespaceOf, Relevant, GivenUp;
    assert h in t.alg <==> HasHold(t, h);
    assert h in r.alg <==> HasHold(r, h);
    assert h in t.alg <==> h in r.alg;
  }

  lemma HeldShifts(t: Tables, r: Tables, pol: Policies, now: Time, w: Entry, granted: set<Entry>, q: LockReq)
    requires Sides(t, r, pol, w) && ShiftsHolds(t, r, pol, now, w, granted) && ShiftsMarks(t, r, now, w, granted) && t.Alive(w.args.owner, now)
    ensures StillHeld(r, w.args.owner, w.args.token, w.ns, q) <==> StillHeld(t, w.args.owner, w.args.token, w.ns, q)
  {
    hide Good, NoSep, ScopedPath, ShiftsHolds, WantedKey, CarriesOver, HasHold;
    OwnHoldSame(t, r, pol, now, w, granted, Wanted(w.args.owner, w.ns, q));
  }

  lemma WantOf(w: Entry, q: LockReq)
    requires q in w.args.requests && q.state == New
    ensures Want(ScopedPath(w.ns, q.path), q.mode, w.policy.algorithm) in EntryWants(w)
    ensures w.policy.algorithm.AllowsMode(q.mode) ==> WantedKey(w, ScopedPath(w.ns, q.path))
  {
    hide ScopedPath, NewPaths;
    NewIsWanted(w.ns, w.args.requests, q);
    var ps := NewPaths(w.ns, w.args.requests);
    var i :| 0 <= i < |ps| && ps[i] == (ScopedPath(w.ns, q.path), q.mode);
    assert EntryWants(w)[i] in EntryWants(w);
  }

  lemma KindOf(t: Tables, pol: Policies, h: Hold)
    requires Good(t, pol) && h in t.alg
    ensures t.alg[h] == pol.InForce(NamespaceOf(h.key))
  {
    hide Core, Exclusive, OwnCovers, SemaphoreBounded, Fenced, LeasesFiled, NamespaceOf;
  }

  lemma WayShifts(t: Tables, r: Tables, pol: Policies, now: Time, w: Entry, granted: set<Entry>, q: LockReq, h: Hold)
    requires Sides(t, r, pol, w) && ShiftsHolds(t, r, pol, now, w, granted) && q in w.args.requests && q.state == New
    ensures var key := ScopedPath(w.ns, q.path);
            InWay(r, now, w.args.owner, w.policy.algorithm, key, q.mode, h) <==>
            InWay(t, now, w.args.owner, w.policy.algorithm, key, q.mode, h) && !GivenUp(now, granted, h)
  {
    hide Good, NoSep, ScopedPath, LocksConflict, NamespaceOf, GivenUp, EntryWants, WantedKey;
    WantOf(w, q);
    if h in t.alg { KindOf(t, pol, h); }
    if h in r.alg { KindOf(r, pol, h); }
    var x := Want(ScopedPath(w.ns, q.path), q.mode, w.policy.algorithm);
    assert LocksConflict(x.alg, x.path, x.mode, pol.InForce(NamespaceOf(h.key)), h.key, h.mode) ==> Relevant(pol, w, h);
  }

  lemma GivenUpUnion(now: Time, a: set<Entry>, b: set<Entry>, h: Hold)
    ensures GivenUp(now, a + b, h) <==> GivenUp(now, a, h) || GivenUp(now, b, h)
  {
    hide GivesUp;
  }

  lemma TokenShifts(t: Tables, r: Tables, pol: Policies, now: Time, w: Entry, granted: set<Entry>, later: set<Entry>, q: LockReq)
    requires Sides(t, r, pol, w) && ShiftsHolds(t, r, pol, now, w, granted) && ShiftsMarks(t, r, now, w, granted)
    requires q in w.args.requests && q.state == New && q.mode == Write
    ensures var key := ScopedPath(w.ns, q.path); TokenBeats(r, now, w, key, later) <==> TokenBeats(t, now, w, key, granted + later)
  {
    hide Good, NoSep, ScopedPath, CarriesOver, NewPaths, HasHold;
    WantOf(w, q);
    var key := ScopedPath(w.ns, q.path);
    if t.Alive(w.args.owner, now) { OwnHoldSame(t, r, pol, now, w, granted, Hold(w.args.owner, Write, key)); }
    hide ShiftsHolds, WantedKey, EntryWants;
    assert r.Alive(w.args.owner, now) && r.Writes(w.args.owner, key) <==> t.Alive(w.args.owner, now) && t.Writes(w.args.owner, key);
    if g :| g in granted && CarriesOver(g, key) {
    }
  }

  lemma SeatsShift(t: Tables, r: Tables, pol: Policies, now: Time, w: Entry, granted: set<Entry>, later: set<Entry>, q: LockReq)
    requires Sides(t, r, pol, w) && ShiftsHolds(t, r, pol, now, w, granted) && ShiftsMarks(t, r, now, w, granted)
    requires q in w.args.requests && q.state == New && w.policy.algorithm.Semaphore? && q.mode == Write
    requires GivenByOthers(w, granted)
    ensures var key := ScopedPath(w.ns, q.path); Seats(r, now, w, key, q.permits, later) <==> Seats(t, now, w, key, q.permits, granted + later)
  {
    hide Good, NoSep, ScopedPath, GivenUp, CarriesOver;
    var key := ScopedPath(w.ns, q.path);
    WantOf(w, q);
    if t.Alive(w.args.owner, now) { OwnHoldSame(t, r, pol, now, w, granted, Hold(w.args.owner, Write, key)); }
    forall o ensures o in StillIn(r, now, key, later) <==> o in StillIn(t, now, key, granted + later) {
      HolderShifts(t, r, pol, now, w, granted, q, o);
      GivenUpUnion(now, granted, later, Hold(o, Write, key));
    }
    assert StillIn(r, now, key, later) == StillIn(t, now, key, granted + later);
  }

  ghost predicate GivenByOthers(w: Entry, granted: set<Entry>) { forall g :: g in granted ==> g.args.owner != w.args.owner }

  lemma HolderShifts(t: Tables, r: Tables, pol: Policies, now: Time, w: Entry, granted: set<Entry>, q: LockReq, o: string)
    requires Sides(t, r, pol, w) && ShiftsHolds(t, r, pol, now, w, granted) && GivenByOthers(w, granted)
    requires q in w.args.requests && q.state == New && w.policy.algorithm.Semaphore? && q.mode == Write
    ensures var key := ScopedPath(w.ns, q.path);
            o in LiveHolders(r, now, key) <==> o in LiveHolders(t, now, key) && !GivenUp(now, granted, Hold(o, Write, key))
  {
    hide Good, NoSep, ScopedPath, NamespaceOf, EntryWants, WantedKey, LocksConflict;
    var key := ScopedPath(w.ns, q.path);
    var h := Hold(o, Write, key);
    WantOf(w, q);
    SamePathConflicts(w.policy.algorithm, key);
    NamespaceOfScoped(w.ns, q.path);
    assert Relevant(pol, w, h);
    if h in t.alg { HoldKind(t, pol, w.ns, q.path, h); }
    if h in r.alg { HoldKind(r, pol, w.ns, q.path, h); }
    SemaphoreOnRecord(t, pol, key, o);
    SemaphoreOnRecord(r, pol, key, o);
  }

  lemma SamePathConflicts(alg: LockAlgorithm, key: string)
    ensures LocksConflict(alg, key, Write, alg, key, Write)
  {
  }

  lemma SemaphoreOnRecord(t: Tables, pol: Policies, key: string, o: string)
    requires Good(t, pol)
    ensures (key, o) in t.sem ==> Hold(o, Write, key) in t.alg
  {
    if (key, o) in t.sem { assert HasHold(t, Hold(o, Write, key)); }
  }

  lemma OpensShifts(t: Tables, r: Tables, pol: Policies, now: Time, w: Entry, granted: set<Entry>, later: set<Entry>, q: LockReq)
    requires Sides(t, r, pol, w) && ShiftsHolds(t, r, pol, now, w, granted) && ShiftsMarks(t, r, now, w, granted) && GivenByOthers(w, granted)
    requires q in w.args.requests && q.state == New
    ensures Opens(r, now, w, q, later) <==> Opens(t, now, w, q, granted + later)
  {
    hide Sides, ShiftsHolds, ShiftsMarks, GivenByOthers, ScopedPath, InWay, GivenUp, TokenBeats, Seats;
    var key := ScopedPath(w.ns, q.path);
    if w.policy.algorithm.Semaphore? {
      if q.mode == Write { SeatsShift(t, r, pol, now, w, granted, later, q); }
    } else {
      if q.mode == Write { TokenShifts(t, r, pol, now, w, granted, later, q); }
      forall h ensures InWay(r, now, w.args.owner, w.policy.algorithm, key, q.mode, h) <==>
                       InWay(t, now, w.args.owner, w.policy.algorithm, key, q.mode, h) && !GivenUp(now, granted, h) {
        WayShifts(t, r, pol, now, w, granted, q, h);
      }
      forall h ensures GivenUp(now, granted + later, h) <==> GivenUp(now, granted, h) || GivenUp(now, later, h) {
        GivenUpUnion(now, granted, later, h);
      }
    }
  }

  lemma ClearsShift(t: Tables, r: Tables, pol: Policies, now: Time, w: Entry, granted: set<Entry>, later: set<Entry>)
    requires Sides(t, r, pol, w) && ShiftsHolds(t, r, pol, now, w, granted) && ShiftsMarks(t, r, now, w, granted) && GivenByOthers(w, granted)
    ensures Clears(r, now, w, later) <==> Clears(t, now, w, granted + later)
  {
    hide Sides, ShiftsMarks, GivenByOthers, Opens, StillHeld, SelfConflicting, Relevant, GivenUp, HeldLive;
    forall q | q in w.args.requests && q.state == New ensures Opens(r, now, w, q, later) <==> Opens(t, now, w, q, granted + later) {
      OpensShifts(t, r, pol, now, w, granted, later, q);
    }
    if t.Alive(w.args.owner, now) {
      forall q | q in w.args.requests ensures StillHeld(r, w.args.owner, w.args.token, w.ns, q) <==> StillHeld(t, w.args.owner, w.args.token, w.ns, q) {
        HeldShifts(t, r, pol, now, w, granted, q);
      }
    }
  }

  // --- another waiter's attempt ---

  lemma ConflictBothWays(a: LockAlgorithm, p: string, m: Mode, b: LockAlgorithm, q: string, n: Mode)
    requires LocksConflict(a, p, m, b, q, n)
    ensures LocksConflict(b, q, n, a, p, m)
  {
    hide GetAncestors, DescendantPrefix, NamespaceOf;
    if IsStrictAncestor(p, q) { AncestorShape(p, q); }
    if IsStrictAncestor(q, p) { AncestorShape(q, p); }
  }

  /** A waiter that newly asks for a hold in the other's way conflicts with it. */
  lemma AskedConflicts(pol: Policies, e: Entry, w: Entry, h: Hold)
    requires Lawful(e, pol) && Relevant(pol, w, h) && AsksNew(e.ns, e.args.requests, e.args.owner, h)
    ensures AnyConflict(EntryWants(e), EntryWants(w))
  {
    hide EntryWants, LocksConflict, ScopedPath, NamespaceOf, NoSep;
    var p :| p in e.args.requests && p.state == New && h == Wanted(e.args.owner, e.ns, p);
    var x :| x in EntryWants(w) && LocksConflict(x.alg, x.path, x.mode, pol.InForce(NamespaceOf(h.key)), h.key, h.mode);
    NamespaceOfScoped(e.ns, p.path);
    WantOf(e, p);
    ConflictBothWays(x.alg, x.path, x.mode, e.policy.algorithm, h.key, h.mode);
    assert WantsConflict(Want(h.key, h.mode, e.policy.algorithm), x);
  }

  lemma NewConflicts(e: Entry, w: Entry, k: string)
    requires WantedKey(w, k) && NewAt(e.ns, e.args.requests, k)
    ensures AnyConflict(EntryWants(e), EntryWants(w))
  {
    hide EntryWants, ScopedPath, IsStrictAncestor;
    var p :| p in e.args.requests && p.state == New && p.mode == Write && ScopedPath(e.ns, p.path) == k;
    var q :| q in w.args.requests && q.state == New && w.policy.algorithm.AllowsMode(q.mode) && ScopedPath(w.ns, q.path) == k;
    WantOf(e, p);
    WantOf(w, q);
    assert WantsConflict(Want(k, p.mode, e.policy.algorithm), Want(k, q.mode, w.policy.algorithm));
  }

  ghost predicate Rivals(t: Tables, pol: Policies, e: Entry, w: Entry) {
    Good(t, pol) && Lawful(e, pol) && Lawful(w, pol) && e.args.owner != w.args.owner && !AnyConflict(EntryWants(e), EntryWants(w))
  }

  ghost function GrantedBy(t: Tables, now: Time, e: Entry): set<Entry> { if Ready(t, now, e) then {e} else {} }

  lemma GivenUpByOne(t: Tables, now: Time, e: Entry, h: Hold)
    ensures GivenUp(now, GrantedBy(t, now, e), h) <==> Ready(t, now, e) && GivesUp(now, e.ns, e.args, h)
  {
    hide GivesUp, Ready;
  }

  lemma AttemptHolds(t: Tables, pol: Policies, now: Time, e: Entry, w: Entry)
    requires Rivals(t, pol, e, w)
    ensures ShiftsHolds(t, Acquire(t, now, e.ns, e.policy.algorithm, e.args).1, pol, now, w, GrantedBy(t, now, e))
  {
    hide Good, Acquire, NoSep, HeldLive, ScopedPath, EntryWants, AnyConflict, GivenUp, Relevant, Lapses, ReleasedInline, GrantedBy;
    var r := Acquire(t, now, e.ns, e.policy.algorithm, e.args).1;
    AcquireElsewhere(t, pol, now, e.ns, e.policy.algorithm, e.args, "");
    forall h: Hold | h.owner == w.args.owner ensures HeldLive(r, now, h) <==> HeldLive(t, now, h) {
      AcquireHolds(t, pol, now, e.ns, e.policy.algorithm, e.args, h);
    }
    forall h: Hold | h.owner != w.args.owner && Relevant(pol, w, h)
      ensures HeldLive(r, now, h) <==> HeldLive(t, now, h) && !GivenUp(now, GrantedBy(t, now, e), h)
    {
      if AsksNew(e.ns, e.args.requests, e.args.owner, h) { AskedConflicts(pol, e, w, h); }
      AcquireHolds(t, pol, now, e.ns, e.policy.algorithm, e.args, h);
      GivenUpByOne(t, now, e, h);
    }
  }

  /** A granted acquire that carries a write lock over has it, under a token not below the fence. */
  lemma CarriedOver(t: Tables, pol: Policies, now: Time, e: Entry, k: string)
    requires Good(t, pol) && Lawful(e, pol) && Ready(t, now, e) && CarriesOver(e, k)
    ensures t.Writes(e.args.owner, k) && k in t.fence && t.fence[k] <= e.args.token
  {
    hide Good, Acquire, NoSep, ScopedPath, SelfConflicting, NamespaceOf;
    AcquireDecides(t, pol, now, e.ns, e.policy.algorithm, e.args);
    var q :| q in e.args.requests && q.state == Held && q.mode == Write && ScopedPath(e.ns, q.path) == k;
    assert StillHeld(t, e.args.owner, e.args.token, e.ns, q);
    HeldIsLock(t, pol, e.args.owner, e.ns, q);
  }

  lemma HeldIsLock(t: Tables, pol: Policies, owner: string, ns: string, q: LockReq)
    requires Good(t, pol) && NoSep(ns) && !pol.InForce(ns).Semaphore? && HasHold(t, Wanted(owner, ns, q))
    ensures HasLock(t, Wanted(owner, ns, q))
  {
    hide ScopedPath;
    NeverMixed(t, pol, owner, ns, q.path, q.mode);
  }

  lemma AttemptMarks(t: Tables, pol: Policies, now: Time, e: Entry, w: Entry)
    requires Rivals(t, pol, e, w)
    ensures ShiftsMarks(t, Acquire(t, now, e.ns, e.policy.algorithm, e.args).1, now, w, GrantedBy(t, now, e))
  {
    hide Good, Acquire, NoSep, EntryWants, AnyConflict, WantedKey, NewAt, Rewrites, SameAt;
    var r := Acquire(t, now, e.ns, e.policy.algorithm, e.args).1;
    forall k | WantedKey(w, k)
      ensures SameAt(t.cap, r.cap, k)
      ensures if Ready(t, now, e) && CarriesOver(e, k) then k in r.fence && r.fence[k] == e.args.token else SameAt(t.fence, r.fence, k)
      ensures Ready(t, now, e) && CarriesOver(e, k) ==> k in t.fence && t.fence[k] <= e.args.token && !t.Writes(w.args.owner, k)
    {
      if NewAt(e.ns, e.args.requests, k) { NewConflicts(e, w, k); }
      AcquireElsewhere(t, pol, now, e.ns, e.policy.algorithm, e.args, k);
      if Ready(t, now, e) && CarriesOver(e, k) { CarriedOver(t, pol, now, e, k); }
    }
    forall k | t.Alive(w.args.owner, now) && t.Writes(w.args.owner, k) ensures SameAt(t.fence, r.fence, k) {
      ForeignFence(t, pol, now, e.ns, e.policy.algorithm, e.args, w.args.owner, k);
    }
  }

  lemma AttemptClears(t: Tables, pol: Policies, now: Time, e: Entry, w: Entry, later: set<Entry>)
    requires Rivals(t, pol, e, w)
    ensures Clears(Acquire(t, now, e.ns, e.policy.algorithm, e.args).1, now, w, later) <==> Clears(t, now, w, GrantedBy(t, now, e) + later)
  {
    hide Good, Acquire, NoSep, EntryWants, AnyConflict, ShiftsHolds, ShiftsMarks, Clears, Onward;
    AcquireGood(t, pol, now, e.ns, e.policy.algorithm, e.args);
    AttemptHolds(t, pol, now, e, w);
    AttemptMarks(t, pol, now, e, w);
    ClearsShift(t, Acquire(t, now, e.ns, e.policy.algorithm, e.args).1, pol, now, w, GrantedBy(t, now, e), later);
  }

  // --- the waiter's own refused attempt ---

  lemma LapsedShifts(t: Tables, r: Tables, pol: Policies, now: Time, w: Entry)
    requires OnlyLapsedRemoved(t, r, now) && forall o :: r.Alive(o, now) ==> t.Alive(o, now)
    ensures ShiftsHolds(t, r, pol, now, w, {}) && ShiftsMarks(t, r, now, w, {})
  {
    hide Relevant, WantedKey, CarriesOver;
  }

  lemma RefusedClears(t: Tables, pol: Policies, now: Time, w: Entry, later: set<Entry>)
    requires Good(t, pol) && Lawful(w, pol) && !Ready(t, now, w)
    ensures Clears(Acquire(t, now, w.ns, w.policy.algorithm, w.args).1, now, w, later) <==> Clears(t, now, w, later)
  {
    hide Good, Acquire, NoSep, ShiftsHolds, ShiftsMarks, Onward, SelfConflicting, OnlyLapsedRemoved, AllGranted, Executed, FinishAcquire, Opens, StillHeld;
    var r := Acquire(t, now, w.ns, w.policy.algorithm, w.args).1;
    if !SelfConflicting(w.ns, w.policy.algorithm, w.args.requests) {
      AcquireGood(t, pol, now, w.ns, w.policy.algorithm, w.args);
      AcquireAllOrNothing(t, pol, now, w.ns, w.policy.algorithm, w.args);
      ExecutedIs(t, pol, now, w.ns, w.policy.algorithm, w.args);
      ExecutedSteady(t, pol, now, w.ns, w.policy.algorithm, w.args);
      LapsedShifts(t, r, pol, now, w);
      ClearsShift(t, r, pol, now, w, {}, later);
      assert {} + later == later;
    }
  }

  // --- the sweep ---

  /** Whatever conflicts with the waiter's own wants conflicts with what is reserved. */
  ghost predicate Reserves(w: Entry, reserved: seq<Want>) { forall x :: x in EntryWants(w) ==> x in reserved }

  lemma ReservesAll(w: Entry, reserved: seq<Want>, e: Entry)
    requires Reserves(w, reserved) && AnyConflict(EntryWants(e), EntryWants(w))
    ensures AnyConflict(EntryWants(e), reserved)
  {
    hide EntryWants, WantsConflict;
  }

  lemma TryClears(t: Tables, pol: Policies, now: Time, e: Entry, reserved: seq<Want>, w: Entry, later: set<Entry>)
    requires Good(t, pol) && Lawful(e, pol) && Lawful(w, pol) && e.args.owner != w.args.owner && Reserves(w, reserved)
    ensures var (v, r) := TryWaiter(t, now, e, reserved);
            Clears(r, now, w, later) <==> Clears(t, now, w, (if v.Grant? then {e} else {}) + later)
  {
    hide Good, Acquire, NoSep, EntryWants, AnyConflict, Clears, Reserves;
    if AnyConflict(EntryWants(e), reserved) {
      assert {} + later == later;
    } else {
      if AnyConflict(EntryWants(e), EntryWants(w)) { ReservesAll(w, reserved, e); }
      AttemptClears(t, pol, now, e, w, later);
    }
  }

  /** Through the rest of a sweep, with the waiter's wants reserved. */
  lemma {:induction false} RestClears(t: Tables, q: Queue, now: Time, pol: Policies, es: seq<Entry>, reserved: seq<Want>, w: Entry)
    requires Good(t, pol) && InForceAll(es, pol) && Lawful(w, pol) && Reserves(w, reserved) && forall e :: e in es ==> e.args.owner != w.args.owner
    ensures var r := RunSweep(t, q, now, es, reserved); Ready(r.t, now, w) <==> Clears(t, now, w, set g | g in r.granted)
    decreases |es|
  {
    hide Good, Ready, Clears, TryWaiter, NextQueue, NextReserved, Lawful, RunSweep, Onward, AnyConflict, EntryWants, Reserves;
    if es == [] {
      EmptySweep(t, q, now, reserved);
      ClearsNow(t, pol, now, w);
      assert (set g: Entry | g in []) == {};
    } else {
      var e, rest := es[0], es[1..];
      assert e in es && forall x :: x in rest ==> x in es;
      SweepStep(t, q, now, es, reserved);
      var (v, t1) := TryWaiter(t, now, e, reserved);
      var q1, res1 := NextQueue(q, now, e, v), NextReserved(reserved, e, v);
      TryGood(t, pol, now, e, reserved);
      ReservesMore(w, reserved, e, v);
      RestClears(t1, q1, now, pol, rest, res1, w);
      var r1, r := RunSweep(t1, q1, now, rest, res1), RunSweep(t, q, now, es, reserved);
      TryClears(t, pol, now, e, reserved, w, set g | g in r1.granted);
      assert (set g | g in r.granted) == (if v.Grant? then {e} else {}) + (set g | g in r1.granted);
    }
  }

  lemma ReservesMore(w: Entry, reserved: seq<Want>, e: Entry, v: Verdict)
    requires Reserves(w, reserved)
    ensures Reserves(w, NextReserved(reserved, e, v))
  {
    hide EntryWants;
  }

  // --- a waiter left queued ---

  ghost predicate AllWaiting(q: Queue, now: Time, es: seq<Entry>) { forall e :: e in es ==> Waiting(q, now, e) }

  /** An earlier waiter that stays queued conflicts with this one. */
  ghost predicate BehindEarlier(q: Queue, now: Time, w: Entry) {
    exists v :: Waiting(q, now, v) && v.seqno < w.seqno && AnyConflict(EntryWants(w), EntryWants(v))
  }

  lemma NextWaiting(q: Queue, now: Time, pol: Policies, es: seq<Entry>, v: Verdict)
    requires QueueGood(q, now, pol) && es != [] && AllWaiting(q, now, es) && OwnEntries(es)
    ensures AllWaiting(NextQueue(q, now, es[0], v), now, es[1..]) && OwnEntries(es[1..])
  {
    hide QueueGood, Waiting, Dequeue;
    OthersApart(es);
    forall e | e in es[1..] ensures Waiting(NextQueue(q, now, es[0], v), now, e) && e.args.owner == e.owner {
      assert e in es;
      DequeueLocal(q, now, pol, es[0].owner, e);
    }
  }

  /** The waiters granted after this one's turn. */
  ghost function After(granted: seq<Entry>, w: Entry): set<Entry> { set g | g in granted && w.seqno < g.seqno }

  ghost predicate Sweepable(t: Tables, q: Queue, now: Time, pol: Policies, es: seq<Entry>) {
    Good(t, pol) && QueueGood(q, now, pol) && InForceAll(es, pol) && InOrder(es) && OwnEntries(es) && AllWaiting(q, now, es)
  }

  lemma FirstLeft(t: Tables, q: Queue, now: Time, pol: Policies, es: seq<Entry>, reserved: seq<Want>)
    requires Sweepable(t, q, now, pol, es) && es != [] && Waiting(RunSweep(t, q, now, es, reserved).q, now, es[0])
    requires !AnyConflict(EntryWants(es[0]), reserved)
    ensures var (w, r) := (es[0], RunSweep(t, q, now, es, reserved));
            !Ready(t, now, w) && (Ready(r.t, now, w) <==> Clears(t, now, w, After(r.granted, w)))
  {
    hide Good, QueueGood, Acquire, Clears, RunSweep, AnyConflict, EntryWants, NoSep, Dequeue, Onward;
    var w, rest := es[0], es[1..];
    assert w in es && forall x :: x in rest ==> x in es;
    SweepStep(t, q, now, es, reserved);
    var (v, t1) := TryWaiter(t, now, w, reserved);
    var q1, res1 := NextQueue(q, now, w, v), NextReserved(reserved, w, v);
    TryGood(t, pol, now, w, reserved);
    NextGood(q, now, pol, w, v);
    SweepGood(t1, q1, now, pol, rest, res1);
    assert !v.Leaves();
    OthersApart(es);
    var r := RunSweep(t1, q1, now, rest, res1);
    RestClears(t1, q1, now, pol, rest, res1, w);
    RefusedClears(t, pol, now, w, set g | g in r.granted);
    forall g | g in r.granted ensures w.seqno < g.seqno {
      GrantsRespectReserved(t1, q1, now, pol, rest, res1, g);
      RestIsLater(es, g);
    }
    assert (set g | g in r.granted) == After(r.granted, w);
    assert [] + r.granted == r.granted;
  }

  lemma RestIsLater(es: seq<Entry>, g: Entry)
    requires InOrder(es) && es != [] && g in es[1..]
    ensures es[0].seqno < g.seqno
  {
    var i :| 0 <= i < |es[1..]| && es[1..][i] == g;
    assert es[0].seqno < es[i + 1].seqno;
  }

  lemma ReservedOnly(x: seq<Want>, reserved: seq<Want>, e: Entry, v: Verdict)
    ensures AnyConflict(x, NextReserved(reserved, e, v)) ==>
              AnyConflict(x, reserved) || (!v.Leaves() && AnyConflict(x, EntryWants(e)))
  {
    hide AnyConflict, EntryWants;
    ConflictInTail(x, reserved, EntryWants(e));
  }

  lemma EarlierStays(t: Tables, q: Queue, now: Time, pol: Policies, es: seq<Entry>, reserved: seq<Want>, v: Verdict, i: nat)
    requires QueueGood(q, now, pol) && 0 < i < |es| && InOrder(es) && OwnEntries(es) && Waiting(q, now, es[0]) && !v.Leaves()
    requires AnyConflict(EntryWants(es[i]), EntryWants(es[0]))
    ensures BehindEarlier(RunSweep(t, NextQueue(q, now, es[0], v), now, es[1..], reserved).q, now, es[i])
  {
    hide QueueGood, RunSweep, Waiting, AnyConflict, EntryWants;
    OthersApart(es);
    forall e | e in es[1..] ensures e.owner != es[0].owner { assert e in es; }
    SweepLocal(t, q, now, pol, es[1..], reserved, es[0]);
    assert es[0].seqno < es[i].seqno;
  }

  /**
   A waiter the sweep leaves queued, behind nobody it conflicts with, was refused at
   its turn, and could be granted in the end exactly when the waiters granted after
   it cleared its way. Its turn comes after the waiters before it on the list.
   */
  lemma {:induction false} SweepExact(t: Tables, q: Queue, now: Time, pol: Policies, es: seq<Entry>, reserved: seq<Want>, i: nat)
    requires Sweepable(t, q, now, pol, es) && i < |es|
    requires var r := RunSweep(t, q, now, es, reserved); Waiting(r.q, now, es[i]) && !BehindEarlier(r.q, now, es[i])
    requires !AnyConflict(EntryWants(es[i]), reserved)
    ensures var (w, r) := (es[i], RunSweep(t, q, now, es, reserved));
            var turn := RunSweep(t, q, now, es[..i], reserved).t;
            Good(turn, pol) && !Ready(turn, now, w) && (Ready(r.t, now, w) <==> Clears(turn, now, w, After(r.granted, w)))
    decreases i
  {
    hide Good, QueueGood, Ready, Clears, RunSweep, AnyConflict, EntryWants, NextReserved, NextQueue, TryWaiter, Lawful, Onward, Waiting;
    if i == 0 {
      EmptySweep(t, q, now, reserved);
      assert es[..0] == [];
      FirstLeft(t, q, now, pol, es, reserved);
    } else {
      var e, rest, w := es[0], es[1..], es[i];
      assert e in es && forall x :: x in rest ==> x in es;
      SweepStep(t, q, now, es, reserved);
      SweepStep(t, q, now, es[..i], reserved);
      var (v, t1) := TryWaiter(t, now, e, reserved);
      var q1, res1 := NextQueue(q, now, e, v), NextReserved(reserved, e, v);
      assert es[..i][1..] == rest[..i - 1] && rest[i - 1] == w;
      TryGood(t, pol, now, e, reserved);
      NextGood(q, now, pol, e, v);
      NextWaiting(q, now, pol, es, v);
      ReservedOnly(EntryWants(w), reserved, e, v);
      var r := RunSweep(t1, q1, now, rest, res1);
      if !v.Leaves() && AnyConflict(EntryWants(w), EntryWants(e)) {
        EarlierStays(t1, q, now, pol, es, res1, v, i);
        assert false;
      }
      SweepExact(t1, q1, now, pol, rest, res1, i - 1);
      assert After(r.granted, w) == After((if v.Grant? then [e] else []) + r.granted, w);
    }
  }

  // --- the full sweep ---

  lemma NothingReserved(x: seq<Want>)
    ensures !AnyConflict(x, [])
  {
  }

  lemma ScanSweepable(t: Tables, q: Queue, now: Time, pol: Policies)
    requires Good(t, pol) && QueueGood(q, now, pol)
    ensures Sweepable(t, q, now, pol, Scan(q, now)) && forall e :: e in Scan(q, now) <==> Waiting(q, now, e)
  {
    hide Good, QueueGood, Scan, Waiting, Lawful;
    ScanWaits(q, now, pol);
    ScanInForce(q, now, pol);
    ScanOwnEntries(q, now, pol);
  }

  /**
   The full sweep: of the waiters it leaves queued behind nobody they conflict with,
   exactly those could be granted in the end whose way the grants after their turn
   cleared.
   */
  lemma FullSweepExact(t: Tables, q: Queue, now: Time, pol: Policies, i: nat)
    requires Good(t, pol) && QueueGood(q, now, pol) && i < |Scan(q, now)|
    requires var r := GrantSweep(t, q, now); Waiting(r.q, now, Scan(q, now)[i]) && !BehindEarlier(r.q, now, Scan(q, now)[i])
    ensures var (w, r) := (Scan(q, now)[i], GrantSweep(t, q, now));
            var turn := RunSweep(t, q, now, Scan(q, now)[..i], []).t;
            !Ready(turn, now, w) && (Ready(r.t, now, w) <==> Clears(turn, now, w, After(r.granted, w)))
  {
    hide Good, QueueGood, RunSweep, Scan, Waiting, Ready, Clears, Sweepable, AnyConflict, EntryWants;
    ScanSweepable(t, q, now, pol);
    NothingReserved(EntryWants(Scan(q, now)[i]));
    SweepExact(t, q, now, pol, Scan(q, now), [], i);
  }

  // --- what a caller can check before ---

  /** The grant of this waiter could free something the other one wants. */
  ghost predicate Frees(now: Time, g: Entry, w: Entry) { Lapses(now, g.args.ttl) || MeetsFreed(w, FreedPaths(g.ns, g.args.releases)) }

  lemma FreesWhat(now: Time, g: Entry, w: Entry, x: Want, h: Hold)
    requires GivesUp(now, g.ns, g.args, h) && x in EntryWants(w) && Touches(x.path, h.key)
    ensures Frees(now, g, w)
  {
    hide ScopedPath, EntryWants, Touches, Lapses, FreedPaths;
    FreedPathsAre(g.ns, g.args.releases);
    if ReleasedInline(g.ns, g.args.releases, h) {
      var q :| q in g.args.releases && q.mode == h.mode && ScopedPath(g.ns, q.path) == h.key;
      assert h.key in FreedPaths(g.ns, g.args.releases);
    }
  }

  lemma WayFreed(t: Tables, now: Time, w: Entry, q: LockReq, later: set<Entry>, h: Hold)
    requires q in w.args.requests && q.state == New && GivenUp(now, later, h)
    requires InWay(t, now, w.args.owner, w.policy.algorithm, ScopedPath(w.ns, q.path), q.mode, h)
    ensures exists g :: g in later && Frees(now, g, w)
  {
    hide ScopedPath, EntryWants, GivesUp, LocksConflict, Frees;
    var g :| g in later && GivesUp(now, g.ns, g.args, h);
    WantOf(w, q);
    ConflictTouches(w.policy.algorithm, ScopedPath(w.ns, q.path), q.mode, t.alg[h], h.key, h.mode);
    FreesWhat(now, g, w, Want(ScopedPath(w.ns, q.path), q.mode, w.policy.algorithm), h);
  }

  lemma SeatFreed(now: Time, w: Entry, q: LockReq, later: set<Entry>, o: string)
    requires q in w.args.requests && q.state == New && GivenUp(now, later, Hold(o, Write, ScopedPath(w.ns, q.path)))
    ensures exists g :: g in later && Frees(now, g, w)
  {
    hide ScopedPath, EntryWants, GivesUp, Frees;
    var h := Hold(o, Write, ScopedPath(w.ns, q.path));
    var g :| g in later && GivesUp(now, g.ns, g.args, h);
    WantOf(w, q);
    FreesWhat(now, g, w, Want(h.key, q.mode, w.policy.algorithm), h);
  }

  lemma OpensUnfreed(t: Tables, now: Time, w: Entry, q: LockReq, later: set<Entry>)
    requires q in w.args.requests && q.state == New && Opens(t, now, w, q, later) && forall g :: g in later ==> !Frees(now, g, w)
    ensures Opens(t, now, w, q, {})
  {
    hide ScopedPath, InWay, GivenUp, Frees, CarriesOver, StaleFence, PermitsFit;
    var key := ScopedPath(w.ns, q.path);
    if w.policy.algorithm.Semaphore? {
      forall o ensures !GivenUp(now, later, Hold(o, Write, key)) && !GivenUp(now, {}, Hold(o, Write, key)) {
        if GivenUp(now, later, Hold(o, Write, key)) { SeatFreed(now, w, q, later, o); }
        if GivenUp(now, {}, Hold(o, Write, key)) { SeatFreed(now, w, q, {}, o); }
      }
      assert StillIn(t, now, key, later) == StillIn(t, now, key, {});
    } else {
      forall h ensures !InWay(t, now, w.args.owner, w.policy.algorithm, key, q.mode, h) {
        if InWay(t, now, w.args.owner, w.policy.algorithm, key, q.mode, h) { WayFreed(t, now, w, q, later, h); }
      }
    }
  }

  lemma ClearsUnfreed(t: Tables, now: Time, w: Entry, later: set<Entry>)
    requires Clears(t, now, w, later) && forall g :: g in later ==> !Frees(now, g, w)
    ensures Clears(t, now, w, {})
  {
    hide Opens, StillHeld, SelfConflicting, Frees;
    forall q | q in w.args.requests && q.state == New ensures Opens(t, now, w, q, {}) { OpensUnfreed(t, now, w, q, later); }
  }

  lemma LeftUnready(t: Tables, q: Queue, now: Time, pol: Policies, es: seq<Entry>, w: Entry)
    requires Sweepable(t, q, now, pol, es) && w in es && Waiting(RunSweep(t, q, now, es, []).q, now, w)
    ensures var r := RunSweep(t, q, now, es, []);
            BehindEarlier(r.q, now, w) || !Ready(r.t, now, w) || exists g :: g in After(r.granted, w) && g in es && Frees(now, g, w)
  {
    hide Good, QueueGood, RunSweep, Waiting, Ready, Clears, AnyConflict, EntryWants, Frees, BehindEarlier, Lawful;
    var r := RunSweep(t, q, now, es, []);
    var i :| 0 <= i < |es| && es[i] == w;
    NothingReserved(EntryWants(w));
    if !BehindEarlier(r.q, now, w) && Ready(r.t, now, w) {
      SweepExact(t, q, now, pol, es, [], i);
      var turn := RunSweep(t, q, now, es[..i], []).t;
      assert w in es;
      ClearsNow(turn, pol, now, w);
      if forall g :: g in After(r.granted, w) ==> !Frees(now, g, w) { ClearsUnfreed(turn, now, w, After(r.granted, w)); }
      var g :| g in After(r.granted, w) && Frees(now, g, w);
      GrantsRespectReserved(t, q, now, pol, es, [], g);
    }
  }

  /** A waiter the full sweep leaves is behind an earlier one, still refused, or met by what a later waiter's grant freed. */
  lemma FullSweepProgress(t: Tables, q: Queue, now: Time, pol: Policies, w: Entry)
    requires Good(t, pol) && QueueGood(q, now, pol) && Waiting(GrantSweep(t, q, now).q, now, w)
    ensures var r := GrantSweep(t, q, now);
            || BehindEarlier(r.q, now, w)
            || !Ready(r.t, now, w)
            || exists g :: g in After(r.granted, w) && Waiting(q, now, g) && Frees(now, g, w)
  {
    hide Good, QueueGood, RunSweep, Scan, Ready, AnyConflict, EntryWants, Frees, Sweepable, Onward;
    ScanSweepable(t, q, now, pol);
    ScanInForce(q, now, pol);
    SweepGood(t, q, now, pol, Scan(q, now), []);
    LeftUnready(t, q, now, pol, Scan(q, now), w);
  }

  /** So if no later waiter's grant could free anything a waiter wants, the full sweep never leaves that one queued for nothing. */
  lemma FullSweepSettles(t: Tables, q: Queue, now: Time, pol: Policies, w: Entry)
    requires Good(t, pol) && QueueGood(q, now, pol) && forall g :: Waiting(q, now, g) && w.seqno < g.seqno ==> !Frees(now, g, w)
    ensures var r := GrantSweep(t, q, now); Waiting(r.q, now, w) ==> BehindEarlier(r.q, now, w) || !Ready(r.t, now, w)
  {
    hide Good, QueueGood, RunSweep, Scan, Ready, Frees, BehindEarlier, Waiting;
    if Waiting(GrantSweep(t, q, now).q, now, w) { FullSweepProgress(t, q, now, pol, w); }
  }

  // --- the targeted sweep ---

  lemma CandidatesSweepable(t: Tables, q: Queue, now: Time, pol: Policies, freed: seq<string>)
    requires Good(t, pol) && QueueGood(q, now, pol)
    ensures var es := LiveOf(q, now, SortedNats(CandidateSeqs(q, now, freed)));
            Sweepable(t, q, now, pol, es) && forall e :: e in es <==> Waiting(q, now, e) && MeetsFreed(e, freed)
  {
    hide Good, QueueGood, CandidateSeqs, LiveOf, Waiting, Lawful, MeetsFreed;
    CandidatesAre(q, now, pol, freed);
    CandidatesInForce(q, now, pol, freed);
    CandidatesOwn(q, now, pol, freed);
  }

  /** The same exact condition for the targeted sweep, of the waiters it considers. */
  lemma TargetedSweepExact(t: Tables, q: Queue, now: Time, pol: Policies, freed: seq<string>, i: nat)
    requires Good(t, pol) && QueueGood(q, now, pol) && i < |LiveOf(q, now, SortedNats(CandidateSeqs(q, now, freed)))|
    requires var (w, r) := (LiveOf(q, now, SortedNats(CandidateSeqs(q, now, freed)))[i], GrantSweepForPaths(t, q, now, freed));
             Waiting(r.q, now, w) && !BehindEarlier(r.q, now, w)
    ensures var es := LiveOf(q, now, SortedNats(CandidateSeqs(q, now, freed)));
            var (w, r, turn) := (es[i], GrantSweepForPaths(t, q, now, freed), RunSweep(t, q, now, es[..i], []).t);
            !Ready(turn, now, w) && (Ready(r.t, now, w) <==> Clears(turn, now, w, After(r.granted, w)))
  {
    hide Good, QueueGood, RunSweep, CandidateSeqs, LiveOf, Waiting, Ready, Clears, Sweepable, AnyConflict, EntryWants, MeetsFreed;
    var es := LiveOf(q, now, SortedNats(CandidateSeqs(q, now, freed)));
    CandidatesSweepable(t, q, now, pol, freed);
    NothingReserved(EntryWants(es[i]));
    SweepExact(t, q, now, pol, es, [], i);
  }

  lemma Unspared(now: Time, g: Entry, w: Entry)
    requires !Frees(now, g, w)
    ensures !Lapses(now, g.args.ttl) && Spared(w, Given(g.ns, g.args.releases))
  {
    hide Lapses, MeetsFreed, FreedPaths, Spared, Given;
    SparedIff(w, g);
  }

  /**
   A sweep of the freed paths, of tables in which no waiter off its list could be
   granted: a waiter left queued is behind an earlier one, still refused, or met by
   what a grant of the sweep freed.
   */
  lemma FreedSweepSuffices(t: Tables, q: Queue, now: Time, pol: Policies, freed: seq<string>, w: Entry)
    requires Good(t, pol) && QueueGood(q, now, pol) && Waiting(q, now, w) && (MeetsFreed(w, freed) || !Ready(t, now, w))
    requires Waiting(GrantSweepForPaths(t, q, now, freed).q, now, w)
    ensures var r := GrantSweepForPaths(t, q, now, freed);
            BehindEarlier(r.q, now, w) || !Ready(r.t, now, w) || exists g :: g in r.granted && Frees(now, g, w)
  {
    hide Good, QueueGood, Ready, RunSweep, LiveOf, CandidateSeqs, AnyConflict, EntryWants, MeetsFreed, Lawful, Waiting, Frees, Onward, BehindEarlier;
    var es := LiveOf(q, now, SortedNats(CandidateSeqs(q, now, freed)));
    var r := GrantSweepForPaths(t, q, now, freed);
    CandidatesSweepable(t, q, now, pol, freed);
    if w in es {
      LeftUnready(t, q, now, pol, es, w);
    } else if forall g :: g in r.granted ==> !Frees(now, g, w) {
      forall e | e in es ensures e.args.owner != w.args.owner { DistinctOwners(q, now, pol, e, w); }
      WaiterOwns(q, now, pol, w);
      forall g | g in r.granted ensures !Lapses(now, g.args.ttl) && Spared(w, Given(g.ns, g.args.releases)) { Unspared(now, g, w); }
      SweepStaysUnready(t, q, now, pol, es, [], w);
    }
  }

  /**
   After a release, the sweep of the freed paths is as good as a full one: a waiter
   that was refused before it and is left queued, looked at or not, is behind an
   earlier one, still refused, or met by what a grant of the sweep freed.
   */
  lemma TargetedSweepSuffices(
    t: Tables, q: Queue, now: Time, pol: Policies, ns: string, owner: string, rels: seq<RelReq>, w: Entry)
    requires Good(t, pol) && QueueGood(q, now, pol) && Waiting(q, now, w) && !Ready(t, now, w)
    requires Waiting(GrantSweepForPaths(Release(t, ns, owner, rels), q, now, FreedPaths(ns, rels)).q, now, w)
    ensures var r := GrantSweepForPaths(Release(t, ns, owner, rels), q, now, FreedPaths(ns, rels));
            BehindEarlier(r.q, now, w) || !Ready(r.t, now, w) || exists g :: g in r.granted && Frees(now, g, w)
  {
    hide Good, QueueGood, Ready, GrantSweepForPaths, MeetsFreed, FreedPaths, Release, Waiting, Frees, Onward, BehindEarlier;
    ReleaseGood(t, pol, ns, owner, rels);
    if !MeetsFreed(w, FreedPaths(ns, rels)) { UntouchedUnready(t, q, now, pol, ns, owner, rels, w); }
    FreedSweepSuffices(Release(t, ns, owner, rels), q, now, pol, FreedPaths(ns, rels), w);
  }
}

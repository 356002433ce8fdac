/**
 What was refused stays refused: other owners' acquires, releases and whole sweeps
 never make a waiter grantable unless they free something that meets its paths.
 */
module Progress {
  import opened Ordering
  import opened Paths
  import opened Expiry
  import opened LockSpec
  import opened LockInvariant
  import opened ApplyProof
  import opened EngineProof
  import opened Decision
  import opened AllOrNothing
  import opened AcquireDecision
  import opened AcquireFrame
  import opened QueueSpec
  import opened QueueProof
  import opened SweepProof
  import opened MachineSpec
  import opened Fairness
  import opened Delivery

  // --- tables that only got tighter for an owner ---

  /** The owner gained nothing, and every live hold of another owner is still there, except on freed paths. */
  ghost predicate Tighter(t: Tables, r: Tables, now: Time, owner: string, freed: set<string>) {
    && Onward(t, r)
    && (r.Alive(owner, now) ==> t.Alive(owner, now))
    && (forall h: Hold :: h.owner == owner && h in r.alg ==> SameHold(t, r, h))
    && (forall h: Hold :: h in t.alg && h.owner != owner && t.Alive(h.owner, now) && h.key !in freed ==>
          SameHold(t, r, h) && r.Alive(h.owner, now))
  }

  lemma TighterRefl(t: Tables, now: Time, owner: string)
    ensures Tighter(t, t, now, owner, {})
  {
  }

  // --- what was refused stays refused ---

  /** None of the freed paths is the given path, above it or below it. */
  ghost predicate Untouched(key: string, freed: set<string>) { forall f :: f in freed ==> !Touches(key, f) }

  lemma ConflictTouches(a: LockAlgorithm, p: string, m: Mode, b: LockAlgorithm, q: string, n: Mode)
    requires LocksConflict(a, p, m, b, q, n)
    ensures Touches(p, q)
  {
    hide GetAncestors, DescendantPrefix;
    if p != q && !IsStrictAncestor(p, q) { AncestorShape(q, p); }
  }

  ghost predicate Cores(t: Tables, r: Tables) { Core(t) && Core(r) && Fenced(t) }

  lemma GoodCores(t: Tables, r: Tables, pol: Policies)
    requires Good(t, pol) && Good(r, pol)
    ensures Cores(t, r)
  {
  }

  lemma ContendedStays(
    t: Tables, r: Tables, now: Time, owner: string, freed: set<string>, alg: LockAlgorithm, key: string, mode: Mode)
    requires Cores(t, r) && Tighter(t, r, now, owner, freed) && Untouched(key, freed)
    requires Contended(t, now, owner, alg, key, mode)
    ensures Contended(r, now, owner, alg, key, mode)
  {
    hide GetAncestors, Touches, LocksConflict, IndexExact, Onward;
    var h :| HasLock(t, h) && h.owner != owner && t.Alive(h.owner, now)
             && LocksConflict(alg, key, mode, t.HoldAlgorithm(h), h.key, h.mode);
    ConflictTouches(alg, key, mode, t.HoldAlgorithm(h), h.key, h.mode);
    assert HasHold(t, h);
    SameLock(t, r, h);
  }

  lemma AncestorStays(t: Tables, r: Tables, now: Time, owner: string, freed: set<string>, key: string)
    requires Cores(t, r) && Tighter(t, r, now, owner, freed) && Untouched(key, freed)
    requires AncestorBlocks(t, now, owner, GetAncestors(key))
    ensures AncestorBlocks(r, now, owner, GetAncestors(key))
  {
    hide DescendantPrefix, IndexExact, Onward;
    var a :| a in GetAncestors(key) && RecursiveWriter(t, a) && LiveWriter(t, now, owner, a);
    AncestorShape(a, key);
    var h := Hold(t.wr[a], Write, a);
    assert HasHold(t, h) && Touches(key, a);
    SameLock(t, r, h);
  }

  lemma FullStays(t: Tables, r: Tables, now: Time, owner: string, freed: set<string>, key: string, permits: nat)
    requires Cores(t, r) && Tighter(t, r, now, owner, freed) && Untouched(key, freed)
    requires FullTo(t, now, owner, key, permits)
    ensures FullTo(r, now, owner, key, permits)
  {
    hide IsStrictAncestor, DescendantPrefix, IndexExact, Onward;
    assert key in freed ==> Touches(key, key);
    forall o | o in LiveHolders(t, now, key) ensures o in LiveHolders(r, now, key) {
      assert HasHold(t, Hold(o, Write, key));
      SameLock(t, r, Hold(o, Write, key));
    }
    SubsetSize(LiveHolders(t, now, key), LiveHolders(r, now, key));
    if (key, owner) in r.sem {
      assert HasHold(r, Hold(owner, Write, key));
      SameLock(t, r, Hold(owner, Write, key));
    }
  }

  lemma StaleStays(t: Tables, r: Tables, now: Time, owner: string, freed: set<string>, key: string, token: int)
    requires Cores(t, r) && Tighter(t, r, now, owner, freed)
    requires StaleFence(t, key, token, t.Alive(owner, now) && t.Writes(owner, key))
    ensures StaleFence(r, key, token, r.Alive(owner, now) && r.Writes(owner, key))
  {
    hide IndexExact;
    if r.Writes(owner, key) {
      var h := Hold(owner, Write, key);
      assert HasHold(r, h);
      SameLock(t, r, h);
    }
  }

  lemma HeldStays(t: Tables, r: Tables, now: Time, owner: string, freed: set<string>, token: int, ns: string, q: LockReq)
    requires Cores(t, r) && Tighter(t, r, now, owner, freed) && StillHeld(r, owner, token, ns, q)
    ensures StillHeld(t, owner, token, ns, q)
  {
    hide IndexExact, ScopedPath;
    var h := Wanted(owner, ns, q);
    assert HasHold(r, h);
    SameLock(t, r, h);
  }

  lemma GrantableStays(
    t: Tables, r: Tables, now: Time, owner: string, freed: set<string>, token: int, ns: string, alg: LockAlgorithm, q: LockReq)
    requires Cores(t, r) && Tighter(t, r, now, owner, freed)
    requires q.state == New ==> Untouched(ScopedPath(ns, q.path), freed)
    requires GrantableTo(r, now, owner, token, ns, alg, q)
    ensures GrantableTo(t, now, owner, token, ns, alg, q)
  {
    hide Cores, Untouched, ScopedPath, StillHeld, Contended, AncestorBlocks, FullTo, StaleFence, GetAncestors;
    var key := ScopedPath(ns, q.path);
    if q.state == Held {
      HeldStays(t, r, now, owner, freed, token, ns, q);
    } else {
      if Contended(t, now, owner, alg, key, q.mode) { ContendedStays(t, r, now, owner, freed, alg, key, q.mode); }
      if AncestorBlocks(t, now, owner, GetAncestors(key)) { AncestorStays(t, r, now, owner, freed, key); }
      if FullTo(t, now, owner, key, q.permits) { FullStays(t, r, now, owner, freed, key, q.permits); }
      if StaleFence(t, key, token, t.Alive(owner, now) && t.Writes(owner, key)) { StaleStays(t, r, now, owner, freed, key, token); }
    }
  }

  /** The acquire of this waiter would be granted. */
  predicate Ready(t: Tables, now: Time, w: Entry) { Acquire(t, now, w.ns, w.policy.algorithm, w.args).0.Ok? }

  ghost predicate Spared(w: Entry, freed: set<string>) { forall x :: x in EntryWants(w) ==> Untouched(x.path, freed) }

  lemma {:induction false} NewIsWanted(ns: string, reqs: seq<LockReq>, q: LockReq)
    requires q in reqs && q.state == New
    ensures (ScopedPath(ns, q.path), q.mode) in NewPaths(ns, reqs)
  {
    hide ScopedPath;
    if q != reqs[0] { NewIsWanted(ns, reqs[1..], q); }
  }

  lemma WantSpared(w: Entry, freed: set<string>, q: LockReq)
    requires Spared(w, freed) && q in w.args.requests && q.state == New
    ensures Untouched(ScopedPath(w.ns, q.path), freed)
  {
    hide ScopedPath, NewPaths, Untouched;
    NewIsWanted(w.ns, w.args.requests, q);
    var ps := NewPaths(w.ns, w.args.requests);
    var i :| 0 <= i < |ps| && ps[i] == (ScopedPath(w.ns, q.path), q.mode);
    assert EntryWants(w)[i] in EntryWants(w);
  }

  /** Tighter tables never make a refused waiter ready, as long as what was freed spares its paths. */
  lemma NeverReady(t: Tables, r: Tables, pol: Policies, now: Time, freed: set<string>, w: Entry)
    requires Good(t, pol) && Good(r, pol) && Lawful(w, pol) && Tighter(t, r, now, w.args.owner, freed) && Spared(w, freed)
    requires Ready(r, now, w)
    ensures Ready(t, now, w)
  {
    hide Good, Acquire, GrantableTo, Onward, SelfConflicting, ScopedPath, Spared, NoSep, Untouched, Cores, SameHold;
    GoodCores(t, r, pol);
    AcquireDecides(t, pol, now, w.ns, w.policy.algorithm, w.args);
    AcquireDecides(r, pol, now, w.ns, w.policy.algorithm, w.args);
    forall q | q in w.args.requests ensures GrantableTo(t, now, w.args.owner, w.args.token, w.ns, w.policy.algorithm, q) {
      if q.state == New { WantSpared(w, freed, q); }
      GrantableStays(t, r, now, w.args.owner, freed, w.args.token, w.ns, w.policy.algorithm, q);
    }
  }

  // --- an acquire only tightens the tables for everyone else ---

  /** The scoped paths an acquire gives up inline. */
  ghost function Given(ns: string, rels: seq<RelReq>): set<string> { set q | q in rels :: ScopedPath(ns, q.path) }

  lemma SteadyTighter(t: Tables, r: Tables, now: Time, gainer: string, owner: string)
    requires Steady(t, r, now, gainer) && owner != gainer && Onward(t, r)
    ensures Tighter(t, r, now, owner, {})
  {
    hide Onward;
  }

  lemma FinishTighter(t: Tables, t2: Tables, pol: Policies, now: Time, ns: string, args: AcquireArgs, owner: string)
    requires Steady(t, t2, now, args.owner) && owner != args.owner && !Lapses(now, args.ttl)
    requires Good(FinishAcquire(t2, now, ns, args), pol) && Onward(t, FinishAcquire(t2, now, ns, args))
    ensures Tighter(t, FinishAcquire(t2, now, ns, args), now, owner, Given(ns, args.releases))
  {
    hide Good, FinishAcquire, Onward, ScopedPath, Lapses;
    var r := FinishAcquire(t2, now, ns, args);
    forall h: Hold | h.owner == owner && h in r.alg ensures SameHold(t, r, h) { FinishExact(t2, pol, now, ns, args, h); }
    FinishFrame(t2, now, ns, args);
    forall h: Hold | h in t.alg && h.owner != owner && t.Alive(h.owner, now) && h.key !in Given(ns, args.releases)
      ensures SameHold(t, r, h) && r.Alive(h.owner, now)
    {
      assert SameHold(t, t2, h) && !ReleasedInline(ns, args.releases, h);
      FinishExact(t2, pol, now, ns, args, h);
    }
  }

  lemma AcquireTighter(t: Tables, pol: Policies, now: Time, ns: string, alg: LockAlgorithm, args: AcquireArgs, owner: string)
    requires Good(t, pol) && NoSep(ns) && alg == pol.InForce(ns) && owner != args.owner && args.requests != []
    requires Acquire(t, now, ns, alg, args).0.Ok? ==> !Lapses(now, args.ttl)
    ensures var (o, r) := Acquire(t, now, ns, alg, args);
            Tighter(t, r, now, owner, if o.Ok? then Given(ns, args.releases) else {})
  {
    hide Good, FinishAcquire, Executed, Onward, Acquire, NoSep, Steady, Given, Tighter, Lapses;
    AcquireGood(t, pol, now, ns, alg, args);
    ExecutedIs(t, pol, now, ns, alg, args);
    ExecutedSteady(t, pol, now, ns, alg, args);
    var (o, r) := Acquire(t, now, ns, alg, args);
    if o.Ok? { FinishTighter(t, Executed(t, now, ns, alg, args), pol, now, ns, args, owner); }
    else { SteadyTighter(t, r, now, args.owner, owner); }
  }

  // --- the sweep ---

  /** No granted waiter's lease is over at once, and nothing one gave up inline meets the waiter's paths. */
  ghost predicate SparedBy(now: Time, w: Entry, granted: seq<Entry>) {
    forall g :: g in granted ==> !Lapses(now, g.args.ttl) && Spared(w, Given(g.ns, g.args.releases))
  }

  lemma TryTighter(t: Tables, pol: Policies, now: Time, e: Entry, reserved: seq<Want>, owner: string)
    requires Good(t, pol) && Lawful(e, pol) && owner != e.args.owner
    requires TryWaiter(t, now, e, reserved).0.Grant? ==> !Lapses(now, e.args.ttl)
    ensures var (v, r) := TryWaiter(t, now, e, reserved);
            Tighter(t, r, now, owner, if v.Grant? then Given(e.ns, e.args.releases) else {})
  {
    hide Good, Acquire, NoSep, Tighter, Given, AnyConflict, EntryWants, Lapses;
    TighterRefl(t, now, owner);
    if !AnyConflict(EntryWants(e), reserved) { AcquireTighter(t, pol, now, e.ns, e.policy.algorithm, e.args, owner); }
  }

  /** A waiter that is not ready stays so through the rest of a sweep whose grants spare its paths. */
  lemma {:induction false} SweepStaysUnready(
    t: Tables, q: Queue, now: Time, pol: Policies, es: seq<Entry>, reserved: seq<Want>, w: Entry)
    requires Good(t, pol) && InForceAll(es, pol) && Lawful(w, pol) && !Ready(t, now, w)
    requires forall e :: e in es ==> e.args.owner != w.args.owner
    requires SparedBy(now, w, RunSweep(t, q, now, es, reserved).granted)
    ensures !Ready(RunSweep(t, q, now, es, reserved).t, now, w)
    decreases |es|
  {
    hide Good, Ready, Spared, Tighter, TryWaiter, NextQueue, NextReserved, NoSep, RunSweep, Onward, AnyConflict, EntryWants, Given, Lapses, Lawful;
    if es == [] {
      EmptySweep(t, q, now, reserved);
    } else {
      var e, rest := es[0], es[1..];
      assert e in es && forall x :: x in rest ==> x in es;
      SweepStep(t, q, now, es, reserved);
      var (v, t1) := TryWaiter(t, now, e, reserved);
      TryGood(t, pol, now, e, reserved);
      TryTighter(t, pol, now, e, reserved, w.args.owner);
      NothingTouched(w);
      if Ready(t1, now, w) {
        NeverReady(t, t1, pol, now, if v.Grant? then Given(e.ns, e.args.releases) else {}, w);
      }
      SweepStaysUnready(t1, NextQueue(q, now, e, v), now, pol, rest, NextReserved(reserved, e, v), w);
    }
  }

  lemma NothingTouched(w: Entry)
    ensures Spared(w, {})
  {
  }

  lemma SparedIff(w: Entry, g: Entry)
    ensures Spared(w, Given(g.ns, g.args.releases)) <==> !MeetsFreed(w, FreedPaths(g.ns, g.args.releases))
  {
    hide ScopedPath, EntryWants, Touches, FreedPaths;
    FreedPathsAre(g.ns, g.args.releases);
    assert forall p :: p in FreedPaths(g.ns, g.args.releases) <==> p in Given(g.ns, g.args.releases);
  }

  lemma ScanWaits(q: Queue, now: Time, pol: Policies)
    requires QueueGood(q, now, pol)
    ensures (forall e :: e in Scan(q, now) <==> Waiting(q, now, e)) && InOrder(Scan(q, now))
  {
    hide PathKeys, UnitSum, Scan, LiveEntries, QueueFiled, NoOrphans, OwnersPoint, Current;
    ScanComplete(q, now);
    LiveEntriesFacts(q, now);
  }

  // --- the targeted sweep ---

  lemma ReleaseTighter(t: Tables, pol: Policies, now: Time, ns: string, owner: string, rels: seq<RelReq>, waiter: string)
    requires Good(t, pol)
    ensures Tighter(t, Release(t, ns, owner, rels), now, waiter, Given(ns, rels))
  {
    hide Good, ScopedPath, ReleaseEach, Onward, HoldsNothing;
    ReleaseGood(t, pol, ns, owner, rels);
    ReleaseFrame(t, ns, owner, rels);
    var r := Release(t, ns, owner, rels);
    forall h: Hold | h in r.alg ensures SameHold(t, r, h) { ReleaseExact(t, ns, owner, rels, h); }
    forall h: Hold | h in t.alg && t.Alive(h.owner, now) && h.key !in Given(ns, rels) ensures SameHold(t, r, h) && r.Alive(h.owner, now) {
      assert !ReleasedInline(ns, rels, h);
      ReleaseExact(t, ns, owner, rels, h);
      HolderNotIdle(r, pol, h);
      IdleSame(ReleaseEach(t, ns, owner, rels), owner, h.owner);
    }
  }

  lemma DistinctOwners(q: Queue, now: Time, pol: Policies, a: Entry, b: Entry)
    requires QueueGood(q, now, pol) && Waiting(q, now, a) && Waiting(q, now, b) && a != b
    ensures a.args.owner != b.args.owner
  {
    hide QueueGood;
    WaiterOwns(q, now, pol, a);
    WaiterOwns(q, now, pol, b);
    OneWaiterEach(q, now, pol, a, b);
  }

  lemma CandidatesAre(q: Queue, now: Time, pol: Policies, freed: seq<string>)
    requires QueueGood(q, now, pol)
    ensures var es := LiveOf(q, now, SortedNats(CandidateSeqs(q, now, freed)));
            InOrder(es) && forall e :: e in es <==> Waiting(q, now, e) && MeetsFreed(e, freed)
  {
    hide QueueGood, Waiting, CandidateSeqs, LiveOf, MeetsFreed, Numbered;
    var seqs := SortedNats(CandidateSeqs(q, now, freed));
    QueueNumbered(q, now, pol);
    LiveOfFacts(q, now, seqs);
    forall e | Waiting(q, now, e) ensures e.seqno in seqs <==> MeetsFreed(e, freed) { CandidateIff(q, now, pol, freed, e); }
  }

  lemma CandidatesOwn(q: Queue, now: Time, pol: Policies, freed: seq<string>)
    requires QueueGood(q, now, pol)
    ensures OwnEntries(LiveOf(q, now, SortedNats(CandidateSeqs(q, now, freed))))
  {
    hide QueueGood, Waiting, CandidateSeqs, LiveOf, MeetsFreed;
    var es := LiveOf(q, now, SortedNats(CandidateSeqs(q, now, freed)));
    CandidatesAre(q, now, pol, freed);
    forall e | e in es ensures e.args.owner == e.owner { WaiterOwns(q, now, pol, e); }
    forall i, j | 0 <= i < j < |es| ensures es[i].owner != es[j].owner {
      assert es[i] in es && es[j] in es;
      OneWaiterEach(q, now, pol, es[i], es[j]);
    }
  }

  lemma QueueNumbered(q: Queue, now: Time, pol: Policies)
    requires QueueGood(q, now, pol)
    ensures Numbered(q)
  {
  }

  lemma WaiterOwns(q: Queue, now: Time, pol: Policies, e: Entry)
    requires QueueGood(q, now, pol) && Waiting(q, now, e)
    ensures e.args.owner == e.owner && Lawful(e, pol)
  {
    hide PathKeys, UnitSum;
  }

  /** A release that meets none of a waiter's paths does not make it ready. */
  lemma UntouchedUnready(t: Tables, q: Queue, now: Time, pol: Policies, ns: string, owner: string, rels: seq<RelReq>, w: Entry)
    requires Good(t, pol) && QueueGood(q, now, pol) && Waiting(q, now, w) && !Ready(t, now, w) && !MeetsFreed(w, FreedPaths(ns, rels))
    ensures !Ready(Release(t, ns, owner, rels), now, w)
  {
    hide Good, QueueGood, Ready, EntryWants, Release, Tighter, NoSep, Touches, FreedPaths, Waiting;
    var t1 := Release(t, ns, owner, rels);
    ReleaseGood(t, pol, ns, owner, rels);
    ReleaseTighter(t, pol, now, ns, owner, rels, w.args.owner);
    WaiterOwns(q, now, pol, w);
    FreedPathsAre(ns, rels);
    assert forall p :: p in FreedPaths(ns, rels) <==> p in Given(ns, rels);
    if Ready(t1, now, w) { NeverReady(t, t1, pol, now, Given(ns, rels), w); }
  }
}

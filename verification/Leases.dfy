/**
 Leases behind hold sets, over whole runs: whoever has something in a hold set has
 a lease record, so the garbage collector reaches its holds when the lease lapses.
 The exception is exact: a list that clashes with itself, executed by a sweep.
 */
module Leases {
  import opened Ordering
  import opened Paths
  import opened Expiry
  import opened LockSpec
  import opened LockInvariant
  import opened AcquireProof
  import opened ValidateProof
  import opened ApplyProof
  import opened EngineProof
  import opened AllOrNothing
  import opened AcquireDecision
  import opened AcquireFrame
  import opened Outcomes
  import opened QueueSpec
  import opened QueueProof
  import opened EnqueueProof
  import opened SweepProof
  import opened MachineSpec
  import opened MachineProof
  import opened PolicyProof
  import opened GcProof
  import opened GcProgress
  import opened Fairness
  import opened Runs
  import opened Theorems
  import opened Routes
  import opened Leftover

  /** Every owner with something in its hold set has a lease record, or is one of the given owners. */
  ghost predicate LeasedBut(t: Tables, but: set<string>) { forall e :: e in t.own ==> e.0 in t.alive || e.0 in but }

  ghost predicate Leased(t: Tables) { LeasedBut(t, {}) }

  // --- one acquire ---

  /** Once the first request is executed the owner has something in its hold set. */
  lemma FirstRecorded(t: Tables, pol: Policies, owner: string, token: int, ns: string, alg: LockAlgorithm, reqs: seq<LockReq>)
    requires Good(t, pol) && NoSep(ns) && alg == pol.InForce(ns) && reqs != []
    requires forall q :: q in reqs ==> ReqClear(t, owner, token, ns, alg, q) && CapacityAgrees(t, ns, alg, q)
    ensures !HoldsNothing(ApplyAll(t, owner, token, ns, alg, reqs).1, owner)
  {
    hide Good, ReqClear, CapacityAgrees, ApplyReq, ScopedPath, NoSep, Applied;
    ApplyReqOk(t, pol, owner, token, ns, alg, reqs[0]);
    ReqFrame(t, owner, token, ns, alg, reqs[0]);
    var t1 := ApplyReq(t, owner, token, ns, alg, reqs[0]).1;
    ApplyOwn(t1, owner, token, ns, alg, reqs[1..]);
    assert (owner, Member(reqs[0].mode, ns, reqs[0].path)) in ApplyAll(t, owner, token, ns, alg, reqs).1.own;
    assert (owner, Member(reqs[0].mode, ns, reqs[0].path)).0 == owner;
  }

  /** Validation leaves leases and hold sets alone, but for a lapsed owner starting afresh, who loses both. */
  lemma ValidatedLeases(t: Tables, pol: Policies, now: Time, ns: string, alg: LockAlgorithm, args: AcquireArgs, but: set<string>)
    requires Good(t, pol) && NoSep(ns) && alg == pol.InForce(ns) && LeasedBut(t, but)
    requires args.requests != [] && (HasHeld(args.requests) ==> t.Alive(args.owner, now))
    ensures var t1 := ValidateAll(BeginAcquire(t, now, args), now, args.owner, args.token, ns, alg, args.requests).1;
            LeasedBut(t1, but) && (args.owner in t1.alive <==> t.Alive(args.owner, now))
  {
    hide Good, NoSep, ValidateAll, ReqClear, CapacityAgrees, Core, Solid, Onward, Drop;
    var t0 := BeginAcquire(t, now, args);
    BeginGood(t, pol, now, args);
    GoodCore(t0, pol);
    AllOk(t0, now, args.owner, args.token, ns, alg, args.requests);
    PrunedFrame(t0, ValidateAll(t0, now, args.owner, args.token, ns, alg, args.requests).1, now);
  }

  lemma FinishLeased(t: Tables, now: Time, ns: string, args: AcquireArgs, but: set<string>)
    requires forall e :: e in t.own ==> e.0 in t.alive || e.0 in but || e.0 == args.owner
    ensures LeasedBut(FinishAcquire(t, now, ns, args), but)
  {
    hide ReleaseEach;
    ReleaseFrame(RefreshLease(t, now, args.owner, args.ttl), ns, args.owner, args.releases);
  }

  /** The acquire stops halfway through a list that clashes with itself, for an owner without a live lease. */
  ghost predicate HalfGrants(t: Tables, now: Time, ns: string, alg: LockAlgorithm, args: AcquireArgs) {
    && SelfConflicting(ns, alg, args.requests) && !t.Alive(args.owner, now) && !HasHeld(args.requests)
    && forall q :: q in args.requests ==> GrantableTo(t, now, args.owner, args.token, ns, alg, q)
  }

  lemma ExecutedLeased(t: Tables, pol: Policies, now: Time, ns: string, alg: LockAlgorithm, args: AcquireArgs, but: set<string>)
    requires Good(t, pol) && NoSep(ns) && alg == pol.InForce(ns) && args.requests != [] && LeasedBut(t, but)
    ensures var t2 := Executed(t, now, ns, alg, args);
            && (forall e :: e in t2.own ==> e.0 in t2.alive || e.0 in but || e.0 == args.owner)
            && (t.Alive(args.owner, now) ==> args.owner in t2.alive)
  {
    hide Good, NoSep, ValidateAll, ApplyAll, BeginAcquire;
    if !HasHeld(args.requests) || t.Alive(args.owner, now) {
      ValidatedLeases(t, pol, now, ns, alg, args, but);
      var t1 := ValidateAll(BeginAcquire(t, now, args), now, args.owner, args.token, ns, alg, args.requests).1;
      ApplyOwn(t1, args.owner, args.token, ns, alg, args.requests);
    }
  }

  lemma AcquireLeasedBut(t: Tables, pol: Policies, now: Time, ns: string, alg: LockAlgorithm, args: AcquireArgs, but: set<string>)
    requires Good(t, pol) && NoSep(ns) && alg == pol.InForce(ns) && args.requests != [] && LeasedBut(t, but)
    requires args.owner in but || !SelfConflicting(ns, alg, args.requests)
    ensures LeasedBut(Acquire(t, now, ns, alg, args).1, but)
  {
    hide Good, NoSep, Acquire, Executed, FinishAcquire, SelfConflicting, AllGranted;
    var t2 := Executed(t, now, ns, alg, args);
    ExecutedIs(t, pol, now, ns, alg, args);
    ExecutedLeased(t, pol, now, ns, alg, args, but);
    if Acquire(t, now, ns, alg, args).0.Ok? { FinishLeased(t2, now, ns, args, but); }
    else if args.owner !in but { RefusedLeased(t, pol, now, ns, alg, args, but); }
  }

  lemma RefusedLeased(t: Tables, pol: Policies, now: Time, ns: string, alg: LockAlgorithm, args: AcquireArgs, but: set<string>)
    requires Good(t, pol) && NoSep(ns) && alg == pol.InForce(ns) && args.requests != [] && LeasedBut(t, but)
    requires !Acquire(t, now, ns, alg, args).0.Ok? && !HalfGrants(t, now, ns, alg, args)
    ensures LeasedBut(Executed(t, now, ns, alg, args), but)
  {
    hide Good, NoSep, ValidateAll, ApplyAll, BeginAcquire, SelfConflicting, GrantableTo, FinishAcquire, Acquire;
    AcquireDecides(t, pol, now, ns, alg, args);
    if !HasHeld(args.requests) || t.Alive(args.owner, now) {
      ValidationDecides(t, pol, now, ns, alg, args);
      ValidatedLeases(t, pol, now, ns, alg, args, but);
      ExecutedLeased(t, pol, now, ns, alg, args, but);
    }
  }

  /** An acquire keeps every hold set leased exactly when it is not such a half grant. */
  lemma AcquireLeasedIff(t: Tables, pol: Policies, now: Time, ns: string, alg: LockAlgorithm, args: AcquireArgs)
    requires Good(t, pol) && NoSep(ns) && alg == pol.InForce(ns) && args.requests != [] && Leased(t)
    ensures Leased(Acquire(t, now, ns, alg, args).1) <==> !HalfGrants(t, now, ns, alg, args)
  {
    hide Good, NoSep, Acquire, Executed, FinishAcquire, HalfGrants;
    ExecutedIs(t, pol, now, ns, alg, args);
    if HalfGrants(t, now, ns, alg, args) {
      HalfUnleased(t, pol, now, ns, alg, args);
    } else if Acquire(t, now, ns, alg, args).0.Ok? {
      ExecutedLeased(t, pol, now, ns, alg, args, {});
      FinishLeased(Executed(t, now, ns, alg, args), now, ns, args, {});
    } else {
      RefusedLeased(t, pol, now, ns, alg, args, {});
    }
  }

  lemma HalfUnleased(t: Tables, pol: Policies, now: Time, ns: string, alg: LockAlgorithm, args: AcquireArgs)
    requires Good(t, pol) && NoSep(ns) && alg == pol.InForce(ns) && args.requests != [] && Leased(t) && HalfGrants(t, now, ns, alg, args)
    ensures !Acquire(t, now, ns, alg, args).0.Ok? && !Leased(Executed(t, now, ns, alg, args))
  {
    hide Good, NoSep, ValidateAll, ApplyAll, BeginAcquire, SelfConflicting, GrantableTo, Acquire, ReqClear, CapacityAgrees, OnlyLapsedRemoved;
    AcquireDecides(t, pol, now, ns, alg, args);
    ValidationDecides(t, pol, now, ns, alg, args);
    ValidationRemoves(t, pol, now, ns, alg, args);
    ValidatedLeases(t, pol, now, ns, alg, args, {});
    var t1 := ValidateAll(BeginAcquire(t, now, args), now, args.owner, args.token, ns, alg, args.requests).1;
    FirstRecorded(t1, pol, args.owner, args.token, ns, alg, args.requests);
    ApplyOwn(t1, args.owner, args.token, ns, alg, args.requests);
  }

  // --- sweeps ---

  predicate Clashing(w: Entry) { SelfConflicting(w.ns, w.policy.algorithm, w.args.requests) }

  lemma {:induction false} SweepLeased(t: Tables, q: Queue, now: Time, pol: Policies, es: seq<Entry>, reserved: seq<Want>, but: set<string>)
    requires Good(t, pol) && InForceAll(es, pol) && LeasedBut(t, but) && forall e :: e in es && Clashing(e) ==> e.args.owner in but
    ensures LeasedBut(RunSweep(t, q, now, es, reserved).t, but)
    decreases |es|
  {
    hide Good, Onward, TryWaiter, NextQueue, NextReserved, Lawful, RunSweep, LeasedBut, Clashing;
    if es == [] {
      EmptySweep(t, q, now, reserved);
    } else {
      var e, rest := es[0], es[1..];
      assert e in es && forall x :: x in rest ==> x in es;
      SweepStep(t, q, now, es, reserved);
      var (v, t1) := TryWaiter(t, now, e, reserved);
      TryGood(t, pol, now, e, reserved);
      TryLeased(t, pol, now, e, reserved, but);
      SweepLeased(t1, NextQueue(q, now, e, v), now, pol, rest, NextReserved(reserved, e, v), but);
    }
  }

  lemma TryLeased(t: Tables, pol: Policies, now: Time, e: Entry, reserved: seq<Want>, but: set<string>)
    requires Good(t, pol) && Lawful(e, pol) && LeasedBut(t, but) && (Clashing(e) ==> e.args.owner in but)
    ensures LeasedBut(TryWaiter(t, now, e, reserved).1, but)
  {
    hide Good, Acquire, EntryWants, AnyConflict, NoSep, LeasedBut, SelfConflicting;
    AcquireLeasedBut(t, pol, now, e.ns, e.policy.algorithm, e.args, but);
  }

  /** Tables and queue of a group: only the given owners can be without a lease, or become so. */
  ghost predicate GroupLeased(g: Group, now: Time, but: set<string>) {
    LeasedBut(g.t, but) && forall e :: Waiting(g.q, now, e) && Clashing(e) ==> e.args.owner in but
  }

  lemma SweepAllLeased(g: Group, now: Time, fallback: LockAlgorithm, but: set<string>)
    requires Sound(g, now, fallback) && GroupLeased(g, now, but)
    ensures GroupLeased(SweepAllOf(g, now).1, now, but)
  {
    hide Good, RunSweep, Onward, Scan, LeasedBut, Clashing, LiveEntries, PathKeys, UnitSum, Lawful;
    var pol := PoliciesOf(g, fallback);
    ScanInForce(g.q, now, pol);
    ScanComplete(g.q, now);
    LiveEntriesFacts(g.q, now);
    hide QueueGood;
    SweepGood(g.t, g.q, now, pol, Scan(g.q, now), []);
    SweepLeased(g.t, g.q, now, pol, Scan(g.q, now), [], but);
  }

  lemma SweepPathsLeased(g: Group, now: Time, fallback: LockAlgorithm, freed: seq<string>, but: set<string>)
    requires Sound(g, now, fallback) && GroupLeased(g, now, but)
    ensures GroupLeased(SweepPathsOf(g, now, freed).1, now, but)
  {
    hide Good, QueueGood, RunSweep, Onward, CandidateSeqs, LiveOf, LeasedBut, Clashing, Lawful;
    var pol := PoliciesOf(g, fallback);
    var es := LiveOf(g.q, now, SortedNats(CandidateSeqs(g.q, now, freed)));
    CandidatesInForce(g.q, now, pol, freed);
    CandidatesWait(g.q, now, pol, freed);
    SweepGood(g.t, g.q, now, pol, es, []);
    SweepLeased(g.t, g.q, now, pol, es, [], but);
  }

  lemma ShrunkLeased(g: Group, r: Group, now: Time, but: set<string>)
    requires GroupLeased(g, now, but) && LeasedBut(r.t, but) && Shrunk(g.q, r.q, now)
    ensures GroupLeased(r, now, but)
  {
    hide LeasedBut, Clashing;
  }

  // --- the acquire command ---

  lemma CommittedLeased(t: Tables, pol: Policies, now: Time, ns: string, alg: LockAlgorithm, args: AcquireArgs, but: set<string>)
    requires Good(t, pol) && NoSep(ns) && alg == pol.InForce(ns) && LeasedBut(t, but)
    requires var o := Acquire(t, now, ns, alg, args).0; o.Ok? || (o.Conflict? && o.reason.IsQueueable())
    ensures LeasedBut(Acquire(t, now, ns, alg, args).1, but)
  {
    hide Good, NoSep, Acquire, Executed, FinishAcquire, SelfConflicting, GrantableTo;
    if args.requests == [] {
      NothingBegins(t, now, ns, alg, args);
      FinishLeased(t, now, ns, args, but);
    } else {
      ExecutedIs(t, pol, now, ns, alg, args);
      ExecutedLeased(t, pol, now, ns, alg, args, but);
      if Acquire(t, now, ns, alg, args).0.Ok? { FinishLeased(Executed(t, now, ns, alg, args), now, ns, args, but); }
      else {
        if HalfGrants(t, now, ns, alg, args) { ClashRefused(t, pol, now, ns, alg, args); }
        RefusedLeased(t, pol, now, ns, alg, args, but);
      }
    }
  }

  /** The owner whose clashing acquire this command parked, if it did. */
  function ParkedClash(response: Response, op: Op): set<string> {
    if op.AcquireOp? && response.Acquired? && response.outcome.Enqueued? && SelfConflicting(op.ns, op.policy.algorithm, op.args.requests)
    then {op.args.owner} else {}
  }

  lemma ParkLeased(g: Group, now: Time, ns: string, args: AcquireArgs, policy: LockPolicy, path: string, owner: string, reason: Reason, but: set<string>)
    requires GroupLeased(g, now, but)
    ensures var (response, r) := Park(g, now, ns, args, policy, path, owner, reason);
            GroupLeased(r, now, but + ParkedClash(response, AcquireOp(ns, policy, args)))
  {
    hide SelfConflicting, PathKeys, QueueUnits, UnitSum, QueueCount, ExpiryAt;
    var next := Enqueue(g.q, now, ns, args, policy);
    if next.Some? {
      var (oldUnits, s, q1) := Supersede(g.q, now, ns, args, policy);
      assert forall x :: x in q1.entries ==> x in g.q.entries && q1.entries[x] == g.q.entries[x];
      forall e | Waiting(next.value.1, now, e) && e.seqno != s ensures Waiting(g.q, now, e) { }
    }
  }

  lemma SettleLeased(g: Group, now: Time, fallback: LockAlgorithm, ns: string, args: AcquireArgs, wasAlive: bool, token: int, but: set<string>)
    requires Sound(g, now, fallback) && GroupLeased(g, now, but)
    ensures GroupLeased(Settle(g, now, ns, args, wasAlive, token).1, now, but)
  {
    hide Good, QueueGood, LeasedBut, Dequeue, SweepAllOf, SweepPathsOf, FreedPaths, SameBooks, Advances, Clashing;
    var g1 := g.(q := Dequeue(g.q, now, args.owner));
    DequeueMoves(g, now, fallback, args.owner);
    DequeueShrinks(g.q, now, PoliciesOf(g, fallback), args.owner);
    ShrunkLeased(g, g1, now, but);
    SweepAllLeased(g1, now, fallback, but);
    SweepPathsLeased(g1, now, fallback, FreedPaths(ns, args.releases), but);
  }

  lemma MintedLeased(g: Group, now: Time, fallback: LockAlgorithm, ns: string, args: AcquireArgs, policy: LockPolicy, but: set<string>)
    requires Sound(g, now, fallback) && policy.algorithm == PoliciesOf(g, fallback).InForce(ns) && NoSep(ns) && GroupLeased(g, now, but)
    ensures var (response, r) := ExecuteMinted(g, now, ns, args, policy);
            response.Commits() ==> GroupLeased(r, now, but + ParkedClash(response, AcquireOp(ns, policy, args)))
  {
    hide Good, QueueGood, LeasedBut, Clashing, Acquire, NoSep, BlockedByEarlier, Park, Settle, PublicPath, SameBooks, Advances, SelfConflicting;
    match BlockedByEarlier(g.t, g.q, now, ns, args, policy.algorithm)
    case Some((e, path)) => ParkLeased(g, now, ns, args, policy, PublicPath(e.ns, path), e.owner, Queued, but);
    case None =>
      var (o, t1) := Acquire(g.t, now, ns, policy.algorithm, args);
      var g1 := g.(t := t1);
      AcquireMoves(g, now, fallback, ns, args, policy.algorithm);
      match o {
        case Ok(token) =>
          CommittedLeased(g.t, PoliciesOf(g, fallback), now, ns, policy.algorithm, args, but);
          SettleLeased(g1, now, fallback, ns, args, g.t.Alive(args.owner, now), token, but);
          SettleAnswers(g1, now, ns, args, g.t.Alive(args.owner, now), token);
          assert but + {} == but;
        case Conflict(path, owner, _, reason) =>
          if reason.IsQueueable() {
            CommittedLeased(g.t, PoliciesOf(g, fallback), now, ns, policy.algorithm, args, but);
            ParkLeased(g1, now, ns, args, policy, path, owner, reason, but);
          }
        case Lost(_, _) =>
        case Enqueued(_, _, _, _) => NeverEnqueued(g.t, PoliciesOf(g, fallback), now, ns, policy.algorithm, args);
      }
  }

  // --- the other operations ---

  lemma ReleaseLeased(t: Tables, ns: string, owner: string, rels: seq<RelReq>, but: set<string>)
    requires LeasedBut(t, but)
    ensures LeasedBut(Release(t, ns, owner, rels), but)
  {
    hide ReleaseEach;
    ReleaseFrame(t, ns, owner, rels);
  }

  lemma ReleaseOwnerLeased(t: Tables, owner: string, but: set<string>)
    requires LeasedBut(t, but)
    ensures LeasedBut(ReleaseOwner(t, owner), but)
  {
  }

  lemma ClearLeased(t: Tables, gone: set<(string, Member)>, but: set<string>)
    requires LeasedBut(t, but)
    ensures LeasedBut(ClearHolds(t, gone), but)
  {
    hide NamedHolds;
    var r := ClearHolds(t, gone);
    forall e | e in r.own ensures e.0 in r.alive || e.0 in but { assert e in t.own; }
  }

  lemma ClearNamespaceLeased(g: Group, now: Time, fallback: LockAlgorithm, rows: map<string, LockPolicy>, ns: string, legacy: bool, but: set<string>)
    requires Sound(g, now, fallback) && GroupLeased(g, now, but)
    ensures GroupLeased(ClearNamespace(g.(rows := rows), now, ns, legacy).1, now, but)
  {
    hide Good, QueueGood, LeasedBut, Clashing, ClearHolds, ClearQueue, GoneMembers, ClearedEntries, LiveEntries, Preserved, SortedStrings, Shrunk;
    var preserved := Preserved(rows, ns, legacy);
    ClearLeased(g.t, GoneMembers(g.t.own, ns, legacy, preserved), but);
    ClearQueueGood(g.q, now, PoliciesOf(g, fallback), ClearedEntries(LiveEntries(g.q, now), ns, legacy, preserved));
    ShrunkLeased(g, ClearNamespace(g.(rows := rows), now, ns, legacy).1, now, but);
  }

  lemma PolicyLeased(g: Group, now: Time, fallback: LockAlgorithm, op: Op, but: set<string>)
    requires Sound(g, now, fallback) && GroupLeased(g, now, but)
    ensures op.SetPolicyOp? ==> GroupLeased(SetPolicy(g, now, op.ns, op.algorithm).1, now, but)
    ensures op.DeletePolicyOp? ==> GroupLeased(DeletePolicy(g, now, op.ns).1, now, but)
  {
    hide Sound, LeasedBut, Clashing, ClearNamespace;
    if op.SetPolicyOp? {
      var same := op.ns in g.rows && g.rows[op.ns].algorithm == op.algorithm;
      var epoch := if op.ns in g.rows then g.rows[op.ns].epoch else 0;
      var rows := g.rows[op.ns := LockPolicy(op.algorithm, if same then epoch else SaturatingEpoch(epoch))];
      ClearNamespaceLeased(g, now, fallback, rows, op.ns, op.ns !in g.rows, but);
    }
    if op.DeletePolicyOp? { ClearNamespaceLeased(g, now, fallback, g.rows - {op.ns}, op.ns, false, but); }
  }

  lemma {:induction false} ReclaimLeased(g: Group, now: Time, slots: seq<Slot>, but: set<string>)
    requires LeasedBut(g.t, but)
    ensures LeasedBut(Reclaim(g, now, slots).1.t, but)
    decreases |slots|
  {
    hide ReleaseOwner, ExpireEntry;
    if slots != [] {
      if slots[0].ref.AliveRef? { ReleaseOwnerLeased(g.t, slots[0].ref.owner, but); }
      ReclaimLeased(DropSlot(ReclaimRecord(g, now, slots[0].ref).1, slots[0]), now, slots[1..], but);
    }
  }

  lemma GcLeased(g: Group, now: Time, fallback: LockAlgorithm, batch: nat, but: set<string>)
    requires Kept(g, now, fallback) && GroupLeased(g, now, but)
    ensures GroupLeased(GcSweep(g, now, batch).1, now, but)
  {
    hide Sound, SeenFiled, Onward, Reclaim, BatchOf, LeasedBut, Clashing, SweepAllOf, GcSweep, Spares, Reclaimed;
    var h := AfterBatch(g, now, batch);
    AfterBatchKept(g, now, fallback, batch);
    ReclaimFewer(g, now, BatchOf(g, now, batch));
    ReclaimLeased(g, now, BatchOf(g, now, batch), but);
    ShrunkLeased(g, h, now, but);
    SweepAllLeased(h, now, fallback, but);
    GcFinal(g, now, batch);
  }

  lemma RemoveOwnerLeased(g: Group, now: Time, fallback: LockAlgorithm, owner: string, but: set<string>)
    requires Sound(g, now, fallback) && GroupLeased(g, now, but)
    ensures GroupLeased(SweepAllOf(g.(t := ReleaseOwner(g.t, owner), q := Dequeue(g.q, now, owner)), now).1, now, but)
  {
    hide Good, QueueGood, LeasedBut, Clashing, SweepAllOf, Dequeue, Onward, ReleaseOwner;
    var g1 := g.(t := ReleaseOwner(g.t, owner), q := Dequeue(g.q, now, owner));
    ReleaseOwnerGood(g.t, PoliciesOf(g, fallback), owner);
    ReleaseOwnerLeased(g.t, owner, but);
    DequeueGood(g.q, now, PoliciesOf(g, fallback), owner);
    DequeueShrinks(g.q, now, PoliciesOf(g, fallback), owner);
    ShrunkLeased(g, g1, now, but);
    SweepAllLeased(g1, now, fallback, but);
  }

  lemma SameLeased(g: Group, r: Group, now: Time, but: set<string>)
    requires GroupLeased(g, now, but) && r.t.own == g.t.own && g.t.alive.Keys <= r.t.alive.Keys && r.q == g.q
    ensures GroupLeased(r, now, but)
  {
    hide Clashing;
  }

  lemma RenewKeeps(t: Tables, now: Time, owner: string, ttl: Time)
    ensures var r := Renew(t, now, owner, ttl).1; r.own == t.own && t.alive.Keys <= r.alive.Keys
  {
  }

  lemma ExecuteLeased(g: Group, now: Time, fallback: LockAlgorithm, identified: bool, op: Op, but: set<string>)
    requires Kept(g, now, fallback) && GroupLeased(g, now, but) && (op.AcquireOp? ==> identified && NoSep(op.ns))
    ensures var (response, r) := Execute(g, now, fallback, identified, op);
            response.Commits() ==> GroupLeased(r, now, but + ParkedClash(response, op))
  {
    hide Sound, GroupLeased, SeenFiled, NoSep, Release, ReleaseOwner, Dequeue, SweepAllOf, SweepPathsOf, ExecuteAcquire,
         SetPolicy, DeletePolicy, StaleRoute, GcSweep, Renew, FreedPaths, Advances, SameBooks, SelfConflicting;
    assert but + {} == but;
    match op
    case ReleaseOp(ns, owner, reqs) =>
      ReleaseMoves(g, now, fallback, ns, owner, reqs);
      ReleaseOpLeased(g, now, ns, owner, reqs, but);
      SweepPathsLeased(g.(t := Release(g.t, ns, owner, reqs)), now, fallback, FreedPaths(ns, reqs), but);
    case ReleaseAllOp(owner) => RemoveOwnerLeased(g, now, fallback, owner, but);
    case ForceReleaseOp(victim) => RemoveOwnerLeased(g, now, fallback, victim, but);
    case RenewOp(owner, ttl) => SameLeased(g, g.(t := Renew(g.t, now, owner, ttl).1), now, but) by { RenewKeeps(g.t, now, owner, ttl); }
    case GcSweepOp(batch) => GcLeased(g, now, fallback, batch, but);
    case IncrFenceOp => SameLeased(g, g.(counter := SaturatingNext(g.counter)), now, but);
    case NoopOp =>
    case SetPolicyOp(ns, alg) => PolicyLeased(g, now, fallback, op, but);
    case DeletePolicyOp(ns) => PolicyLeased(g, now, fallback, op, but);
    case AcquireOp(ns, policy, args) =>
      if !StaleRoute(g.rows, ns, args) && PoliciesOf(g, fallback).Record(ns) == policy {
        AcquireOpLeased(g, now, fallback, ns, args, policy, but);
      }
  }

  lemma ReleaseOpLeased(g: Group, now: Time, ns: string, owner: string, reqs: seq<RelReq>, but: set<string>)
    requires GroupLeased(g, now, but)
    ensures GroupLeased(g.(t := Release(g.t, ns, owner, reqs)), now, but)
  {
    hide LeasedBut, Clashing, Release;
    ReleaseLeased(g.t, ns, owner, reqs, but);
  }

  lemma AcquireOpLeased(g: Group, now: Time, fallback: LockAlgorithm, ns: string, args: AcquireArgs, policy: LockPolicy, but: set<string>)
    requires Sound(g, now, fallback) && policy.algorithm == PoliciesOf(g, fallback).InForce(ns) && NoSep(ns) && GroupLeased(g, now, but)
    ensures var (response, r) := ExecuteAcquire(g, now, ns, args, policy);
            response.Commits() ==> GroupLeased(r, now, but + ParkedClash(response, AcquireOp(ns, policy, args)))
  {
    hide Good, QueueGood, LeasedBut, Clashing, ExecuteMinted, NoSep, MaxFence, NeedsFence, SelfConflicting;
    var (minted, g1) := MintFence(g, ns, args, policy.algorithm);
    MintedLeased(g1, now, fallback, ns, minted, policy, but);
  }

  // --- runs ---

  /** The owners whose clashing acquires a run parked. */
  ghost function HalfOwners(cfg: Config, g: Group, log: seq<Command>): set<string>
    decreases |log|
  {
    if log == [] then {}
    else var (response, g1) := Apply(cfg, g, log[0]); ParkedClash(response, log[0].op) + HalfOwners(cfg, g1, log[1..])
  }

  lemma GroupLeasedMore(g: Group, now: Time, but: set<string>, more: set<string>)
    requires GroupLeased(g, now, but) && but <= more
    ensures GroupLeased(g, now, more)
  {
    hide Clashing;
  }

  lemma TimeLeased(g: Group, now: Time, but: set<string>)
    requires GroupLeased(g, g.clock, but) && g.clock <= now
    ensures GroupLeased(g, now, but)
  {
    hide LeasedBut, Clashing;
    forall e | Waiting(g.q, now, e) ensures Waiting(g.q, g.clock, e) { }
  }

  lemma CommandLeased(cfg: Config, g: Group, cmd: Command, but: set<string>)
    requires Inv(g, cfg.fallback) && GroupLeased(g, g.clock, but) && Stamped(cmd)
    ensures var (response, r) := Apply(cfg, g, cmd); GroupLeased(r, r.clock, but + ParkedClash(response, cmd.op))
  {
    hide Kept, Behind, GroupLeased, Execute, ParkedClash, NoSep;
    var now := EffectiveTime(g, cmd);
    var (response, r) := Apply(cfg, g, cmd);
    GroupLeasedMore(g, g.clock, but, but + ParkedClash(response, cmd.op));
    if Recall(g, now, cmd.id).None? {
      KeptLater(g, now, cfg.fallback);
      TimeLeased(g, now, but);
      ExecuteLeased(g, now, cfg.fallback, cmd.id.Some?, cmd.op, but);
      NoopExecutes(g, now, cfg.fallback, cmd.id.Some?);
      var g1 := Execute(g, now, cfg.fallback, cmd.id.Some?, cmd.op).1;
      var more := but + ParkedClash(response, cmd.op);
      if cmd.op.NoopOp? { SameLeased(g, r, g.clock, more); }
      else if response.Commits() { SameLeased(g1, r, now, more); }
      else { TimeLeased(g, now, more); SameLeased(g, r, now, more); }
    }
  }

  lemma {:induction false} RunLeased(cfg: Config, g: Group, log: seq<Command>, but: set<string>)
    requires Inv(g, cfg.fallback) && GroupLeased(g, g.clock, but) && AllStamped(log)
    ensures var r := Run(cfg, g, log); GroupLeased(r, r.clock, but + HalfOwners(cfg, g, log))
    decreases |log|
  {
    hide Inv, GroupLeased, Apply, Onward, AllSlots, ParkedClash;
    if log == [] {
      assert but + {} == but;
    } else {
      assert log[0] in log && forall c :: c in log[1..] ==> c in log;
      var (response, g1) := Apply(cfg, g, log[0]);
      ApplyProgress(cfg, g, log[0]);
      CommandLeased(cfg, g, log[0], but);
      RunLeased(cfg, g1, log[1..], but + ParkedClash(response, log[0].op));
      assert but + ParkedClash(response, log[0].op) + HalfOwners(cfg, g1, log[1..]) == but + HalfOwners(cfg, g, log);
    }
  }

  /** After every run whoever has something in a hold set has a lease record, or had a clashing acquire parked. */
  lemma LeasesAlways(cfg: Config, log: seq<Command>)
    requires AllStamped(log)
    ensures LeasedBut(Run(cfg, EMPTY_GROUP, log).t, HalfOwners(cfg, EMPTY_GROUP, log))
  {
    hide Inv, Run, HalfOwners;
    EmptyInv(cfg.fallback);
    RunLeased(cfg, EMPTY_GROUP, log, {});
    assert {} + HalfOwners(cfg, EMPTY_GROUP, log) == HalfOwners(cfg, EMPTY_GROUP, log);
  }

  /** So with no backlog the holds of every other owner are under a lease that is not a quantum overdue: collection reaches all of them. */
  lemma HoldsCollected(cfg: Config, log: seq<Command>, due: nat)
    requires AllStamped(log) && Backlog(Run(cfg, EMPTY_GROUP, log), due) == {}
    ensures var g := Run(cfg, EMPTY_GROUP, log);
            forall h :: h in g.t.alg && h.owner !in HalfOwners(cfg, EMPTY_GROUP, log) ==>
              h.owner in g.t.alive && !Overdue(g.t.alive[h.owner], due)
  {
    hide Run, HalfOwners, Backlog, Overdue, QueueGood, SeenFiled, Behind, Good, Onward;
    var g := Run(cfg, EMPTY_GROUP, log);
    LeasesAlways(cfg, log);
    EmptyInv(cfg.fallback);
    RunProgress(cfg, EMPTY_GROUP, log);
    NothingOverdue(g, cfg.fallback, due);
    forall h | h in g.t.alg && h.owner !in HalfOwners(cfg, EMPTY_GROUP, log) ensures h.owner in g.t.alive {
      HolderNotIdle(g.t, PoliciesOf(g, cfg.fallback), h);
    }
  }

  // --- the exception is real ---

  function Clash12(): AcquireArgs {
    AcquireArgs("o", 5, [LockReq("h:/s", Write, New, 1), LockReq("h:/s", Write, New, 2)], 0, [], 0)
  }

  const SEATS: LockPolicy := LockPolicy(Semaphore, 0)

  /** Alone in the queue. */
  function ClashQueue(): Option<(nat, Queue)> { Enqueue(EMPTY_QUEUE, 1, "h", Clash12(), SEATS) }

  lemma ClashParked(pol: Policies)
    requires pol == Policies(map[], Semaphore)
    ensures ClashQueue().Some? && QueueGood(ClashQueue().value.1, 1, pol)
    ensures ClashQueue().value.1.entries == map[1 := (Entry(1, "o", "h", Clash12(), SEATS), 60_001)]
  {
    hide PathKeys, QueueGood, UnitSum;
    EmptyQueueGood(1, pol);
    EnqueueGood(EMPTY_QUEUE, 1, pol, "h", Clash12(), SEATS);
    ClashUnits();
    NoEntries(map[]);
    hide QueueUnits;
  }

  lemma ScanOfOne(q: Queue, e: Entry)
    requires q.entries == map[1 := (e, 60_001)]
    ensures Scan(q, 1) == [e]
  {
    AscendingUnique(SortedNats({1}), [1], NatLess);
    assert q.entries.Keys == {1};
    assert [1][1..] == [] && LiveOf(q, 1, []) == [];
  }

  lemma ClashUnits()
    ensures QueueUnits(Clash12()) == 2
  {
    hide ScopedPath;
    var reqs := Clash12().requests;
    assert reqs[1..] == [reqs[1]] && reqs[1..][1..] == [];
    assert NewPaths("", reqs[1..]) == [(ScopedPath("", "h:/s"), Write)];
  }

  /**
   A sweep that tries a clashing waiter drops it, tells nobody, and keeps its half
   grant: a permit taken by an owner without a lease. A direct acquire would have
   been discarded.
   */
  lemma SweepKeepsHalfGrant()
    ensures var pol := Policies(map[], Semaphore);
            && Good(EMPTY, pol) && ClashQueue().Some? && QueueGood(ClashQueue().value.1, 1, pol)
            && (var r := GrantSweep(EMPTY, ClashQueue().value.1, 1);
                && (ScopedPath("h", "h:/s"), "o") in r.t.sem && "o" !in r.t.alive && !Leased(r.t)
                && r.notify == [] && r.granted == [] && forall s :: !Live(r.q, 1, s))
  {
    hide Acquire, QueueGood, EntryWants, AnyConflict, RunSweep, ScopedPath, Scan, Dequeue, Good, ClashQueue, Onward;
    var pol := Policies(map[], Semaphore);
    var e := Entry(1, "o", "h", Clash12(), SEATS);
    EmptyGood(pol);
    ClashParked(pol);
    ScanOfOne(ClashQueue().value.1, e);
    HalfGrant(1);
    var q, t1 := ClashQueue().value.1, Acquire(EMPTY, 1, "h", Semaphore, Clash12()).1;
    AcquireGood(EMPTY, pol, 1, "h", Semaphore, Clash12());
    NothingReserved(EntryWants(e));
    SweepStep(EMPTY, q, 1, [e], []);
    assert [e][1..] == [];
    EmptySweep(t1, Dequeue(q, 1, "o"), 1, []);
    DequeueShrinks(q, 1, pol, "o");
    SemaphoreOnRecord(t1, pol, ScopedPath("h", "h:/s"), "o");
    HolderNotIdle(t1, pol, Hold("o", Write, ScopedPath("h", "h:/s")));
  }
}

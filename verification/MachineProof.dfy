/** Every command keeps the group's invariant: locks, queue, indexes, policies and expiry slots. */
module MachineProof {
  import opened Ordering
  import opened Paths
  import opened Roots
  import opened Expiry
  import opened LockSpec
  import opened LockInvariant
  import opened AcquireProof
  import opened ValidateProof
  import opened ApplyProof
  import opened EngineProof
  import opened QueueSpec
  import opened QueueProof
  import opened EnqueueProof
  import opened SweepProof
  import opened MachineSpec

  function PoliciesOf(g: Group, fallback: LockAlgorithm): Policies { Policies(g.rows, fallback) }

  /** Slots filed at a time lie at or after it. */
  ghost predicate Later(a: set<Slot>, b: set<Slot>, now: nat) { forall s :: s in b ==> s in a || s.exp >= now }

  /** Locks and queue are consistent with each other and with the policies in force. */
  ghost predicate Sound(g: Group, now: Time, fallback: LockAlgorithm) {
    Good(g.t, PoliciesOf(g, fallback)) && QueueGood(g.q, now, PoliciesOf(g, fallback))
  }

  /** What one operation may do to fences, capacities and expiry slots. */
  ghost predicate Advances(g: Group, r: Group, now: Time) {
    Onward(g.t, r.t) && Later(g.t.slots, r.t.slots, now) && Later(g.q.slots, r.q.slots, now)
  }

  ghost predicate SameBooks(g: Group, r: Group) {
    r.seen == g.seen && r.seenSlots == g.seenSlots && r.clock == g.clock && r.cursor == g.cursor
  }

  ghost predicate Moves(g: Group, r: Group, now: Time, fallback: LockAlgorithm) {
    Sound(r, now, fallback) && Advances(g, r, now) && SameBooks(g, r)
  }

  lemma MovesTrans(g: Group, h: Group, r: Group, now: Time, fallback: LockAlgorithm)
    requires Moves(g, h, now, fallback) && Moves(h, r, now, fallback)
    ensures Moves(g, r, now, fallback)
  {
    hide Sound, Onward;
    OnwardTrans(g.t, h.t, r.t);
  }

  lemma MovesRefl(g: Group, now: Time, fallback: LockAlgorithm)
    requires Sound(g, now, fallback)
    ensures Moves(g, g, now, fallback)
  {
    hide Sound, Onward;
    GrewRefl(g.t, "");
  }

  // --- slots ---

  lemma ReleaseSlots(t: Tables, ns: string, owner: string, reqs: seq<RelReq>)
    ensures Release(t, ns, owner, reqs).slots == t.slots
  {
    ReleaseEachSlots(t, ns, owner, reqs);
  }

  lemma {:induction false} ReleaseEachSlots(t: Tables, ns: string, owner: string, reqs: seq<RelReq>)
    ensures ReleaseEach(t, ns, owner, reqs).slots == t.slots
    decreases |reqs|
  {
    hide Drop, ScopedPath;
    if reqs != [] {
      assert ReleaseOne(t, ns, owner, reqs[0]).slots == t.slots by { DropSlots(t, ns, owner, reqs[0]); }
      hide ReleaseOne;
      ReleaseEachSlots(ReleaseOne(t, ns, owner, reqs[0]), ns, owner, reqs[1..]);
    }
  }

  lemma DropSlots(t: Tables, ns: string, owner: string, req: RelReq)
    ensures ReleaseOne(t, ns, owner, req).slots == t.slots
  {
  }

  lemma FinishSlots(t: Tables, now: Time, ns: string, args: AcquireArgs)
    ensures Later(t.slots, FinishAcquire(t, now, ns, args).slots, now)
  {
    hide Release, QuantizedIndexExpiry;
    var t1 := RefreshLease(t, now, args.owner, args.ttl);
    ReleaseSlots(t1, ns, args.owner, args.releases);
  }

  lemma PrunedSlots(t: Tables, r: Tables, now: Time)
    requires Pruned(t, r, now)
    ensures r.slots == t.slots
  {
  }

  lemma AcquireSlots(t: Tables, pol: Policies, now: Time, ns: string, alg: LockAlgorithm, args: AcquireArgs)
    requires Good(t, pol) && NoSep(ns) && alg == pol.InForce(ns)
    ensures Later(t.slots, Acquire(t, now, ns, alg, args).1.slots, now)
  {
    hide Good, Onward, Pruned, ReqClear, Solid, FinishAcquire, NoSep;
    if args.requests == [] {
      FinishSlots(t, now, ns, args);
    } else if !HasHeld(args.requests) || t.Alive(args.owner, now) {
      var t0 := BeginAcquire(t, now, args);
      BeginGood(t, pol, now, args);
      assert t0.slots == t.slots;
      GoodCore(t0, pol);
      hide BeginAcquire;
      var (o1, t1) := ValidateAll(t0, now, args.owner, args.token, ns, alg, args.requests);
      AllOk(t0, now, args.owner, args.token, ns, alg, args.requests);
      PrunedGood(t0, t1, now, pol);
      PrunedSlots(t0, t1, now);
      if o1.None? {
        var (o2, t2) := ApplyAll(t1, args.owner, args.token, ns, alg, args.requests);
        ApplyAllOk(t1, pol, args.owner, args.token, ns, alg, args.requests);
        FinishSlots(t2, now, ns, args);
      }
    }
  }

  lemma {:induction false} SweepSlots(t: Tables, q: Queue, now: Time, pol: Policies, es: seq<Entry>, reserved: seq<Want>)
    requires Good(t, pol) && InForceAll(es, pol)
    ensures var r := RunSweep(t, q, now, es, reserved); Later(t.slots, r.t.slots, now) && r.q.slots == q.slots
    decreases |es|
  {
    hide Good, Onward, TryWaiter, NextQueue, NextReserved, NoSep, RunSweep;
    if es == [] {
      EmptySweep(t, q, now, reserved);
    } else {
      var e, rest := es[0], es[1..];
      assert forall x :: x in rest ==> x in es;
      SweepStep(t, q, now, es, reserved);
      var (v, t1) := TryWaiter(t, now, e, reserved);
      TryGood(t, pol, now, e, reserved);
      TrySlots(t, pol, now, e, reserved);
      assert NextQueue(q, now, e, v).slots == q.slots by { DequeueSlots(q, now, e, v); }
      SweepSlots(t1, NextQueue(q, now, e, v), now, pol, rest, NextReserved(reserved, e, v));
    }
  }

  lemma TrySlots(t: Tables, pol: Policies, now: Time, e: Entry, reserved: seq<Want>)
    requires Good(t, pol) && e.policy.algorithm == pol.InForce(e.ns) && NoSep(e.ns)
    ensures Later(t.slots, TryWaiter(t, now, e, reserved).1.slots, now)
  {
    hide Good, Acquire, EntryWants, AnyConflict, NoSep;
    AcquireSlots(t, pol, now, e.ns, e.policy.algorithm, e.args);
  }

  lemma DequeueSlots(q: Queue, now: Time, e: Entry, v: Verdict)
    ensures NextQueue(q, now, e, v).slots == q.slots && Dequeue(q, now, e.owner).slots == q.slots
  {
  }

  lemma EnqueueSlots(q: Queue, now: Time, ns: string, args: AcquireArgs, policy: LockPolicy)
    ensures var r := Enqueue(q, now, ns, args, policy); r.Some? ==> Later(q.slots, r.value.1.slots, now)
  {
    hide PathKeys, QueueUnits, UnitSum, QueueCount, ExpiryAt;
    assert Supersede(q, now, ns, args, policy).2.slots == q.slots;
    hide Supersede;
    var ttl := EntryTtl(args);
    assert QuantizedIndexExpiry(now, ExpiryAt(now, ttl)) >= now;
  }

  // --- sweeps ---

  lemma SweepAllMoves(g: Group, now: Time, fallback: LockAlgorithm)
    requires Sound(g, now, fallback)
    ensures Moves(g, SweepAllOf(g, now).1, now, fallback)
  {
    hide Good, QueueGood, RunSweep, Onward, Scan;
    var pol := PoliciesOf(g, fallback);
    ScanInForce(g.q, now, pol);
    SweepGood(g.t, g.q, now, pol, Scan(g.q, now), []);
    SweepSlots(g.t, g.q, now, pol, Scan(g.q, now), []);
  }

  lemma SweepPathsMoves(g: Group, now: Time, fallback: LockAlgorithm, freed: seq<string>)
    requires Sound(g, now, fallback)
    ensures Moves(g, SweepPathsOf(g, now, freed).1, now, fallback)
  {
    hide Good, QueueGood, RunSweep, Onward, CandidateSeqs, LiveOf;
    var pol := PoliciesOf(g, fallback);
    var es := LiveOf(g.q, now, SortedNats(CandidateSeqs(g.q, now, freed)));
    CandidatesInForce(g.q, now, pol, freed);
    SweepGood(g.t, g.q, now, pol, es, []);
    SweepSlots(g.t, g.q, now, pol, es, []);
  }

  // --- acquire ---

  lemma ParkMoves(g: Group, now: Time, fallback: LockAlgorithm, ns: string, args: AcquireArgs, policy: LockPolicy,
                  path: string, owner: string, reason: Reason)
    requires Sound(g, now, fallback) && policy.algorithm == PoliciesOf(g, fallback).InForce(ns) && NoSep(ns) && args.requests != []
    ensures Moves(g, Park(g, now, ns, args, policy, path, owner, reason).1, now, fallback)
  {
    hide Good, QueueGood, Onward, Enqueue, NoSep;
    EnqueueGood(g.q, now, PoliciesOf(g, fallback), ns, args, policy);
    EnqueueSlots(g.q, now, ns, args, policy);
    GrewRefl(g.t, "");
  }

  lemma SettleMoves(g: Group, now: Time, fallback: LockAlgorithm, ns: string, args: AcquireArgs, wasAlive: bool, token: int)
    requires Sound(g, now, fallback)
    ensures Moves(g, Settle(g, now, ns, args, wasAlive, token).1, now, fallback)
  {
    hide Good, QueueGood, Onward, Dequeue, SweepAllOf, SweepPathsOf, FreedPaths, SameBooks;
    var g1 := g.(q := Dequeue(g.q, now, args.owner));
    DequeueMoves(g, now, fallback, args.owner);
    if !wasAlive && args.requests != [] { SweepAllMoves(g1, now, fallback); }
    else { SweepPathsMoves(g1, now, fallback, FreedPaths(ns, args.releases)); }
    MovesTrans(g, g1, Settle(g, now, ns, args, wasAlive, token).1, now, fallback);
  }

  lemma SettleAnswers(g: Group, now: Time, ns: string, args: AcquireArgs, wasAlive: bool, token: int)
    ensures var response := Settle(g, now, ns, args, wasAlive, token).0; (response.Acquired? || response.AcquiredGranted?) && response.outcome.Ok?
  {
    hide SweepAllOf, SweepPathsOf, Dequeue, FreedPaths;
  }

  lemma DequeueMoves(g: Group, now: Time, fallback: LockAlgorithm, owner: string)
    requires Sound(g, now, fallback)
    ensures Moves(g, g.(q := Dequeue(g.q, now, owner)), now, fallback)
  {
    hide Good, QueueGood, Onward;
    GrewRefl(g.t, "");
    DequeueGood(g.q, now, PoliciesOf(g, fallback), owner);
    assert Dequeue(g.q, now, owner).slots == g.q.slots;
    hide Dequeue;
  }

  lemma AcquireMoves(g: Group, now: Time, fallback: LockAlgorithm, ns: string, args: AcquireArgs, alg: LockAlgorithm)
    requires Sound(g, now, fallback) && alg == PoliciesOf(g, fallback).InForce(ns) && NoSep(ns)
    ensures Moves(g, g.(t := Acquire(g.t, now, ns, alg, args).1), now, fallback)
  {
    hide Good, QueueGood, Onward, Acquire, NoSep;
    AcquireGood(g.t, PoliciesOf(g, fallback), now, ns, alg, args);
    AcquireSlots(g.t, PoliciesOf(g, fallback), now, ns, alg, args);
  }

  lemma MintedMoves(g: Group, now: Time, fallback: LockAlgorithm, ns: string, args: AcquireArgs, policy: LockPolicy)
    requires Sound(g, now, fallback) && policy.algorithm == PoliciesOf(g, fallback).InForce(ns) && NoSep(ns)
    ensures Moves(g, ExecuteMinted(g, now, ns, args, policy).1, now, fallback)
  {
    hide Sound, Moves, Acquire, NoSep, BlockedByEarlier, Park, Settle, PublicPath;
    NothingParked(g, now, ns, args, policy.algorithm);
    match BlockedByEarlier(g.t, g.q, now, ns, args, policy.algorithm)
    case Some((e, path)) => ParkMoves(g, now, fallback, ns, args, policy, PublicPath(e.ns, path), e.owner, Queued);
    case None =>
      var (o, t1) := Acquire(g.t, now, ns, policy.algorithm, args);
      var g1 := g.(t := t1);
      AcquireMoves(g, now, fallback, ns, args, policy.algorithm);
      MovesSound(g, g1, now, fallback);
      match o {
        case Ok(token) =>
          SettleMoves(g1, now, fallback, ns, args, g.t.Alive(args.owner, now), token);
          MovesTrans(g, g1, ExecuteMinted(g, now, ns, args, policy).1, now, fallback);
        case Conflict(path, owner, _, reason) =>
          if reason.IsQueueable() {
            ParkMoves(g1, now, fallback, ns, args, policy, path, owner, reason);
            MovesTrans(g, g1, ExecuteMinted(g, now, ns, args, policy).1, now, fallback);
          }
        case _ =>
      }
  }

  /** An acquire that asks for nothing is granted at once. */
  lemma NothingParked(g: Group, now: Time, ns: string, args: AcquireArgs, alg: LockAlgorithm)
    ensures args.requests == [] ==> BlockedByEarlier(g.t, g.q, now, ns, args, alg).None? && Acquire(g.t, now, ns, alg, args).0.Ok?
  {
    hide LiveEntries, EntryWants;
    if args.requests == [] {
      var ws := Contending(g.t, args.owner, WantsOf(NewPaths(ns, args.requests), alg));
      FirstBlockerIff(LiveEntries(g.q, now), args.owner, OwnerSeq(g.q, now, args.owner), ws);
    }
  }

  lemma MovesSound(g: Group, r: Group, now: Time, fallback: LockAlgorithm)
    requires Moves(g, r, now, fallback)
    ensures Sound(r, now, fallback)
  {
  }

  lemma ExecuteAcquireMoves(g: Group, now: Time, fallback: LockAlgorithm, ns: string, args: AcquireArgs, policy: LockPolicy)
    requires Sound(g, now, fallback) && policy.algorithm == PoliciesOf(g, fallback).InForce(ns) && NoSep(ns)
    ensures Moves(g, ExecuteAcquire(g, now, ns, args, policy).1, now, fallback)
  {
    hide Good, QueueGood, Onward, NoSep, ExecuteMinted, MaxFence;
    var (minted, g1) := MintFence(g, ns, args, policy.algorithm);
    MintedMoves(g1, now, fallback, ns, minted, policy);
  }

  // --- releases and renewal ---

  lemma ReleaseMoves(g: Group, now: Time, fallback: LockAlgorithm, ns: string, owner: string, reqs: seq<RelReq>)
    requires Sound(g, now, fallback)
    ensures Moves(g, g.(t := Release(g.t, ns, owner, reqs)), now, fallback)
  {
    hide Good, QueueGood, Onward, Release;
    ReleaseGood(g.t, PoliciesOf(g, fallback), ns, owner, reqs);
    ReleaseSlots(g.t, ns, owner, reqs);
  }

  lemma ReleaseOwnerMoves(g: Group, now: Time, fallback: LockAlgorithm, owner: string)
    requires Sound(g, now, fallback)
    ensures Moves(g, g.(t := ReleaseOwner(g.t, owner)), now, fallback)
  {
    hide Good, QueueGood, Onward;
    ReleaseOwnerGood(g.t, PoliciesOf(g, fallback), owner);
    assert ReleaseOwner(g.t, owner).slots == g.t.slots;
    hide ReleaseOwner;
  }

  lemma RemoveOwnerMoves(g: Group, now: Time, fallback: LockAlgorithm, owner: string)
    requires Sound(g, now, fallback)
    ensures Moves(g, SweepAllOf(g.(t := ReleaseOwner(g.t, owner), q := Dequeue(g.q, now, owner)), now).1, now, fallback)
  {
    hide Sound, ReleaseOwner, Dequeue, SweepAllOf, Advances, SameBooks;
    var g1 := g.(t := ReleaseOwner(g.t, owner));
    var g2 := g1.(q := Dequeue(g.q, now, owner));
    ReleaseOwnerMoves(g, now, fallback, owner);
    DequeueMoves(g1, now, fallback, owner);
    SweepAllMoves(g2, now, fallback);
    MovesTrans(g, g1, g2, now, fallback);
    MovesTrans(g, g2, SweepAllOf(g2, now).1, now, fallback);
  }

  lemma RenewMoves(g: Group, now: Time, fallback: LockAlgorithm, owner: string, ttl: Time)
    requires Sound(g, now, fallback)
    ensures Moves(g, g.(t := Renew(g.t, now, owner, ttl).1), now, fallback)
  {
    hide Good, QueueGood, Onward, QuantizedIndexExpiry;
    GrewRefl(g.t, "");
    RefreshGood(g.t, PoliciesOf(g, fallback), now, owner, ttl);
  }

  // --- routes ---

  ghost predicate Misrouted(roots: set<string>, ns: string, args: AcquireArgs) {
    (exists q :: q in args.requests && Claimed(roots, ns, q.path)) || (exists q :: q in args.releases && Claimed(roots, ns, q.path))
  }

  lemma MisroutedIff(rows: map<string, LockPolicy>, ns: string, args: AcquireArgs)
    ensures StaleRoute(rows, ns, args) <==> Misrouted(rows.Keys, ns, args)
  {
    hide RootOf, Claimed;
    forall p ensures Claimed(rows.Keys, ns, p) <==> RootOf(rows.Keys, p).Some? && RootOf(rows.Keys, p).value != ns { ClaimedIff(rows.Keys, ns, p); }
  }
}

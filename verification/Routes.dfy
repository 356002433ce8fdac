/**
 Namespaces and routes over whole runs: what a policy change clears, and why no
 hold and no waiter is ever left under a root its path no longer belongs to.
 */
module Routes {
  import opened Ordering
  import opened Paths
  import opened Roots
  import opened Expiry
  import opened LockSpec
  import opened LockInvariant
  import opened ApplyProof
  import opened EngineProof
  import opened AllOrNothing
  import opened AcquireDecision
  import opened AcquireFrame
  import opened QueueSpec
  import opened QueueProof
  import opened SweepProof
  import opened MachineSpec
  import opened MachineProof
  import opened PolicyProof
  import opened GcProof
  import opened Fairness
  import opened Runs
  import opened Theorems

  // --- roots ---

  /** The path lies in the namespace, and no explicit root claims it for another. */
  ghost predicate RoutedTo(roots: set<string>, ns: string, path: string) {
    NamespaceContains(ns, path) && (RootOf(roots, path).Some? ==> RootOf(roots, path).value == ns)
  }

  /** A routed path belongs to its namespace's root if there is one, and to no root otherwise. */
  lemma RoutedRoot(roots: set<string>, ns: string, path: string)
    requires RoutedTo(roots, ns, path)
    ensures RootOf(roots, path) == if ns in roots then Some(ns) else None
  {
    hide NamespaceContains, RootOf;
    RootOfIs(roots, path);
  }

  /** A new root takes over the paths it contains, except those of explicit namespaces nested in it. */
  lemma RootAdded(roots: set<string>, root: string, ns: string, path: string)
    requires RoutedTo(roots, ns, path) && root !in roots && ns != root
    requires NamespaceContains(root, path) ==> ns in roots && NamespaceContains(root, ns)
    ensures RoutedTo(roots + {root}, ns, path)
  {
    hide NamespaceContains, RootOf;
    RoutedRoot(roots, ns, path);
    RootOfIs(roots, path);
    RootOfIs(roots + {root}, path);
    if NamespaceContains(root, path) {
      ContainsPrefix(root, ns);
      RootOfIff(roots + {root}, path, ns);
    } else if ns in roots {
      RootOfIff(roots + {root}, path, ns);
    }
  }

  lemma RootRemoved(roots: set<string>, root: string, ns: string, path: string)
    requires RoutedTo(roots, ns, path) && ns != root
    ensures RoutedTo(roots - {root}, ns, path)
  {
    hide NamespaceContains, RootOf;
    RoutedRoot(roots, ns, path);
    RootOfIs(roots, path);
    RootOfIs(roots - {root}, path);
    if ns in roots { RootOfIff(roots - {root}, path, ns); }
  }

  // --- what is routed ---

  ghost predicate HoldsRouted(t: Tables, roots: set<string>) { forall e :: e in t.own ==> RoutedTo(roots, e.1.ns, e.1.path) }

  ghost predicate ArgsRouted(roots: set<string>, ns: string, args: AcquireArgs) {
    && (forall q :: q in args.requests ==> RoutedTo(roots, ns, q.path))
    && (forall q :: q in args.releases ==> RoutedTo(roots, ns, q.path))
  }

  ghost predicate QueueRouted(q: Queue, now: Time, roots: set<string>) {
    forall e :: Waiting(q, now, e) ==> ArgsRouted(roots, e.ns, e.args)
  }

  ghost predicate GroupRouted(g: Group, now: Time) { HoldsRouted(g.t, g.rows.Keys) && QueueRouted(g.q, now, g.rows.Keys) }

  // --- acquires and sweeps ---

  lemma {:induction false} ApplyRouted(
    t: Tables, owner: string, token: int, ns: string, alg: LockAlgorithm, reqs: seq<LockReq>, roots: set<string>)
    requires HoldsRouted(t, roots) && forall q :: q in reqs ==> RoutedTo(roots, ns, q.path)
    ensures HoldsRouted(ApplyAll(t, owner, token, ns, alg, reqs).1, roots)
    decreases |reqs|
  {
    hide RoutedTo, ScopedPath, IndexPairs;
    if reqs != [] {
      assert reqs[0] in reqs && forall q :: q in reqs[1..] ==> q in reqs;
      ReqFrame(t, owner, token, ns, alg, reqs[0]);
      hide ApplyReq;
      ApplyRouted(ApplyReq(t, owner, token, ns, alg, reqs[0]).1, owner, token, ns, alg, reqs[1..], roots);
    }
  }

  lemma OwnRouted(t: Tables, r: Tables, roots: set<string>)
    requires HoldsRouted(t, roots) && r.own <= t.own
    ensures HoldsRouted(r, roots)
  {
  }

  /** Whatever its outcome, an acquire records only paths it names. */
  lemma AcquireRouted(t: Tables, pol: Policies, now: Time, ns: string, alg: LockAlgorithm, args: AcquireArgs, roots: set<string>)
    requires Good(t, pol) && NoSep(ns) && alg == pol.InForce(ns) && HoldsRouted(t, roots) && ArgsRouted(roots, ns, args)
    ensures HoldsRouted(Acquire(t, now, ns, alg, args).1, roots)
  {
    hide Good, NoSep, HoldsRouted, RoutedTo, FinishAcquire, ValidateAll, ApplyAll, BeginAcquire, Validated;
    if args.requests == [] {
      FinishFrame(t, now, ns, args);
      NothingBegins(t, now, ns, alg, args);
      OwnRouted(t, Acquire(t, now, ns, alg, args).1, roots);
    } else if !HasHeld(args.requests) || t.Alive(args.owner, now) {
      var t0 := BeginAcquire(t, now, args);
      ValidationRemoves(t, pol, now, ns, alg, args);
      var (o1, t1) := ValidateAll(t0, now, args.owner, args.token, ns, alg, args.requests);
      OwnRouted(t, t1, roots);
      ApplyRouted(t1, args.owner, args.token, ns, alg, args.requests, roots);
      var (o2, t2) := ApplyAll(t1, args.owner, args.token, ns, alg, args.requests);
      FinishFrame(t2, now, ns, args);
      OwnRouted(t2, FinishAcquire(t2, now, ns, args), roots);
    }
  }

  lemma {:induction false} SweepRouted(t: Tables, q: Queue, now: Time, pol: Policies, es: seq<Entry>, reserved: seq<Want>, roots: set<string>)
    requires Good(t, pol) && InForceAll(es, pol) && HoldsRouted(t, roots) && forall e :: e in es ==> ArgsRouted(roots, e.ns, e.args)
    ensures HoldsRouted(RunSweep(t, q, now, es, reserved).t, roots)
    decreases |es|
  {
    hide Good, Onward, TryWaiter, NextQueue, NextReserved, NoSep, RunSweep, HoldsRouted, ArgsRouted;
    if es == [] {
      EmptySweep(t, q, now, reserved);
    } else {
      var e, rest := es[0], es[1..];
      assert e in es && forall x :: x in rest ==> x in es;
      SweepStep(t, q, now, es, reserved);
      var (v, t1) := TryWaiter(t, now, e, reserved);
      TryGood(t, pol, now, e, reserved);
      TryRouted(t, pol, now, e, reserved, roots);
      SweepRouted(t1, NextQueue(q, now, e, v), now, pol, rest, NextReserved(reserved, e, v), roots);
    }
  }

  lemma TryRouted(t: Tables, pol: Policies, now: Time, e: Entry, reserved: seq<Want>, roots: set<string>)
    requires Good(t, pol) && e.policy.algorithm == pol.InForce(e.ns) && NoSep(e.ns) && HoldsRouted(t, roots) && ArgsRouted(roots, e.ns, e.args)
    ensures HoldsRouted(TryWaiter(t, now, e, reserved).1, roots)
  {
    hide Good, Acquire, EntryWants, AnyConflict, NoSep, HoldsRouted, ArgsRouted;
    AcquireRouted(t, pol, now, e.ns, e.policy.algorithm, e.args, roots);
  }

  lemma ShrunkRouted(q: Queue, r: Queue, now: Time, roots: set<string>)
    requires QueueRouted(q, now, roots) && Shrunk(q, r, now)
    ensures QueueRouted(r, now, roots)
  {
    hide ArgsRouted;
  }

  lemma SweepAllRouted(g: Group, now: Time, fallback: LockAlgorithm)
    requires Sound(g, now, fallback) && GroupRouted(g, now)
    ensures GroupRouted(SweepAllOf(g, now).1, now)
  {
    hide Good, RunSweep, Onward, Scan, HoldsRouted, ArgsRouted, LiveEntries, PathKeys, UnitSum, NoSep;
    var pol := PoliciesOf(g, fallback);
    ScanInForce(g.q, now, pol);
    ScanComplete(g.q, now);
    LiveEntriesFacts(g.q, now);
    hide QueueGood;
    SweepGood(g.t, g.q, now, pol, Scan(g.q, now), []);
    SweepRouted(g.t, g.q, now, pol, Scan(g.q, now), [], g.rows.Keys);
    ShrunkRouted(g.q, SweepAllOf(g, now).1.q, now, g.rows.Keys);
  }

  lemma SweepPathsRouted(g: Group, now: Time, fallback: LockAlgorithm, freed: seq<string>)
    requires Sound(g, now, fallback) && GroupRouted(g, now)
    ensures GroupRouted(SweepPathsOf(g, now, freed).1, now)
  {
    hide Good, QueueGood, RunSweep, Onward, CandidateSeqs, LiveOf, HoldsRouted, ArgsRouted;
    var pol := PoliciesOf(g, fallback);
    var es := LiveOf(g.q, now, SortedNats(CandidateSeqs(g.q, now, freed)));
    CandidatesInForce(g.q, now, pol, freed);
    CandidatesWait(g.q, now, pol, freed);
    SweepGood(g.t, g.q, now, pol, es, []);
    SweepRouted(g.t, g.q, now, pol, es, [], g.rows.Keys);
    ShrunkRouted(g.q, SweepPathsOf(g, now, freed).1.q, now, g.rows.Keys);
  }

  // --- the acquire command ---

  lemma EnqueueRouted(q: Queue, now: Time, ns: string, args: AcquireArgs, policy: LockPolicy, roots: set<string>)
    requires QueueRouted(q, now, roots) && ArgsRouted(roots, ns, args)
    ensures var r := Enqueue(q, now, ns, args, policy); r.Some? ==> QueueRouted(r.value.1, now, roots)
  {
    hide ArgsRouted, PathKeys, QueueUnits, UnitSum, QueueCount, ExpiryAt;
    var r := Enqueue(q, now, ns, args, policy);
    if r.Some? {
      var (oldUnits, s, q1) := Supersede(q, now, ns, args, policy);
      assert forall x :: x in q1.entries ==> x in q.entries && q1.entries[x] == q.entries[x];
      forall e | Waiting(r.value.1, now, e) ensures ArgsRouted(roots, e.ns, e.args) {
        if e.seqno != s { assert Waiting(q, now, e); }
      }
    }
  }

  lemma ParkRouted(g: Group, now: Time, ns: string, args: AcquireArgs, policy: LockPolicy, path: string, owner: string, reason: Reason)
    requires GroupRouted(g, now) && ArgsRouted(g.rows.Keys, ns, args)
    ensures GroupRouted(Park(g, now, ns, args, policy, path, owner, reason).1, now)
  {
    hide HoldsRouted, ArgsRouted, QueueRouted, Enqueue;
    EnqueueRouted(g.q, now, ns, args, policy, g.rows.Keys);
  }

  lemma DequeueRouted(g: Group, now: Time, fallback: LockAlgorithm, owner: string)
    requires Sound(g, now, fallback) && GroupRouted(g, now)
    ensures GroupRouted(g.(q := Dequeue(g.q, now, owner)), now)
  {
    hide Good, QueueGood, Dequeue, HoldsRouted;
    DequeueShrinks(g.q, now, PoliciesOf(g, fallback), owner);
    ShrunkRouted(g.q, Dequeue(g.q, now, owner), now, g.rows.Keys);
  }

  lemma SettleRouted(g: Group, now: Time, fallback: LockAlgorithm, ns: string, args: AcquireArgs, wasAlive: bool, token: int)
    requires Sound(g, now, fallback) && GroupRouted(g, now)
    ensures GroupRouted(Settle(g, now, ns, args, wasAlive, token).1, now)
  {
    hide Sound, GroupRouted, Dequeue, SweepAllOf, SweepPathsOf, FreedPaths, SameBooks, Advances;
    var g1 := g.(q := Dequeue(g.q, now, args.owner));
    DequeueMoves(g, now, fallback, args.owner);
    DequeueRouted(g, now, fallback, args.owner);
    SweepAllRouted(g1, now, fallback);
    SweepPathsRouted(g1, now, fallback, FreedPaths(ns, args.releases));
  }

  lemma MintedRouted(g: Group, now: Time, fallback: LockAlgorithm, ns: string, args: AcquireArgs, policy: LockPolicy)
    requires Sound(g, now, fallback) && policy.algorithm == PoliciesOf(g, fallback).InForce(ns) && NoSep(ns)
    requires GroupRouted(g, now) && ArgsRouted(g.rows.Keys, ns, args)
    ensures GroupRouted(ExecuteMinted(g, now, ns, args, policy).1, now)
  {
    hide Good, QueueGood, HoldsRouted, QueueRouted, ArgsRouted, Acquire, NoSep, BlockedByEarlier, Park, Settle, PublicPath, SameBooks, Advances;
    match BlockedByEarlier(g.t, g.q, now, ns, args, policy.algorithm)
    case Some((e, path)) => ParkRouted(g, now, ns, args, policy, PublicPath(e.ns, path), e.owner, Queued);
    case None =>
      var (o, t1) := Acquire(g.t, now, ns, policy.algorithm, args);
      var g1 := g.(t := t1);
      AcquireMoves(g, now, fallback, ns, args, policy.algorithm);
      AcquireRouted(g.t, PoliciesOf(g, fallback), now, ns, policy.algorithm, args, g.rows.Keys);
      match o {
        case Ok(token) => SettleRouted(g1, now, fallback, ns, args, g.t.Alive(args.owner, now), token);
        case Conflict(path, owner, _, reason) => ParkRouted(g1, now, ns, args, policy, path, owner, reason);
        case _ =>
      }
  }

  /** The router resolves every path an acquire names to one namespace, which contains them all. */
  predicate Inside(ns: string, args: AcquireArgs) {
    && (forall q :: q in args.requests ==> NamespaceContains(ns, q.path))
    && (forall q :: q in args.releases ==> NamespaceContains(ns, q.path))
  }

  lemma FreshRoute(rows: map<string, LockPolicy>, ns: string, args: AcquireArgs)
    requires Inside(ns, args) && !StaleRoute(rows, ns, args)
    ensures ArgsRouted(rows.Keys, ns, args)
  {
    hide NamespaceContains, RootOf;
  }

  lemma ExecuteAcquireRouted(g: Group, now: Time, fallback: LockAlgorithm, ns: string, args: AcquireArgs, policy: LockPolicy)
    requires Sound(g, now, fallback) && policy.algorithm == PoliciesOf(g, fallback).InForce(ns) && NoSep(ns)
    requires GroupRouted(g, now) && Inside(ns, args) && !StaleRoute(g.rows, ns, args)
    ensures GroupRouted(ExecuteAcquire(g, now, ns, args, policy).1, now)
    ensures ExecuteAcquire(g, now, ns, args, policy).1.rows == g.rows
  {
    hide Good, QueueGood, HoldsRouted, QueueRouted, RoutedTo, ExecuteMinted, NoSep, StaleRoute, Inside, MaxFence, NeedsFence;
    FreshRoute(g.rows, ns, args);
    var (minted, g1) := MintFence(g, ns, args, policy.algorithm);
    MintedRouted(g1, now, fallback, ns, minted, policy);
    MintedRows(g1, now, ns, minted, policy);
  }

  lemma MintedRows(g: Group, now: Time, ns: string, args: AcquireArgs, policy: LockPolicy)
    ensures ExecuteMinted(g, now, ns, args, policy).1.rows == g.rows
  {
    hide BlockedByEarlier, Acquire, Enqueue, Dequeue, GrantSweep, GrantSweepForPaths, FreedPaths, PublicPath;
  }

  // --- garbage collection ---

  /** Records only went away. */
  ghost predicate Fewer(g: Group, r: Group) {
    && r.t.own <= g.t.own && r.rows == g.rows
    && forall x :: x in r.q.entries ==> x in g.q.entries && r.q.entries[x] == g.q.entries[x]
  }

  lemma ReclaimRecordFewer(g: Group, now: Time, ref: Ref)
    ensures Fewer(g, ReclaimRecord(g, now, ref).1)
  {
    hide PathKeys, QueueUnits, UnitSum, QueueCount, Drop;
  }

  lemma {:induction false} ReclaimFewer(g: Group, now: Time, slots: seq<Slot>)
    ensures Fewer(g, Reclaim(g, now, slots).1)
    decreases |slots|
  {
    hide ReclaimRecord;
    if slots != [] {
      ReclaimRecordFewer(g, now, slots[0].ref);
      ReclaimFewer(DropSlot(ReclaimRecord(g, now, slots[0].ref).1, slots[0]), now, slots[1..]);
    }
  }

  lemma FewerRouted(g: Group, r: Group, now: Time)
    requires Fewer(g, r) && GroupRouted(g, now)
    ensures GroupRouted(r, now)
  {
    hide RoutedTo, ArgsRouted;
    forall e | Waiting(r.q, now, e) ensures ArgsRouted(r.rows.Keys, e.ns, e.args) { assert Waiting(g.q, now, e); }
  }

  lemma GcRouted(g: Group, now: Time, fallback: LockAlgorithm, batch: nat)
    requires Kept(g, now, fallback) && GroupRouted(g, now)
    ensures GroupRouted(GcSweep(g, now, batch).1, now)
  {
    hide Sound, SeenFiled, Onward, Reclaim, BatchOf, GroupRouted, SweepAllOf, GcSweep, Spares, Reclaimed;
    var h := AfterBatch(g, now, batch);
    AfterBatchKept(g, now, fallback, batch);
    ReclaimFewer(g, now, BatchOf(g, now, batch));
    FewerRouted(g, h, now);
    SweepAllRouted(h, now, fallback);
    GcFinal(g, now, batch);
  }

  // --- policy changes ---

  /** Clearing removes from the queue exactly the live waiters it selects. */
  lemma ClearQueueExact(q: Queue, now: Time, pol: Policies, ns: string, legacy: bool, preserved: set<string>, e: Entry)
    requires QueueGood(q, now, pol)
    ensures Waiting(ClearQueue(q, now, ClearedEntries(LiveEntries(q, now), ns, legacy, preserved)), now, e) <==>
            Waiting(q, now, e) && !EntryCleared(e, ns, legacy, preserved)
  {
    hide ClearQueue, LiveEntries, PathKeys, UnitSum, EntryCleared;
    var es := ClearedEntries(LiveEntries(q, now), ns, legacy, preserved);
    ClearQueueGood(q, now, pol, es);
    LiveEntriesFacts(q, now);
    hide QueueGood;
    if Waiting(q, now, e) && !EntryCleared(e, ns, legacy, preserved) {
      forall c | c in es ensures c.owner != e.owner { OneWaiterEach(q, now, pol, c, e); }
      ClearQueueLocal(q, now, pol, es, e);
    }
  }

  lemma {:induction false} ClearQueueLocal(q: Queue, now: Time, pol: Policies, es: seq<Entry>, w: Entry)
    requires QueueGood(q, now, pol) && Waiting(q, now, w) && forall e :: e in es ==> e.owner != w.owner
    ensures Waiting(ClearQueue(q, now, es), now, w)
    decreases |es|
  {
    hide QueueGood, Dequeue, Waiting;
    if es != [] {
      assert es[0] in es && forall e :: e in es[1..] ==> e in es;
      DequeueGood(q, now, pol, es[0].owner);
      DequeueLocal(q, now, pol, es[0].owner, w);
      ClearQueueLocal(Dequeue(q, now, es[0].owner), now, pol, es[1..], w);
    }
  }

  lemma ClearOwn(t: Tables, gone: set<(string, Member)>)
    ensures ClearHolds(t, gone).own == t.own - gone
  {
  }

  /** One path of a record that a new root's clearing spares. */
  lemma SparedPath(rows: map<string, LockPolicy>, root: string, policy: LockPolicy, ns: string, path: string)
    requires RoutedTo(rows.Keys, ns, path) && ns != root
    requires root !in rows && NamespaceContains(root, path) ==> ns in Preserved(rows[root := policy], root, true)
    ensures RoutedTo(rows[root := policy].Keys, ns, path)
  {
    hide RoutedTo, NamespaceContains;
    assert rows[root := policy].Keys == rows.Keys + {root};
    if root in rows { assert rows[root := policy].Keys == rows.Keys; }
    else { RootAdded(rows.Keys, root, ns, path); }
  }

  lemma SetRouted(g: Group, now: Time, fallback: LockAlgorithm, ns: string, alg: LockAlgorithm)
    requires Sound(g, now, fallback) && GroupRouted(g, now)
    ensures GroupRouted(SetPolicy(g, now, ns, alg).1, now)
  {
    hide Good, QueueGood, RoutedTo, NamespaceContains, ClearHolds, ClearQueue, LiveEntries, ClearedEntries, SortedStrings, EntryCleared;
    var r := SetPolicy(g, now, ns, alg).1;
    if ns in g.rows && g.rows[ns].algorithm == alg {
      assert r.rows.Keys == g.rows.Keys;
    } else {
      var epoch := if ns in g.rows then g.rows[ns].epoch else 0;
      var policy := LockPolicy(alg, SaturatingEpoch(epoch));
      var rows := g.rows[ns := policy];
      var legacy := ns !in g.rows;
      var preserved := Preserved(rows, ns, legacy);
      ClearOwn(g.t, GoneMembers(g.t.own, ns, legacy, preserved));
      forall e | e in r.t.own ensures RoutedTo(rows.Keys, e.1.ns, e.1.path) {
        SparedPath(g.rows, ns, policy, e.1.ns, e.1.path);
      }
      forall e | Waiting(r.q, now, e) ensures ArgsRouted(rows.Keys, e.ns, e.args) {
        ClearQueueExact(g.q, now, PoliciesOf(g, fallback), ns, legacy, preserved, e);
        SparedArgs(g.rows, ns, policy, e);
      }
    }
  }

  lemma SparedArgs(rows: map<string, LockPolicy>, root: string, policy: LockPolicy, e: Entry)
    requires ArgsRouted(rows.Keys, e.ns, e.args)
    requires !EntryCleared(e, root, root !in rows, Preserved(rows[root := policy], root, root !in rows))
    ensures ArgsRouted(rows[root := policy].Keys, e.ns, e.args)
  {
    hide RoutedTo, NamespaceContains;
    forall q | q in e.args.requests ensures RoutedTo(rows[root := policy].Keys, e.ns, q.path) { SparedPath(rows, root, policy, e.ns, q.path); }
    forall q | q in e.args.releases ensures RoutedTo(rows[root := policy].Keys, e.ns, q.path) { SparedPath(rows, root, policy, e.ns, q.path); }
  }

  lemma DeleteRouted(g: Group, now: Time, fallback: LockAlgorithm, ns: string)
    requires Sound(g, now, fallback) && GroupRouted(g, now)
    ensures GroupRouted(DeletePolicy(g, now, ns).1, now)
  {
    hide Good, QueueGood, RoutedTo, NamespaceContains, ClearHolds, ClearQueue, LiveEntries, ClearedEntries, SortedStrings;
    var r := DeletePolicy(g, now, ns).1;
    assert (g.rows - {ns}).Keys == g.rows.Keys - {ns};
    if ns !in g.rows {
      assert g.rows - {ns} == g.rows;
    } else {
      ClearOwn(g.t, GoneMembers(g.t.own, ns, false, {}));
      forall e | e in r.t.own ensures RoutedTo(r.rows.Keys, e.1.ns, e.1.path) { RootRemoved(g.rows.Keys, ns, e.1.ns, e.1.path); }
      forall e | Waiting(r.q, now, e) ensures ArgsRouted(r.rows.Keys, e.ns, e.args) {
        ClearQueueExact(g.q, now, PoliciesOf(g, fallback), ns, false, {}, e);
        forall q | q in e.args.requests ensures RoutedTo(r.rows.Keys, e.ns, q.path) { RootRemoved(g.rows.Keys, ns, e.ns, q.path); }
        forall q | q in e.args.releases ensures RoutedTo(r.rows.Keys, e.ns, q.path) { RootRemoved(g.rows.Keys, ns, e.ns, q.path); }
      }
    }
  }

  // --- commands and runs ---

  lemma ReleaseRouted(g: Group, now: Time, ns: string, owner: string, reqs: seq<RelReq>)
    requires GroupRouted(g, now)
    ensures GroupRouted(g.(t := Release(g.t, ns, owner, reqs)), now)
  {
    hide HoldsRouted, QueueRouted, ReleaseEach;
    ReleaseFrame(g.t, ns, owner, reqs);
    OwnRouted(g.t, Release(g.t, ns, owner, reqs), g.rows.Keys);
  }

  lemma RemoveOwnerRouted(g: Group, now: Time, fallback: LockAlgorithm, owner: string)
    requires Sound(g, now, fallback) && GroupRouted(g, now)
    ensures GroupRouted(SweepAllOf(g.(t := ReleaseOwner(g.t, owner), q := Dequeue(g.q, now, owner)), now).1, now)
  {
    hide Good, QueueGood, HoldsRouted, QueueRouted, SweepAllOf, Dequeue, Onward;
    var g1 := g.(t := ReleaseOwner(g.t, owner));
    ReleaseOwnerGood(g.t, PoliciesOf(g, fallback), owner);
    OwnRouted(g.t, g1.t, g.rows.Keys);
    DequeueRouted(g1, now, fallback, owner);
    DequeueGood(g.q, now, PoliciesOf(g, fallback), owner);
    SweepAllRouted(g1.(q := Dequeue(g.q, now, owner)), now, fallback);
  }

  lemma ExecuteRouted(g: Group, now: Time, fallback: LockAlgorithm, identified: bool, op: Op)
    requires Kept(g, now, fallback) && GroupRouted(g, now)
    requires op.AcquireOp? ==> identified && NoSep(op.ns) && Inside(op.ns, op.args)
    ensures GroupRouted(Execute(g, now, fallback, identified, op).1, now)
  {
    hide Sound, GroupRouted, SeenFiled, NoSep, Inside, Release, ReleaseOwner, Dequeue, SweepAllOf, SweepPathsOf, ExecuteAcquire,
         SetPolicy, DeletePolicy, StaleRoute, GcSweep, Renew, FreedPaths, Advances, SameBooks;
    match op
    case ReleaseOp(ns, owner, reqs) =>
      ReleaseMoves(g, now, fallback, ns, owner, reqs);
      ReleaseRouted(g, now, ns, owner, reqs);
      SweepPathsRouted(g.(t := Release(g.t, ns, owner, reqs)), now, fallback, FreedPaths(ns, reqs));
    case ReleaseAllOp(owner) => RemoveOwnerRouted(g, now, fallback, owner);
    case ForceReleaseOp(victim) => RemoveOwnerRouted(g, now, fallback, victim);
    case RenewOp(owner, ttl) => SameRecords(g, g.(t := Renew(g.t, now, owner, ttl).1), now) by { RenewOwn(g.t, now, owner, ttl); }
    case GcSweepOp(batch) => GcRouted(g, now, fallback, batch);
    case IncrFenceOp => SameRecords(g, g.(counter := SaturatingNext(g.counter)), now);
    case NoopOp =>
    case SetPolicyOp(ns, alg) => SetRouted(g, now, fallback, ns, alg);
    case DeletePolicyOp(ns) => DeleteRouted(g, now, fallback, ns);
    case AcquireOp(ns, policy, args) =>
      if !StaleRoute(g.rows, ns, args) && PoliciesOf(g, fallback).Record(ns) == policy {
        ExecuteAcquireRouted(g, now, fallback, ns, args, policy);
      }
  }

  lemma RenewOwn(t: Tables, now: Time, owner: string, ttl: Time)
    ensures Renew(t, now, owner, ttl).1.own == t.own
  {
  }

  lemma SameRecords(g: Group, r: Group, now: Time)
    requires GroupRouted(g, now) && r.t.own == g.t.own && r.q == g.q && r.rows == g.rows
    ensures GroupRouted(r, now)
  {
    hide RoutedTo;
  }

  lemma TimeRouted(g: Group, now: Time)
    requires GroupRouted(g, g.clock) && g.clock <= now
    ensures GroupRouted(g, now)
  {
    hide HoldsRouted, ArgsRouted;
    forall e | Waiting(g.q, now, e) ensures Waiting(g.q, g.clock, e) { }
  }

  /** Acquires are stamped, and routed by a namespace that contains every path they name. */
  predicate Routed(cmd: Command) { Stamped(cmd) && (cmd.op.AcquireOp? ==> Inside(cmd.op.ns, cmd.op.args)) }

  predicate AllRouted(log: seq<Command>) { forall c :: c in log ==> Routed(c) }

  lemma CommandRouted(cfg: Config, g: Group, cmd: Command)
    requires Inv(g, cfg.fallback) && GroupRouted(g, g.clock) && Routed(cmd)
    ensures var r := Apply(cfg, g, cmd).1; GroupRouted(r, r.clock)
  {
    hide Kept, Behind, GroupRouted, Execute, Inside;
    var now := EffectiveTime(g, cmd);
    if Recall(g, now, cmd.id).None? {
      KeptLater(g, now, cfg.fallback);
      TimeRouted(g, now);
      ExecuteRouted(g, now, cfg.fallback, cmd.id.Some?, cmd.op);
      NoopExecutes(g, now, cfg.fallback, cmd.id.Some?);
      var g1 := Execute(g, now, cfg.fallback, cmd.id.Some?, cmd.op).1;
      var r := Apply(cfg, g, cmd).1;
      if cmd.op.NoopOp? { SameRecords(g, r, g.clock); }
      else if r.t == g.t && r.q == g.q && r.rows == g.rows { SameRecords(g, r, now); }
      else { SameRecords(g1, r, now); }
    }
  }

  lemma {:induction false} RunRouted(cfg: Config, g: Group, log: seq<Command>)
    requires Inv(g, cfg.fallback) && GroupRouted(g, g.clock) && AllRouted(log)
    ensures var r := Run(cfg, g, log); GroupRouted(r, r.clock)
    decreases |log|
  {
    hide Inv, GroupRouted, Apply, Onward, AllSlots, Routed;
    if log != [] {
      assert log[0] in log && forall c :: c in log[1..] ==> c in log;
      StampedToo(log[0]);
      ApplyProgress(cfg, g, log[0]);
      CommandRouted(cfg, g, log[0]);
      RunRouted(cfg, Apply(cfg, g, log[0]).1, log[1..]);
    }
  }

  lemma StampedToo(cmd: Command)
    requires Routed(cmd)
    ensures Stamped(cmd)
  {
  }

  /**
   After every run, whatever roots were added or removed on the way, every hold-set
   member and every path of a live waiter belongs to the root it is filed under, or
   to no root at all.
   */
  lemma RoutesAlways(cfg: Config, log: seq<Command>)
    requires AllRouted(log)
    ensures var g := Run(cfg, EMPTY_GROUP, log);
            && (forall e :: e in g.t.own ==> RootOf(g.rows.Keys, e.1.path) == if e.1.ns in g.rows then Some(e.1.ns) else None)
            && (forall w, q :: Waiting(g.q, g.clock, w) && q in w.args.requests ==>
                  RootOf(g.rows.Keys, q.path) == if w.ns in g.rows then Some(w.ns) else None)
  {
    hide Inv, Run, RootOf;
    EmptyInv(cfg.fallback);
    var g := Run(cfg, EMPTY_GROUP, log);
    RunRouted(cfg, EMPTY_GROUP, log);
    forall e | e in g.t.own ensures RootOf(g.rows.Keys, e.1.path) == if e.1.ns in g.rows then Some(e.1.ns) else None {
      RoutedRoot(g.rows.Keys, e.1.ns, e.1.path);
    }
    forall w, q | Waiting(g.q, g.clock, w) && q in w.args.requests
      ensures RootOf(g.rows.Keys, q.path) == if w.ns in g.rows then Some(w.ns) else None
    {
      assert ArgsRouted(g.rows.Keys, w.ns, w.args);
      RoutedRoot(g.rows.Keys, w.ns, q.path);
    }
  }

  /** The algorithm of the longest explicit root that contains a path, or the fallback. */
  function Governing(rows: map<string, LockPolicy>, fallback: LockAlgorithm, path: string): LockAlgorithm {
    match RootOf(rows.Keys, path)
    case Some(r) => if r in rows then rows[r].algorithm else fallback
    case None => fallback
  }

  /** After every run each stored hold, and each live waiter, is governed by its public path alone: by the longest explicit root above it. */
  lemma RootsGovern(cfg: Config, log: seq<Command>)
    requires AllRouted(log)
    ensures var g := Run(cfg, EMPTY_GROUP, log);
            && (forall e :: e in g.t.own && Hold(e.0, e.1.mode, e.1.Key()) in g.t.alg ==>
                  g.t.alg[Hold(e.0, e.1.mode, e.1.Key())] == Governing(g.rows, cfg.fallback, e.1.path))
            && (forall w, q :: Waiting(g.q, g.clock, w) && q in w.args.requests ==>
                  w.policy.algorithm == Governing(g.rows, cfg.fallback, q.path))
  {
    hide Run, RootOf, NamespaceOf, Inv, SeenFiled, Behind, Core, Exclusive, SemaphoreBounded, Fenced, LeasesFiled, LiveEntries;
    forall c | c in log ensures Stamped(c) { StampedToo(c); }
    var g := Run(cfg, EMPTY_GROUP, log);
    RoutesAlways(cfg, log);
    OneAlgorithmAlways(cfg, log);
    ReachableSound(cfg, log);
    forall e | e in g.t.own && Hold(e.0, e.1.mode, e.1.Key()) in g.t.alg
      ensures g.t.alg[Hold(e.0, e.1.mode, e.1.Key())] == Governing(g.rows, cfg.fallback, e.1.path)
    {
      NamespaceOfScoped(e.1.ns, e.1.path);
    }
    forall w, q | Waiting(g.q, g.clock, w) && q in w.args.requests
      ensures w.policy.algorithm == Governing(g.rows, cfg.fallback, q.path)
    {
      assert w in LiveEntries(g.q, g.clock);
    }
  }

  lemma ReachableSound(cfg: Config, log: seq<Command>)
    requires AllStamped(log)
    ensures var g := Run(cfg, EMPTY_GROUP, log);
            && (forall e :: e in g.t.own ==> NoSep(e.1.ns))
            && forall e :: e in LiveEntries(g.q, g.clock) <==> Waiting(g.q, g.clock, e)
  {
    hide Run, LiveEntries, Core, Exclusive, OneAlgorithm, SemaphoreBounded, Fenced, LeasesFiled, PathKeys, UnitSum, SeenFiled, Behind;
    ReachableInv(cfg, log);
    var g := Run(cfg, EMPTY_GROUP, log);
    LiveEntriesFacts(g.q, g.clock);
  }
}

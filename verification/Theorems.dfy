/** The guarantees of a lock group, over every log of stamped commands from an empty group. */
module Theorems {
  import opened Ordering
  import opened Paths
  import opened Expiry
  import opened LockSpec
  import opened LockInvariant
  import opened ApplyProof
  import opened QueueSpec
  import opened QueueProof
  import opened SweepProof
  import opened MachineSpec
  import opened MachineProof
  import opened GcProof
  import opened Runs

  // --- safety at every point of every run ---

  lemma ReachableInv(cfg: Config, log: seq<Command>)
    requires AllStamped(log)
    ensures Inv(Run(cfg, EMPTY_GROUP, log), cfg.fallback)
  {
    hide Inv, Onward;
    EmptyInv(cfg.fallback);
    RunProgress(cfg, EMPTY_GROUP, log);
  }

  /** No two owners ever have stored holds that conflict, and the subtree indexes are exact. */
  lemma ExclusionAlways(cfg: Config, log: seq<Command>)
    requires AllStamped(log)
    ensures var g := Run(cfg, EMPTY_GROUP, log); MutualExclusion(g.t) && IndexExact(g.t) && AlgExact(g.t)
  {
    hide MutualExclusion, QueueGood, SeenFiled, Behind;
    ReachableInv(cfg, log);
    var g := Run(cfg, EMPTY_GROUP, log);
    GoodExcludes(g.t, PoliciesOf(g, cfg.fallback));
  }

  /** Every stored hold and every live waiter of a namespace carries the algorithm now in force there. */
  lemma OneAlgorithmAlways(cfg: Config, log: seq<Command>)
    requires AllStamped(log)
    ensures var g := Run(cfg, EMPTY_GROUP, log);
            && (forall h :: h in g.t.alg ==> g.t.alg[h] == PoliciesOf(g, cfg.fallback).InForce(NamespaceOf(h.key)))
            && (forall e :: e in LiveEntries(g.q, g.clock) ==> e.policy.algorithm == PoliciesOf(g, cfg.fallback).InForce(e.ns))
  {
    hide LiveEntries, NamespaceOf, NoSep, SeenFiled, Behind, Core, Exclusive, OwnCovers, SemaphoreBounded, Fenced, LeasesFiled,
         PathKeys, UnitSum, Covered;
    ReachableInv(cfg, log);
    LiveEntriesFacts(Run(cfg, EMPTY_GROUP, log).q, Run(cfg, EMPTY_GROUP, log).clock);
  }

  /** No path ever has more stored semaphore holders, dead ones included, than its capacity. */
  lemma SemaphoreBoundAlways(cfg: Config, log: seq<Command>, key: string)
    requires AllStamped(log)
    ensures var t := Run(cfg, EMPTY_GROUP, log).t;
            MembersAt(t.sem, key) != {} ==> key in t.cap && |MembersAt(t.sem, key)| <= t.cap[key]
  {
    hide Core, Exclusive, OneAlgorithm, OwnCovers, Fenced, LeasesFiled, QueueGood, SeenFiled, Behind;
    ReachableInv(cfg, log);
    var t := Run(cfg, EMPTY_GROUP, log).t;
    if MembersAt(t.sem, key) != {} {
      var o :| o in MembersAt(t.sem, key);
      assert (key, o) in t.sem;
      assert HasMember(t.sem, key);
    }
  }

  /** A path's capacity, once set, is the same in every later state. */
  lemma CapacityFixed(cfg: Config, g: Group, log: seq<Command>, key: string)
    requires Inv(g, cfg.fallback) && AllStamped(log) && key in g.t.cap
    ensures key in Run(cfg, g, log).t.cap && Run(cfg, g, log).t.cap[key] == g.t.cap[key]
  {
    hide Inv;
    RunProgress(cfg, g, log);
  }

  /** The unit counter is conserved, never over the cap, and no scan misses a live waiter. */
  lemma QueueAccountingAlways(cfg: Config, log: seq<Command>)
    requires AllStamped(log)
    ensures var g := Run(cfg, EMPTY_GROUP, log);
            && QueueCount(g.q) == UnitSum(g.q.entries) <= QUEUE_SCAN_LIMIT
            && (forall e :: e in Scan(g.q, g.clock) <==> Waiting(g.q, g.clock, e)) && InOrder(Scan(g.q, g.clock))
  {
    hide Good, SeenFiled, Behind, UnitSum, PathKeys, Indexed, OwnersPoint, NoOrphans, QueueFiled, Current, Scan, LiveEntries;
    ReachableInv(cfg, log);
    var g := Run(cfg, EMPTY_GROUP, log);
    assert g.q.entries == map[] ==> UnitSum(g.q.entries) == 0 by { NoEntries(g.q.entries); }
    ScanComplete(g.q, g.clock);
    LiveEntriesFacts(g.q, g.clock);
  }

  lemma NoEntries(m: map<nat, (Entry, Time)>)
    ensures m == map[] ==> UnitSum(m) == 0
  {
  }

  // --- fencing over history ---

  lemma {:induction false} AssertReads(t: Tables, ns: string, owner: string, token: int, paths: seq<string>, path: string)
    requires path in paths && AssertPaths(t, ns, owner, token, paths) == AssertOk
    ensures var key := ScopedPath(ns, path); t.Writes(owner, key) && key in t.fence && t.fence[key] == token
  {
    hide ScopedPath;
    if paths[0] != path {
      assert path in paths[1..];
      AssertReads(t, ns, owner, token, paths[1..], path);
    }
  }

  /**
   Once a path has left its writer, by release, lapse or a grant to another, no
   assertion with the old token succeeds in any continuation, whoever makes it and
   at whatever time, even if the same owner is granted the path again.
   */
  lemma SupersededTokenDead(
    cfg: Config, g: Group, during: seq<Command>, after: seq<Command>, writer: string, ns: string, path: string,
    now: Time, owner: string, paths: seq<string>)
    requires Inv(g, cfg.fallback) && AllStamped(during) && AllStamped(after) && path in paths
    requires g.t.Writes(writer, ScopedPath(ns, path)) && !Run(cfg, g, during).t.Writes(writer, ScopedPath(ns, path))
    ensures var key := ScopedPath(ns, path);
            && key in g.t.fence
            && AssertFencing(Run(cfg, Run(cfg, g, during), after).t, now, ns, owner, g.t.fence[key], paths) != AssertOk
  {
    hide Core, Exclusive, OneAlgorithm, OwnCovers, SemaphoreBounded, LeasesFiled, QueueGood, SeenFiled, Behind, ScopedPath, Run, AssertPaths;
    var key := ScopedPath(ns, path);
    var g1 := Run(cfg, g, during);
    var g2 := Run(cfg, g1, after);
    RunProgress(cfg, g, during);
    RunProgress(cfg, g1, after);
    if AssertPaths(g2.t, ns, owner, g.t.fence[key], paths) == AssertOk {
      AssertReads(g2.t, ns, owner, g.t.fence[key], paths, path);
      assert false;
    }
  }

  // --- refused commands ---

  /** The stored clock plays no part in what an operation does. */
  lemma ClockFree(g: Group, x: Time, now: Time, fallback: LockAlgorithm, identified: bool, op: Op)
    ensures var (response, r) := Execute(g, now, fallback, identified, op);
            Execute(g.(clock := x), now, fallback, identified, op) == (response, r.(clock := x))
  {
    hide GrantSweep, GrantSweepForPaths, Release, ReleaseOwner, Dequeue, Renew, FreedPaths, ExecuteAcquire, SetPolicy, DeletePolicy, GcSweep, StaleRoute;
    AcquireClockFree(g, x, now, op);
    PolicyClockFree(g, x, now, op);
    GcClockFree(g, x, now, op);
  }

  lemma AcquireClockFree(g: Group, x: Time, now: Time, op: Op)
    ensures op.AcquireOp? ==>
              var (response, r) := ExecuteAcquire(g, now, op.ns, op.args, op.policy);
              ExecuteAcquire(g.(clock := x), now, op.ns, op.args, op.policy) == (response, r.(clock := x))
  {
    hide GrantSweep, GrantSweepForPaths, Dequeue, FreedPaths, Acquire, BlockedByEarlier, Enqueue, MaxFence, PublicPath, NeedsFence;
  }

  lemma PolicyClockFree(g: Group, x: Time, now: Time, op: Op)
    ensures op.SetPolicyOp? ==>
              var (response, r) := SetPolicy(g, now, op.ns, op.algorithm);
              SetPolicy(g.(clock := x), now, op.ns, op.algorithm) == (response, r.(clock := x))
    ensures op.DeletePolicyOp? ==>
              var (response, r) := DeletePolicy(g, now, op.ns); DeletePolicy(g.(clock := x), now, op.ns) == (response, r.(clock := x))
  {
    hide ClearHolds, ClearQueue, GoneMembers, ClearedEntries, LiveEntries, Preserved, SortedStrings;
  }

  lemma GcClockFree(g: Group, x: Time, now: Time, op: Op)
    ensures op.GcSweepOp? ==>
              var (response, r) := GcSweep(g, now, op.batch); GcSweep(g.(clock := x), now, op.batch) == (response, r.(clock := x))
  {
    hide GrantSweep, Reclaim, BatchOf, Unblocks;
    if op.GcSweepOp? {
      assert BatchOf(g.(clock := x), now, op.batch) == BatchOf(g, now, op.batch) by { BatchClockFree(g, x, now, op.batch); }
      ReclaimClockFree(g, x, now, BatchOf(g, now, op.batch));
    }
  }

  lemma BatchClockFree(g: Group, x: Time, now: Time, batch: nat)
    ensures BatchOf(g.(clock := x), now, batch) == BatchOf(g, now, batch)
  {
    assert DueSlots(g.(clock := x), now) == DueSlots(g, now);
  }

  lemma {:induction false} ReclaimClockFree(g: Group, x: Time, now: Time, slots: seq<Slot>)
    ensures var (n, r) := Reclaim(g, now, slots); Reclaim(g.(clock := x), now, slots) == (n, r.(clock := x))
    decreases |slots|
  {
    hide ReleaseOwner, ExpireEntry;
    if slots != [] {
      var g1 := ReclaimRecord(g, now, slots[0].ref).1;
      assert ReclaimRecord(g.(clock := x), now, slots[0].ref) == (ReclaimRecord(g, now, slots[0].ref).0, g1.(clock := x));
      assert DropSlot(g1.(clock := x), slots[0]) == DropSlot(g1, slots[0]).(clock := x);
      hide ReclaimRecord, DropSlot;
      ReclaimClockFree(DropSlot(g1, slots[0]), x, now, slots[1..]);
    }
  }

  /** The command was executed and refused. */
  predicate Refusal(cfg: Config, g: Group, cmd: Command) {
    Recall(g, EffectiveTime(g, cmd), cmd.id).None? && !Apply(cfg, g, cmd).0.Commits()
  }

  /**
   A refused command leaves no trace a later command could see: whatever command
   with a later stamp comes next is answered as if the refused one had never been
   applied, and leaves the same group behind, up to the clock; the same clock too
   if it moves the clock at all.
   */
  lemma RefusedLeavesNoTrace(cfg: Config, g: Group, refused: Command, next: Command)
    requires Refusal(cfg, g, refused) && EffectiveTime(g, refused) <= next.now
    ensures var g1 := Apply(cfg, g, refused).1;
            var (with, r1) := Apply(cfg, g1, next);
            var (without, r) := Apply(cfg, g, next);
            && with == without && r1 == r.(clock := r1.clock) && (r.clock == next.now ==> r1 == r)
  {
    hide Apply;
    RefusedKeeps(cfg, g, refused);
    ApplyClockFree(cfg, g, Apply(cfg, g, refused).1.clock, next);
  }

  lemma RefusedKeeps(cfg: Config, g: Group, cmd: Command)
    requires Refusal(cfg, g, cmd)
    ensures var r := Apply(cfg, g, cmd).1; r == g.(clock := r.clock) && g.clock <= r.clock <= EffectiveTime(g, cmd)
  {
    hide Execute;
  }

  lemma ApplyClockFree(cfg: Config, g: Group, x: Time, next: Command)
    requires x <= next.now && g.clock <= next.now
    ensures var (response, r) := Apply(cfg, g, next);
            var (other, r1) := Apply(cfg, g.(clock := x), next);
            other == response && r1 == r.(clock := r1.clock) && (g.clock <= x && r.clock == next.now ==> r1.clock == next.now)
  {
    hide Execute, FileSlot;
    ClockFree(g, x, next.now, cfg.fallback, next.id.Some?, next.op);
    NoopExecutes(g, next.now, cfg.fallback, next.id.Some?);
    assert Recall(g.(clock := x), next.now, next.id) == Recall(g, next.now, next.id);
  }
}

/**
 Stamps and tokens over whole runs: a policy record that was overtaken never admits
 an acquire again, and every token a group hands out is positive.
 */
module Stamps {
  import opened Ordering
  import opened Paths
  import opened Expiry
  import opened LockSpec
  import opened ApplyProof
  import opened QueueSpec
  import opened MachineSpec
  import opened MachineProof
  import opened Runs
  import opened Fairness
  import opened Commands
  import opened Collect
  import opened Epochs
  import opened Outcomes
  import opened Admission
  import opened Granting

  // --- overtaken policy records ---

  /** The acquire command is answered as its policy record and its route say, before anything else is looked at. */
  lemma StampDecides(cfg: Config, g: Group, cmd: Command)
    requires FirstSeen(cfg, g, cmd) && cmd.op.AcquireOp?
    ensures var (response, op) := (Apply(cfg, g, cmd).0, cmd.op);
            && (response == Rejected(RoutingStale) <==> Misrouted(g.rows.Keys, op.ns, op.args))
            && (!Misrouted(g.rows.Keys, op.ns, op.args) ==>
                  (response == Rejected(PolicyEpochStale) <==> PoliciesOf(g, cfg.fallback).Record(op.ns) != op.policy))
  {
    hide Inv, Apply, Misrouted, Tokened, Outranked, StopsContended, AllGrantable, QueueFull, QueuedBehind, QueuedFor, Parks, SameState;
    var a := AcquireAnswered(cfg, g, cmd);
  }

  /**
   Once a command has given a namespace a row, or its row a new algorithm, an acquire
   stamped with an earlier record is refused in every continuation that does not
   delete the policy, whatever it asks for.
   */
  lemma OvertakenStampDead(cfg: Config, g: Group, change: Command, log: seq<Command>, late: Command, ns: string)
    requires FirstSeen(cfg, g, change) && Sets(change.op, ns) && Changes(g, ns, change.op.algorithm) && Epoch(g, ns) < U64_MAX
    requires AllStamped(log) && forall c :: c in log ==> !Deletes(c.op, ns)
    requires var g2 := Run(cfg, Apply(cfg, g, change).1, log); FirstSeen(cfg, g2, late)
    requires late.op.AcquireOp? && late.op.ns == ns && late.op.policy.epoch <= Epoch(g, ns)
    ensures var g2 := Run(cfg, Apply(cfg, g, change).1, log);
            Apply(cfg, g2, late).0 == if Misrouted(g2.rows.Keys, ns, late.op.args) then Rejected(RoutingStale) else Rejected(PolicyEpochStale)
  {
    hide Inv, Apply, Run, Misrouted, Clears, Reports, Onward, Recall;
    var g1 := Apply(cfg, g, change).1;
    var owners := SetApplied(cfg, g, change);
    ApplyProgress(cfg, g, change);
    EpochsGrow(cfg, g1, log, ns);
    StampDecides(cfg, Run(cfg, g1, log), late);
  }

  // --- the counter ---

  ghost predicate CounterFits(g: Group) { 0 <= g.counter <= I64_MAX }

  lemma MintedCounter(g: Group, now: Time, ns: string, args: AcquireArgs, policy: LockPolicy)
    ensures ExecuteMinted(g, now, ns, args, policy).1.counter == g.counter
  {
    hide BlockedByEarlier, Acquire, Enqueue, Dequeue, GrantSweep, GrantSweepForPaths, FreedPaths, PublicPath;
  }

  lemma MintGrows(g: Group, ns: string, args: AcquireArgs, alg: LockAlgorithm)
    requires CounterFits(g)
    ensures g.counter <= MintFence(g, ns, args, alg).1.counter <= I64_MAX
  {
    hide MaxFence;
    MaxFenceBounds(g.t, ns, args.requests, g.counter);
  }

  lemma ExecuteCounter(g: Group, now: Time, fallback: LockAlgorithm, identified: bool, op: Op)
    requires CounterFits(g)
    ensures g.counter <= Execute(g, now, fallback, identified, op).1.counter <= I64_MAX
  {
    hide GrantSweep, GrantSweepForPaths, Release, ReleaseOwner, Dequeue, Renew, FreedPaths, StaleRoute, ExecuteMinted, MintFence, Reclaim, BatchOf,
         ClearHolds, ClearQueue, GoneMembers, ClearedEntries, LiveEntries, Preserved, SortedStrings, Stored, Unleased;
    if op.GcSweepOp? { ReclaimExact(g, now, BatchOf(g, now, op.batch)); }
    if op.AcquireOp? {
      MintGrows(g, op.ns, op.args, op.policy.algorithm);
      var (minted, g1) := MintFence(g, op.ns, op.args, op.policy.algorithm);
      MintedCounter(g1, now, op.ns, minted, op.policy);
    }
  }

  /** The fencing counter never falls and never leaves its range, so neither do the tokens minted from it. */
  lemma {:induction false} CounterGrows(cfg: Config, g: Group, log: seq<Command>)
    requires CounterFits(g)
    ensures CounterFits(Run(cfg, g, log)) && g.counter <= Run(cfg, g, log).counter
    decreases |log|
  {
    hide Execute;
    if log != [] {
      var now := EffectiveTime(g, log[0]);
      ExecuteCounter(g, now, cfg.fallback, log[0].id.Some?, log[0].op);
      var g1 := Apply(cfg, g, log[0]).1;
      assert g.counter <= g1.counter <= I64_MAX;
      hide Apply;
      CounterGrows(cfg, g1, log[1..]);
    }
  }

  /**
   From an empty group, after any log, the token a write acquire is granted with
   asserts the locks it kept while its lease lives and nothing else is applied.
   */
  lemma GrantsAssertAlways(cfg: Config, log: seq<Command>, cmd: Command, paths: seq<string>, later: Time)
    requires AllStamped(log)
    requires var g := Run(cfg, EMPTY_GROUP, log); FirstSeen(cfg, g, cmd) && cmd.op.AcquireOp? && GrantedNow(Apply(cfg, g, cmd).0)
    requires !cmd.op.policy.algorithm.Semaphore? && forall p :: p in paths ==> KeepsWrite(cmd.op.ns, cmd.op.args, p)
    requires var g := Run(cfg, EMPTY_GROUP, log);
             EffectiveTime(g, cmd) <= later && Apply(cfg, g, cmd).1.t.Alive(cmd.op.args.owner, later)
    ensures var (response, r) := Apply(cfg, Run(cfg, EMPTY_GROUP, log), cmd);
            AssertFencing(r.t, later, cmd.op.ns, cmd.op.args.owner, response.outcome.token, paths) == AssertOk
  {
    hide FirstSeen, Apply, Run, KeepsWrite, AssertFencing, EffectiveTime;
    CounterGrows(cfg, EMPTY_GROUP, log);
    GrantAsserts(cfg, Run(cfg, EMPTY_GROUP, log), cmd, paths, later);
  }
}

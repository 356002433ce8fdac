/** Whole runs: what holds after every log of commands, at every clock. */
module Runs {
  import opened Paths
  import opened Expiry
  import opened LockSpec
  import opened LockInvariant
  import opened ApplyProof
  import opened EngineProof
  import opened QueueSpec
  import opened QueueProof
  import opened MachineSpec
  import opened MachineProof
  import opened PolicyProof
  import opened GcProof

  /** The invariant of a group between commands. */
  ghost predicate Inv(g: Group, fallback: LockAlgorithm) { Kept(g, g.clock, fallback) && Behind(g) }

  /** The router stamps every acquire with a request id and routes it by a namespace without the separator. */
  predicate Stamped(cmd: Command) { cmd.op.AcquireOp? ==> cmd.id.Some? && NoSep(cmd.op.ns) }

  predicate AllStamped(log: seq<Command>) { forall c :: c in log ==> Stamped(c) }

  lemma EmptyInv(fallback: LockAlgorithm)
    ensures Inv(EMPTY_GROUP, fallback)
  {
    EmptyGood(Policies(map[], fallback));
    EmptyQueueGood(0, Policies(map[], fallback));
    hide Good, QueueGood;
  }

  // --- one operation ---

  lemma ExecuteMoves(g: Group, now: Time, fallback: LockAlgorithm, identified: bool, op: Op)
    requires Sound(g, now, fallback) && !op.GcSweepOp?
    requires op.AcquireOp? ==> identified && NoSep(op.ns)
    ensures Moves(g, Execute(g, now, fallback, identified, op).1, now, fallback)
  {
    hide Sound, Advances, SameBooks, NoSep, Release, ReleaseOwner, Dequeue, SweepAllOf, SweepPathsOf, ExecuteAcquire, SetPolicy, DeletePolicy,
         StaleRoute, GcSweep, Renew, FreedPaths;
    MovesRefl(g, now, fallback);
    match op
    case ReleaseOp(ns, owner, reqs) =>
      var g1 := g.(t := Release(g.t, ns, owner, reqs));
      ReleaseMoves(g, now, fallback, ns, owner, reqs);
      SweepPathsMoves(g1, now, fallback, FreedPaths(ns, reqs));
      MovesTrans(g, g1, SweepPathsOf(g1, now, FreedPaths(ns, reqs)).1, now, fallback);
    case ReleaseAllOp(owner) => RemoveOwnerMoves(g, now, fallback, owner);
    case ForceReleaseOp(victim) => RemoveOwnerMoves(g, now, fallback, victim);
    case RenewOp(owner, ttl) => RenewMoves(g, now, fallback, owner, ttl);
    case IncrFenceOp => CounterMoves(g, now, fallback, SaturatingNext(g.counter));
    case NoopOp =>
    case SetPolicyOp(ns, alg) => SetPolicyMoves(g, now, fallback, ns, alg);
    case DeletePolicyOp(ns) => DeletePolicyMoves(g, now, fallback, ns);
    case AcquireOp(ns, policy, args) =>
      if !StaleRoute(g.rows, ns, args) && PoliciesOf(g, fallback).Record(ns) == policy {
        ExecuteAcquireMoves(g, now, fallback, ns, args, policy);
      }
  }

  lemma CounterMoves(g: Group, now: Time, fallback: LockAlgorithm, counter: int)
    requires Sound(g, now, fallback)
    ensures Moves(g, g.(counter := counter), now, fallback)
  {
    hide Good, QueueGood, Onward;
    GrewRefl(g.t, "");
  }

  /** What every operation does to the group, seen from its effective time. */
  ghost predicate Stepped(g: Group, r: Group, now: Time, fallback: LockAlgorithm) {
    && Kept(r, now, fallback) && Onward(g.t, r.t) && Behind(r.(clock := now)) && r.clock == g.clock
    && Later(AllSlots(g), AllSlots(r), now)
  }

  lemma MovesStepped(g: Group, r: Group, now: Time, fallback: LockAlgorithm)
    requires Kept(g, now, fallback) && Behind(g) && g.clock <= now && Moves(g, r, now, fallback)
    ensures Stepped(g, r, now, fallback)
  {
    hide Sound, Onward, SeenFiled, RefLess;
    SeenFrame(g, r);
    assert AllSlots(r.(clock := now)) == AllSlots(r);
  }

  lemma GcStepped(g: Group, now: Time, fallback: LockAlgorithm, batch: nat)
    requires Kept(g, now, fallback) && Behind(g) && g.clock <= now
    ensures Stepped(g, GcSweep(g, now, batch).1, now, fallback)
  {
    hide Kept, Onward, AfterBatch, GcSweep, RefLess, BatchOf;
    AfterBatchBehind(g, now, fallback, batch);
    GcSweepKept(g, now, fallback, batch);
    var h, r := AfterBatch(g, now, batch), GcSweep(g, now, batch).1;
    assert AllSlots(r.(clock := now)) == AllSlots(r) && AllSlots(h.(clock := now)) == AllSlots(h);
  }

  lemma ExecuteStepped(g: Group, now: Time, fallback: LockAlgorithm, identified: bool, op: Op)
    requires Kept(g, now, fallback) && Behind(g) && g.clock <= now
    requires op.AcquireOp? ==> identified && NoSep(op.ns)
    ensures Stepped(g, Execute(g, now, fallback, identified, op).1, now, fallback)
  {
    hide Sound, SeenFiled, Behind, Stepped, Moves, NoSep;
    if op.GcSweepOp? {
      GcStepped(g, now, fallback, op.batch);
      assert Execute(g, now, fallback, identified, op) == GcSweep(g, now, op.batch);
    } else {
      hide Execute;
      ExecuteMoves(g, now, fallback, identified, op);
      MovesStepped(g, Execute(g, now, fallback, identified, op).1, now, fallback);
    }
  }

  // --- one command ---

  lemma KeptLater(g: Group, now: Time, fallback: LockAlgorithm)
    requires Inv(g, fallback) && g.clock <= now
    ensures Kept(g, now, fallback)
  {
    hide Good, QueueGood, SeenFiled;
    TimePasses(g.q, g.clock, now, PoliciesOf(g, fallback));
  }

  lemma RememberStepped(g: Group, r: Group, now: Time, fallback: LockAlgorithm, id: RequestId, fp: nat, response: Response)
    requires Stepped(g, r, now, fallback)
    ensures Stepped(g, Remember(r, now, id, fp, response), now, fallback)
  {
    hide Sound, Onward, RefLess, QuantizedIndexExpiry;
    RememberFiled(r, now, id, fp, response);
    var s := Remember(r, now, id, fp, response);
    assert Sound(s, now, fallback) by { SoundFrame(r, s, now, fallback); }
    assert AllSlots(s.(clock := now)) == AllSlots(s);
    assert forall x :: x in AllSlots(s) ==> x in AllSlots(r) || x.exp >= now;
  }

  lemma SoundFrame(g: Group, r: Group, now: Time, fallback: LockAlgorithm)
    requires Sound(g, now, fallback) && r.t == g.t && r.q == g.q && r.rows == g.rows
    ensures Sound(r, now, fallback)
  {
    hide Good, QueueGood;
  }

  lemma RememberFiled(g: Group, now: Time, id: RequestId, fp: nat, response: Response)
    requires SeenFiled(g)
    ensures SeenFiled(Remember(g, now, id, fp, response))
  {
    hide QuantizedIndexExpiry, Covered, FileSlot;
    var exp := ExpiryAt(now, DEDUPE_TTL_MS);
    var r := Remember(g, now, id, fp, response);
    FileSlotCovers(g.seenSlots, now, exp, DedupeRef(id.client, id.seqno));
    forall x | x in r.seen ensures r.seen[x].exp > 0 && Covered(r.seenSlots, r.seen[x].exp, DedupeRef(x.client, x.seqno)) {
      if x != id { CoveredMore(g.seenSlots, r.seenSlots, r.seen[x].exp, DedupeRef(x.client, x.seqno)); }
    }
  }

  /** What a command does to the group between commands. */
  ghost predicate Progressed(g: Group, r: Group, fallback: LockAlgorithm) {
    Inv(r, fallback) && Onward(g.t, r.t) && g.clock <= r.clock && Later(AllSlots(g), AllSlots(r), g.clock)
  }

  lemma SteppedProgress(g: Group, r: Group, now: Time, fallback: LockAlgorithm)
    requires Stepped(g, r, now, fallback) && g.clock <= now
    ensures Progressed(g, r.(clock := now), fallback)
  {
    hide Good, QueueGood, Onward, SeenFiled, Behind;
    var s := r.(clock := now);
    assert AllSlots(s) == AllSlots(r);
    assert SeenFiled(s) by { SeenFrame(r, s); }
  }

  lemma Refused(g: Group, now: Time, fallback: LockAlgorithm)
    requires Inv(g, fallback) && g.clock <= now
    ensures Stepped(g, g, now, fallback)
  {
    hide Good, QueueGood, Onward, SeenFiled, RefLess;
    GrewRefl(g.t, "");
    KeptLater(g, now, fallback);
    assert AllSlots(g.(clock := now)) == AllSlots(g);
  }

  lemma NoopExecutes(g: Group, now: Time, fallback: LockAlgorithm, identified: bool)
    ensures Execute(g, now, fallback, identified, NoopOp) == (Unit, g)
  {
  }

  /** A no-op leaves all but the dedupe records alone. */
  lemma NoopProgress(cfg: Config, g: Group, cmd: Command, now: Time)
    requires Inv(g, cfg.fallback) && g.clock <= now && cmd.op.NoopOp?
    ensures Progressed(g, RunFresh(cfg, g, now, cmd).1, cfg.fallback)
  {
    hide Sound, Onward, RefLess, QuantizedIndexExpiry;
    GrewRefl(g.t, "");
    var r := RunFresh(cfg, g, now, cmd).1;
    if cmd.id.Some? { RememberFiled(g, now, cmd.id.value, cfg.fingerprint(cmd.op), Unit); }
    assert Sound(r, r.clock, cfg.fallback) by { SoundFrame(g, r, g.clock, cfg.fallback); }
    assert forall x :: x in AllSlots(r) ==> x in AllSlots(g) || x.exp >= now;
  }

  lemma FreshProgress(cfg: Config, g: Group, cmd: Command, now: Time)
    requires Inv(g, cfg.fallback) && g.clock <= now && Stamped(cmd)
    ensures Progressed(g, RunFresh(cfg, g, now, cmd).1, cfg.fallback)
  {
    if cmd.op.NoopOp? {
      NoopProgress(cfg, g, cmd, now);
    } else {
      hide Execute, Kept, Stepped, Progressed, Remember, NoSep;
      KeptLater(g, now, cfg.fallback);
      Refused(g, now, cfg.fallback);
      ExecuteStepped(g, now, cfg.fallback, cmd.id.Some?, cmd.op);
      var (response, g1) := Execute(g, now, cfg.fallback, cmd.id.Some?, cmd.op);
      if cmd.id.Some? { RememberStepped(g, g1, now, cfg.fallback, cmd.id.value, cfg.fingerprint(cmd.op), response); }
      var g2 :=
        if !response.Commits() then g
        else if cmd.id.Some? then Remember(g1, now, cmd.id.value, cfg.fingerprint(cmd.op), response)
        else g1;
      SteppedProgress(g, g2, now, cfg.fallback);
    }
  }

  /** Every command, granted, refused or replayed, keeps the invariant. */
  lemma ApplyProgress(cfg: Config, g: Group, cmd: Command)
    requires Inv(g, cfg.fallback) && Stamped(cmd)
    ensures Progressed(g, Apply(cfg, g, cmd).1, cfg.fallback)
  {
    hide Inv, RunFresh, Onward;
    GrewRefl(g.t, "");
    FreshProgress(cfg, g, cmd, EffectiveTime(g, cmd));
  }

  // --- runs ---

  lemma {:induction false} RunProgress(cfg: Config, g: Group, log: seq<Command>)
    requires Inv(g, cfg.fallback) && AllStamped(log)
    ensures Progressed(g, Run(cfg, g, log), cfg.fallback)
    decreases |log|
  {
    hide Inv, Apply, Onward, AllSlots;
    if log == [] {
      GrewRefl(g.t, "");
    } else {
      assert forall c :: c in log[1..] ==> c in log;
      assert log[0] in log;
      var g1 := Apply(cfg, g, log[0]).1;
      ApplyProgress(cfg, g, log[0]);
      RunProgress(cfg, g1, log[1..]);
      OnwardTrans(g.t, g1.t, Run(cfg, g, log).t);
    }
  }
}

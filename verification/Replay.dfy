/** Request-id replay: exactly when a committed command, applied again, is answered with its first response. */
module Replay {
  import opened Paths
  import opened Expiry
  import opened LockSpec
  import opened ApplyProof
  import opened MachineSpec
  import opened MachineProof
  import opened GcProof
  import opened Runs

  /** The record of a first application is in place. */
  ghost predicate Retained(g: Group, id: RequestId, c: Cached) { id in g.seen && g.seen[id] == c }

  /** No command with the id is stamped at or after the end of its window. */
  predicate WithinWindow(log: seq<Command>, id: RequestId, exp: Time) { forall c :: c in log && c.id == Some(id) ==> c.now < exp }

  lemma GcRetains(g: Group, now: Time, fallback: LockAlgorithm, batch: nat, id: RequestId, c: Cached)
    requires Kept(g, now, fallback) && Retained(g, id, c) && now < c.exp
    ensures Retained(GcSweep(g, now, batch).1, id, c)
  {
    hide Kept, Reclaimed, Onward, Later, AfterBatch, GcSweep, BatchOf, AllSlots;
    AfterBatchKept(g, now, fallback, batch);
    GcSweepKept(g, now, fallback, batch);
  }

  lemma ExecuteRetains(g: Group, now: Time, fallback: LockAlgorithm, identified: bool, op: Op, id: RequestId, c: Cached)
    requires Kept(g, now, fallback) && Retained(g, id, c) && (op.GcSweepOp? ==> now < c.exp)
    requires op.AcquireOp? ==> identified && NoSep(op.ns)
    ensures Retained(Execute(g, now, fallback, identified, op).1, id, c)
  {
    hide Sound, SeenFiled, NoSep, Advances, GcSweep;
    if op.GcSweepOp? {
      GcRetains(g, now, fallback, op.batch, id, c);
      assert Execute(g, now, fallback, identified, op) == GcSweep(g, now, op.batch);
    } else {
      hide Execute;
      ExecuteMoves(g, now, fallback, identified, op);
    }
  }

  lemma ApplyRetains(cfg: Config, g: Group, cmd: Command, id: RequestId, c: Cached)
    requires Inv(g, cfg.fallback) && Stamped(cmd) && Retained(g, id, c) && (cmd.id == Some(id) ==> cmd.now < c.exp)
    requires Apply(cfg, g, cmd).1.clock < c.exp
    ensures Retained(Apply(cfg, g, cmd).1, id, c)
  {
    hide Execute, Inv, Kept, QuantizedIndexExpiry, NoSep;
    var now := EffectiveTime(g, cmd);
    if Recall(g, now, cmd.id).None? {
      ApplyProgress(cfg, g, cmd);
      KeptLater(g, now, cfg.fallback);
      ExecuteRetains(g, now, cfg.fallback, cmd.id.Some?, cmd.op, id, c);
      assert cmd.id != Some(id);
    }
  }

  // --- displacement ---

  /** A no-op's record has taken the place of the id's, and lasts at least as long. */
  ghost predicate Displaced(cfg: Config, g: Group, id: RequestId, exp: Time) {
    id in g.seen && g.seen[id].fingerprint == cfg.fingerprint(NoopOp) && g.seen[id].response == Unit && g.seen[id].exp >= exp
  }

  /** A command with the id stamped past its record's expiry moves the clock there, unless it is a no-op, which takes the record over. */
  lemma LateReuse(cfg: Config, g: Group, cmd: Command, id: RequestId, exp: Time)
    requires cmd.id == Some(id) && id in g.seen && g.seen[id].exp <= cmd.now && g.seen[id].exp > 0 && exp <= cmd.now
    requires Apply(cfg, g, cmd).1.clock < exp
    ensures cmd.op.NoopOp? && Displaced(cfg, Apply(cfg, g, cmd).1, id, exp)
  {
    hide Execute, FileSlot;
    assert Recall(g, EffectiveTime(g, cmd), cmd.id).None?;
    assert Execute(g, EffectiveTime(g, cmd), cfg.fallback, true, NoopOp) == (Unit, g) by { NoopExecutes(g, EffectiveTime(g, cmd), cfg.fallback, true); }
  }

  lemma ApplyDisplaced(cfg: Config, g: Group, cmd: Command, id: RequestId, exp: Time)
    requires Inv(g, cfg.fallback) && Stamped(cmd) && Displaced(cfg, g, id, exp) && exp > 0 && Apply(cfg, g, cmd).1.clock < exp
    ensures Displaced(cfg, Apply(cfg, g, cmd).1, id, exp)
  {
    hide Inv, Apply;
    var c := g.seen[id];
    if cmd.id == Some(id) && c.exp <= cmd.now {
      LateReuse(cfg, g, cmd, id, exp);
    } else {
      ApplyRetains(cfg, g, cmd, id, c);
    }
  }

  lemma {:induction false} RunDisplaced(cfg: Config, g: Group, log: seq<Command>, id: RequestId, exp: Time)
    requires Inv(g, cfg.fallback) && AllStamped(log) && Displaced(cfg, g, id, exp) && exp > 0 && Run(cfg, g, log).clock < exp
    ensures Displaced(cfg, Run(cfg, g, log), id, exp)
    decreases |log|
  {
    hide Inv, Apply, Displaced, Onward, AllSlots;
    if log != [] {
      assert log[0] in log && forall x :: x in log[1..] ==> x in log;
      var g1 := Apply(cfg, g, log[0]).1;
      ApplyProgress(cfg, g, log[0]);
      RunProgress(cfg, g1, log[1..]);
      ApplyDisplaced(cfg, g, log[0], id, exp);
      RunDisplaced(cfg, g1, log[1..], id, exp);
    }
  }

  predicate NoopReuses(log: seq<Command>, id: RequestId) { exists c :: c in log && c.id == Some(id) && c.op.NoopOp? }

  /** Until the clock passes the window, the record stays exactly while nothing with the id is stamped past it. */
  lemma {:induction false} RunSplits(cfg: Config, g: Group, log: seq<Command>, id: RequestId, c: Cached)
    requires Inv(g, cfg.fallback) && AllStamped(log) && Retained(g, id, c) && c.exp > 0 && Run(cfg, g, log).clock < c.exp
    ensures WithinWindow(log, id, c.exp) ==> Retained(Run(cfg, g, log), id, c)
    ensures !WithinWindow(log, id, c.exp) ==> Displaced(cfg, Run(cfg, g, log), id, c.exp) && NoopReuses(log, id)
    decreases |log|
  {
    hide Inv, Apply, Displaced, Onward, AllSlots;
    if log != [] {
      var first, rest := log[0], log[1..];
      assert first in log && forall x :: x in log <==> x == first || x in rest;
      var g1 := Apply(cfg, g, first).1;
      ApplyProgress(cfg, g, first);
      RunProgress(cfg, g1, rest);
      if first.id == Some(id) && c.exp <= first.now {
        LateReuse(cfg, g, first, id, c.exp);
        RunDisplaced(cfg, g1, rest, id, c.exp);
      } else {
        ApplyRetains(cfg, g, first, id, c);
        RunSplits(cfg, g1, rest, id, c);
      }
    }
  }

  // --- replay ---

  /** A command committed for the first time, and its id used again after a run, before the window closes. */
  ghost predicate Replays(cfg: Config, g: Group, cmd: Command, log: seq<Command>, again: Command) {
    && Inv(g, cfg.fallback) && Stamped(cmd) && AllStamped(log) && cmd.id.Some? && again.id == cmd.id
    && Recall(g, EffectiveTime(g, cmd), cmd.id).None? && Apply(cfg, g, cmd).0.Commits()
    && EffectiveTime(Run(cfg, Apply(cfg, g, cmd).1, log), again) < Window(g, cmd)
  }

  /** When the record of a command applied now expires. */
  function Window(g: Group, cmd: Command): (exp: Time)
    ensures exp > 0
  {
    ExpiryAt(EffectiveTime(g, cmd), DEDUPE_TTL_MS)
  }

  lemma FirstRecord(cfg: Config, g: Group, cmd: Command)
    requires Inv(g, cfg.fallback) && Stamped(cmd) && cmd.id.Some?
    requires Recall(g, EffectiveTime(g, cmd), cmd.id).None? && Apply(cfg, g, cmd).0.Commits()
    ensures Retained(Apply(cfg, g, cmd).1, cmd.id.value, Cached(cfg.fingerprint(cmd.op), Apply(cfg, g, cmd).0, Window(g, cmd)))
    ensures Inv(Apply(cfg, g, cmd).1, cfg.fallback)
  {
    hide Execute, Inv, FileSlot, Onward;
    ApplyProgress(cfg, g, cmd);
  }

  lemma RecallAnswers(cfg: Config, g: Group, again: Command, c: Cached)
    requires again.id.Some? && Retained(g, again.id.value, c) && EffectiveTime(g, again) < c.exp
    ensures Apply(cfg, g, again) == (if c.fingerprint != cfg.fingerprint(again.op) then Rejected(IdempotencyMismatch) else c.response, g)
  {
    hide RunFresh;
  }

  /** Only a no-op, or an operation its fingerprint cannot tell from one, is replayed even by a no-op's record. */
  predicate LooksLikeNoop(cfg: Config, cmd: Command, response: Response) {
    cfg.fingerprint(cmd.op) == cfg.fingerprint(NoopOp) && response == Unit
  }

  /**
   A committed command applied again before its window closes, after any other
   commands, returns its first response and changes nothing exactly when no
   command of the run reuses its id with a stamp past the window. In either case
   nothing changes, and otherwise it is refused.
   */
  lemma ApplyOnceIff(cfg: Config, g: Group, cmd: Command, log: seq<Command>, again: Command)
    requires Replays(cfg, g, cmd, log, again) && again.op == cmd.op
    ensures var (response, g1) := Apply(cfg, g, cmd);
            var g2 := Run(cfg, g1, log);
            && (Apply(cfg, g2, again) == (response, g2) <==>
                WithinWindow(log, cmd.id.value, Window(g, cmd)) || LooksLikeNoop(cfg, cmd, response))
            && Apply(cfg, g2, again).1 == g2
            && (cfg.fingerprint(cmd.op) != cfg.fingerprint(NoopOp) && !WithinWindow(log, cmd.id.value, Window(g, cmd)) ==>
                  Apply(cfg, g2, again).0 == Rejected(IdempotencyMismatch))
  {
    hide Apply, Inv, Run;
    var id, exp := cmd.id.value, Window(g, cmd);
    var (response, g1) := Apply(cfg, g, cmd);
    var g2 := Run(cfg, g1, log);
    var c := Cached(cfg.fingerprint(cmd.op), response, exp);
    FirstRecord(cfg, g, cmd);
    RunSplits(cfg, g1, log, id, c);
    RecallAnswers(cfg, g2, again, g2.seen[id]);
  }

  /** The id with an operation of another fingerprint is refused and changes nothing. */
  lemma ReuseRefused(cfg: Config, g: Group, cmd: Command, log: seq<Command>, again: Command)
    requires Replays(cfg, g, cmd, log, again)
    requires cfg.fingerprint(again.op) != cfg.fingerprint(cmd.op) && cfg.fingerprint(again.op) != cfg.fingerprint(NoopOp)
    ensures var g2 := Run(cfg, Apply(cfg, g, cmd).1, log); Apply(cfg, g2, again) == (Rejected(IdempotencyMismatch), g2)
  {
    hide Apply, Inv, Run;
    var (response, g1) := Apply(cfg, g, cmd);
    var g2 := Run(cfg, g1, log);
    FirstRecord(cfg, g, cmd);
    RunSplits(cfg, g1, log, cmd.id.value, Cached(cfg.fingerprint(cmd.op), response, Window(g, cmd)));
    RecallAnswers(cfg, g2, again, g2.seen[cmd.id.value]);
  }

  /** No-ops are proposed without a request id, so every command that is proposed is replayed for its whole window. */
  lemma ApplyOnce(cfg: Config, g: Group, cmd: Command, log: seq<Command>, again: Command)
    requires Replays(cfg, g, cmd, log, again) && !NoopReuses(log, cmd.id.value)
    ensures var (response, g1) := Apply(cfg, g, cmd);
            var g2 := Run(cfg, g1, log);
            && (again.op == cmd.op ==> Apply(cfg, g2, again) == (response, g2))
            && (cfg.fingerprint(again.op) != cfg.fingerprint(cmd.op) ==> Apply(cfg, g2, again) == (Rejected(IdempotencyMismatch), g2))
  {
    hide Apply, Inv, Run;
    var (response, g1) := Apply(cfg, g, cmd);
    var g2 := Run(cfg, g1, log);
    var c := Cached(cfg.fingerprint(cmd.op), response, Window(g, cmd));
    FirstRecord(cfg, g, cmd);
    RunSplits(cfg, g1, log, cmd.id.value, c);
    RecallAnswers(cfg, g2, again, c);
  }

  /** The failing case is real: a no-op with the same id, stamped past the window, displaces the record without moving the clock. */
  lemma NoopDisplaces(cfg: Config)
    requires cfg.fingerprint(IncrFenceOp) != cfg.fingerprint(NoopOp)
    ensures var id := RequestId("client", 1);
            var cmd, noop, again := Command(1, Some(id), IncrFenceOp), Command(300_001, Some(id), NoopOp), Command(2, Some(id), IncrFenceOp);
            var (response, g1) := Apply(cfg, EMPTY_GROUP, cmd);
            var g2 := Run(cfg, g1, [noop]);
            && response == Fence(1) && EffectiveTime(g2, again) < ExpiryAt(EffectiveTime(EMPTY_GROUP, cmd), DEDUPE_TTL_MS)
            && !WithinWindow([noop], id, ExpiryAt(EffectiveTime(EMPTY_GROUP, cmd), DEDUPE_TTL_MS))
            && Apply(cfg, g2, again) == (Rejected(IdempotencyMismatch), g2)
  {
    hide FileSlot;
    var id := RequestId("client", 1);
    var cmd, noop, again := Command(1, Some(id), IncrFenceOp), Command(300_001, Some(id), NoopOp), Command(2, Some(id), IncrFenceOp);
    var (response, g1) := Apply(cfg, EMPTY_GROUP, cmd);
    assert g1.seen == map[id := Cached(cfg.fingerprint(IncrFenceOp), Fence(1), 300_001)] && g1.clock == 1;
    var g2 := Apply(cfg, g1, noop).1;
    assert g2.clock == 1 && g2.seen[id] == Cached(cfg.fingerprint(NoopOp), Unit, 600_001);
    assert [noop][1..] == [];
    assert Run(cfg, g2, []) == g2;
    assert Run(cfg, g1, [noop]) == g2;
    assert noop in [noop];
  }
}

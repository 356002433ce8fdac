/** Bounded sweeps catch up: enough of them leave nothing overdue, whatever runs in between. */
module GcProgress {
  import opened Ordering
  import opened Expiry
  import opened LockSpec
  import opened LockInvariant
  import opened QueueProof
  import opened MachineSpec
  import opened GcProof
  import opened Runs

  /** Index slots due before a time. */
  function Backlog(g: Group, due: nat): (r: set<Slot>) { set s | s in AllSlots(g) && s.exp < due }

  function Quota(batch: nat): (n: nat) { if batch == 0 then 1 else batch }

  /** How many slots the sweeps of a log may process; a sweep with a request id may be a replay and is not counted. */
  function Capacity(log: seq<Command>): (n: nat) {
    if log == [] then 0
    else (if log[0].op.GcSweepOp? && log[0].id.None? then Quota(log[0].op.batch) else 0) + Capacity(log[1..])
  }

  // --- the due slots come first ---

  /** An ascending sequence splits where slots stop being due. */
  lemma {:induction false} SplitDue(all: seq<Slot>, due: nat) returns (p: nat)
    requires Ascending(all, SlotLess)
    ensures p <= |all|
    ensures forall i :: 0 <= i < p ==> all[i].exp < due
    ensures forall i :: p <= i < |all| ==> all[i].exp >= due
  {
    hide RefLess;
    p := 0;
    while p < |all| && all[p].exp < due
      invariant p <= |all| && forall i :: 0 <= i < p ==> all[i].exp < due
    {
      p := p + 1;
    }
    forall i | p <= i < |all| ensures all[i].exp >= due { if p < i { assert SlotLess(all[p], all[i]); } }
  }

  lemma PrefixSize(all: seq<Slot>, n: nat)
    requires Ascending(all, SlotLess) && n <= |all|
    ensures |set s | s in all[..n]| == n
  {
    hide SlotLess;
    SlotLessTotal();
    var front := set s | s in all[..n];
    AscendingUnique(all[..n], SortedSlots(front), SlotLess);
  }

  lemma BacklogIsPrefix(g: Group, now: Time, due: nat)
    requires Behind(g) && due <= now
    ensures var all := SortedSlots(DueSlots(g, now)); var k := |Backlog(g, due)|;
            k <= |all| && Backlog(g, due) == set s | s in all[..k]
  {
    hide AllSlots, SlotLess;
    var all := SortedSlots(DueSlots(g, now));
    var p := SplitDue(all, due);
    assert Backlog(g, due) == set s | s in all[..p] by {
      forall s | s in Backlog(g, due) ensures s in all[..p] {
        assert s in DueSlots(g, now) && s in all;
        var i :| 0 <= i < |all| && all[i] == s;
        assert all[..p][i] == s;
      }
      forall s | s in all[..p] ensures s in Backlog(g, due) { assert s in all; }
    }
    PrefixSize(all, p);
  }

  /** A batch takes from the backlog first: all of it, or as much as the batch allows. */
  lemma BatchTakes(g: Group, now: Time, due: nat, batch: nat)
    requires Behind(g) && due <= now
    ensures var left := Backlog(g, due) - set s | s in BatchOf(g, now, batch);
            |left| + Quota(batch) <= |Backlog(g, due)| || left == {}
  {
    hide AllSlots, SlotLess, DueSlots;
    var all := SortedSlots(DueSlots(g, now));
    var k, n := |Backlog(g, due)|, Quota(batch);
    BacklogIsPrefix(g, now, due);
    var b := BatchOf(g, now, batch);
    var left := Backlog(g, due) - set s | s in b;
    if k <= n {
      assert forall s :: s in all[..k] ==> s in b;
    } else {
      var front := set s | s in all[..n];
      PrefixSize(all, n);
      assert front <= Backlog(g, due) by { assert forall s :: s in all[..n] ==> s in all[..k]; }
      assert b == all[..n];
      assert Backlog(g, due) == front + left;
    }
  }

  // --- commands ---

  lemma BacklogNeverGrows(cfg: Config, g: Group, cmd: Command, due: nat)
    requires Inv(g, cfg.fallback) && Stamped(cmd) && due <= g.clock
    ensures Backlog(Apply(cfg, g, cmd).1, due) <= Backlog(g, due)
  {
    hide Inv, Apply, AllSlots;
    ApplyProgress(cfg, g, cmd);
  }

  lemma SweepDrains(cfg: Config, g: Group, cmd: Command, due: nat)
    requires Inv(g, cfg.fallback) && due <= g.clock && cmd.op.GcSweepOp? && cmd.id.None?
    ensures var r := Apply(cfg, g, cmd).1;
            |Backlog(r, due)| + Quota(cmd.op.batch) <= |Backlog(g, due)| || Backlog(r, due) == {}
  {
    hide Kept, AllSlots, GcSweep, AfterBatch, BatchOf, SlotLess;
    var now := EffectiveTime(g, cmd);
    var batch := cmd.op.batch;
    KeptLater(g, now, cfg.fallback);
    AfterBatchBehind(g, now, cfg.fallback, batch);
    GcSweepKept(g, now, cfg.fallback, batch);
    BatchTakes(g, now, due, batch);
    var h := GcSweep(g, now, batch).1;
    GcApplies(cfg, g, cmd);
    var r := Apply(cfg, g, cmd).1;
    SameIndex(h, now);
    var left := Backlog(g, due) - set s | s in BatchOf(g, now, batch);
    assert Backlog(r, due) <= left;
    SubsetSize(Backlog(r, due), left);
  }

  lemma SameIndex(g: Group, now: Time)
    ensures AllSlots(g.(clock := now)) == AllSlots(g)
  {
  }

  lemma GcApplies(cfg: Config, g: Group, cmd: Command)
    requires cmd.op.GcSweepOp? && cmd.id.None?
    ensures Apply(cfg, g, cmd).1 == GcSweep(g, EffectiveTime(g, cmd), cmd.op.batch).1.(clock := EffectiveTime(g, cmd))
  {
    hide BatchOf, Reclaim, SweepAllOf, Unblocks;
    var now := EffectiveTime(g, cmd);
    assert Execute(g, now, cfg.fallback, false, cmd.op) == GcSweep(g, now, cmd.op.batch);
    assert GcSweep(g, now, cmd.op.batch).0.GcDone?;
    hide Execute, GcSweep;
  }

  /** Sweeps whose batches add up to the backlog empty it, in any run. */
  lemma {:induction false} GcCatchesUp(cfg: Config, g: Group, log: seq<Command>, due: nat)
    requires Inv(g, cfg.fallback) && AllStamped(log) && due <= g.clock && |Backlog(g, due)| <= Capacity(log)
    ensures Backlog(Run(cfg, g, log), due) == {}
    decreases |log|
  {
    hide Inv, Apply, Backlog;
    if log != [] {
      var g1 := Apply(cfg, g, log[0]).1;
      assert log[0] in log && forall c :: c in log[1..] ==> c in log;
      ApplyProgress(cfg, g, log[0]);
      BacklogNeverGrows(cfg, g, log[0], due);
      SubsetSize(Backlog(g1, due), Backlog(g, due));
      if log[0].op.GcSweepOp? && log[0].id.None? { SweepDrains(cfg, g, log[0], due); }
      GcCatchesUp(cfg, g1, log[1..], due);
    }
  }

  // --- what an empty backlog means for the records ---

  ghost predicate Overdue(exp: nat, due: nat) { exp != 0 && exp + EXPIRY_INDEX_QUANTUM_MS <= due }

  lemma CoveredInTime(g: Group, slots: set<Slot>, exp: nat, ref: Ref, due: nat)
    requires Covered(slots, exp, ref) && slots <= AllSlots(g) && Backlog(g, due) == {}
    ensures !Overdue(exp, due)
  {
    if exp != 0 {
      var s :| s in slots && s.ref == ref && exp <= s.exp < exp + EXPIRY_INDEX_QUANTUM_MS;
      assert s in AllSlots(g) && s !in Backlog(g, due);
    }
  }

  /** With no backlog, every record expired for a quantum or longer is gone. */
  lemma NothingOverdue(g: Group, fallback: LockAlgorithm, due: nat)
    requires Inv(g, fallback) && Backlog(g, due) == {}
    ensures forall o :: o in g.t.alive ==> !Overdue(g.t.alive[o], due)
    ensures forall s :: s in g.q.entries ==> !Overdue(g.q.entries[s].1, due)
    ensures forall o :: o in g.q.owners ==> !Overdue(g.q.owners[o].1, due)
    ensures forall k :: k in g.q.paths ==> !Overdue(g.q.paths[k], due)
    ensures forall id :: id in g.seen ==> !Overdue(g.seen[id].exp, due)
  {
    hide Covered, Backlog, Core, Exclusive, OneAlgorithm, OwnCovers, SemaphoreBounded, Fenced, Numbered, Indexed, OwnersPoint, NoOrphans,
         Current, Counted, Behind;
    forall o | o in g.t.alive ensures !Overdue(g.t.alive[o], due) { CoveredInTime(g, g.t.slots, g.t.alive[o], AliveRef(o), due); }
    forall s | s in g.q.entries ensures !Overdue(g.q.entries[s].1, due) { CoveredInTime(g, g.q.slots, g.q.entries[s].1, EntryRef(s), due); }
    forall o | o in g.q.owners ensures !Overdue(g.q.owners[o].1, due) { CoveredInTime(g, g.q.slots, g.q.owners[o].1, OwnerRef(o), due); }
    forall k | k in g.q.paths ensures !Overdue(g.q.paths[k], due) { CoveredInTime(g, g.q.slots, g.q.paths[k], PathRef(k.0, k.1), due); }
    forall id | id in g.seen ensures !Overdue(g.seen[id].exp, due) {
      CoveredInTime(g, g.seenSlots, g.seen[id].exp, DedupeRef(id.client, id.seqno), due);
    }
  }
}

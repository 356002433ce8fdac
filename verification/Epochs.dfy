/**
 Policy commands: what a change of policy clears and whom it reports, how epochs
 move over whole runs, and why an acquire stamped before a change is refused for
 good after it.
 */
module Epochs {
  import opened Ordering
  import opened Paths
  import opened Expiry
  import opened LockSpec
  import opened LockInvariant
  import opened ApplyProof
  import opened QueueSpec
  import opened QueueProof
  import opened SweepProof
  import opened MachineSpec
  import opened MachineProof
  import opened PolicyProof
  import opened Runs
  import opened Routes
  import opened Commands

  // --- what a change clears ---

  /**
   A record of this namespace, naming this path, belongs to the namespace whose policy
   changes: it is that namespace's own, or a new root takes the path over from an
   earlier route, unless the record is of an explicit namespace nested in the root.
   */
  predicate TakenOver(rows: map<string, LockPolicy>, ns: string, from: string, path: string) {
    from == ns || (ns !in rows && NamespaceContains(ns, path) && !(from in rows && NamespaceContains(ns, from)))
  }

  ghost predicate WaiterTakenOver(rows: map<string, LockPolicy>, ns: string, w: Entry) {
    || w.ns == ns
    || (exists q :: q in w.args.requests && TakenOver(rows, ns, w.ns, q.path))
    || (exists q :: q in w.args.releases && TakenOver(rows, ns, w.ns, q.path))
  }

  ghost predicate LostMember(t: Tables, r: Tables, o: string) { exists m :: (o, m) in t.own && (o, m) !in r.own }

  /** The owner lost a member of its hold set or its place in the queue. */
  ghost predicate LostSomething(g: Group, r: Group, now: Time, o: string) {
    || LostMember(g.t, r.t, o)
    || (exists w :: Waiting(g.q, now, w) && w.owner == o && !Waiting(r.q, now, w))
  }

  /** The hold was on record through a member that is gone. */
  ghost predicate LostHold(t: Tables, r: Tables, h: Hold) {
    exists m :: (h.owner, m) in t.own && (h.owner, m) !in r.own && m.mode == h.mode && m.Key() == h.key
  }

  /** Exactly the records that were taken over are gone, with the leases of owners left with nothing. */
  ghost predicate Clears(g: Group, r: Group, now: Time, ns: string) {
    && (forall e :: e in r.t.own <==> e in g.t.own && !TakenOver(g.rows, ns, e.1.ns, e.1.path))
    && (forall h :: h in r.t.alg <==> h in g.t.alg && !LostHold(g.t, r.t, h)) && (forall h :: h in r.t.alg ==> r.t.alg[h] == g.t.alg[h])
    && (forall o :: o in r.t.alive <==> o in g.t.alive && !(LostMember(g.t, r.t, o) && HoldsNothing(r.t, o)))
    && (forall o :: o in r.t.alive ==> r.t.alive[o] == g.t.alive[o]) && r.t.fence == g.t.fence && r.t.cap == g.t.cap
    && (forall w :: Waiting(r.q, now, w) <==> Waiting(g.q, now, w) && !WaiterTakenOver(g.rows, ns, w))
  }

  /** The reported owners: exactly those who lost something, in order. */
  ghost predicate Reports(g: Group, r: Group, now: Time, owners: seq<string>) {
    Ascending(owners, StrLess) && forall o :: o in owners <==> LostSomething(g, r, now, o)
  }

  lemma MemberIff(g: Group, rows: map<string, LockPolicy>, ns: string, isNew: bool, m: Member)
    requires rows.Keys + {ns} == g.rows.Keys + {ns} && (isNew <==> ns !in g.rows)
    ensures MemberCleared(m, ns, isNew, Preserved(rows, ns, isNew)) <==> TakenOver(g.rows, ns, m.ns, m.path)
  {
    hide NamespaceContains;
    assert m.ns in rows.Keys + {ns} <==> m.ns in g.rows.Keys + {ns};
  }

  lemma EntryIff(g: Group, rows: map<string, LockPolicy>, ns: string, isNew: bool, w: Entry)
    requires rows.Keys + {ns} == g.rows.Keys + {ns} && (isNew <==> ns !in g.rows)
    ensures EntryCleared(w, ns, isNew, Preserved(rows, ns, isNew)) <==> WaiterTakenOver(g.rows, ns, w)
  {
    hide NamespaceContains;
    assert w.ns in rows.Keys + {ns} <==> w.ns in g.rows.Keys + {ns};
  }

  lemma LostIsNamed(t: Tables, gone: set<(string, Member)>, h: Hold)
    requires gone <= t.own
    ensures h in NamedHolds(gone) <==> LostHold(t, t.(own := t.own - gone), h)
  {
    if h in NamedHolds(gone) {
      var e :| e in gone && h == Hold(e.0, e.1.mode, e.1.Key());
      assert (h.owner, e.1) == e;
    }
    if LostHold(t, t.(own := t.own - gone), h) {
      var m :| (h.owner, m) in t.own && (h.owner, m) !in t.own - gone && m.mode == h.mode && m.Key() == h.key;
      NamesHold(gone, h.owner, m);
    }
  }

  lemma ClearedTables(t: Tables, gone: set<(string, Member)>)
    requires gone <= t.own
    ensures var r := ClearHolds(t, gone);
            && r.own == t.own - gone && r.fence == t.fence && r.cap == t.cap
            && (forall h :: h in r.alg <==> h in t.alg && !LostHold(t, r, h)) && (forall h :: h in r.alg ==> r.alg[h] == t.alg[h])
            && (forall o :: o in r.alive <==> o in t.alive && !(LostMember(t, r, o) && HoldsNothing(r, o)))
            && (forall o :: o in r.alive ==> r.alive[o] == t.alive[o])
  {
    hide NamedHolds;
    var r := ClearHolds(t, gone);
    forall h ensures h in NamedHolds(gone) <==> LostHold(t, r, h) { LostIsNamed(t, gone, h); }
    forall o ensures LostMember(t, r, o) <==> exists e :: e in gone && e.0 == o {
      if m :| (o, m) in t.own && (o, m) !in r.own { assert (o, m) in gone && (o, m).0 == o; }
      if e :| e in gone && e.0 == o { assert (o, e.1) == e; }
    }
  }

  lemma ClearedOwners(g: Group, r: Group, now: Time, gone: set<(string, Member)>, es: seq<Entry>)
    requires gone <= g.t.own && r.t.own == g.t.own - gone && forall e :: e in es <==> Waiting(g.q, now, e) && !Waiting(r.q, now, e)
    ensures Reports(g, r, now, SortedStrings((set e | e in gone :: e.0) + (set e | e in es :: e.owner)))
  {
    hide Waiting;
    var owners := SortedStrings((set e | e in gone :: e.0) + (set e | e in es :: e.owner));
    forall o ensures o in owners <==> LostSomething(g, r, now, o) {
      if m :| (o, m) in g.t.own && (o, m) !in r.t.own { assert (o, m) in gone && (o, m).0 == o; }
      if e :| e in gone && e.0 == o { assert (o, e.1) == e; }
      if w :| Waiting(g.q, now, w) && w.owner == o && !Waiting(r.q, now, w) { assert w in es; }
    }
  }

  /** Clearing a namespace, whatever rows it is left with: exactly what was taken over goes, and exactly the losers are reported. */
  lemma ClearIs(g: Group, now: Time, fallback: LockAlgorithm, rows: map<string, LockPolicy>, ns: string, isNew: bool)
    requires Sound(g, now, fallback) && rows.Keys + {ns} == g.rows.Keys + {ns} && (isNew <==> ns !in g.rows)
    ensures var (owners, r) := ClearNamespace(g.(rows := rows), now, ns, isNew);
            Clears(g, r, now, ns) && Reports(g, r, now, owners) && r.rows == rows && r.counter == g.counter
  {
    hide Good, QueueGood, ClearHolds, ClearQueue, LiveEntries, SortedStrings, EntryCleared, MemberCleared, TakenOver, LostHold, WaiterTakenOver, Waiting,
         Reports;
    var preserved := Preserved(rows, ns, isNew);
    var gone := GoneMembers(g.t.own, ns, isNew, preserved);
    var es := ClearedEntries(LiveEntries(g.q, now), ns, isNew, preserved);
    var r := ClearNamespace(g.(rows := rows), now, ns, isNew).1;
    ClearedTables(g.t, gone);
    forall e | e in g.t.own ensures e in gone <==> TakenOver(g.rows, ns, e.1.ns, e.1.path) { MemberIff(g, rows, ns, isNew, e.1); }
    ListIsLive(g.q, now, PoliciesOf(g, fallback));
    forall w
      ensures Waiting(r.q, now, w) <==> Waiting(g.q, now, w) && !WaiterTakenOver(g.rows, ns, w)
      ensures w in es <==> Waiting(g.q, now, w) && !Waiting(r.q, now, w)
    {
      ClearQueueExact(g.q, now, PoliciesOf(g, fallback), ns, isNew, preserved, w);
      EntryIff(g, rows, ns, isNew, w);
    }
    ClearedOwners(g, r, now, gone, es);
  }

  lemma ListIsLive(q: Queue, now: Time, pol: Policies)
    requires QueueGood(q, now, pol)
    ensures forall e :: e in LiveEntries(q, now) <==> Waiting(q, now, e)
  {
    hide PathKeys, UnitSum, LiveEntries;
    LiveEntriesFacts(q, now);
  }

  // --- the commands ---

  predicate AnswersCleared(response: Response, owners: seq<string>) {
    if owners == [] then response == Unit else response == NamespaceCleared(owners)
  }

  /** The epoch of the record in force: that of the row, or 0 where the fallback rules. */
  function Epoch(g: Group, ns: string): nat { if ns in g.rows then g.rows[ns].epoch else 0 }

  /** A new row, or a new algorithm for an old one. */
  predicate Changes(g: Group, ns: string, alg: LockAlgorithm) { ns !in g.rows || g.rows[ns].algorithm != alg }

  /**
   Setting a policy puts the algorithm in force. Where that changes nothing, nothing
   happens; otherwise the epoch moves on, the namespace is cleared, and those who
   lost something are reported.
   */
  ghost predicate SetLaw(g: Group, r: Group, now: Time, ns: string, alg: LockAlgorithm, response: Response, owners: seq<string>) {
    && ns in r.rows && r.rows - {ns} == g.rows - {ns} && r.rows[ns].algorithm == alg && r.counter == g.counter && AnswersCleared(response, owners)
    && if !Changes(g, ns, alg) then owners == [] && r.rows == g.rows && r.t == g.t && r.q == g.q
       else
         && (Epoch(g, ns) < U64_MAX ==> r.rows[ns].epoch > Epoch(g, ns))
         && (Epoch(g, ns) <= U64_MAX ==> Epoch(g, ns) <= r.rows[ns].epoch <= U64_MAX)
         && Clears(g, r, now, ns) && Reports(g, r, now, owners)
  }

  lemma SetApplied(cfg: Config, g: Group, cmd: Command) returns (owners: seq<string>)
    requires FirstSeen(cfg, g, cmd) && cmd.op.SetPolicyOp?
    ensures SetLaw(g, Apply(cfg, g, cmd).1, EffectiveTime(g, cmd), cmd.op.ns, cmd.op.algorithm, Apply(cfg, g, cmd).0, owners)
  {
    hide Good, QueueGood, Apply, ClearNamespace, Clears, Reports;
    var now, ns, alg := EffectiveTime(g, cmd), cmd.op.ns, cmd.op.algorithm;
    FreshApplies(cfg, g, cmd);
    var rows := g.rows[ns := LockPolicy(alg, SaturatingEpoch(Epoch(g, ns)))];
    owners := [];
    if Changes(g, ns, alg) {
      ClearIs(g, now, cfg.fallback, rows, ns, ns !in g.rows);
      owners := ClearNamespace(g.(rows := rows), now, ns, ns !in g.rows).0;
      SameClears(g, ClearNamespace(g.(rows := rows), now, ns, ns !in g.rows).1, Apply(cfg, g, cmd).1, now, ns, owners);
    }
  }

  lemma SameClears(g: Group, r: Group, s: Group, now: Time, ns: string, owners: seq<string>)
    requires Clears(g, r, now, ns) && Reports(g, r, now, owners) && s.t == r.t && s.q == r.q
    ensures Clears(g, s, now, ns) && Reports(g, s, now, owners)
  {
    hide TakenOver, LostHold, WaiterTakenOver, Waiting;
  }

  /** Deleting a policy removes the row and clears the namespace's own records; without a row nothing happens. */
  ghost predicate DeleteLaw(g: Group, r: Group, now: Time, ns: string, response: Response, owners: seq<string>) {
    && r.rows == g.rows - {ns} && r.counter == g.counter && AnswersCleared(response, owners)
    && if ns !in g.rows then owners == [] && r.t == g.t && r.q == g.q
       else Clears(g, r, now, ns) && Reports(g, r, now, owners)
  }

  lemma DeleteApplied(cfg: Config, g: Group, cmd: Command) returns (owners: seq<string>)
    requires FirstSeen(cfg, g, cmd) && cmd.op.DeletePolicyOp?
    ensures DeleteLaw(g, Apply(cfg, g, cmd).1, EffectiveTime(g, cmd), cmd.op.ns, Apply(cfg, g, cmd).0, owners)
  {
    hide Good, QueueGood, Apply, ClearNamespace, Clears, Reports;
    var now, ns := EffectiveTime(g, cmd), cmd.op.ns;
    FreshApplies(cfg, g, cmd);
    owners := [];
    if ns in g.rows {
      ClearIs(g, now, cfg.fallback, g.rows - {ns}, ns, false);
      owners := ClearNamespace(g.(rows := g.rows - {ns}), now, ns, false).0;
      SameClears(g, ClearNamespace(g.(rows := g.rows - {ns}), now, ns, false).1, Apply(cfg, g, cmd).1, now, ns, owners);
    }
  }

  // --- epochs over runs ---

  predicate Sets(op: Op, ns: string) { op.SetPolicyOp? && op.ns == ns }
  predicate Deletes(op: Op, ns: string) { op.DeletePolicyOp? && op.ns == ns }

  lemma ExecuteRows(g: Group, now: Time, fallback: LockAlgorithm, identified: bool, op: Op)
    requires !op.SetPolicyOp? && !op.DeletePolicyOp?
    ensures Execute(g, now, fallback, identified, op).1.rows == g.rows
  {
    hide GrantSweep, GrantSweepForPaths, Release, ReleaseOwner, Dequeue, Renew, FreedPaths, StaleRoute, ExecuteMinted, MaxFence, NeedsFence, Reclaim, BatchOf;
    if op.GcSweepOp? { ReclaimFewer(g, now, BatchOf(g, now, op.batch)); }
    if op.AcquireOp? {
      var (minted, g1) := MintFence(g, op.ns, op.args, op.policy.algorithm);
      MintedRows(g1, now, op.ns, minted, op.policy);
    }
  }

  /** Only a policy command for a namespace changes its record. */
  lemma RowsApplied(cfg: Config, g: Group, cmd: Command, ns: string)
    requires Inv(g, cfg.fallback) && Stamped(cmd) && !Sets(cmd.op, ns) && !Deletes(cmd.op, ns)
    ensures var r := Apply(cfg, g, cmd).1; PoliciesOf(r, cfg.fallback).Record(ns) == PoliciesOf(g, cfg.fallback).Record(ns) && Epoch(r, ns) == Epoch(g, ns)
  {
    hide Inv, Execute, Clears, Reports, Sound;
    var now := EffectiveTime(g, cmd);
    var r := Apply(cfg, g, cmd).1;
    if Recall(g, now, cmd.id).None? {
      FreshApplies(cfg, g, cmd);
      hide Apply;
      if cmd.op.SetPolicyOp? {
        var owners := SetApplied(cfg, g, cmd);
        assert ns in r.rows - {cmd.op.ns} <==> ns in g.rows - {cmd.op.ns};
        assert ns in g.rows ==> (r.rows - {cmd.op.ns})[ns] == (g.rows - {cmd.op.ns})[ns];
      } else if cmd.op.DeletePolicyOp? {
        var owners := DeleteApplied(cfg, g, cmd);
      } else {
        ExecuteRows(g, now, cfg.fallback, cmd.id.Some?, cmd.op);
      }
    }
  }

  /** Epochs fit the stored width. */
  ghost predicate Bounded(g: Group) { forall ns :: ns in g.rows ==> g.rows[ns].epoch <= U64_MAX }

  /** The record of the namespace moved on, if it moved at all. */
  ghost predicate EpochMoves(g: Group, r: Group, fallback: LockAlgorithm, ns: string) {
    && Epoch(g, ns) <= Epoch(r, ns) <= U64_MAX
    && (PoliciesOf(r, fallback).Record(ns) != PoliciesOf(g, fallback).Record(ns) ==> Epoch(g, ns) < Epoch(r, ns) || Epoch(g, ns) == U64_MAX)
  }

  lemma EpochStep(cfg: Config, g: Group, cmd: Command, ns: string)
    requires Inv(g, cfg.fallback) && Stamped(cmd) && !Deletes(cmd.op, ns) && Epoch(g, ns) <= U64_MAX
    ensures EpochMoves(g, Apply(cfg, g, cmd).1, cfg.fallback, ns)
  {
    hide Inv, Execute, Clears, Reports;
    if !Sets(cmd.op, ns) {
      hide Apply;
      RowsApplied(cfg, g, cmd, ns);
    } else if Recall(g, EffectiveTime(g, cmd), cmd.id).None? {
      hide Apply;
      var owners := SetApplied(cfg, g, cmd);
    }
  }

  /** While nothing deletes the policy of a namespace, its epoch never goes back, and its record never changes under one epoch below saturation. */
  lemma {:induction false} EpochsGrow(cfg: Config, g: Group, log: seq<Command>, ns: string)
    requires Inv(g, cfg.fallback) && AllStamped(log) && (forall c :: c in log ==> !Deletes(c.op, ns)) && Epoch(g, ns) <= U64_MAX
    ensures EpochMoves(g, Run(cfg, g, log), cfg.fallback, ns)
    decreases |log|
  {
    hide Inv, Apply, Onward, Stamped;
    if log != [] {
      assert log[0] in log && forall c :: c in log[1..] ==> c in log;
      var g1 := Apply(cfg, g, log[0]).1;
      EpochStep(cfg, g, log[0], ns);
      ApplyProgress(cfg, g, log[0]);
      EpochsGrow(cfg, g1, log[1..], ns);
    }
  }

  lemma {:induction false} BoundedAlways(cfg: Config, g: Group, log: seq<Command>)
    requires Inv(g, cfg.fallback) && AllStamped(log) && Bounded(g)
    ensures Bounded(Run(cfg, g, log))
    decreases |log|
  {
    hide Inv, Apply, Onward, Stamped;
    if log != [] {
      assert log[0] in log && forall c :: c in log[1..] ==> c in log;
      ApplyProgress(cfg, g, log[0]);
      BoundedStep(cfg, g, log[0]);
      BoundedAlways(cfg, Apply(cfg, g, log[0]).1, log[1..]);
    }
  }

  lemma BoundedStep(cfg: Config, g: Group, cmd: Command)
    requires Inv(g, cfg.fallback) && Stamped(cmd) && Bounded(g)
    ensures Bounded(Apply(cfg, g, cmd).1)
  {
    hide Inv, Execute, Apply, Clears, Reports, Stamped;
    var r := Apply(cfg, g, cmd).1;
    forall ns | ns in r.rows ensures r.rows[ns].epoch <= U64_MAX {
      if Deletes(cmd.op, ns) { DeletedRow(cfg, g, cmd, ns); } else { EpochStep(cfg, g, cmd, ns); }
    }
  }

  lemma DeletedRow(cfg: Config, g: Group, cmd: Command, ns: string)
    requires Inv(g, cfg.fallback) && Stamped(cmd) && Deletes(cmd.op, ns)
    ensures var r := Apply(cfg, g, cmd).1; ns in r.rows ==> ns in g.rows && r.rows[ns] == g.rows[ns]
  {
    hide Inv, Execute, Clears, Reports, Stamped;
    if Recall(g, EffectiveTime(g, cmd), cmd.id).None? {
      hide Apply;
      var owners := DeleteApplied(cfg, g, cmd);
    }
  }
}

/**
 A granted acquire command: the holds it takes, the token it answers and what that
 token proves afterwards, and the sweep its grant runs.
 */
module Granting {
  import opened Paths
  import opened Expiry
  import opened LockSpec
  import opened LockInvariant
  import opened ApplyProof
  import opened EngineProof
  import opened AllOrNothing
  import opened AcquireFrame
  import opened Outcomes
  import opened QueueSpec
  import opened QueueProof
  import opened SweepProof
  import opened MachineSpec
  import opened MachineProof
  import opened Runs
  import opened Fairness
  import opened Progress
  import opened Leftover
  import opened Turns
  import opened Commands
  import opened Admission

  // --- the holds it takes ---

  /** Whether the owner has the hold, live, after its acquire is granted. */
  ghost predicate HasAfter(t: Tables, now: Time, ns: string, a: AcquireArgs, h: Hold) {
    if a.requests == [] && a.releases == [] then HeldLive(t, now, h)
    else
      && !GivesUp(now, ns, a, h)
      && if a.requests == [] then h in t.alg else HeldLive(t, now, h) || AsksNew(ns, a.requests, a.owner, h)
  }

  /** The owner gains what it newly asked for and loses what it gave up; nobody else gains or loses anything. */
  ghost predicate Taken(t: Tables, r: Tables, now: Time, ns: string, a: AcquireArgs) {
    && (forall h: Hold :: HeldLive(r, now, h) <==> if h.owner == a.owner then HasAfter(t, now, ns, a, h) else HeldLive(t, now, h))
    && (forall o :: o != a.owner ==> SameOwner(t, r, o))
    && (a.requests != [] || a.releases != [] ==> LeaseRuns(r, now, a))
  }

  /** The owner's lease runs for the time asked for, from now; an owner that released its last lock has none. */
  ghost predicate LeaseRuns(r: Tables, now: Time, a: AcquireArgs) {
    if a.releases != [] && HoldsNothing(r, a.owner) then a.owner !in r.alive
    else a.owner in r.alive && r.alive[a.owner] == ExpiryAt(now, a.ttl)
  }

  lemma FinishLeases(t: Tables, now: Time, ns: string, a: AcquireArgs)
    ensures LeaseRuns(FinishAcquire(t, now, ns, a), now, a)
  {
    hide ReleaseEach, HoldsNothing;
    var t1 := RefreshLease(t, now, a.owner, a.ttl);
    ReleaseFrame(t1, ns, a.owner, a.releases);
    IdleSame(ReleaseEach(t1, ns, a.owner, a.releases), a.owner, a.owner);
  }

  lemma AskedTaken(t: Tables, pol: Policies, now: Time, ns: string, alg: LockAlgorithm, a: AcquireArgs, h: Hold)
    requires Good(t, pol) && NoSep(ns) && alg == pol.InForce(ns) && a.requests != [] && Acquire(t, now, ns, alg, a).0.Ok?
    ensures HeldLive(Acquire(t, now, ns, alg, a).1, now, h) <==> if h.owner == a.owner then HasAfter(t, now, ns, a, h) else HeldLive(t, now, h)
  {
    hide Good, NoSep, Acquire, HeldLive, AsksNew, GivesUp;
    if AsksNew(ns, a.requests, a.owner, h) {
      AsksOwn(ns, a, h);
      AskedHold(t, pol, now, Entry(0, a.owner, ns, a, LockPolicy(alg, 0)), h);
    } else {
      AcquireHolds(t, pol, now, ns, alg, a, h);
      GivesOwn(now, ns, a, h);
    }
  }

  lemma AsksOwn(ns: string, a: AcquireArgs, h: Hold)
    ensures AsksNew(ns, a.requests, a.owner, h) ==> h.owner == a.owner
  {
    hide ScopedPath;
  }

  lemma GivesOwn(now: Time, ns: string, a: AcquireArgs, h: Hold)
    ensures GivesUp(now, ns, a, h) ==> h.owner == a.owner
  {
    hide Lapses, ReleasedInline;
  }

  /** An acquire with nothing to ask for renews the lease and releases. */
  lemma NothingTaken(t: Tables, pol: Policies, now: Time, ns: string, alg: LockAlgorithm, a: AcquireArgs)
    requires Good(t, pol) && NoSep(ns) && alg == pol.InForce(ns) && a.requests == []
    ensures Taken(t, Acquire(t, now, ns, alg, a).1, now, ns, a)
  {
    hide Good, NoSep, FinishAcquire, ReleasedInline, Lapses, SameOwner, Onward, LeaseRuns;
    NothingAsked(t, now, ns, alg, a);
    if a.releases != [] {
      var r := FinishAcquire(t, now, ns, a);
      assert Acquire(t, now, ns, alg, a).1 == r by { NothingExecutes(t, now, ns, alg, a); }
      AcquireGood(t, pol, now, ns, alg, a);
      forall h: Hold ensures HeldLive(r, now, h) <==> if h.owner == a.owner then HasAfter(t, now, ns, a, h) else HeldLive(t, now, h) {
        FinishExact(t, pol, now, ns, a, h);
      }
      forall o | o != a.owner ensures SameOwner(t, r, o) { FinishOthers(t, now, ns, a, o); }
      FinishLeases(t, now, ns, a);
    } else {
      assert Acquire(t, now, ns, alg, a).1 == t;
      forall o ensures SameOwner(t, t, o) { SameSelf(t, o); }
    }
  }

  lemma NothingExecutes(t: Tables, now: Time, ns: string, alg: LockAlgorithm, a: AcquireArgs)
    requires a.requests == [] && a.releases != []
    ensures Acquire(t, now, ns, alg, a).1 == FinishAcquire(t, now, ns, a)
  {
  }

  lemma SameSelf(t: Tables, o: string)
    ensures SameOwner(t, t, o)
  {
  }

  lemma GrantTakes(t: Tables, pol: Policies, now: Time, ns: string, alg: LockAlgorithm, a: AcquireArgs)
    requires Good(t, pol) && NoSep(ns) && alg == pol.InForce(ns) && Acquire(t, now, ns, alg, a).0.Ok?
    ensures Taken(t, Acquire(t, now, ns, alg, a).1, now, ns, a)
  {
    hide Good, NoSep, Acquire, HasAfter, HeldLive, SameOwner, LeaseRuns, FinishAcquire, Executed;
    if a.requests == [] {
      NothingTaken(t, pol, now, ns, alg, a);
    } else {
      var r := Acquire(t, now, ns, alg, a).1;
      forall h: Hold ensures HeldLive(r, now, h) <==> if h.owner == a.owner then HasAfter(t, now, ns, a, h) else HeldLive(t, now, h) {
        AskedTaken(t, pol, now, ns, alg, a, h);
      }
      forall o | o != a.owner ensures SameOwner(t, r, o) { AcquireOthers(t, pol, now, ns, alg, a, o); }
      ExecutedIs(t, pol, now, ns, alg, a);
      FinishLeases(Executed(t, now, ns, alg, a), now, ns, a);
    }
  }

  // --- the sweep after it ---

  predicate AnswersGrant(response: Response, k: int, owners: seq<string>) {
    if owners == [] then response == Acquired(Ok(k)) else response == AcquiredGranted(Ok(k), owners)
  }

  /**
   The owner's own waiter is gone. If the owner started afresh after a lapse every
   live waiter is tried, in FIFO order; otherwise exactly those that want something
   the acquire released.
   */
  ghost predicate SettleLaw(
    g: Group, r: Group, now: Time, ns: string, a: AcquireArgs, k: int, response: Response,
    t1: Tables, q0: Queue, es: seq<Entry>, turns: seq<Tables>, s: Swept)
  {
    && s.t == r.t && s.q == r.q && AnswersGrant(response, k, s.notify)
    && WithoutWaiter(g.q, q0, now, a.owner)
    && (if !g.t.Alive(a.owner, now) && a.requests != [] then FifoList(q0, now, es) else FreedWaiters(q0, now, ns, a.releases, es))
    && SweptOver(t1, q0, now, es, turns, s)
  }

  function SettleSweep(t: Tables, q: Queue, now: Time, ns: string, a: AcquireArgs, wasAlive: bool): Swept {
    if !wasAlive && a.requests != [] then GrantSweep(t, q, now) else GrantSweepForPaths(t, q, now, FreedPaths(ns, a.releases))
  }

  lemma SettleExecutes(g: Group, now: Time, ns: string, a: AcquireArgs, wasAlive: bool, k: int)
    ensures var s := SettleSweep(g.t, Dequeue(g.q, now, a.owner), now, ns, a, wasAlive);
            var (response, r) := Settle(g, now, ns, a, wasAlive, k);
            r.t == s.t && r.q == s.q && AnswersGrant(response, k, s.notify)
  {
    hide Dequeue, GrantSweep, GrantSweepForPaths, FreedPaths;
  }

  lemma SettleIs(g: Group, t1: Tables, now: Time, fallback: LockAlgorithm, ns: string, a: AcquireArgs, k: int)
    returns (q0: Queue, es: seq<Entry>, turns: seq<Tables>, s: Swept)
    requires Sound(g, now, fallback) && Good(t1, PoliciesOf(g, fallback))
    ensures var (response, r) := Settle(g.(t := t1), now, ns, a, g.t.Alive(a.owner, now), k);
            && SettleLaw(g, r, now, ns, a, k, response, t1, q0, es, turns, s)
            && q0 == Dequeue(g.q, now, a.owner) && s == SettleSweep(t1, q0, now, ns, a, g.t.Alive(a.owner, now))
  {
    hide Good, QueueGood, Dequeue, GrantSweep, GrantSweepForPaths, FreedPaths, SweptOver, WithoutWaiter, Settle, FifoList, Waiting, FreedFor, MeetsFreed,
         AnswersGrant;
    var pol := PoliciesOf(g, fallback);
    q0 := Dequeue(g.q, now, a.owner);
    DequeueIs(g.q, now, pol, a.owner);
    DequeueGood(g.q, now, pol, a.owner);
    SettleExecutes(g.(t := t1), now, ns, a, g.t.Alive(a.owner, now), k);
    if !g.t.Alive(a.owner, now) && a.requests != [] {
      es, turns := FullSweepTurns(t1, q0, now, pol);
      s := GrantSweep(t1, q0, now);
    } else {
      es, turns := TargetedSweepTurns(t1, q0, now, pol, FreedPaths(ns, a.releases));
      s := GrantSweepForPaths(t1, q0, now, FreedPaths(ns, a.releases));
      forall e ensures MeetsFreed(e, FreedPaths(ns, a.releases)) <==> FreedFor(e, ns, a.releases) { FreedForIff(e, ns, a.releases); }
    }
  }

  // --- the command ---

  /** What a granted acquire leaves behind and answers. */
  ghost predicate GrantLaw(
    g: Group, r: Group, now: Time, op: Op, response: Response,
    a: AcquireArgs, t1: Tables, k: int, q0: Queue, es: seq<Entry>, turns: seq<Tables>, s: Swept)
    requires op.AcquireOp?
  {
    && Tokened(g, op.ns, op.args, op.policy.algorithm, a)
    && Taken(g.t, t1, now, op.ns, a)
    && k == (if a.token > 0 && (a.requests != [] || a.releases != []) then a.token else 0)
    && (a.token > 0 && !op.policy.algorithm.Semaphore? ==> forall p :: KeepsWrite(op.ns, a, p) ==> FencedBy(t1, op.ns, a.owner, k, p))
    && SettleLaw(g, r, now, op.ns, a, k, response, t1, q0, es, turns, s)
  }

  /** A granted acquire was admitted, nobody stood ahead of it, and every request was grantable. */
  lemma GrantWas(cfg: Config, g: Group, cmd: Command) returns (a: AcquireArgs, g1: Group)
    requires FirstSeen(cfg, g, cmd) && cmd.op.AcquireOp? && GrantedNow(Apply(cfg, g, cmd).0)
    ensures var (now, ns, policy) := (EffectiveTime(g, cmd), cmd.op.ns, cmd.op.policy);
            && Tokened(g, ns, cmd.op.args, policy.algorithm, a) && g1 == g.(counter := g1.counter)
            && policy.algorithm == PoliciesOf(g, cfg.fallback).InForce(ns) && NoSep(ns) && Sound(g1, now, cfg.fallback)
            && !Outranked(g1, now, ns, a, policy.algorithm) && AllGrantable(g1.t, now, ns, policy.algorithm, a)
            && var (response, r) := ExecuteMinted(g1, now, ns, a, policy);
               response == Apply(cfg, g, cmd).0 && SameState(r, Apply(cfg, g, cmd).1)
  {
    hide Good, QueueGood, Apply, ExecuteMinted, Misrouted, StaleRoute, NoSep, StandsAhead, StopsContended, AllGrantable, QueueFull, ParkedAs, Tokened, MaxFence;
    var now, op := EffectiveTime(g, cmd), cmd.op;
    FreshApplies(cfg, g, cmd);
    assert !StaleRoute(g.rows, op.ns, op.args) && PoliciesOf(g, cfg.fallback).Record(op.ns) == op.policy;
    a := AdmittedIs(g, now, cfg.fallback, op.ns, op.args, op.policy);
    MintIs(g, op.ns, op.args, op.policy.algorithm);
    g1 := MintFence(g, op.ns, op.args, op.policy.algorithm).1;
    SoundFrame(g, g1, now, cfg.fallback);
    SameQuestions(g, g1, now, op.ns, a, op.policy.algorithm);
    NotParked(g, ExecuteAcquire(g, now, op.ns, op.args, op.policy).1, now, op.ns, a, op.policy, Apply(cfg, g, cmd).0);
  }

  lemma NotParked(g: Group, r: Group, now: Time, ns: string, a: AcquireArgs, policy: LockPolicy, response: Response)
    requires GrantedNow(response)
    ensures !ParkedAs(g, r, now, ns, a, policy, response)
  {
  }

  lemma SameSettle(
    g: Group, g1: Group, r: Group, r1: Group, now: Time, ns: string, a: AcquireArgs, k: int, response: Response,
    t1: Tables, q0: Queue, es: seq<Entry>, turns: seq<Tables>, s: Swept)
    requires SettleLaw(g, r, now, ns, a, k, response, t1, q0, es, turns, s) && g1.t == g.t && g1.q == g.q && r1.t == r.t && r1.q == r.q
    ensures SettleLaw(g1, r1, now, ns, a, k, response, t1, q0, es, turns, s)
  {
    hide SweptOver, WithoutWaiter, FifoList, FreedWaiters;
  }

  lemma GrantApplied(cfg: Config, g: Group, cmd: Command)
    returns (a: AcquireArgs, t1: Tables, k: int, q0: Queue, es: seq<Entry>, turns: seq<Tables>, s: Swept)
    requires FirstSeen(cfg, g, cmd) && cmd.op.AcquireOp? && GrantedNow(Apply(cfg, g, cmd).0)
    ensures GrantLaw(g, Apply(cfg, g, cmd).1, EffectiveTime(g, cmd), cmd.op, Apply(cfg, g, cmd).0, a, t1, k, q0, es, turns, s)
  {
    hide Good, QueueGood, Apply, ExecuteMinted, NoSep, Outranked, AllGrantable, Tokened, Taken, Acquire, Settle, SettleLaw, KeepsWrite, FencedBy, Onward;
    var now, ns, policy := EffectiveTime(g, cmd), cmd.op.ns, cmd.op.policy;
    var g1;
    a, g1 := GrantWas(cfg, g, cmd);
    var pol := PoliciesOf(g, cfg.fallback);
    GrantSettles(g1, now, cfg.fallback, ns, a, policy);
    var o := Acquire(g.t, now, ns, policy.algorithm, a).0;
    t1, k := Acquire(g.t, now, ns, policy.algorithm, a).1, o.token;
    AcquireGood(g.t, pol, now, ns, policy.algorithm, a);
    GrantTakes(g.t, pol, now, ns, policy.algorithm, a);
    AnswersToken(g.t, pol, now, ns, policy.algorithm, a);
    q0, es, turns, s := SettleIs(g1, t1, now, cfg.fallback, ns, a, k);
    var (response, r) := Settle(g1.(t := t1), now, ns, a, g1.t.Alive(a.owner, now), k);
    SameSettle(g1, g, r, Apply(cfg, g, cmd).1, now, ns, a, k, response, t1, q0, es, turns, s);
  }

  // --- what the answered token proves ---

  lemma SweepSparesOwner(g: Group, now: Time, pol: Policies, owner: string, q0: Queue, es: seq<Entry>)
    requires QueueGood(g.q, now, pol) && WithoutWaiter(g.q, q0, now, owner) && forall e :: e in es ==> Waiting(q0, now, e)
    ensures Untried(es, owner)
  {
    hide QueueGood, Waiting;
    forall e | e in es ensures e.args.owner != owner { WaiterOwns(g.q, now, pol, e); }
  }

  /** A positive token: its own, or a minted one. */
  lemma TokenPositive(g: Group, ns: string, args: AcquireArgs, alg: LockAlgorithm, a: AcquireArgs, p: string)
    requires Tokened(g, ns, args, alg, a) && g.counter >= 0 && !alg.Semaphore? && KeepsWrite(ns, args, p)
    ensures a.token > 0 && a.requests != [] && KeepsWrite(ns, a, p)
  {
    hide ReleasedInline, ScopedPath, FenceToBeat;
    var q :| q in args.requests && q.mode == Write && q.path == p;
  }

  lemma FenceKept(t: Tables, r: Tables, now: Time, ns: string, owner: string, k: int, p: string)
    requires FencedBy(t, ns, owner, k, p)
    requires var key := ScopedPath(ns, p); WritesLive(t, now, owner, key) ==> WritesLive(r, now, owner, key) && SameAt(t.fence, r.fence, key)
    requires t.Alive(owner, now)
    ensures FencedBy(r, ns, owner, k, p)
  {
    hide ScopedPath;
  }

  /**
   The answered token asserts every write lock the acquire asked for and kept, for as
   long as nothing else is applied and the owner's lease lives.
   */
  lemma GrantAsserts(cfg: Config, g: Group, cmd: Command, paths: seq<string>, later: Time)
    requires FirstSeen(cfg, g, cmd) && cmd.op.AcquireOp? && GrantedNow(Apply(cfg, g, cmd).0) && g.counter >= 0
    requires !cmd.op.policy.algorithm.Semaphore? && forall p :: p in paths ==> KeepsWrite(cmd.op.ns, cmd.op.args, p)
    requires EffectiveTime(g, cmd) <= later && Apply(cfg, g, cmd).1.t.Alive(cmd.op.args.owner, later)
    ensures var (response, r) := Apply(cfg, g, cmd);
            AssertFencing(r.t, later, cmd.op.ns, cmd.op.args.owner, response.outcome.token, paths) == AssertOk
  {
    hide Good, QueueGood, Apply, Tokened, Taken, KeepsWrite, FencedBy, SweepLaw, HoldLaw, AssertFencing, Waiting, FreedFor, WritesLive, SameAt;
    var now, ns, owner := EffectiveTime(g, cmd), cmd.op.ns, cmd.op.args.owner;
    var a, t1, k, q0, es, turns, s := GrantApplied(cfg, g, cmd);
    FreshApplies(cfg, g, cmd);
    TokenedKeeps(g, ns, cmd.op.args, cmd.op.policy.algorithm, a);
    ListWaits(q0, now, ns, a.releases, es);
    SweepSparesOwner(g, now, PoliciesOf(g, cfg.fallback), owner, q0, es);
    LeaseBack(t1, s.t, now, later, owner);
    forall p | p in paths ensures FencedBy(s.t, ns, owner, k, p) {
      TokenPositive(g, ns, cmd.op.args, cmd.op.policy.algorithm, a, p);
      FenceKept(t1, s.t, now, ns, owner, k, p);
    }
    AssertIff(s.t, later, ns, owner, k, paths);
  }

  lemma TokenedKeeps(g: Group, ns: string, args: AcquireArgs, alg: LockAlgorithm, a: AcquireArgs)
    requires Tokened(g, ns, args, alg, a)
    ensures a.owner == args.owner && a.requests == args.requests && a.releases == args.releases && a.ttl == args.ttl
  {
    hide FenceToBeat;
  }

  lemma ListWaits(q: Queue, now: Time, ns: string, rels: seq<RelReq>, es: seq<Entry>)
    requires FifoList(q, now, es) || FreedWaiters(q, now, ns, rels, es)
    ensures forall e :: e in es ==> Waiting(q, now, e)
  {
    hide Waiting, FreedFor, InOrder;
  }

  lemma LeaseBack(t: Tables, r: Tables, now: Time, later: Time, o: string)
    requires SameOwner(t, r, o) && r.Alive(o, later) && now <= later
    ensures t.Alive(o, now)
  {
  }

  // --- nobody is left waiting for nothing ---

  /** A granted acquire only tightens the tables for everyone else, but for what it released. */
  lemma GrantTightens(t: Tables, pol: Policies, now: Time, ns: string, alg: LockAlgorithm, a: AcquireArgs, owner: string)
    requires Good(t, pol) && NoSep(ns) && alg == pol.InForce(ns) && owner != a.owner && Acquire(t, now, ns, alg, a).0.Ok? && !Lapses(now, a.ttl)
    ensures Tighter(t, Acquire(t, now, ns, alg, a).1, now, owner, Given(ns, a.releases))
  {
    hide Good, NoSep, Acquire, Tighter, Given, Lapses, FinishAcquire, Onward, Steady;
    if a.requests != [] {
      AcquireTighter(t, pol, now, ns, alg, a, owner);
    } else if a.releases != [] {
      NothingExecutes(t, now, ns, alg, a);
      AcquireGood(t, pol, now, ns, alg, a);
      SteadyRefl(t, now, a.owner);
      FinishTighter(t, t, pol, now, ns, a, owner);
    } else {
      NothingAtAll(t, now, ns, alg, a, owner);
    }
  }

  lemma NothingAtAll(t: Tables, now: Time, ns: string, alg: LockAlgorithm, a: AcquireArgs, owner: string)
    requires a.requests == [] && a.releases == []
    ensures Tighter(t, Acquire(t, now, ns, alg, a).1, now, owner, Given(ns, a.releases))
  {
    TighterRefl(t, now, owner);
    assert Given(ns, []) == {};
  }

  lemma UnmetUnready(t: Tables, pol: Policies, now: Time, ns: string, policy: LockPolicy, a: AcquireArgs, w: Entry)
    requires Good(t, pol) && NoSep(ns) && policy.algorithm == pol.InForce(ns) && Lawful(w, pol) && w.args.owner != a.owner
    requires Acquire(t, now, ns, policy.algorithm, a).0.Ok? && !Lapses(now, a.ttl) && !Ready(t, now, w) && !MeetsFreed(w, FreedPaths(ns, a.releases))
    ensures !Ready(Acquire(t, now, ns, policy.algorithm, a).1, now, w)
  {
    hide Good, NoSep, Acquire, Tighter, Lapses, Spared, MeetsFreed, FreedPaths, Onward, Ready;
    var r := Acquire(t, now, ns, policy.algorithm, a).1;
    GrantTightens(t, pol, now, ns, policy.algorithm, a, w.args.owner);
    AcquireGood(t, pol, now, ns, policy.algorithm, a);
    SparedIff(w, Entry(0, a.owner, ns, a, policy));
    if Ready(r, now, w) {
      NeverReady(t, r, pol, now, Given(ns, a.releases), w);
      assert false;
    }
  }

  /**
   After a granted acquire, a waiter that was refused before it and is left queued is
   behind an earlier one, still refused, or met by what a grant of the sweep freed;
   unless the acquire's own lease is over at once.
   */
  lemma GrantSettlesWaiters(cfg: Config, g: Group, cmd: Command, w: Entry)
    requires FirstSeen(cfg, g, cmd) && cmd.op.AcquireOp? && GrantedNow(Apply(cfg, g, cmd).0)
    requires var now := EffectiveTime(g, cmd);
             && !Lapses(now, cmd.op.args.ttl) && w.owner != cmd.op.args.owner
             && Waiting(g.q, now, w) && !Ready(g.t, now, w) && Waiting(Apply(cfg, g, cmd).1.q, now, w)
    ensures var (response, r) := Apply(cfg, g, cmd);
            var now := EffectiveTime(g, cmd);
            BehindEarlier(r.q, now, w) || !Ready(r.t, now, w) || exists e :: GrantedHere(g, r, now, response, e) && Frees(now, e, w)
  {
    hide Good, QueueGood, Apply, ExecuteMinted, NoSep, Outranked, AllGrantable, Tokened, Acquire, Settle, Onward, Ready, BehindEarlier, Frees, Waiting,
         GrantSweep, GrantSweepForPaths, FreedPaths, MeetsFreed, Dequeue, Lapses, FreedWaiters, FifoList;
    var now, ns, policy := EffectiveTime(g, cmd), cmd.op.ns, cmd.op.policy;
    var a, g1 := GrantWas(cfg, g, cmd);
    var pol := PoliciesOf(g, cfg.fallback);
    TokenedKeeps(g, ns, cmd.op.args, policy.algorithm, a);
    GrantSettles(g1, now, cfg.fallback, ns, a, policy);
    var (o, t1) := Acquire(g.t, now, ns, policy.algorithm, a);
    AcquireGood(g.t, pol, now, ns, policy.algorithm, a);
    var q0, es, turns, s := SettleIs(g1, t1, now, cfg.fallback, ns, a, o.token);
    WaiterOwns(g.q, now, pol, w);
    DequeueGood(g.q, now, pol, a.owner);
    if !MeetsFreed(w, FreedPaths(ns, a.releases)) { UnmetUnready(g.t, pol, now, ns, policy, a, w); }
    SettleLeaves(t1, q0, now, pol, ns, a, g.t.Alive(a.owner, now), w);
    if e :| e in s.granted && Frees(now, e, w) {
      GrantedOnList(t1, q0, now, es, turns, s, e);
      ListWaits(q0, now, ns, a.releases, es);
      GrantedIsTold(t1, q0, now, es, turns, s, e);
      assert GrantedHere(g, Apply(cfg, g, cmd).1, now, Apply(cfg, g, cmd).0, e);
    }
  }

  lemma SettleLeaves(t: Tables, q: Queue, now: Time, pol: Policies, ns: string, a: AcquireArgs, wasAlive: bool, w: Entry)
    requires Good(t, pol) && QueueGood(q, now, pol) && Waiting(q, now, w) && (MeetsFreed(w, FreedPaths(ns, a.releases)) || !Ready(t, now, w))
    requires Waiting(SettleSweep(t, q, now, ns, a, wasAlive).q, now, w)
    ensures var s := SettleSweep(t, q, now, ns, a, wasAlive);
            BehindEarlier(s.q, now, w) || !Ready(s.t, now, w) || exists e :: e in s.granted && Frees(now, e, w)
  {
    hide Good, QueueGood, Ready, BehindEarlier, Frees, Waiting, GrantSweep, GrantSweepForPaths, FreedPaths, MeetsFreed;
    if !wasAlive && a.requests != [] { FullSweepProgress(t, q, now, pol, w); }
    else { FreedSweepSuffices(t, q, now, pol, FreedPaths(ns, a.releases), w); }
  }
}

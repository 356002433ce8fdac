/**
 What one applied command does to the holds, the leases and the waiters of a group,
 operation by operation, and what it answers. Releases first: the release of named
 locks, the owner-wide releases and the renewal.
 */
module Commands {
  import opened Paths
  import opened Expiry
  import opened LockSpec
  import opened LockInvariant
  import opened ApplyProof
  import opened EngineProof
  import opened AllOrNothing
  import opened AcquireFrame
  import opened QueueSpec
  import opened QueueProof
  import opened SweepProof
  import opened MachineSpec
  import opened MachineProof
  import opened GcProof
  import opened Runs
  import opened Fairness
  import opened Progress
  import opened Leftover
  import opened Turns

  // --- fresh commands ---

  /** A command that is not a replay, on a group between commands. */
  ghost predicate FirstSeen(cfg: Config, g: Group, cmd: Command) {
    Inv(g, cfg.fallback) && Stamped(cmd) && Recall(g, EffectiveTime(g, cmd), cmd.id).None?
  }

  /** Everything but the dedupe records and the clock. */
  ghost predicate SameState(g: Group, r: Group) {
    r.t == g.t && r.q == g.q && r.rows == g.rows && r.counter == g.counter && r.cursor == g.cursor
  }

  /** A fresh command is executed at its effective time and leaves what its execution left, or nothing if it was refused. */
  lemma FreshApplies(cfg: Config, g: Group, cmd: Command)
    requires FirstSeen(cfg, g, cmd)
    ensures var (response, r) := Apply(cfg, g, cmd);
            var (executed, g1) := Execute(g, EffectiveTime(g, cmd), cfg.fallback, cmd.id.Some?, cmd.op);
            && response == executed && SameState(if executed.Commits() then g1 else g, r)
            && r.clock == if cmd.op.NoopOp? then g.clock else EffectiveTime(g, cmd)
    ensures Sound(g, EffectiveTime(g, cmd), cfg.fallback)
  {
    hide Execute, Sound;
    KeptLater(g, EffectiveTime(g, cmd), cfg.fallback);
    NoopExecutes(g, EffectiveTime(g, cmd), cfg.fallback, cmd.id.Some?);
  }

  // --- the release of named locks ---

  /** Exactly the named locks of the owner are gone, and its lease with the last member of its hold set. */
  ghost predicate ReleasedFrom(t: Tables, r: Tables, ns: string, owner: string, reqs: seq<RelReq>) {
    && (forall h :: h in r.alg <==> h in t.alg && !(h.owner == owner && ReleasedInline(ns, reqs, h)))
    && (forall h :: h in r.alg ==> r.alg[h] == t.alg[h])
    && (forall e :: e in r.own <==> e in t.own && !(e.0 == owner && exists q :: q in reqs && e.1 == Member(q.mode, ns, q.path)))
    && r.alive == (if HoldsNothing(r, owner) then t.alive - {owner} else t.alive)
    && r.fence == t.fence && r.cap == t.cap
  }

  lemma ReleaseIs(t: Tables, ns: string, owner: string, reqs: seq<RelReq>)
    ensures ReleasedFrom(t, Release(t, ns, owner, reqs), ns, owner, reqs)
  {
    hide ReleaseEach, ReleasedInline, HoldsNothing;
    var t1 := ReleaseEach(t, ns, owner, reqs);
    ReleaseFrame(t, ns, owner, reqs);
    IdleSame(t1, owner, owner);
    forall h ensures h in t1.alg <==> h in t.alg && !(h.owner == owner && ReleasedInline(ns, reqs, h))
      ensures h in t1.alg ==> t1.alg[h] == t.alg[h] { ReleaseExact(t, ns, owner, reqs, h); }
    forall e ensures e in t1.own <==> e in t.own && !(e.0 == owner && exists q :: q in reqs && e.1 == Member(q.mode, ns, q.path)) {
      ReleaseOwn(t, ns, owner, reqs, e);
    }
  }

  /** One of the two paths is the other, or lies above it. */
  predicate Near(p: string, f: string) { p == f || IsStrictAncestor(p, f) || DescendantPrefix(f) <= p }

  /** One of the waiter's contended paths is a released path, above one or below one. */
  ghost predicate FreedFor(w: Entry, ns: string, reqs: seq<RelReq>) {
    exists x, q :: x in EntryWants(w) && q in reqs && Near(x.path, ScopedPath(ns, q.path))
  }

  lemma FreedForIff(w: Entry, ns: string, reqs: seq<RelReq>)
    ensures MeetsFreed(w, FreedPaths(ns, reqs)) <==> FreedFor(w, ns, reqs)
  {
    hide EntryWants, ScopedPath, FreedPaths, IsStrictAncestor, DescendantPrefix;
    FreedPathsAre(ns, reqs);
    if x, f :| x in EntryWants(w) && f in FreedPaths(ns, reqs) && Touches(x.path, f) {
      var q :| q in reqs && f == ScopedPath(ns, q.path);
    }
    if x, q :| x in EntryWants(w) && q in reqs && Near(x.path, ScopedPath(ns, q.path)) {
      assert ScopedPath(ns, q.path) in FreedPaths(ns, reqs);
    }
  }

  /** The live waiters that want something a release freed, in the order they came. */
  ghost predicate FreedWaiters(q: Queue, now: Time, ns: string, reqs: seq<RelReq>, es: seq<Entry>) {
    InOrder(es) && forall e :: e in es <==> Waiting(q, now, e) && FreedFor(e, ns, reqs)
  }

  /** What a sweep answers: the owners it told, if any. */
  predicate AnswersTold(response: Response, owners: seq<string>) {
    if owners == [] then response == Unit else response == Granted(owners)
  }

  /** The command answered with this response and left these tables and this queue, policies and counter untouched. */
  ghost predicate SweptInto(g: Group, r: Group, response: Response, s: Swept) {
    s.t == r.t && s.q == r.q && AnswersTold(response, s.notify) && r.rows == g.rows && r.counter == g.counter
  }

  ghost predicate ReleaseLaw(g: Group, r: Group, now: Time, op: Op, response: Response, es: seq<Entry>, turns: seq<Tables>, s: Swept)
    requires op.ReleaseOp?
  {
    && SweptInto(g, r, response, s)
    && turns != [] && ReleasedFrom(g.t, turns[0], op.ns, op.owner, op.reqs)
    && FreedWaiters(g.q, now, op.ns, op.reqs, es) && SweptOver(turns[0], g.q, now, es, turns, s)
  }

  /** A release takes exactly the named locks, then tries, in order, exactly the waiters that want something it freed. */
  lemma ReleaseApplied(cfg: Config, g: Group, cmd: Command) returns (es: seq<Entry>, turns: seq<Tables>, s: Swept)
    requires FirstSeen(cfg, g, cmd) && cmd.op.ReleaseOp?
    ensures ReleaseLaw(g, Apply(cfg, g, cmd).1, EffectiveTime(g, cmd), cmd.op, Apply(cfg, g, cmd).0, es, turns, s)
  {
    hide Good, QueueGood, Apply, FirstSeen, GrantSweepForPaths, FreedPaths, Release, SweptOver, Waiting, MeetsFreed, FreedFor, ReleasedFrom, Onward;
    var now, ns, reqs := EffectiveTime(g, cmd), cmd.op.ns, cmd.op.reqs;
    FreshApplies(cfg, g, cmd);
    var pol := PoliciesOf(g, cfg.fallback);
    var t0 := Release(g.t, ns, cmd.op.owner, reqs);
    ReleaseIs(g.t, ns, cmd.op.owner, reqs);
    ReleaseGood(g.t, pol, ns, cmd.op.owner, reqs);
    es, turns := TargetedSweepTurns(t0, g.q, now, pol, FreedPaths(ns, reqs));
    s := GrantSweepForPaths(t0, g.q, now, FreedPaths(ns, reqs));
    forall e ensures MeetsFreed(e, FreedPaths(ns, reqs)) <==> FreedFor(e, ns, reqs) { FreedForIff(e, ns, reqs); }
    SweptFrom(t0, g.q, now, es, turns, s);
  }

  lemma SweptFrom(t: Tables, q: Queue, now: Time, es: seq<Entry>, turns: seq<Tables>, s: Swept)
    requires SweptOver(t, q, now, es, turns, s)
    ensures turns != [] && turns[0] == t
  {
    hide HoldLaw, SameOwner, TurnLaw, TurnLeaves, HeldBack, Waiting;
  }

  /** A live hold that a sweep made was asked for by its owner's waiter: one it granted, or one whose list clashes with itself. */
  lemma GainedBy(t: Tables, q: Queue, now: Time, es: seq<Entry>, turns: seq<Tables>, s: Swept, h: Hold)
    requires SweptOver(t, q, now, es, turns, s) && HeldLive(s.t, now, h) && !HeldLive(t, now, h)
    ensures exists w :: w in es && w.args.owner == h.owner && Asks(w, h) && (w in s.granted || SelfConflicting(w.ns, w.policy.algorithm, w.args.requests))
  {
    hide SweepLaw, SameOwner, HeldLive, AsksNew, SelfConflicting, GivesUp;
    assert HoldLaw(t, now, es, s, h);
  }

  /** A live hold that a sweep took was given up by its owner's granted waiter. */
  lemma LostBy(t: Tables, q: Queue, now: Time, es: seq<Entry>, turns: seq<Tables>, s: Swept, h: Hold)
    requires SweptOver(t, q, now, es, turns, s) && HeldLive(t, now, h) && !HeldLive(s.t, now, h)
    ensures exists w :: w in es && w in s.granted && GivesUp(now, w.ns, w.args, h)
  {
    hide SweepLaw, SameOwner, HeldLive, AsksNew, SelfConflicting, GivesUp;
    assert HoldLaw(t, now, es, s, h);
  }

  /** Whoever the sweep granted was waiting, is told, and waits no more. */
  lemma GrantedIsTold(t: Tables, q: Queue, now: Time, es: seq<Entry>, turns: seq<Tables>, s: Swept, w: Entry)
    requires SweptOver(t, q, now, es, turns, s) && w in es && w in s.granted
    ensures w.owner in s.notify && !Waiting(s.q, now, w)
  {
    hide HoldLaw, SameOwner, HeldBack, TurnLeaves, Grants, Blocked, Outrun, Waiting, ToldInOrder;
    var i :| 0 <= i < |es| && es[i] == w;
    assert TurnLaw(now, es[i], HeldBack(s.q, now, es, i), turns[i], s);
    EndsApart(turns[i], now, w);
  }

  ghost predicate Named(op: Op, h: Hold)
    requires op.ReleaseOp?
  {
    h.owner == op.owner && ReleasedInline(op.ns, op.reqs, h)
  }

  lemma UnnamedStays(t: Tables, pol: Policies, r: Tables, now: Time, op: Op, h: Hold)
    requires Good(t, pol) && op.ReleaseOp? && ReleasedFrom(t, r, op.ns, op.owner, op.reqs) && HeldLive(t, now, h) && !Named(op, h)
    ensures HeldLive(r, now, h)
  {
    hide Core, Exclusive, OneAlgorithm, SemaphoreBounded, Fenced, LeasesFiled, ScopedPath;
    assert CoversHold(t.own, h);
    var m :| (h.owner, m) in t.own && m.mode == h.mode && m.Key() == h.key;
    assert (h.owner, m) in r.own;
    assert (h.owner, m).0 == h.owner;
  }

  /** The owners a response reports as granted or woken in place. */
  function Told(response: Response): (owners: seq<string>) {
    match response
    case Granted(owners) => owners
    case AcquiredGranted(_, owners) => owners
    case GcDone(_, _, owners) => owners
    case _ => []
  }

  /** The waiter was granted by this command: it waited before, waits no more, and its owner is among those told. */
  ghost predicate GrantedHere(g: Group, r: Group, now: Time, response: Response, w: Entry) {
    Waiting(g.q, now, w) && !Waiting(r.q, now, w) && w.owner in Told(response)
  }

  /** A waiter of the hold's owner asked for it, and was granted by this command; or its list clashes with itself. */
  ghost predicate AskedBack(g: Group, r: Group, now: Time, response: Response, w: Entry, h: Hold) {
    && Waiting(g.q, now, w) && w.args.owner == h.owner && Asks(w, h)
    && (GrantedHere(g, r, now, response, w) || SelfConflicting(w.ns, w.policy.algorithm, w.args.requests))
  }

  /**
   After a release a named lock is held again only if a waiter of that owner asked
   for it and was granted by the command, or clashes with itself; every other live
   hold stays, unless a waiter granted by the command gave it up.
   */
  lemma ReleaseEffect(cfg: Config, g: Group, cmd: Command, h: Hold)
    requires FirstSeen(cfg, g, cmd) && cmd.op.ReleaseOp?
    ensures var (response, r) := Apply(cfg, g, cmd);
            var now := EffectiveTime(g, cmd);
            && (Named(cmd.op, h) && HeldLive(r.t, now, h) ==> exists w :: AskedBack(g, r, now, response, w, h))
            && (!Named(cmd.op, h) && HeldLive(g.t, now, h) && !HeldLive(r.t, now, h) ==>
                  exists w :: GrantedHere(g, r, now, response, w) && GivesUp(now, w.ns, w.args, h))
  {
    hide Good, QueueGood, Apply, SweptOver, ReleasedFrom, HeldLive, AsksNew, GivesUp, Waiting, FreedFor, SelfConflicting, ReleasedInline;
    var now := EffectiveTime(g, cmd);
    var es, turns, s := ReleaseApplied(cfg, g, cmd);
    FreshApplies(cfg, g, cmd);
    var t0 := turns[0];
    if Named(cmd.op, h) && HeldLive(s.t, now, h) {
      NamedGone(g.t, t0, now, cmd.op, h);
      GainedBy(t0, g.q, now, es, turns, s, h);
      var w :| w in es && w.args.owner == h.owner && Asks(w, h)
               && (w in s.granted || SelfConflicting(w.ns, w.policy.algorithm, w.args.requests));
      if w in s.granted { GrantedIsTold(t0, g.q, now, es, turns, s, w); }
      assert AskedBack(g, Apply(cfg, g, cmd).1, now, Apply(cfg, g, cmd).0, w, h);
    }
    if !Named(cmd.op, h) && HeldLive(g.t, now, h) && !HeldLive(s.t, now, h) {
      UnnamedStays(g.t, PoliciesOf(g, cfg.fallback), t0, now, cmd.op, h);
      LostBy(t0, g.q, now, es, turns, s, h);
      var w :| w in es && w in s.granted && GivesUp(now, w.ns, w.args, h);
      GrantedIsTold(t0, g.q, now, es, turns, s, w);
      assert GrantedHere(g, Apply(cfg, g, cmd).1, now, Apply(cfg, g, cmd).0, w);
    }
  }

  lemma NamedGone(t: Tables, r: Tables, now: Time, op: Op, h: Hold)
    requires op.ReleaseOp? && ReleasedFrom(t, r, op.ns, op.owner, op.reqs) && Named(op, h)
    ensures !HeldLive(r, now, h)
  {
    hide ReleasedInline;
  }

  /** After a release no waiter that was refused before is left waiting for nothing. */
  lemma ReleaseSettles(cfg: Config, g: Group, cmd: Command, w: Entry)
    requires FirstSeen(cfg, g, cmd) && cmd.op.ReleaseOp?
    requires var now := EffectiveTime(g, cmd); Waiting(g.q, now, w) && !Ready(g.t, now, w) && Waiting(Apply(cfg, g, cmd).1.q, now, w)
    ensures var (response, r) := Apply(cfg, g, cmd);
            var now := EffectiveTime(g, cmd);
            BehindEarlier(r.q, now, w) || !Ready(r.t, now, w) || exists e :: GrantedHere(g, r, now, response, e) && Frees(now, e, w)
  {
    hide Good, QueueGood, Apply, Ready, Waiting, BehindEarlier, Frees, GrantSweepForPaths, FreedPaths, Release, SweptOver, MeetsFreed, Onward;
    var now, ns, reqs := EffectiveTime(g, cmd), cmd.op.ns, cmd.op.reqs;
    FreshApplies(cfg, g, cmd);
    var pol := PoliciesOf(g, cfg.fallback);
    var t0 := Release(g.t, ns, cmd.op.owner, reqs);
    var s := GrantSweepForPaths(t0, g.q, now, FreedPaths(ns, reqs));
    TargetedSweepSuffices(g.t, g.q, now, pol, ns, cmd.op.owner, reqs, w);
    if e :| e in s.granted && Frees(now, e, w) {
      ReleaseGood(g.t, pol, ns, cmd.op.owner, reqs);
      var es, turns := TargetedSweepTurns(t0, g.q, now, pol, FreedPaths(ns, reqs));
      GrantedOnList(t0, g.q, now, es, turns, s, e);
      GrantedIsTold(t0, g.q, now, es, turns, s, e);
      assert GrantedHere(g, Apply(cfg, g, cmd).1, now, Apply(cfg, g, cmd).0, e);
    }
  }

  lemma GrantedOnList(t: Tables, q: Queue, now: Time, es: seq<Entry>, turns: seq<Tables>, s: Swept, w: Entry)
    requires SweptOver(t, q, now, es, turns, s) && w in s.granted
    ensures w in es
  {
    hide HoldLaw, SameOwner, HeldBack, TurnLaw, TurnLeaves, Waiting, ToldInOrder;
  }

  // --- owner-wide releases ---

  /** The owner a command clears out. */
  function Evicted(op: Op): (o: Option<string>) {
    match op
    case ReleaseAllOp(owner) => Some(owner)
    case ForceReleaseOp(victim) => Some(victim)
    case _ => None
  }

  /** Everything of the owner is gone, and nothing else. */
  ghost predicate WithoutOwner(t: Tables, r: Tables, owner: string) {
    && (forall h :: h in r.alg <==> h in t.alg && h.owner != owner) && (forall h :: h in r.alg ==> r.alg[h] == t.alg[h])
    && (forall e :: e in r.own <==> e in t.own && e.0 != owner)
    && r.alive == t.alive - {owner} && r.fence == t.fence && r.cap == t.cap
  }

  lemma EvictIs(t: Tables, owner: string)
    ensures WithoutOwner(t, ReleaseOwner(t, owner), owner)
  {
  }

  /** The owner's waiter is gone, and no other. */
  ghost predicate WithoutWaiter(q: Queue, r: Queue, now: Time, owner: string) {
    forall w :: Waiting(r, now, w) <==> Waiting(q, now, w) && w.owner != owner
  }

  lemma DequeueIs(q: Queue, now: Time, pol: Policies, owner: string)
    requires QueueGood(q, now, pol)
    ensures WithoutWaiter(q, Dequeue(q, now, owner), now, owner)
  {
    hide QueueGood, Dequeue;
    DequeueShrinks(q, now, pol, owner);
    forall w | Waiting(q, now, w) && w.owner != owner ensures Waiting(Dequeue(q, now, owner), now, w) { DequeueLocal(q, now, pol, owner, w); }
  }

  ghost predicate EvictLaw(
    g: Group, r: Group, now: Time, owner: string, response: Response, q0: Queue, es: seq<Entry>, turns: seq<Tables>, s: Swept)
  {
    && SweptInto(g, r, response, s)
    && turns != [] && WithoutOwner(g.t, turns[0], owner) && WithoutWaiter(g.q, q0, now, owner)
    && FifoList(q0, now, es) && SweptOver(turns[0], q0, now, es, turns, s)
  }

  lemma EvictExecutes(g: Group, now: Time, fallback: LockAlgorithm, identified: bool, op: Op)
    requires Evicted(op).Some?
    ensures var o := Evicted(op).value;
            var s := GrantSweep(ReleaseOwner(g.t, o), Dequeue(g.q, now, o), now);
            var (response, r) := Execute(g, now, fallback, identified, op);
            SweptInto(g, r, response, s) && response.Commits()
  {
    hide GrantSweep, ReleaseOwner, Dequeue;
  }

  /** An owner-wide release takes everything of one owner, then tries every other live waiter in FIFO order. */
  lemma EvictApplied(cfg: Config, g: Group, cmd: Command) returns (q0: Queue, es: seq<Entry>, turns: seq<Tables>, s: Swept)
    requires FirstSeen(cfg, g, cmd) && Evicted(cmd.op).Some?
    ensures EvictLaw(g, Apply(cfg, g, cmd).1, EffectiveTime(g, cmd), Evicted(cmd.op).value, Apply(cfg, g, cmd).0, q0, es, turns, s)
  {
    hide Good, QueueGood, Apply, FirstSeen, GrantSweep, ReleaseOwner, SweptOver, WithoutOwner, WithoutWaiter, Waiting, Dequeue, Onward, FifoList, Execute,
         Evicted, AnswersTold;
    var now, owner := EffectiveTime(g, cmd), Evicted(cmd.op).value;
    FreshApplies(cfg, g, cmd);
    EvictExecutes(g, now, cfg.fallback, cmd.id.Some?, cmd.op);
    var pol := PoliciesOf(g, cfg.fallback);
    var t0 := ReleaseOwner(g.t, owner);
    q0 := Dequeue(g.q, now, owner);
    EvictIs(g.t, owner);
    ReleaseOwnerGood(g.t, pol, owner);
    DequeueIs(g.q, now, pol, owner);
    DequeueGood(g.q, now, pol, owner);
    es, turns := FullSweepTurns(t0, q0, now, pol);
    s := GrantSweep(t0, q0, now);
    SweptFrom(t0, q0, now, es, turns, s);
  }

  /** Nothing of the owner: no member of its hold set, no hold, no lease and no live waiter. */
  ghost predicate NothingOf(g: Group, now: Time, owner: string) {
    && (forall e :: e in g.t.own ==> e.0 != owner) && (forall h :: h in g.t.alg ==> h.owner != owner)
    && owner !in g.t.alive && forall w :: Waiting(g.q, now, w) ==> w.owner != owner
  }

  lemma UnheldUnowned(t: Tables, pol: Policies, owner: string)
    requires Good(t, pol) && forall e :: e in t.own ==> e.0 != owner
    ensures forall h :: h in t.alg ==> h.owner != owner
  {
    hide Core, Exclusive, OneAlgorithm, SemaphoreBounded, Fenced, LeasesFiled, ScopedPath;
    forall h | h in t.alg ensures h.owner != owner {
      assert CoversHold(t.own, h);
      var m :| (h.owner, m) in t.own && m.mode == h.mode && m.Key() == h.key;
      assert (h.owner, m).0 != owner;
    }
  }

  lemma ListApart(q: Queue, q0: Queue, now: Time, pol: Policies, owner: string, es: seq<Entry>)
    requires QueueGood(q, now, pol) && WithoutWaiter(q, q0, now, owner) && FifoList(q0, now, es)
    ensures forall e :: e in es ==> e.args.owner != owner && Waiting(q, now, e)
  {
    hide QueueGood, Waiting;
    forall e | e in es ensures e.args.owner != owner && Waiting(q, now, e) { WaiterOwns(q, now, pol, e); }
  }

  lemma UntriedSame(t: Tables, q: Queue, now: Time, es: seq<Entry>, turns: seq<Tables>, s: Swept, o: string)
    requires SweptOver(t, q, now, es, turns, s) && Untried(es, o)
    ensures SameOwner(t, s.t, o)
  {
    hide SweepLaw, HoldLaw, SameOwner;
  }

  /** Nobody waits after a full sweep who was not on its list. */
  lemma WaitersListed(t: Tables, q: Queue, now: Time, es: seq<Entry>, turns: seq<Tables>, s: Swept)
    requires SweptOver(t, q, now, es, turns, s) && FifoList(q, now, es)
    ensures forall w :: Waiting(s.q, now, w) ==> w in es
  {
    hide HoldLaw, SameOwner, TurnLaw, TurnLeaves, HeldBack, Waiting, ToldInOrder;
  }

  /** An owner-wide release leaves nothing of its owner behind, whatever the sweep after it grants. */
  lemma EvictEmpties(cfg: Config, g: Group, cmd: Command)
    requires FirstSeen(cfg, g, cmd) && Evicted(cmd.op).Some?
    ensures NothingOf(Apply(cfg, g, cmd).1, EffectiveTime(g, cmd), Evicted(cmd.op).value)
  {
    hide Good, QueueGood, Apply, SweptOver, Waiting, FifoList, Onward, Behind, SeenFiled, Execute, Evicted;
    var now, owner := EffectiveTime(g, cmd), Evicted(cmd.op).value;
    var q0, es, turns, s := EvictApplied(cfg, g, cmd);
    FreshApplies(cfg, g, cmd);
    ListApart(g.q, q0, now, PoliciesOf(g, cfg.fallback), owner, es);
    UntriedSame(turns[0], q0, now, es, turns, s, owner);
    WaitersListed(turns[0], q0, now, es, turns, s);
    var r := Apply(cfg, g, cmd).1;
    forall e | e in r.t.own ensures e.0 != owner { assert e == (e.0, e.1); }
    ApplyProgress(cfg, g, cmd);
    UnheldUnowned(r.t, PoliciesOf(r, cfg.fallback), owner);
    forall w | Waiting(r.q, now, w) ensures w.owner != owner { assert w in es; WaiterOwns(g.q, now, PoliciesOf(g, cfg.fallback), w); }
  }

  /** Every other owner's live hold stays, unless a waiter granted by the command gave it up. */
  lemma EvictSpares(cfg: Config, g: Group, cmd: Command, h: Hold)
    requires FirstSeen(cfg, g, cmd) && Evicted(cmd.op).Some? && h.owner != Evicted(cmd.op).value
    ensures var (response, r) := Apply(cfg, g, cmd);
            var now := EffectiveTime(g, cmd);
            HeldLive(g.t, now, h) && !HeldLive(r.t, now, h) ==> exists w :: GrantedHere(g, r, now, response, w) && GivesUp(now, w.ns, w.args, h)
  {
    hide Good, QueueGood, Apply, SweptOver, GivesUp, Waiting, FifoList, Execute, Evicted;
    var now, owner := EffectiveTime(g, cmd), Evicted(cmd.op).value;
    var q0, es, turns, s := EvictApplied(cfg, g, cmd);
    FreshApplies(cfg, g, cmd);
    if HeldLive(g.t, now, h) && !HeldLive(s.t, now, h) {
      LostBy(turns[0], q0, now, es, turns, s, h);
      var w :| w in es && w in s.granted && GivesUp(now, w.ns, w.args, h);
      ListApart(g.q, q0, now, PoliciesOf(g, cfg.fallback), owner, es);
      GrantedIsTold(turns[0], q0, now, es, turns, s, w);
      assert GrantedHere(g, Apply(cfg, g, cmd).1, now, Apply(cfg, g, cmd).0, w);
    }
  }

  /** A waiter left by the full sweep is behind an earlier one, still refused, or met by what a later waiter's grant freed. */
  lemma EvictSettles(cfg: Config, g: Group, cmd: Command, w: Entry)
    requires FirstSeen(cfg, g, cmd) && Evicted(cmd.op).Some? && Waiting(Apply(cfg, g, cmd).1.q, EffectiveTime(g, cmd), w)
    ensures var (response, r) := Apply(cfg, g, cmd);
            var now := EffectiveTime(g, cmd);
            BehindEarlier(r.q, now, w) || !Ready(r.t, now, w)
            || exists e :: GrantedHere(g, r, now, response, e) && w.seqno < e.seqno && Frees(now, e, w)
  {
    hide Good, QueueGood, Apply, Ready, BehindEarlier, Frees, GrantSweep, ReleaseOwner, Dequeue, SweptOver, Onward, FifoList, Waiting, Execute, Evicted;
    var now, owner := EffectiveTime(g, cmd), Evicted(cmd.op).value;
    FreshApplies(cfg, g, cmd);
    EvictExecutes(g, now, cfg.fallback, cmd.id.Some?, cmd.op);
    var pol := PoliciesOf(g, cfg.fallback);
    var t0, q0 := ReleaseOwner(g.t, owner), Dequeue(g.q, now, owner);
    var s := GrantSweep(t0, q0, now);
    ReleaseOwnerGood(g.t, pol, owner);
    DequeueGood(g.q, now, pol, owner);
    DequeueIs(g.q, now, pol, owner);
    FullSweepProgress(t0, q0, now, pol, w);
    if e :| e in After(s.granted, w) && Waiting(q0, now, e) && Frees(now, e, w) {
      var es, turns := FullSweepTurns(t0, q0, now, pol);
      GrantedOnList(t0, q0, now, es, turns, s, e);
      GrantedIsTold(t0, q0, now, es, turns, s, e);
      assert GrantedHere(g, Apply(cfg, g, cmd).1, now, Apply(cfg, g, cmd).0, e);
    }
  }

  // --- renewals, fences and no-ops ---

  /** A renewal extends exactly one lease, and only of a live owner that holds something; otherwise nothing changes. */
  lemma RenewApplied(cfg: Config, g: Group, cmd: Command)
    requires FirstSeen(cfg, g, cmd) && cmd.op.RenewOp?
    ensures var (response, r) := Apply(cfg, g, cmd);
            var (now, owner) := (EffectiveTime(g, cmd), cmd.op.owner);
            && response.RenewDone? && r.q == g.q && r.rows == g.rows && r.counter == g.counter
            && (response.renewal.Renewed? <==> g.t.Alive(owner, now) && exists m :: (owner, m) in g.t.own)
            && r.t == g.t.(alive := r.t.alive, slots := r.t.slots)
            && (response.renewal.Renewed? ==> owner in r.t.alive && r.t.alive[owner] == ExpiryAt(now, cmd.op.ttl))
            && (response.renewal.Renewed? ==> r.t.alive - {owner} == g.t.alive - {owner})
            && (!response.renewal.Renewed? ==> r.t == g.t)
  {
    hide Apply, FirstSeen, Renew, Sound;
    FreshApplies(cfg, g, cmd);
    RenewExact(g.t, EffectiveTime(g, cmd), cmd.op.owner, cmd.op.ttl);
  }

  /** The counter command answers with the counter it leaves: one more than before, below saturation. */
  lemma CounterApplied(cfg: Config, g: Group, cmd: Command)
    requires FirstSeen(cfg, g, cmd) && cmd.op.IncrFenceOp?
    ensures var (response, r) := Apply(cfg, g, cmd);
            && response == Fence(r.counter) && r.t == g.t && r.q == g.q && r.rows == g.rows
            && (g.counter < I64_MAX ==> r.counter == g.counter + 1)
  {
    hide Apply, FirstSeen, Sound;
    FreshApplies(cfg, g, cmd);
  }

  /** A no-op is answered and changes nothing, not even the clock. */
  lemma NoopApplied(cfg: Config, g: Group, cmd: Command)
    requires FirstSeen(cfg, g, cmd) && cmd.op.NoopOp?
    ensures var (response, r) := Apply(cfg, g, cmd); response == Unit && SameState(g, r) && r.clock == g.clock
  {
    hide Apply, FirstSeen, Sound, Execute;
    FreshApplies(cfg, g, cmd);
    NoopExecutes(g, EffectiveTime(g, cmd), cfg.fallback, cmd.id.Some?);
  }
}

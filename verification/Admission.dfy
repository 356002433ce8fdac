/**
 The acquire command: when it is refused for its route or its policy record, when it
 is parked and where, when it is granted and with which token, and what its grant
 sets free.
 */
module Admission {
  import opened Paths
  import opened Expiry
  import opened LockSpec
  import opened LockInvariant
  import opened ApplyProof
  import opened Decision
  import opened AllOrNothing
  import opened AcquireDecision
  import opened Outcomes
  import opened QueueSpec
  import opened QueueProof
  import opened EnqueueProof
  import opened SweepProof
  import opened MachineSpec
  import opened MachineProof
  import opened Runs
  import opened Fairness
  import opened Leftover
  import opened Blame
  import opened Commands

  // --- what an acquire wants ---

  lemma {:induction false} NewPathsAre(ns: string, reqs: seq<LockReq>, p: (string, Mode))
    ensures p in NewPaths(ns, reqs) <==> exists q :: q in reqs && q.state == New && p == (ScopedPath(ns, q.path), q.mode)
  {
    hide ScopedPath;
    if reqs != [] {
      NewPathsAre(ns, reqs[1..], p);
      assert reqs[0] in reqs && forall q :: q in reqs <==> q == reqs[0] || q in reqs[1..];
    }
  }

  /** An acquire contends for exactly the paths it newly asks for. */
  lemma WantsAre(ns: string, reqs: seq<LockReq>, alg: LockAlgorithm, x: Want)
    ensures x in WantsOf(NewPaths(ns, reqs), alg) <==> exists q :: q in reqs && q.state == New && x == Want(ScopedPath(ns, q.path), q.mode, alg)
  {
    hide ScopedPath, NewPaths;
    var ps := NewPaths(ns, reqs);
    if x in WantsOf(ps, alg) {
      var i :| 0 <= i < |ps| && x == Want(ps[i].0, ps[i].1, alg);
      assert ps[i] in ps;
      NewPathsAre(ns, reqs, ps[i]);
    }
    if q :| q in reqs && q.state == New && x == Want(ScopedPath(ns, q.path), q.mode, alg) {
      NewPathsAre(ns, reqs, (ScopedPath(ns, q.path), q.mode));
      var i :| 0 <= i < |ps| && ps[i] == (ScopedPath(ns, q.path), q.mode);
      assert WantsOf(ps, alg)[i] == x;
    }
  }

  lemma {:induction false} NewPathsLast(ns: string, reqs: seq<LockReq>, q: LockReq)
    ensures |NewPaths(ns, reqs + [q])| == |NewPaths(ns, reqs)| + if q.state == New then 1 else 0
  {
    hide ScopedPath;
    if reqs != [] {
      assert (reqs + [q])[0] == reqs[0] && (reqs + [q])[1..] == reqs[1..] + [q];
      NewPathsLast(ns, reqs[1..], q);
    }
  }

  /** The places of the list that newly ask for something. */
  ghost function NewOnes(reqs: seq<LockReq>): (r: set<int>)
    ensures forall i :: i in r <==> 0 <= i < |reqs| && reqs[i].state == New
  {
    set i | 0 <= i < |reqs| && reqs[i].state == New
  }

  lemma NewOnesStep(reqs: seq<LockReq>)
    requires reqs != []
    ensures var n := |reqs| - 1; |NewOnes(reqs)| == |NewOnes(reqs[..n])| + if reqs[n].state == New then 1 else 0
  {
    var n := |reqs| - 1;
    if reqs[n].state == New { assert NewOnes(reqs) == NewOnes(reqs[..n]) + {n}; } else { assert NewOnes(reqs) == NewOnes(reqs[..n]); }
  }

  lemma {:induction false} NewCount(ns: string, reqs: seq<LockReq>)
    ensures |NewPaths(ns, reqs)| == |NewOnes(reqs)|
  {
    hide ScopedPath;
    if reqs == [] {
      assert NewOnes(reqs) == {};
    } else {
      var n := |reqs| - 1;
      NewCount(ns, reqs[..n]);
      NewPathsLast(ns, reqs[..n], reqs[n]);
      NewOnesStep(reqs);
      assert reqs[..n] + [reqs[n]] == reqs;
    }
  }

  /** A waiter counts for as many units as it newly asks for, and for one at least. */
  lemma UnitsAre(args: AcquireArgs)
    ensures QueueUnits(args) == if NewOnes(args.requests) == {} then 1 else |NewOnes(args.requests)|
  {
    NewCount("", args.requests);
  }

  /** The owner has the path on record in a mode that serves the want, or a write hold above it that covers it. */
  ghost predicate Serves(t: Tables, owner: string, x: Want, h: Hold) {
    && h in t.alg && h.owner == owner
    && ((h.key == x.path && (h.mode == Write || x.mode == Read)) || (x.alg.Recursive() && h.mode == Write && IsStrictAncestor(h.key, x.path)))
  }

  /** Admission takes the owner's own holds out of account exactly where they serve or cover the want. */
  lemma HoldsOrCoversIff(t: Tables, pol: Policies, owner: string, x: Want)
    requires Good(t, pol) && x.alg == pol.InForce(NamespaceOf(x.path)) && (x.alg.Semaphore? ==> x.mode == Write)
    ensures HoldsOrCovers(t, owner, x) <==> exists h :: Serves(t, owner, x, h)
  {
    hide IndexExact, Exclusive, OwnCovers, SemaphoreBounded, Fenced, LeasesFiled, GetAncestors, NamespaceOf, DescendantPrefix;
    if h :| Serves(t, owner, x, h) {
      if h.key != x.path { AncestorShape(h.key, x.path); }
      assert HasHold(t, h) && t.alg[h] == x.alg;
    }
    if t.Writes(owner, x.path) || (x.alg.Semaphore? && (x.path, owner) in t.sem) { assert Serves(t, owner, x, Hold(owner, Write, x.path)); }
    if x.mode == Read && (x.path, owner) in t.rd { assert Serves(t, owner, x, Hold(owner, Read, x.path)); }
    if a :| x.alg.Recursive() && a in GetAncestors(x.path) && t.Writes(owner, a) { assert Serves(t, owner, x, Hold(owner, Write, a)); }
  }

  // --- places in the queue ---

  /** A live waiter of another owner, ahead of the owner's own if it has one. */
  ghost predicate Ahead(q: Queue, now: Time, owner: string, w: Entry) {
    Waiting(q, now, w) && w.owner != owner && forall v :: Waiting(q, now, v) && v.owner == owner ==> w.seqno < v.seqno
  }

  lemma AheadIff(q: Queue, now: Time, pol: Policies, owner: string, w: Entry)
    requires QueueGood(q, now, pol) && Waiting(q, now, w)
    ensures Ahead(q, now, owner, w) <==> Before(w, owner, OwnerSeq(q, now, owner))
  {
    hide PathKeys, Counted, NoOrphans, QueueFiled, Current;
    var mine := OwnerSeq(q, now, owner);
    if mine.Some? {
      OwnerLive(q, now, pol, owner);
      assert Waiting(q, now, q.entries[mine.value].0);
    }
  }

  /** A waiter ahead of the owner conflicts with something it asks for and does not already hold or cover. */
  ghost predicate StandsAhead(t: Tables, q: Queue, now: Time, ns: string, args: AcquireArgs, alg: LockAlgorithm, w: Entry) {
    && Ahead(q, now, args.owner, w)
    && exists x, y :: x in WantsOf(NewPaths(ns, args.requests), alg) && !HoldsOrCovers(t, args.owner, x) && y in EntryWants(w) && WantsConflict(y, x)
  }

  lemma {:induction false} ContendingIff(t: Tables, owner: string, ws: seq<Want>, x: Want)
    ensures x in Contending(t, owner, ws) <==> x in ws && !HoldsOrCovers(t, owner, x)
  {
    hide HoldsOrCovers;
    if ws != [] {
      ContendingIff(t, owner, ws[1..], x);
      assert x in ws <==> x == ws[0] || x in ws[1..];
    }
  }

  lemma StandsIff(t: Tables, q: Queue, now: Time, pol: Policies, ns: string, args: AcquireArgs, alg: LockAlgorithm, w: Entry)
    requires QueueGood(q, now, pol) && Waiting(q, now, w)
    ensures StandsAhead(t, q, now, ns, args, alg, w) <==>
            && Before(w, args.owner, OwnerSeq(q, now, args.owner))
            && AnyConflict(EntryWants(w), Contending(t, args.owner, WantsOf(NewPaths(ns, args.requests), alg)))
  {
    hide QueueGood, Waiting, HoldsOrCovers, EntryWants, WantsOf, NewPaths, WantsConflict, Ahead;
    AheadIff(q, now, pol, args.owner, w);
    var ws := WantsOf(NewPaths(ns, args.requests), alg);
    forall x ensures x in Contending(t, args.owner, ws) <==> x in ws && !HoldsOrCovers(t, args.owner, x) { ContendingIff(t, args.owner, ws, x); }
  }

  /** The first waiter in line that stands ahead of the acquire. */
  ghost predicate FirstAhead(t: Tables, q: Queue, now: Time, ns: string, args: AcquireArgs, alg: LockAlgorithm, w: Entry) {
    StandsAhead(t, q, now, ns, args, alg, w) && forall v :: StandsAhead(t, q, now, ns, args, alg, v) ==> w.seqno <= v.seqno
  }

  lemma BlockerIs(t: Tables, q: Queue, now: Time, pol: Policies, ns: string, args: AcquireArgs, alg: LockAlgorithm)
    requires QueueGood(q, now, pol)
    ensures var b := BlockedByEarlier(t, q, now, ns, args, alg);
            if b.Some? then FirstAhead(t, q, now, ns, args, alg, b.value.0) else forall w :: !StandsAhead(t, q, now, ns, args, alg, w)
  {
    hide QueueGood, LiveEntries, EntryWants, WantsOf, NewPaths, Contending, AnyConflict, Waiting, Before, InOrder;
    var es := LiveEntries(q, now);
    var mine, ws := OwnerSeq(q, now, args.owner), Contending(t, args.owner, WantsOf(NewPaths(ns, args.requests), alg));
    LiveInOrder(q, now, pol);
    FirstBlockerIff(es, args.owner, mine, ws);
    forall w ensures StandsAhead(t, q, now, ns, args, alg, w) <==> w in es && Before(w, args.owner, mine) && AnyConflict(EntryWants(w), ws) {
      if Waiting(q, now, w) { StandsIff(t, q, now, pol, ns, args, alg, w); } else { NotAhead(t, q, now, ns, args, alg, w); }
    }
    var b := FirstBlocker(es, args.owner, mine, ws);
    if b.Some? {
      var i :| 0 <= i < |es| && es[i] == b.value.0 && Before(es[i], args.owner, mine) && AnyConflict(EntryWants(es[i]), ws)
               && forall j :: 0 <= j < i && Before(es[j], args.owner, mine) ==> !AnyConflict(EntryWants(es[j]), ws);
      hide StandsAhead;
      forall v | StandsAhead(t, q, now, ns, args, alg, v) ensures es[i].seqno <= v.seqno {
        var j :| 0 <= j < |es| && es[j] == v;
        OrderedSeqs(es, i, j);
      }
    }
  }

  lemma OrderedSeqs(es: seq<Entry>, i: nat, j: nat)
    requires InOrder(es) && i <= j < |es|
    ensures es[i].seqno <= es[j].seqno
  {
  }

  lemma NotAhead(t: Tables, q: Queue, now: Time, ns: string, args: AcquireArgs, alg: LockAlgorithm, w: Entry)
    requires !Waiting(q, now, w)
    ensures !StandsAhead(t, q, now, ns, args, alg, w)
  {
    hide EntryWants, WantsOf, NewPaths, HoldsOrCovers, WantsConflict;
  }

  lemma LiveInOrder(q: Queue, now: Time, pol: Policies)
    requires QueueGood(q, now, pol)
    ensures InOrder(LiveEntries(q, now)) && forall e :: e in LiveEntries(q, now) <==> Waiting(q, now, e)
  {
    hide PathKeys, UnitSum, LiveEntries;
    LiveEntriesFacts(q, now);
  }

  lemma {:induction false} FirstConflictIs(xs: seq<Want>, ys: seq<Want>)
    ensures var p := FirstConflict(xs, ys); p.Some? ==> exists x, y :: x in xs && y in ys && WantsConflict(x, y) && x.path == p.value
  {
    hide WantsConflict;
    if xs != [] {
      FirstConflictIs(xs[1..], ys);
      assert xs[0] in xs && forall x :: x in xs[1..] ==> x in xs;
    }
  }

  lemma {:induction false} BlockerPath(es: seq<Entry>, owner: string, mine: Option<nat>, ws: seq<Want>)
    ensures var b := FirstBlocker(es, owner, mine, ws);
            b.Some? ==> exists x, y :: x in EntryWants(b.value.0) && y in ws && WantsConflict(x, y) && x.path == b.value.1
  {
    hide EntryWants, FirstConflict, WantsConflict;
    if es != [] {
      FirstConflictIs(EntryWants(es[0]), ws);
      BlockerPath(es[1..], owner, mine, ws);
    }
  }

  // --- parking ---

  /** The owner's own live waiter, by its number. */
  function Mine(q: Queue, now: Time, owner: string): (r: set<nat>) { set s | s in q.entries && Live(q, now, s) && q.entries[s].0.owner == owner }

  /** The stored waiters, without the owner's own, leave no room for what it asks. */
  predicate QueueFull(q: Queue, now: Time, args: AcquireArgs) {
    UnitSum(q.entries - Mine(q, now, args.owner)) + QueueUnits(args) > QUEUE_SCAN_LIMIT
  }

  lemma MineIs(q: Queue, now: Time, pol: Policies, owner: string)
    requires Linked(q, now, pol)
    ensures Mine(q, now, owner) == if OwnerSeq(q, now, owner).Some? then {OwnerSeq(q, now, owner).value} else {}
  {
    hide PathKeys, NoOrphans, QueueFiled, Current;
    if OwnerSeq(q, now, owner).Some? { OwnerLive(q, now, pol, owner); }
  }

  lemma RoomLeft(q: Queue, now: Time, pol: Policies, owner: string, units: nat, s: nat, q1: Queue)
    requires Superseded(q, now, pol, owner, units, s, q1)
    ensures SaturatingSub(QueueCount(q1), units) == UnitSum(q1.entries - {s})
  {
    hide Linked, UnitSum, QueueCount;
  }

  lemma SupersedeKeeps(q: Queue, now: Time, pol: Policies, ns: string, args: AcquireArgs, policy: LockPolicy)
    requires Linked(q, now, pol)
    ensures var (units, s, q1) := Supersede(q, now, ns, args, policy);
            && q1.entries - {s} == q.entries - Mine(q, now, args.owner)
            && (if Parked(q, now, ns, args, policy) then s in q.entries && Some(s) == OwnerSeq(q, now, args.owner) else forall x :: x in q.entries ==> x < s)
  {
    hide UnitSum, QueueUnits, PathKeys, QueueCount, Indexed, OwnersPoint, NoOrphans, QueueFiled, Current;
    MineIs(q, now, pol, args.owner);
    if OwnerSeq(q, now, args.owner).Some? { OwnerLive(q, now, pol, args.owner); }
    var (units, s, q1) := Supersede(q, now, ns, args, policy);
    assert q1.entries - {s} == q.entries - Mine(q, now, args.owner);
  }

  lemma RoomIs(q: Queue, now: Time, pol: Policies, ns: string, args: AcquireArgs, policy: LockPolicy)
    requires QueueGood(q, now, pol)
    ensures var (units, s, q1) := Supersede(q, now, ns, args, policy);
            && SaturatingSub(QueueCount(q1), units) == UnitSum(q.entries - Mine(q, now, args.owner))
            && q1.entries - {s} == q.entries - Mine(q, now, args.owner)
            && (if Parked(q, now, ns, args, policy) then s in q.entries && Some(s) == OwnerSeq(q, now, args.owner) else forall x :: x in q.entries ==> x < s)
  {
    hide QueueGood, Superseded, Linked, Counted, UnitSum, QueueCount, Supersede, Mine, Parked, OwnerSeq;
    GoodLinked(q, now, pol);
    SupersedeOk(q, now, pol, ns, args, policy);
    SupersedeKeeps(q, now, pol, ns, args, policy);
    var (units, s, q1) := Supersede(q, now, ns, args, policy);
    RoomLeft(q, now, pol, args.owner, units, s, q1);
  }

  /**
   The acquire is parked under this number: in its old place if the owner was already
   parked with exactly this request, else behind everyone. It stays for the given
   time, or a minute. No other waiter moves, and the owner has no other.
   */
  ghost predicate Parks(q: Queue, r: Queue, now: Time, ns: string, args: AcquireArgs, policy: LockPolicy, s: nat) {
    && s in r.entries && r.entries[s] == (Entry(s, args.owner, ns, args, policy), ExpiryAt(now, if args.queueTtl > 0 then args.queueTtl else 60_000))
    && (if Parked(q, now, ns, args, policy) then Waiting(q, now, Entry(s, args.owner, ns, args, policy)) else forall x :: x in q.entries ==> x < s)
    && (forall w: Entry :: w.seqno != s ==> (Waiting(r, now, w) <==> Waiting(q, now, w) && w.owner != args.owner))
  }

  lemma EnqueueIs(q: Queue, now: Time, pol: Policies, ns: string, args: AcquireArgs, policy: LockPolicy)
    requires QueueGood(q, now, pol)
    ensures var next := Enqueue(q, now, ns, args, policy);
            if QueueFull(q, now, args) then next.None? else next.Some? && Parks(q, next.value.1, now, ns, args, policy, next.value.0)
  {
    hide QueueGood, UnitSum, QueueUnits, PathKeys, QueueCount, Supersede, ExpiryAt;
    RoomIs(q, now, pol, ns, args, policy);
    var next := Enqueue(q, now, ns, args, policy);
    if next.Some? {
      var (s, r) := next.value;
      forall w: Entry | w.seqno != s ensures Waiting(r, now, w) <==> Waiting(q, now, w) && w.owner != args.owner {
        var q1 := Supersede(q, now, ns, args, policy).2;
        assert r.entries == q1.entries[s := r.entries[s]];
        assert w.seqno in r.entries <==> w.seqno in q1.entries - {s};
      }
    }
  }

  // --- tokens ---

  /** A write acquire without a token of its own. */
  predicate Tokenless(args: AcquireArgs, alg: LockAlgorithm) {
    args.token <= 0 && !alg.Semaphore? && exists q :: q in args.requests && q.mode == Write
  }

  /** The fence of a path the acquire asks to write. */
  ghost predicate FenceToBeat(t: Tables, ns: string, args: AcquireArgs, f: int) {
    exists q :: q in args.requests && q.mode == Write && ScopedPath(ns, q.path) in t.fence && t.fence[ScopedPath(ns, q.path)] == f
  }

  /** The acquire as it is executed: with its own token, or with the least one above the counter and above every fence it must beat. */
  ghost predicate Tokened(g: Group, ns: string, args: AcquireArgs, alg: LockAlgorithm, a: AcquireArgs) {
    && a == args.(token := a.token)
    && if !Tokenless(args, alg) then a.token == args.token
       else
         && a.token <= I64_MAX
         && (a.token < I64_MAX ==> a.token > g.counter && forall f :: FenceToBeat(g.t, ns, args, f) ==> a.token > f)
         && (a.token == g.counter + 1 || FenceToBeat(g.t, ns, args, a.token - 1)
             || (a.token == I64_MAX && (g.counter >= I64_MAX || exists f :: FenceToBeat(g.t, ns, args, f) && f >= I64_MAX)))
  }

  lemma {:induction false} MaxFenceIs(t: Tables, ns: string, reqs: seq<LockReq>, seen: int)
    ensures var m := MaxFence(t, ns, reqs, seen);
            m == seen || exists q :: q in reqs && q.mode == Write && ScopedPath(ns, q.path) in t.fence && t.fence[ScopedPath(ns, q.path)] == m
    decreases |reqs|
  {
    hide ScopedPath;
    if reqs != [] {
      var key := ScopedPath(ns, reqs[0].path);
      var next := if reqs[0].mode == Write && key in t.fence && t.fence[key] > seen then t.fence[key] else seen;
      MaxFenceIs(t, ns, reqs[1..], next);
      assert reqs[0] in reqs && forall q :: q in reqs[1..] ==> q in reqs;
    }
  }

  lemma MintIs(g: Group, ns: string, args: AcquireArgs, alg: LockAlgorithm)
    ensures var (a, g1) := MintFence(g, ns, args, alg);
            Tokened(g, ns, args, alg, a) && g1 == g.(counter := if Tokenless(args, alg) then a.token else g.counter)
  {
    hide ScopedPath, MaxFence;
    MaxFenceBounds(g.t, ns, args.requests, g.counter);
    MaxFenceIs(g.t, ns, args.requests, g.counter);
    var m := MaxFence(g.t, ns, args.requests, g.counter);
    assert m == g.counter || FenceToBeat(g.t, ns, args, m);
  }

  // --- what an acquire is answered ---

  /** The waiter the acquire is told it queues behind: the first one ahead of it, on a path of its own that conflicts. */
  ghost predicate QueuedBehind(g: Group, now: Time, ns: string, a: AcquireArgs, alg: LockAlgorithm, o: AcquireOutcome) {
    && o.Enqueued? && o.reason == Queued && o.token == a.token
    && exists w, x :: FirstAhead(g.t, g.q, now, ns, a, alg, w) && o.owner == w.owner && x in EntryWants(w) && o.path == PublicPath(w.ns, x.path)
  }

  /** The hold the acquire is told it waits for, in the way of its first request that cannot be granted. */
  ghost predicate QueuedFor(g: Group, now: Time, ns: string, a: AcquireArgs, alg: LockAlgorithm, o: AcquireOutcome) {
    && o.Enqueued? && o.token == a.token
    && exists i: nat, h :: FirstRefused(g.t, now, ns, alg, a, i)
                           && Names(g.t, now, a.owner, ns, alg, a.requests[i], Conflict(o.path, o.owner, 0, o.reason), h)
  }

  ghost predicate Outranked(g: Group, now: Time, ns: string, a: AcquireArgs, alg: LockAlgorithm) {
    exists w :: StandsAhead(g.t, g.q, now, ns, a, alg, w)
  }

  /** The acquire was parked, with an answer that says why. */
  ghost predicate ParkedAs(g: Group, r: Group, now: Time, ns: string, a: AcquireArgs, policy: LockPolicy, response: Response) {
    && response.Acquired? && response.outcome.Enqueued? && (exists s :: Parks(g.q, r.q, now, ns, a, policy, s)) && r.rows == g.rows
    && if Outranked(g, now, ns, a, policy.algorithm) then r.t == g.t && QueuedBehind(g, now, ns, a, policy.algorithm, response.outcome)
       else OnlyLapsedRemoved(g.t, r.t, now) && QueuedFor(g, now, ns, a, policy.algorithm, response.outcome)
  }

  lemma ParkIs(g: Group, now: Time, pol: Policies, ns: string, a: AcquireArgs, policy: LockPolicy, path: string, owner: string, reason: Reason)
    requires QueueGood(g.q, now, pol)
    ensures var (response, r) := Park(g, now, ns, a, policy, path, owner, reason);
            if QueueFull(g.q, now, a) then response == Rejected(ScanLimit)
            else response == Acquired(Enqueued(path, owner, reason, a.token)) && r == g.(q := r.q) && exists s :: Parks(g.q, r.q, now, ns, a, policy, s)
  {
    hide QueueGood, Enqueue, Parks, QueueFull;
    EnqueueIs(g.q, now, pol, ns, a, policy);
  }

  lemma OutrankedParks(g: Group, now: Time, fallback: LockAlgorithm, ns: string, a: AcquireArgs, policy: LockPolicy)
    requires Sound(g, now, fallback) && Outranked(g, now, ns, a, policy.algorithm)
    ensures var (response, r) := ExecuteMinted(g, now, ns, a, policy);
            if QueueFull(g.q, now, a) then response == Rejected(ScanLimit) else ParkedAs(g, r, now, ns, a, policy, response) && r.counter == g.counter
  {
    hide Good, QueueGood, Acquire, Settle, PublicPath, Park, Parks, QueueFull, StandsAhead, FirstAhead, LiveEntries, EntryWants, Contending, WantsOf, NewPaths,
         WantsConflict, FirstBlocker;
    var alg := policy.algorithm;
    BlockerIs(g.t, g.q, now, PoliciesOf(g, fallback), ns, a, alg);
    var (e, path) := BlockedByEarlier(g.t, g.q, now, ns, a, alg).value;
    ParkIs(g, now, PoliciesOf(g, fallback), ns, a, policy, PublicPath(e.ns, path), e.owner, Queued);
    BlockerPath(LiveEntries(g.q, now), a.owner, OwnerSeq(g.q, now, a.owner), Contending(g.t, a.owner, WantsOf(NewPaths(ns, a.requests), alg)));
  }

  lemma ContendedParks(g: Group, now: Time, fallback: LockAlgorithm, ns: string, a: AcquireArgs, policy: LockPolicy)
    requires Sound(g, now, fallback) && NoSep(ns) && policy.algorithm == PoliciesOf(g, fallback).InForce(ns)
    requires !Outranked(g, now, ns, a, policy.algorithm) && StopsContended(g.t, now, ns, policy.algorithm, a)
    ensures var (response, r) := ExecuteMinted(g, now, ns, a, policy);
            if QueueFull(g.q, now, a) then response == Rejected(ScanLimit) else ParkedAs(g, r, now, ns, a, policy, response) && r.counter == g.counter
  {
    hide Good, QueueGood, Acquire, Settle, PublicPath, Park, Parks, QueueFull, StandsAhead, BlockedByEarlier, StopsContended, StopsOutdated,
         AllGrantable, Names, NoSep, OnlyLapsedRemoved, SelfConflicting, AllGranted, FirstRefused;
    var alg, pol := policy.algorithm, PoliciesOf(g, fallback);
    BlockerIs(g.t, g.q, now, pol, ns, a, alg);
    AcquireEnds(g.t, pol, now, ns, alg, a);
    AcquireBlames(g.t, pol, now, ns, alg, a);
    var (o, t1) := Acquire(g.t, now, ns, alg, a);
    ParkIs(g.(t := t1), now, pol, ns, a, policy, o.path, o.owner, o.reason);
    ContentionClean(g.t, pol, now, ns, alg, a);
    SameNames(g.t, now, ns, alg, a, o);
  }

  lemma SameNames(t: Tables, now: Time, ns: string, alg: LockAlgorithm, a: AcquireArgs, o: AcquireOutcome)
    requires o.Conflict? && exists i: nat, h :: FirstRefused(t, now, ns, alg, a, i) && Names(t, now, a.owner, ns, alg, a.requests[i], o, h)
    ensures exists i: nat, h :: FirstRefused(t, now, ns, alg, a, i)
                                && Names(t, now, a.owner, ns, alg, a.requests[i], Conflict(o.path, o.owner, 0, o.reason), h)
  {
    hide InWay, GrantableTo, GivesReason, ScopedPath, PublicPath;
    var i: nat, h :| FirstRefused(t, now, ns, alg, a, i) && Names(t, now, a.owner, ns, alg, a.requests[i], o, h);
    assert Names(t, now, a.owner, ns, alg, a.requests[i], Conflict(o.path, o.owner, 0, o.reason), h);
  }

  /** An acquire refused for contention has only removed what had lapsed. */
  lemma ContentionClean(t: Tables, pol: Policies, now: Time, ns: string, alg: LockAlgorithm, a: AcquireArgs)
    requires Good(t, pol) && NoSep(ns) && alg == pol.InForce(ns) && RefusedForContention(Some(Acquire(t, now, ns, alg, a).0))
    ensures OnlyLapsedRemoved(t, Acquire(t, now, ns, alg, a).1, now)
  {
    hide Good, NoSep, OnlyLapsedRemoved, GrantableTo, Outcomes.Contends, Outdated, ValidateAll, ApplyAll, BeginAcquire, FinishAcquire, Validated,
         SelfConflicting;
    AcquireEnds(t, pol, now, ns, alg, a);
    var i: nat :| FirstRefused(t, now, ns, alg, a, i) && Outcomes.Contends(t, now, ns, alg, a, a.requests[i]);
    assert a.requests[i] in a.requests;
    ValidationDecides(t, pol, now, ns, alg, a);
    ValidationRemoves(t, pol, now, ns, alg, a);
  }

  lemma GrantSettles(g: Group, now: Time, fallback: LockAlgorithm, ns: string, a: AcquireArgs, policy: LockPolicy)
    requires Sound(g, now, fallback) && NoSep(ns) && policy.algorithm == PoliciesOf(g, fallback).InForce(ns)
    requires !Outranked(g, now, ns, a, policy.algorithm) && AllGrantable(g.t, now, ns, policy.algorithm, a)
    ensures var (o, t1) := Acquire(g.t, now, ns, policy.algorithm, a);
            o.Ok? && ExecuteMinted(g, now, ns, a, policy) == Settle(g.(t := t1), now, ns, a, g.t.Alive(a.owner, now), o.token)
  {
    hide Good, QueueGood, Acquire, Settle, PublicPath, Park, StandsAhead, BlockedByEarlier, StopsContended, StopsOutdated, AllGrantable, NoSep;
    BlockerIs(g.t, g.q, now, PoliciesOf(g, fallback), ns, a, policy.algorithm);
    AcquireEnds(g.t, PoliciesOf(g, fallback), now, ns, policy.algorithm, a);
  }

  /** Why an acquire is refused for good: its lease is gone, a request fell short of something, or its list clashes with itself. */
  ghost predicate RefusedAs(t: Tables, now: Time, ns: string, a: AcquireArgs, alg: LockAlgorithm, o: AcquireOutcome) {
    || (LeaseGone(t, now, a) && o == Lost("", MissingAlive))
    || (!LeaseGone(t, now, a) && exists i: nat :: FirstRefused(t, now, ns, alg, a, i) && SaysWhy(t, ns, a.requests[i], o))
    || (SelfConflicting(ns, alg, a.requests) && o.Conflict? && o.reason == InvalidPermits)
  }

  lemma RefusalIs(t: Tables, pol: Policies, now: Time, ns: string, alg: LockAlgorithm, a: AcquireArgs)
    requires Good(t, pol) && NoSep(ns) && alg == pol.InForce(ns) && !AllGrantable(t, now, ns, alg, a) && !StopsContended(t, now, ns, alg, a)
    ensures RefusedAs(t, now, ns, a, alg, Acquire(t, now, ns, alg, a).0)
  {
    hide Good, NoSep, Acquire, StopsOutdated, StopsContended, GrantableTo, SelfConflicting, SaysWhy;
    AcquireEnds(t, pol, now, ns, alg, a);
    if LeaseGone(t, now, a) {
      LeaseLost(t, now, ns, alg, a);
    } else if q :| q in a.requests && !GrantableTo(t, now, a.owner, a.token, ns, alg, q) {
      var i := FindRefused(t, now, ns, alg, a, 0);
      AcquireSays(t, pol, now, ns, alg, a, i);
    } else {
      ClashRefused(t, pol, now, ns, alg, a);
    }
  }

  lemma OtherwiseRefused(g: Group, now: Time, fallback: LockAlgorithm, ns: string, a: AcquireArgs, policy: LockPolicy)
    requires Sound(g, now, fallback) && NoSep(ns) && policy.algorithm == PoliciesOf(g, fallback).InForce(ns)
    requires !Outranked(g, now, ns, a, policy.algorithm)
    requires !AllGrantable(g.t, now, ns, policy.algorithm, a) && !StopsContended(g.t, now, ns, policy.algorithm, a)
    ensures var response := ExecuteMinted(g, now, ns, a, policy).0;
            && response.Acquired? && (response.outcome.Conflict? || response.outcome.Lost?)
            && RefusedAs(g.t, now, ns, a, policy.algorithm, response.outcome)
  {
    hide Good, QueueGood, Acquire, Settle, PublicPath, Park, StandsAhead, BlockedByEarlier, StopsContended, StopsOutdated, AllGrantable, NoSep,
         RefusedAs;
    BlockerIs(g.t, g.q, now, PoliciesOf(g, fallback), ns, a, policy.algorithm);
    AcquireEnds(g.t, PoliciesOf(g, fallback), now, ns, policy.algorithm, a);
    NeverEnqueued(g.t, PoliciesOf(g, fallback), now, ns, policy.algorithm, a);
    RefusalIs(g.t, PoliciesOf(g, fallback), now, ns, policy.algorithm, a);
  }

  function CounterAfter(g: Group, args: AcquireArgs, alg: LockAlgorithm, a: AcquireArgs): int { if Tokenless(args, alg) then a.token else g.counter }

  /** What an admitted acquire is answered. */
  ghost predicate AdmittedLaw(g: Group, r: Group, now: Time, ns: string, args: AcquireArgs, policy: LockPolicy, a: AcquireArgs, response: Response) {
    var alg := policy.algorithm;
    && Tokened(g, ns, args, alg, a)
    && if Outranked(g, now, ns, a, alg) || StopsContended(g.t, now, ns, alg, a) then
         if QueueFull(g.q, now, a) then response == Rejected(ScanLimit) && SameState(g, r)
         else ParkedAs(g, r, now, ns, a, policy, response) && r.counter == CounterAfter(g, args, alg, a)
       else if AllGrantable(g.t, now, ns, alg, a) then GrantedNow(response) && r.rows == g.rows && r.counter == CounterAfter(g, args, alg, a)
       else
         && response.Acquired? && (response.outcome.Conflict? || response.outcome.Lost?) && SameState(g, r)
         && RefusedAs(g.t, now, ns, a, alg, response.outcome)
  }

  /**
   What an acquire command is answered, case by case: refused for its route; refused
   for its policy record; parked, or refused because the queue is full, if a waiter
   ahead of it or a live hold conflicts with it; granted if every request is
   grantable; refused for good otherwise. A refusal changes nothing.
   */
  ghost predicate AnswerLaw(g: Group, r: Group, now: Time, fallback: LockAlgorithm, op: Op, a: AcquireArgs, response: Response)
    requires op.AcquireOp?
  {
    if Misrouted(g.rows.Keys, op.ns, op.args) then response == Rejected(RoutingStale) && SameState(g, r)
    else if PoliciesOf(g, fallback).Record(op.ns) != op.policy then response == Rejected(PolicyEpochStale) && SameState(g, r)
    else AdmittedLaw(g, r, now, op.ns, op.args, op.policy, a, response)
  }

  lemma AdmittedIs(g: Group, now: Time, fallback: LockAlgorithm, ns: string, args: AcquireArgs, policy: LockPolicy) returns (a: AcquireArgs)
    requires Sound(g, now, fallback) && NoSep(ns) && policy.algorithm == PoliciesOf(g, fallback).InForce(ns)
    ensures var (response, r) := ExecuteAcquire(g, now, ns, args, policy);
            && AdmittedLaw(g, if response.Commits() then r else g, now, ns, args, policy, a, response)
            && a == MintFence(g, ns, args, policy.algorithm).0
  {
    hide Good, QueueGood, ExecuteMinted, MaxFence, Tokened, NoSep, QueueFull, StandsAhead, StopsContended, AllGrantable, QueuedBehind, QueuedFor, Parks,
         OnlyLapsedRemoved, Settle, Acquire, RefusedAs;
    var alg := policy.algorithm;
    MintIs(g, ns, args, alg);
    var (minted, g1) := MintFence(g, ns, args, alg);
    a := minted;
    SoundFrame(g, g1, now, fallback);
    SameQuestions(g, g1, now, ns, a, alg);
    var (response, r) := ExecuteAcquire(g, now, ns, args, policy);
    var s := if response.Commits() then r else g;
    hide MintFence, NeedsFence;
    if Outranked(g1, now, ns, a, alg) {
      OutrankedParks(g1, now, fallback, ns, a, policy);
      assert AdmittedLaw(g, s, now, ns, args, policy, a, response);
    } else if StopsContended(g1.t, now, ns, alg, a) {
      ContendedParks(g1, now, fallback, ns, a, policy);
      assert AdmittedLaw(g, s, now, ns, args, policy, a, response);
    } else if AllGrantable(g1.t, now, ns, alg, a) {
      GrantSettles(g1, now, fallback, ns, a, policy);
      var (o, t1) := Acquire(g1.t, now, ns, alg, a);
      SettleAnswers(g1.(t := t1), now, ns, a, g1.t.Alive(a.owner, now), o.token);
      SettleBooks(g1.(t := t1), now, ns, a, g1.t.Alive(a.owner, now), o.token);
    } else {
      OtherwiseRefused(g1, now, fallback, ns, a, policy);
      assert AdmittedLaw(g, s, now, ns, args, policy, a, response);
    }
  }

  /** The counter plays no part in who is ahead or what an answer names. */
  lemma SameQuestions(g: Group, g1: Group, now: Time, ns: string, a: AcquireArgs, alg: LockAlgorithm)
    requires g1.t == g.t && g1.q == g.q
    ensures Outranked(g1, now, ns, a, alg) <==> Outranked(g, now, ns, a, alg)
    ensures forall o :: QueuedBehind(g1, now, ns, a, alg, o) <==> QueuedBehind(g, now, ns, a, alg, o)
    ensures forall o :: QueuedFor(g1, now, ns, a, alg, o) <==> QueuedFor(g, now, ns, a, alg, o)
  {
    hide StandsAhead, FirstAhead, FirstRefused, Names, EntryWants, PublicPath;
  }

  lemma SettleBooks(g: Group, now: Time, ns: string, args: AcquireArgs, wasAlive: bool, token: int)
    ensures var r := Settle(g, now, ns, args, wasAlive, token).1; r.rows == g.rows && r.counter == g.counter
  {
    hide GrantSweep, GrantSweepForPaths, Dequeue, FreedPaths;
  }

  lemma AcquireAnswered(cfg: Config, g: Group, cmd: Command) returns (a: AcquireArgs)
    requires FirstSeen(cfg, g, cmd) && cmd.op.AcquireOp?
    ensures AnswerLaw(g, Apply(cfg, g, cmd).1, EffectiveTime(g, cmd), cfg.fallback, cmd.op, a, Apply(cfg, g, cmd).0)
  {
    hide Sound, Apply, ExecuteAcquire, Misrouted, StaleRoute, NoSep, AdmittedLaw;
    var now, op := EffectiveTime(g, cmd), cmd.op;
    FreshApplies(cfg, g, cmd);
    MisroutedIff(g.rows, op.ns, op.args);
    a := op.args;
    if !Misrouted(g.rows.Keys, op.ns, op.args) && PoliciesOf(g, cfg.fallback).Record(op.ns) == op.policy {
      a := AdmittedIs(g, now, cfg.fallback, op.ns, op.args, op.policy);
      var (response, r) := ExecuteAcquire(g, now, op.ns, op.args, op.policy);
      SameLaw(g, if response.Commits() then r else g, Apply(cfg, g, cmd).1, now, op.ns, op.args, op.policy, a, response);
    }
  }

  lemma SameLaw(g: Group, r: Group, s: Group, now: Time, ns: string, args: AcquireArgs, policy: LockPolicy, a: AcquireArgs, response: Response)
    requires AdmittedLaw(g, r, now, ns, args, policy, a, response) && SameState(r, s)
    ensures AdmittedLaw(g, s, now, ns, args, policy, a, response)
  {
    hide Tokened, QueueFull, Outranked, StopsContended, AllGrantable, QueuedBehind, QueuedFor, Parks, OnlyLapsedRemoved, RefusedAs;
  }
}

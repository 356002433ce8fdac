/** What a grant in place delivers: the locks are on record, the owner is told and out of the queue. */
module Delivery {
  import opened Paths
  import opened Expiry
  import opened LockSpec
  import opened LockInvariant
  import opened ApplyProof
  import opened EngineProof
  import opened AllOrNothing
  import opened AcquireFrame
  import opened QueueSpec
  import opened QueueProof
  import opened SweepProof
  import opened Fairness

  // --- the lease behind a granted hold ---

  /** A granted hold that was not given up inline is on record, live unless its lease is over at once. */
  lemma GrantLive(t: Tables, pol: Policies, now: Time, ns: string, alg: LockAlgorithm, args: AcquireArgs, h: Hold)
    requires Good(t, pol) && NoSep(ns) && alg == pol.InForce(ns) && args.requests != []
    requires Acquire(t, now, ns, alg, args).0.Ok? && h in Acquire(t, now, ns, alg, args).1.alg && h.owner == args.owner
    ensures HeldLive(Acquire(t, now, ns, alg, args).1, now, h) <==> !Lapses(now, args.ttl)
  {
    hide Good, Acquire, FinishAcquire, Executed, NoSep, Onward, Lapses, ReleasedInline;
    AcquireGood(t, pol, now, ns, alg, args);
    ExecutedIs(t, pol, now, ns, alg, args);
    FinishExact(Executed(t, now, ns, alg, args), pol, now, ns, args, h);
  }

  // --- later grants of the sweep ---

  ghost predicate OwnEntries(es: seq<Entry>) {
    && (forall e :: e in es ==> e.args.owner == e.owner)
    && forall i, j :: 0 <= i < j < |es| ==> es[i].owner != es[j].owner
  }

  lemma TryKeeps(t: Tables, pol: Policies, now: Time, e: Entry, reserved: seq<Want>, h: Hold)
    requires Good(t, pol) && Lawful(e, pol) && e.args.owner != h.owner
    ensures HeldLive(TryWaiter(t, now, e, reserved).1, now, h) <==> HeldLive(t, now, h)
  {
    hide Good, Acquire, EntryWants, AnyConflict, NoSep, ScopedPath, HeldLive;
    AcquireHolds(t, pol, now, e.ns, e.policy.algorithm, e.args, h);
  }

  /** A sweep leaves the holds of owners it does not try as live or dead as they were. */
  lemma {:induction false} SweepKeeps(t: Tables, q: Queue, now: Time, pol: Policies, es: seq<Entry>, reserved: seq<Want>, h: Hold)
    requires Good(t, pol) && InForceAll(es, pol) && forall e :: e in es ==> e.args.owner != h.owner
    ensures HeldLive(RunSweep(t, q, now, es, reserved).t, now, h) <==> HeldLive(t, now, h)
    decreases |es|
  {
    hide Good, HeldLive, TryWaiter, NextQueue, NextReserved, Lawful, RunSweep, Onward;
    if es == [] {
      EmptySweep(t, q, now, reserved);
    } else {
      var e, rest := es[0], es[1..];
      assert e in es && forall x :: x in rest ==> x in es;
      SweepStep(t, q, now, es, reserved);
      var (v, t1) := TryWaiter(t, now, e, reserved);
      TryGood(t, pol, now, e, reserved);
      TryKeeps(t, pol, now, e, reserved, h);
      SweepKeeps(t1, NextQueue(q, now, e, v), now, pol, rest, NextReserved(reserved, e, v), h);
    }
  }

  lemma TryGrants(t: Tables, pol: Policies, now: Time, e: Entry, reserved: seq<Want>, x: LockReq)
    requires Good(t, pol) && Lawful(e, pol) && e.args.owner == e.owner && TryWaiter(t, now, e, reserved).0.Grant?
    requires x in e.args.requests && !ReleasedInline(e.ns, e.args.releases, Wanted(e.owner, e.ns, x))
    ensures HeldLive(TryWaiter(t, now, e, reserved).1, now, Wanted(e.owner, e.ns, x)) <==> !Lapses(now, e.args.ttl)
  {
    hide Good, Acquire, EntryWants, AnyConflict, NoSep, OnlyLapsedRemoved, SelfConflicting, ReleasedInline, HeldLive, Lapses;
    AcquireAllOrNothing(t, pol, now, e.ns, e.policy.algorithm, e.args);
    GrantLive(t, pol, now, e.ns, e.policy.algorithm, e.args, Wanted(e.owner, e.ns, x));
  }

  /**
   Every lock a granted waiter asked for and did not give up inline is held, under a
   live lease, when the sweep ends: exactly so unless the lease is over at once.
   */
  lemma {:induction false} GrantedHold(
    t: Tables, q: Queue, now: Time, pol: Policies, es: seq<Entry>, reserved: seq<Want>, g: Entry, x: LockReq)
    requires Good(t, pol) && InForceAll(es, pol) && OwnEntries(es) && g in RunSweep(t, q, now, es, reserved).granted
    requires x in g.args.requests && !ReleasedInline(g.ns, g.args.releases, Wanted(g.owner, g.ns, x))
    ensures HeldLive(RunSweep(t, q, now, es, reserved).t, now, Wanted(g.owner, g.ns, x)) <==> !Lapses(now, g.args.ttl)
    decreases |es|
  {
    hide Good, HeldLive, TryWaiter, NextQueue, NextReserved, Lawful, Onward, ReleasedInline, AnyConflict, EntryWants, Lapses;
    var e, rest := es[0], es[1..];
    assert e in es && forall y :: y in rest ==> y in es;
    SweepStep(t, q, now, es, reserved);
    var (v, t1) := TryWaiter(t, now, e, reserved);
    var q1, res1 := NextQueue(q, now, e, v), NextReserved(reserved, e, v);
    TryGood(t, pol, now, e, reserved);
    hide RunSweep;
    if v.Grant? && g == e {
      TryGrants(t, pol, now, e, reserved, x);
      OthersApart(es);
      SweepKeeps(t1, q1, now, pol, rest, res1, Wanted(g.owner, g.ns, x));
    } else {
      GrantedHold(t1, q1, now, pol, rest, res1, g, x);
    }
  }

  lemma OthersApart(es: seq<Entry>)
    requires OwnEntries(es) && es != []
    ensures forall e :: e in es[1..] ==> e.args.owner != es[0].owner
  {
    forall e | e in es[1..] ensures e.args.owner != es[0].owner {
      var j :| 0 <= j < |es[1..]| && es[1..][j] == e;
      assert es[j + 1] == e && es[0].owner != es[j + 1].owner && e in es;
    }
  }

  /** Every granted owner is notified. */
  lemma {:induction false} GrantedNotified(t: Tables, q: Queue, now: Time, es: seq<Entry>, reserved: seq<Want>, g: Entry)
    requires g in RunSweep(t, q, now, es, reserved).granted
    ensures g.owner in RunSweep(t, q, now, es, reserved).notify
    decreases |es|
  {
    hide TryWaiter, NextQueue, NextReserved;
    var (v, t1) := TryWaiter(t, now, es[0], reserved);
    SweepStep(t, q, now, es, reserved);
    if !(v.Grant? && g == es[0]) {
      GrantedNotified(t1, NextQueue(q, now, es[0], v), now, es[1..], NextReserved(reserved, es[0], v), g);
    }
  }

  /** No granted owner is still waiting. */
  lemma {:induction false} GrantedLeaves(t: Tables, q: Queue, now: Time, pol: Policies, es: seq<Entry>, reserved: seq<Want>, g: Entry, x: nat)
    requires Good(t, pol) && InForceAll(es, pol) && QueueGood(q, now, pol) && g in RunSweep(t, q, now, es, reserved).granted
    requires Live(RunSweep(t, q, now, es, reserved).q, now, x)
    ensures RunSweep(t, q, now, es, reserved).q.entries[x].0.owner != g.owner
    decreases |es|
  {
    hide Good, QueueGood, TryWaiter, NextReserved, NoSep, Onward, Dequeue;
    var e, rest := es[0], es[1..];
    assert e in es && forall y :: y in rest ==> y in es;
    SweepStep(t, q, now, es, reserved);
    var (v, t1) := TryWaiter(t, now, e, reserved);
    var q1, res1 := NextQueue(q, now, e, v), NextReserved(reserved, e, v);
    TryGood(t, pol, now, e, reserved);
    NextGood(q, now, pol, e, v);
    DequeueShrinks(q, now, pol, e.owner);
    SweepGood(t1, q1, now, pol, rest, res1);
    hide RunSweep;
    if !(v.Grant? && g == e) { GrantedLeaves(t1, q1, now, pol, rest, res1, g, x); }
  }

  lemma ScanOwnEntries(q: Queue, now: Time, pol: Policies)
    requires QueueGood(q, now, pol)
    ensures OwnEntries(Scan(q, now))
  {
    hide PathKeys, UnitSum, Scan, LiveEntries, QueueFiled, NoOrphans, OwnersPoint, Current;
    ScanComplete(q, now);
    LiveEntriesFacts(q, now);
    var es := Scan(q, now);
    forall i, j | 0 <= i < j < |es| ensures es[i].owner != es[j].owner {
      assert es[i] in es && es[j] in es;
      OneWaiterEach(q, now, pol, es[i], es[j]);
    }
  }

  /** The full sweep delivers: a granted waiter holds what it asked for, is notified, and waits no more. */
  lemma FullSweepDelivers(t: Tables, q: Queue, now: Time, pol: Policies, g: Entry)
    requires Good(t, pol) && QueueGood(q, now, pol) && g in GrantSweep(t, q, now).granted
    ensures var r := GrantSweep(t, q, now);
            && g.owner in r.notify
            && (forall s :: Live(r.q, now, s) ==> r.q.entries[s].0.owner != g.owner)
            && (forall x :: x in g.args.requests && !ReleasedInline(g.ns, g.args.releases, Wanted(g.owner, g.ns, x)) ==>
                  (HeldLive(r.t, now, Wanted(g.owner, g.ns, x)) <==> !Lapses(now, g.args.ttl)))
  {
    hide Good, QueueGood, RunSweep, Scan, HeldLive, ReleasedInline, Lapses;
    var es := Scan(q, now);
    ScanInForce(q, now, pol);
    ScanOwnEntries(q, now, pol);
    GrantedNotified(t, q, now, es, [], g);
    forall s | Live(GrantSweep(t, q, now).q, now, s) ensures GrantSweep(t, q, now).q.entries[s].0.owner != g.owner {
      GrantedLeaves(t, q, now, pol, es, [], g, s);
    }
    forall x | x in g.args.requests && !ReleasedInline(g.ns, g.args.releases, Wanted(g.owner, g.ns, x))
      ensures HeldLive(GrantSweep(t, q, now).t, now, Wanted(g.owner, g.ns, x)) <==> !Lapses(now, g.args.ttl)
    {
      GrantedHold(t, q, now, pol, es, [], g, x);
    }
  }
}

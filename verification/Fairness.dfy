/** Places in the queue: who keeps one, who loses one, and when a targeted sweep lets a waiter overtake. */
module Fairness {
  import opened Ordering
  import opened Paths
  import opened Expiry
  import opened LockSpec
  import opened LockInvariant
  import opened QueueSpec
  import opened QueueProof
  import opened SweepProof
  import opened MachineSpec

  // --- enqueue ---

  /** The owner is already parked with exactly this request. */
  predicate Parked(q: Queue, now: Time, ns: string, args: AcquireArgs, policy: LockPolicy) {
    var s := OwnerSeq(q, now, args.owner);
    s.Some? && Live(q, now, s.value) && q.entries[s.value].0 == Entry(s.value, args.owner, ns, args, policy)
  }

  /** A repeated request keeps its place; any other goes behind everyone. */
  lemma EnqueuePlace(q: Queue, now: Time, pol: Policies, ns: string, args: AcquireArgs, policy: LockPolicy)
    requires QueueGood(q, now, pol) && Enqueue(q, now, ns, args, policy).Some?
    ensures var s := Enqueue(q, now, ns, args, policy).value.0;
            && (Parked(q, now, ns, args, policy) ==> Some(s) == OwnerSeq(q, now, args.owner))
            && (!Parked(q, now, ns, args, policy) ==> forall x :: x in q.entries ==> x < s)
  {
    hide PathKeys, UnitSum, QueueUnits, QueueCount, Counted, Covered, NoSep, StoreEntry;
  }

  /** Parking one owner leaves every other owner's waiter where it was. */
  lemma EnqueueLocal(q: Queue, now: Time, pol: Policies, ns: string, args: AcquireArgs, policy: LockPolicy, x: nat)
    requires QueueGood(q, now, pol) && Enqueue(q, now, ns, args, policy).Some?
    requires Live(q, now, x) && q.entries[x].0.owner != args.owner
    ensures var r := Enqueue(q, now, ns, args, policy).value.1; x in r.entries && r.entries[x] == q.entries[x]
  {
    hide PathKeys, UnitSum, QueueUnits, QueueCount, Counted, Covered, NoSep;
  }

  /** A parked request waits under its sequence number until its entry expires. */
  lemma EnqueueWaits(q: Queue, now: Time, ns: string, args: AcquireArgs, policy: LockPolicy)
    requires Enqueue(q, now, ns, args, policy).Some? && now < U64_MAX
    ensures var (s, r) := Enqueue(q, now, ns, args, policy).value;
            Waiting(r, now, Entry(s, args.owner, ns, args, policy)) && OwnerSeq(r, now, args.owner) == Some(s)
  {
    hide PathKeys, UnitSum, QueueUnits, QueueCount, Supersede;
  }

  // --- admission ---

  /** Granted at once, not parked and not refused. */
  predicate GrantedNow(r: Response) { (r.Acquired? || r.AcquiredGranted?) && r.outcome.Ok? }

  /** An acquire granted at once conflicts with no earlier live waiter on any path its owner does not already hold or cover. */
  lemma NewcomerYields(g: Group, now: Time, pol: Policies, ns: string, args: AcquireArgs, policy: LockPolicy, w: Entry)
    requires QueueGood(g.q, now, pol) && GrantedNow(ExecuteMinted(g, now, ns, args, policy).0)
    requires Waiting(g.q, now, w) && Before(w, args.owner, OwnerSeq(g.q, now, args.owner))
    ensures !AnyConflict(EntryWants(w), Contending(g.t, args.owner, WantsOf(NewPaths(ns, args.requests), policy.algorithm)))
  {
    hide Acquire, Settle, PublicPath, AnyConflict, EntryWants, Contending, WantsOf, NewPaths, LiveEntries, Enqueue, PathKeys, UnitSum;
    assert BlockedByEarlier(g.t, g.q, now, ns, args, policy.algorithm).None?;
    LiveEntriesFacts(g.q, now);
    FirstBlockerIff(LiveEntries(g.q, now), args.owner, OwnerSeq(g.q, now, args.owner),
                    Contending(g.t, args.owner, WantsOf(NewPaths(ns, args.requests), policy.algorithm)));
  }

  // --- sweeps only dequeue the waiters they were given ---

  lemma DequeueLocal(q: Queue, now: Time, pol: Policies, owner: string, w: Entry)
    requires QueueGood(q, now, pol) && Waiting(q, now, w) && w.owner != owner
    ensures Waiting(Dequeue(q, now, owner), now, w)
  {
    hide PathKeys, UnitSum, QueueUnits, Linked;
    DequeueGood(q, now, pol, owner);
    DequeueShrinks(q, now, pol, owner);
  }

  lemma {:induction false} SweepLocal(t: Tables, q: Queue, now: Time, pol: Policies, es: seq<Entry>, reserved: seq<Want>, w: Entry)
    requires QueueGood(q, now, pol) && Waiting(q, now, w) && forall e :: e in es ==> e.owner != w.owner
    ensures Waiting(RunSweep(t, q, now, es, reserved).q, now, w)
    decreases |es|
  {
    hide QueueGood, TryWaiter, NextReserved, RunSweep, Waiting, Dequeue;
    if es == [] {
      EmptySweep(t, q, now, reserved);
    } else {
      var e, rest := es[0], es[1..];
      assert e in es && forall x :: x in rest ==> x in es;
      SweepStep(t, q, now, es, reserved);
      var (v, t1) := TryWaiter(t, now, e, reserved);
      NextGood(q, now, pol, e, v);
      DequeueLocal(q, now, pol, e.owner, w);
      SweepLocal(t1, NextQueue(q, now, e, v), now, pol, rest, NextReserved(reserved, e, v), w);
    }
  }

  lemma OneWaiterEach(q: Queue, now: Time, pol: Policies, a: Entry, b: Entry)
    requires QueueGood(q, now, pol) && Waiting(q, now, a) && Waiting(q, now, b) && a.seqno != b.seqno
    ensures a.owner != b.owner
  {
    hide PathKeys, Counted, NoOrphans, OwnersPoint, QueueFiled, Current;
  }

  /** One of the waiter's contended paths is a freed path, above one or below one. */
  ghost predicate MeetsFreed(w: Entry, freed: seq<string>) { exists x, f :: x in EntryWants(w) && f in freed && Touches(x.path, f) }

  /** An entry's path records are its wanted paths under its number. */
  lemma KeysAreWants(w: Entry, k: (string, nat))
    ensures k in PathKeys(w) <==> k.1 == w.seqno && exists x :: x in EntryWants(w) && x.path == k.0
  {
    hide NewPaths;
    var ps := NewPaths(w.ns, w.args.requests);
    if k in PathKeys(w) {
      var i :| 0 <= i < |ps| && (ps[i].0, w.seqno) == k;
      assert EntryWants(w)[i] in EntryWants(w);
    }
    if k.1 == w.seqno && exists x :: x in EntryWants(w) && x.path == k.0 {
      var i :| 0 <= i < |ps| && EntryWants(w)[i].path == k.0;
      assert ps[i] in ps;
    }
  }

  /** A waiter's number is filed under exactly its own records, which live as long as it does. */
  lemma RecordsOf(q: Queue, now: Time, pol: Policies, w: Entry, p: string)
    requires QueueGood(q, now, pol) && Waiting(q, now, w)
    ensures (p, w.seqno) in q.paths && !Expired(q.paths[(p, w.seqno)], now) <==> (p, w.seqno) in PathKeys(w)
  {
    hide NewPaths, Counted, OwnersPoint, QueueFiled, Current, PathKeys;
  }

  /** The path indexes find exactly the waiters whose own paths meet a freed path. */
  lemma CandidateIff(q: Queue, now: Time, pol: Policies, freed: seq<string>, w: Entry)
    requires QueueGood(q, now, pol) && Waiting(q, now, w)
    ensures w.seqno in CandidateSeqs(q, now, freed) <==> MeetsFreed(w, freed)
  {
    hide Touches, QueueGood, Waiting, PathKeys, EntryWants;
    if w.seqno in CandidateSeqs(q, now, freed) {
      var k :| k in q.paths && !Expired(q.paths[k], now) && (exists f :: f in freed && Touches(k.0, f)) && k.1 == w.seqno;
      RecordsOf(q, now, pol, w, k.0);
      KeysAreWants(w, k);
    }
    if MeetsFreed(w, freed) {
      var x, f :| x in EntryWants(w) && f in freed && Touches(x.path, f);
      RecordsOf(q, now, pol, w, x.path);
      KeysAreWants(w, (x.path, w.seqno));
      assert (x.path, w.seqno).1 in CandidateSeqs(q, now, freed);
    }
  }

  /**
   An earlier waiter that conflicts with one a targeted sweep grants is left queued
   exactly when none of its own paths meets a freed path.
   */
  lemma OvertakenIff(t: Tables, q: Queue, now: Time, pol: Policies, freed: seq<string>, w: Entry, g: Entry)
    requires Good(t, pol) && QueueGood(q, now, pol) && Waiting(q, now, w) && w.seqno < g.seqno
    requires g in GrantSweepForPaths(t, q, now, freed).granted && AnyConflict(EntryWants(g), EntryWants(w))
    ensures Waiting(GrantSweepForPaths(t, q, now, freed).q, now, w) <==> !MeetsFreed(w, freed)
  {
    hide Good, QueueGood, RunSweep, AnyConflict, EntryWants, CandidateSeqs, LiveOf, Waiting, MeetsFreed;
    CandidateIff(q, now, pol, freed, w);
    var seqs := SortedNats(CandidateSeqs(q, now, freed));
    var es := LiveOf(q, now, seqs);
    if w.seqno in CandidateSeqs(q, now, freed) {
      if Waiting(GrantSweepForPaths(t, q, now, freed).q, now, w) {
        TargetedSweepFifo(t, q, now, pol, freed, w, g);
        assert false;
      }
    } else {
      CandidatesWait(q, now, pol, freed);
      forall e | e in es ensures e.owner != w.owner { OneWaiterEach(q, now, pol, e, w); }
      SweepLocal(t, q, now, pol, es, [], w);
    }
  }

  lemma CandidatesWait(q: Queue, now: Time, pol: Policies, freed: seq<string>)
    requires QueueGood(q, now, pol)
    ensures forall e :: e in LiveOf(q, now, SortedNats(CandidateSeqs(q, now, freed))) ==>
              Waiting(q, now, e) && e.seqno in CandidateSeqs(q, now, freed)
  {
    hide PathKeys, UnitSum, CandidateSeqs, LiveOf;
    LiveOfFacts(q, now, SortedNats(CandidateSeqs(q, now, freed)));
  }

  // --- freed paths ---

  /** Exactly the released paths, once each. */
  lemma {:induction false} FreedPathsAre(ns: string, reqs: seq<RelReq>)
    ensures forall p :: p in FreedPaths(ns, reqs) <==> exists r :: r in reqs && p == ScopedPath(ns, r.path)
    ensures forall i, j :: 0 <= i < j < |FreedPaths(ns, reqs)| ==> FreedPaths(ns, reqs)[i] != FreedPaths(ns, reqs)[j]
  {
    hide ScopedPath;
    if reqs != [] {
      var n := |reqs| - 1;
      FreedPathsAre(ns, reqs[..n]);
      assert forall r :: r in reqs <==> r == reqs[n] || r in reqs[..n];
    }
  }

  // --- minted tokens ---

  lemma {:induction false} MaxFenceBounds(t: Tables, ns: string, reqs: seq<LockReq>, seen: int)
    ensures MaxFence(t, ns, reqs, seen) >= seen
    ensures forall r :: r in reqs && r.mode == Write && ScopedPath(ns, r.path) in t.fence ==>
              MaxFence(t, ns, reqs, seen) >= t.fence[ScopedPath(ns, r.path)]
    decreases |reqs|
  {
    hide ScopedPath;
    if reqs != [] {
      var key := ScopedPath(ns, reqs[0].path);
      var next := if reqs[0].mode == Write && key in t.fence && t.fence[key] > seen then t.fence[key] else seen;
      MaxFenceBounds(t, ns, reqs[1..], next);
      assert forall r :: r in reqs ==> r == reqs[0] || r in reqs[1..];
    }
  }

  /** Unless the counter is exhausted, a minted token beats the fence of every path it is to write. */
  lemma MintedIsFresh(g: Group, ns: string, args: AcquireArgs, alg: LockAlgorithm)
    requires NeedsFence(args, alg)
    ensures var (minted, r) := MintFence(g, ns, args, alg);
            && r.counter == minted.token
            && (minted.token < I64_MAX ==>
                  minted.token > g.counter
                  && forall q, same :: q in args.requests && q.mode == Write ==> !StaleFence(g.t, ScopedPath(ns, q.path), minted.token, same))
  {
    hide ScopedPath, MaxFence;
    MaxFenceBounds(g.t, ns, args.requests, g.counter);
  }
}

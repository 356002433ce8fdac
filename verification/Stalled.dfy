/**
 The exception to progress is real: an owner moving hand over hand from x to y
 gives x up as the sweep grants it y, and the waiter for x, already passed over,
 stays queued although it could now be granted.
 */
module Stalled {
  import opened Ordering
  import opened Paths
  import opened Expiry
  import opened LockSpec
  import opened LockInvariant
  import opened AcquireProof
  import opened ApplyProof
  import opened EngineProof
  import opened Decision
  import opened AllOrNothing
  import opened AcquireDecision
  import opened AcquireFrame
  import opened QueueSpec
  import opened QueueProof
  import opened SweepProof
  import opened Fairness
  import opened Barging
  import opened Progress
  import opened Leftover

  // --- the scene ---

  function Moves(x: LockReq, y: LockReq): AcquireArgs { AcquireArgs("holder", 1000, [y], 2, [RelReq(x.path, Write)], 1000) }

  function WantsX(x: LockReq): Entry { Entry(1, "first", "h", Asks("first", 3, [x]), POLICY) }
  function MovesOn(x: LockReq, y: LockReq): Entry { Entry(2, "holder", "h", Moves(x, y), POLICY) }

  /** The first waiter parked on x, then the holder of x parked on y. */
  function Line(x: LockReq, y: LockReq): Option<Queue> {
    var q1 := Enqueue(EMPTY_QUEUE, 1, "h", Asks("first", 3, [x]), POLICY);
    if q1.None? then None
    else
      var q2 := Enqueue(q1.value.1, 1, "h", Moves(x, y), POLICY);
      if q2.None? then None else Some(q2.value.1)
  }

  lemma WantsOfOne(e: Entry, p: LockReq)
    requires e.args.requests == [p] && p.state == New
    ensures EntryWants(e) == [Want(ScopedPath(e.ns, p.path), p.mode, e.policy.algorithm)] && QueueUnits(e.args) == 1
  {
    hide ScopedPath;
    assert [p][1..] == [];
    assert NewPaths(e.ns, [p]) == [(ScopedPath(e.ns, p.path), p.mode)];
    assert NewPaths("", [p]) == [(ScopedPath("", p.path), p.mode)];
  }

  lemma LineFacts(x: LockReq, y: LockReq)
    requires IsNewWrite(x) && IsNewWrite(y)
    ensures var q := Line(x, y);
            q.Some? && QueueGood(q.value, 1, POLICIES()) && q.value.entries == map[1 := (WantsX(x), 1001), 2 := (MovesOn(x, y), 1001)]
  {
    hide UnitSum, PathKeys, QueueGood, Enqueue;
    EmptyQueueGood(1, POLICIES());
    NoUnitsStored();
    var e1, e2 := WantsX(x), MovesOn(x, y);
    WantsOfOne(e1, x);
    WantsOfOne(e2, y);
    hide QueueUnits;
    ParkNewcomer(EMPTY_QUEUE, e1.args);
    var q1 := Enqueue(EMPTY_QUEUE, 1, "h", e1.args, POLICY).value.1;
    assert UnitSum(q1.entries) == 1 by { UnitsWith(map[], 1, (e1, 1001)); assert map[][1 := (e1, 1001)] == q1.entries; }
    ParkNewcomer(q1, e2.args);
  }

  lemma ScanOfTwo(q: Queue, e1: Entry, e2: Entry)
    requires QueueGood(q, 1, POLICIES()) && q.entries == map[1 := (e1, 1001), 2 := (e2, 1001)] && e1.seqno == 1 && e2.seqno == 2
    ensures Scan(q, 1) == [e1, e2] && Waiting(q, 1, e1)
  {
    hide QueueGood;
    var seqs := [1, 2];
    AscendingUnique(SortedNats({1, 2}), seqs, NatLess);
    assert q.entries.Keys == {1, 2};
    assert seqs[1..] == [2] && [2][1..] == [];
    assert LiveOf(q, 1, []) == [] && LiveOf(q, 1, [2]) == [e2];
  }

  // --- the sweep ---

  lemma FirstRefused(x: LockReq)
    requires IsNewWrite(x)
    ensures var t, e1 := HolderTables(x), WantsX(x);
            var (v, t1) := TryWaiter(t, 1, e1, []);
            v == Wait && Good(t1, POLICIES()) && t1.alg == t.alg && t1.fence == t.fence && t1.Alive("holder", 1)
  {
    hide ScopedPath, Good, HolderTables, GetAncestors, ValidateNew, ReleaseOwner, Solid, HasLock, Onward, Core;
    HeldFacts(x);
    var t, args, key := HolderTables(x), Asks("first", 3, [x]), ScopedPath("h", x.path);
    NothingReserved(EntryWants(WantsX(x)));
    var h := Hold("holder", Write, key);
    var t0 := BeginAcquire(t, 1, args);
    assert !HasHeld(args.requests);
    BeginGood(t, POLICIES(), 1, args);
    GoodCore(t, POLICIES());
    HolderAlgorithm(t, h);
    assert Contended(t, 1, "first", PointWrite, key, Write) by { Witness(t, 1, "first", PointWrite, key, Write, h); }
    ContendedWithout(t, 1, "first", PointWrite, key, Write);
    hide Contended;
    NewDecides(t0, POLICIES(), 1, "first", 3, "h", PointWrite, x);
    assert [x][1..] == [];
    var o := ValidateNew(t0, 1, "first", 3, "h", PointWrite, x).0;
    assert Acquire(t, 1, "h", PointWrite, args).0 == o.value;
    hide BeginAcquire, Acquire;
    NeverSelfConflicting("h", PointWrite, [x]);
    AcquireGood(t, POLICIES(), 1, "h", PointWrite, args);
    AcquireAllOrNothing(t, POLICIES(), 1, "h", PointWrite, args);
  }

  lemma HolderAlgorithm(t: Tables, h: Hold)
    requires Core(t) && HasLock(t, h)
    ensures LocksConflict(PointWrite, h.key, Write, t.HoldAlgorithm(h), h.key, Write)
  {
  }

  /** Everything a granted acquire of one write leaves on record was there before, or is that write. */
  lemma GrantedBound(t: Tables, pol: Policies, now: Time, ns: string, alg: LockAlgorithm, args: AcquireArgs, q: LockReq, h: Hold)
    requires Good(t, pol) && NoSep(ns) && alg == pol.InForce(ns) && args.requests == [q] && q.state == New
    requires Acquire(t, now, ns, alg, args).0.Ok? && h in Acquire(t, now, ns, alg, args).1.alg
    ensures (h in t.alg || h == Wanted(args.owner, ns, q)) && !(h.owner == args.owner && ReleasedInline(ns, args.releases, h))
  {
    hide Good, Acquire, FinishAcquire, Executed, NoSep, ScopedPath, Onward, ReleasedInline;
    var t2 := Executed(t, now, ns, alg, args);
    AcquireGood(t, pol, now, ns, alg, args);
    ExecutedIs(t, pol, now, ns, alg, args);
    ExecutedSteady(t, pol, now, ns, alg, args);
    FinishExact(t2, pol, now, ns, args, h);
    if h.owner == args.owner && !AsksNew(ns, args.requests, args.owner, h) { ExecutedGains(t, pol, now, ns, alg, args, h); }
  }

  /** Tables as the sweep finds them at the second waiter's turn. */
  ghost predicate HoldsOnly(t: Tables, key: string) {
    && Good(t, POLICIES()) && t.Alive("holder", 1) && t.fence == map[key := 1]
    && forall h :: h in t.alg <==> h == Hold("holder", Write, key)
  }

  lemma NobodyElse(t: Tables, key: string, k: string)
    requires HoldsOnly(t, key)
    ensures !Contended(t, 1, "holder", PointWrite, k, Write)
  {
    forall h | HasLock(t, h) ensures h.owner == "holder" { assert HasHold(t, h); }
  }

  lemma SecondMoves(t: Tables, x: LockReq, y: LockReq)
    requires IsNewWrite(x) && IsNewWrite(y) && HoldsOnly(t, ScopedPath("h", x.path)) && ScopedPath("h", x.path) != ScopedPath("h", y.path)
    ensures var (o, r) := Acquire(t, 1, "h", PointWrite, Moves(x, y));
            && o.Ok? && Good(r, POLICIES())
            && (forall h :: h in r.alg ==> h == Hold("holder", Write, ScopedPath("h", y.path)))
            && (ScopedPath("h", x.path) in r.fence ==> r.fence[ScopedPath("h", x.path)] == 1)
  {
    hide Good, Acquire, ScopedPath, Contended, Onward;
    var args := Moves(x, y);
    AcquireDecides(t, POLICIES(), 1, "h", PointWrite, args);
    NobodyElse(t, ScopedPath("h", x.path), ScopedPath("h", y.path));
    NeverSelfConflicting("h", PointWrite, [y]);
    AcquireGood(t, POLICIES(), 1, "h", PointWrite, args);
    var r := Acquire(t, 1, "h", PointWrite, args).1;
    forall h | h in r.alg ensures h == Hold("holder", Write, ScopedPath("h", y.path)) {
      GrantedBound(t, POLICIES(), 1, "h", PointWrite, args, y, h);
      assert args.releases[0] in args.releases;
    }
    AcquireElsewhere(t, POLICIES(), 1, "h", PointWrite, args, ScopedPath("h", x.path));
  }

  lemma FirstReady(r: Tables, x: LockReq, y: LockReq)
    requires IsNewWrite(x) && IsNewWrite(y) && Apart(ScopedPath("h", x.path), ScopedPath("h", y.path)) && Good(r, POLICIES())
    requires forall h :: h in r.alg ==> h == Hold("holder", Write, ScopedPath("h", y.path))
    requires ScopedPath("h", x.path) in r.fence ==> r.fence[ScopedPath("h", x.path)] == 1
    ensures Ready(r, 1, WantsX(x))
  {
    AcquireDecides(r, POLICIES(), 1, "h", PointWrite, Asks("first", 3, [x]));
    NeverSelfConflicting("h", PointWrite, [x]);
    forall h | HasLock(r, h) ensures h in r.alg { assert HasHold(r, h); }
    hide Good, Acquire, ScopedPath, IsStrictAncestor, HasLock;
    assert !Contended(r, 1, "first", PointWrite, ScopedPath("h", x.path), Write);
  }

  lemma TwoStepSweep(t: Tables, q: Queue, e1: Entry, e2: Entry, t1: Tables)
    requires TryWaiter(t, 1, e1, []) == (Wait, t1) && Acquire(t1, 1, e2.ns, e2.policy.algorithm, e2.args).0.Ok?
    requires !AnyConflict(EntryWants(e2), EntryWants(e1))
    ensures var r := RunSweep(t, q, 1, [e1, e2], []);
            r.t == Acquire(t1, 1, e2.ns, e2.policy.algorithm, e2.args).1 && r.granted == [e2] && r.q == Dequeue(q, 1, e2.owner)
  {
    hide Acquire, AnyConflict, EntryWants, Dequeue, RunSweep;
    var res := [] + EntryWants(e1);
    assert res == EntryWants(e1);
    SweepStep(t, q, 1, [e1, e2], []);
    assert [e1, e2][1..] == [e2];
    SweepStep(t1, q, 1, [e2], res);
    assert [e2][1..] == [];
    EmptySweep(Acquire(t1, 1, e2.ns, e2.policy.algorithm, e2.args).1, Dequeue(q, 1, e2.owner), 1, res);
  }

  /** The sweep grants the holder of x its next lock, x comes free, and the waiter for x is ready yet left queued, behind nobody. */
  lemma InlineReleaseStalls()
    ensures var x, y := WriteReq("h:/x"), WriteReq("h:/y");
            var t, q := HolderTables(x), Line(x, y);
            && Good(t, POLICIES()) && q.Some? && QueueGood(q.value, 1, POLICIES())
            && (var r := GrantSweep(t, q.value, 1);
                r.granted == [MovesOn(x, y)] && Waiting(r.q, 1, WantsX(x)) && Ready(r.t, 1, WantsX(x)) && !BehindEarlier(r.q, 1, WantsX(x)))
  {
    hide Good, QueueGood, ScopedPath, HolderTables, Line, EntryWants, AnyConflict, Apart, Touches, RunSweep, Scan, Acquire, Ready, TryWaiter, Dequeue;
    var x, y := WriteReq("h:/x"), WriteReq("h:/y");
    var e1, e2, t := WantsX(x), MovesOn(x, y), HolderTables(x);
    ThreeKeys();
    KeysDiffer(x, y);
    HeldFacts(x);
    LineFacts(x, y);
    var q := Line(x, y).value;
    ScanOfTwo(q, e1, e2);
    FirstRefused(x);
    var t1 := TryWaiter(t, 1, e1, []).1;
    SecondMoves(t1, x, y);
    NoSharedPath(e1, e2, x, y);
    TwoStepSweep(t, q, e1, e2, t1);
    FirstReady(Acquire(t1, 1, "h", PointWrite, Moves(x, y)).1, x, y);
    DequeueLeaves(q, e1, e2);
  }

  lemma KeysDiffer(x: LockReq, y: LockReq)
    requires Apart(ScopedPath("h", x.path), ScopedPath("h", y.path))
    ensures ScopedPath("h", x.path) != ScopedPath("h", y.path)
  {
  }

  lemma NoSharedPath(e1: Entry, e2: Entry, x: LockReq, y: LockReq)
    requires IsNewWrite(x) && IsNewWrite(y) && e1 == WantsX(x) && e2 == MovesOn(x, y) && Apart(ScopedPath("h", x.path), ScopedPath("h", y.path))
    ensures !AnyConflict(EntryWants(e2), EntryWants(e1))
  {
    hide ScopedPath, EntryWants, IsStrictAncestor;
    WantsOfOne(e1, x);
    WantsOfOne(e2, y);
  }

  lemma DequeueLeaves(q: Queue, e1: Entry, e2: Entry)
    requires QueueGood(q, 1, POLICIES()) && q.entries == map[1 := (e1, 1001), 2 := (e2, 1001)] && e1.seqno == 1 && e2.seqno == 2
    requires e1.owner != e2.owner && Waiting(q, 1, e1)
    ensures Waiting(Dequeue(q, 1, e2.owner), 1, e1) && !BehindEarlier(Dequeue(q, 1, e2.owner), 1, e1)
  {
    hide QueueGood, Dequeue, AnyConflict, EntryWants;
    DequeueLocal(q, 1, POLICIES(), e2.owner, e1);
    DequeueShrinks(q, 1, POLICIES(), e2.owner);
    forall v | Waiting(Dequeue(q, 1, e2.owner), 1, v) ensures v.seqno >= 1 { assert Live(q, 1, v.seqno); }
  }
}

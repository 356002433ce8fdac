/** A lawful state in which a targeted sweep lets a waiter overtake an earlier, conflicting one. */
module Barging {
  import opened Ordering
  import opened Paths
  import opened LockSpec
  import opened LockInvariant
  import opened ApplyProof
  import opened EngineProof
  import opened AllOrNothing
  import opened AcquireDecision
  import opened QueueSpec
  import opened QueueProof
  import opened EnqueueProof
  import opened SweepProof
  import opened Fairness

  const POLICY: LockPolicy := LockPolicy(PointWrite, 0)

  function POLICIES(): Policies { Policies(map[], PointWrite) }

  function WriteReq(path: string): LockReq { LockReq(path, Write, New, 0) }

  function Asks(owner: string, token: int, requests: seq<LockReq>): AcquireArgs { AcquireArgs(owner, 1000, requests, token, [], 1000) }

  // --- the paths ---

  lemma ShortKey(rest: string)
    ensures ScopedPath("h", "h:" + rest) == "h" + [SCOPED_PATH_SEP] + rest
  {
    FirstIndex("h", ':', rest);
    assert "h" + [':'] + rest == "h:" + rest;
    assert ("h:" + rest)[2..] == rest;
  }

  lemma Siblings(p: string, q: string)
    requires p != q && |p| == |q|
    ensures !IsStrictAncestor(p, q) && !(DescendantPrefix(q) <= p) && !Touches(p, q)
  {
    if IsStrictAncestor(p, q) { AncestorShape(p, q); assert false; }
  }

  // --- the holder of y ---

  lemma EmptyWrite(owner: string, token: int, q: LockReq)
    requires q.mode == Write && q.state == New
    ensures ValidateReq(EMPTY, 1, owner, token, "h", PointWrite, q) == (None, EMPTY)
  {
    hide ScopedPath, GetAncestors;
    var key := ScopedPath("h", q.path);
    EmptyAncestors(1, owner, "h", GetAncestors(key));
    var t1 := PruneReaders(EMPTY, 1, key);
    assert t1.wr == map[] && t1.alg == map[] && t1.sem == {} && t1.rd == {} && t1.wrdesc == {} && t1.rddesc == {};
    assert t1 == EMPTY && MembersAt(EMPTY.rd, key) == {};
  }

  function HolderTables(q: LockReq): Tables { Acquire(EMPTY, 1, "h", PointWrite, Asks("holder", 1, [q])).1 }

  lemma HeldFacts(q: LockReq)
    requires q.mode == Write && q.state == New
    ensures var t := HolderTables(q); var key := ScopedPath("h", q.path);
            && Good(t, POLICIES())
            && (forall h :: h in t.alg <==> h == Hold("holder", Write, key))
            && (forall h :: HasLock(t, h) <==> h == Hold("holder", Write, key))
            && t.fence == map[key := 1]
            && t.alive == map["holder" := 1001]
  {
    hide ScopedPath, Good, IndexPairs;
    EmptyGood(POLICIES());
    AcquireGood(EMPTY, POLICIES(), 1, "h", PointWrite, Asks("holder", 1, [q]));
    var args := Asks("holder", 1, [q]);
    EmptyBegin(1, args);
    EmptyWrite("holder", 1, q);
    assert [q][1..] == [];
    assert ValidateAll(EMPTY, 1, "holder", 1, "h", PointWrite, [q]) == (None, EMPTY);
    assert !HasHeld([q]);
    hide ValidateAll, BeginAcquire;
    var t2 := ApplyWrite(EMPTY, "holder", 1, "h", q, PointWrite).1;
    assert ApplyAll(EMPTY, "holder", 1, "h", PointWrite, [q]) == (None, t2);
    assert HolderTables(q) == RefreshLease(t2, 1, "holder", 1000);
  }

  /** The later waiter's request can be granted: nothing it wants is held. */
  lemma SecondGrantable(y: LockReq, owner: string, reqs: seq<LockReq>)
    requires y.mode == Write && y.state == New && owner != "holder" && (forall q :: q in reqs ==> IsNewWrite(q))
    requires forall q :: q in reqs ==> Apart(ScopedPath("h", q.path), ScopedPath("h", y.path))
    ensures Acquire(HolderTables(y), 1, "h", PointWrite, Asks(owner, 2, reqs)).0.Ok?
  {
    hide ScopedPath, Good, HolderTables, Acquire, HasLock;
    HeldFacts(y);
    var t := HolderTables(y);
    var args := Asks(owner, 2, reqs);
    AcquireDecides(t, POLICIES(), 1, "h", PointWrite, args);
    forall q | q in reqs ensures GrantableTo(t, 1, owner, 2, "h", PointWrite, q) { }
    NeverSelfConflicting("h", PointWrite, reqs);
  }

  lemma NeverSelfConflicting(ns: string, alg: LockAlgorithm, reqs: seq<LockReq>)
    requires !alg.Semaphore?
    ensures !SelfConflicting(ns, alg, reqs)
  {
  }

  /** Neither path equals, contains or lies above the other. */
  ghost predicate Apart(p: string, q: string) { p != q && !IsStrictAncestor(p, q) && !IsStrictAncestor(q, p) }

  // --- the two waiters ---

  function Waiter(seqno: nat, owner: string, reqs: seq<LockReq>): Entry { Entry(seqno, owner, "h", Asks(owner, seqno, reqs), POLICY) }

  lemma NewPathsOfTwo(p: LockReq, q: LockReq, ns: string)
    requires p.state == New && q.state == New
    ensures NewPaths(ns, [p, q]) == [(ScopedPath(ns, p.path), p.mode), (ScopedPath(ns, q.path), q.mode)]
  {
    hide ScopedPath;
    assert [p, q][1..] == [q] && [q][1..] == [];
    assert NewPaths(ns, [q]) == [(ScopedPath(ns, q.path), q.mode)];
  }

  lemma ParkNewcomer(q: Queue, args: AcquireArgs)
    requires QueueGood(q, 1, POLICIES()) && args.owner !in q.owners && UnitSum(q.entries) <= 2 && QueueUnits(args) <= 2 && args.queueTtl == 1000 && args.requests != []
    ensures var s := q.lastSeq + 1;
            var e := Entry(s, args.owner, "h", args, POLICY);
            var next := Enqueue(q, 1, "h", args, POLICY);
            && next.Some? && next.value.0 == s && QueueGood(next.value.1, 1, POLICIES())
            && next.value.1.entries == q.entries[s := (e, 1001)] && next.value.1.owners == q.owners[args.owner := (s, 1001)]
            && next.value.1.paths == q.paths + (map k | k in PathKeys(e) :: 1001)
            && next.value.1.lastSeq == s && s !in q.entries
  {
    hide UnitSum, PathKeys, QueueGood, QueueUnits;
    EnqueueGood(q, 1, POLICIES(), "h", args, POLICY);
    GoodCount(q, POLICIES());
  }

  lemma GoodCount(q: Queue, pol: Policies)
    requires QueueGood(q, 1, pol)
    ensures QueueCount(q) == UnitSum(q.entries) && q.lastSeq + 1 !in q.entries
  {
    hide PathKeys, Indexed, OwnersPoint, NoOrphans, QueueFiled, Current;
  }

  /** After the first waiter parked on a and y, and the second on a and x. */
  function Parked(a: LockReq, x: LockReq, y: LockReq): Option<Queue> {
    var q1 := Enqueue(EMPTY_QUEUE, 1, "h", Asks("first", 1, [a, y]), POLICY);
    if q1.None? then None
    else
      var q2 := Enqueue(q1.value.1, 1, "h", Asks("second", 2, [a, x]), POLICY);
      if q2.None? then None else Some(q2.value.1)
  }

  lemma ParkedFacts(a: LockReq, x: LockReq, y: LockReq)
    requires a.state == New && x.state == New && y.state == New
    ensures var q := Parked(a, x, y);
            var e1, e2 := Waiter(1, "first", [a, y]), Waiter(2, "second", [a, x]);
            && q.Some? && QueueGood(q.value, 1, POLICIES())
            && q.value.entries == map[1 := (e1, 1001), 2 := (e2, 1001)]
            && q.value.paths == (map k | k in PathKeys(e1) + PathKeys(e2) :: 1001)
  {
    hide UnitSum, PathKeys, QueueGood, Enqueue;
    EmptyQueueGood(1, POLICIES());
    NoUnitsStored();
    UnitsOfTwo(a, y, "first", 1);
    UnitsOfTwo(a, x, "second", 2);
    hide QueueUnits;
    ParkNewcomer(EMPTY_QUEUE, Asks("first", 1, [a, y]));
    var q1 := Enqueue(EMPTY_QUEUE, 1, "h", Asks("first", 1, [a, y]), POLICY).value.1;
    var e1 := Waiter(1, "first", [a, y]);
    assert UnitSum(q1.entries) == 2 by { UnitsWith(map[], 1, (e1, 1001)); assert map[][1 := (e1, 1001)] == q1.entries; }
    ParkNewcomer(q1, Asks("second", 2, [a, x]));
  }

  lemma NoUnitsStored()
    ensures UnitSum(map[]) == 0
  {
  }

  lemma UnitsOfTwo(p: LockReq, q: LockReq, owner: string, token: int)
    requires p.state == New && q.state == New
    ensures QueueUnits(Asks(owner, token, [p, q])) == 2
  {
    NewPathsOfTwo(p, q, "");
  }

  // --- the sweep of x ---

  lemma OnlySecond(q: Queue, e1: Entry, e2: Entry, a: string, x: string, y: string)
    requires e1.seqno == 1 && e2.seqno == 2 && q.paths == (map k | k in PathKeys(e1) + PathKeys(e2) :: 1001)
    requires PathKeys(e1) == {(a, 1), (y, 1)} && PathKeys(e2) == {(a, 2), (x, 2)}
    requires !Touches(a, x) && !Touches(y, x)
    ensures CandidateSeqs(q, 1, [x]) == {2} && SortedNats({2}) == [2]
  {
    hide PathKeys;
    assert (x, 2) in q.paths && Touches(x, x);
    var f := [x];
    assert x in f;
    assert 2 in CandidateSeqs(q, 1, [x]);
    AscendingUnique(SortedNats({2}), [2], NatLess);
  }

  lemma KeysOfTwo(e: Entry, p: LockReq, q: LockReq)
    requires e.args.requests == [p, q] && p.state == New && q.state == New
    ensures PathKeys(e) == {(ScopedPath(e.ns, p.path), e.seqno), (ScopedPath(e.ns, q.path), e.seqno)}
    ensures EntryWants(e) == [Want(ScopedPath(e.ns, p.path), p.mode, e.policy.algorithm), Want(ScopedPath(e.ns, q.path), q.mode, e.policy.algorithm)]
  {
    hide ScopedPath;
    NewPathsOfTwo(p, q, e.ns);
    var ps := NewPaths(e.ns, e.args.requests);
    assert ps[0] in ps && ps[1] in ps;
  }

  lemma SweepOne(t: Tables, q: Queue, e: Entry)
    requires Acquire(t, 1, e.ns, e.policy.algorithm, e.args).0.Ok?
    ensures e in RunSweep(t, q, 1, [e], []).granted
  {
    hide Acquire, EntryWants, Dequeue, RunSweep;
    assert !AnyConflict(EntryWants(e), []);
    SweepStep(t, q, 1, [e], []);
  }

  ghost predicate IsNewWrite(r: LockReq) { r.mode == Write && r.state == New }

  lemma SecondGranted(q: Queue, a: LockReq, x: LockReq, y: LockReq, e1: Entry, e2: Entry)
    requires IsNewWrite(a) && IsNewWrite(x) && IsNewWrite(y) && Parked(a, x, y) == Some(q)
    requires e1 == Waiter(1, "first", [a, y]) && e2 == Waiter(2, "second", [a, x])
    requires var (ka, kx, ky) := (ScopedPath("h", a.path), ScopedPath("h", x.path), ScopedPath("h", y.path));
             Apart(ka, ky) && Apart(kx, ky) && !Touches(ka, kx) && !Touches(ky, kx)
    ensures CandidateSeqs(q, 1, [ScopedPath("h", x.path)]) == {2}
    ensures e2 in GrantSweepForPaths(HolderTables(y), q, 1, [ScopedPath("h", x.path)]).granted
  {
    hide Good, QueueGood, ScopedPath, HolderTables, Parked, PathKeys, EntryWants, RunSweep, Acquire, CandidateSeqs, SortedNats, Apart, Touches;
    ParkedFacts(a, x, y);
    KeysOfTwo(e1, a, y);
    KeysOfTwo(e2, a, x);
    OnlySecond(q, e1, e2, ScopedPath("h", a.path), ScopedPath("h", x.path), ScopedPath("h", y.path));
    SecondGrantable(y, "second", [a, x]);
    assert LiveOf(q, 1, [2]) == [e2] by { assert [2][1..] == []; assert LiveOf(q, 1, []) == []; }
    hide LiveOf;
    SweepOne(HolderTables(y), q, e2);
  }

  lemma SharePath(a: LockReq, x: LockReq, y: LockReq)
    requires IsNewWrite(a) && IsNewWrite(x) && IsNewWrite(y)
    ensures AnyConflict(EntryWants(Waiter(2, "second", [a, x])), EntryWants(Waiter(1, "first", [a, y])))
  {
    hide ScopedPath, NewPaths, IsStrictAncestor, EntryWants;
    var e1, e2 := Waiter(1, "first", [a, y]), Waiter(2, "second", [a, x]);
    KeysOfTwo(e1, a, y);
    KeysOfTwo(e2, a, x);
    assert EntryWants(e2)[0] in EntryWants(e2) && EntryWants(e1)[0] in EntryWants(e1);
  }

  /** With y held and x freed, the sweep grants the second waiter a and x while the first still waits for a and y. */
  lemma TargetedSweepBarges()
    ensures var a, x, y := WriteReq("h:/a"), WriteReq("h:/x"), WriteReq("h:/y");
            var t, q := HolderTables(y), Parked(a, x, y);
            var e1, e2 := Waiter(1, "first", [a, y]), Waiter(2, "second", [a, x]);
            && Good(t, POLICIES()) && q.Some? && QueueGood(q.value, 1, POLICIES())
            && (var r := GrantSweepForPaths(t, q.value, 1, [ScopedPath("h", x.path)]);
                e2 in r.granted && Waiting(r.q, 1, e1) && e1.seqno < e2.seqno && AnyConflict(EntryWants(e2), EntryWants(e1)))
  {
    hide Good, QueueGood, ScopedPath, HolderTables, Parked, PathKeys, EntryWants, GrantSweepForPaths, CandidateSeqs, AnyConflict, Apart, Touches;
    var a, x, y := WriteReq("h:/a"), WriteReq("h:/x"), WriteReq("h:/y");
    var e1, e2 := Waiter(1, "first", [a, y]), Waiter(2, "second", [a, x]);
    ThreeKeys();
    HeldFacts(y);
    ParkedFacts(a, x, y);
    var q := Parked(a, x, y).value;
    SecondGranted(q, a, x, y, e1, e2);
    SharePath(a, x, y);
    NotCandidate(q, e1, ScopedPath("h", x.path));
    OvertakenIff(HolderTables(y), q, 1, POLICIES(), [ScopedPath("h", x.path)], e1, e2);
  }

  lemma NotCandidate(q: Queue, w: Entry, freed: string)
    requires QueueGood(q, 1, POLICIES()) && Waiting(q, 1, w) && w.seqno !in CandidateSeqs(q, 1, [freed])
    ensures !MeetsFreed(w, [freed])
  {
    hide QueueGood, Waiting, CandidateSeqs, MeetsFreed;
    CandidateIff(q, 1, POLICIES(), [freed], w);
  }

  lemma FourthChar(c: char, k: string)
    requires k == "h" + [SCOPED_PATH_SEP] + ['/', c]
    ensures |k| == 4 && k[3] == c
  {
  }

  lemma ThreeKeys()
    ensures var a, x, y := ScopedPath("h", "h:/a"), ScopedPath("h", "h:/x"), ScopedPath("h", "h:/y");
            Apart(a, y) && Apart(x, y) && !Touches(a, x) && !Touches(y, x)
  {
    hide ScopedPath, IsStrictAncestor, DescendantPrefix, Touches;
    ShortKey("/a");
    ShortKey("/x");
    ShortKey("/y");
    var a, x, y := ScopedPath("h", "h:/a"), ScopedPath("h", "h:/x"), ScopedPath("h", "h:/y");
    assert "h:" + "/a" == "h:/a" && "h:" + "/x" == "h:/x" && "h:" + "/y" == "h:/y";
    FourthChar('a', a);
    FourthChar('x', x);
    FourthChar('y', y);
    Siblings(a, y);
    Siblings(y, a);
    Siblings(x, y);
    Siblings(y, x);
    Siblings(a, x);
  }
}

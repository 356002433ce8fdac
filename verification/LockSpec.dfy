/**
 The lock engine on values: the lock tables of one group and, as functions, what
 each engine primitive does to them.
 */
module LockSpec {
  import opened Ordering
  import opened Paths
  import opened Expiry

  // --- value types ---

  datatype Option<+T> = None | Some(value: T)

  datatype Mode = Write | Read

  datatype LockAlgorithm = RecursiveRw | PointRw | RecursiveWrite | PointWrite | Semaphore {
    predicate AllowsRead() { RecursiveRw? || PointRw? }
    predicate Recursive() { RecursiveRw? || RecursiveWrite? }
    predicate AllowsMode(mode: Mode) { mode == Write || AllowsRead() }
  }

  const DEFAULT_ALGORITHM: LockAlgorithm := RecursiveRw

  datatype Reason =
    | AncestorLocked | WriteLocked | ReadLocked | DescendantWriteLocked | DescendantReadLocked
    | ReadLocksDisabled | StaleFencingToken | InvalidPermits | SemaphoreFull | MissingSemaphore
    | MissingWrite | MissingRead | MissingFence | MissingAlive | MissingOwnerSet | Queued | StaleOwner
  {
    predicate IsQueueable() {
      WriteLocked? || ReadLocked? || AncestorLocked? || DescendantWriteLocked? || DescendantReadLocked? || SemaphoreFull?
    }
  }

  datatype ReqState = New | Held

  datatype LockReq = LockReq(path: string, mode: Mode, state: ReqState, permits: nat)
  datatype RelReq = RelReq(path: string, mode: Mode)

  datatype AcquireArgs = AcquireArgs(
    owner: string, ttl: Time, requests: seq<LockReq>, token: int, releases: seq<RelReq>, queueTtl: Time)

  /** `current` carries the stored fence or capacity of a refusal, `owner` the blocking owner. */
  datatype AcquireOutcome =
    | Ok(token: int)
    | Conflict(path: string, owner: string, current: int, reason: Reason)
    | Lost(path: string, reason: Reason)
    | Enqueued(path: string, owner: string, reason: Reason, token: int)

  datatype RenewOutcome = Renewed | RenewLost(reason: Reason)

  datatype AssertOutcome = AssertOk | AssertFail(path: string, reason: Reason)

  datatype LockPolicy = LockPolicy(algorithm: LockAlgorithm, epoch: nat)

  /** One owner's hold of one scoped path in one mode. */
  datatype Hold = Hold(owner: string, mode: Mode, key: string)

  /** A member of an owner's hold set. */
  datatype Member = Member(mode: Mode, ns: string, path: string) {
    function Key(): string { ScopedPath(ns, path) }
  }

  /**
   The lock tables of one group. Set-valued tables hold one pair per stored key:
   (path, owner) for readers and semaphore holders, (owner, member) for hold sets,
   (ancestor, path) for the descendant indexes.
   */
  datatype Tables = Tables(
    wr: map<string, string>,
    rd: set<(string, string)>,
    sem: set<(string, string)>,
    cap: map<string, nat>,
    fence: map<string, int>,
    alive: map<string, Time>,
    own: set<(string, Member)>,
    alg: map<Hold, LockAlgorithm>,
    wrdesc: set<(string, string)>,
    rddesc: set<(string, string)>,
    slots: set<Slot>)
  {
    predicate Alive(owner: string, now: Time) { owner in alive && !Expired(alive[owner], now) }

    predicate Writes(owner: string, key: string) { key in wr && wr[key] == owner }

    function HoldAlgorithm(h: Hold): LockAlgorithm { if h in alg then alg[h] else DEFAULT_ALGORITHM }
  }

  const EMPTY: Tables := Tables(map[], {}, {}, map[], map[], map[], {}, map[], {}, {}, {})

  // --- conflicts ---

  /** Whether two locks cannot coexist when each uses its own algorithm. */
  predicate LocksConflict(
    aAlg: LockAlgorithm, aPath: string, aMode: Mode, bAlg: LockAlgorithm, bPath: string, bMode: Mode)
  {
    if !aAlg.AllowsMode(aMode) || !bAlg.AllowsMode(bMode) then false
    else if aPath == bPath then aMode == Write || bMode == Write
    else if IsStrictAncestor(aPath, bPath) then aMode == Write && aAlg.Recursive()
    else if IsStrictAncestor(bPath, aPath) then bMode == Write && bAlg.Recursive()
    else false
  }

  // --- set-valued tables ---

  function MembersAt(rel: set<(string, string)>, key: string): (r: set<string>)
    ensures forall x :: x in r <==> (key, x) in rel
  {
    set e | e in rel && e.0 == key :: e.1
  }

  predicate HasMember(rel: set<(string, string)>, key: string) { exists e :: e in rel && e.0 == key }

  /** The index pairs that file `key` under each of its ancestors. */
  function IndexPairs(key: string): (r: set<(string, string)>)
    ensures forall a, k :: (a, k) in r <==> k == key && IsStrictAncestor(a, key)
  {
    set a | a in GetAncestors(key) :: (a, key)
  }

  // --- removal ---

  /**
   The tables without the given holds: their records, their algorithm markers and
   the index entries of paths left without a writer or without readers.
   */
  function Drop(t: Tables, hs: set<Hold>): (r: Tables) {
    var wr := map k | k in t.wr && Hold(t.wr[k], Write, k) !in hs :: t.wr[k];
    var rd := set e | e in t.rd && Hold(e.1, Read, e.0) !in hs;
    t.(wr := wr,
       rd := rd,
       sem := (set e | e in t.sem && Hold(e.1, Write, e.0) !in hs),
       alg := t.alg - hs,
       wrdesc := (set e | e in t.wrdesc && e.1 in wr),
       rddesc := (set e | e in t.rddesc && HasMember(rd, e.1)))
  }

  function PruneWriter(t: Tables, now: Time, key: string): (r: Tables) {
    if key in t.wr && !t.Alive(t.wr[key], now) then Drop(t, {Hold(t.wr[key], Write, key)}) else t
  }

  function PruneReaders(t: Tables, now: Time, key: string): (r: Tables) {
    Drop(t, set o | o in MembersAt(t.rd, key) && !t.Alive(o, now) :: Hold(o, Read, key))
  }

  function PruneSemaphore(t: Tables, now: Time, key: string): (r: Tables) {
    Drop(t, set o | o in MembersAt(t.sem, key) && !t.Alive(o, now) :: Hold(o, Write, key))
  }

  /** Release one lock and its hold-set member. */
  function ReleaseOne(t: Tables, ns: string, owner: string, req: RelReq): (r: Tables) {
    Drop(t.(own := t.own - {(owner, Member(req.mode, ns, req.path))}),
         {Hold(owner, req.mode, ScopedPath(ns, req.path))})
  }

  function ReleaseEach(t: Tables, ns: string, owner: string, reqs: seq<RelReq>): (r: Tables)
    decreases |reqs|
  {
    if reqs == [] then t else ReleaseEach(ReleaseOne(t, ns, owner, reqs[0]), ns, owner, reqs[1..])
  }

  predicate HoldsNothing(t: Tables, owner: string) { forall e :: e in t.own ==> e.0 != owner }

  /** The lease goes with the last hold-set member. */
  function DropLeaseIfIdle(t: Tables, owner: string): (r: Tables) {
    if HoldsNothing(t, owner) then t.(alive := t.alive - {owner}) else t
  }

  function Release(t: Tables, ns: string, owner: string, reqs: seq<RelReq>): (r: Tables) {
    DropLeaseIfIdle(ReleaseEach(t, ns, owner, reqs), owner)
  }

  /** Owner-wide release: no record of the owner stays, every other owner's records do. */
  function ReleaseOwner(t: Tables, owner: string): (r: Tables) {
    Drop(t, set h | h in t.alg && h.owner == owner)
      .(own := (set e | e in t.own && e.0 != owner), alive := t.alive - {owner})
  }

  // --- leases ---

  function RefreshLease(t: Tables, now: Time, owner: string, ttl: Time): (r: Tables) {
    var exp := ExpiryAt(now, ttl);
    t.(alive := t.alive[owner := exp], slots := FileSlot(t.slots, now, exp, AliveRef(owner)))
  }

  function Renew(t: Tables, now: Time, owner: string, ttl: Time): (r: (RenewOutcome, Tables)) {
    if !t.Alive(owner, now) then (RenewLost(MissingAlive), t)
    else if HoldsNothing(t, owner) then (RenewLost(MissingOwnerSet), t)
    else (Renewed, RefreshLease(t, now, owner, ttl))
  }

  // --- acquire: validation (prunes dead owners as it goes) ---

  type Checked = (Option<AcquireOutcome>, Tables)

  function ValidateAncestors(t: Tables, now: Time, owner: string, ns: string, ancs: seq<string>): (r: Checked)
    decreases |ancs|
  {
    if ancs == [] then (None, t)
    else
      var a := ancs[0];
      var t1 := PruneWriter(t, now, a);
      if a in t1.wr && t1.wr[a] != owner && t1.HoldAlgorithm(Hold(t1.wr[a], Write, a)).Recursive() then
        (Some(Conflict(PublicPath(ns, a), t1.wr[a], 0, AncestorLocked)), t1)
      else ValidateAncestors(t1, now, owner, ns, ancs[1..])
  }

  function FindDescendantWrite(
    t: Tables, now: Time, owner: string, ns: string, key: string, candidates: seq<string>): (r: Checked)
    decreases |candidates|
  {
    if candidates == [] then (None, t)
    else
      var c := candidates[0];
      var t1 := PruneWriter(t, now, c);
      if c !in t1.wr then
        var t2 := t1.(wrdesc := t1.wrdesc - {(key, c)} - IndexPairs(c));
        FindDescendantWrite(t2, now, owner, ns, key, candidates[1..])
      else if t1.wr[c] != owner then
        (Some(Conflict(PublicPath(ns, c), t1.wr[c], 0, DescendantWriteLocked)), t1)
      else FindDescendantWrite(t1, now, owner, ns, key, candidates[1..])
  }

  /** The first reader in key order that is not the owner. */
  function FirstForeign(owners: seq<string>, owner: string): (r: Option<string>) {
    if owners == [] then None
    else if owners[0] != owner then Some(owners[0])
    else FirstForeign(owners[1..], owner)
  }

  function ForeignReader(t: Tables, key: string, owner: string): (r: Option<string>) {
    FirstForeign(SortedStrings(MembersAt(t.rd, key)), owner)
  }

  function FindDescendantRead(
    t: Tables, now: Time, owner: string, ns: string, key: string, candidates: seq<string>): (r: Checked)
    decreases |candidates|
  {
    if candidates == [] then (None, t)
    else
      var c := candidates[0];
      var t1 := PruneReaders(t, now, c);
      if !HasMember(t1.rd, c) then
        var t2 := t1.(rddesc := t1.rddesc - {(key, c)} - IndexPairs(c));
        FindDescendantRead(t2, now, owner, ns, key, candidates[1..])
      else match ForeignReader(t1, c, owner)
        case Some(o) => (Some(Conflict(PublicPath(ns, c), o, 0, DescendantReadLocked)), t1)
        case None => FindDescendantRead(t1, now, owner, ns, key, candidates[1..])
  }

  predicate StaleFence(t: Tables, key: string, token: int, sameOwner: bool) {
    key in t.fence && (t.fence[key] > token || (t.fence[key] == token && !sameOwner))
  }

  function ValidateSubtree(t: Tables, now: Time, owner: string, ns: string, key: string): (r: Checked) {
    var (o1, t1) := FindDescendantWrite(t, now, owner, ns, key, SortedStrings(MembersAt(t.wrdesc, key)));
    if o1.Some? then (o1, t1)
    else FindDescendantRead(t1, now, owner, ns, key, SortedStrings(MembersAt(t1.rddesc, key)))
  }

  function ValidateNewWrite(
    t: Tables, now: Time, owner: string, token: int, ns: string, alg: LockAlgorithm,
    path: string, sameOwner: bool): (r: Checked)
  {
    var key := ScopedPath(ns, path);
    var t1 := PruneReaders(t, now, key);
    match ForeignReader(t1, key, owner)
    case Some(o) => (Some(Conflict(path, o, 0, ReadLocked)), t1)
    case None =>
      var (o2, t2) := if alg.Recursive() then ValidateSubtree(t1, now, owner, ns, key) else (None, t1);
      if o2.Some? then (o2, t2)
      else if StaleFence(t2, key, token, sameOwner) then
        (Some(Conflict(path, "", t2.fence[key], StaleFencingToken)), t2)
      else (None, t2)
  }

  function ValidateNewSemaphore(t: Tables, now: Time, owner: string, ns: string, req: LockReq): (r: Checked) {
    var key := ScopedPath(ns, req.path);
    if req.permits == 0 then (Some(Conflict(req.path, "", 0, InvalidPermits)), t)
    else if key in t.cap && t.cap[key] != req.permits then
      (Some(Conflict(req.path, "", t.cap[key], InvalidPermits)), t)
    else if (key, owner) in t.sem then (None, t)
    else
      var t1 := PruneSemaphore(t, now, key);
      var holders := SortedStrings(MembersAt(t1.sem, key));
      if |holders| >= req.permits then (Some(Conflict(req.path, holders[0], 0, SemaphoreFull)), t1)
      else (None, t1)
  }

  function ValidateNew(
    t: Tables, now: Time, owner: string, token: int, ns: string, alg: LockAlgorithm, req: LockReq): (r: Checked)
  {
    var key := ScopedPath(ns, req.path);
    if !alg.AllowsMode(req.mode) then (Some(Conflict(req.path, "", 0, ReadLocksDisabled)), t)
    else
      var (o1, t1) := ValidateAncestors(t, now, owner, ns, GetAncestors(key));
      if o1.Some? then (o1, t1)
      else if alg.Semaphore? then ValidateNewSemaphore(t1, now, owner, ns, req)
      else
        var t2 := PruneWriter(t1, now, key);
        if key in t2.wr && t2.wr[key] != owner then (Some(Conflict(req.path, t2.wr[key], 0, WriteLocked)), t2)
        else if req.mode == Read then (None, t2)
        else ValidateNewWrite(t2, now, owner, token, ns, alg, req.path, key in t2.wr)
  }

  function ValidateHeld(t: Tables, owner: string, token: int, ns: string, req: LockReq): (r: Option<AcquireOutcome>) {
    var key := ScopedPath(ns, req.path);
    if t.HoldAlgorithm(Hold(owner, req.mode, key)).Semaphore? then
      if (key, owner) in t.sem then None else Some(Lost(req.path, MissingSemaphore))
    else if req.mode == Write then
      if !t.Writes(owner, key) then Some(Lost(req.path, MissingWrite))
      else if key !in t.fence then Some(Lost(req.path, MissingFence))
      else if t.fence[key] > token then Some(Conflict(req.path, "", t.fence[key], StaleFencingToken))
      else None
    else if (key, owner) in t.rd then None
    else Some(Lost(req.path, MissingRead))
  }

  function ValidateReq(
    t: Tables, now: Time, owner: string, token: int, ns: string, alg: LockAlgorithm, req: LockReq): (r: Checked)
  {
    if req.state == Held then (ValidateHeld(t, owner, token, ns, req), t)
    else ValidateNew(t, now, owner, token, ns, alg, req)
  }

  function ValidateAll(
    t: Tables, now: Time, owner: string, token: int, ns: string, alg: LockAlgorithm, reqs: seq<LockReq>): (r: Checked)
    decreases |reqs|
  {
    if reqs == [] then (None, t)
    else
      var (o1, t1) := ValidateReq(t, now, owner, token, ns, alg, reqs[0]);
      if o1.Some? then (o1, t1) else ValidateAll(t1, now, owner, token, ns, alg, reqs[1..])
  }

  // --- acquire: execution ---

  function RecordHold(t: Tables, owner: string, ns: string, req: LockReq, alg: LockAlgorithm): (r: Tables) {
    t.(own := t.own + {(owner, Member(req.mode, ns, req.path))},
       alg := t.alg[Hold(owner, req.mode, ScopedPath(ns, req.path)) := alg])
  }

  function ApplySemaphore(t: Tables, owner: string, ns: string, req: LockReq): (r: Checked) {
    var key := ScopedPath(ns, req.path);
    if req.state == New && key in t.cap && t.cap[key] != req.permits then
      (Some(Conflict(req.path, "", t.cap[key], InvalidPermits)), t)
    else
      var t1 := if req.state == New && key !in t.cap then t.(cap := t.cap[key := req.permits]) else t;
      (None, RecordHold(t1.(sem := t1.sem + {(key, owner)}), owner, ns, req, Semaphore))
  }

  function ApplyWrite(t: Tables, owner: string, token: int, ns: string, req: LockReq, alg: LockAlgorithm): (r: Checked) {
    var key := ScopedPath(ns, req.path);
    if req.state == New && key in t.wr && t.wr[key] != owner then
      (Some(Conflict(req.path, t.wr[key], 0, WriteLocked)), t)
    else
      var t1 := t.(wr := t.wr[key := owner], fence := t.fence[key := token], wrdesc := t.wrdesc + IndexPairs(key));
      (None, RecordHold(t1, owner, ns, req, alg))
  }

  function ApplyRead(t: Tables, owner: string, ns: string, req: LockReq, alg: LockAlgorithm): (r: Tables) {
    var key := ScopedPath(ns, req.path);
    RecordHold(t.(rd := t.rd + {(key, owner)}, rddesc := t.rddesc + IndexPairs(key)), owner, ns, req, alg)
  }

  function ApplyReq(t: Tables, owner: string, token: int, ns: string, alg: LockAlgorithm, req: LockReq): (r: Checked) {
    var key := ScopedPath(ns, req.path);
    var a := if req.state == Held then t.HoldAlgorithm(Hold(owner, req.mode, key)) else alg;
    if a.Semaphore? then ApplySemaphore(t, owner, ns, req)
    else if req.mode == Write then ApplyWrite(t, owner, token, ns, req, a)
    else (None, ApplyRead(t, owner, ns, req, a))
  }

  function ApplyAll(
    t: Tables, owner: string, token: int, ns: string, alg: LockAlgorithm, reqs: seq<LockReq>): (r: Checked)
    decreases |reqs|
  {
    if reqs == [] then (None, t)
    else
      var (o1, t1) := ApplyReq(t, owner, token, ns, alg, reqs[0]);
      if o1.Some? then (o1, t1) else ApplyAll(t1, owner, token, ns, alg, reqs[1..])
  }

  predicate HasHeld(reqs: seq<LockReq>) { exists r :: r in reqs && r.state == Held }

  /** A lapsed owner starting afresh first loses everything it still had on record. */
  function BeginAcquire(t: Tables, now: Time, args: AcquireArgs): (r: Tables) {
    if !HasHeld(args.requests) && !t.Alive(args.owner, now) && args.requests != []
    then ReleaseOwner(t, args.owner) else t
  }

  function FinishAcquire(t: Tables, now: Time, ns: string, args: AcquireArgs): (r: Tables) {
    var t1 := RefreshLease(t, now, args.owner, args.ttl);
    if args.releases == [] then t1 else Release(t1, ns, args.owner, args.releases)
  }

  function Acquire(
    t: Tables, now: Time, ns: string, alg: LockAlgorithm, args: AcquireArgs): (r: (AcquireOutcome, Tables))
  {
    if args.requests == [] && args.releases == [] then (Ok(0), t)
    else if HasHeld(args.requests) && !t.Alive(args.owner, now) then (Lost("", MissingAlive), t)
    else
      var t0 := BeginAcquire(t, now, args);
      var (o1, t1) := ValidateAll(t0, now, args.owner, args.token, ns, alg, args.requests);
      if o1.Some? then (o1.value, t1)
      else
        var (o2, t2) := ApplyAll(t1, args.owner, args.token, ns, alg, args.requests);
        if o2.Some? then (o2.value, t2)
        else (Ok(if args.token > 0 then args.token else 0), FinishAcquire(t2, now, ns, args))
  }

  // --- fencing assertion ---

  function AssertPaths(t: Tables, ns: string, owner: string, token: int, paths: seq<string>): (r: AssertOutcome) {
    if paths == [] then AssertOk
    else
      var key := ScopedPath(ns, paths[0]);
      if !t.Writes(owner, key) then AssertFail(paths[0], StaleOwner)
      else if key !in t.fence || t.fence[key] != token then AssertFail(paths[0], StaleFencingToken)
      else AssertPaths(t, ns, owner, token, paths[1..])
  }

  function AssertFencing(
    t: Tables, now: Time, ns: string, owner: string, token: int, paths: seq<string>): (r: AssertOutcome)
  {
    if paths != [] && !t.Alive(owner, now) then AssertFail(paths[0], StaleOwner)
    else AssertPaths(t, ns, owner, token, paths)
  }
}

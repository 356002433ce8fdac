/**
 The FIFO wait queue on values: parked acquires, their indexes and the unit
 counter, admission, and the grant sweep.
 */
module QueueSpec {
  import opened Ordering
  import opened Paths
  import opened Expiry
  import opened LockSpec

  const QUEUE_ENTRY_TTL_MS: Time := 60_000
  const QUEUE_SCAN_LIMIT: nat := 65_536

  datatype Entry = Entry(seqno: nat, owner: string, ns: string, args: AcquireArgs, policy: LockPolicy)

  /** Entries by sequence number, the owner index, the path index, the unit counter and the sequence counter. */
  datatype Queue = Queue(
    entries: map<nat, (Entry, Time)>,
    owners: map<string, (nat, Time)>,
    paths: map<(string, nat), Time>,
    count: Option<nat>,
    lastSeq: nat,
    slots: set<Slot>)

  const EMPTY_QUEUE: Queue := Queue(map[], map[], map[], None, 0, {})

  // --- requests ---

  /** The new paths of an acquire, scoped: the ones actually contended. */
  function NewPaths(ns: string, reqs: seq<LockReq>): (r: seq<(string, Mode)>) {
    if reqs == [] then []
    else (if reqs[0].state == New then [(ScopedPath(ns, reqs[0].path), reqs[0].mode)] else []) + NewPaths(ns, reqs[1..])
  }

  function QueueUnits(args: AcquireArgs): (r: nat)
    ensures r >= 1
  {
    var n := |NewPaths("", args.requests)|;
    if n == 0 then 1 else n
  }

  /** Path index keys of an entry. */
  function PathKeys(e: Entry): (r: set<(string, nat)>) {
    set p | p in NewPaths(e.ns, e.args.requests) :: (p.0, e.seqno)
  }

  // --- reads ---

  function ReadEntry(q: Queue, now: Time, s: nat): (r: Option<Entry>) {
    if s in q.entries && !Expired(q.entries[s].1, now) then Some(q.entries[s].0) else None
  }

  function OwnerSeq(q: Queue, now: Time, owner: string): (r: Option<nat>) {
    if owner in q.owners && !Expired(q.owners[owner].1, now) then Some(q.owners[owner].0) else None
  }

  /** Total units of the stored entries. */
  function UnitSum(entries: map<nat, (Entry, Time)>): (r: nat)
    decreases |entries|
  {
    if entries == map[] then 0
    else
      var low := LeastKey(entries);
      QueueUnits(entries[low].0.args) + UnitSum(entries - {low})
  }

  function LeastKey<V>(m: map<nat, V>): (r: nat)
    requires m != map[]
    ensures r in m && forall k :: k in m ==> r <= k
  {
    LeastKeyFirst(m);
    SortedNats(m.Keys)[0]
  }

  lemma LeastKeyFirst<V>(m: map<nat, V>)
    requires m != map[]
    ensures var s := SortedNats(m.Keys); s != [] && s[0] in m && forall k :: k in m ==> s[0] <= k
  {
    var s := SortedNats(m.Keys);
    var k :| k in m;
    assert k in s;
    assert s[0] in s;
    forall k | k in m ensures s[0] <= k {
      assert k in s;
      var i :| 0 <= i < |s| && s[i] == k;
      if i > 0 { assert NatLess(s[0], s[i]); }
    }
  }

  function QueueCount(q: Queue): (r: nat) { if q.count.Some? then q.count.value else UnitSum(q.entries) }

  function SaturatingSub(a: nat, b: nat): (r: nat) { if a >= b then a - b else 0 }

  // --- enqueue / dequeue / expire ---

  function DeletePaths(q: Queue, e: Entry): (r: Queue) { q.(paths := q.paths - PathKeys(e)) }

  function DropUnits(q: Queue, units: nat): (r: Queue) { q.(count := Some(SaturatingSub(QueueCount(q), units))) }

  function ExpireEntry(q: Queue, now: Time, s: nat): (r: (bool, Queue)) {
    if s !in q.entries then (false, q)
    else
      var e := q.entries[s].0;
      var q1 := DeletePaths(q, e);
      var q2 := if OwnerSeq(q1, now, e.owner) == Some(s) then q1.(owners := q1.owners - {e.owner}) else q1;
      var q3 := DropUnits(q2, QueueUnits(e.args));
      (true, q3.(entries := q3.entries - {s}))
  }

  function Dequeue(q: Queue, now: Time, owner: string): (r: Queue) {
    var s := OwnerSeq(q, now, owner);
    var q1 :=
      if s.None? || s.value !in q.entries then q
      else
        var e := q.entries[s.value].0;
        var q1 := if ReadEntry(q, now, s.value).Some? then DeletePaths(q, e) else q;
        var q2 := DropUnits(q1, QueueUnits(e.args));
        q2.(entries := q2.entries - {s.value});
    q1.(owners := q1.owners - {owner})
  }

  /** What an enqueue keeps of the owner's earlier entry: its sequence number, or only its unit count. */
  function Supersede(q: Queue, now: Time, ns: string, args: AcquireArgs, policy: LockPolicy): (r: (nat, nat, Queue)) {
    match OwnerSeq(q, now, args.owner)
    case None => (0, q.lastSeq + 1, q.(lastSeq := q.lastSeq + 1))
    case Some(s) =>
      match ReadEntry(q, now, s)
      case Some(e) =>
        var q1 := DeletePaths(q, e);
        if e.ns == ns && e.args == args && e.policy == policy then (QueueUnits(e.args), s, q1)
        else
          (QueueUnits(e.args), q.lastSeq + 1,
           q1.(entries := q1.entries - {s}, owners := q1.owners - {args.owner}, lastSeq := q.lastSeq + 1))
      case None =>
        var q1 := ExpireEntry(q, now, s).1;
        (0, q.lastSeq + 1, q1.(owners := q1.owners - {args.owner}, lastSeq := q.lastSeq + 1))
  }

  function EntryTtl(args: AcquireArgs): (r: Time)
    ensures r > 0
  {
    if args.queueTtl > 0 then args.queueTtl else QUEUE_ENTRY_TTL_MS
  }

  /** Stores an entry, its owner record and its path index records, all with one expiry. */
  function StoreEntry(q: Queue, now: Time, e: Entry): (r: Queue) {
    var exp := ExpiryAt(now, EntryTtl(e.args));
    var slot := QuantizedIndexExpiry(now, exp);
    q.(entries := q.entries[e.seqno := (e, exp)],
       owners := q.owners[e.owner := (e.seqno, exp)],
       paths := q.paths + (map k | k in PathKeys(e) :: exp),
       slots := q.slots + {Slot(slot, EntryRef(e.seqno)), Slot(slot, OwnerRef(e.owner))}
                + (set k | k in PathKeys(e) :: Slot(slot, PathRef(k.0, k.1))))
  }

  /** Park an acquire, or re-arm the owner's identical entry in place. None: the queue is full. */
  function Enqueue(q: Queue, now: Time, ns: string, args: AcquireArgs, policy: LockPolicy): (r: Option<(nat, Queue)>) {
    var (oldUnits, s, q1) := Supersede(q, now, ns, args, policy);
    var next := SaturatingSub(QueueCount(q1), oldUnits) + QueueUnits(args);
    if next > QUEUE_SCAN_LIMIT then None
    else Some((s, StoreEntry(q1.(count := Some(next)), now, Entry(s, args.owner, ns, args, policy))))
  }

  // --- scans ---

  /** The live entries among the given sequence numbers. */
  function LiveOf(q: Queue, now: Time, seqs: seq<nat>): (r: seq<Entry>) {
    if seqs == [] then []
    else
      var e := ReadEntry(q, now, seqs[0]);
      (if e.Some? then [e.value] else []) + LiveOf(q, now, seqs[1..])
  }

  /** All live waiters, in FIFO order. */
  function LiveEntries(q: Queue, now: Time): (r: seq<Entry>) { LiveOf(q, now, SortedNats(q.entries.Keys)) }

  /** The capped scan the sweep and the admission check use. */
  function Scan(q: Queue, now: Time): (r: seq<Entry>) {
    var all := SortedNats(q.entries.Keys);
    LiveOf(q, now, if |all| > QUEUE_SCAN_LIMIT then all[..QUEUE_SCAN_LIMIT] else all)
  }

  // --- conflicts between requests ---

  /** A path with the mode and the algorithm it is wanted under. */
  datatype Want = Want(path: string, mode: Mode, alg: LockAlgorithm)

  predicate WantsConflict(a: Want, b: Want) { LocksConflict(a.alg, a.path, a.mode, b.alg, b.path, b.mode) }

  function WantsOf(paths: seq<(string, Mode)>, alg: LockAlgorithm): (r: seq<Want>) {
    seq(|paths|, i requires 0 <= i < |paths| => Want(paths[i].0, paths[i].1, alg))
  }

  function EntryWants(e: Entry): (r: seq<Want>) { WantsOf(NewPaths(e.ns, e.args.requests), e.policy.algorithm) }

  predicate AnyConflict(xs: seq<Want>, ys: seq<Want>) {
    exists x, y :: x in xs && y in ys && WantsConflict(x, y)
  }

  /** The first of `xs` that conflicts with some `y`. */
  function FirstConflict(xs: seq<Want>, ys: seq<Want>): (r: Option<string>) {
    if xs == [] then None
    else if exists y :: y in ys && WantsConflict(xs[0], y) then Some(xs[0].path)
    else FirstConflict(xs[1..], ys)
  }

  // --- admission ---

  /** The owner already holds or covers the path, live or not. */
  predicate HoldsOrCovers(t: Tables, owner: string, w: Want) {
    || t.Writes(owner, w.path)
    || (w.alg.Semaphore? && (w.path, owner) in t.sem)
    || (w.alg.Recursive() && exists a :: a in GetAncestors(w.path) && t.Writes(owner, a))
    || (w.mode == Read && (w.path, owner) in t.rd)
  }

  function Contending(t: Tables, owner: string, ws: seq<Want>): (r: seq<Want>) {
    if ws == [] then []
    else (if HoldsOrCovers(t, owner, ws[0]) then [] else [ws[0]]) + Contending(t, owner, ws[1..])
  }

  /** Whether a waiter goes before an owner's request: another owner's, and earlier if the owner has a place. */
  predicate Before(e: Entry, owner: string, mine: Option<nat>) {
    e.owner != owner && (mine.None? || e.seqno < mine.value)
  }

  function FirstBlocker(es: seq<Entry>, owner: string, mine: Option<nat>, ws: seq<Want>): (r: Option<(Entry, string)>) {
    if es == [] then None
    else
      var hit := if Before(es[0], owner, mine) then FirstConflict(EntryWants(es[0]), ws) else None;
      if hit.Some? then Some((es[0], hit.value)) else FirstBlocker(es[1..], owner, mine, ws)
  }

  /** The earliest live waiter the request must queue behind, by brute scan. */
  function BlockedByEarlier(
    t: Tables, q: Queue, now: Time, ns: string, args: AcquireArgs, alg: LockAlgorithm): (r: Option<(Entry, string)>)
  {
    FirstBlocker(LiveEntries(q, now), args.owner, OwnerSeq(q, now, args.owner),
                 Contending(t, args.owner, WantsOf(NewPaths(ns, args.requests), alg)))
  }

  // --- grant sweep ---

  datatype Swept = Swept(notify: seq<string>, granted: seq<Entry>, t: Tables, q: Queue)

  /** What the sweep does with a waiter: grant it, wake it to refresh its token, drop it, or keep it waiting. */
  datatype Verdict = Grant | Wake | Discard | Wait {
    predicate Leaves() { Grant? || Discard? }
    predicate Notifies() { Grant? || Wake? }
  }

  function Judge(o: AcquireOutcome): (v: Verdict) {
    match o
    case Ok(_) => Grant
    case Conflict(_, _, _, reason) => if reason == StaleFencingToken then Wake else if reason.IsQueueable() then Wait else Discard
    case Lost(_, _) => Discard
    case Enqueued(_, _, _, _) => Wait
  }

  /** A waiter that conflicts with a reserved path waits; any other replays its acquire. */
  function TryWaiter(t: Tables, now: Time, e: Entry, reserved: seq<Want>): (r: (Verdict, Tables)) {
    if AnyConflict(EntryWants(e), reserved) then (Wait, t)
    else
      var (o, t1) := Acquire(t, now, e.ns, e.policy.algorithm, e.args);
      (Judge(o), t1)
  }

  function RunSweep(t: Tables, q: Queue, now: Time, es: seq<Entry>, reserved: seq<Want>): (r: Swept)
    decreases |es|
  {
    if es == [] then Swept([], [], t, q)
    else
      var e := es[0];
      var (v, t1) := TryWaiter(t, now, e, reserved);
      var r := if v.Leaves() then RunSweep(t1, Dequeue(q, now, e.owner), now, es[1..], reserved)
               else RunSweep(t1, q, now, es[1..], reserved + EntryWants(e));
      r.(notify := (if v.Notifies() then [e.owner] else []) + r.notify,
         granted := (if v.Grant? then [e] else []) + r.granted)
  }

  function GrantSweep(t: Tables, q: Queue, now: Time): (r: Swept) { RunSweep(t, q, now, Scan(q, now), []) }

  /** Waiters whose new paths meet a freed path: the path itself, above it, or below it. */
  predicate Touches(path: string, freed: string) {
    path == freed || IsStrictAncestor(path, freed) || DescendantPrefix(freed) <= path
  }

  /** Sequence numbers with a live path-index record that meets a freed path. */
  function CandidateSeqs(q: Queue, now: Time, freed: seq<string>): (r: set<nat>) {
    set k | k in q.paths && !Expired(q.paths[k], now) && (exists f :: f in freed && Touches(k.0, f)) :: k.1
  }

  function GrantSweepForPaths(t: Tables, q: Queue, now: Time, freed: seq<string>): (r: Swept) {
    RunSweep(t, q, now, LiveOf(q, now, SortedNats(CandidateSeqs(q, now, freed))), [])
  }
}

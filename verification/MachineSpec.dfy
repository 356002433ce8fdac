/**
 One lock group's state machine on values: the effect and the response of every
 applied command.
 */
module MachineSpec {
  import opened Ordering
  import opened Paths
  import opened Roots
  import opened Expiry
  import opened LockSpec
  import opened LockInvariant
  import opened QueueSpec

  const DEDUPE_TTL_MS: Time := 300_000
  const I64_MAX: int := 0x7FFF_FFFF_FFFF_FFFF

  datatype RequestId = RequestId(client: string, seqno: nat)

  datatype Op =
    | ReleaseOp(ns: string, owner: string, reqs: seq<RelReq>)
    | ReleaseAllOp(owner: string)
    | RenewOp(owner: string, ttl: Time)
    | ForceReleaseOp(victim: string)
    | GcSweepOp(batch: nat)
    | IncrFenceOp
    | NoopOp
    | SetPolicyOp(ns: string, algorithm: LockAlgorithm)
    | DeletePolicyOp(ns: string)
    | AcquireOp(ns: string, policy: LockPolicy, args: AcquireArgs)

  datatype Command = Command(now: Time, id: Option<RequestId>, op: Op)

  datatype RejectKind = ScanLimit | IdempotencyMismatch | PolicyEpochStale | RoutingStale

  datatype Response =
    | Unit
    | Granted(owners: seq<string>)
    | NamespaceCleared(owners: seq<string>)
    | Acquired(outcome: AcquireOutcome)
    | AcquiredGranted(outcome: AcquireOutcome, owners: seq<string>)
    | RenewDone(renewal: RenewOutcome)
    | GcDone(scanned: nat, reclaimed: nat, owners: seq<string>)
    | Fence(token: int)
    | Rejected(kind: RejectKind)
  {
    /** Refused commands leave no writes behind. */
    predicate Commits() {
      && !(Acquired? && (outcome.Conflict? || outcome.Lost?))
      && !(RenewDone? && renewal.RenewLost?)
      && !Rejected?
    }
  }

  datatype Cached = Cached(fingerprint: nat, response: Response, exp: Time)

  /** The replicated state of one group. */
  datatype Group = Group(
    t: Tables,
    q: Queue,
    rows: map<string, LockPolicy>,
    clock: Time,
    seen: map<RequestId, Cached>,
    seenSlots: set<Slot>,
    counter: int,
    cursor: Option<Slot>)

  const EMPTY_GROUP: Group := Group(EMPTY, EMPTY_QUEUE, map[], 0, map[], {}, 0, None)

  // --- sweeps ---

  function SweepAllOf(g: Group, now: Time): (r: (seq<string>, Group)) {
    var s := GrantSweep(g.t, g.q, now);
    (s.notify, g.(t := s.t, q := s.q))
  }

  function SweepPathsOf(g: Group, now: Time, freed: seq<string>): (r: (seq<string>, Group)) {
    var s := GrantSweepForPaths(g.t, g.q, now, freed);
    (s.notify, g.(t := s.t, q := s.q))
  }

  function GrantedResponse(owners: seq<string>): (r: Response) { if owners == [] then Unit else Granted(owners) }

  /** The scoped paths a release frees, first occurrences only. */
  function FreedPaths(ns: string, reqs: seq<RelReq>): (r: seq<string>) {
    if reqs == [] then []
    else
      var n := |reqs| - 1;
      var rest := FreedPaths(ns, reqs[..n]);
      var p := ScopedPath(ns, reqs[n].path);
      if p in rest then rest else rest + [p]
  }

  // --- acquire ---

  function MaxFence(t: Tables, ns: string, reqs: seq<LockReq>, seen: int): (r: int)
    decreases |reqs|
  {
    if reqs == [] then seen
    else
      var key := ScopedPath(ns, reqs[0].path);
      var next := if reqs[0].mode == Write && key in t.fence && t.fence[key] > seen then t.fence[key] else seen;
      MaxFence(t, ns, reqs[1..], next)
  }

  function SaturatingNext(x: int): (r: int) { if x < I64_MAX then x + 1 else I64_MAX }

  predicate NeedsFence(args: AcquireArgs, alg: LockAlgorithm) {
    args.token <= 0 && !alg.Semaphore? && exists r :: r in args.requests && r.mode == Write
  }

  /** A write acquire without a token gets one above the counter and above every fence it must beat. */
  function MintFence(g: Group, ns: string, args: AcquireArgs, alg: LockAlgorithm): (r: (AcquireArgs, Group)) {
    if !NeedsFence(args, alg) then (args, g)
    else
      var token := SaturatingNext(MaxFence(g.t, ns, args.requests, g.counter));
      (args.(token := token), g.(counter := token))
  }

  /** Parks the acquire, or refuses it when the queue is full. */
  function Park(g: Group, now: Time, ns: string, args: AcquireArgs, policy: LockPolicy,
                path: string, owner: string, reason: Reason): (r: (Response, Group))
  {
    match Enqueue(g.q, now, ns, args, policy)
    case None => (Rejected(ScanLimit), g)
    case Some((_, q1)) => (Acquired(Enqueued(path, owner, reason, args.token)), g.(q := q1))
  }

  /** After a granted acquire: leave the queue, then sweep if the acquire may have freed anything. */
  function Settle(g: Group, now: Time, ns: string, args: AcquireArgs, wasAlive: bool, token: int): (r: (Response, Group)) {
    var g1 := g.(q := Dequeue(g.q, now, args.owner));
    var (owners, g2) :=
      if !wasAlive && args.requests != [] then SweepAllOf(g1, now)
      else SweepPathsOf(g1, now, FreedPaths(ns, args.releases));
    (if owners == [] then Acquired(Ok(token)) else AcquiredGranted(Ok(token), owners), g2)
  }

  function ExecuteMinted(g: Group, now: Time, ns: string, args: AcquireArgs, policy: LockPolicy): (r: (Response, Group)) {
    match BlockedByEarlier(g.t, g.q, now, ns, args, policy.algorithm)
    case Some((e, path)) => Park(g, now, ns, args, policy, PublicPath(e.ns, path), e.owner, Queued)
    case None =>
      var (o, t1) := Acquire(g.t, now, ns, policy.algorithm, args);
      match o
      case Ok(token) => Settle(g.(t := t1), now, ns, args, g.t.Alive(args.owner, now), token)
      case Conflict(path, owner, _, reason) =>
        if reason.IsQueueable() then Park(g.(t := t1), now, ns, args, policy, path, owner, reason)
        else (Acquired(o), g.(t := t1))
      case other => (Acquired(o), g.(t := t1))
  }

  function ExecuteAcquire(g: Group, now: Time, ns: string, args: AcquireArgs, policy: LockPolicy): (r: (Response, Group)) {
    var (minted, g1) := MintFence(g, ns, args, policy.algorithm);
    ExecuteMinted(g1, now, ns, minted, policy)
  }

  /** The explicit root of some named path is not the namespace the command was stamped with. */
  predicate StaleRoute(rows: map<string, LockPolicy>, ns: string, args: AcquireArgs) {
    || (exists r :: r in args.requests && var root := RootOf(rows.Keys, r.path); root.Some? && root.value != ns)
    || (exists r :: r in args.releases && var root := RootOf(rows.Keys, r.path); root.Some? && root.value != ns)
  }

  // --- policies ---

  /** Explicit namespaces nested below a new root keep what they hold. */
  function Preserved(rows: map<string, LockPolicy>, ns: string, legacy: bool): (r: set<string>) {
    if legacy then set x | x in rows && x != ns && NamespaceContains(ns, x) else {}
  }

  predicate MemberCleared(m: Member, ns: string, legacy: bool, preserved: set<string>) {
    m.ns == ns || (legacy && NamespaceContains(ns, m.path) && m.ns !in preserved)
  }

  predicate EntryCleared(e: Entry, ns: string, legacy: bool, preserved: set<string>) {
    || e.ns == ns
    || (legacy && e.ns !in preserved
        && ((exists r :: r in e.args.requests && NamespaceContains(ns, r.path))
            || (exists r :: r in e.args.releases && NamespaceContains(ns, r.path))))
  }

  function NamedHolds(gone: set<(string, Member)>): (r: set<Hold>) { set e | e in gone :: Hold(e.0, e.1.mode, e.1.Key()) }

  function GoneMembers(own: set<(string, Member)>, ns: string, legacy: bool, preserved: set<string>): (r: set<(string, Member)>) {
    set e | e in own && MemberCleared(e.1, ns, legacy, preserved)
  }

  /** Removes hold-set members, the holds they name, and the leases of owners left with nothing. */
  function ClearHolds(t: Tables, gone: set<(string, Member)>): (r: Tables) {
    var t1 := Drop(t.(own := t.own - gone), NamedHolds(gone));
    t1.(alive := t1.alive - (set e | e in gone && HoldsNothing(t1, e.0) :: e.0))
  }

  function ClearQueue(q: Queue, now: Time, es: seq<Entry>): (r: Queue)
    decreases |es|
  {
    if es == [] then q else ClearQueue(Dequeue(q, now, es[0].owner), now, es[1..])
  }

  function ClearedEntries(es: seq<Entry>, ns: string, legacy: bool, preserved: set<string>): (r: seq<Entry>)
    ensures forall e :: e in r <==> e in es && EntryCleared(e, ns, legacy, preserved)
  {
    if es == [] then []
    else (if EntryCleared(es[0], ns, legacy, preserved) then [es[0]] else []) + ClearedEntries(es[1..], ns, legacy, preserved)
  }

  function ClearNamespace(g: Group, now: Time, ns: string, legacy: bool): (r: (seq<string>, Group)) {
    var preserved := Preserved(g.rows, ns, legacy);
    var gone := GoneMembers(g.t.own, ns, legacy, preserved);
    var es := ClearedEntries(LiveEntries(g.q, now), ns, legacy, preserved);
    (SortedStrings((set e | e in gone :: e.0) + (set e | e in es :: e.owner)),
     g.(t := ClearHolds(g.t, gone), q := ClearQueue(g.q, now, es)))
  }

  function ClearedResponse(owners: seq<string>): (r: Response) { if owners == [] then Unit else NamespaceCleared(owners) }

  function SaturatingEpoch(epoch: nat): (r: nat) { if epoch < U64_MAX then epoch + 1 else U64_MAX }

  function SetPolicy(g: Group, now: Time, ns: string, alg: LockAlgorithm): (r: (Response, Group)) {
    var same := ns in g.rows && g.rows[ns].algorithm == alg;
    var epoch := if ns in g.rows then g.rows[ns].epoch else 0;
    var g1 := g.(rows := g.rows[ns := LockPolicy(alg, if same then epoch else SaturatingEpoch(epoch))]);
    if same then (Unit, g1)
    else
      var (owners, g2) := ClearNamespace(g1, now, ns, ns !in g.rows);
      (ClearedResponse(owners), g2)
  }

  function DeletePolicy(g: Group, now: Time, ns: string): (r: (Response, Group)) {
    var g1 := g.(rows := g.rows - {ns});
    if ns !in g.rows then (Unit, g1)
    else
      var (owners, g2) := ClearNamespace(g1, now, ns, false);
      (ClearedResponse(owners), g2)
  }

  // --- garbage collection ---

  function AllSlots(g: Group): (r: set<Slot>) { g.t.slots + g.q.slots + g.seenSlots }

  /** Index slots the sweep may process: past the cursor and due. */
  function DueSlots(g: Group, now: Time): (r: set<Slot>) {
    set s | s in AllSlots(g) && s.exp < now && (g.cursor.Some? ==> SlotLess(g.cursor.value, s))
  }

  /** Deletes the record behind a slot if it is still expired. */
  function ReclaimRecord(g: Group, now: Time, ref: Ref): (r: (bool, Group)) {
    match ref
    case AliveRef(o) =>
      if o in g.t.alive && Expired(g.t.alive[o], now) then (true, g.(t := ReleaseOwner(g.t, o))) else (false, g)
    case EntryRef(s) =>
      if s in g.q.entries && Expired(g.q.entries[s].1, now) then (true, g.(q := ExpireEntry(g.q, now, s).1)) else (false, g)
    case OwnerRef(o) =>
      if o in g.q.owners && Expired(g.q.owners[o].1, now)
      then (true, g.(q := g.q.(owners := g.q.owners - {o}))) else (false, g)
    case PathRef(p, s) =>
      if (p, s) in g.q.paths && Expired(g.q.paths[(p, s)], now)
      then (true, g.(q := g.q.(paths := g.q.paths - {(p, s)}))) else (false, g)
    case DedupeRef(c, s) =>
      if RequestId(c, s) in g.seen && Expired(g.seen[RequestId(c, s)].exp, now)
      then (true, g.(seen := g.seen - {RequestId(c, s)})) else (false, g)
  }

  function DropSlot(g: Group, s: Slot): (r: Group) {
    g.(t := g.t.(slots := g.t.slots - {s}), q := g.q.(slots := g.q.slots - {s}), seenSlots := g.seenSlots - {s})
  }

  function Reclaim(g: Group, now: Time, slots: seq<Slot>): (r: (nat, Group))
    decreases |slots|
  {
    if slots == [] then (0, g)
    else
      var (hit, g1) := ReclaimRecord(g, now, slots[0].ref);
      var (n, g2) := Reclaim(DropSlot(g1, slots[0]), now, slots[1..]);
      ((if hit then 1 else 0) + n, g2)
  }

  /** The scan always takes one slot, even for an empty batch. */
  function BatchOf(g: Group, now: Time, batch: nat): (r: seq<Slot>) {
    var all := SortedSlots(DueSlots(g, now));
    var n := if batch == 0 then 1 else batch;
    if |all| > n then all[..n] else all
  }

  predicate Unblocks(slots: seq<Slot>) { exists s :: s in slots && !s.ref.DedupeRef? }

  function GcSweep(g: Group, now: Time, batch: nat): (r: (Response, Group)) {
    var slots := BatchOf(g, now, batch);
    var (n, g1) := Reclaim(g, now, slots);
    var g2 := if slots == [] then g1 else g1.(cursor := Some(slots[|slots| - 1]));
    var (owners, g3) := if Unblocks(slots) then SweepAllOf(g2, now) else ([], g2);
    (GcDone(|slots|, n, owners), g3)
  }

  // --- commands ---

  function Execute(g: Group, now: Time, fallback: LockAlgorithm, identified: bool, op: Op): (r: (Response, Group)) {
    match op
    case ReleaseOp(ns, owner, reqs) =>
      var (owners, g1) := SweepPathsOf(g.(t := Release(g.t, ns, owner, reqs)), now, FreedPaths(ns, reqs));
      (GrantedResponse(owners), g1)
    case ReleaseAllOp(owner) =>
      var (owners, g1) := SweepAllOf(g.(t := ReleaseOwner(g.t, owner), q := Dequeue(g.q, now, owner)), now);
      (GrantedResponse(owners), g1)
    case ForceReleaseOp(victim) =>
      var (owners, g1) := SweepAllOf(g.(t := ReleaseOwner(g.t, victim), q := Dequeue(g.q, now, victim)), now);
      (GrantedResponse(owners), g1)
    case RenewOp(owner, ttl) =>
      var (o, t1) := Renew(g.t, now, owner, ttl);
      (RenewDone(o), g.(t := t1))
    case GcSweepOp(batch) => GcSweep(g, now, batch)
    case IncrFenceOp =>
      var token := SaturatingNext(g.counter);
      (Fence(token), g.(counter := token))
    case NoopOp => (Unit, g)
    case SetPolicyOp(ns, alg) => SetPolicy(g, now, ns, alg)
    case DeletePolicyOp(ns) => DeletePolicy(g, now, ns)
    case AcquireOp(ns, policy, args) =>
      if StaleRoute(g.rows, ns, args) then (Rejected(RoutingStale), g)
      else if identified && Policies(g.rows, fallback).Record(ns) != policy then (Rejected(PolicyEpochStale), g)
      else ExecuteAcquire(g, now, ns, args, policy)
  }

  datatype Config = Config(fallback: LockAlgorithm, fingerprint: Op -> nat)

  function EffectiveTime(g: Group, cmd: Command): (now: Time)
    ensures g.clock <= now && cmd.now <= now && (now == g.clock || now == cmd.now)
  {
    if cmd.now >= g.clock then cmd.now else g.clock
  }

  /** The cached outcome of an earlier application of the same request id. */
  function Recall(g: Group, now: Time, id: Option<RequestId>): (r: Option<Cached>) {
    if id.Some? && id.value in g.seen && !Expired(g.seen[id.value].exp, now) then Some(g.seen[id.value]) else None
  }

  function Remember(g: Group, now: Time, id: RequestId, fingerprint: nat, response: Response): (r: Group) {
    var exp := ExpiryAt(now, DEDUPE_TTL_MS);
    g.(seen := g.seen[id := Cached(fingerprint, response, exp)],
       seenSlots := FileSlot(g.seenSlots, now, exp, DedupeRef(id.client, id.seqno)))
  }

  /** Executes a command that is not a replay, and keeps its writes only if it was not refused. */
  function RunFresh(cfg: Config, g: Group, now: Time, cmd: Command): (r: (Response, Group)) {
    var (response, g1) := Execute(g, now, cfg.fallback, cmd.id.Some?, cmd.op);
    var g2 :=
      if !response.Commits() then g
      else if cmd.id.Some? then Remember(g1, now, cmd.id.value, cfg.fingerprint(cmd.op), response)
      else g1;
    (response, if cmd.op.NoopOp? then g2 else g2.(clock := now))
  }

  function Apply(cfg: Config, g: Group, cmd: Command): (r: (Response, Group)) {
    var now := EffectiveTime(g, cmd);
    match Recall(g, now, cmd.id)
    case Some(c) => (if c.fingerprint != cfg.fingerprint(cmd.op) then Rejected(IdempotencyMismatch) else c.response, g)
    case None => RunFresh(cfg, g, now, cmd)
  }

  /** The group after a log of commands, in order. */
  function Run(cfg: Config, g: Group, log: seq<Command>): (r: Group)
    decreases |log|
  {
    if log == [] then g else Run(cfg, Apply(cfg, g, log[0]).1, log[1..])
  }
}

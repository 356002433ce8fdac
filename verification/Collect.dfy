/**
 The garbage-collection command, record by record: which slots it processes, which
 records go, what it counts, and the sweep it runs when something may have come free.
 */
module Collect {
  import opened Ordering
  import opened Expiry
  import opened LockSpec
  import opened LockInvariant
  import opened ApplyProof
  import opened QueueSpec
  import opened QueueProof
  import opened SweepProof
  import opened MachineSpec
  import opened MachineProof
  import opened GcProof
  import opened GcProgress
  import opened Runs
  import opened Progress
  import opened Leftover
  import opened Turns
  import opened Commands

  // --- records behind slots ---

  /** The expiry of the record an index slot points at, if there is one. */
  function Stored(g: Group, ref: Ref): (exp: Option<nat>) {
    match ref
    case AliveRef(o) => if o in g.t.alive then Some(g.t.alive[o]) else None
    case EntryRef(s) => if s in g.q.entries then Some(g.q.entries[s].1) else None
    case OwnerRef(o) => if o in g.q.owners then Some(g.q.owners[o].1) else None
    case PathRef(p, s) => if (p, s) in g.q.paths then Some(g.q.paths[(p, s)]) else None
    case DedupeRef(c, s) => if RequestId(c, s) in g.seen then Some(g.seen[RequestId(c, s)].exp) else None
  }

  predicate Lapsed(g: Group, now: Time, ref: Ref) { Stored(g, ref).Some? && Expired(Stored(g, ref).value, now) }

  /** An expired waiter takes its path records with it, and an owner record that still points at it. */
  predicate Takes(g: Group, now: Time, a: Ref, b: Ref) {
    && a.EntryRef? && Lapsed(g, now, a)
    && var e := g.q.entries[a.seqno].0;
       || (b.PathRef? && (b.path, b.seqno) in PathKeys(e))
       || (b.OwnerRef? && b.owner == e.owner && b.owner in g.q.owners && g.q.owners[b.owner].0 == a.seqno && !Lapsed(g, now, b))
  }

  /** What processing one slot removes. */
  predicate Removes(g: Group, now: Time, a: Ref, b: Ref) { (a == b && Lapsed(g, now, b)) || Takes(g, now, a, b) }

  lemma RecordStep(g: Group, now: Time, a: Ref, b: Ref)
    ensures var (hit, r) := ReclaimRecord(g, now, a);
            && (hit <==> Lapsed(g, now, a))
            && Stored(r, b) == (if Removes(g, now, a, b) then None else Stored(g, b))
  {
    hide PathKeys, QueueUnits, QueueCount, ReleaseOwner;
    ReleaseOwnerLease(g.t, a);
  }

  lemma ReleaseOwnerLease(t: Tables, a: Ref)
    ensures a.AliveRef? ==> ReleaseOwner(t, a.owner).alive == t.alive - {a.owner}
  {
  }

  /** Whatever is left is as it was. */
  ghost predicate Subrecords(g: Group, r: Group) {
    && (forall s :: s in r.q.entries ==> s in g.q.entries && r.q.entries[s] == g.q.entries[s])
    && (forall o :: o in r.q.owners ==> o in g.q.owners && r.q.owners[o] == g.q.owners[o])
    && (forall i :: i in r.seen ==> i in g.seen && r.seen[i] == g.seen[i])
    && r.rows == g.rows && r.counter == g.counter && r.clock == g.clock && r.cursor == g.cursor
  }

  lemma StepSub(g: Group, now: Time, a: Ref)
    ensures Subrecords(g, ReclaimRecord(g, now, a).1)
  {
    hide PathKeys, QueueUnits, QueueCount, ReleaseOwner;
  }

  /** The holds of owners whose lease went, and no others. */
  ghost predicate Unleased(t: Tables, r: Tables, gone: iset<string>) {
    && (forall h :: h in r.alg <==> h in t.alg && h.owner !in gone) && (forall h :: h in r.alg ==> r.alg[h] == t.alg[h])
    && (forall e :: e in r.own <==> e in t.own && e.0 !in gone)
    && r.fence == t.fence && r.cap == t.cap
  }

  lemma StepTables(g: Group, now: Time, a: Ref)
    ensures ReclaimRecord(g, now, a).1.t == if a.AliveRef? && Lapsed(g, now, a) then ReleaseOwner(g.t, a.owner) else g.t
    ensures (iset o | Removes(g, now, a, AliveRef(o))) == if a.AliveRef? && Lapsed(g, now, a) then iset{a.owner} else iset{}
  {
    hide PathKeys, ExpireEntry, ReleaseOwner;
  }

  lemma StepHolds(g: Group, now: Time, a: Ref)
    ensures Unleased(g.t, ReclaimRecord(g, now, a).1.t, iset o | Removes(g, now, a, AliveRef(o)))
  {
    hide ReclaimRecord, Removes, Lapsed, ReleaseOwner;
    StepTables(g, now, a);
    if a.AliveRef? && Lapsed(g, now, a) { EvictIs(g.t, a.owner); }
  }

  lemma SlotFree(g: Group, s: Slot)
    ensures forall ref :: Stored(DropSlot(g, s), ref) == Stored(g, ref)
    ensures Subrecords(g, DropSlot(g, s)) && Unleased(g.t, DropSlot(g, s).t, iset{}) && DropSlot(g, s).q.entries == g.q.entries
    ensures DropSlot(g, s).q.owners == g.q.owners
  {
  }

  // --- a batch ---

  /** Processing these slots removes this record. */
  ghost predicate Gone(g: Group, now: Time, slots: seq<Slot>, ref: Ref) {
    exists i :: 0 <= i < |slots| && Removes(g, now, slots[i].ref, ref)
  }

  /** The slot finds its own record expired and still there. */
  ghost predicate Hit(g: Group, now: Time, slots: seq<Slot>, j: nat)
    requires j < |slots|
  {
    Lapsed(g, now, slots[j].ref) && forall i :: 0 <= i < j ==> !Removes(g, now, slots[i].ref, slots[j].ref)
  }

  /** How many of the first slots do. */
  ghost function Hits(g: Group, now: Time, slots: seq<Slot>, k: nat): (n: nat)
    requires k <= |slots|
  {
    if k == 0 then 0 else Hits(g, now, slots, k - 1) + if Hit(g, now, slots, k - 1) then 1 else 0
  }

  function Next(g: Group, now: Time, s: Slot): Group { DropSlot(ReclaimRecord(g, now, s.ref).1, s) }

  lemma NextStored(g: Group, now: Time, s: Slot, ref: Ref)
    ensures Stored(Next(g, now, s), ref) == if Removes(g, now, s.ref, ref) then None else Stored(g, ref)
    ensures Subrecords(g, Next(g, now, s))
  {
    hide ReclaimRecord, DropSlot, Removes, Stored;
    RecordStep(g, now, s.ref, ref);
    StepSub(g, now, s.ref);
    SlotFree(ReclaimRecord(g, now, s.ref).1, s);
  }

  /** What a later slot removes is the same whether or not an earlier one has been processed, but for what that one removed. */
  lemma NextRemoves(g: Group, now: Time, s: Slot, a: Ref, b: Ref)
    ensures var g1 := Next(g, now, s);
            && (Removes(g1, now, a, b) ==> Removes(g, now, a, b))
            && (!Removes(g, now, s.ref, b) ==> (Removes(g1, now, a, b) <==> Removes(g, now, a, b)))
            && (Lapsed(g1, now, b) <==> Lapsed(g, now, b) && !Removes(g, now, s.ref, b))
  {
    hide Next, PathKeys;
    NextStored(g, now, s, a);
    NextStored(g, now, s, b);
  }

  lemma NextHit(g: Group, now: Time, slots: seq<Slot>, j: nat)
    requires 0 < j < |slots|
    ensures Hit(Next(g, now, slots[0]), now, slots[1..], j - 1) <==> Hit(g, now, slots, j)
  {
    hide Next, Removes, Lapsed;
    var g1, rest := Next(g, now, slots[0]), slots[1..];
    NextRemoves(g, now, slots[0], slots[j].ref, slots[j].ref);
    forall i | 0 < i < j && !Removes(g, now, slots[0].ref, slots[j].ref)
      ensures Removes(g1, now, slots[i].ref, slots[j].ref) <==> Removes(g, now, slots[i].ref, slots[j].ref)
    {
      NextRemoves(g, now, slots[0], slots[i].ref, slots[j].ref);
    }
    assert forall i :: 0 <= i < j - 1 ==> rest[i] == slots[i + 1];
    if Hit(g1, now, rest, j - 1) {
      forall i | 0 <= i < j ensures !Removes(g, now, slots[i].ref, slots[j].ref) { if i > 0 { assert slots[i] == rest[i - 1]; } }
    }
  }

  lemma {:induction false} NextHits(g: Group, now: Time, slots: seq<Slot>, k: nat)
    requires k < |slots|
    ensures Hits(g, now, slots, k + 1) == (if Lapsed(g, now, slots[0].ref) then 1 else 0) + Hits(Next(g, now, slots[0]), now, slots[1..], k)
    decreases k
  {
    hide Next, Removes, Lapsed;
    if k > 0 {
      NextHits(g, now, slots, k - 1);
      NextHit(g, now, slots, k);
    }
  }

  lemma NextGone(g: Group, now: Time, slots: seq<Slot>, ref: Ref)
    requires slots != []
    ensures Gone(g, now, slots, ref) <==> Removes(g, now, slots[0].ref, ref) || Gone(Next(g, now, slots[0]), now, slots[1..], ref)
  {
    hide Next, Removes;
    var g1, rest := Next(g, now, slots[0]), slots[1..];
    if i :| 0 <= i < |slots| && Removes(g, now, slots[i].ref, ref) {
      if i > 0 {
        assert rest[i - 1] == slots[i];
        NextRemoves(g, now, slots[0], slots[i].ref, ref);
      }
    }
    if i :| 0 <= i < |rest| && Removes(g1, now, rest[i].ref, ref) {
      assert rest[i] == slots[i + 1];
      NextRemoves(g, now, slots[0], rest[i].ref, ref);
    }
  }

  /** Exactly the records the slots point at, if expired, are gone, with what goes along with them; each is counted once. */
  ghost predicate Reclaims(g: Group, r: Group, now: Time, slots: seq<Slot>, n: nat) {
    && n == Hits(g, now, slots, |slots|)
    && (forall ref :: Stored(r, ref) == if Gone(g, now, slots, ref) then None else Stored(g, ref))
    && Subrecords(g, r) && Unleased(g.t, r.t, iset o | Gone(g, now, slots, AliveRef(o)))
  }

  lemma UnleasedTwice(t: Tables, t1: Tables, r: Tables, a: iset<string>, b: iset<string>)
    requires Unleased(t, t1, a) && Unleased(t1, r, b)
    ensures Unleased(t, r, a + b)
  {
  }

  lemma SubTwice(g: Group, g1: Group, r: Group)
    requires Subrecords(g, g1) && Subrecords(g1, r)
    ensures Subrecords(g, r)
  {
  }

  lemma NextHolds(g: Group, now: Time, s: Slot)
    ensures Unleased(g.t, Next(g, now, s).t, iset o | Removes(g, now, s.ref, AliveRef(o)))
  {
    hide ReclaimRecord, DropSlot, Removes, Stored, Unleased;
    var gone := iset o | Removes(g, now, s.ref, AliveRef(o));
    StepHolds(g, now, s.ref);
    SlotFree(ReclaimRecord(g, now, s.ref).1, s);
    UnleasedTwice(g.t, ReclaimRecord(g, now, s.ref).1.t, Next(g, now, s).t, gone, iset{});
    assert gone + iset{} == gone;
  }

  lemma ReclaimsNext(g: Group, r: Group, now: Time, slots: seq<Slot>, n: nat)
    requires slots != [] && Reclaims(Next(g, now, slots[0]), r, now, slots[1..], n)
    ensures Reclaims(g, r, now, slots, (if Lapsed(g, now, slots[0].ref) then 1 else 0) + n)
  {
    hide Removes, Stored, Lapsed, Next, Unleased, Subrecords, Hits, Gone;
    var g1, rest := Next(g, now, slots[0]), slots[1..];
    NextHits(g, now, slots, |rest|);
    NextHolds(g, now, slots[0]);
    var first, later := (iset o | Removes(g, now, slots[0].ref, AliveRef(o))), (iset o | Gone(g1, now, rest, AliveRef(o)));
    UnleasedTwice(g.t, g1.t, r.t, first, later);
    NextStored(g, now, slots[0], slots[0].ref);
    SubTwice(g, g1, r);
    forall ref
      ensures Gone(g, now, slots, ref) <==> Removes(g, now, slots[0].ref, ref) || Gone(g1, now, rest, ref)
      ensures Stored(r, ref) == if Gone(g, now, slots, ref) then None else Stored(g, ref)
    {
      NextGone(g, now, slots, ref);
      NextStored(g, now, slots[0], ref);
    }
    assert first + later == iset o | Gone(g, now, slots, AliveRef(o));
  }

  lemma ReclaimsNothing(g: Group, now: Time)
    ensures Reclaims(g, g, now, [], 0)
  {
    hide Removes, Stored;
  }

  lemma {:induction false} ReclaimExact(g: Group, now: Time, slots: seq<Slot>)
    ensures Reclaims(g, Reclaim(g, now, slots).1, now, slots, Reclaim(g, now, slots).0)
    decreases |slots|
  {
    hide Reclaims, Lapsed, ReclaimRecord, DropSlot, Removes;
    if slots == [] {
      ReclaimsNothing(g, now);
    } else {
      RecordStep(g, now, slots[0].ref, slots[0].ref);
      ReclaimExact(Next(g, now, slots[0]), now, slots[1..]);
      ReclaimsNext(g, Reclaim(g, now, slots).1, now, slots, Reclaim(Next(g, now, slots[0]), now, slots[1..]).0);
    }
  }

  // --- the command ---

  /** The slots of one batch: the first that are due, in key order, as many as it may take, and always at least one. */
  ghost predicate IsBatch(g: Group, now: Time, batch: nat, slots: seq<Slot>) {
    && Ascending(slots, SlotLess) && |slots| <= Quota(batch)
    && (forall s :: s in slots ==> s in AllSlots(g) && s.exp < now)
    && (forall s, x :: s in AllSlots(g) && s !in slots && x in slots ==> SlotLess(x, s))
    && (|slots| < Quota(batch) ==> forall s :: s in AllSlots(g) && s.exp < now ==> s in slots)
  }

  lemma BatchIs(g: Group, now: Time, batch: nat)
    requires Behind(g)
    ensures IsBatch(g, now, batch, BatchOf(g, now, batch))
  {
    hide SlotLess, AllSlots;
    var b := BatchOf(g, now, batch);
    BatchDue(g, now, batch);
    SlotLessTotal();
    if b != [] {
      forall s, x | s in AllSlots(g) && s !in b && x in b ensures SlotLess(x, s) {
        BatchFront(g, now, batch, s);
        var i :| 0 <= i < |b| && b[i] == x;
        if i < |b| - 1 { assert SlotLess(b[i], b[|b| - 1]); }
      }
    }
    if |b| < Quota(batch) {
      assert b == SortedSlots(DueSlots(g, now));
    }
  }

  /** A processed slot stood for something other waiters may have waited for. */
  predicate MayUnblock(slots: seq<Slot>) { exists s :: s in slots && !s.ref.DedupeRef? }

  /**
   One collection: a batch of due slots goes, with exactly the expired records behind
   them; if any of them was not a dedupe record, every live waiter is then tried.
   */
  ghost predicate CollectLaw(
    g: Group, r: Group, now: Time, batch: nat, response: Response, slots: seq<Slot>, g1: Group, es: seq<Entry>, turns: seq<Tables>, s: Swept)
  {
    && response == GcDone(|slots|, Hits(g, now, slots, |slots|), s.notify)
    && IsBatch(g, now, batch, slots) && Reclaims(g, g1, now, slots, Hits(g, now, slots, |slots|))
    && r.cursor == (if slots == [] then g.cursor else Some(slots[|slots| - 1])) && r.rows == g.rows && r.counter == g.counter
    && r.t == s.t && r.q == s.q
    && if MayUnblock(slots) then FifoList(g1.q, now, es) && SweptOver(g1.t, g1.q, now, es, turns, s)
       else s == Swept([], [], g1.t, g1.q)
  }

  lemma GcExecutes(g: Group, now: Time, fallback: LockAlgorithm, identified: bool, batch: nat)
    ensures var slots := BatchOf(g, now, batch);
            var (n, g1) := Reclaim(g, now, slots);
            var s := if MayUnblock(slots) then GrantSweep(g1.t, g1.q, now) else Swept([], [], g1.t, g1.q);
            var (response, r) := Execute(g, now, fallback, identified, GcSweepOp(batch));
            && response == GcDone(|slots|, n, s.notify) && r.t == s.t && r.q == s.q && r.rows == g1.rows && r.counter == g1.counter
            && r.cursor == (if slots == [] then g1.cursor else Some(slots[|slots| - 1])) && response.Commits()
  {
    hide GrantSweep, Reclaim, BatchOf;
  }

  lemma CollectApplied(cfg: Config, g: Group, cmd: Command)
    returns (slots: seq<Slot>, g1: Group, es: seq<Entry>, turns: seq<Tables>, s: Swept)
    requires FirstSeen(cfg, g, cmd) && cmd.op.GcSweepOp?
    ensures CollectLaw(g, Apply(cfg, g, cmd).1, EffectiveTime(g, cmd), cmd.op.batch, Apply(cfg, g, cmd).0, slots, g1, es, turns, s)
  {
    hide Good, QueueGood, Apply, Execute, BatchOf, Reclaim, GrantSweep, SweptOver, FifoList, IsBatch, Behind, SeenFiled, Spares, AfterBatch;
    var now, batch := EffectiveTime(g, cmd), cmd.op.batch;
    FreshApplies(cfg, g, cmd);
    KeptLater(g, now, cfg.fallback);
    slots := BatchOf(g, now, batch);
    g1 := Reclaim(g, now, slots).1;
    GcExecutes(g, now, cfg.fallback, cmd.id.Some?, batch);
    BatchIs(g, now, batch);
    ReclaimExact(g, now, slots);
    BatchDue(g, now, batch);
    ReclaimKept(g, now, cfg.fallback, slots);
    es, turns := [], [];
    s := Swept([], [], g1.t, g1.q);
    if MayUnblock(slots) {
      es, turns := FullSweepTurns(g1.t, g1.q, now, PoliciesOf(g1, cfg.fallback));
      s := GrantSweep(g1.t, g1.q, now);
    }
  }

  /** If a batch may unblock anyone, a waiter left after it is behind an earlier one, still refused, or met by what a later grant freed. */
  lemma CollectSettles(cfg: Config, g: Group, cmd: Command, w: Entry) returns (slots: seq<Slot>)
    requires FirstSeen(cfg, g, cmd) && cmd.op.GcSweepOp? && Waiting(Apply(cfg, g, cmd).1.q, EffectiveTime(g, cmd), w)
    ensures var (response, r) := Apply(cfg, g, cmd);
            var now := EffectiveTime(g, cmd);
            && IsBatch(g, now, cmd.op.batch, slots)
            && (MayUnblock(slots) ==>
                  || BehindEarlier(r.q, now, w) || !Ready(r.t, now, w)
                  || exists e :: GrantedHere(g, r, now, response, e) && w.seqno < e.seqno && Frees(now, e, w))
  {
    hide Good, QueueGood, Apply, Execute, BatchOf, Reclaim, GrantSweep, SweptOver, FifoList, IsBatch, Behind, SeenFiled, Ready, BehindEarlier, Frees, Waiting,
         Reclaims, Onward;
    var now, batch := EffectiveTime(g, cmd), cmd.op.batch;
    FreshApplies(cfg, g, cmd);
    KeptLater(g, now, cfg.fallback);
    slots := BatchOf(g, now, batch);
    BatchIs(g, now, batch);
    var g1 := Reclaim(g, now, slots).1;
    GcExecutes(g, now, cfg.fallback, cmd.id.Some?, batch);
    ReclaimExact(g, now, slots);
    BatchDue(g, now, batch);
    ReclaimKept(g, now, cfg.fallback, slots);
    var pol := PoliciesOf(g1, cfg.fallback);
    var s := GrantSweep(g1.t, g1.q, now);
    if MayUnblock(slots) { FullSweepProgress(g1.t, g1.q, now, pol, w); }
    if e :| MayUnblock(slots) && e in After(s.granted, w) && Waiting(g1.q, now, e) && Frees(now, e, w) {
      var es, turns := FullSweepTurns(g1.t, g1.q, now, pol);
      GrantedOnList(g1.t, g1.q, now, es, turns, s, e);
      GrantedIsTold(g1.t, g1.q, now, es, turns, s, e);
      WaitedBefore(g, g1, now, slots, Reclaim(g, now, slots).0, e);
      assert GrantedHere(g, Apply(cfg, g, cmd).1, now, Apply(cfg, g, cmd).0, e);
    }
  }

  lemma WaitedBefore(g: Group, g1: Group, now: Time, slots: seq<Slot>, n: nat, e: Entry)
    requires Reclaims(g, g1, now, slots, n) && Waiting(g1.q, now, e)
    ensures Waiting(g.q, now, e)
  {
    hide Hits, Gone, Unleased, Stored;
  }
}

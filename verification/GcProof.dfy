/** Garbage collection: it deletes expired records only, keeps every invariant, and catches up. */
module GcProof {
  import opened Ordering
  import opened Paths
  import opened Expiry
  import opened LockSpec
  import opened LockInvariant
  import opened ApplyProof
  import opened QueueSpec
  import opened QueueProof
  import opened MachineSpec
  import opened MachineProof

  /** Every dedupe record has a slot in the expiry index. */
  ghost predicate SeenFiled(g: Group) {
    && (forall id :: id in g.seen ==> g.seen[id].exp > 0 && Covered(g.seenSlots, g.seen[id].exp, DedupeRef(id.client, id.seqno)))
    && (forall s :: s in g.seenSlots ==> s.ref.DedupeRef?)
  }

  ghost predicate Kept(g: Group, now: Time, fallback: LockAlgorithm) { Sound(g, now, fallback) && SeenFiled(g) }

  /** The record behind a reference is gone or has not expired. */
  ghost predicate Settled(g: Group, now: Time, ref: Ref) {
    match ref
    case AliveRef(o) => o in g.t.alive ==> !Expired(g.t.alive[o], now)
    case EntryRef(s) => s in g.q.entries ==> !Expired(g.q.entries[s].1, now)
    case OwnerRef(o) => o in g.q.owners ==> !Expired(g.q.owners[o].1, now)
    case PathRef(p, s) => (p, s) in g.q.paths ==> !Expired(g.q.paths[(p, s)], now)
    case DedupeRef(c, s) => RequestId(c, s) in g.seen ==> !Expired(g.seen[RequestId(c, s)].exp, now)
  }

  // --- dropping a processed slot ---

  lemma DropCovered(slots: set<Slot>, s: Slot, exp: nat, ref: Ref, now: Time)
    requires Covered(slots, exp, ref) && s.exp < now && (ref == s.ref ==> !Expired(exp, now))
    ensures Covered(slots - {s}, exp, ref)
  {
    if exp != 0 {
      var c :| c in slots && c.ref == ref && exp <= c.exp < exp + EXPIRY_INDEX_QUANTUM_MS;
      assert c in slots - {s};
    }
  }

  lemma SlotLossGood(t: Tables, pol: Policies, s: Slot, now: Time)
    requires Good(t, pol) && s.exp < now
    requires forall o :: o in t.alive && AliveRef(o) == s.ref ==> !Expired(t.alive[o], now)
    ensures Good(t.(slots := t.slots - {s}), pol)
  {
    var r := t.(slots := t.slots - {s});
    assert OneAlgorithm(r, pol) && OwnCovers(r) && Fenced(r);
    forall o | o in r.alive ensures Covered(r.slots, r.alive[o], AliveRef(o)) { DropCovered(t.slots, s, t.alive[o], AliveRef(o), now); }
    assert LeasesFiled(r);
    hide Core, Exclusive, SemaphoreBounded, OneAlgorithm, OwnCovers, LeasesFiled, Fenced;
    CoreFrame(t, r);
    ExclusiveFrame(t, r);
    BoundFrame(t, r);
  }

  lemma SlotLossFiled(q: Queue, s: Slot, now: Time)
    requires QueueFiled(q) && s.exp < now
    requires forall x :: x in q.entries && EntryRef(x) == s.ref ==> !Expired(q.entries[x].1, now)
    requires forall o :: o in q.owners && OwnerRef(o) == s.ref ==> !Expired(q.owners[o].1, now)
    requires forall k :: k in q.paths && PathRef(k.0, k.1) == s.ref ==> !Expired(q.paths[k], now)
    ensures QueueFiled(q.(slots := q.slots - {s}))
  {
    hide Covered;
    forall x | x in q.entries ensures Covered(q.slots - {s}, q.entries[x].1, EntryRef(x)) {
      DropCovered(q.slots, s, q.entries[x].1, EntryRef(x), now);
    }
    forall o | o in q.owners ensures Covered(q.slots - {s}, q.owners[o].1, OwnerRef(o)) {
      DropCovered(q.slots, s, q.owners[o].1, OwnerRef(o), now);
    }
    forall k | k in q.paths ensures Covered(q.slots - {s}, q.paths[k], PathRef(k.0, k.1)) {
      DropCovered(q.slots, s, q.paths[k], PathRef(k.0, k.1), now);
    }
  }

  /** Only the filing depends on the slots. */
  lemma QueueRefiled(q: Queue, r: Queue, now: Time, pol: Policies)
    requires QueueGood(q, now, pol) && QueueFiled(r) && r == q.(slots := r.slots)
    ensures QueueGood(r, now, pol)
  {
    hide PathKeys, UnitSum, Covered, NoSep, QueueFiled;
    assert forall x :: Live(r, now, x) <==> Live(q, now, x);
    assert Indexed(r, now) && OwnersPoint(r, now);
    assert NoOrphans(r) && Current(r, now, pol) && Counted(r);
  }

  lemma SlotLossSeen(g: Group, s: Slot, now: Time)
    requires SeenFiled(g) && s.exp < now && Settled(g, now, s.ref)
    ensures SeenFiled(DropSlot(g, s))
  {
    hide Covered;
    forall id | id in g.seen ensures Covered(g.seenSlots - {s}, g.seen[id].exp, DedupeRef(id.client, id.seqno)) {
      assert id == RequestId(id.client, id.seqno);
      DropCovered(g.seenSlots, s, g.seen[id].exp, DedupeRef(id.client, id.seqno), now);
    }
  }

  lemma DropSlotKept(g: Group, now: Time, fallback: LockAlgorithm, s: Slot)
    requires Kept(g, now, fallback) && s.exp < now && Settled(g, now, s.ref)
    ensures Kept(DropSlot(g, s), now, fallback)
  {
    hide Good, QueueGood, SeenFiled, QueueFiled;
    SlotLossGood(g.t, PoliciesOf(g, fallback), s, now);
    assert QueueFiled(g.q) by { GoodFiled(g.q, now, PoliciesOf(g, fallback)); }
    SlotLossFiled(g.q, s, now);
    QueueRefiled(g.q, DropSlot(g, s).q, now, PoliciesOf(g, fallback));
    SlotLossSeen(g, s, now);
  }

  lemma GoodFiled(q: Queue, now: Time, pol: Policies)
    requires QueueGood(q, now, pol)
    ensures QueueFiled(q)
  {
  }

  // --- reclaiming queue records ---

  lemma ExpireCases(q: Queue, now: Time, pol: Policies, s: nat)
    requires Linked(q, now, pol) && s in q.entries && Expired(q.entries[s].1, now)
    ensures ExpireEntry(q, now, s) ==
            (true, q.(paths := q.paths - PathKeys(q.entries[s].0), entries := q.entries - {s},
                      count := Some(SaturatingSub(QueueCount(q), QueueUnits(q.entries[s].0.args)))))
  {
    hide PathKeys, UnitSum, QueueUnits;
  }

  ghost predicate IsExpired(q: Queue, now: Time, pol: Policies, s: nat, r: Queue) {
    && Linked(q, now, pol) && s in q.entries && Expired(q.entries[s].1, now)
    && r == q.(paths := q.paths - PathKeys(q.entries[s].0), entries := q.entries - {s}, count := r.count)
  }

  lemma ExpireIndexed(q: Queue, now: Time, pol: Policies, s: nat, r: Queue)
    requires IsExpired(q, now, pol, s, r)
    ensures Indexed(r, now)
  {
    hide PathKeys, Covered, NoSep, QueueFiled, NoOrphans, OwnersPoint, Current;
    forall x, k | Live(r, now, x) && k in PathKeys(r.entries[x].0) ensures k in r.paths && r.paths[k] == r.entries[x].1 {
      OtherPathKeys(r.entries[x].0, q.entries[s].0, k);
    }
  }

  lemma ExpireLinked(q: Queue, now: Time, pol: Policies, s: nat, r: Queue)
    requires IsExpired(q, now, pol, s, r)
    ensures Linked(r, now, pol)
    ensures forall x :: Live(r, now, x) <==> Live(q, now, x)
  {
    hide PathKeys, Covered, NoSep, Indexed;
    assert forall x :: Live(r, now, x) <==> Live(q, now, x);
    assert Numbered(r) && Current(r, now, pol) && OwnersPoint(r, now);
    assert NoOrphans(r);
    assert QueueFiled(r);
    ExpireIndexed(q, now, pol, s, r);
  }

  lemma ExpireCounted(q: Queue, s: nat, r: Queue)
    requires Counted(q) && s in q.entries && r.entries == q.entries - {s}
    requires r.count == Some(SaturatingSub(QueueCount(q), QueueUnits(q.entries[s].0.args)))
    ensures Counted(r)
  {
    hide PathKeys, UnitSum, QueueUnits;
    UnitsWithout(q.entries, s);
  }

  /** Expiring an entry keeps the queue good, subtracts exactly its units, and touches no live waiter. */
  lemma ExpireGood(q: Queue, now: Time, pol: Policies, s: nat)
    requires QueueGood(q, now, pol) && s in q.entries && Expired(q.entries[s].1, now)
    ensures var r := ExpireEntry(q, now, s).1;
            && QueueGood(r, now, pol) && s !in r.entries && r.slots == q.slots && r.owners == q.owners
            && (forall x :: Live(r, now, x) <==> Live(q, now, x)) && (forall x :: x in r.entries ==> r.entries[x] == q.entries[x])
  {
    hide Linked, Counted, PathKeys, QueueUnits, UnitSum, ExpireEntry;
    var r := ExpireEntry(q, now, s).1;
    ExpireCases(q, now, pol, s);
    ExpireLinked(q, now, pol, s, r);
    ExpireCounted(q, s, r);
  }

  /** An expired owner or path record belongs to no live waiter. */
  lemma OwnerLossGood(q: Queue, now: Time, pol: Policies, o: string)
    requires QueueGood(q, now, pol) && o in q.owners && Expired(q.owners[o].1, now)
    ensures QueueGood(q.(owners := q.owners - {o}), now, pol)
  {
    DequeueNobody(q, now, pol, o);
  }

  lemma PathLossGood(q: Queue, now: Time, pol: Policies, k: (string, nat))
    requires QueueGood(q, now, pol) && k in q.paths && Expired(q.paths[k], now)
    ensures QueueGood(q.(paths := q.paths - {k}), now, pol)
  {
    hide PathKeys, UnitSum, Covered, NoSep;
    var r := q.(paths := q.paths - {k});
    assert forall x :: Live(r, now, x) <==> Live(q, now, x);
    assert Indexed(r, now) && OwnersPoint(r, now);
    assert NoOrphans(r) && QueueFiled(r) && Current(r, now, pol);
    CountedFrame(q, r);
  }

  // --- one record ---

  ghost predicate SameSlots(g: Group, r: Group) {
    r.t.slots == g.t.slots && r.q.slots == g.q.slots && r.seenSlots == g.seenSlots
  }

  ghost predicate SameRest(g: Group, r: Group) {
    r.rows == g.rows && r.clock == g.clock && r.cursor == g.cursor && r.counter == g.counter
  }

  lemma ReclaimRecordKept(g: Group, now: Time, fallback: LockAlgorithm, ref: Ref)
    requires Kept(g, now, fallback)
    ensures var r := ReclaimRecord(g, now, ref).1;
            Kept(r, now, fallback) && Settled(r, now, ref) && SameSlots(g, r) && SameRest(g, r) && Onward(g.t, r.t)
  {
    hide Good, QueueGood, SeenFiled, ReleaseOwner, ExpireEntry, Onward;
    GrewRefl(g.t, "");
    var pol := PoliciesOf(g, fallback);
    match ref
    case AliveRef(o) =>
      ReleaseOwnerMoves(g, now, fallback, o);
      ReleaseOwnerFrame(g.t, o);
      SeenFrame(g, g.(t := ReleaseOwner(g.t, o)));
    case EntryRef(s) =>
      if s in g.q.entries && Expired(g.q.entries[s].1, now) {
        ExpireGood(g.q, now, pol, s);
        SeenFrame(g, g.(q := ExpireEntry(g.q, now, s).1));
      }
    case OwnerRef(o) =>
      if o in g.q.owners && Expired(g.q.owners[o].1, now) {
        OwnerLossGood(g.q, now, pol, o);
        SeenFrame(g, g.(q := g.q.(owners := g.q.owners - {o})));
      }
    case PathRef(p, s) =>
      if (p, s) in g.q.paths && Expired(g.q.paths[(p, s)], now) {
        PathLossGood(g.q, now, pol, (p, s));
        SeenFrame(g, g.(q := g.q.(paths := g.q.paths - {(p, s)})));
      }
    case DedupeRef(c, s) =>
      SeenFrame(g, g.(seen := g.seen - {RequestId(c, s)}));
  }

  lemma ReleaseOwnerFrame(t: Tables, o: string)
    ensures ReleaseOwner(t, o).slots == t.slots && ReleaseOwner(t, o).alive == t.alive - {o}
  {
  }

  lemma SeenFrame(g: Group, r: Group)
    requires SeenFiled(g) && r.seenSlots == g.seenSlots
    requires forall id :: id in r.seen ==> id in g.seen && r.seen[id] == g.seen[id]
    ensures SeenFiled(r)
  {
    hide Covered;
  }

  // --- a whole batch ---

  ghost predicate Reclaimed(g: Group, r: Group, now: Time, fallback: LockAlgorithm, gone: set<Slot>) {
    && Kept(r, now, fallback) && SameRest(g, r) && Onward(g.t, r.t)
    && r.t.slots == g.t.slots - gone && r.q.slots == g.q.slots - gone && r.seenSlots == g.seenSlots - gone
  }

  lemma {:induction false} ReclaimKept(g: Group, now: Time, fallback: LockAlgorithm, slots: seq<Slot>)
    requires Kept(g, now, fallback) && forall s :: s in slots ==> s.exp < now
    ensures Reclaimed(g, Reclaim(g, now, slots).1, now, fallback, set s | s in slots)
    decreases |slots|
  {
    hide Kept, Onward, ReclaimRecord, Settled;
    if slots == [] {
      GrewRefl(g.t, "");
    } else {
      var s, rest := slots[0], slots[1..];
      assert forall x :: x in slots <==> x == s || x in rest;
      var g1 := ReclaimRecord(g, now, s.ref).1;
      ReclaimRecordKept(g, now, fallback, s.ref);
      DropSlotKept(g1, now, fallback, s);
      var g2 := DropSlot(g1, s);
      assert Onward(g.t, g2.t) by { OnwardSlots(g.t, g1.t, g2.t.slots); }
      ReclaimKept(g2, now, fallback, rest);
      OnwardTrans(g.t, g2.t, Reclaim(g2, now, rest).1.t);
    }
  }

  lemma OnwardSlots(t: Tables, r: Tables, slots: set<Slot>)
    requires Onward(t, r)
    ensures Onward(t, r.(slots := slots))
  {
  }

  // --- no record is reclaimed early ---

  ghost predicate Lapsed(t: Tables, owner: string, now: Time) { owner in t.alive && Expired(t.alive[owner], now) }

  /** Unexpired leases, waiters and dedupe records stay, and so does every hold whose owner's lease has not lapsed. */
  ghost predicate Spares(g: Group, r: Group, now: Time) {
    && (forall o :: o in r.t.alive ==> o in g.t.alive)
    && (forall o :: o in g.t.alive && !Lapsed(g.t, o, now) ==> o in r.t.alive && r.t.alive[o] == g.t.alive[o])
    && (forall h :: h in g.t.alg && !Lapsed(g.t, h.owner, now) ==> h in r.t.alg && r.t.alg[h] == g.t.alg[h])
    && (forall x :: Live(g.q, now, x) ==> x in r.q.entries && r.q.entries[x] == g.q.entries[x])
    && (forall id :: id in g.seen && !Expired(g.seen[id].exp, now) ==> id in r.seen && r.seen[id] == g.seen[id])
  }

  lemma SparesTrans(g: Group, h: Group, r: Group, now: Time)
    requires Spares(g, h, now) && Spares(h, r, now)
    ensures Spares(g, r, now)
  {
    assert forall o :: o in h.t.alive && Lapsed(h.t, o, now) ==> Lapsed(g.t, o, now);
  }

  lemma ReclaimRecordSpares(g: Group, now: Time, fallback: LockAlgorithm, ref: Ref)
    requires Kept(g, now, fallback)
    ensures Spares(g, ReclaimRecord(g, now, ref).1, now)
  {
    hide Good, QueueGood, SeenFiled, ExpireEntry;
    if ref.EntryRef? && ref.seqno in g.q.entries && Expired(g.q.entries[ref.seqno].1, now) {
      ExpireGood(g.q, now, PoliciesOf(g, fallback), ref.seqno);
    }
  }

  lemma {:induction false} ReclaimSpares(g: Group, now: Time, fallback: LockAlgorithm, slots: seq<Slot>)
    requires Kept(g, now, fallback) && forall s :: s in slots ==> s.exp < now
    ensures Spares(g, Reclaim(g, now, slots).1, now)
    decreases |slots|
  {
    hide Kept, Onward, ReclaimRecord, Settled, Spares;
    if slots == [] {
      SparesRefl(g, now);
    } else {
      var s, rest := slots[0], slots[1..];
      var g1 := ReclaimRecord(g, now, s.ref).1;
      var g2 := DropSlot(g1, s);
      ReclaimRecordKept(g, now, fallback, s.ref);
      ReclaimRecordSpares(g, now, fallback, s.ref);
      DropSlotKept(g1, now, fallback, s);
      SparesSlots(g, g1, s, now);
      ReclaimSpares(g2, now, fallback, rest);
      SparesTrans(g, g2, Reclaim(g2, now, rest).1, now);
    }
  }

  lemma SparesRefl(g: Group, now: Time)
    ensures Spares(g, g, now)
  {
  }

  lemma SparesSlots(g: Group, r: Group, s: Slot, now: Time)
    requires Spares(g, r, now)
    ensures Spares(g, DropSlot(r, s), now)
  {
  }

  // --- the sweep ---

  /** Nothing due lies behind the cursor. */
  ghost predicate Behind(g: Group) {
    g.cursor.Some? ==> g.cursor.value.exp < g.clock && forall s :: s in AllSlots(g) ==> SlotLess(g.cursor.value, s)
  }

  lemma BatchDue(g: Group, now: Time, batch: nat)
    ensures forall s :: s in BatchOf(g, now, batch) ==> s in AllSlots(g) && s.exp < now
    ensures Ascending(BatchOf(g, now, batch), SlotLess)
  {
    hide SlotLess, AllSlots;
    var all := SortedSlots(DueSlots(g, now));
    forall s | s in BatchOf(g, now, batch) ensures s in AllSlots(g) && s.exp < now { assert s in all; }
  }

  /** What the batch leaves of the index lies after its last slot. */
  lemma BatchFront(g: Group, now: Time, batch: nat, s: Slot)
    requires Behind(g) && BatchOf(g, now, batch) != []
    requires s in AllSlots(g) && s !in BatchOf(g, now, batch)
    ensures var b := BatchOf(g, now, batch); SlotLess(b[|b| - 1], s)
  {
    hide AllSlots, RefLess;
    var b := BatchOf(g, now, batch);
    var all := SortedSlots(DueSlots(g, now));
    BatchDue(g, now, batch);
    assert b[|b| - 1] in b;
    if s.exp < now {
      assert s in DueSlots(g, now) && s in all;
      var i :| 0 <= i < |all| && all[i] == s;
      assert forall j :: 0 <= j < |b| ==> b[j] == all[j] && b[j] in b;
      assert SlotLess(all[|b| - 1], all[i]);
    }
  }

  function AfterBatch(g: Group, now: Time, batch: nat): Group {
    var slots := BatchOf(g, now, batch);
    var g1 := Reclaim(g, now, slots).1;
    if slots == [] then g1 else g1.(cursor := Some(slots[|slots| - 1]))
  }

  lemma AfterBatchKept(g: Group, now: Time, fallback: LockAlgorithm, batch: nat)
    requires Kept(g, now, fallback)
    ensures var r := AfterBatch(g, now, batch);
            Reclaimed(g, r.(cursor := g.cursor), now, fallback, set s | s in BatchOf(g, now, batch)) && Kept(r, now, fallback)
            && Spares(g, r, now) && (BatchOf(g, now, batch) == [] ==> r.cursor == g.cursor)
  {
    hide Good, QueueGood, Onward, Reclaim, BatchOf, Covered, Spares;
    BatchDue(g, now, batch);
    ReclaimKept(g, now, fallback, BatchOf(g, now, batch));
    ReclaimSpares(g, now, fallback, BatchOf(g, now, batch));
    var r1 := Reclaim(g, now, BatchOf(g, now, batch)).1;
    SparesCursor(g, r1, now);
    assert forall c :: SeenFiled(r1.(cursor := c)) by { SeenCursor(r1); }
    assert r1.(cursor := g.cursor) == r1;
  }

  lemma SparesCursor(g: Group, r: Group, now: Time)
    requires Spares(g, r, now)
    ensures forall c :: Spares(g, r.(cursor := c), now)
  {
  }

  lemma SeenCursor(g: Group)
    requires SeenFiled(g)
    ensures forall c :: SeenFiled(g.(cursor := c))
  {
    hide Covered;
  }

  lemma AfterBatchBehind(g: Group, now: Time, fallback: LockAlgorithm, batch: nat)
    requires Kept(g, now, fallback) && Behind(g) && g.clock <= now
    ensures Behind(AfterBatch(g, now, batch).(clock := now))
    ensures AllSlots(AfterBatch(g, now, batch)) == AllSlots(g) - set s | s in BatchOf(g, now, batch)
  {
    hide Kept, Onward, Reclaim, BatchOf, SlotLess, Spares;
    var b := BatchOf(g, now, batch);
    AfterBatchKept(g, now, fallback, batch);
    BatchDue(g, now, batch);
    var r := AfterBatch(g, now, batch);
    assert AllSlots(r.(clock := now)) == AllSlots(r) == AllSlots(g) - set s | s in b;
    if b != [] {
      assert b[|b| - 1] in b;
      forall s | s in AllSlots(r) ensures SlotLess(b[|b| - 1], s) { BatchFront(g, now, batch, s); }
    }
  }

  lemma GcFinal(g: Group, now: Time, batch: nat)
    ensures GcSweep(g, now, batch).1 ==
            (if Unblocks(BatchOf(g, now, batch)) then SweepAllOf(AfterBatch(g, now, batch), now).1 else AfterBatch(g, now, batch))
  {
    hide SweepAllOf, Reclaim, BatchOf;
  }

  /** The whole sweep: sound, onward, and slots only go or are filed at or after now. */
  lemma GcSweepKept(g: Group, now: Time, fallback: LockAlgorithm, batch: nat)
    requires Kept(g, now, fallback)
    ensures var r := GcSweep(g, now, batch).1;
            && Kept(r, now, fallback) && Onward(g.t, r.t) && r.clock == g.clock
            && r.cursor == AfterBatch(g, now, batch).cursor && Later(AllSlots(AfterBatch(g, now, batch)), AllSlots(r), now)
            && r.seen == AfterBatch(g, now, batch).seen
  {
    hide Good, QueueGood, Onward, Reclaim, BatchOf, Spares, SeenFiled, AfterBatch, SweepAllOf, GcSweep;
    var h := AfterBatch(g, now, batch);
    AfterBatchKept(g, now, fallback, batch);
    GcFinal(g, now, batch);
    MovesRefl(h, now, fallback);
    SweepAllMoves(h, now, fallback);
    var r := GcSweep(g, now, batch).1;
    assert Moves(h, r, now, fallback);
    OnwardTrans(g.t, h.t, r.t);
    SeenFrame(h, r);
  }
}

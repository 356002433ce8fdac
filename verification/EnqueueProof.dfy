/** Enqueue, expiry and scans keep the queue consistent and its units conserved. */
module EnqueueProof {
  import opened Paths
  import opened Expiry
  import opened LockSpec
  import opened LockInvariant
  import opened EngineProof
  import opened QueueSpec
  import opened QueueProof

  // --- storing an entry ---

  ghost predicate Fresh(q: Queue, e: Entry, pol: Policies) {
    && e.seqno !in q.entries && e.seqno <= q.lastSeq && e.owner !in q.owners && e.args.owner == e.owner
    && e.policy.algorithm == pol.InForce(e.ns) && NoSep(e.ns) && e.args.requests != []
  }

  lemma StoreIndexed(q: Queue, now: Time, pol: Policies, e: Entry)
    requires Linked(q, now, pol) && Fresh(q, e, pol)
    ensures Indexed(StoreEntry(q, now, e), now)
  {
    hide Covered, NoSep, NoOrphans, QueueFiled, Current, OwnersPoint, PathKeys;
    var r := StoreEntry(q, now, e);
    assert forall x :: x in r.entries && x != e.seqno ==> x in q.entries && r.entries[x] == q.entries[x];
    assert forall x :: Live(r, now, x) && x != e.seqno ==> Live(q, now, x);
    forall x, k | Live(r, now, x) && k in PathKeys(r.entries[x].0) ensures k in r.paths && r.paths[k] == r.entries[x].1 {
      if x != e.seqno { OtherPathKeys(r.entries[x].0, e, k); }
    }
  }

  lemma StoreOwners(q: Queue, now: Time, pol: Policies, e: Entry)
    requires Linked(q, now, pol) && Fresh(q, e, pol)
    ensures OwnersPoint(StoreEntry(q, now, e), now)
  {
    hide Covered, NoSep, NoOrphans, QueueFiled, Current, Indexed, PathKeys;
  }

  lemma StoreFiled(q: Queue, now: Time, e: Entry)
    requires QueueFiled(q)
    ensures QueueFiled(StoreEntry(q, now, e))
  {
    hide Covered, PathKeys;
    var r := StoreEntry(q, now, e);
    var exp := ExpiryAt(now, EntryTtl(e.args));
    var slot := QuantizedIndexExpiry(now, exp);
    CoveredBy(r.slots, Slot(slot, EntryRef(e.seqno)), exp);
    CoveredBy(r.slots, Slot(slot, OwnerRef(e.owner)), exp);
    forall k | k in PathKeys(e) ensures Covered(r.slots, exp, PathRef(k.0, k.1)) {
      CoveredBy(r.slots, Slot(slot, PathRef(k.0, k.1)), exp);
    }
    forall ref, x | Covered(q.slots, x, ref) ensures Covered(r.slots, x, ref) { CoveredMore(q.slots, r.slots, x, ref); }
  }

  lemma CoveredBy(slots: set<Slot>, s: Slot, exp: nat)
    requires s in slots && exp <= s.exp < exp + EXPIRY_INDEX_QUANTUM_MS
    ensures Covered(slots, exp, s.ref)
  {
  }

  lemma StorePlain(q: Queue, now: Time, pol: Policies, e: Entry)
    requires Linked(q, now, pol) && Fresh(q, e, pol)
    ensures var r := StoreEntry(q, now, e); Numbered(r) && NoOrphans(r) && Current(r, now, pol)
  {
    hide Covered, NoSep, QueueFiled, Indexed, OwnersPoint, PathKeys, NoOrphans;
    var r := StoreEntry(q, now, e);
    assert forall x :: x in r.entries && x != e.seqno ==> x in q.entries && r.entries[x] == q.entries[x];
    assert Numbered(r);
    assert forall x :: Live(r, now, x) && x != e.seqno ==> Live(q, now, x);
    assert Current(r, now, pol);
    StoreNoOrphans(q, now, e);
  }

  lemma StoreNoOrphans(q: Queue, now: Time, e: Entry)
    requires NoOrphans(q) && e.seqno !in q.entries
    ensures NoOrphans(StoreEntry(q, now, e))
  {
    hide NewPaths, QuantizedIndexExpiry;
    var r := StoreEntry(q, now, e);
    assert forall k :: k in PathKeys(e) ==> k.1 == e.seqno;
    assert forall k :: k in r.paths ==> k in q.paths || k in PathKeys(e);
  }

  lemma StoreLinked(q: Queue, now: Time, pol: Policies, e: Entry)
    requires Linked(q, now, pol) && Fresh(q, e, pol)
    ensures Linked(StoreEntry(q, now, e), now, pol)
  {
    hide Fresh, StoreEntry, Numbered, Indexed, OwnersPoint, NoOrphans, QueueFiled, Current;
    StoreIndexed(q, now, pol, e);
    StoreOwners(q, now, pol, e);
    StoreFiled(q, now, e);
    StorePlain(q, now, pol, e);
  }

  // --- enqueue ---

  /** The queue without the owner's earlier place. */
  function Vacated(q1: Queue, s: nat, owner: string): (r: Queue) {
    q1.(entries := q1.entries - {s}, owners := q1.owners - {owner})
  }

  lemma BumpLinked(q: Queue, now: Time, pol: Policies)
    requires Linked(q, now, pol)
    ensures Linked(q.(lastSeq := q.lastSeq + 1), now, pol)
    ensures q.lastSeq + 1 !in q.entries
  {
    hide PathKeys, Covered, NoSep;
    var r := q.(lastSeq := q.lastSeq + 1);
    assert forall x :: Live(r, now, x) <==> Live(q, now, x);
    assert Indexed(r, now);
    assert OwnersPoint(r, now);
    assert NoOrphans(r) && QueueFiled(r) && Current(r, now, pol);
  }

  ghost predicate Superseded(q: Queue, now: Time, pol: Policies, owner: string, units: nat, s: nat, q1: Queue) {
    var base := Vacated(q1, s, owner);
    && Linked(base, now, pol) && s !in base.entries && s <= base.lastSeq && owner !in base.owners
    && SaturatingSub(QueueCount(q1), units) == UnitSum(base.entries)
    && UnitSum(base.entries) <= UnitSum(q.entries)
  }

  lemma SupersedeNewcomer(q: Queue, now: Time, pol: Policies, owner: string)
    requires QueueGood(q, now, pol) && OwnerSeq(q, now, owner).None?
    ensures Superseded(q, now, pol, owner, 0, q.lastSeq + 1, q.(lastSeq := q.lastSeq + 1))
  {
    hide Linked, UnitSum;
    DequeueNobody(q, now, pol, owner);
    var q0 := q.(owners := q.owners - {owner});
    BumpLinked(q0, now, pol);
    assert q.entries - {q.lastSeq + 1} == q.entries;
    assert Vacated(q.(lastSeq := q.lastSeq + 1), q.lastSeq + 1, owner) == q0.(lastSeq := q0.lastSeq + 1);
  }

  lemma SupersedeLive(q: Queue, now: Time, pol: Policies, owner: string, s: nat)
    requires QueueGood(q, now, pol) && Live(q, now, s) && q.entries[s].0.owner == owner
    ensures Superseded(q, now, pol, owner, QueueUnits(q.entries[s].0.args), s, DeletePaths(q, q.entries[s].0))
    ensures Superseded(q, now, pol, owner, QueueUnits(q.entries[s].0.args), q.lastSeq + 1,
                       DeletePaths(q, q.entries[s].0).(entries := q.entries - {s}, owners := q.owners - {owner}, lastSeq := q.lastSeq + 1))
  {
    hide PathKeys, Linked, UnitSum, QueueUnits;
    var e := q.entries[s].0;
    UnlinkLinked(q, now, pol, s);
    UnitsWithout(q.entries, s);
    SeqBound(q, now, pol, s);
    assert Vacated(DeletePaths(q, e), s, owner) == Unlink(q, s, e);
    var q2 := DeletePaths(q, e).(entries := q.entries - {s}, owners := q.owners - {owner}, lastSeq := q.lastSeq + 1);
    BumpLinked(Unlink(q, s, e), now, pol);
    assert q2.entries - {q.lastSeq + 1} == q2.entries;
    assert q2.owners - {owner} == q2.owners;
    assert Vacated(q2, q.lastSeq + 1, owner) == Unlink(q, s, e).(lastSeq := q.lastSeq + 1);
  }

  lemma SeqBound(q: Queue, now: Time, pol: Policies, s: nat)
    requires QueueGood(q, now, pol) && s in q.entries
    ensures s <= q.lastSeq && q.count.Some?
  {
  }

  lemma OwnerLive(q: Queue, now: Time, pol: Policies, owner: string)
    requires Linked(q, now, pol) && OwnerSeq(q, now, owner).Some?
    ensures var s := OwnerSeq(q, now, owner).value;
            Live(q, now, s) && q.entries[s].0.owner == owner && ReadEntry(q, now, s) == Some(q.entries[s].0)
  {
    hide PathKeys;
  }

  lemma SupersedeOk(q: Queue, now: Time, pol: Policies, ns: string, args: AcquireArgs, policy: LockPolicy)
    requires QueueGood(q, now, pol)
    ensures var (units, s, q1) := Supersede(q, now, ns, args, policy); Superseded(q, now, pol, args.owner, units, s, q1)
  {
    hide QueueGood, Superseded, OwnerSeq, ReadEntry, DeletePaths, Linked, QueueUnits, Counted;
    if OwnerSeq(q, now, args.owner).None? {
      SupersedeNewcomer(q, now, pol, args.owner);
    } else {
      var s := OwnerSeq(q, now, args.owner).value;
      GoodLinked(q, now, pol);
      OwnerLive(q, now, pol, args.owner);
      var e := q.entries[s].0;
      SupersedeLive(q, now, pol, args.owner, s);
      SameTables(q, s);
      var q1 := DeletePaths(q, e);
      if e.ns == ns && e.args == args && e.policy == policy {
        assert Supersede(q, now, ns, args, policy) == (QueueUnits(e.args), s, q1);
      } else {
        var q2 := q1.(entries := q.entries - {s}, owners := q.owners - {args.owner}, lastSeq := q.lastSeq + 1);
        assert Supersede(q, now, ns, args, policy) == (QueueUnits(e.args), q.lastSeq + 1, q2);
      }
    }
  }

  lemma GoodLinked(q: Queue, now: Time, pol: Policies)
    requires QueueGood(q, now, pol)
    ensures Linked(q, now, pol) && Counted(q)
  {
  }

  lemma SameTables(q: Queue, s: nat)
    requires s in q.entries
    ensures DeletePaths(q, q.entries[s].0).entries == q.entries && DeletePaths(q, q.entries[s].0).owners == q.owners
  {
  }

  lemma StoreOver(q1: Queue, now: Time, e: Entry)
    ensures StoreEntry(q1, now, e) == StoreEntry(Vacated(q1, e.seqno, e.owner), now, e)
  {
    hide PathKeys;
    var a, b := StoreEntry(q1, now, e), StoreEntry(Vacated(q1, e.seqno, e.owner), now, e);
    assert a.entries == b.entries;
    assert a.owners == b.owners;
  }

  /** Enqueueing keeps the queue good and conserves units, or is refused with the queue full. */
  lemma EnqueueGood(q: Queue, now: Time, pol: Policies, ns: string, args: AcquireArgs, policy: LockPolicy)
    requires QueueGood(q, now, pol) && policy.algorithm == pol.InForce(ns) && NoSep(ns) && args.requests != []
    ensures var r := Enqueue(q, now, ns, args, policy);
            r.Some? ==> QueueGood(r.value.1, now, pol)
  {
    hide QueueGood, Superseded, Linked, QueueUnits, UnitSum, StoreEntry, Counted, NoSep;
    var (units, s, q1) := Supersede(q, now, ns, args, policy);
    SupersedeOk(q, now, pol, ns, args, policy);
    hide Supersede;
    var next := SaturatingSub(QueueCount(q1), units) + QueueUnits(args);
    if next <= QUEUE_SCAN_LIMIT {
      EnqueueStores(q, now, pol, args.owner, units, s, q1, next, Entry(s, args.owner, ns, args, policy));
    }
  }

  lemma EnqueueStores(
    q: Queue, now: Time, pol: Policies, owner: string, units: nat, s: nat, q1: Queue, next: nat, e: Entry)
    requires Superseded(q, now, pol, owner, units, s, q1)
    requires e.seqno == s && e.owner == owner && e.args.owner == owner
    requires e.policy.algorithm == pol.InForce(e.ns) && NoSep(e.ns) && e.args.requests != []
    requires next == SaturatingSub(QueueCount(q1), units) + QueueUnits(e.args) && next <= QUEUE_SCAN_LIMIT
    ensures QueueGood(StoreEntry(q1.(count := Some(next)), now, e), now, pol)
  {
    hide Linked, QueueUnits, UnitSum, StoreEntry, NoSep;
    var base := Vacated(q1, s, owner);
    var b := base.(count := Some(next));
    LinkedCount(base, now, pol, Some(next));
    StoreOver(q1.(count := Some(next)), now, e);
    assert Vacated(q1.(count := Some(next)), s, owner) == b;
    StoreLinked(b, now, pol, e);
    StoreCounts(b, now, e);
  }

  lemma StoreCounts(b: Queue, now: Time, e: Entry)
    requires e.seqno !in b.entries && b.count == Some(UnitSum(b.entries) + QueueUnits(e.args))
    requires b.count.value <= QUEUE_SCAN_LIMIT
    ensures Counted(StoreEntry(b, now, e))
  {
    hide QueueUnits, UnitSum, PathKeys;
    UnitsWith(b.entries, e.seqno, (e, ExpiryAt(now, EntryTtl(e.args))));
    assert e.seqno in StoreEntry(b, now, e).entries;
  }
}

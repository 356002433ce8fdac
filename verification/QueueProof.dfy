/** What every queue operation keeps: the indexes, the unit counter and the waiters' policies. */
module QueueProof {
  import opened Paths
  import opened Expiry
  import opened LockSpec
  import opened LockInvariant
  import opened QueueSpec

  predicate Live(q: Queue, now: Time, s: nat) { s in q.entries && !Expired(q.entries[s].1, now) }

  ghost predicate Numbered(q: Queue) {
    forall s :: s in q.entries ==>
      q.entries[s].0.seqno == s && s <= q.lastSeq && q.entries[s].1 > 0 && q.entries[s].0.args.owner == q.entries[s].0.owner
  }

  /** A live waiter is found through its owner and through each of its paths. */
  ghost predicate Indexed(q: Queue, now: Time) {
    && (forall s :: Live(q, now, s) ==>
          var (e, exp) := q.entries[s];
          e.owner in q.owners && q.owners[e.owner] == (s, exp))
    && (forall s, k :: Live(q, now, s) && k in PathKeys(q.entries[s].0) ==> k in q.paths && q.paths[k] == q.entries[s].1)
  }

  /** A live owner record leads to that owner's live waiter. */
  ghost predicate OwnersPoint(q: Queue, now: Time) {
    forall o :: o in q.owners && !Expired(q.owners[o].1, now) ==>
      var (s, exp) := q.owners[o];
      s in q.entries && q.entries[s].0.owner == o && q.entries[s].1 == exp
  }

  /** Path records exist only for stored entries. */
  ghost predicate NoOrphans(q: Queue) {
    forall k :: k in q.paths ==> k.1 in q.entries && k in PathKeys(q.entries[k.1].0)
  }

  /** The stored counter is the sum of the stored units, within the cap. */
  ghost predicate Counted(q: Queue) {
    && (q.count.Some? ==> q.count.value == UnitSum(q.entries))
    && (q.count.None? ==> q.entries == map[])
    && UnitSum(q.entries) <= QUEUE_SCAN_LIMIT
  }

  /** Every record has a slot in the expiry index. */
  ghost predicate QueueFiled(q: Queue) {
    && (forall s :: s in q.entries ==> Covered(q.slots, q.entries[s].1, EntryRef(s)))
    && (forall o :: o in q.owners ==> Covered(q.slots, q.owners[o].1, OwnerRef(o)))
    && (forall k :: k in q.paths ==> Covered(q.slots, q.paths[k], PathRef(k.0, k.1)))
    && (forall s :: s in q.slots ==> s.ref.EntryRef? || s.ref.OwnerRef? || s.ref.PathRef?)
  }

  /** Every live waiter asks for something, under the algorithm in force in its namespace. */
  ghost predicate Current(q: Queue, now: Time, pol: Policies) {
    forall s :: Live(q, now, s) ==>
      var e := q.entries[s].0; e.policy.algorithm == pol.InForce(e.ns) && NoSep(e.ns) && e.args.requests != []
  }

  ghost predicate Linked(q: Queue, now: Time, pol: Policies) {
    Numbered(q) && Indexed(q, now) && OwnersPoint(q, now) && NoOrphans(q) && QueueFiled(q) && Current(q, now, pol)
  }

  ghost predicate QueueGood(q: Queue, now: Time, pol: Policies) { Linked(q, now, pol) && Counted(q) }

  lemma EmptyQueueGood(now: Time, pol: Policies)
    ensures QueueGood(EMPTY_QUEUE, now, pol)
  {
  }

  /** Time passing only retires waiters. */
  lemma TimePasses(q: Queue, now: Time, later: Time, pol: Policies)
    requires QueueGood(q, now, pol) && now <= later
    ensures QueueGood(q, later, pol)
  {
    hide PathKeys, UnitSum, Covered, QueueFiled, NoOrphans, Counted, NoSep, Numbered;
    assert forall s :: Live(q, later, s) ==> Live(q, now, s);
    assert Indexed(q, later);
    assert Current(q, later, pol);
    assert OwnersPoint(q, later);
  }

  // --- units ---

  lemma {:induction false} UnitsWithout(m: map<nat, (Entry, Time)>, k: nat)
    requires k in m
    ensures UnitSum(m) == QueueUnits(m[k].0.args) + UnitSum(m - {k})
    decreases |m|
  {
    hide QueueUnits, LeastKey;
    var low := LeastKey(m);
    if k != low {
      UnitsWithout(m - {low}, k);
      LeastStays(m, k);
      assert m - {low} - {k} == m - {k} - {low};
    }
  }

  lemma LeastStays(m: map<nat, (Entry, Time)>, k: nat)
    requires k in m && k != LeastKey(m)
    ensures m - {k} != map[] && LeastKey(m - {k}) == LeastKey(m)
  {
    hide LeastKey;
    assert LeastKey(m) in m - {k};
  }

  lemma UnitsWith(m: map<nat, (Entry, Time)>, k: nat, v: (Entry, Time))
    requires k !in m
    ensures UnitSum(m[k := v]) == UnitSum(m) + QueueUnits(v.0.args)
  {
    hide QueueUnits, UnitSum;
    UnitsWithout(m[k := v], k);
    assert m[k := v] - {k} == m;
  }

  lemma {:induction false} EntriesWithinUnits(m: map<nat, (Entry, Time)>)
    ensures |m| <= UnitSum(m)
    decreases |m|
  {
    hide QueueUnits, LeastKey;
    if m != map[] { EntriesWithinUnits(m - {LeastKey(m)}); }
  }

  // --- unlinking a live waiter ---

  function Unlink(q: Queue, s: nat, e: Entry): (r: Queue) {
    q.(entries := q.entries - {s}, owners := q.owners - {e.owner}, paths := q.paths - PathKeys(e))
  }

  lemma OtherPathKeys(e: Entry, f: Entry, k: (string, nat))
    requires e.seqno != f.seqno && k in PathKeys(e)
    ensures k !in PathKeys(f)
  {
  }

  lemma UnlinkLinked(q: Queue, now: Time, pol: Policies, s: nat)
    requires Linked(q, now, pol) && Live(q, now, s)
    ensures Linked(Unlink(q, s, q.entries[s].0), now, pol)
    ensures forall x :: Live(Unlink(q, s, q.entries[s].0), now, x) <==> Live(q, now, x) && x != s
  {
    hide PathKeys, Covered, NoSep, Numbered, Indexed, OwnersPoint, NoOrphans, QueueFiled, Current;
    UnlinkIndexed(q, now, pol, s);
    UnlinkOwners(q, now, pol, s);
    UnlinkPlain(q, now, pol, s);
  }

  lemma UnlinkIndexed(q: Queue, now: Time, pol: Policies, s: nat)
    requires Linked(q, now, pol) && Live(q, now, s)
    ensures Indexed(Unlink(q, s, q.entries[s].0), now)
  {
    hide PathKeys, Covered, NoSep, OwnersPoint, NoOrphans, QueueFiled, Current;
    var e := q.entries[s].0;
    var r := Unlink(q, s, e);
    forall x | Live(r, now, x) ensures Live(q, now, x) && x != s && r.entries[x] == q.entries[x] && r.entries[x].0.owner != e.owner {
      assert x in q.entries;
    }
    forall x, k | Live(r, now, x) && k in PathKeys(r.entries[x].0) ensures k in r.paths && r.paths[k] == r.entries[x].1 {
      OtherPathKeys(r.entries[x].0, e, k);
    }
  }

  lemma UnlinkOwners(q: Queue, now: Time, pol: Policies, s: nat)
    requires Linked(q, now, pol) && Live(q, now, s)
    ensures OwnersPoint(Unlink(q, s, q.entries[s].0), now)
  {
    hide PathKeys, Covered, NoSep, NoOrphans, QueueFiled, Current, Indexed;
  }

  lemma UnlinkPlain(q: Queue, now: Time, pol: Policies, s: nat)
    requires Linked(q, now, pol) && Live(q, now, s)
    ensures var r := Unlink(q, s, q.entries[s].0);
            Numbered(r) && NoOrphans(r) && QueueFiled(r) && Current(r, now, pol)
    ensures forall x :: Live(Unlink(q, s, q.entries[s].0), now, x) <==> Live(q, now, x) && x != s
  {
    hide PathKeys, Covered, NoSep, OwnersPoint, Indexed;
    var e := q.entries[s].0;
    var r := Unlink(q, s, e);
    assert forall x :: x in r.entries <==> x in q.entries && x != s;
    assert Numbered(r) && Current(r, now, pol);
    assert forall k :: k in r.paths ==> k in q.paths && k !in PathKeys(e);
    assert NoOrphans(r);
    assert QueueFiled(r);
  }

  // --- dequeue ---

  lemma DequeueCases(q: Queue, now: Time, pol: Policies, owner: string)
    requires Linked(q, now, pol)
    ensures match OwnerSeq(q, now, owner)
            case Some(s) => Live(q, now, s) && q.entries[s].0.owner == owner
                            && Dequeue(q, now, owner) ==
                               Unlink(q, s, q.entries[s].0).(count := Some(SaturatingSub(QueueCount(q), QueueUnits(q.entries[s].0.args))))
            case None => Dequeue(q, now, owner) == q.(owners := q.owners - {owner})
  {
    hide PathKeys;
  }

  lemma DequeueGood(q: Queue, now: Time, pol: Policies, owner: string)
    requires QueueGood(q, now, pol)
    ensures QueueGood(Dequeue(q, now, owner), now, pol)
    ensures forall x :: Live(Dequeue(q, now, owner), now, x) <==> Live(q, now, x) && q.entries[x].0.owner != owner
  {
    hide PathKeys, Linked, Dequeue, UnitSum, OwnerSeq, Unlink;
    DequeueCases(q, now, pol, owner);
    match OwnerSeq(q, now, owner)
    case Some(s) =>
      UnlinkLinked(q, now, pol, s);
      UnlinkCounted(q, s);
      DequeueOnly(q, now, pol, owner, s);
      LinkedCount(Unlink(q, s, q.entries[s].0), now, pol, Dequeue(q, now, owner).count);
    case None =>
      DequeueNobody(q, now, pol, owner);
  }

  lemma UnlinkCounted(q: Queue, s: nat)
    requires Counted(q) && s in q.entries
    ensures Counted(Unlink(q, s, q.entries[s].0).(count := Some(SaturatingSub(QueueCount(q), QueueUnits(q.entries[s].0.args)))))
  {
    hide PathKeys, UnitSum, QueueUnits;
    UnitsWithout(q.entries, s);
  }

  lemma LinkedCount(q: Queue, now: Time, pol: Policies, count: Option<nat>)
    requires Linked(q, now, pol)
    ensures Linked(q.(count := count), now, pol)
    ensures forall x :: Live(q.(count := count), now, x) <==> Live(q, now, x)
  {
    hide PathKeys, Covered, NoSep;
    var r := q.(count := count);
    assert forall x :: Live(r, now, x) <==> Live(q, now, x);
    assert Indexed(r, now);
    assert OwnersPoint(r, now);
    assert NoOrphans(r);
    assert QueueFiled(r);
    assert Current(r, now, pol);
  }

  lemma DequeueOnly(q: Queue, now: Time, pol: Policies, owner: string, s: nat)
    requires Linked(q, now, pol) && Live(q, now, s) && q.entries[s].0.owner == owner
    ensures forall x :: Live(q, now, x) && q.entries[x].0.owner == owner ==> x == s
  {
  }

  lemma DequeueNobody(q: Queue, now: Time, pol: Policies, owner: string)
    requires QueueGood(q, now, pol) && OwnerSeq(q, now, owner).None?
    ensures QueueGood(q.(owners := q.owners - {owner}), now, pol)
    ensures forall x :: Live(q, now, x) ==> q.entries[x].0.owner != owner
  {
    hide PathKeys, UnitSum, Covered, NoSep, Counted;
    var r := q.(owners := q.owners - {owner});
    assert forall x :: Live(q, now, x) <==> Live(r, now, x);
    forall x | Live(q, now, x) ensures q.entries[x].0.owner != owner {
      var e := q.entries[x].0;
      assert q.owners[e.owner] == (x, q.entries[x].1);
    }
    assert Indexed(r, now);
    assert NoOrphans(r) && QueueFiled(r);
    assert Counted(r) by { CountedFrame(q, r); }
  }

  lemma CountedFrame(q: Queue, r: Queue)
    requires Counted(q) && r.entries == q.entries && r.count == q.count
    ensures Counted(r)
  {
  }
}

/** Policy changes: clearing a namespace leaves nothing there that was admitted under the old algorithm. */
module PolicyProof {
  import opened Ordering
  import opened Paths
  import opened Expiry
  import opened LockSpec
  import opened LockInvariant
  import opened ApplyProof
  import opened EngineProof
  import opened QueueSpec
  import opened QueueProof
  import opened SweepProof
  import opened MachineSpec
  import opened MachineProof

  // --- holds ---

  lemma NamesHold(gone: set<(string, Member)>, owner: string, m: Member)
    ensures (owner, m) in gone ==> Hold(owner, m.mode, m.Key()) in NamedHolds(gone)
  {
    var e := (owner, m);
    assert e in gone ==> Hold(e.0, e.1.mode, e.1.Key()) in NamedHolds(gone);
  }

  lemma StillCovered(t: Tables, gone: set<(string, Member)>, h: Hold)
    requires CoversHold(t.own, h) && h !in NamedHolds(gone)
    ensures CoversHold(t.own - gone, h)
  {
    var m :| (h.owner, m) in t.own && m.mode == h.mode && m.Key() == h.key;
    NamesHold(gone, h.owner, m);
    assert (h.owner, m) in t.own - gone;
  }

  lemma ClearHoldsGood(t: Tables, pol: Policies, gone: set<(string, Member)>)
    requires Good(t, pol)
    ensures Good(ClearHolds(t, gone), pol) && Onward(t, ClearHolds(t, gone))
    ensures ClearHolds(t, gone).slots == t.slots
    ensures forall h :: h in ClearHolds(t, gone).alg ==> h in t.alg && h !in NamedHolds(gone)
  {
    hide Core, Exclusive, SemaphoreBounded, OneAlgorithm, Fenced, LeasesFiled, CoversHold, NamedHolds, Onward;
    var own := t.own - gone;
    var hs := NamedHolds(gone);
    forall h | h in t.alg && h !in hs ensures CoversHold(own, h) { StillCovered(t, gone, h); }
    DropGood(t, pol, own, hs);
    var t1 := Drop(t.(own := own), hs);
    var idle := set e | e in gone && HoldsNothing(t1, e.0) :: e.0;
    DropOnward(t.(own := own), hs);
    OwnOnward(t, own, t1);
    hide Good, Drop;
    LeaseLossGood(t1, pol, idle);
    assert ClearHolds(t, gone) == t1.(alive := t1.alive - idle);
  }

  lemma OwnOnward(t: Tables, own: set<(string, Member)>, r: Tables)
    requires Onward(t.(own := own), r)
    ensures forall alive :: Onward(t, r.(alive := alive))
  {
  }

  /** No hold of the namespace survives, whatever its owner. */
  lemma ClearHoldsEmpties(t: Tables, pol: Policies, ns: string, gone: set<(string, Member)>)
    requires Good(t, pol) && forall e :: e in t.own && e.1.ns == ns ==> e in gone
    ensures forall h :: h in ClearHolds(t, gone).alg ==> NamespaceOf(h.key) != ns
  {
    hide Core, Exclusive, SemaphoreBounded, OneAlgorithm, Fenced, LeasesFiled, ClearHolds;
    ClearHoldsGood(t, pol, gone);
    forall h | h in ClearHolds(t, gone).alg ensures NamespaceOf(h.key) != ns {
      assert CoversHold(t.own, h);
      var m :| (h.owner, m) in t.own && m.mode == h.mode && m.Key() == h.key;
      assert (h.owner, m) in t.own && NoSep((h.owner, m).1.ns);
      NamespaceOfScoped(m.ns, m.path);
      NamesHold(gone, h.owner, m);
    }
  }

  lemma ClearHoldsKeeps(t: Tables, gone: set<(string, Member)>, h: Hold)
    requires h in t.alg && h !in NamedHolds(gone)
    ensures h in ClearHolds(t, gone).alg && ClearHolds(t, gone).alg[h] == t.alg[h]
  {
    hide NamedHolds;
  }

  /** Without legacy routes, exactly the namespace's own holds go. */
  lemma ClearExact(t: Tables, pol: Policies, ns: string, preserved: set<string>, h: Hold)
    requires Good(t, pol) && h in t.alg
    ensures h in ClearHolds(t, GoneMembers(t.own, ns, false, preserved)).alg <==> NamespaceOf(h.key) != ns
  {
    hide ClearHolds, NamespaceOf, NamespaceContains, Core, Exclusive, SemaphoreBounded, OneAlgorithm, Fenced, LeasesFiled;
    var gone := GoneMembers(t.own, ns, false, preserved);
    assert forall e :: e in t.own && e.1.ns == ns ==> e in gone;
    ClearHoldsEmpties(t, pol, ns, gone);
    if NamespaceOf(h.key) != ns {
      OutsideUnnamed(t, gone, h, {ns});
      ClearHoldsKeeps(t, gone, h);
    }
  }

  /** A hold whose namespace no cleared member has is not named by them. */
  lemma OutsideUnnamed(t: Tables, gone: set<(string, Member)>, h: Hold, spaces: set<string>)
    requires OwnCovers(t) && gone <= t.own && (forall e :: e in gone ==> e.1.ns in spaces) && NamespaceOf(h.key) !in spaces
    ensures h !in NamedHolds(gone)
  {
    hide NamespaceOf;
    forall e | e in gone ensures Hold(e.0, e.1.mode, e.1.Key()) != h { NamespaceOfScoped(e.1.ns, e.1.path); }
  }

  /** A new root clears earlier routes below it but keeps every explicit namespace nested there. */
  lemma NestedKept(g: Group, now: Time, fallback: LockAlgorithm, ns: string, nested: string, h: Hold)
    requires Sound(g, now, fallback) && nested in g.rows && nested != ns && NamespaceContains(ns, nested)
    requires h in g.t.alg && NamespaceOf(h.key) == nested
    ensures var r := ClearNamespace(g, now, ns, true).1; h in r.t.alg && r.t.alg[h] == g.t.alg[h]
  {
    hide ClearHolds, ClearQueue, NamespaceOf, NamespaceContains, QueueGood, Core, Exclusive, SemaphoreBounded, OneAlgorithm, Fenced, LeasesFiled,
         LiveEntries, ClearedEntries, SortedStrings;
    var preserved := Preserved(g.rows, ns, true);
    var gone := GoneMembers(g.t.own, ns, true, preserved);
    assert forall e :: e in gone ==> e.1.ns != nested;
    OutsideUnnamed(g.t, gone, h, (set e | e in gone :: e.1.ns));
    ClearHoldsKeeps(g.t, gone, h);
  }

  lemma PolicySwapGood(t: Tables, pol: Policies, next: Policies)
    requires Good(t, pol)
    requires forall h :: h in t.alg ==> pol.InForce(NamespaceOf(h.key)) == next.InForce(NamespaceOf(h.key))
    ensures Good(t, next)
  {
    hide Core, Exclusive, SemaphoreBounded, Fenced, LeasesFiled, OwnCovers, NamespaceOf;
  }

  // --- waiters ---

  lemma {:induction false} ClearQueueGood(q: Queue, now: Time, pol: Policies, es: seq<Entry>)
    requires QueueGood(q, now, pol)
    ensures QueueGood(ClearQueue(q, now, es), now, pol) && Shrunk(q, ClearQueue(q, now, es), now)
    ensures ClearQueue(q, now, es).slots == q.slots
    ensures forall x, e :: Live(ClearQueue(q, now, es), now, x) && e in es ==> q.entries[x].0.owner != e.owner
    decreases |es|
  {
    hide QueueGood, Dequeue;
    if es != [] {
      var q1 := Dequeue(q, now, es[0].owner);
      DequeueGood(q, now, pol, es[0].owner);
      DequeueShrinks(q, now, pol, es[0].owner);
      DequeueSlots(q, now, es[0], Grant);
      ClearQueueGood(q1, now, pol, es[1..]);
      assert forall e :: e in es <==> e == es[0] || e in es[1..];
    }
  }

  lemma ClearQueueEmpties(q: Queue, now: Time, pol: Policies, ns: string, legacy: bool, preserved: set<string>)
    requires QueueGood(q, now, pol)
    ensures var r := ClearQueue(q, now, ClearedEntries(LiveEntries(q, now), ns, legacy, preserved));
            forall x :: Live(r, now, x) ==> r.entries[x].0.ns != ns
  {
    hide ClearQueue, LiveEntries, PathKeys, UnitSum;
    var es := ClearedEntries(LiveEntries(q, now), ns, legacy, preserved);
    ClearQueueGood(q, now, pol, es);
    LiveEntriesFacts(q, now);
    var r := ClearQueue(q, now, es);
    forall x | Live(r, now, x) ensures r.entries[x].0.ns != ns {
      var e := q.entries[x].0;
      assert Waiting(q, now, e);
      assert e.ns == ns ==> EntryCleared(e, ns, legacy, preserved);
    }
  }

  lemma PolicySwapQueue(q: Queue, now: Time, pol: Policies, next: Policies)
    requires QueueGood(q, now, pol)
    requires forall x :: Live(q, now, x) ==> pol.InForce(q.entries[x].0.ns) == next.InForce(q.entries[x].0.ns)
    ensures QueueGood(q, now, next)
  {
    hide Indexed, OwnersPoint, NoOrphans, QueueFiled, Counted, NoSep;
  }

  // --- commands ---

  ghost predicate SameElsewhere(pol: Policies, next: Policies, ns: string) {
    forall n :: n != ns ==> pol.InForce(n) == next.InForce(n)
  }

  lemma ClearTablesSwap(t: Tables, pol: Policies, next: Policies, ns: string, legacy: bool, preserved: set<string>)
    requires Good(t, pol) && SameElsewhere(pol, next, ns)
    ensures var r := ClearHolds(t, GoneMembers(t.own, ns, legacy, preserved));
            Good(r, next) && Onward(t, r) && r.slots == t.slots
  {
    hide Good, Onward, ClearHolds, NamespaceOf;
    var gone := GoneMembers(t.own, ns, legacy, preserved);
    assert forall e :: e in t.own && e.1.ns == ns ==> e in gone;
    ClearHoldsGood(t, pol, gone);
    ClearHoldsEmpties(t, pol, ns, gone);
    PolicySwapGood(ClearHolds(t, gone), pol, next);
  }

  lemma ClearQueueSwap(q: Queue, now: Time, pol: Policies, next: Policies, ns: string, legacy: bool, preserved: set<string>)
    requires QueueGood(q, now, pol) && SameElsewhere(pol, next, ns)
    ensures var r := ClearQueue(q, now, ClearedEntries(LiveEntries(q, now), ns, legacy, preserved));
            QueueGood(r, now, next) && r.slots == q.slots
  {
    hide QueueGood, ClearQueue, EntryCleared, LiveEntries;
    var es := ClearedEntries(LiveEntries(q, now), ns, legacy, preserved);
    ClearQueueGood(q, now, pol, es);
    ClearQueueEmpties(q, now, pol, ns, legacy, preserved);
    PolicySwapQueue(ClearQueue(q, now, es), now, pol, next);
  }

  /** Clearing a namespace keeps the group sound whatever policy the namespace gets. */
  lemma ClearMoves(g: Group, now: Time, fallback: LockAlgorithm, ns: string, legacy: bool, rows: map<string, LockPolicy>)
    requires Sound(g, now, fallback) && SameElsewhere(PoliciesOf(g, fallback), Policies(rows, fallback), ns)
    ensures Moves(g, ClearNamespace(g.(rows := rows), now, ns, legacy).1, now, fallback)
  {
    hide Good, QueueGood, Onward, ClearHolds, ClearQueue, GoneMembers, ClearedEntries, LiveEntries, SameElsewhere, Preserved, SortedStrings;
    var preserved := Preserved(rows, ns, legacy);
    ClearTablesSwap(g.t, PoliciesOf(g, fallback), Policies(rows, fallback), ns, legacy, preserved);
    ClearQueueSwap(g.q, now, PoliciesOf(g, fallback), Policies(rows, fallback), ns, legacy, preserved);
  }

  lemma SetPolicyMoves(g: Group, now: Time, fallback: LockAlgorithm, ns: string, alg: LockAlgorithm)
    requires Sound(g, now, fallback)
    ensures Moves(g, SetPolicy(g, now, ns, alg).1, now, fallback)
  {
    hide Good, QueueGood, Onward, ClearNamespace, NamespaceOf;
    var same := ns in g.rows && g.rows[ns].algorithm == alg;
    var g1 := SetPolicy(g, now, ns, alg).1;
    if same {
      GrewRefl(g.t, "");
      PolicySwapGood(g.t, PoliciesOf(g, fallback), PoliciesOf(g1, fallback));
      PolicySwapQueue(g.q, now, PoliciesOf(g, fallback), PoliciesOf(g1, fallback));
    } else {
      var epoch := if ns in g.rows then g.rows[ns].epoch else 0;
      var rows := g.rows[ns := LockPolicy(alg, SaturatingEpoch(epoch))];
      ClearMoves(g, now, fallback, ns, ns !in g.rows, rows);
    }
  }

  lemma DeletePolicyMoves(g: Group, now: Time, fallback: LockAlgorithm, ns: string)
    requires Sound(g, now, fallback)
    ensures Moves(g, DeletePolicy(g, now, ns).1, now, fallback)
  {
    hide Good, QueueGood, Onward, ClearNamespace, NamespaceOf;
    if ns in g.rows {
      ClearMoves(g, now, fallback, ns, false, g.rows - {ns});
    } else {
      assert g.rows - {ns} == g.rows;
      GrewRefl(g.t, "");
    }
  }
}

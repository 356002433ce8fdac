/**
 What every engine primitive keeps: the invariant of the lock tables, and its
 preservation by every kind of removal.
 */
module LockInvariant {
  import opened Paths
  import opened Expiry
  import opened LockSpec

  /** The policy rows of a group, with the configured fallback. */
  datatype Policies = Policies(rows: map<string, LockPolicy>, fallback: LockAlgorithm) {
    function Record(ns: string): LockPolicy { if ns in rows then rows[ns] else LockPolicy(fallback, 0) }
    function InForce(ns: string): LockAlgorithm { Record(ns).algorithm }
  }

  ghost predicate HasHold(t: Tables, h: Hold) {
    if h.mode == Write then t.Writes(h.owner, h.key) || (h.key, h.owner) in t.sem
    else (h.key, h.owner) in t.rd
  }

  /** Every stored hold, and nothing else, has an algorithm marker. */
  ghost predicate AlgExact(t: Tables) { forall h :: h in t.alg <==> HasHold(t, h) }

  /** The semaphore marker tells semaphore holds from write locks; no owner has both on a path. */
  ghost predicate AlgTyped(t: Tables) {
    && (forall h :: h in t.alg ==> (t.alg[h].Semaphore? <==> h.mode == Write && (h.key, h.owner) in t.sem))
    && (forall k :: k in t.wr ==> (k, t.wr[k]) !in t.sem)
  }

  /** The descendant indexes are exact views of the lock tables. */
  ghost predicate IndexExact(t: Tables) {
    && (forall a, k :: (a, k) in t.wrdesc <==> k in t.wr && IsStrictAncestor(a, k))
    && (forall a, k :: (a, k) in t.rddesc <==> HasMember(t.rd, k) && IsStrictAncestor(a, k))
  }

  ghost predicate Core(t: Tables) { AlgExact(t) && AlgTyped(t) && IndexExact(t) }

  /** Every stored hold carries the algorithm in force in its namespace. */
  ghost predicate OneAlgorithm(t: Tables, pol: Policies) {
    forall h :: h in t.alg ==> t.alg[h] == pol.InForce(NamespaceOf(h.key)) && t.alg[h].AllowsMode(h.mode)
  }

  predicate RecursiveWriter(t: Tables, a: string) {
    a in t.wr && t.HoldAlgorithm(Hold(t.wr[a], Write, a)).Recursive()
  }

  ghost predicate Exclusive(t: Tables) {
    && (forall k, o :: k in t.wr && (k, o) in t.rd ==> o == t.wr[k])
    && (forall a, k :: RecursiveWriter(t, a) && IsStrictAncestor(a, k) && k in t.wr ==> t.wr[k] == t.wr[a])
    && (forall a, k, o :: RecursiveWriter(t, a) && IsStrictAncestor(a, k) && (k, o) in t.rd ==> o == t.wr[a])
  }

  ghost predicate CoversHold(own: set<(string, Member)>, h: Hold) {
    exists m :: (h.owner, m) in own && m.mode == h.mode && m.Key() == h.key
  }

  /** Every stored hold is named by a member of its owner's hold set. */
  ghost predicate OwnCovers(t: Tables) {
    && (forall h :: h in t.alg ==> CoversHold(t.own, h))
    && (forall e :: e in t.own ==> NoSep(e.1.ns))
  }

  /** Holders, dead ones included, never exceed the path's capacity. */
  ghost predicate SemaphoreBounded(t: Tables) {
    forall k :: HasMember(t.sem, k) ==> k in t.cap && |MembersAt(t.sem, k)| <= t.cap[k]
  }

  ghost predicate Fenced(t: Tables) { forall k :: k in t.wr ==> k in t.fence }

  /** Every lease has a slot in the expiry index. */
  ghost predicate LeasesFiled(t: Tables) {
    && (forall o :: o in t.alive ==> Covered(t.slots, t.alive[o], AliveRef(o)))
    && (forall s :: s in t.slots ==> s.ref.AliveRef?)
  }

  ghost predicate Good(t: Tables, pol: Policies) {
    && Core(t) && OneAlgorithm(t, pol) && Exclusive(t) && OwnCovers(t)
    && SemaphoreBounded(t) && Fenced(t) && LeasesFiled(t)
  }

  lemma EmptyGood(pol: Policies)
    ensures Good(EMPTY, pol)
  {
  }

  // --- consequence: no two owners hold conflicting locks ---

  ghost predicate HasLock(t: Tables, h: Hold) {
    if h.mode == Write then t.Writes(h.owner, h.key) else (h.key, h.owner) in t.rd
  }

  /** Stored write and read holds of different owners never conflict, live or dead. */
  ghost predicate MutualExclusion(t: Tables) {
    forall g, h :: HasLock(t, g) && HasLock(t, h) && g.owner != h.owner ==>
      !LocksConflict(t.HoldAlgorithm(g), g.key, g.mode, t.HoldAlgorithm(h), h.key, h.mode)
  }

  lemma GoodExcludes(t: Tables, pol: Policies)
    requires Good(t, pol)
    ensures MutualExclusion(t)
  {
    forall g, h | HasLock(t, g) && HasLock(t, h) && g.owner != h.owner
      ensures !LocksConflict(t.HoldAlgorithm(g), g.key, g.mode, t.HoldAlgorithm(h), h.key, h.mode)
    {
      if g.mode == Write { PairExcluded(t, g, h); }
      if h.mode == Write { PairExcluded(t, h, g); }
    }
  }

  lemma PairExcluded(t: Tables, g: Hold, h: Hold)
    requires Exclusive(t)
    requires HasLock(t, g) && HasLock(t, h) && g.owner != h.owner && g.mode == Write
    ensures g.key != h.key
    ensures IsStrictAncestor(g.key, h.key) ==> !t.HoldAlgorithm(g).Recursive()
  {
    assert g == Hold(t.wr[g.key], Write, g.key);
  }

  // --- removal keeps the invariant ---

  lemma DropCore(t: Tables, hs: set<Hold>)
    requires Core(t)
    ensures Core(Drop(t, hs))
  {
    var r := Drop(t, hs);
    forall h ensures h in r.alg <==> HasHold(r, h) {
      assert h in t.alg <==> HasHold(t, h);
      if h.mode == Write && t.Writes(h.owner, h.key) { assert h == Hold(t.wr[h.key], Write, h.key); }
    }
    forall k | HasMember(r.rd, k) ensures HasMember(t.rd, k) {
      var e :| e in r.rd && e.0 == k;
      assert e in t.rd;
    }
  }

  lemma DropSemaphoreBounded(t: Tables, hs: set<Hold>)
    requires SemaphoreBounded(t)
    ensures SemaphoreBounded(Drop(t, hs))
  {
    var r := Drop(t, hs);
    forall k | HasMember(r.sem, k) ensures k in r.cap && |MembersAt(r.sem, k)| <= r.cap[k] {
      var e :| e in r.sem && e.0 == k;
      assert e in t.sem;
      SubsetSize(MembersAt(r.sem, k), MembersAt(t.sem, k));
    }
  }

  lemma SubsetSize<T>(a: set<T>, b: set<T>)
    requires a <= b
    ensures |a| <= |b|
  {
    assert b == a + (b - a);
  }

  lemma DropExclusive(t: Tables, hs: set<Hold>)
    requires Exclusive(t) && Core(t)
    ensures Exclusive(Drop(t, hs))
  {
    var r := Drop(t, hs);
    forall a | RecursiveWriter(r, a) ensures RecursiveWriter(t, a) && r.wr[a] == t.wr[a] {
      assert Hold(r.wr[a], Write, a) !in hs;
      assert HasHold(t, Hold(t.wr[a], Write, a));
    }
  }

  /** Dropping holds together with members that cover nothing else. */
  lemma DropGood(t: Tables, pol: Policies, own: set<(string, Member)>, hs: set<Hold>)
    requires Good(t, pol)
    requires own <= t.own
    requires forall h :: h in t.alg && h !in hs ==> CoversHold(own, h)
    ensures Good(Drop(t.(own := own), hs), pol)
  {
    hide Drop, Core, Exclusive, SemaphoreBounded, OneAlgorithm, Fenced, LeasesFiled;
    var s := t.(own := own);
    OwnIrrelevant(t, pol, own);
    DropCore(s, hs);
    DropExclusive(s, hs);
    DropSemaphoreBounded(s, hs);
    DropRest(s, pol, hs);
  }

  lemma OwnIrrelevant(t: Tables, pol: Policies, own: set<(string, Member)>)
    requires Good(t, pol)
    ensures var s := t.(own := own);
            Core(s) && Exclusive(s) && SemaphoreBounded(s) && OneAlgorithm(s, pol) && Fenced(s) && LeasesFiled(s)
  {
    var s := t.(own := own);
    assert forall a :: RecursiveWriter(s, a) ==> RecursiveWriter(t, a);
  }

  lemma DropRest(t: Tables, pol: Policies, hs: set<Hold>)
    requires OneAlgorithm(t, pol) && Fenced(t) && LeasesFiled(t)
    requires forall h :: h in t.alg && h !in hs ==> CoversHold(t.own, h)
    requires forall e :: e in t.own ==> NoSep(e.1.ns)
    ensures OneAlgorithm(Drop(t, hs), pol) && Fenced(Drop(t, hs)) && LeasesFiled(Drop(t, hs)) && OwnCovers(Drop(t, hs))
  {
    var r := Drop(t, hs);
    assert forall h :: h in r.alg ==> h in t.alg && h !in hs && r.alg[h] == t.alg[h];
  }
}

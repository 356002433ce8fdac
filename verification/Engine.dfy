/**
 The lock engine in its own form: one object holding the lock tables, updated in
 place, table by table and in loops. Each method is proved to compute the
 function of the same operation on values.
 */
module Engine {
  import opened Ordering
  import opened Paths
  import opened Expiry
  import opened LockSpec
  import opened LockInvariant
  import opened AcquireProof
  import opened ValidateProof
  import opened ApplyProof
  import opened EngineProof
  import opened EngineRefine
  import opened Outcomes

  const RELEASE_PAGE: nat := 4096

  // --- hold-set paging ---

  function ModeRank(m: Mode): nat { if m == Read then 0 else 1 }

  /** Key order of hold-set members: mode string, namespace, path. */
  predicate MemberLess(a: Member, b: Member) {
    if a.mode != b.mode then ModeRank(a.mode) < ModeRank(b.mode)
    else if a.ns != b.ns then StrLess(a.ns, b.ns)
    else StrLess(a.path, b.path)
  }

  lemma MemberLessTotal()
    ensures StrictTotal(MemberLess)
  {
    StrLessTotal();
    assert forall a, b :: MemberLess(a, b) ==> !MemberLess(b, a);
    assert forall a: Member, b: Member :: a != b ==> MemberLess(a, b) || MemberLess(b, a);
    assert forall a, b, c :: MemberLess(a, b) && MemberLess(b, c) ==> MemberLess(a, c);
  }

  function HoldSet(own: set<(string, Member)>, owner: string): (r: set<Member>)
    ensures forall m :: m in r <==> (owner, m) in own
  {
    set e | e in own && e.0 == owner :: e.1
  }

  /** The members at or after the cursor, in key order. */
  function MembersFrom(own: set<(string, Member)>, owner: string, cursor: Option<Member>): (r: seq<Member>)
    ensures forall m :: m in r <==> (owner, m) in own && (cursor.Some? ==> m == cursor.value || MemberLess(cursor.value, m))
    ensures Ascending(r, MemberLess)
  {
    MemberLessTotal();
    var rest := set m | m in HoldSet(own, owner) && (cursor.Some? ==> m == cursor.value || MemberLess(cursor.value, m));
    Sorted(rest, MemberLess)
  }

  /** The holds named by hold-set members. */
  function HoldsOf(owner: string, ms: set<Member>): (r: set<Hold>) {
    set m | m in ms :: Hold(owner, m.mode, m.Key())
  }

  // --- pruning one path's members ---

  function WithoutDead(t: Tables, rel: set<(string, string)>, path: string, now: Time): (r: set<(string, string)>) {
    set e | e in rel && !(e.0 == path && !t.Alive(e.1, now))
  }

  function DeadHolds(t: Tables, rel: set<(string, string)>, mode: Mode, path: string, now: Time): (r: set<Hold>) {
    set o | o in MembersAt(rel, path) && !t.Alive(o, now) :: Hold(o, mode, path)
  }

  /** The dead among the owners visited so far are gone. */
  ghost predicate PartlyPruned(
    t: Tables, rel0: set<(string, string)>, rel: set<(string, string)>, alg: map<Hold, LockAlgorithm>,
    mode: Mode, path: string, done: seq<string>, now: Time)
  {
    && (forall e :: e in rel <==> e in rel0 && !(e.0 == path && e.1 in done && !t.Alive(e.1, now)))
    && (forall h :: h in alg <==> h in t.alg && !(h.mode == mode && h.key == path && h.owner in done && !t.Alive(h.owner, now)))
    && (forall h :: h in alg ==> alg[h] == t.alg[h])
  }

  lemma NonePruned(t: Tables, rel: set<(string, string)>, mode: Mode, path: string, now: Time)
    ensures PartlyPruned(t, rel, rel, t.alg, mode, path, [], now)
  {
  }

  lemma SemaphorePruned(t: Tables, path: string, now: Time)
    requires Core(t)
    ensures PruneSemaphore(t, now, path) ==
            t.(sem := WithoutDead(t, t.sem, path, now), alg := t.alg - DeadHolds(t, t.sem, Write, path, now))
  {
    var gone := set o | o in MembersAt(t.sem, path) && !t.Alive(o, now);
    DropHolders(t, path, gone, WithoutDead(t, t.sem, path, now), DeadHolds(t, t.sem, Write, path, now));
  }

  lemma ReadersPruned(t: Tables, path: string, now: Time)
    requires Core(t)
    ensures var rd := WithoutDead(t, t.rd, path, now);
            PruneReaders(t, now, path) ==
            t.(rd := rd, alg := t.alg - DeadHolds(t, t.rd, Read, path, now),
               rddesc := if HasMember(rd, path) then t.rddesc else t.rddesc - IndexPairs(path))
  {
    var gone := set o | o in MembersAt(t.rd, path) && !t.Alive(o, now);
    DropReaders(t, path, gone, WithoutDead(t, t.rd, path, now), DeadHolds(t, t.rd, Read, path, now));
  }

  lemma NoMembers(rel: set<(string, string)>, path: string)
    ensures SortedStrings(MembersAt(rel, path)) == [] <==> !HasMember(rel, path)
  {
    var s := SortedStrings(MembersAt(rel, path));
    if HasMember(rel, path) {
      var e :| e in rel && e.0 == path;
      assert e.1 in s;
    }
    assert forall x :: x in s ==> (path, x) in rel && (path, x).0 == path;
    assert s != [] ==> s[0] in s;
  }

  lemma AllPruned(
    t: Tables, rel0: set<(string, string)>, rel: set<(string, string)>, alg: map<Hold, LockAlgorithm>,
    mode: Mode, path: string, done: seq<string>, now: Time)
    requires PartlyPruned(t, rel0, rel, alg, mode, path, done, now)
    requires forall o :: o in done <==> (path, o) in rel0
    ensures rel == WithoutDead(t, rel0, path, now)
    ensures alg == t.alg - DeadHolds(t, rel0, mode, path, now)
  {
    assert forall h :: h in DeadHolds(t, rel0, mode, path, now) <==>
             h.mode == mode && h.key == path && h.owner in done && !t.Alive(h.owner, now);
    assert rel == WithoutDead(t, rel0, path, now);
    assert alg == t.alg - DeadHolds(t, rel0, mode, path, now);
  }

  lemma PruneStep(
    t: Tables, rel0: set<(string, string)>, rel: set<(string, string)>, alg: map<Hold, LockAlgorithm>,
    mode: Mode, path: string, done: seq<string>, o: string, now: Time)
    requires PartlyPruned(t, rel0, rel, alg, mode, path, done, now)
    ensures t.Alive(o, now) ==> PartlyPruned(t, rel0, rel, alg, mode, path, done + [o], now)
    ensures !t.Alive(o, now) ==>
              PartlyPruned(t, rel0, rel - {(path, o)}, alg - {Hold(o, mode, path)}, mode, path, done + [o], now)
  {
    assert forall x :: x in done + [o] <==> x in done || x == o;
  }

  /** The living among some owners, in order. */
  function Living(t: Tables, owners: seq<string>, now: Time): (r: seq<string>) {
    if owners == [] then []
    else
      var n := |owners| - 1;
      Living(t, owners[..n], now) + (if t.Alive(owners[n], now) then [owners[n]] else [])
  }

  lemma {:induction false} LivingSorted(t: Tables, owners: seq<string>, now: Time)
    requires Ascending(owners, StrLess)
    ensures forall o :: o in Living(t, owners, now) <==> o in owners && t.Alive(o, now)
    ensures Ascending(Living(t, owners, now), StrLess)
  {
    if owners != [] {
      var n := |owners| - 1;
      LivingSorted(t, owners[..n], now);
      assert owners == owners[..n] + [owners[n]];
      assert forall o :: o in owners[..n] ==> StrLess(o, owners[n]);
    }
  }

  lemma LivingMembers(t: Tables, rel: set<(string, string)>, path: string, now: Time)
    ensures Living(t, SortedStrings(MembersAt(rel, path)), now) == SortedStrings(MembersAt(WithoutDead(t, rel, path, now), path))
  {
    LivingSorted(t, SortedStrings(MembersAt(rel, path)), now);
    StrLessTotal();
    AscendingUnique(Living(t, SortedStrings(MembersAt(rel, path)), now),
                    SortedStrings(MembersAt(WithoutDead(t, rel, path, now), path)), StrLess);
  }

  // --- releasing ---

  lemma CoreWithOwn(t: Tables, own: set<(string, Member)>)
    requires Core(t)
    ensures Core(t.(own := own))
  {
    CoreFrame(t, t.(own := own));
  }

  /** The three shapes one hold's release takes. */
  lemma ReleasedHold(t: Tables, h: Hold)
    requires Core(t)
    ensures h.mode == Write && t.HoldAlgorithm(h).Semaphore? ==>
              Drop(t, {h}) == t.(sem := t.sem - {(h.key, h.owner)}, alg := t.alg - {h})
    ensures h.mode == Write && !t.HoldAlgorithm(h).Semaphore? ==>
              Drop(t, {h}) == if t.Writes(h.owner, h.key)
                              then t.(wr := t.wr - {h.key}, alg := t.alg - {h}, wrdesc := t.wrdesc - IndexPairs(h.key)) else t
    ensures h.mode == Read ==>
              var rd := t.rd - {(h.key, h.owner)};
              Drop(t, {h}) == t.(rd := rd, alg := t.alg - {h},
                                 rddesc := if HasMember(rd, h.key) then t.rddesc else t.rddesc - IndexPairs(h.key))
  {
    if h.mode == Write && t.HoldAlgorithm(h).Semaphore? { ReleasedSemaphore(t, h); }
    else if h.mode == Write { ReleasedWrite(t, h); }
    else { ReleasedRead(t, h); }
  }

  lemma ReleasedSemaphore(t: Tables, h: Hold)
    requires Core(t) && h.mode == Write && t.HoldAlgorithm(h).Semaphore?
    ensures Drop(t, {h}) == t.(sem := t.sem - {(h.key, h.owner)}, alg := t.alg - {h})
  {
    DropHolders(t, h.key, {h.owner}, t.sem - {(h.key, h.owner)}, {h});
  }

  lemma ReleasedWrite(t: Tables, h: Hold)
    requires Core(t) && h.mode == Write && !t.HoldAlgorithm(h).Semaphore?
    ensures Drop(t, {h}) == if t.Writes(h.owner, h.key)
                            then t.(wr := t.wr - {h.key}, alg := t.alg - {h}, wrdesc := t.wrdesc - IndexPairs(h.key)) else t
  {
    hide IndexExact;
    assert HasHold(t, h) <==> h in t.alg;
    if t.Writes(h.owner, h.key) { DropWriter(t, h.key); } else { DropAbsent(t, h); }
  }

  lemma ReleasedRead(t: Tables, h: Hold)
    requires Core(t) && h.mode == Read
    ensures var rd := t.rd - {(h.key, h.owner)};
            Drop(t, {h}) == t.(rd := rd, alg := t.alg - {h},
                               rddesc := if HasMember(rd, h.key) then t.rddesc else t.rddesc - IndexPairs(h.key))
  {
    hide Drop, Core, GetAncestors;
    DropReaders(t, h.key, {h.owner}, t.rd - {(h.key, h.owner)}, {h});
  }

  // --- the owner-wide walk ---

  function OwnPairs(owner: string, ms: seq<Member>): (r: set<(string, Member)>) { set m | m in ms :: (owner, m) }

  /** `r` is `t` after releasing the members in `done`. */
  ghost predicate Walked(t: Tables, r: Tables, owner: string, done: set<Member>) {
    && r == Drop(t, HoldsOf(owner, done)).(own := r.own)
    && r.own == t.own - (set m | m in done :: (owner, m))
  }

  ghost predicate AllAtOrAfter(own: set<(string, Member)>, owner: string, cursor: Option<Member>) {
    cursor.Some? ==> forall m :: (owner, m) in own ==> m == cursor.value || MemberLess(cursor.value, m)
  }

  lemma Nothing(t: Tables, owner: string)
    requires Core(t)
    ensures Walked(t, t, owner, {})
  {
    DropNothing(t);
    assert HoldsOf(owner, {}) == {};
    assert t.own == t.own - (set m | m in {} :: (owner, m));
  }

  lemma WalkedStep(t: Tables, s: Tables, r: Tables, owner: string, done: set<Member>, item: Member)
    requires Walked(t, s, owner, done)
    requires r == Drop(s, {Hold(owner, item.mode, item.Key())}).(own := s.own - {(owner, item)})
    ensures Walked(t, r, owner, done + {item})
  {
    hide ScopedPath;
    var h := Hold(owner, item.mode, item.Key());
    DropTwice(t, HoldsOf(owner, done), {h});
    DropOwnCommutes(Drop(t, HoldsOf(owner, done)), s.own, {h});
    assert HoldsOf(owner, done) + {h} == HoldsOf(owner, done + {item});
    assert (set m | m in done + {item} :: (owner, m)) == (set m | m in done :: (owner, m)) + {(owner, item)};
    hide Drop;
  }

  lemma DropOwnCommutes(t: Tables, own: set<(string, Member)>, hs: set<Hold>)
    ensures Drop(t.(own := own), hs) == Drop(t, hs).(own := own)
  {
  }

  /** Once every member has been released, every hold of the owner has. */
  lemma WalkedAll(t: Tables, r: Tables, owner: string, done: set<Member>)
    requires Core(t) && OwnCovers(t)
    requires Walked(t, r, owner, done) && HoldsNothing(r, owner)
    ensures r.(alive := r.alive - {owner}) == ReleaseOwner(t, owner)
  {
    hide ScopedPath;
    var all := set h | h in t.alg && h.owner == owner;
    forall h | h in t.alg ensures h in HoldsOf(owner, done) <==> h in all {
      if h.owner == owner {
        assert CoversHold(t.own, h);
        var m :| (h.owner, m) in t.own && m.mode == h.mode && m.Key() == h.key;
        assert (owner, m) !in r.own;
        assert m in done;
        assert h == Hold(owner, m.mode, m.Key());
      }
    }
    DropSame(t, HoldsOf(owner, done), all);
    assert r.own == (set e | e in t.own && e.0 != owner);
  }

  lemma Everything(own: set<(string, Member)>, owner: string)
    ensures AllAtOrAfter(own, owner, None)
  {
  }

  lemma SameOwn(t: Tables, owner: string, item: Member)
    ensures Drop(t, {Hold(owner, item.mode, item.Key())}).own == t.own
  {
  }

  lemma OnePair(own: set<(string, Member)>, owner: string, members: seq<Member>, i: nat)
    requires i < |members|
    ensures own - OwnPairs(owner, members[..i]) - {(owner, members[i])} == own - OwnPairs(owner, members[..i + 1])
  {
    assert members[..i + 1] == members[..i] + [members[i]];
  }

  lemma NoPairs(own: set<(string, Member)>, owner: string)
    ensures own - OwnPairs(owner, []) == own
  {
  }

  predicate FromCursor(cursor: Option<Member>, m: Member) { cursor.Some? ==> m == cursor.value || MemberLess(cursor.value, m) }

  /** A page: ascending members from the cursor with none skipped, and the least member left out, if any. */
  ghost predicate IsPage(
    own: set<(string, Member)>, owner: string, cursor: Option<Member>, page: nat, members: seq<Member>, next: Option<Member>)
  {
    && Ascending(members, MemberLess) && |members| <= page
    && (forall m :: m in members ==> (owner, m) in own && FromCursor(cursor, m))
    && match next
       case None => forall m :: (owner, m) in own && FromCursor(cursor, m) ==> m in members
       case Some(c) =>
         && |members| == page && (owner, c) in own && FromCursor(cursor, c)
         && (forall m :: m in members ==> MemberLess(m, c))
         && (forall m :: (owner, m) in own && FromCursor(cursor, m) ==> m in members || m == c || MemberLess(c, m))
  }

  ghost predicate Lists(all: seq<Member>, own: set<(string, Member)>, owner: string, cursor: Option<Member>) {
    Ascending(all, MemberLess) && forall m :: m in all <==> (owner, m) in own && FromCursor(cursor, m)
  }

  lemma CutPage(own: set<(string, Member)>, owner: string, cursor: Option<Member>, page: nat, all: seq<Member>)
    requires Lists(all, own, owner, cursor) && page < |all|
    ensures IsPage(own, owner, cursor, page, all[..page], Some(all[page]))
  {
    hide MemberLess, FromCursor;
    var c := all[page];
    assert c in all && forall m :: m in all[..page] ==> m in all;
    assert forall j :: 0 <= j < page ==> all[j] in all[..page];
    forall m | m in all ensures m in all[..page] || m == c || MemberLess(c, m) {
      var i :| 0 <= i < |all| && all[i] == m;
      assert i > page ==> MemberLess(all[page], all[i]);
    }
    forall m | m in all[..page] ensures MemberLess(m, c) {
      var i :| 0 <= i < page && all[..page][i] == m;
      assert MemberLess(all[i], all[page]);
    }
  }

  lemma WholePage(own: set<(string, Member)>, owner: string, cursor: Option<Member>, page: nat, all: seq<Member>)
    requires Lists(all, own, owner, cursor) && |all| <= page
    ensures IsPage(own, owner, cursor, page, all, None)
  {
    hide MemberLess, FromCursor;
  }

  lemma MembersListed(own: set<(string, Member)>, owner: string, cursor: Option<Member>)
    ensures Lists(MembersFrom(own, owner, cursor), own, owner, cursor)
  {
    hide MemberLess;
  }

  lemma PageOwned(own: set<(string, Member)>, owner: string, cursor: Option<Member>, page: nat, members: seq<Member>, next: Option<Member>)
    requires IsPage(own, owner, cursor, page, members, next)
    ensures forall m :: m in members ==> (owner, m) in own
  {
  }

  /** After a page: either the set is empty, or it shrank and what is left starts at the next cursor. */
  lemma PageDone(
    own: set<(string, Member)>, rest: set<(string, Member)>, owner: string, cursor: Option<Member>,
    members: seq<Member>, next: Option<Member>, page: nat)
    requires page > 0 && AllAtOrAfter(own, owner, cursor) && IsPage(own, owner, cursor, page, members, next)
    requires rest == own - OwnPairs(owner, members)
    ensures next.None? ==> forall e :: e in rest ==> e.0 != owner
    ensures next.Some? ==> AllAtOrAfter(rest, owner, next) && |HoldSet(rest, owner)| < |HoldSet(own, owner)|
  {
    hide MemberLess;
    if next.Some? {
      assert members[0] in members && (owner, members[0]) in own && (owner, members[0]) !in rest;
      assert HoldSet(rest, owner) < HoldSet(own, owner);
      SmallerSet(HoldSet(rest, owner), HoldSet(own, owner));
    } else {
      forall e | e in rest ensures e.0 != owner { assert e == (e.0, e.1); }
    }
  }

  lemma SmallerSet<T>(a: set<T>, b: set<T>)
    requires a < b
    ensures |a| < |b|
  {
    assert b == a + (b - a);
    assert b - a != {};
  }

  // --- acquire ---

  /** The tables are still consistent after the requests were applied. */
  lemma CoreThroughApply(
    t: Tables, pol: Policies, now: Time, ns: string, alg: LockAlgorithm, args: AcquireArgs, t1: Tables)
    requires Good(t, pol) && NoSep(ns) && alg == pol.InForce(ns)
    requires HasHeld(args.requests) ==> t.Alive(args.owner, now)
    requires (None, t1) == ValidateAll(BeginAcquire(t, now, args), now, args.owner, args.token, ns, alg, args.requests)
    ensures Core(ApplyAll(t1, args.owner, args.token, ns, alg, args.requests).1)
  {
    hide Good, Pruned, ReqClear, Solid, CapacityAgrees, ApplyAll, Grew, Onward, Core;
    GoodCore(t, pol);
    if args.requests == [] {
      assert t1 == t by { assert BeginAcquire(t, now, args) == t; }
      assert AllClear(t1, args.owner, args.token, ns, alg, args.requests);
    } else {
      var t0 := BeginAcquire(t, now, args);
      BeginGood(t, pol, now, args);
      GoodCore(t0, pol);
      hide BeginAcquire, ValidateAll;
      AllOk(t0, now, args.owner, args.token, ns, alg, args.requests);
      PrunedGood(t0, t1, now, pol);
    }
    ApplyAllOk(t1, pol, args.owner, args.token, ns, alg, args.requests);
    GoodCore(ApplyAll(t1, args.owner, args.token, ns, alg, args.requests).1, pol);
  }

  lemma RefreshCore(t: Tables, now: Time, owner: string, ttl: Time)
    requires Core(t)
    ensures Core(RefreshLease(t, now, owner, ttl))
  {
    CoreFrame(t, RefreshLease(t, now, owner, ttl));
  }

  /** The transaction the engine runs in: the group's tables, at one effective time. */
  class LockTxn {
    var t: Tables
    const now: Time

    constructor (t: Tables, now: Time)
      ensures this.t == t && this.now == now
    {
      this.t := t;
      this.now := now;
    }

    // --- descendant indexes ---

    method AddDescendantIndexes(mode: Mode, path: string)
      modifies this
      ensures mode == Write ==> t == old(t).(wrdesc := old(t).wrdesc + IndexPairs(path))
      ensures mode == Read ==> t == old(t).(rddesc := old(t).rddesc + IndexPairs(path))
    {
      var ancs := CollectAncestors(path);
      for i := 0 to |ancs|
        invariant mode == Write ==> t == old(t).(wrdesc := old(t).wrdesc + (set a | a in ancs[..i] :: (a, path)))
        invariant mode == Read ==> t == old(t).(rddesc := old(t).rddesc + (set a | a in ancs[..i] :: (a, path)))
      {
        assert ancs[..i + 1] == ancs[..i] + [ancs[i]];
        if mode == Write { t := t.(wrdesc := t.wrdesc + {(ancs[i], path)}); }
        else { t := t.(rddesc := t.rddesc + {(ancs[i], path)}); }
      }
      assert ancs[..|ancs|] == ancs;
    }

    method RemoveDescendantIndexes(mode: Mode, path: string)
      modifies this
      ensures mode == Write ==> t == old(t).(wrdesc := old(t).wrdesc - IndexPairs(path))
      ensures mode == Read ==> t == old(t).(rddesc := old(t).rddesc - IndexPairs(path))
    {
      var ancs := CollectAncestors(path);
      for i := 0 to |ancs|
        invariant mode == Write ==> t == old(t).(wrdesc := old(t).wrdesc - (set a | a in ancs[..i] :: (a, path)))
        invariant mode == Read ==> t == old(t).(rddesc := old(t).rddesc - (set a | a in ancs[..i] :: (a, path)))
      {
        assert ancs[..i + 1] == ancs[..i] + [ancs[i]];
        if mode == Write { t := t.(wrdesc := t.wrdesc - {(ancs[i], path)}); }
        else { t := t.(rddesc := t.rddesc - {(ancs[i], path)}); }
      }
      assert ancs[..|ancs|] == ancs;
    }

    // --- pruning ---

    method GetLiveWriteOwner(path: string) returns (live: Option<string>)
      requires Core(t)
      modifies this
      ensures t == PruneWriter(old(t), now, path)
      ensures live == if path in t.wr then Some(t.wr[path]) else None
    {
      if path !in t.wr { return None; }
      var owner := t.wr[path];
      if t.Alive(owner, now) { return Some(owner); }
      DropWriter(t, path);
      t := t.(wr := t.wr - {path});
      t := t.(alg := t.alg - {Hold(owner, Write, path)});
      RemoveDescendantIndexes(Write, path);
      return None;
    }

    /** Drops dead readers and their markers; the index is the caller's to fix. */
    method PruneDeadReadOwners(path: string) returns (live: seq<string>)
      modifies this
      ensures t == old(t).(rd := WithoutDead(old(t), old(t).rd, path, now),
                           alg := old(t).alg - DeadHolds(old(t), old(t).rd, Read, path, now))
      ensures live == SortedStrings(MembersAt(t.rd, path))
    {
      hide PartlyPruned, Ascending, MembersAt, WithoutDead, DeadHolds;
      var owners := SortedStrings(MembersAt(t.rd, path));
      live := [];
      NonePruned(t, t.rd, Read, path, now);
      for i := 0 to |owners|
        invariant t == old(t).(rd := t.rd, alg := t.alg)
        invariant PartlyPruned(old(t), old(t).rd, t.rd, t.alg, Read, path, owners[..i], now)
        invariant live == Living(old(t), owners[..i], now)
      {
        assert owners[..i + 1] == owners[..i] + [owners[i]] && owners[..i + 1][..i] == owners[..i];
        PruneStep(old(t), old(t).rd, t.rd, t.alg, Read, path, owners[..i], owners[i], now);
        if t.Alive(owners[i], now) {
          live := live + [owners[i]];
        } else {
          t := t.(rd := t.rd - {(path, owners[i])});
          t := t.(alg := t.alg - {Hold(owners[i], Read, path)});
        }
      }
      assert owners[..|owners|] == owners;
      AllPruned(old(t), old(t).rd, t.rd, t.alg, Read, path, owners, now);
      LivingMembers(old(t), old(t).rd, path, now);
    }

    method PruneDeadSemaphoreOwners(path: string) returns (live: seq<string>)
      requires Core(t)
      modifies this
      ensures t == PruneSemaphore(old(t), now, path)
      ensures live == SortedStrings(MembersAt(t.sem, path))
    {
      hide PartlyPruned, Ascending, MembersAt, WithoutDead, DeadHolds, Core;
      var owners := SortedStrings(MembersAt(t.sem, path));
      live := [];
      NonePruned(t, t.sem, Write, path, now);
      for i := 0 to |owners|
        invariant t == old(t).(sem := t.sem, alg := t.alg)
        invariant PartlyPruned(old(t), old(t).sem, t.sem, t.alg, Write, path, owners[..i], now)
        invariant live == Living(old(t), owners[..i], now)
      {
        assert owners[..i + 1] == owners[..i] + [owners[i]] && owners[..i + 1][..i] == owners[..i];
        PruneStep(old(t), old(t).sem, t.sem, t.alg, Write, path, owners[..i], owners[i], now);
        if t.Alive(owners[i], now) {
          live := live + [owners[i]];
        } else {
          t := t.(sem := t.sem - {(path, owners[i])});
          t := t.(alg := t.alg - {Hold(owners[i], Write, path)});
        }
      }
      assert owners[..|owners|] == owners;
      AllPruned(old(t), old(t).sem, t.sem, t.alg, Write, path, owners, now);
      LivingMembers(old(t), old(t).sem, path, now);
      SemaphorePruned(old(t), path, now);
    }

    // --- conflict search ---

    method FindDescendantWriteConflict(owner: string, ns: string, key: string) returns (o: Option<AcquireOutcome>)
      requires Core(t)
      modifies this
      ensures (o, t) == FindDescendantWrite(old(t), now, owner, ns, key, SortedStrings(MembersAt(old(t).wrdesc, key)))
      ensures Core(t)
    {
      hide Core, PruneWriter, IndexPairs, Pruned;
      var cs := SortedStrings(MembersAt(t.wrdesc, key));
      for i := 0 to |cs|
        invariant Core(t)
        invariant FindDescendantWrite(t, now, owner, ns, key, cs[i..]) == FindDescendantWrite(old(t), now, owner, ns, key, cs)
      {
        var c := cs[i];
        assert cs[i..][0] == c && cs[i..][1..] == cs[i + 1..];
        PruneWriterOk(t, now, c);
        PrunedCore(t, PruneWriter(t, now, c), now);
        var live := GetLiveWriteOwner(c);
        if live.None? {
          NoWritePairs(t, key, c);
          t := t.(wrdesc := t.wrdesc - {(key, c)});
          RemoveDescendantIndexes(Write, c);
        } else if live.value != owner {
          return Some(Conflict(PublicPath(ns, c), live.value, 0, DescendantWriteLocked));
        }
      }
      return None;
    }

    /** Drops a path's dead readers and, with the last one, its index entries. */
    method PruneReadersAndIndex(path: string) returns (live: seq<string>)
      requires Core(t)
      modifies this
      ensures t == PruneReaders(old(t), now, path)
      ensures live == SortedStrings(MembersAt(t.rd, path)) && (live == [] <==> !HasMember(t.rd, path))
      ensures Core(t)
    {
      hide Core, PruneReaders, Pruned, WithoutDead, DeadHolds;
      PruneReadersOk(t, now, path);
      PrunedCore(t, PruneReaders(t, now, path), now);
      ReadersPruned(t, path, now);
      live := PruneDeadReadOwners(path);
      NoMembers(t.rd, path);
      if live == [] { RemoveDescendantIndexes(Read, path); }
    }

    method FindDescendantReadConflict(owner: string, ns: string, key: string) returns (o: Option<AcquireOutcome>)
      requires Core(t)
      modifies this
      ensures (o, t) == FindDescendantRead(old(t), now, owner, ns, key, SortedStrings(MembersAt(old(t).rddesc, key)))
      ensures Core(t)
    {
      hide Core, PruneReaders, IndexPairs, Pruned, HasMember;
      var cs := SortedStrings(MembersAt(t.rddesc, key));
      for i := 0 to |cs|
        invariant Core(t)
        invariant FindDescendantRead(t, now, owner, ns, key, cs[i..]) == FindDescendantRead(old(t), now, owner, ns, key, cs)
      {
        var c := cs[i];
        assert cs[i..][0] == c && cs[i..][1..] == cs[i + 1..];
        var owners := PruneReadersAndIndex(c);
        if owners == [] {
          NoReadPairs(t, key, c);
          t := t.(rddesc := t.rddesc - {(key, c)});
          RemoveDescendantIndexes(Read, c);
        } else {
          var foreign := FirstForeign(owners, owner);
          if foreign.Some? { return Some(Conflict(PublicPath(ns, c), foreign.value, 0, DescendantReadLocked)); }
        }
      }
      return None;
    }

    // --- validation ---

    method ValidateNewAncestors(owner: string, ns: string, key: string) returns (o: Option<AcquireOutcome>)
      requires Core(t)
      modifies this
      ensures (o, t) == ValidateAncestors(old(t), now, owner, ns, GetAncestors(key))
      ensures Core(t)
    {
      hide Core, PruneWriter, Pruned, GetAncestors;
      var ancs := CollectAncestors(key);
      for i := 0 to |ancs|
        invariant Core(t)
        invariant ValidateAncestors(t, now, owner, ns, ancs[i..]) == ValidateAncestors(old(t), now, owner, ns, ancs)
      {
        var a := ancs[i];
        assert ancs[i..][0] == a && ancs[i..][1..] == ancs[i + 1..];
        PruneWriterOk(t, now, a);
        PrunedCore(t, PruneWriter(t, now, a), now);
        var live := GetLiveWriteOwner(a);
        if live.Some? && live.value != owner && t.HoldAlgorithm(Hold(live.value, Write, a)).Recursive() {
          return Some(Conflict(PublicPath(ns, a), live.value, 0, AncestorLocked));
        }
      }
      return None;
    }

    method ValidateNewWriteLock(owner: string, token: int, ns: string, algorithm: LockAlgorithm, path: string, sameOwner: bool)
      returns (o: Option<AcquireOutcome>)
      requires Core(t)
      modifies this
      ensures (o, t) == ValidateNewWrite(old(t), now, owner, token, ns, algorithm, path, sameOwner)
      ensures Core(t)
    {
      hide Core, PruneReaders, ScopedPath, FindDescendantWrite, FindDescendantRead, MembersAt, HasMember;
      var key := ScopedPath(ns, path);
      var readers := PruneReadersAndIndex(key);
      var foreign := FirstForeign(readers, owner);
      if foreign.Some? { return Some(Conflict(path, foreign.value, 0, ReadLocked)); }
      if algorithm.Recursive() {
        o := FindDescendantWriteConflict(owner, ns, key);
        if o.Some? { return; }
        o := FindDescendantReadConflict(owner, ns, key);
        if o.Some? { return; }
      }
      if key in t.fence && (t.fence[key] > token || (t.fence[key] == token && !sameOwner)) {
        return Some(Conflict(path, "", t.fence[key], StaleFencingToken));
      }
      return None;
    }

    method ValidateNewLock(owner: string, token: int, ns: string, algorithm: LockAlgorithm, req: LockReq)
      returns (o: Option<AcquireOutcome>)
      requires Core(t)
      modifies this
      ensures (o, t) == ValidateNew(old(t), now, owner, token, ns, algorithm, req)
      ensures Core(t)
    {
      hide Core, PruneWriter, PruneSemaphore, ScopedPath, GetAncestors, ValidateAncestors, ValidateNewWrite, MembersAt, Pruned;
      var key := ScopedPath(ns, req.path);
      if !algorithm.AllowsMode(req.mode) { return Some(Conflict(req.path, "", 0, ReadLocksDisabled)); }
      o := ValidateNewAncestors(owner, ns, key);
      if o.Some? { return; }
      if algorithm.Semaphore? {
        if req.permits == 0 { return Some(Conflict(req.path, "", 0, InvalidPermits)); }
        if key in t.cap && t.cap[key] != req.permits { return Some(Conflict(req.path, "", t.cap[key], InvalidPermits)); }
        if (key, owner) !in t.sem {
          PruneSemaphoreOk(t, now, key);
          PrunedCore(t, PruneSemaphore(t, now, key), now);
          var holders := PruneDeadSemaphoreOwners(key);
          if |holders| >= req.permits { return Some(Conflict(req.path, holders[0], 0, SemaphoreFull)); }
        }
        return None;
      }
      PruneWriterOk(t, now, key);
      PrunedCore(t, PruneWriter(t, now, key), now);
      var writer := GetLiveWriteOwner(key);
      if writer.Some? && writer.value != owner { return Some(Conflict(req.path, writer.value, 0, WriteLocked)); }
      if req.mode == Write {
        o := ValidateNewWriteLock(owner, token, ns, algorithm, req.path, writer.Some?);
      }
    }

    method ValidateAcquire(owner: string, token: int, ns: string, algorithm: LockAlgorithm, reqs: seq<LockReq>)
      returns (o: Option<AcquireOutcome>)
      requires Core(t)
      modifies this
      ensures (o, t) == ValidateAll(old(t), now, owner, token, ns, algorithm, reqs)
      ensures Core(t)
    {
      hide Core, ValidateNew, ValidateHeld;
      for i := 0 to |reqs|
        invariant Core(t)
        invariant ValidateAll(t, now, owner, token, ns, algorithm, reqs[i..]) ==
                  ValidateAll(old(t), now, owner, token, ns, algorithm, reqs)
      {
        assert reqs[i..][0] == reqs[i] && reqs[i..][1..] == reqs[i + 1..];
        if reqs[i].state == Held {
          o := ValidateHeld(t, owner, token, ns, reqs[i]);
        } else {
          o := ValidateNewLock(owner, token, ns, algorithm, reqs[i]);
        }
        if o.Some? { return; }
      }
      return None;
    }

    // --- execution ---

    method ApplyWriteAcquire(owner: string, token: int, ns: string, req: LockReq, algorithm: LockAlgorithm)
      returns (o: Option<AcquireOutcome>)
      modifies this
      ensures (o, t) == ApplyWrite(old(t), owner, token, ns, req, algorithm)
    {
      hide ScopedPath, IndexPairs;
      var key := ScopedPath(ns, req.path);
      if req.state == New && key in t.wr && t.wr[key] != owner {
        return Some(Conflict(req.path, t.wr[key], 0, WriteLocked));
      }
      t := t.(wr := t.wr[key := owner]);
      t := t.(fence := t.fence[key := token]);
      AddDescendantIndexes(Write, key);
      t := RecordHold(t, owner, ns, req, algorithm);
      return None;
    }

    method ApplyAcquire(owner: string, token: int, ns: string, algorithm: LockAlgorithm, req: LockReq)
      returns (o: Option<AcquireOutcome>)
      modifies this
      ensures (o, t) == ApplyReq(old(t), owner, token, ns, algorithm, req)
    {
      hide ScopedPath, IndexPairs, ApplyWrite;
      var key := ScopedPath(ns, req.path);
      var held := if req.state == Held then t.HoldAlgorithm(Hold(owner, req.mode, key)) else algorithm;
      if held.Semaphore? {
        if req.state == New {
          if key in t.cap {
            if t.cap[key] != req.permits { return Some(Conflict(req.path, "", t.cap[key], InvalidPermits)); }
          } else {
            t := t.(cap := t.cap[key := req.permits]);
          }
        }
        t := t.(sem := t.sem + {(key, owner)});
        t := RecordHold(t, owner, ns, req, held);
        return None;
      } else if req.mode == Write {
        o := ApplyWriteAcquire(owner, token, ns, req, held);
      } else {
        t := t.(rd := t.rd + {(key, owner)});
        AddDescendantIndexes(Read, key);
        t := RecordHold(t, owner, ns, req, held);
        return None;
      }
    }

    method ApplyRequests(owner: string, token: int, ns: string, algorithm: LockAlgorithm, reqs: seq<LockReq>)
      returns (o: Option<AcquireOutcome>)
      modifies this
      ensures (o, t) == ApplyAll(old(t), owner, token, ns, algorithm, reqs)
    {
      hide ApplyReq;
      for i := 0 to |reqs|
        invariant ApplyAll(t, owner, token, ns, algorithm, reqs[i..]) == ApplyAll(old(t), owner, token, ns, algorithm, reqs)
      {
        assert reqs[i..][0] == reqs[i] && reqs[i..][1..] == reqs[i + 1..];
        o := ApplyAcquire(owner, token, ns, algorithm, reqs[i]);
        if o.Some? { return; }
      }
      return None;
    }

    // --- release ---

    /** Release the lock state behind one hold. */
    method ReleaseHold(owner: string, mode: Mode, key: string)
      requires Core(t)
      modifies this
      ensures t == Drop(old(t), {Hold(owner, mode, key)})
      ensures Core(t)
    {
      hide Core, Drop, HasMember;
      var h := Hold(owner, mode, key);
      DropCore(t, {h});
      ReleasedHold(t, h);
      if mode == Write && t.HoldAlgorithm(h).Semaphore? {
        t := t.(sem := t.sem - {(key, owner)});
        t := t.(alg := t.alg - {h});
      } else if mode == Write {
        if key in t.wr && t.wr[key] == owner {
          t := t.(wr := t.wr - {key});
          t := t.(alg := t.alg - {h});
          RemoveDescendantIndexes(Write, key);
        }
      } else {
        t := t.(rd := t.rd - {(key, owner)});
        t := t.(alg := t.alg - {h});
        if !HasMember(t.rd, key) { RemoveDescendantIndexes(Read, key); }
      }
    }

    method ReleaseRequests(ns: string, owner: string, reqs: seq<RelReq>)
      requires Core(t)
      modifies this
      ensures t == ReleaseEach(old(t), ns, owner, reqs) && Core(t)
    {
      hide Core, Drop, ScopedPath;
      for i := 0 to |reqs|
        invariant Core(t)
        invariant ReleaseEach(t, ns, owner, reqs[i..]) == ReleaseEach(old(t), ns, owner, reqs)
      {
        assert reqs[i..][0] == reqs[i] && reqs[i..][1..] == reqs[i + 1..];
        var member := Member(reqs[i].mode, ns, reqs[i].path);
        CoreWithOwn(t, t.own - {(owner, member)});
        t := t.(own := t.own - {(owner, member)});
        ReleaseHold(owner, reqs[i].mode, ScopedPath(ns, reqs[i].path));
      }
    }

    method ReleaseLocks(ns: string, owner: string, reqs: seq<RelReq>)
      requires Core(t)
      modifies this
      ensures t == Release(old(t), ns, owner, reqs)
    {
      ReleaseRequests(ns, owner, reqs);
      if forall e :: e in t.own ==> e.0 != owner { t := t.(alive := t.alive - {owner}); }
    }

    /** One page of an owner's hold set from a cursor: the scan counts members and stops at the first one past the page. */
    method HoldSetPage(owner: string, cursor: Option<Member>, page: nat) returns (members: seq<Member>, next: Option<Member>)
      ensures IsPage(t.own, owner, cursor, page, members, next)
    {
      hide IsPage, MembersFrom, Lists;
      var all := MembersFrom(t.own, owner, cursor);
      MembersListed(t.own, owner, cursor);
      members := [];
      for i := 0 to |all|
        invariant i <= page && members == all[..i]
      {
        if i >= page {
          CutPage(t.own, owner, cursor, page, all);
          return members, Some(all[i]);
        }
        members := members + [all[i]];
      }
      assert all[..|all|] == all;
      WholePage(t.own, owner, cursor, page, all);
      return members, None;
    }

    /** Walks the hold set page by page, deleting as it goes. */
    method ReleaseOwnerWide(owner: string, page: nat)
      requires Core(t) && OwnCovers(t) && page > 0
      modifies this
      ensures t == ReleaseOwner(old(t), owner)
    {
      hide Core, Drop, OwnCovers, Ascending, HoldsOf, Walked, OwnPairs, AllAtOrAfter, IsPage, ReleaseOwner, ScopedPath;
      var cursor: Option<Member> := None;
      ghost var done: set<Member> := {};
      Nothing(t, owner);
      Everything(t.own, owner);
      var more := true;
      while more
        invariant Core(t) && Walked(old(t), t, owner, done)
        invariant more ==> AllAtOrAfter(t.own, owner, cursor)
        invariant !more ==> HoldsNothing(t, owner)
        decreases more, |HoldSet(t.own, owner)|
      {
        ghost var before := HoldSet(t.own, owner);
        var members, next := HoldSetPage(owner, cursor, page);
        assert forall m :: m in members ==> (owner, m) in t.own by { PageOwned(t.own, owner, cursor, page, members, next); }
        ghost var start := t;
        NoPairs(t.own, owner);
        assert members[..0] == [];
        for i := 0 to |members|
          invariant Core(t) && Walked(old(t), t, owner, done)
          invariant t.own == start.own - OwnPairs(owner, members[..i])
        {
          var item := members[i];
          ghost var s := t;
          ReleaseHold(owner, item.mode, item.Key());
          SameOwn(s, owner, item);
          CoreWithOwn(t, t.own - {(owner, item)});
          t := t.(own := t.own - {(owner, item)});
          WalkedStep(old(t), s, t, owner, done, item);
          done := done + {item};
          OnePair(start.own, owner, members, i);
        }
        assert members[..|members|] == members;
        PageDone(start.own, t.own, owner, cursor, members, next, page);
        match next
        case None => more := false;
        case Some(c) => cursor := Some(c);
      }
      WalkedAll(old(t), t, owner, done);
      t := t.(alive := t.alive - {owner});
    }

    // --- the public primitives ---

    /** Acquire, all checks and updates in order; `pol` is what the invariant is stated against. */
    method AcquireInNamespace(ns: string, algorithm: LockAlgorithm, args: AcquireArgs, ghost pol: Policies)
      returns (o: AcquireOutcome)
      requires Good(t, pol) && NoSep(ns) && algorithm == pol.InForce(ns)
      modifies this
      ensures (o, t) == Acquire(old(t), now, ns, algorithm, args)
      ensures Good(t, pol)
      ensures o.Ok? ==> o.token == if args.token > 0 && (args.requests != [] || args.releases != []) then args.token else 0
      ensures o.Ok? && args.token > 0 && !algorithm.Semaphore? ==> forall p :: KeepsWrite(ns, args, p) ==> FencedBy(t, ns, args.owner, o.token, p)
    {
      if Acquire(t, now, ns, algorithm, args).0.Ok? { AnswersToken(t, pol, now, ns, algorithm, args); }
      hide Core, KeepsWrite, FencedBy, ValidateAll, ApplyAll, ReleaseOwner, Release, RefreshLease, OneAlgorithm, Exclusive, OwnCovers, SemaphoreBounded,
           Fenced, LeasesFiled, Pruned, Onward, Solid;
      AcquireGood(t, pol, now, ns, algorithm, args);
      var owner := args.owner;
      if args.requests == [] && args.releases == [] { return Ok(0); }
      var hasHeld := exists r :: r in args.requests && r.state == Held;
      var alive := t.Alive(owner, now);
      if hasHeld && !alive { return Lost("", MissingAlive); }
      if !hasHeld && !alive && args.requests != [] {
        ReleaseOwnerGood(t, pol, owner);
        ReleaseOwnerWide(owner, RELEASE_PAGE);
      }
      var refused := ValidateAcquire(owner, args.token, ns, algorithm, args.requests);
      if refused.Some? { return refused.value; }
      CoreThroughApply(old(t), pol, now, ns, algorithm, args, t);
      var failed := ApplyRequests(owner, args.token, ns, algorithm, args.requests);
      if failed.Some? { return failed.value; }
      RefreshCore(t, now, owner, args.ttl);
      t := RefreshLease(t, now, owner, args.ttl);
      if args.releases != [] { ReleaseLocks(ns, owner, args.releases); }
      return Ok(if args.token > 0 then args.token else 0);
    }

    method RenewLease(owner: string, ttl: Time) returns (o: RenewOutcome)
      modifies this
      ensures (o, t) == Renew(old(t), now, owner, ttl)
    {
      if !t.Alive(owner, now) { return RenewLost(MissingAlive); }
      if HoldsNothing(t, owner) { return RenewLost(MissingOwnerSet); }
      t := RefreshLease(t, now, owner, ttl);
      return Renewed;
    }

    method AssertFence(ns: string, owner: string, token: int, paths: seq<string>) returns (o: AssertOutcome)
      ensures o == AssertFencing(t, now, ns, owner, token, paths)
      ensures o.AssertOk? <==>
              forall p :: p in paths ==>
                var key := ScopedPath(ns, p);
                t.Writes(owner, key) && t.Alive(owner, now) && key in t.fence && t.fence[key] == token
    {
      hide ScopedPath;
      if paths != [] && !t.Alive(owner, now) {
        assert paths[0] in paths;
        return AssertFail(paths[0], StaleOwner);
      }
      for i := 0 to |paths|
        invariant AssertPaths(t, ns, owner, token, paths[i..]) == AssertPaths(t, ns, owner, token, paths)
        invariant forall p :: p in paths[..i] ==>
                    var key := ScopedPath(ns, p);
                    t.Writes(owner, key) && key in t.fence && t.fence[key] == token
      {
        assert paths[i..][0] == paths[i] && paths[i..][1..] == paths[i + 1..];
        assert paths[..i + 1] == paths[..i] + [paths[i]];
        var key := ScopedPath(ns, paths[i]);
        if !t.Writes(owner, key) { return AssertFail(paths[i], StaleOwner); }
        if key !in t.fence || t.fence[key] != token { return AssertFail(paths[i], StaleFencingToken); }
      }
      assert paths[..|paths|] == paths;
      return AssertOk;
    }
  }
}

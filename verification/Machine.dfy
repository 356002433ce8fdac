/**
 The state machine in its own form: each command mutates a transaction over the
 group, which commits as a whole or is discarded.
 */
module Machine {
  import opened Ordering
  import opened Paths
  import opened Roots
  import opened Expiry
  import opened LockSpec
  import opened LockInvariant
  import opened ApplyProof
  import opened EngineProof
  import opened Engine
  import opened QueueSpec
  import opened QueueProof
  import opened WaitQueue
  import opened MachineSpec
  import opened MachineProof
  import opened ClearProof
  import opened GcProof
  import opened Runs

  lemma ClearKeepsRows(g: Group, now: Time, ns: string, legacy: bool)
    ensures ClearNamespace(g, now, ns, legacy).1.rows == g.rows
  {
    hide ClearHolds, ClearQueue;
  }

  // --- key orders of the scans ---

  predicate OwnLess(a: (string, Member), b: (string, Member)) { StrLess(a.0, b.0) || (a.0 == b.0 && MemberLess(a.1, b.1)) }

  lemma OwnLessTotal()
    ensures StrictTotal(OwnLess)
  {
    hide StrLess, MemberLess;
    StrLessTotal();
    MemberLessTotal();
    forall a, b: (string, Member) | a != b ensures OwnLess(a, b) || OwnLess(b, a) { assert a.0 != b.0 || a.1 != b.1; }
    forall a, b, c | OwnLess(a, b) && OwnLess(b, c) ensures OwnLess(a, c) { }
  }

  function SortedOwn(own: set<(string, Member)>): (r: seq<(string, Member)>)
    ensures forall x :: x in r <==> x in own
  {
    OwnLessTotal();
    Sorted(own, OwnLess)
  }

  predicate PairLess(a: (string, string), b: (string, string)) { StrLess(a.0, b.0) || (a.0 == b.0 && StrLess(a.1, b.1)) }

  lemma PairLessTotal()
    ensures StrictTotal(PairLess)
  {
    hide StrLess;
    StrLessTotal();
    forall a, b: (string, string) | a != b ensures PairLess(a, b) || PairLess(b, a) { assert a.0 != b.0 || a.1 != b.1; }
    forall a, b, c | PairLess(a, b) && PairLess(b, c) ensures PairLess(a, c) { }
  }

  function SortedPairs(s: set<(string, string)>): (r: seq<(string, string)>)
    ensures forall x :: x in r <==> x in s
  {
    PairLessTotal();
    Sorted(s, PairLess)
  }

  /** Hold-set members grouped by namespace and owner. */
  type Grouped = map<(string, string), seq<RelReq>>

  ghost predicate Groups(grouped: Grouped, gone: set<(string, Member)>) {
    && (forall k :: k in grouped ==> grouped[k] != [])
    && (forall k, r :: k in grouped && r in grouped[k] ==> (k.1, Member(r.mode, k.0, r.path)) in gone)
    && (forall e :: e in gone ==> (e.1.ns, e.0) in grouped && RelReq(e.1.path, e.1.mode) in grouped[(e.1.ns, e.0)])
  }

  function AddHold(grouped: Grouped, owner: string, m: Member): (r: Grouped) {
    var k := (m.ns, owner);
    grouped[k := (if k in grouped then grouped[k] else []) + [RelReq(m.path, m.mode)]]
  }

  lemma AddHoldGroups(grouped: Grouped, gone: set<(string, Member)>, owner: string, m: Member)
    requires Groups(grouped, gone)
    ensures Groups(AddHold(grouped, owner, m), gone + {(owner, m)})
  {
  }

  lemma NoGroups()
    ensures Groups(map[], {})
  {
  }

  ghost function FirstGone(
    all: seq<(string, Member)>, i: nat, ns: string, legacy: bool, preserved: set<string>): set<(string, Member)>
    requires i <= |all|
  {
    set e | e in all[..i] && MemberCleared(e.1, ns, legacy, preserved)
  }

  lemma FirstGoneNone(all: seq<(string, Member)>, ns: string, legacy: bool, preserved: set<string>)
    ensures FirstGone(all, 0, ns, legacy, preserved) == {}
  {
  }

  lemma FirstGoneMore(all: seq<(string, Member)>, i: nat, ns: string, legacy: bool, preserved: set<string>)
    requires i < |all|
    ensures MemberCleared(all[i].1, ns, legacy, preserved) ==>
              FirstGone(all, i + 1, ns, legacy, preserved) == FirstGone(all, i, ns, legacy, preserved) + {(all[i].0, all[i].1)}
    ensures !MemberCleared(all[i].1, ns, legacy, preserved) ==>
              FirstGone(all, i + 1, ns, legacy, preserved) == FirstGone(all, i, ns, legacy, preserved)
  {
    hide MemberCleared;
    assert all[..i + 1] == all[..i] + [all[i]];
    assert (all[i].0, all[i].1) == all[i];
  }

  lemma FirstGoneAll(own: set<(string, Member)>, ns: string, legacy: bool, preserved: set<string>)
    ensures var all := SortedOwn(own);
            FirstGone(all, |all|, ns, legacy, preserved) == GoneMembers(own, ns, legacy, preserved)
  {
    hide MemberCleared;
    var all := SortedOwn(own);
    assert all[..|all|] == all;
  }

  /** The members behind the first groups. */
  ghost function Behalf(grouped: Grouped, keys: seq<(string, string)>): set<(string, Member)> {
    set k, r | k in keys && k in grouped && r in grouped[k] :: (k.1, Member(r.mode, k.0, r.path))
  }

  lemma BehalfMore(grouped: Grouped, keys: seq<(string, string)>, i: nat)
    requires i < |keys| && keys[i] in grouped
    ensures Behalf(grouped, keys[..i + 1]) == Behalf(grouped, keys[..i]) + MembersOf(keys[i].0, keys[i].1, grouped[keys[i]])
  {
    assert keys[..i + 1] == keys[..i] + [keys[i]];
  }

  lemma BehalfAll(grouped: Grouped, keys: seq<(string, string)>, gone: set<(string, Member)>)
    requires Groups(grouped, gone) && forall k :: k in keys <==> k in grouped
    ensures Behalf(grouped, keys) == gone
  {
    forall e | e in gone ensures e in Behalf(grouped, keys) {
      var k, r := (e.1.ns, e.0), RelReq(e.1.path, e.1.mode);
      assert k in keys && r in grouped[k] && e == (k.1, Member(r.mode, k.0, r.path));
    }
  }

  class GroupTxn {
    var w: Group
    const now: Time

    constructor (g: Group, now: Time)
      ensures w == g && this.now == now
    {
      w := g;
      this.now := now;
    }

    // --- grant sweeps ---

    method SweepGrants(ghost fallback: LockAlgorithm) returns (notify: seq<string>)
      requires Sound(w, now, fallback)
      modifies this
      ensures (notify, w) == SweepAllOf(old(w), now)
    {
      hide Good, QueueGood, GrantSweep;
      var lt := new LockTxn(w.t, now);
      var qt := new QueueTxn(w.q, now);
      notify := qt.SweepAll(lt, PoliciesOf(w, fallback));
      w := w.(t := lt.t, q := qt.q);
    }

    method SweepGrantsForPaths(freed: seq<string>, ghost fallback: LockAlgorithm) returns (notify: seq<string>)
      requires Sound(w, now, fallback)
      modifies this
      ensures (notify, w) == SweepPathsOf(old(w), now, freed)
    {
      hide Good, QueueGood, GrantSweepForPaths;
      var lt := new LockTxn(w.t, now);
      var qt := new QueueTxn(w.q, now);
      notify := qt.SweepFreed(lt, freed, PoliciesOf(w, fallback));
      w := w.(t := lt.t, q := qt.q);
    }

    method ScopedFreedPaths(ns: string, reqs: seq<RelReq>) returns (freed: seq<string>)
      ensures freed == FreedPaths(ns, reqs)
    {
      hide ScopedPath;
      freed := [];
      for i := 0 to |reqs|
        invariant freed == FreedPaths(ns, reqs[..i])
      {
        assert reqs[..i + 1][..i] == reqs[..i];
        var p := ScopedPath(ns, reqs[i].path);
        if p !in freed { freed := freed + [p]; }
      }
      assert reqs[..|reqs|] == reqs;
    }

    // --- acquire ---

    method MintFenceIfNeeded(ns: string, args: AcquireArgs, alg: LockAlgorithm) returns (minted: AcquireArgs)
      modifies this
      ensures (minted, w) == MintFence(old(w), ns, args, alg)
    {
      hide ScopedPath;
      if args.token > 0 || alg.Semaphore? { return args; }
      if !exists r :: r in args.requests && r.mode == Write { return args; }
      var seen := w.counter;
      assert args.requests[0..] == args.requests;
      for i := 0 to |args.requests|
        invariant w == old(w)
        invariant MaxFence(w.t, ns, args.requests[i..], seen) == MaxFence(w.t, ns, args.requests, w.counter)
      {
        var req := args.requests[i];
        assert args.requests[i..][0] == req && args.requests[i..][1..] == args.requests[i + 1..];
        if req.mode == Write {
          var key := ScopedPath(ns, req.path);
          if key in w.t.fence && w.t.fence[key] > seen { seen := w.t.fence[key]; }
        }
      }
      var token := SaturatingNext(seen);
      w := w.(counter := token);
      return args.(token := token);
    }

    method ParkAcquire(ns: string, args: AcquireArgs, policy: LockPolicy, path: string, owner: string, reason: Reason)
      returns (response: Response)
      modifies this
      ensures (response, w) == Park(old(w), now, ns, args, policy, path, owner, reason)
    {
      hide Enqueue;
      var qt := new QueueTxn(w.q, now);
      var s := qt.EnqueueEntry(ns, args, policy);
      if s.None? { return Rejected(ScanLimit); }
      w := w.(q := qt.q);
      return Acquired(Enqueued(path, owner, reason, args.token));
    }

    method SettleAcquire(ns: string, args: AcquireArgs, wasAlive: bool, token: int, ghost fallback: LockAlgorithm)
      returns (response: Response)
      requires Sound(w, now, fallback)
      modifies this
      ensures (response, w) == Settle(old(w), now, ns, args, wasAlive, token)
    {
      hide Sound, Dequeue, SweepAllOf, SweepPathsOf, FreedPaths, Advances, SameBooks;
      DequeueMoves(w, now, fallback, args.owner);
      var qt := new QueueTxn(w.q, now);
      qt.DequeueOwner(args.owner);
      w := w.(q := qt.q);
      var freed := ScopedFreedPaths(ns, args.releases);
      var owners;
      if !wasAlive && args.requests != [] {
        owners := SweepGrants(fallback);
      } else {
        owners := SweepGrantsForPaths(freed, fallback);
      }
      return if owners == [] then Acquired(Ok(token)) else AcquiredGranted(Ok(token), owners);
    }

    method ExecuteMintedAcquire(ns: string, args: AcquireArgs, policy: LockPolicy, ghost fallback: LockAlgorithm)
      returns (response: Response)
      requires Sound(w, now, fallback) && NoSep(ns) && policy.algorithm == PoliciesOf(w, fallback).InForce(ns)
      modifies this
      ensures (response, w) == ExecuteMinted(old(w), now, ns, args, policy)
    {
      hide Good, QueueGood, Acquire, NoSep, BlockedByEarlier, Park, Settle, PublicPath, Advances, SameBooks;
      ghost var pol := PoliciesOf(w, fallback);
      var wasAlive := w.t.Alive(args.owner, now);
      var qt := new QueueTxn(w.q, now);
      var blocker := qt.BlockedByEarlierIndexed(w.t, ns, args, policy.algorithm, pol);
      if blocker.Some? {
        response := ParkAcquire(ns, args, policy, PublicPath(blocker.value.0.ns, blocker.value.1), blocker.value.0.owner, Queued);
        return;
      }
      AcquireMoves(w, now, fallback, ns, args, policy.algorithm);
      var lt := new LockTxn(w.t, now);
      var o := lt.AcquireInNamespace(ns, policy.algorithm, args, pol);
      w := w.(t := lt.t);
      match o
      case Ok(token) => response := SettleAcquire(ns, args, wasAlive, token, fallback);
      case Conflict(path, owner, _, reason) =>
        if reason.IsQueueable() { response := ParkAcquire(ns, args, policy, path, owner, reason); }
        else { response := Acquired(o); }
      case _ => response := Acquired(o);
    }

    /** The first path whose explicit root is not the stamped namespace. */
    method RouteIsStale(ns: string, args: AcquireArgs) returns (stale: bool)
      ensures stale == StaleRoute(w.rows, ns, args)
      ensures stale <==> Misrouted(w.rows.Keys, ns, args)
    {
      MisroutedIff(w.rows, ns, args);
      hide RootOf, Misrouted;
      for i := 0 to |args.requests|
        invariant forall r :: r in args.requests[..i] ==> var root := RootOf(w.rows.Keys, r.path); !(root.Some? && root.value != ns)
      {
        assert args.requests[..i + 1] == args.requests[..i] + [args.requests[i]];
        var root := RootOf(w.rows.Keys, args.requests[i].path);
        if root.Some? && root.value != ns { assert args.requests[i] in args.requests; return true; }
      }
      for i := 0 to |args.releases|
        invariant forall r :: r in args.releases[..i] ==> var root := RootOf(w.rows.Keys, r.path); !(root.Some? && root.value != ns)
      {
        assert args.releases[..i + 1] == args.releases[..i] + [args.releases[i]];
        var root := RootOf(w.rows.Keys, args.releases[i].path);
        if root.Some? && root.value != ns { assert args.releases[i] in args.releases; return true; }
      }
      assert args.requests[..|args.requests|] == args.requests && args.releases[..|args.releases|] == args.releases;
      return false;
    }

    // --- clearing a namespace ---

    method CollectHolds(ns: string, legacy: bool, preserved: set<string>) returns (grouped: Grouped)
      ensures Groups(grouped, GoneMembers(w.t.own, ns, legacy, preserved))
    {
      hide Groups, MemberCleared, AddHold, FirstGone, SortedOwn, GoneMembers;
      var all := SortedOwn(w.t.own);
      grouped := map[];
      NoGroups();
      FirstGoneNone(all, ns, legacy, preserved);
      for i := 0 to |all|
        invariant Groups(grouped, FirstGone(all, i, ns, legacy, preserved))
      {
        FirstGoneMore(all, i, ns, legacy, preserved);
        if MemberCleared(all[i].1, ns, legacy, preserved) {
          AddHoldGroups(grouped, FirstGone(all, i, ns, legacy, preserved), all[i].0, all[i].1);
          grouped := AddHold(grouped, all[i].0, all[i].1);
        }
      }
      FirstGoneAll(w.t.own, ns, legacy, preserved);
    }

    method ReleaseGroups(grouped: Grouped, ghost gone: set<(string, Member)>, ghost pol: Policies)
      requires Groups(grouped, gone) && Good(w.t, pol)
      modifies this
      ensures w == old(w).(t := ClearHolds(old(w).t, gone))
    {
      hide Good, Groups, Behalf, ClearHolds, Release, MembersOf, Core, Onward, SortedPairs;
      var keys := SortedPairs(grouped.Keys);
      GoodCore(w.t, pol);
      ClearNone(w.t);
      assert Behalf(grouped, keys[..0]) == {} by { NoBehalf(grouped, keys); }
      for i := 0 to |keys|
        invariant Good(w.t, pol)
        invariant w == old(w).(t := ClearHolds(old(w).t, Behalf(grouped, keys[..i])))
      {
        var k := keys[i];
        assert k in keys;
        assert grouped[k] != [] by { GroupFull(grouped, gone, k); }
        BehalfMore(grouped, keys, i);
        GoodCore(w.t, pol);
        ReleaseClears(w.t, k.0, k.1, grouped[k]);
        ReleaseGood(w.t, pol, k.0, k.1, grouped[k]);
        ClearTwice(old(w).t, Behalf(grouped, keys[..i]), MembersOf(k.0, k.1, grouped[k]));
        var lt := new LockTxn(w.t, now);
        lt.ReleaseLocks(k.0, k.1, grouped[k]);
        w := w.(t := lt.t);
      }
      assert keys[..|keys|] == keys;
      BehalfAll(grouped, keys, gone);
    }

    method ClearWaiters(es: seq<Entry>)
      modifies this
      ensures w == old(w).(q := ClearQueue(old(w).q, now, es))
    {
      hide Dequeue;
      assert es[0..] == es;
      for i := 0 to |es|
        invariant w == old(w).(q := w.q)
        invariant ClearQueue(w.q, now, es[i..]) == ClearQueue(old(w).q, now, es)
      {
        assert es[i..][0] == es[i] && es[i..][1..] == es[i + 1..];
        var qt := new QueueTxn(w.q, now);
        qt.DequeueOwner(es[i].owner);
        w := w.(q := qt.q);
      }
    }

    method ClearNamespaceOf(ns: string, legacy: bool, ghost pol: Policies) returns (affected: seq<string>)
      requires Good(w.t, pol)
      modifies this
      ensures (affected, w) == ClearNamespace(old(w), now, ns, legacy)
    {
      hide Good, Groups, ClearHolds, ClearQueue, GoneMembers, EntryCleared, LiveEntries, NamespaceContains;
      var preserved := Preserved(w.rows, ns, legacy);
      ghost var gone := GoneMembers(w.t.own, ns, legacy, preserved);
      var grouped := CollectHolds(ns, legacy, preserved);
      ReleaseGroups(grouped, gone, pol);
      var es := ClearedEntries(LiveEntries(w.q, now), ns, legacy, preserved);
      ClearWaiters(es);
      GroupOwners(grouped, gone);
      return SortedStrings((set k | k in grouped :: k.1) + (set e | e in es :: e.owner));
    }

    method SetNamespacePolicy(ns: string, alg: LockAlgorithm, ghost pol: Policies) returns (response: Response)
      requires Good(w.t, pol)
      modifies this
      ensures (response, w) == SetPolicy(old(w), now, ns, alg)
      ensures var before := if ns in old(w).rows then old(w).rows[ns].epoch else 0;
              && ns in w.rows && w.rows[ns].algorithm == alg
              && (if ns in old(w).rows && old(w).rows[ns].algorithm == alg then w.rows[ns].epoch == before else before < U64_MAX ==> w.rows[ns].epoch > before)
    {
      hide Good, ClearNamespace;
      var explicit := ns in w.rows;
      var epoch := if explicit then w.rows[ns].epoch else 0;
      if explicit && w.rows[ns].algorithm == alg {
        w := w.(rows := w.rows[ns := LockPolicy(alg, epoch)]);
        return Unit;
      }
      w := w.(rows := w.rows[ns := LockPolicy(alg, SaturatingEpoch(epoch))]);
      ClearKeepsRows(w, now, ns, !explicit);
      var owners := ClearNamespaceOf(ns, !explicit, pol);
      return ClearedResponse(owners);
    }

    method DeleteNamespacePolicy(ns: string, ghost pol: Policies) returns (response: Response)
      requires Good(w.t, pol)
      modifies this
      ensures (response, w) == DeletePolicy(old(w), now, ns)
    {
      hide Good, ClearNamespace;
      var explicit := ns in w.rows;
      w := w.(rows := w.rows - {ns});
      if !explicit { return Unit; }
      var owners := ClearNamespaceOf(ns, false, pol);
      return ClearedResponse(owners);
    }

    // --- garbage collection ---

    /** The due slots from the cursor on, in key order, until the batch is full. */
    method CollectDue(batch: nat) returns (slots: seq<Slot>)
      ensures slots == BatchOf(w, now, batch)
    {
      hide DueSlots, SlotLess;
      var all := SortedSlots(DueSlots(w, now));
      slots := [];
      var more := true;
      while more && |slots| < |all|
        invariant |slots| <= |all| && slots == all[..|slots|]
        invariant more <==> |slots| == 0 || |slots| < batch
        invariant |slots| <= (if batch == 0 then 1 else batch)
        decreases |all| - |slots|
      {
        slots := slots + [all[|slots|]];
        more := |slots| < batch;
      }
    }

    method ReclaimRef(ref: Ref, ghost fallback: LockAlgorithm) returns (hit: bool)
      requires Kept(w, now, fallback)
      modifies this
      ensures (hit, w) == ReclaimRecord(old(w), now, ref)
    {
      hide QueueGood, SeenFiled, ReleaseOwner, ExpireEntry, Exclusive, OneAlgorithm, SemaphoreBounded, LeasesFiled, Fenced, Core, OwnCovers;
      match ref
      case AliveRef(o) =>
        hit := o in w.t.alive && Expired(w.t.alive[o], now);
        if hit {
          var lt := new LockTxn(w.t, now);
          lt.ReleaseOwnerWide(o, RELEASE_PAGE);
          w := w.(t := lt.t);
        }
      case EntryRef(s) =>
        hit := s in w.q.entries && Expired(w.q.entries[s].1, now);
        if hit {
          var qt := new QueueTxn(w.q, now);
          var _ := qt.ExpireStored(s);
          w := w.(q := qt.q);
        }
      case OwnerRef(o) =>
        hit := o in w.q.owners && Expired(w.q.owners[o].1, now);
        if hit { w := w.(q := w.q.(owners := w.q.owners - {o})); }
      case PathRef(p, s) =>
        hit := (p, s) in w.q.paths && Expired(w.q.paths[(p, s)], now);
        if hit { w := w.(q := w.q.(paths := w.q.paths - {(p, s)})); }
      case DedupeRef(c, s) =>
        hit := RequestId(c, s) in w.seen && Expired(w.seen[RequestId(c, s)].exp, now);
        if hit { w := w.(seen := w.seen - {RequestId(c, s)}); }
    }

    method ReclaimSlots(slots: seq<Slot>, ghost fallback: LockAlgorithm) returns (reclaimed: nat, mayUnblock: bool)
      requires Kept(w, now, fallback) && forall s :: s in slots ==> s.exp < now
      modifies this
      ensures (reclaimed, w) == Reclaim(old(w), now, slots)
      ensures mayUnblock == Unblocks(slots)
    {
      hide Kept, ReclaimRecord, Settled, Reclaim, Unblocks, DropSlot;
      reclaimed, mayUnblock := 0, false;
      assert slots[0..] == slots;
      UnblocksNone(slots);
      for i := 0 to |slots|
        invariant Kept(w, now, fallback)
        invariant var (n, g) := Reclaim(w, now, slots[i..]); Reclaim(old(w), now, slots) == (reclaimed + n, g)
        invariant mayUnblock == Unblocks(slots[..i])
      {
        var s := slots[i];
        assert s in slots && slots[i..][0] == s && slots[i..][1..] == slots[i + 1..];
        ReclaimStep(w, now, slots[i..]);
        UnblocksMore(slots, i);
        ReclaimRecordKept(w, now, fallback, s.ref);
        ghost var g1 := ReclaimRecord(w, now, s.ref).1;
        DropSlotKept(g1, now, fallback, s);
        mayUnblock := mayUnblock || !s.ref.DedupeRef?;
        var hit := ReclaimRef(s.ref, fallback);
        if hit { reclaimed := reclaimed + 1; }
        w := DropSlot(w, s);
      }
      ReclaimNone(w, now);
      assert slots[..|slots|] == slots;
    }

    method GcSweepOnce(batch: nat, ghost fallback: LockAlgorithm) returns (response: Response)
      requires Kept(w, now, fallback)
      modifies this
      ensures (response, w) == GcSweep(old(w), now, batch)
    {
      hide Kept, BatchOf, Reclaim, Spares, Reclaimed, SweepAllOf, Unblocks;
      AfterBatchKept(w, now, fallback, batch);
      BatchDue(w, now, batch);
      var slots := CollectDue(batch);
      var n, mayUnblock := ReclaimSlots(slots, fallback);
      if slots != [] { w := w.(cursor := Some(slots[|slots| - 1])); }
      var owners := [];
      if mayUnblock {
        KeptSound(w, now, fallback);
        owners := SweepGrants(fallback);
      }
      return GcDone(|slots|, n, owners);
    }

    // --- operations ---

    method ReleaseAndSweep(ns: string, owner: string, reqs: seq<RelReq>, ghost fallback: LockAlgorithm) returns (response: Response)
      requires Sound(w, now, fallback)
      modifies this
      ensures (response, w) == Execute(old(w), now, fallback, true, ReleaseOp(ns, owner, reqs))
    {
      hide Good, QueueGood, Release, SweepPathsOf, FreedPaths, Advances, SameBooks;
      ReleaseMoves(w, now, fallback, ns, owner, reqs);
      GoodCore(w.t, PoliciesOf(w, fallback));
      var lt := new LockTxn(w.t, now);
      lt.ReleaseLocks(ns, owner, reqs);
      w := w.(t := lt.t);
      var freed := ScopedFreedPaths(ns, reqs);
      var owners := SweepGrantsForPaths(freed, fallback);
      return GrantedResponse(owners);
    }

    method RemoveOwnerAndSweep(owner: string, ghost fallback: LockAlgorithm) returns (response: Response)
      requires Sound(w, now, fallback)
      modifies this
      ensures var (owners, g) := SweepAllOf(old(w).(t := ReleaseOwner(old(w).t, owner), q := Dequeue(old(w).q, now, owner)), now);
              response == GrantedResponse(owners) && w == g
    {
      hide Sound, ReleaseOwner, SweepAllOf, Dequeue, Advances, SameBooks;
      ReleaseOwnerMoves(w, now, fallback, owner);
      ghost var g1 := w.(t := ReleaseOwner(w.t, owner));
      DequeueMoves(g1, now, fallback, owner);
      SoundParts(w, now, fallback);
      var lt := new LockTxn(w.t, now);
      lt.ReleaseOwnerWide(owner, RELEASE_PAGE);
      var qt := new QueueTxn(w.q, now);
      qt.DequeueOwner(owner);
      w := w.(t := lt.t, q := qt.q);
      var owners := SweepGrants(fallback);
      return GrantedResponse(owners);
    }

    method ExecuteAcquireOp(ns: string, policy: LockPolicy, args: AcquireArgs, fallback: LockAlgorithm) returns (response: Response)
      requires Sound(w, now, fallback) && NoSep(ns)
      modifies this
      ensures (response, w) == Execute(old(w), now, fallback, true, AcquireOp(ns, policy, args))
    {
      hide Sound, StaleRoute, ExecuteMinted, MaxFence, NoSep;
      var stale := RouteIsStale(ns, args);
      if stale { return Rejected(RoutingStale); }
      if PoliciesOf(w, fallback).Record(ns) != policy { return Rejected(PolicyEpochStale); }
      ghost var g := w;
      var minted := MintFenceIfNeeded(ns, args, policy.algorithm);
      SoundFrame(g, w, now, fallback);
      response := ExecuteMintedAcquire(ns, minted, policy, fallback);
    }

    /** One operation; every acquire carries a request id. */
    method ExecuteOp(op: Op, identified: bool, fallback: LockAlgorithm) returns (response: Response)
      requires Kept(w, now, fallback) && (op.AcquireOp? ==> identified && NoSep(op.ns))
      modifies this
      ensures (response, w) == Execute(old(w), now, fallback, identified, op)
    {
      hide Good, QueueGood, SeenFiled, Release, ReleaseOwner, Dequeue, SweepAllOf, SweepPathsOf, FreedPaths, ExecuteAcquire, StaleRoute, GcSweep,
           Renew, SetPolicy, DeletePolicy, NoSep;
      match op
      case ReleaseOp(ns, owner, reqs) => response := ReleaseAndSweep(ns, owner, reqs, fallback);
      case ReleaseAllOp(owner) => response := RemoveOwnerAndSweep(owner, fallback);
      case ForceReleaseOp(victim) => response := RemoveOwnerAndSweep(victim, fallback);
      case RenewOp(owner, ttl) =>
        var lt := new LockTxn(w.t, now);
        var o := lt.RenewLease(owner, ttl);
        w := w.(t := lt.t);
        response := RenewDone(o);
      case GcSweepOp(batch) => response := GcSweepOnce(batch, fallback);
      case IncrFenceOp =>
        w := w.(counter := SaturatingNext(w.counter));
        response := Fence(w.counter);
      case NoopOp => response := Unit;
      case SetPolicyOp(ns, alg) => response := SetNamespacePolicy(ns, alg, PoliciesOf(w, fallback));
      case DeletePolicyOp(ns) => response := DeleteNamespacePolicy(ns, PoliciesOf(w, fallback));
      case AcquireOp(ns, policy, args) => response := ExecuteAcquireOp(ns, policy, args, fallback);
    }
  }

  /** One replica's copy of a group. */
  class GroupMachine {
    var g: Group
    const cfg: Config

    constructor (cfg: Config)
      ensures g == EMPTY_GROUP && this.cfg == cfg && Inv(g, cfg.fallback)
    {
      g := EMPTY_GROUP;
      this.cfg := cfg;
      EmptyInv(cfg.fallback);
    }

    /** Applies one log entry: clamp the clock, answer replays, execute, then commit or discard. */
    method ApplyCommand(cmd: Command) returns (response: Response)
      requires Inv(g, cfg.fallback) && Stamped(cmd)
      modifies this
      ensures (response, g) == Apply(cfg, old(g), cmd)
      ensures Inv(g, cfg.fallback)
    {
      hide Inv, Kept, Execute, Remember, Onward, NoSep;
      ApplyProgress(cfg, g, cmd);
      var now := if cmd.now >= g.clock then cmd.now else g.clock;
      if cmd.id.Some? && cmd.id.value in g.seen && !Expired(g.seen[cmd.id.value].exp, now) {
        var c := g.seen[cmd.id.value];
        if c.fingerprint != cfg.fingerprint(cmd.op) { return Rejected(IdempotencyMismatch); }
        return c.response;
      }
      KeptLater(g, now, cfg.fallback);
      var txn := new GroupTxn(g, now);
      response := txn.ExecuteOp(cmd.op, cmd.id.Some?, cfg.fallback);
      if response.Commits() {
        g := if cmd.id.Some? then Remember(txn.w, now, cmd.id.value, cfg.fingerprint(cmd.op), response) else txn.w;
      }
      if !cmd.op.NoopOp? { g := g.(clock := now); }
    }
  }

  lemma SoundParts(g: Group, now: Time, fallback: LockAlgorithm)
    requires Sound(g, now, fallback)
    ensures Core(g.t) && OwnCovers(g.t)
  {
  }

  lemma ReclaimStep(g: Group, now: Time, slots: seq<Slot>)
    requires slots != []
    ensures var (hit, g1) := ReclaimRecord(g, now, slots[0].ref);
            var (n, g2) := Reclaim(DropSlot(g1, slots[0]), now, slots[1..]);
            Reclaim(g, now, slots) == ((if hit then 1 else 0) + n, g2)
  {
    hide ReclaimRecord, DropSlot;
  }

  lemma ReclaimNone(g: Group, now: Time)
    ensures Reclaim(g, now, []) == (0, g)
  {
  }

  lemma UnblocksNone(slots: seq<Slot>)
    ensures !Unblocks(slots[..0])
  {
  }

  lemma UnblocksMore(slots: seq<Slot>, i: nat)
    requires i < |slots|
    ensures Unblocks(slots[..i + 1]) <==> Unblocks(slots[..i]) || !slots[i].ref.DedupeRef?
  {
    assert slots[..i + 1] == slots[..i] + [slots[i]];
  }

  lemma KeptSound(g: Group, now: Time, fallback: LockAlgorithm)
    requires Kept(g, now, fallback)
    ensures Sound(g, now, fallback)
  {
  }

  lemma NoBehalf(grouped: Grouped, keys: seq<(string, string)>)
    ensures Behalf(grouped, keys[..0]) == {}
  {
  }

  lemma GroupFull(grouped: Grouped, gone: set<(string, Member)>, k: (string, string))
    requires Groups(grouped, gone) && k in grouped
    ensures grouped[k] != []
  {
  }

  lemma GroupOwners(grouped: Grouped, gone: set<(string, Member)>)
    requires Groups(grouped, gone)
    ensures (set k | k in grouped :: k.1) == set e | e in gone :: e.0
  {
    var left, right := set k | k in grouped :: k.1, set e | e in gone :: e.0;
    forall o | o in left ensures o in right {
      var k :| k in grouped && k.1 == o;
      var r := grouped[k][0];
      assert r in grouped[k];
      var e := (k.1, Member(r.mode, k.0, r.path));
      assert e in gone && e.0 == o;
    }
    forall o | o in right ensures o in left {
      var e :| e in gone && e.0 == o;
      assert (e.1.ns, e.0) in grouped;
    }
  }
}

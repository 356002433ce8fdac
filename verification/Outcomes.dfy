/**
 What an acquire answers: the token it holds under when it is granted, and when it
 is refused, for which request, why, and because of whom.
 */
module Outcomes {
  import opened Paths
  import opened Expiry
  import opened LockSpec
  import opened LockInvariant
  import opened AcquireProof
  import opened ValidateProof
  import opened ApplyProof
  import opened EngineProof
  import opened Decision
  import opened AllOrNothing
  import opened AcquireDecision
  import opened AcquireFrame

  // --- the fencing assertion ---

  /** The owner writes the path under exactly this token. */
  predicate FencedBy(t: Tables, ns: string, owner: string, token: int, path: string) {
    var key := ScopedPath(ns, path);
    t.Writes(owner, key) && key in t.fence && t.fence[key] == token
  }

  lemma {:induction false} AssertPathsIff(t: Tables, ns: string, owner: string, token: int, paths: seq<string>)
    ensures AssertPaths(t, ns, owner, token, paths) == AssertOk <==> forall p :: p in paths ==> FencedBy(t, ns, owner, token, p)
  {
    hide ScopedPath;
    if paths != [] {
      AssertPathsIff(t, ns, owner, token, paths[1..]);
      assert paths[0] in paths;
      assert forall p :: p in paths <==> p == paths[0] || p in paths[1..];
    }
  }

  /** An assertion succeeds exactly for a live owner that writes every named path under exactly the asserted token. */
  lemma AssertIff(t: Tables, now: Time, ns: string, owner: string, token: int, paths: seq<string>)
    ensures AssertFencing(t, now, ns, owner, token, paths) == AssertOk <==>
            (paths != [] ==> t.Alive(owner, now)) && forall p :: p in paths ==> FencedBy(t, ns, owner, token, p)
  {
    hide FencedBy;
    AssertPathsIff(t, ns, owner, token, paths);
  }

  // --- the answered token ---

  /** The list asks for the write lock on this path, new or held, and the acquire keeps it. */
  ghost predicate KeepsWrite(ns: string, args: AcquireArgs, path: string) {
    && (exists q :: q in args.requests && q.mode == Write && q.path == path)
    && !ReleasedInline(ns, args.releases, Hold(args.owner, Write, ScopedPath(ns, path)))
  }

  ghost predicate WritesAt(ns: string, reqs: seq<LockReq>, key: string) { exists q :: q in reqs && q.mode == Write && ScopedPath(ns, q.path) == key }

  lemma {:induction false} ApplyTokens(
    t: Tables, pol: Policies, owner: string, token: int, ns: string, alg: LockAlgorithm, reqs: seq<LockReq>, k: string)
    requires Good(t, pol) && NoSep(ns) && alg == pol.InForce(ns) && AllClear(t, owner, token, ns, alg, reqs) && !alg.Semaphore?
    ensures var (o, r) := ApplyAll(t, owner, token, ns, alg, reqs);
            o.None? && (WritesAt(ns, reqs, k) || (t.Writes(owner, k) && k in t.fence && t.fence[k] == token)) ==>
              r.Writes(owner, k) && k in r.fence && r.fence[k] == token
    decreases |reqs|
  {
    hide ScopedPath, ApplyReq, Good, Grew, Onward, ReqClear, OneOwnersRecord, CapacityAgrees;
    if reqs != [] {
      var p, rest := reqs[0], reqs[1..];
      assert forall q :: q in reqs <==> q == p || q in rest;
      ApplyReqOk(t, pol, owner, token, ns, alg, p);
      var (o1, t1) := ApplyReq(t, owner, token, ns, alg, p);
      if o1.None? {
        ReqFrame(t, owner, token, ns, alg, p);
        ReqWrites(t, pol, owner, token, ns, alg, p);
        AppliedRecord(t, pol, owner, token, ns, alg, p);
        forall q | q in rest ensures ReqClear(t1, owner, token, ns, alg, q) {
          StaysClear(t, t1, owner, token, ScopedPath(ns, p.path), ns, alg, q);
        }
        ApplyTokens(t1, pol, owner, token, ns, alg, rest, k);
      }
    }
  }

  lemma ReqWrites(t: Tables, pol: Policies, owner: string, token: int, ns: string, alg: LockAlgorithm, q: LockReq)
    requires Good(t, pol) && NoSep(ns) && alg == pol.InForce(ns) && ReqClear(t, owner, token, ns, alg, q) && !alg.Semaphore?
    requires ApplyReq(t, owner, token, ns, alg, q).0.None?
    ensures var (r, key) := (ApplyReq(t, owner, token, ns, alg, q).1, ScopedPath(ns, q.path));
            if q.mode == Write then r.wr == t.wr[key := owner] && r.fence == t.fence[key := token] else r.wr == t.wr && r.fence == t.fence
  {
    HeldAlgorithm(t, pol, owner, token, ns, alg, q);
    hide Good, ReqClear, ScopedPath, ApplyWrite, ApplyRead, ApplySemaphore;
    if q.mode == Write { WriteFrame(t, owner, token, ns, q, alg); } else { ReadFrame(t, owner, ns, q, alg); }
  }

  /**
   The token a grant answers with is the stored fence of every write lock the acquire
   asked for and kept; without a positive token the answer is 0.
   */
  lemma AnswersToken(t: Tables, pol: Policies, now: Time, ns: string, alg: LockAlgorithm, args: AcquireArgs)
    requires Good(t, pol) && NoSep(ns) && alg == pol.InForce(ns) && Acquire(t, now, ns, alg, args).0.Ok?
    ensures var (o, r) := Acquire(t, now, ns, alg, args);
            && o.token == (if args.token > 0 && (args.requests != [] || args.releases != []) then args.token else 0)
            && (args.token > 0 && !alg.Semaphore? ==> forall p :: KeepsWrite(ns, args, p) ==> FencedBy(r, ns, args.owner, o.token, p))
  {
    hide Good, NoSep, ScopedPath, Executed, FinishAcquire, Onward;
    TokenIs(t, pol, now, ns, alg, args);
    hide Acquire;
    if args.token > 0 && !alg.Semaphore? && args.requests != [] {
      forall p | KeepsWrite(ns, args, p) ensures FencedBy(Acquire(t, now, ns, alg, args).1, ns, args.owner, args.token, p) {
        KeptUnderToken(t, pol, now, ns, alg, args, p);
      }
    }
  }

  lemma TokenIs(t: Tables, pol: Policies, now: Time, ns: string, alg: LockAlgorithm, args: AcquireArgs)
    requires Good(t, pol) && NoSep(ns) && alg == pol.InForce(ns) && Acquire(t, now, ns, alg, args).0.Ok?
    ensures Acquire(t, now, ns, alg, args).0.token == if args.token > 0 && (args.requests != [] || args.releases != []) then args.token else 0
  {
    hide Good, NoSep, ValidateAll, ApplyAll, BeginAcquire, FinishAcquire, Validated, OnlyLapsedRemoved;
    if args.requests == [] {
      NothingToken(t, now, ns, alg, args);
    } else if !HasHeld(args.requests) || t.Alive(args.owner, now) {
      ValidationRemoves(t, pol, now, ns, alg, args);
      var t1 := ValidateAll(BeginAcquire(t, now, args), now, args.owner, args.token, ns, alg, args.requests).1;
      ApplyNeverOk(t1, args.owner, args.token, ns, alg, args.requests);
    }
  }

  lemma NothingToken(t: Tables, now: Time, ns: string, alg: LockAlgorithm, args: AcquireArgs)
    requires args.requests == []
    ensures Acquire(t, now, ns, alg, args).0 == Ok(if args.token > 0 && args.releases != [] then args.token else 0)
  {
  }

  lemma ExecutedTokens(t: Tables, pol: Policies, now: Time, ns: string, alg: LockAlgorithm, args: AcquireArgs, k: string)
    requires Good(t, pol) && NoSep(ns) && alg == pol.InForce(ns) && args.requests != [] && !alg.Semaphore? && Acquire(t, now, ns, alg, args).0.Ok?
    requires WritesAt(ns, args.requests, k)
    ensures var r := Executed(t, now, ns, alg, args); r.Writes(args.owner, k) && k in r.fence && r.fence[k] == args.token
  {
    hide Good, ValidateAll, ApplyAll, BeginAcquire, FinishAcquire, Validated, NoSep, WritesAt, OnlyLapsedRemoved;
    ValidationRemoves(t, pol, now, ns, alg, args);
    var t1 := ValidateAll(BeginAcquire(t, now, args), now, args.owner, args.token, ns, alg, args.requests).1;
    ApplyNeverOk(t1, args.owner, args.token, ns, alg, args.requests);
    ValidatedClear(t1, ns, alg, args);
    ApplyTokens(t1, pol, args.owner, args.token, ns, alg, args.requests, k);
  }

  lemma KeptUnderToken(t: Tables, pol: Policies, now: Time, ns: string, alg: LockAlgorithm, args: AcquireArgs, p: string)
    requires Good(t, pol) && NoSep(ns) && alg == pol.InForce(ns) && args.requests != [] && !alg.Semaphore? && Acquire(t, now, ns, alg, args).0.Ok?
    requires KeepsWrite(ns, args, p)
    ensures FencedBy(Acquire(t, now, ns, alg, args).1, ns, args.owner, args.token, p)
  {
    hide Good, Acquire, Executed, FinishAcquire, NoSep, ScopedPath, ReleasedInline, Onward, Core;
    var k := ScopedPath(ns, p);
    var h := Hold(args.owner, Write, k);
    var (t2, r) := (Executed(t, now, ns, alg, args), Acquire(t, now, ns, alg, args).1);
    assert WritesAt(ns, args.requests, k);
    ExecutedTokens(t, pol, now, ns, alg, args, k);
    ExecutedIs(t, pol, now, ns, alg, args);
    ExecutedGood(t, pol, now, ns, alg, args);
    AcquireGood(t, pol, now, ns, alg, args);
    GoodCore(t2, pol);
    GoodCore(r, pol);
    LockOnRecord(t2, h);
    FinishExact(t2, pol, now, ns, args, h);
    FinishFrame(t2, now, ns, args);
    SameLock(t2, r, h);
  }

  // --- which request is refused, and how ---

  /** The hold is there, but its fence has passed the token. */
  ghost predicate HeldStale(t: Tables, owner: string, token: int, ns: string, q: LockReq) {
    var h := Wanted(owner, ns, q);
    q.mode == Write && HasLock(t, h) && h.key in t.fence && t.fence[h.key] > token
  }

  ghost predicate ContendsNow(t: Tables, now: Time, owner: string, ns: string, alg: LockAlgorithm, q: LockReq) {
    q.state == New && alg.AllowsMode(q.mode) && Busy(t, now, owner, alg, ScopedPath(ns, q.path), q)
  }

  ghost predicate OutdatedNow(t: Tables, now: Time, owner: string, token: int, ns: string, alg: LockAlgorithm, q: LockReq) {
    var key := ScopedPath(ns, q.path);
    if q.state == Held then HeldStale(t, owner, token, ns, q)
    else
      && alg.AllowsMode(q.mode) && !Busy(t, now, owner, alg, key, q)
      && !alg.Semaphore? && q.mode == Write && StaleFence(t, key, token, t.Writes(owner, key))
  }

  lemma HeldRefuses(t: Tables, pol: Policies, owner: string, token: int, ns: string, q: LockReq)
    requires Good(t, pol)
    ensures var o := ValidateHeld(t, owner, token, ns, q);
            !RefusedForContention(o) && (RefusedStale(o) <==> HeldStale(t, owner, token, ns, q)) && (o.Some? ==> !o.value.Ok?)
  {
    hide ScopedPath, GetAncestors;
    var h := Wanted(owner, ns, q);
    assert h in t.alg <==> HasHold(t, h);
  }

  lemma ReqRefuses(t: Tables, pol: Policies, now: Time, owner: string, token: int, ns: string, alg: LockAlgorithm, q: LockReq)
    requires Good(t, pol) && Solid(t, owner, now)
    ensures var o := ValidateReq(t, now, owner, token, ns, alg, q).0;
            && (RefusedForContention(o) <==> ContendsNow(t, now, owner, ns, alg, q))
            && (RefusedStale(o) <==> OutdatedNow(t, now, owner, token, ns, alg, q))
  {
    hide Good, Solid, Busy, PermitsFit, StaleFence, HeldStale, ScopedPath, ValidateNew, ValidateHeld;
    HeldRefuses(t, pol, owner, token, ns, q);
    NewDecides(t, pol, now, owner, token, ns, alg, q);
  }

  lemma HeldStaleSame(t: Tables, r: Tables, now: Time, owner: string, token: int, ns: string, q: LockReq)
    requires Pruned(t, r, now) && Core(t) && Solid(t, owner, now)
    ensures HeldStale(r, owner, token, ns, q) <==> HeldStale(t, owner, token, ns, q)
  {
    hide Core, Solid, Pruned, ScopedPath;
    PrunedSameFence(t, r, now);
    OwnWritesSame(t, r, now, owner, ScopedPath(ns, q.path));
  }

  lemma ClassSame(t: Tables, r: Tables, pol: Policies, now: Time, owner: string, token: int, ns: string, alg: LockAlgorithm, q: LockReq)
    requires Pruned(t, r, now) && Good(t, pol) && Solid(t, owner, now)
    ensures ContendsNow(r, now, owner, ns, alg, q) <==> ContendsNow(t, now, owner, ns, alg, q)
    ensures OutdatedNow(r, now, owner, token, ns, alg, q) <==> OutdatedNow(t, now, owner, token, ns, alg, q)
  {
    hide Good, Busy, HeldStale, ScopedPath, Pruned, Solid, Core;
    GoodCore(t, pol);
    HeldStaleSame(t, r, now, owner, token, ns, q);
    if alg.AllowsMode(q.mode) { BusySame(t, r, pol, now, owner, alg, ScopedPath(ns, q.path), q); }
    PrunedSameFence(t, r, now);
    OwnWritesSame(t, r, now, owner, ScopedPath(ns, q.path));
  }

  /** Validation stops at the first request that is not grantable, with the reason that request has in the tables it began with. */
  lemma {:induction false} ListRefuses(
    t: Tables, pol: Policies, now: Time, owner: string, token: int, ns: string, alg: LockAlgorithm, reqs: seq<LockReq>, i: nat)
    requires Good(t, pol) && Solid(t, owner, now) && i < |reqs| && !Grantable(t, now, owner, token, ns, alg, reqs[i])
    requires forall j :: 0 <= j < i ==> Grantable(t, now, owner, token, ns, alg, reqs[j])
    ensures var o := ValidateAll(t, now, owner, token, ns, alg, reqs).0;
            && o.Some?
            && (RefusedForContention(o) <==> ContendsNow(t, now, owner, ns, alg, reqs[i]))
            && (RefusedStale(o) <==> OutdatedNow(t, now, owner, token, ns, alg, reqs[i]))
    decreases |reqs|
  {
    hide Good, Solid, Pruned, Grantable, ValidateReq, ReqClear, CapacityAgrees, Core, ContendsNow, OutdatedNow;
    var p, rest := reqs[0], reqs[1..];
    ReqDecides(t, pol, now, owner, token, ns, alg, p);
    ReqRefuses(t, pol, now, owner, token, ns, alg, p);
    if i > 0 {
      GoodCore(t, pol);
      ReqOk(t, now, owner, token, ns, alg, p);
      var t1 := ValidateReq(t, now, owner, token, ns, alg, p).1;
      PrunedGood(t, t1, now, pol);
      SolidKept(t, t1, owner, now);
      forall q ensures Grantable(t1, now, owner, token, ns, alg, q) <==> Grantable(t, now, owner, token, ns, alg, q) {
        GrantableSame(t, t1, pol, now, owner, token, ns, alg, q);
      }
      assert forall j :: 0 <= j < i - 1 ==> rest[j] == reqs[j + 1];
      ListRefuses(t1, pol, now, owner, token, ns, alg, rest, i - 1);
      ClassSame(t, t1, pol, now, owner, token, ns, alg, reqs[i]);
    }
  }

  /** As `ContendsNow`, with the leftovers of a lapsed requester out of account. */
  ghost predicate Contends(t: Tables, now: Time, ns: string, alg: LockAlgorithm, args: AcquireArgs, q: LockReq) {
    q.state == New && alg.AllowsMode(q.mode) && BusyTo(t, now, args.owner, alg, ScopedPath(ns, q.path), q)
  }

  /** As `OutdatedNow`, with the leftovers of a lapsed requester out of account. */
  ghost predicate Outdated(t: Tables, now: Time, ns: string, alg: LockAlgorithm, args: AcquireArgs, q: LockReq) {
    var key := ScopedPath(ns, q.path);
    if q.state == Held then HeldStale(t, args.owner, args.token, ns, q)
    else
      && alg.AllowsMode(q.mode) && !BusyTo(t, now, args.owner, alg, key, q)
      && !alg.Semaphore? && q.mode == Write && StaleFence(t, key, args.token, t.Alive(args.owner, now) && t.Writes(args.owner, key))
  }

  lemma BeginClass(t: Tables, pol: Policies, now: Time, ns: string, alg: LockAlgorithm, args: AcquireArgs, q: LockReq)
    requires Good(t, pol) && q in args.requests && (HasHeld(args.requests) ==> t.Alive(args.owner, now))
    ensures var t0 := BeginAcquire(t, now, args);
            && (ContendsNow(t0, now, args.owner, ns, alg, q) <==> Contends(t, now, ns, alg, args, q))
            && (OutdatedNow(t0, now, args.owner, args.token, ns, alg, q) <==> Outdated(t, now, ns, alg, args, q))
  {
    hide Good, AncestorBlocks, Contended, PermitsFit, ScopedPath, ReleaseOwner, GetAncestors, HeldStale;
    if !t.Alive(args.owner, now) {
      BusyWithout(t, pol, now, args.owner, alg, ScopedPath(ns, q.path), q);
      ReleasedWrites(t, pol, args.owner, ScopedPath(ns, q.path));
    }
  }

  /** The first request of the acquire that cannot be granted. */
  ghost predicate FirstRefused(t: Tables, now: Time, ns: string, alg: LockAlgorithm, args: AcquireArgs, i: nat) {
    && i < |args.requests| && !GrantableTo(t, now, args.owner, args.token, ns, alg, args.requests[i])
    && forall j :: 0 <= j < i ==> GrantableTo(t, now, args.owner, args.token, ns, alg, args.requests[j])
  }

  /** An acquire is refused as its first ungrantable request is: for contention, for its token, or for good. */
  lemma AcquireRefuses(t: Tables, pol: Policies, now: Time, ns: string, alg: LockAlgorithm, args: AcquireArgs, i: nat)
    requires Good(t, pol) && NoSep(ns) && alg == pol.InForce(ns) && (HasHeld(args.requests) ==> t.Alive(args.owner, now))
    requires FirstRefused(t, now, ns, alg, args, i)
    ensures var o := Acquire(t, now, ns, alg, args).0;
            && !o.Ok?
            && (RefusedForContention(Some(o)) <==> Contends(t, now, ns, alg, args, args.requests[i]))
            && (RefusedStale(Some(o)) <==> Outdated(t, now, ns, alg, args, args.requests[i]))
  {
    hide Good, Grantable, GrantableTo, ValidateAll, ApplyAll, BeginAcquire, FinishAcquire, Solid, Contends, Outdated, ContendsNow, OutdatedNow, Onward,
         SelfConflicting, Validated, OnlyLapsedRemoved;
    var t0 := BeginAcquire(t, now, args);
    BeginGood(t, pol, now, args);
    forall q | q in args.requests
      ensures Grantable(t0, now, args.owner, args.token, ns, alg, q) <==> GrantableTo(t, now, args.owner, args.token, ns, alg, q)
    {
      BeginGrantable(t, pol, now, ns, alg, args, q);
    }
    ListRefuses(t0, pol, now, args.owner, args.token, ns, alg, args.requests, i);
    BeginClass(t, pol, now, ns, alg, args, args.requests[i]);
    ValidationRemoves(t, pol, now, ns, alg, args);
  }

  // --- lists that clash with themselves ---

  lemma {:induction false} ClashFails(t: Tables, pol: Policies, owner: string, token: int, ns: string, reqs: seq<LockReq>)
    requires Good(t, pol) && NoSep(ns) && pol.InForce(ns).Semaphore? && AllClear(t, owner, token, ns, Semaphore, reqs)
    ensures var o := ApplyAll(t, owner, token, ns, Semaphore, reqs).0; o.Some? ==> o.value.Conflict? && o.value.reason == InvalidPermits
    decreases |reqs|
  {
    hide ScopedPath, Good, Grew, Onward, ReqClear, OneOwnersRecord, CapacityAgrees, RecordHold;
    if reqs != [] {
      var p, rest := reqs[0], reqs[1..];
      assert forall q :: q in reqs <==> q == p || q in rest;
      HeldAlgorithm(t, pol, owner, token, ns, Semaphore, p);
      var (o1, t1) := ApplyReq(t, owner, token, ns, Semaphore, p);
      ApplyReqOk(t, pol, owner, token, ns, Semaphore, p);
      if o1.None? {
        AppliedRecord(t, pol, owner, token, ns, Semaphore, p);
        forall q | q in rest ensures ReqClear(t1, owner, token, ns, Semaphore, q) {
          StaysClear(t, t1, owner, token, ScopedPath(ns, p.path), ns, Semaphore, q);
        }
        hide ApplyReq;
        ClashFails(t1, pol, owner, token, ns, rest);
      }
    }
  }

  /** A list that clashes with itself, and is otherwise grantable, is refused for its permits. */
  lemma ClashRefused(t: Tables, pol: Policies, now: Time, ns: string, alg: LockAlgorithm, args: AcquireArgs)
    requires Good(t, pol) && NoSep(ns) && alg == pol.InForce(ns) && (HasHeld(args.requests) ==> t.Alive(args.owner, now))
    requires SelfConflicting(ns, alg, args.requests)
    requires forall q :: q in args.requests ==> GrantableTo(t, now, args.owner, args.token, ns, alg, q)
    ensures var o := Acquire(t, now, ns, alg, args).0; o.Conflict? && o.reason == InvalidPermits
  {
    hide Good, NoSep, ValidateAll, ApplyAll, BeginAcquire, GrantableTo, FinishAcquire, Validated, AllGranted, Clash, OnlyLapsedRemoved;
    ValidationDecides(t, pol, now, ns, alg, args);
    ValidationRemoves(t, pol, now, ns, alg, args);
    var t1 := ValidateAll(BeginAcquire(t, now, args), now, args.owner, args.token, ns, alg, args.requests).1;
    ValidatedOutcome(t1, pol, now, ns, alg, args);
    ValidatedClear(t1, ns, alg, args);
    ClashFails(t1, pol, args.owner, args.token, ns, args.requests);
  }

  // --- the four ways an acquire can end ---

  ghost predicate LeaseGone(t: Tables, now: Time, args: AcquireArgs) { HasHeld(args.requests) && !t.Alive(args.owner, now) }

  /** The lease is there, every request is grantable, and the list does not clash with itself. */
  ghost predicate AllGrantable(t: Tables, now: Time, ns: string, alg: LockAlgorithm, args: AcquireArgs) {
    && !LeaseGone(t, now, args) && !SelfConflicting(ns, alg, args.requests)
    && forall q :: q in args.requests ==> GrantableTo(t, now, args.owner, args.token, ns, alg, q)
  }

  ghost predicate StopsContended(t: Tables, now: Time, ns: string, alg: LockAlgorithm, args: AcquireArgs) {
    !LeaseGone(t, now, args) && exists i: nat :: FirstRefused(t, now, ns, alg, args, i) && Contends(t, now, ns, alg, args, args.requests[i])
  }

  ghost predicate StopsOutdated(t: Tables, now: Time, ns: string, alg: LockAlgorithm, args: AcquireArgs) {
    !LeaseGone(t, now, args) && exists i: nat :: FirstRefused(t, now, ns, alg, args, i) && Outdated(t, now, ns, alg, args, args.requests[i])
  }

  lemma {:induction false} FindRefused(t: Tables, now: Time, ns: string, alg: LockAlgorithm, args: AcquireArgs, n: nat) returns (i: nat)
    requires n <= |args.requests| && forall j :: 0 <= j < n ==> GrantableTo(t, now, args.owner, args.token, ns, alg, args.requests[j])
    requires exists q :: q in args.requests && !GrantableTo(t, now, args.owner, args.token, ns, alg, q)
    ensures FirstRefused(t, now, ns, alg, args, i)
    decreases |args.requests| - n
  {
    hide GrantableTo;
    if n < |args.requests| && GrantableTo(t, now, args.owner, args.token, ns, alg, args.requests[n]) {
      i := FindRefused(t, now, ns, alg, args, n + 1);
    } else {
      i := n;
    }
  }

  lemma OneFirst(t: Tables, now: Time, ns: string, alg: LockAlgorithm, args: AcquireArgs, i: nat, j: nat)
    requires FirstRefused(t, now, ns, alg, args, i) && FirstRefused(t, now, ns, alg, args, j)
    ensures i == j
  {
    hide GrantableTo;
  }

  /** Granted, refused for contention or refused for the token: each exactly on its condition; anything else is refused for good. */
  lemma AcquireEnds(t: Tables, pol: Policies, now: Time, ns: string, alg: LockAlgorithm, args: AcquireArgs)
    requires Good(t, pol) && NoSep(ns) && alg == pol.InForce(ns)
    ensures var o := Acquire(t, now, ns, alg, args).0;
            && (o.Ok? <==> AllGrantable(t, now, ns, alg, args))
            && (RefusedForContention(Some(o)) <==> StopsContended(t, now, ns, alg, args))
            && (RefusedStale(Some(o)) <==> StopsOutdated(t, now, ns, alg, args))
  {
    hide Good, NoSep, Acquire, GrantableTo, Contends, Outdated, SelfConflicting, FirstRefused;
    AcquireDecides(t, pol, now, ns, alg, args);
    if LeaseGone(t, now, args) {
      LeaseLost(t, now, ns, alg, args);
    } else if q :| q in args.requests && !GrantableTo(t, now, args.owner, args.token, ns, alg, q) {
      var i := FindRefused(t, now, ns, alg, args, 0);
      AcquireRefuses(t, pol, now, ns, alg, args, i);
      forall j | FirstRefused(t, now, ns, alg, args, j) ensures j == i { OneFirst(t, now, ns, alg, args, i, j); }
      FirstInList(t, now, ns, alg, args, i);
    } else {
      if SelfConflicting(ns, alg, args.requests) { ClashRefused(t, pol, now, ns, alg, args); }
      forall i: nat ensures !FirstRefused(t, now, ns, alg, args, i) {
        if FirstRefused(t, now, ns, alg, args, i) {
          FirstInList(t, now, ns, alg, args, i);
          assert false;
        }
      }
    }
  }

  lemma FirstInList(t: Tables, now: Time, ns: string, alg: LockAlgorithm, args: AcquireArgs, i: nat)
    requires FirstRefused(t, now, ns, alg, args, i)
    ensures i < |args.requests| && args.requests[i] in args.requests && !GrantableTo(t, now, args.owner, args.token, ns, alg, args.requests[i])
  {
    hide GrantableTo;
  }

  lemma LeaseLost(t: Tables, now: Time, ns: string, alg: LockAlgorithm, args: AcquireArgs)
    requires LeaseGone(t, now, args)
    ensures Acquire(t, now, ns, alg, args) == (Lost("", MissingAlive), t)
  {
  }

  /** The engine itself never queues. */
  lemma NeverEnqueued(t: Tables, pol: Policies, now: Time, ns: string, alg: LockAlgorithm, args: AcquireArgs)
    requires Good(t, pol) && NoSep(ns) && alg == pol.InForce(ns)
    ensures !Acquire(t, now, ns, alg, args).0.Enqueued?
  {
    hide Good, NoSep, FinishAcquire, ValidateAll, ApplyAll, BeginAcquire, Validated, OnlyLapsedRemoved;
    if args.requests == [] {
      NothingAsked(t, now, ns, alg, args);
    } else if !HasHeld(args.requests) || t.Alive(args.owner, now) {
      ValidationRemoves(t, pol, now, ns, alg, args);
      var t1 := ValidateAll(BeginAcquire(t, now, args), now, args.owner, args.token, ns, alg, args.requests).1;
      ApplyNeverOk(t1, args.owner, args.token, ns, alg, args.requests);
    }
  }
}

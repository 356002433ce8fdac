/**
 A sweep turn by turn: who is granted, who keeps waiting, who is told, and which
 holds come and go. Nothing here names how the sweep judges a waiter.
 */
module Turns {
  import opened Ordering
  import opened Paths
  import opened Expiry
  import opened LockSpec
  import opened LockInvariant
  import opened ApplyProof
  import opened EngineProof
  import opened AllOrNothing
  import opened AcquireDecision
  import opened AcquireFrame
  import opened Outcomes
  import opened QueueSpec
  import opened QueueProof
  import opened SweepProof
  import opened Fairness
  import opened Delivery
  import opened Progress
  import opened Leftover

  // --- the verdict on one waiter ---

  ghost predicate Grants(t: Tables, now: Time, w: Entry) { AllGrantable(t, now, w.ns, w.policy.algorithm, w.args) }
  ghost predicate Blocked(t: Tables, now: Time, w: Entry) { StopsContended(t, now, w.ns, w.policy.algorithm, w.args) }
  ghost predicate Outrun(t: Tables, now: Time, w: Entry) { StopsOutdated(t, now, w.ns, w.policy.algorithm, w.args) }

  lemma VerdictIs(t: Tables, pol: Policies, now: Time, e: Entry, reserved: seq<Want>)
    requires Good(t, pol) && Lawful(e, pol)
    ensures var (v, back) := (TryWaiter(t, now, e, reserved).0, AnyConflict(EntryWants(e), reserved));
            && (v.Grant? <==> !back && Grants(t, now, e))
            && (!v.Leaves() <==> back || Blocked(t, now, e) || Outrun(t, now, e))
            && (v.Notifies() <==> !back && (Grants(t, now, e) || Outrun(t, now, e)))
  {
    hide Good, NoSep, Acquire, AnyConflict, EntryWants, AllGrantable, StopsContended, StopsOutdated;
    AcquireEnds(t, pol, now, e.ns, e.policy.algorithm, e.args);
    NeverEnqueued(t, pol, now, e.ns, e.policy.algorithm, e.args);
  }

  /** A grantable list stops nowhere. */
  lemma EndsApart(t: Tables, now: Time, w: Entry)
    ensures Grants(t, now, w) ==> !Blocked(t, now, w) && !Outrun(t, now, w)
  {
    hide GrantableTo, Outcomes.Contends, Outdated, SelfConflicting;
    if Grants(t, now, w) {
      forall i: nat ensures !FirstRefused(t, now, w.ns, w.policy.algorithm, w.args, i) { }
    }
  }

  // --- one turn ---

  lemma {:induction false} NotifiedListed(t: Tables, q: Queue, now: Time, es: seq<Entry>, reserved: seq<Want>, o: string)
    requires o in RunSweep(t, q, now, es, reserved).notify
    ensures exists e :: e in es && e.owner == o
    decreases |es|
  {
    hide TryWaiter, NextQueue, NextReserved;
    SweepStep(t, q, now, es, reserved);
    var (v, t1) := TryWaiter(t, now, es[0], reserved);
    assert es[0] in es && forall e :: e in es[1..] ==> e in es;
    if o != es[0].owner { NotifiedListed(t1, NextQueue(q, now, es[0], v), now, es[1..], NextReserved(reserved, es[0], v), o); }
  }

  lemma {:induction false} GrantedListed(t: Tables, q: Queue, now: Time, es: seq<Entry>, reserved: seq<Want>, g: Entry)
    requires g in RunSweep(t, q, now, es, reserved).granted
    ensures g in es
    decreases |es|
  {
    hide TryWaiter, NextQueue, NextReserved;
    SweepStep(t, q, now, es, reserved);
    var (v, t1) := TryWaiter(t, now, es[0], reserved);
    assert es[0] in es && forall e :: e in es[1..] ==> e in es;
    if g != es[0] { GrantedListed(t1, NextQueue(q, now, es[0], v), now, es[1..], NextReserved(reserved, es[0], v), g); }
  }

  /** The verdict on the first waiter decides its place, its grant and its notice in the whole sweep. */
  lemma FirstTurn(t: Tables, q: Queue, now: Time, pol: Policies, es: seq<Entry>, reserved: seq<Want>)
    requires Sweepable(t, q, now, pol, es) && es != []
    ensures var (v, r) := (TryWaiter(t, now, es[0], reserved).0, RunSweep(t, q, now, es, reserved));
            && (Waiting(r.q, now, es[0]) <==> !v.Leaves())
            && (es[0] in r.granted <==> v.Grant?)
            && (es[0].owner in r.notify <==> v.Notifies())
  {
    hide Good, QueueGood, TryWaiter, NextReserved, RunSweep, AnyConflict, EntryWants, Lawful, Dequeue, Onward;
    var e, rest := es[0], es[1..];
    assert e in es && forall x :: x in rest ==> x in es;
    SweepStep(t, q, now, es, reserved);
    var (v, t1) := TryWaiter(t, now, e, reserved);
    var q1, res1 := NextQueue(q, now, e, v), NextReserved(reserved, e, v);
    TryGood(t, pol, now, e, reserved);
    NextGood(q, now, pol, e, v);
    SweepGood(t1, q1, now, pol, rest, res1);
    OthersApart(es);
    forall x | x in rest ensures x.owner != e.owner { assert x in es; }
    var r1 := RunSweep(t1, q1, now, rest, res1);
    if e in r1.granted { GrantedListed(t1, q1, now, rest, res1, e); assert false; }
    if e.owner in r1.notify { NotifiedListed(t1, q1, now, rest, res1, e.owner); assert false; }
    if !v.Leaves() { SweepLocal(t1, q, now, pol, rest, res1, e); }
  }

  /** A waiter tried before it on the list stays queued and conflicts with it. */
  ghost predicate HeldBack(q: Queue, now: Time, es: seq<Entry>, i: nat)
    requires i < |es|
  {
    exists j :: 0 <= j < i && Waiting(q, now, es[j]) && AnyConflict(EntryWants(es[i]), EntryWants(es[j]))
  }

  /** The tables a waiter meets at its turn. */
  ghost function AtTurn(t: Tables, q: Queue, now: Time, es: seq<Entry>, reserved: seq<Want>, i: nat): Tables
    requires i <= |es|
  {
    RunSweep(t, q, now, es[..i], reserved).t
  }

  /** What its turn leaves: the outcome of its acquire, unless it is held back. */
  ghost function TurnLeaves(now: Time, w: Entry, back: bool, turn: Tables): Tables {
    if back then turn else Acquire(turn, now, w.ns, w.policy.algorithm, w.args).1
  }

  /** What becomes of the waiter at this place of the list, by the tables it meets at its turn. */
  ghost predicate TurnLaw(now: Time, w: Entry, back: bool, turn: Tables, r: Swept) {
    && (w in r.granted <==> !back && Grants(turn, now, w))
    && (Waiting(r.q, now, w) <==> back || Blocked(turn, now, w) || Outrun(turn, now, w))
    && (w.owner in r.notify <==> !back && (Grants(turn, now, w) || Outrun(turn, now, w)))
  }

  lemma BackStep(t: Tables, q: Queue, now: Time, pol: Policies, es: seq<Entry>, reserved: seq<Want>, i: nat)
    requires Sweepable(t, q, now, pol, es) && 0 < i < |es|
    ensures var (v, r) := (TryWaiter(t, now, es[0], reserved).0, RunSweep(t, q, now, es, reserved));
            AnyConflict(EntryWants(es[i]), reserved) || HeldBack(r.q, now, es, i) <==>
            AnyConflict(EntryWants(es[i]), NextReserved(reserved, es[0], v)) || HeldBack(r.q, now, es[1..], i - 1)
  {
    hide Sweepable, TryWaiter, NextReserved, RunSweep, AnyConflict, EntryWants, Waiting;
    var v := TryWaiter(t, now, es[0], reserved).0;
    FirstTurn(t, q, now, pol, es, reserved);
    ReservedGrows(EntryWants(es[i]), reserved, es[0], v);
    ReservedOnly(EntryWants(es[i]), reserved, es[0], v);
    var r := RunSweep(t, q, now, es, reserved);
    if j :| 0 <= j < i && Waiting(r.q, now, es[j]) && AnyConflict(EntryWants(es[i]), EntryWants(es[j])) {
      if j > 0 { assert es[1..][j - 1] == es[j]; }
    }
    if j :| 0 <= j < i - 1 && Waiting(r.q, now, es[1..][j]) && AnyConflict(EntryWants(es[1..][i - 1]), EntryWants(es[1..][j])) {
      assert es[1..][j] == es[j + 1];
    }
  }

  lemma NextSweepable(t: Tables, q: Queue, now: Time, pol: Policies, es: seq<Entry>, reserved: seq<Want>)
    requires Sweepable(t, q, now, pol, es) && es != []
    ensures var (v, t1) := TryWaiter(t, now, es[0], reserved); Sweepable(t1, NextQueue(q, now, es[0], v), now, pol, es[1..])
  {
    hide Good, QueueGood, TryWaiter, NextQueue, Lawful, Waiting, Onward, AnyConflict, EntryWants;
    var (v, t1) := TryWaiter(t, now, es[0], reserved);
    assert es[0] in es && forall x :: x in es[1..] ==> x in es;
    TryGood(t, pol, now, es[0], reserved);
    NextGood(q, now, pol, es[0], v);
    NextWaiting(q, now, pol, es, v);
  }

  /** Each waiter of the list is granted, kept or told by what it meets at its turn. */
  lemma {:induction false} TurnExact(t: Tables, q: Queue, now: Time, pol: Policies, es: seq<Entry>, reserved: seq<Want>, i: nat)
    requires Sweepable(t, q, now, pol, es) && i < |es|
    ensures var r := RunSweep(t, q, now, es, reserved);
            var back := AnyConflict(EntryWants(es[i]), reserved) || HeldBack(r.q, now, es, i);
            var turn := AtTurn(t, q, now, es, reserved, i);
            && Good(turn, pol) && TurnLaw(now, es[i], back, turn, r)
            && AtTurn(t, q, now, es, reserved, i + 1) == TurnLeaves(now, es[i], back, turn)
    decreases i
  {
    hide Good, QueueGood, RunSweep, AnyConflict, EntryWants, NextReserved, NextQueue, TryWaiter, Lawful, Waiting, Grants, Blocked, Outrun, HeldBack;
    var e, rest := es[0], es[1..];
    assert e in es;
    SweepStep(t, q, now, es, reserved);
    SweepStep(t, q, now, es[..i + 1], reserved);
    assert es[..i + 1][1..] == rest[..i];
    var (v, t1) := TryWaiter(t, now, e, reserved);
    if i == 0 {
      assert es[..0] == [] && rest[..0] == [];
      EmptySweep(t, q, now, reserved);
      EmptySweep(t1, NextQueue(q, now, e, v), now, NextReserved(reserved, e, v));
      FirstTurn(t, q, now, pol, es, reserved);
      VerdictIs(t, pol, now, e, reserved);
      TriedIs(t, now, e, reserved);
      NobodyBefore(RunSweep(t, q, now, es, reserved).q, now, es);
    } else {
      SweepStep(t, q, now, es[..i], reserved);
      assert es[..i][1..] == rest[..i - 1];
      var q1, res1 := NextQueue(q, now, e, v), NextReserved(reserved, e, v);
      NextSweepable(t, q, now, pol, es, reserved);
      BackStep(t, q, now, pol, es, reserved, i);
      TurnExact(t1, q1, now, pol, rest, res1, i - 1);
      StepKeeps(t, q, now, pol, es, reserved, i);
    }
  }

  lemma TriedIs(t: Tables, now: Time, e: Entry, reserved: seq<Want>)
    ensures TryWaiter(t, now, e, reserved).1 ==
            if AnyConflict(EntryWants(e), reserved) then t else Acquire(t, now, e.ns, e.policy.algorithm, e.args).1
  {
    hide AnyConflict, EntryWants, Acquire;
  }

  lemma NobodyBefore(q: Queue, now: Time, es: seq<Entry>)
    requires es != []
    ensures !HeldBack(q, now, es, 0)
  {
    hide Waiting, AnyConflict, EntryWants;
  }

  /** The first waiter's turn adds nothing about the others. */
  lemma StepKeeps(t: Tables, q: Queue, now: Time, pol: Policies, es: seq<Entry>, reserved: seq<Want>, i: nat)
    requires Sweepable(t, q, now, pol, es) && 0 < i < |es|
    ensures var (v, t1) := TryWaiter(t, now, es[0], reserved);
            var (r, r1) := (RunSweep(t, q, now, es, reserved), RunSweep(t1, NextQueue(q, now, es[0], v), now, es[1..], NextReserved(reserved, es[0], v)));
            && (es[i] in r.granted <==> es[i] in r1.granted) && (es[i].owner in r.notify <==> es[i].owner in r1.notify) && r.q == r1.q
  {
    hide Good, QueueGood, RunSweep, AnyConflict, EntryWants, NextReserved, NextQueue, TryWaiter, Lawful, Waiting;
    SweepStep(t, q, now, es, reserved);
    assert es[0].owner != es[i].owner;
  }

  // --- the whole sweep ---

  ghost predicate Listed(es: seq<Entry>, o: string) { exists e :: e in es && e.owner == o }

  ghost predicate ListedBefore(es: seq<Entry>, o: string, p: string) {
    exists i, j :: 0 <= i < j < |es| && es[i].owner == o && es[j].owner == p
  }

  /** Who is told, in the order of the list, each once. */
  ghost predicate ToldInOrder(es: seq<Entry>, notify: seq<string>) {
    && (forall o :: o in notify ==> Listed(es, o))
    && forall a, b :: 0 <= a < b < |notify| ==> ListedBefore(es, notify[a], notify[b])
  }

  /**
   One sweep over a list of waiters, turn by turn. Waiters off the list stay as they
   were. Each one on it meets the tables the turns before it left: held back by an
   earlier one that stays, it is not tried; otherwise its acquire runs, and it is
   granted, kept or dropped, and told or not, by what it met.
   */
  ghost predicate SweepLaw(t: Tables, q: Queue, now: Time, es: seq<Entry>, turns: seq<Tables>, r: Swept) {
    && |turns| == |es| + 1 && turns[0] == t && turns[|es|] == r.t
    && (forall i :: 0 <= i < |es| ==> TurnLaw(now, es[i], HeldBack(r.q, now, es, i), turns[i], r))
    && (forall i :: 0 <= i < |es| ==> turns[i + 1] == TurnLeaves(now, es[i], HeldBack(r.q, now, es, i), turns[i]))
    && (forall w :: w !in es ==> w !in r.granted && (Waiting(r.q, now, w) <==> Waiting(q, now, w)))
    && ToldInOrder(es, r.notify)
  }

  ghost function TurnsOf(t: Tables, q: Queue, now: Time, es: seq<Entry>): (r: seq<Tables>)
    ensures |r| == |es| + 1 && forall i :: 0 <= i <= |es| ==> r[i] == AtTurn(t, q, now, es, [], i)
  {
    seq(|es| + 1, i requires 0 <= i <= |es| => AtTurn(t, q, now, es, [], i))
  }

  lemma ToldStep(es: seq<Entry>, rest: seq<string>, told: bool)
    requires es != [] && ToldInOrder(es[1..], rest)
    ensures ToldInOrder(es, (if told then [es[0].owner] else []) + rest)
  {
    var all := (if told then [es[0].owner] else []) + rest;
    var d := if told then 1 else 0;
    assert forall k :: d <= k < |all| ==> all[k] == rest[k - d];
    forall o | o in all ensures Listed(es, o) {
      if !(told && o == es[0].owner) {
        assert o in rest;
        var e :| e in es[1..] && e.owner == o;
        assert e in es;
      } else { assert es[0] in es; }
    }
    forall a, b | 0 <= a < b < |all| ensures ListedBefore(es, all[a], all[b]) {
      if a < d {
        assert rest[b - d] in rest;
        var e :| e in es[1..] && e.owner == rest[b - d];
        var j :| 0 <= j < |es[1..]| && es[1..][j] == e;
        assert es[0].owner == all[a] && es[j + 1].owner == all[b];
      } else {
        assert ListedBefore(es[1..], rest[a - d], rest[b - d]);
        var i, j :| 0 <= i < j < |es[1..]| && es[1..][i].owner == rest[a - d] && es[1..][j].owner == rest[b - d];
        assert es[i + 1].owner == all[a] && es[j + 1].owner == all[b];
      }
    }
  }

  lemma {:induction false} ToldAreOrdered(t: Tables, q: Queue, now: Time, es: seq<Entry>, reserved: seq<Want>)
    ensures ToldInOrder(es, RunSweep(t, q, now, es, reserved).notify)
    decreases |es|
  {
    hide TryWaiter, NextQueue, NextReserved, RunSweep;
    if es == [] {
      EmptySweep(t, q, now, reserved);
    } else {
      SweepStep(t, q, now, es, reserved);
      var (v, t1) := TryWaiter(t, now, es[0], reserved);
      var q1, res1 := NextQueue(q, now, es[0], v), NextReserved(reserved, es[0], v);
      ToldAreOrdered(t1, q1, now, es[1..], res1);
      ToldStep(es, RunSweep(t1, q1, now, es[1..], res1).notify, v.Notifies());
    }
  }

  lemma OffListSame(t: Tables, q: Queue, now: Time, pol: Policies, es: seq<Entry>, reserved: seq<Want>, w: Entry)
    requires Sweepable(t, q, now, pol, es) && w !in es
    ensures var r := RunSweep(t, q, now, es, reserved); w !in r.granted && (Waiting(r.q, now, w) <==> Waiting(q, now, w))
  {
    hide Good, RunSweep, Lawful, Onward;
    hide QueueGood;
    SweepGood(t, q, now, pol, es, reserved);
    if w in RunSweep(t, q, now, es, reserved).granted { GrantedListed(t, q, now, es, reserved, w); }
    if Waiting(q, now, w) {
      forall e | e in es ensures e.owner != w.owner {
        DistinctOwners(q, now, pol, e, w);
        WaiterOwns(q, now, pol, w);
      }
      SweepLocal(t, q, now, pol, es, reserved, w);
    }
  }

  lemma SweepObeys(t: Tables, q: Queue, now: Time, pol: Policies, es: seq<Entry>)
    requires Sweepable(t, q, now, pol, es)
    ensures SweepLaw(t, q, now, es, TurnsOf(t, q, now, es), RunSweep(t, q, now, es, []))
  {
    hide Sweepable, RunSweep, TurnLeaves, TurnLaw, HeldBack, AnyConflict, EntryWants, Waiting, ToldInOrder;
    var r, turns := RunSweep(t, q, now, es, []), TurnsOf(t, q, now, es);
    EmptySweep(t, q, now, []);
    assert es[..0] == [] && es[..|es|] == es;
    ToldAreOrdered(t, q, now, es, []);
    forall i | 0 <= i < |es|
      ensures TurnLaw(now, es[i], HeldBack(r.q, now, es, i), turns[i], r)
      ensures turns[i + 1] == TurnLeaves(now, es[i], HeldBack(r.q, now, es, i), turns[i])
    {
      NothingReserved(EntryWants(es[i]));
      TurnExact(t, q, now, pol, es, [], i);
    }
    forall w | w !in es ensures w !in r.granted && (Waiting(r.q, now, w) <==> Waiting(q, now, w)) { OffListSame(t, q, now, pol, es, [], w); }
  }

  // --- hold by hold ---

  ghost predicate Asks(e: Entry, h: Hold) { AsksNew(e.ns, e.args.requests, e.args.owner, h) }

  /** What a waiter's own turn makes of one of its owner's holds. */
  ghost predicate OwnTurn(now: Time, e: Entry, granted: bool, before: bool, after: bool, h: Hold) {
    if granted then after <==> !GivesUp(now, e.ns, e.args, h) && (before || Asks(e, h))
    else (before ==> after) && (after ==> before || (Asks(e, h) && SelfConflicting(e.ns, e.policy.algorithm, e.args.requests)))
  }

  lemma AskedHold(t: Tables, pol: Policies, now: Time, e: Entry, h: Hold)
    requires Good(t, pol) && Lawful(e, pol) && e.args.owner == h.owner && Asks(e, h) && Ready(t, now, e)
    ensures HeldLive(Acquire(t, now, e.ns, e.policy.algorithm, e.args).1, now, h) <==> !GivesUp(now, e.ns, e.args, h)
  {
    hide Good, NoSep, Acquire, Executed, FinishAcquire, ReleasedInline, Lapses, OnlyLapsedRemoved, SelfConflicting, Onward;
    AcquireAllOrNothing(t, pol, now, e.ns, e.policy.algorithm, e.args);
    AcquireGood(t, pol, now, e.ns, e.policy.algorithm, e.args);
    ExecutedIs(t, pol, now, e.ns, e.policy.algorithm, e.args);
    FinishExact(Executed(t, now, e.ns, e.policy.algorithm, e.args), pol, now, e.ns, e.args, h);
    var x :| x in e.args.requests && x.state == New && h == Wanted(e.args.owner, e.ns, x);
    if !ReleasedInline(e.ns, e.args.releases, h) { GrantLive(t, pol, now, e.ns, e.policy.algorithm, e.args, h); }
  }

  lemma RefusedHold(t: Tables, pol: Policies, now: Time, e: Entry, h: Hold)
    requires Good(t, pol) && Lawful(e, pol) && !Ready(t, now, e)
    ensures var r := Acquire(t, now, e.ns, e.policy.algorithm, e.args).1;
            && (HeldLive(t, now, h) ==> HeldLive(r, now, h))
            && (HeldLive(r, now, h) ==> HeldLive(t, now, h) || (Asks(e, h) && SelfConflicting(e.ns, e.policy.algorithm, e.args.requests)))
  {
    hide Good, NoSep, Acquire, Executed, FinishAcquire, OnlyLapsedRemoved, SelfConflicting, Onward, AsksNew, AllGranted;
    ExecutedIs(t, pol, now, e.ns, e.policy.algorithm, e.args);
    ExecutedSteady(t, pol, now, e.ns, e.policy.algorithm, e.args);
    if !Asks(e, h) { AcquireHolds(t, pol, now, e.ns, e.policy.algorithm, e.args, h); }
    if !SelfConflicting(e.ns, e.policy.algorithm, e.args.requests) {
      AcquireAllOrNothing(t, pol, now, e.ns, e.policy.algorithm, e.args);
      LapsedHolds(t, Acquire(t, now, e.ns, e.policy.algorithm, e.args).1, now, h);
    }
  }

  lemma LapsedHolds(t: Tables, r: Tables, now: Time, h: Hold)
    requires OnlyLapsedRemoved(t, r, now)
    ensures h in r.alg ==> h in t.alg
  {
  }

  lemma TryHold(t: Tables, pol: Policies, now: Time, e: Entry, reserved: seq<Want>, h: Hold)
    requires Good(t, pol) && Lawful(e, pol) && e.args.owner == h.owner
    ensures var (v, r) := TryWaiter(t, now, e, reserved); OwnTurn(now, e, v.Grant?, HeldLive(t, now, h), HeldLive(r, now, h), h)
  {
    hide Good, NoSep, Acquire, HeldLive, GivesUp, SelfConflicting, AsksNew, AnyConflict, EntryWants, Lapses;
    if Ready(t, now, e) {
      if Asks(e, h) { AskedHold(t, pol, now, e, h); } else { AcquireHolds(t, pol, now, e.ns, e.policy.algorithm, e.args, h); }
    } else {
      RefusedHold(t, pol, now, e, h);
    }
  }

  /** After the sweep, hold by hold: only the owner's own turn can change one. */
  ghost predicate HoldLaw(t: Tables, now: Time, es: seq<Entry>, r: Swept, h: Hold) {
    && ((forall e :: e in es ==> e.args.owner != h.owner) ==> (HeldLive(r.t, now, h) <==> HeldLive(t, now, h)))
    && forall e :: e in es && e.args.owner == h.owner ==> OwnTurn(now, e, e in r.granted, HeldLive(t, now, h), HeldLive(r.t, now, h), h)
  }

  lemma {:induction false} SweepHolds(t: Tables, q: Queue, now: Time, pol: Policies, es: seq<Entry>, reserved: seq<Want>, h: Hold)
    requires Sweepable(t, q, now, pol, es)
    ensures HoldLaw(t, now, es, RunSweep(t, q, now, es, reserved), h)
    decreases |es|
  {
    hide Good, QueueGood, HeldLive, TryWaiter, NextQueue, NextReserved, Lawful, RunSweep, OwnTurn, Waiting, Onward, AnyConflict, EntryWants;
    if es == [] {
      EmptySweep(t, q, now, reserved);
    } else {
      var e, rest := es[0], es[1..];
      assert forall x :: x in es <==> x == e || x in rest;
      SweepStep(t, q, now, es, reserved);
      FirstTurn(t, q, now, pol, es, reserved);
      var (v, t1) := TryWaiter(t, now, e, reserved);
      var q1, res1 := NextQueue(q, now, e, v), NextReserved(reserved, e, v);
      TryGood(t, pol, now, e, reserved);
      OthersApart(es);
      if e.args.owner == h.owner {
        TryHold(t, pol, now, e, reserved, h);
        SweepKeeps(t1, q1, now, pol, rest, res1, h);
      } else {
        TryKeeps(t, pol, now, e, reserved, h);
        NextSweepable(t, q, now, pol, es, reserved);
        SweepHolds(t1, q1, now, pol, rest, res1, h);
      }
    }
  }

  // --- the locks of owners the sweep does not try ---

  /** A write lock under a live lease. */
  ghost predicate WritesLive(t: Tables, now: Time, x: string, k: string) { t.Writes(x, k) && t.Alive(x, now) }

  lemma TryKeepsFence(t: Tables, pol: Policies, now: Time, e: Entry, reserved: seq<Want>, x: string, k: string)
    requires Good(t, pol) && Lawful(e, pol) && e.args.owner != x && WritesLive(t, now, x, k)
    ensures var r := TryWaiter(t, now, e, reserved).1; WritesLive(r, now, x, k) && SameAt(t.fence, r.fence, k)
  {
    hide Good, Acquire, EntryWants, AnyConflict, NoSep, ScopedPath, Core, Onward;
    var (h, r) := (Hold(x, Write, k), Acquire(t, now, e.ns, e.policy.algorithm, e.args).1);
    GoodCore(t, pol);
    LockOnRecord(t, h);
    AcquireGood(t, pol, now, e.ns, e.policy.algorithm, e.args);
    GoodCore(r, pol);
    AcquireHolds(t, pol, now, e.ns, e.policy.algorithm, e.args, h);
    SameLock(t, r, h);
    ForeignFence(t, pol, now, e.ns, e.policy.algorithm, e.args, x, k);
  }

  /** A write lock under a live lease survives a sweep that does not try its owner, and so does its fence. */
  lemma {:induction false} SweepKeepsFence(t: Tables, q: Queue, now: Time, pol: Policies, es: seq<Entry>, reserved: seq<Want>, x: string, k: string)
    requires Good(t, pol) && InForceAll(es, pol) && WritesLive(t, now, x, k) && forall e :: e in es ==> e.args.owner != x
    ensures var r := RunSweep(t, q, now, es, reserved).t; WritesLive(r, now, x, k) && SameAt(t.fence, r.fence, k)
    decreases |es|
  {
    hide Good, WritesLive, TryWaiter, NextQueue, NextReserved, Lawful, RunSweep, Onward;
    if es == [] {
      EmptySweep(t, q, now, reserved);
    } else {
      var e, rest := es[0], es[1..];
      assert e in es && forall y :: y in rest ==> y in es;
      SweepStep(t, q, now, es, reserved);
      var (v, t1) := TryWaiter(t, now, e, reserved);
      TryGood(t, pol, now, e, reserved);
      TryKeepsFence(t, pol, now, e, reserved, x, k);
      SweepKeepsFence(t1, NextQueue(q, now, e, v), now, pol, rest, NextReserved(reserved, e, v), x, k);
    }
  }

  lemma {:induction false} SweepOthers(t: Tables, q: Queue, now: Time, pol: Policies, es: seq<Entry>, reserved: seq<Want>, o: string)
    requires Good(t, pol) && InForceAll(es, pol) && forall e :: e in es ==> e.args.owner != o
    ensures SameOwner(t, RunSweep(t, q, now, es, reserved).t, o)
    decreases |es|
  {
    hide Good, TryWaiter, NextQueue, NextReserved, Lawful, RunSweep, Onward;
    if es == [] {
      EmptySweep(t, q, now, reserved);
    } else {
      var e, rest := es[0], es[1..];
      assert e in es && forall x :: x in rest ==> x in es;
      SweepStep(t, q, now, es, reserved);
      var (v, t1) := TryWaiter(t, now, e, reserved);
      TryGood(t, pol, now, e, reserved);
      TryOthers(t, pol, now, e, reserved, o);
      SweepOthers(t1, NextQueue(q, now, e, v), now, pol, rest, NextReserved(reserved, e, v), o);
    }
  }

  lemma TryOthers(t: Tables, pol: Policies, now: Time, e: Entry, reserved: seq<Want>, o: string)
    requires Good(t, pol) && Lawful(e, pol) && e.args.owner != o
    ensures SameOwner(t, TryWaiter(t, now, e, reserved).1, o)
  {
    hide Good, Acquire, EntryWants, AnyConflict, NoSep;
    AcquireOthers(t, pol, now, e.ns, e.policy.algorithm, e.args, o);
  }

  // --- all of it ---

  ghost predicate Untried(es: seq<Entry>, o: string) { forall e :: e in es ==> e.args.owner != o }

  /**
   A whole sweep: the waiters on the list were tried turn by turn, every hold follows
   from its own owner's turn, and an owner without a turn keeps its hold set, its
   lease, and its write locks with their fences.
   */
  ghost predicate SweptOver(t: Tables, q: Queue, now: Time, es: seq<Entry>, turns: seq<Tables>, s: Swept) {
    && SweepLaw(t, q, now, es, turns, s)
    && (forall h :: HoldLaw(t, now, es, s, h))
    && (forall o :: Untried(es, o) ==> SameOwner(t, s.t, o))
    && (forall o, k :: Untried(es, o) && WritesLive(t, now, o, k) ==> WritesLive(s.t, now, o, k) && SameAt(t.fence, s.t.fence, k))
  }

  lemma SweepOver(t: Tables, q: Queue, now: Time, pol: Policies, es: seq<Entry>)
    requires Sweepable(t, q, now, pol, es)
    ensures SweptOver(t, q, now, es, TurnsOf(t, q, now, es), RunSweep(t, q, now, es, []))
  {
    hide Good, QueueGood, Lawful, InOrder, OwnEntries, AllWaiting, RunSweep, SweepLaw, HoldLaw, SameOwner, TurnsOf, WritesLive, SameAt;
    var r := RunSweep(t, q, now, es, []);
    SweepObeys(t, q, now, pol, es);
    forall h ensures HoldLaw(t, now, es, r, h) { SweepHolds(t, q, now, pol, es, [], h); }
    forall o | Untried(es, o) ensures SameOwner(t, r.t, o) { SweepOthers(t, q, now, pol, es, [], o); }
    forall o, k | Untried(es, o) && WritesLive(t, now, o, k) ensures WritesLive(r.t, now, o, k) && SameAt(t.fence, r.t.fence, k) {
      SweepKeepsFence(t, q, now, pol, es, [], o, k);
    }
  }

  // --- the full and the targeted sweep ---

  /** The list is exactly the live waiters that qualify, in the order they came. */
  ghost predicate FifoList(q: Queue, now: Time, es: seq<Entry>) { InOrder(es) && forall e :: e in es <==> Waiting(q, now, e) }

  ghost predicate FreedList(q: Queue, now: Time, freed: seq<string>, es: seq<Entry>) {
    InOrder(es) && forall e :: e in es <==> Waiting(q, now, e) && MeetsFreed(e, freed)
  }

  /** The full sweep tries every live waiter in FIFO order, turn by turn. */
  lemma FullSweepTurns(t: Tables, q: Queue, now: Time, pol: Policies) returns (es: seq<Entry>, turns: seq<Tables>)
    requires Good(t, pol) && QueueGood(q, now, pol)
    ensures FifoList(q, now, es) && SweptOver(t, q, now, es, turns, GrantSweep(t, q, now))
  {
    hide Good, QueueGood, RunSweep, SweptOver, Scan, Waiting;
    ScanSweepable(t, q, now, pol);
    es := Scan(q, now);
    turns := TurnsOf(t, q, now, es);
    SweepOver(t, q, now, pol, es);
  }

  /** The targeted sweep tries exactly the live waiters whose own paths meet a freed path, in FIFO order. */
  lemma TargetedSweepTurns(t: Tables, q: Queue, now: Time, pol: Policies, freed: seq<string>) returns (es: seq<Entry>, turns: seq<Tables>)
    requires Good(t, pol) && QueueGood(q, now, pol)
    ensures FreedList(q, now, freed, es) && SweptOver(t, q, now, es, turns, GrantSweepForPaths(t, q, now, freed))
  {
    hide Good, QueueGood, RunSweep, SweptOver, LiveOf, CandidateSeqs, Waiting, MeetsFreed;
    CandidatesSweepable(t, q, now, pol, freed);
    es := LiveOf(q, now, SortedNats(CandidateSeqs(q, now, freed)));
    turns := TurnsOf(t, q, now, es);
    SweepOver(t, q, now, pol, es);
  }
}

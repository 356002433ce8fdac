/** Scans see every live waiter; sweeps keep every invariant and never let a waiter barge. */
module SweepProof {
  import opened Ordering
  import opened Paths
  import opened Expiry
  import opened LockSpec
  import opened LockInvariant
  import opened ApplyProof
  import opened EngineProof
  import opened QueueSpec
  import opened QueueProof

  // --- scans ---

  /** The entry is the live waiter stored under its own sequence number. */
  predicate Waiting(q: Queue, now: Time, e: Entry) { Live(q, now, e.seqno) && q.entries[e.seqno].0 == e }

  ghost predicate InOrder(es: seq<Entry>) { forall i, j :: 0 <= i < j < |es| ==> es[i].seqno < es[j].seqno }

  lemma {:induction false} LiveOfFacts(q: Queue, now: Time, seqs: seq<nat>)
    requires Numbered(q) && Ascending(seqs, NatLess)
    ensures forall e :: e in LiveOf(q, now, seqs) <==> Waiting(q, now, e) && e.seqno in seqs
    ensures InOrder(LiveOf(q, now, seqs))
  {
    if seqs != [] {
      var s, rest := seqs[0], seqs[1..];
      LiveOfFacts(q, now, rest);
      assert forall x :: x in rest ==> NatLess(s, x);
      assert forall x :: x in seqs <==> x == s || x in rest;
      var tail := LiveOf(q, now, rest);
      assert LiveOf(q, now, seqs) == (if Live(q, now, s) then [q.entries[s].0] else []) + tail;
      assert forall i :: 0 <= i < |tail| ==> tail[i] in tail;
    }
  }

  /** The FIFO list holds exactly the live waiters, in sequence order. */
  lemma LiveEntriesFacts(q: Queue, now: Time)
    requires Numbered(q)
    ensures forall e :: e in LiveEntries(q, now) <==> Waiting(q, now, e)
    ensures InOrder(LiveEntries(q, now))
  {
    LiveOfFacts(q, now, SortedNats(q.entries.Keys));
  }

  /** The cap on the scan never drops a waiter. */
  lemma ScanComplete(q: Queue, now: Time)
    requires Counted(q)
    ensures Scan(q, now) == LiveEntries(q, now)
  {
    hide UnitSum;
    EntriesWithinUnits(q.entries);
    assert |SortedNats(q.entries.Keys)| == |q.entries|;
  }

  // --- what a sweep keeps ---

  /** The waiter asks for something, under the algorithm in force in its namespace. */
  ghost predicate Lawful(e: Entry, pol: Policies) { e.policy.algorithm == pol.InForce(e.ns) && NoSep(e.ns) && e.args.requests != [] }

  ghost predicate InForceAll(es: seq<Entry>, pol: Policies) {
    forall e :: e in es ==> Lawful(e, pol)
  }

  ghost predicate Shrunk(q: Queue, r: Queue, now: Time) {
    forall x :: Live(r, now, x) ==> Live(q, now, x) && r.entries[x] == q.entries[x]
  }

  lemma DequeueShrinks(q: Queue, now: Time, pol: Policies, owner: string)
    requires QueueGood(q, now, pol)
    ensures Shrunk(q, Dequeue(q, now, owner), now)
    ensures forall x :: Live(Dequeue(q, now, owner), now, x) ==> q.entries[x].0.owner != owner
  {
    hide PathKeys, UnitSum, QueueUnits, Linked;
    DequeueGood(q, now, pol, owner);
  }

  /** What the sweep hands on to the rest of the list. */
  function NextQueue(q: Queue, now: Time, e: Entry, v: Verdict): Queue { if v.Leaves() then Dequeue(q, now, e.owner) else q }
  function NextReserved(reserved: seq<Want>, e: Entry, v: Verdict): seq<Want> { if v.Leaves() then reserved else reserved + EntryWants(e) }

  lemma SweepStep(t: Tables, q: Queue, now: Time, es: seq<Entry>, reserved: seq<Want>)
    requires es != []
    ensures var (v, t1) := TryWaiter(t, now, es[0], reserved);
            var r := RunSweep(t1, NextQueue(q, now, es[0], v), now, es[1..], NextReserved(reserved, es[0], v));
            RunSweep(t, q, now, es, reserved) ==
            r.(notify := (if v.Notifies() then [es[0].owner] else []) + r.notify,
               granted := (if v.Grant? then [es[0]] else []) + r.granted)
  {
    hide TryWaiter, Dequeue, EntryWants;
  }

  lemma TryGood(t: Tables, pol: Policies, now: Time, e: Entry, reserved: seq<Want>)
    requires Good(t, pol) && Lawful(e, pol)
    ensures Good(TryWaiter(t, now, e, reserved).1, pol) && Onward(t, TryWaiter(t, now, e, reserved).1)
    ensures TryWaiter(t, now, e, reserved).0.Leaves() ==> !AnyConflict(EntryWants(e), reserved)
  {
    hide Good, Onward, Acquire, EntryWants, AnyConflict, NoSep;
    GrewRefl(t, "");
    AcquireGood(t, pol, now, e.ns, e.policy.algorithm, e.args);
  }

  lemma NextGood(q: Queue, now: Time, pol: Policies, e: Entry, v: Verdict)
    requires QueueGood(q, now, pol)
    ensures QueueGood(NextQueue(q, now, e, v), now, pol) && Shrunk(q, NextQueue(q, now, e, v), now)
    ensures v.Leaves() && q.entries.Keys >= {e.seqno} && q.entries[e.seqno].0 == e ==> !Live(NextQueue(q, now, e, v), now, e.seqno)
  {
    hide QueueGood, Dequeue;
    DequeueGood(q, now, pol, e.owner);
    DequeueShrinks(q, now, pol, e.owner);
  }

  /** Every acquire a sweep replays keeps the tables good; every waiter it drops leaves a good queue. */
  lemma {:induction false} SweepGood(t: Tables, q: Queue, now: Time, pol: Policies, es: seq<Entry>, reserved: seq<Want>)
    requires Good(t, pol) && QueueGood(q, now, pol) && InForceAll(es, pol)
    ensures var r := RunSweep(t, q, now, es, reserved);
            Good(r.t, pol) && QueueGood(r.q, now, pol) && Onward(t, r.t) && Shrunk(q, r.q, now)
    decreases |es|
  {
    hide Good, QueueGood, Onward, TryWaiter, NextQueue, NextReserved, NoSep, RunSweep;
    if es == [] {
      GrewRefl(t, "");
      assert RunSweep(t, q, now, es, reserved) == Swept([], [], t, q) by { EmptySweep(t, q, now, reserved); }
    } else {
      var e, rest := es[0], es[1..];
      assert forall x :: x in rest ==> x in es;
      SweepStep(t, q, now, es, reserved);
      var (v, t1) := TryWaiter(t, now, e, reserved);
      TryGood(t, pol, now, e, reserved);
      NextGood(q, now, pol, e, v);
      SweepGood(t1, NextQueue(q, now, e, v), now, pol, rest, NextReserved(reserved, e, v));
      OnwardTrans(t, t1, RunSweep(t1, NextQueue(q, now, e, v), now, rest, NextReserved(reserved, e, v)).t);
    }
  }

  lemma EmptySweep(t: Tables, q: Queue, now: Time, reserved: seq<Want>)
    ensures RunSweep(t, q, now, [], reserved) == Swept([], [], t, q)
  {
  }

  // --- no barging ---

  lemma ConflictInTail(x: seq<Want>, a: seq<Want>, b: seq<Want>)
    ensures AnyConflict(x, a + b) <==> AnyConflict(x, a) || AnyConflict(x, b)
  {
    hide WantsConflict;
    assert forall y :: y in a + b <==> y in a || y in b;
  }

  lemma ReservedGrows(x: seq<Want>, reserved: seq<Want>, e: Entry, v: Verdict)
    ensures AnyConflict(x, reserved) ==> AnyConflict(x, NextReserved(reserved, e, v))
    ensures !v.Leaves() && AnyConflict(x, EntryWants(e)) ==> AnyConflict(x, NextReserved(reserved, e, v))
  {
    hide AnyConflict, EntryWants;
    ConflictInTail(x, reserved, EntryWants(e));
  }

  /** No waiter granted in a sweep conflicts with what was reserved when it began. */
  lemma {:induction false} GrantsRespectReserved(
    t: Tables, q: Queue, now: Time, pol: Policies, es: seq<Entry>, reserved: seq<Want>, g: Entry)
    requires g in RunSweep(t, q, now, es, reserved).granted
    requires Good(t, pol) && InForceAll(es, pol)
    ensures !AnyConflict(EntryWants(g), reserved)
    ensures g in es
    decreases |es|
  {
    hide Good, Onward, TryWaiter, NextQueue, NextReserved, AnyConflict, EntryWants, NoSep;
    var e, rest := es[0], es[1..];
    assert forall x :: x in rest ==> x in es;
    SweepStep(t, q, now, es, reserved);
    var (v, t1) := TryWaiter(t, now, e, reserved);
    TryGood(t, pol, now, e, reserved);
    if !(v.Grant? && g == e) {
      GrantsRespectReserved(t1, NextQueue(q, now, e, v), now, pol, rest, NextReserved(reserved, e, v), g);
      ReservedGrows(EntryWants(g), reserved, e, v);
    }
  }

  /** A waiter that a sweep leaves queued does not conflict with any later waiter that sweep grants. */
  lemma {:induction false} NoBarging(
    t: Tables, q: Queue, now: Time, pol: Policies, es: seq<Entry>, reserved: seq<Want>, w: Entry, g: Entry)
    requires Good(t, pol) && QueueGood(q, now, pol) && InForceAll(es, pol) && InOrder(es)
    requires w in es && w.seqno < g.seqno && w.seqno in q.entries && q.entries[w.seqno].0 == w
    requires g in RunSweep(t, q, now, es, reserved).granted && Live(RunSweep(t, q, now, es, reserved).q, now, w.seqno)
    ensures !AnyConflict(EntryWants(g), EntryWants(w))
    decreases |es|
  {
    hide Good, QueueGood, Onward, TryWaiter, NextQueue, NextReserved, AnyConflict, EntryWants, NoSep, Dequeue;
    var e, rest := es[0], es[1..];
    assert forall x :: x in es <==> x == e || x in rest;
    SweepStep(t, q, now, es, reserved);
    var (v, t1) := TryWaiter(t, now, e, reserved);
    TryGood(t, pol, now, e, reserved);
    NextGood(q, now, pol, e, v);
    var q1, res1 := NextQueue(q, now, e, v), NextReserved(reserved, e, v);
    SweepGood(t1, q1, now, pol, rest, res1);
    hide RunSweep;
    GrantedLater(es, g, w);
    if w == e {
      GrantsRespectReserved(t1, q1, now, pol, rest, res1, g);
      ReservedGrows(EntryWants(g), reserved, e, v);
    } else {
      NoBarging(t1, q1, now, pol, rest, res1, w, g);
    }
  }

  lemma GrantedLater(es: seq<Entry>, g: Entry, w: Entry)
    requires InOrder(es) && w in es && w.seqno < g.seqno
    ensures g != es[0]
  {
    var i :| 0 <= i < |es| && es[i] == w;
    if i > 0 { assert es[0].seqno < es[i].seqno; }
  }

  /** FIFO over the full sweep: a granted waiter overtakes no conflicting waiter that stays queued. */
  lemma FullSweepFifo(t: Tables, q: Queue, now: Time, pol: Policies, w: Entry, g: Entry)
    requires Good(t, pol) && QueueGood(q, now, pol)
    requires var r := GrantSweep(t, q, now); g in r.granted && Waiting(r.q, now, w) && w.seqno < g.seqno
    ensures !AnyConflict(EntryWants(g), EntryWants(w))
  {
    hide Good, RunSweep, AnyConflict, EntryWants, NoSep, Scan, LiveEntries;
    ScanComplete(q, now);
    LiveEntriesFacts(q, now);
    ScanInForce(q, now, pol);
    SweepGood(t, q, now, pol, Scan(q, now), []);
    NoBarging(t, q, now, pol, Scan(q, now), [], w, g);
  }

  lemma ScanInForce(q: Queue, now: Time, pol: Policies)
    requires QueueGood(q, now, pol)
    ensures InForceAll(Scan(q, now), pol)
  {
    hide UnitSum, PathKeys, Scan, NoSep;
    ScanComplete(q, now);
    LiveEntriesFacts(q, now);
  }

  /** The targeted sweep guarantees the same among the waiters it considers. */
  lemma TargetedSweepFifo(t: Tables, q: Queue, now: Time, pol: Policies, freed: seq<string>, w: Entry, g: Entry)
    requires Good(t, pol) && QueueGood(q, now, pol)
    requires var r := GrantSweepForPaths(t, q, now, freed);
             g in r.granted && Waiting(r.q, now, w) && w.seqno < g.seqno && w.seqno in CandidateSeqs(q, now, freed)
    ensures !AnyConflict(EntryWants(g), EntryWants(w))
  {
    hide Good, RunSweep, AnyConflict, EntryWants, NoSep, CandidateSeqs, LiveOf;
    var seqs := SortedNats(CandidateSeqs(q, now, freed));
    var es := LiveOf(q, now, seqs);
    LiveOfFacts(q, now, seqs);
    CandidatesInForce(q, now, pol, freed);
    SweepGood(t, q, now, pol, es, []);
    NoBarging(t, q, now, pol, es, [], w, g);
  }

  lemma CandidatesInForce(q: Queue, now: Time, pol: Policies, freed: seq<string>)
    requires QueueGood(q, now, pol)
    ensures InForceAll(LiveOf(q, now, SortedNats(CandidateSeqs(q, now, freed))), pol)
  {
    hide UnitSum, PathKeys, NoSep, CandidateSeqs;
    LiveOfFacts(q, now, SortedNats(CandidateSeqs(q, now, freed)));
  }

  // --- admission ---

  lemma {:induction false} FirstConflictIff(xs: seq<Want>, ys: seq<Want>)
    ensures FirstConflict(xs, ys).Some? <==> AnyConflict(xs, ys)
  {
    hide WantsConflict;
    if xs != [] {
      FirstConflictIff(xs[1..], ys);
      assert forall x :: x in xs <==> x == xs[0] || x in xs[1..];
    }
  }

  /** The admission check reports a blocker exactly when a live waiter that goes before conflicts, and the first one. */
  lemma {:induction false} FirstBlockerIff(es: seq<Entry>, owner: string, mine: Option<nat>, ws: seq<Want>)
    ensures FirstBlocker(es, owner, mine, ws).Some? <==>
            exists e :: e in es && Before(e, owner, mine) && AnyConflict(EntryWants(e), ws)
    ensures var b := FirstBlocker(es, owner, mine, ws);
            b.Some? ==> exists i :: 0 <= i < |es| && es[i] == b.value.0 && Before(es[i], owner, mine)
                                    && AnyConflict(EntryWants(es[i]), ws)
                                    && forall j :: 0 <= j < i && Before(es[j], owner, mine) ==> !AnyConflict(EntryWants(es[j]), ws)
  {
    hide AnyConflict, EntryWants, FirstConflict;
    if es != [] {
      FirstConflictIff(EntryWants(es[0]), ws);
      FirstBlockerIff(es[1..], owner, mine, ws);
      assert forall e :: e in es <==> e == es[0] || e in es[1..];
      var b := FirstBlocker(es, owner, mine, ws);
      if b.Some? && !(Before(es[0], owner, mine) && AnyConflict(EntryWants(es[0]), ws)) {
        var i :| 0 <= i < |es[1..]| && es[1..][i] == b.value.0 && Before(es[1..][i], owner, mine)
                 && AnyConflict(EntryWants(es[1..][i]), ws)
                 && forall j :: 0 <= j < i && Before(es[1..][j], owner, mine) ==> !AnyConflict(EntryWants(es[1..][j]), ws);
        assert es[i + 1] == b.value.0;
        forall j | 0 <= j < i + 1 && Before(es[j], owner, mine) ensures !AnyConflict(EntryWants(es[j]), ws) {
          if j > 0 { assert es[j] == es[1..][j - 1]; }
        }
      }
    }
  }
}

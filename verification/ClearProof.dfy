/** Releasing hold-set members one group at a time amounts to clearing them all at once. */
module ClearProof {
  import opened Paths
  import opened LockSpec
  import opened LockInvariant
  import opened AcquireProof
  import opened MachineSpec

  function Strip(t: Tables, gone: set<(string, Member)>): (r: Tables) { Drop(t.(own := t.own - gone), NamedHolds(gone)) }

  lemma NamedUnion(a: set<(string, Member)>, b: set<(string, Member)>)
    ensures NamedHolds(a + b) == NamedHolds(a) + NamedHolds(b)
  {
  }

  /** Removal of holds does not depend on hold sets or leases. */
  lemma DropCommutes(t: Tables, own: set<(string, Member)>, alive: map<string, nat>, hs: set<Hold>)
    requires forall o :: o in alive ==> o in t.alive && alive[o] == t.alive[o]
    ensures Drop(t.(own := own, alive := alive), hs) == Drop(t, hs).(own := own, alive := alive)
  {
  }

  lemma StripTwice(t: Tables, a: set<(string, Member)>, b: set<(string, Member)>)
    ensures Strip(Strip(t, a), b) == Strip(t, a + b)
  {
    hide Drop, NamedHolds;
    NamedUnion(a, b);
    var own := t.own - a - b;
    assert own == t.own - (a + b);
    DropCommutes(t, t.own - a, t.alive, NamedHolds(a));
    DropCommutes(t, own, t.alive, NamedHolds(a + b));
    var d := Drop(t, NamedHolds(a));
    DropKeeps(t, NamedHolds(a));
    DropTwice(t, NamedHolds(a), NamedHolds(b));
    DropCommutes(d, own, t.alive, NamedHolds(b));
    DropKeeps(d, NamedHolds(b));
    assert Strip(Strip(t, a), b) == Drop(d.(own := own, alive := t.alive), NamedHolds(b));
  }

  lemma DropKeeps(t: Tables, hs: set<Hold>)
    ensures Drop(t, hs).own == t.own && Drop(t, hs).alive == t.alive
  {
  }

  function MembersOf(ns: string, owner: string, reqs: seq<RelReq>): (r: set<(string, Member)>) {
    set q | q in reqs :: (owner, Member(q.mode, ns, q.path))
  }

  lemma ReleaseOneStrips(t: Tables, ns: string, owner: string, q: RelReq)
    ensures ReleaseOne(t, ns, owner, q) == Strip(t, {(owner, Member(q.mode, ns, q.path))})
  {
    hide Drop, ScopedPath;
    assert NamedHolds({(owner, Member(q.mode, ns, q.path))}) == {Hold(owner, q.mode, ScopedPath(ns, q.path))};
  }

  lemma {:induction false} ReleaseEachStrips(t: Tables, ns: string, owner: string, reqs: seq<RelReq>)
    requires reqs != []
    ensures ReleaseEach(t, ns, owner, reqs) == Strip(t, MembersOf(ns, owner, reqs))
    decreases |reqs|
  {
    hide Strip, ReleaseOne;
    var q, rest := reqs[0], reqs[1..];
    var m := {(owner, Member(q.mode, ns, q.path))};
    var t1 := ReleaseOne(t, ns, owner, q);
    ReleaseOneStrips(t, ns, owner, q);
    assert forall x :: x in reqs <==> x == q || x in rest;
    assert MembersOf(ns, owner, reqs) == m + MembersOf(ns, owner, rest);
    if rest == [] {
      assert MembersOf(ns, owner, reqs) == m;
      assert ReleaseEach(t1, ns, owner, rest) == t1;
    } else {
      ReleaseEachStrips(t1, ns, owner, rest);
      StripTwice(t, m, MembersOf(ns, owner, rest));
    }
  }

  ghost function Idle(own: set<(string, Member)>, gone: set<(string, Member)>): set<string> {
    set e | e in gone && (forall x :: x in own - gone ==> x.0 != e.0) :: e.0
  }

  lemma ClearIsStrip(t: Tables, gone: set<(string, Member)>)
    ensures ClearHolds(t, gone) == Strip(t, gone).(alive := t.alive - Idle(t.own, gone))
  {
    hide Drop, NamedHolds;
    DropKeeps(t.(own := t.own - gone), NamedHolds(gone));
    var s := Strip(t, gone);
    assert Idle(t.own, gone) == set e | e in gone && HoldsNothing(s, e.0) :: e.0;
  }

  /** Releasing one owner's locks in one namespace clears exactly those members. */
  lemma ReleaseClears(t: Tables, ns: string, owner: string, reqs: seq<RelReq>)
    requires reqs != []
    ensures Release(t, ns, owner, reqs) == ClearHolds(t, MembersOf(ns, owner, reqs))
  {
    hide ReleaseEach, ClearHolds, Drop, NamedHolds;
    var gone := MembersOf(ns, owner, reqs);
    ReleaseEachStrips(t, ns, owner, reqs);
    ClearIsStrip(t, gone);
    DropKeeps(t.(own := t.own - gone), NamedHolds(gone));
    var q := reqs[0];
    assert (owner, Member(q.mode, ns, q.path)) in gone;
    assert Idle(t.own, gone) == if HoldsNothing(Strip(t, gone), owner) then {owner} else {};
  }

  lemma IdleTwice(own: set<(string, Member)>, a: set<(string, Member)>, b: set<(string, Member)>)
    ensures Idle(own, a) + Idle(own - a, b) == Idle(own, a + b)
  {
    assert own - a - b == own - (a + b);
    forall o | o in Idle(own, a + b) ensures o in Idle(own, a) + Idle(own - a, b) {
      var e :| e in a + b && e.0 == o && (forall x :: x in own - (a + b) ==> x.0 != e.0);
      if exists f :: f in b && f.0 == o {
        var f :| f in b && f.0 == o;
        assert o in Idle(own - a, b);
      } else {
        assert e in a;
        forall x | x in own - a ensures x.0 != e.0 { assert x in b || x in own - (a + b); }
        assert o in Idle(own, a);
      }
    }
  }

  lemma ClearTwice(t: Tables, a: set<(string, Member)>, b: set<(string, Member)>)
    ensures ClearHolds(ClearHolds(t, a), b) == ClearHolds(t, a + b)
  {
    hide ClearHolds, Drop, NamedHolds, Idle;
    ClearIsStrip(t, a);
    var t1 := ClearHolds(t, a);
    ClearIsStrip(t1, b);
    ClearIsStrip(t, a + b);
    IdleTwice(t.own, a, b);
    StripTwice(t, a, b);
    var s := Strip(t, a);
    DropKeeps(t.(own := t.own - a), NamedHolds(a));
    DropKeeps(s.(own := s.own - b), NamedHolds(b));
    assert t1 == s.(alive := t1.alive);
    DropCommutes(s, s.own - b, t1.alive, NamedHolds(b));
    DropCommutes(s, s.own - b, s.alive, NamedHolds(b));
    assert t.alive - Idle(t.own, a) - Idle(t.own - a, b) == t.alive - Idle(t.own, a + b);
  }

  lemma ClearNone(t: Tables)
    requires Core(t)
    ensures ClearHolds(t, {}) == t
  {
    assert NamedHolds({}) == {};
    DropNothing(t);
    hide Drop, Core;
    assert t.own - {} == t.own;
  }
}

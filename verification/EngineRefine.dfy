/** What the engine's stepwise updates of single tables amount to, under the invariant. */
module EngineRefine {
  import opened Paths
  import opened LockSpec
  import opened LockInvariant
  import opened AcquireProof

  /** Only holds on record matter to a removal. */
  lemma DropSame(t: Tables, g: set<Hold>, h: set<Hold>)
    requires AlgExact(t) && forall x :: x in t.alg ==> (x in g <==> x in h)
    ensures Drop(t, g) == Drop(t, h)
  {
    var a, b := Drop(t, g), Drop(t, h);
    forall k | k in t.wr ensures Hold(t.wr[k], Write, k) in t.alg { assert HasHold(t, Hold(t.wr[k], Write, k)); }
    forall e | e in t.rd ensures Hold(e.1, Read, e.0) in t.alg { assert HasHold(t, Hold(e.1, Read, e.0)); }
    forall e | e in t.sem ensures Hold(e.1, Write, e.0) in t.alg { assert HasHold(t, Hold(e.1, Write, e.0)); }
    assert a.wr == b.wr;
    assert a.rd == b.rd;
    assert a.sem == b.sem && a.alg == b.alg;
  }

  lemma KeptReadIndex(t: Tables, rd: set<(string, string)>)
    requires IndexExact(t) && forall k :: HasMember(t.rd, k) <==> HasMember(rd, k)
    ensures (set e | e in t.rddesc && HasMember(rd, e.1)) == t.rddesc
  {
    assert forall e :: e in t.rddesc ==> HasMember(t.rd, e.1);
  }

  lemma KeptWriteIndex(t: Tables)
    requires IndexExact(t)
    ensures (set e | e in t.wrdesc && e.1 in t.wr) == t.wrdesc
  {
    assert forall e :: e in t.wrdesc ==> e.1 in t.wr;
  }

  /** Deleting a path's writer, its marker and its index entries. */
  lemma DropWriter(t: Tables, key: string)
    requires Core(t) && key in t.wr
    ensures Drop(t, {Hold(t.wr[key], Write, key)}) ==
            t.(wr := t.wr - {key}, alg := t.alg - {Hold(t.wr[key], Write, key)}, wrdesc := t.wrdesc - IndexPairs(key))
  {
    hide GetAncestors;
    var h := Hold(t.wr[key], Write, key);
    var r := Drop(t, {h});
    assert r.wr == t.wr - {key};
    assert r.sem == t.sem;
    assert r.rd == t.rd;
    assert r.wrdesc == t.wrdesc - IndexPairs(key);
    KeptReadIndex(t, r.rd);
  }

  /** Removing readers of one path: the index entries go with the last reader. */
  lemma DropReaders(t: Tables, key: string, gone: set<string>, rd: set<(string, string)>, hs: set<Hold>)
    requires Core(t)
    requires rd == set e | e in t.rd && !(e.0 == key && e.1 in gone)
    requires hs == set o | o in gone :: Hold(o, Read, key)
    ensures Drop(t, hs) ==
            t.(rd := rd, alg := t.alg - hs,
               rddesc := if HasMember(rd, key) then t.rddesc else t.rddesc - IndexPairs(key))
  {
    hide GetAncestors;
    var r := Drop(t, hs);
    assert forall e :: e in t.rd ==> (Hold(e.1, Read, e.0) in hs <==> e.0 == key && e.1 in gone);
    assert r.rd == rd;
    assert r.wr == t.wr;
    assert r.sem == t.sem;
    KeptWriteIndex(t);
    OtherReaders(t, rd, key);
  }

  lemma OtherReaders(t: Tables, rd: set<(string, string)>, key: string)
    requires IndexExact(t) && rd <= t.rd && forall e :: e in t.rd && e.0 != key ==> e in rd
    ensures (set e | e in t.rddesc && HasMember(rd, e.1)) ==
            if HasMember(rd, key) then t.rddesc else t.rddesc - IndexPairs(key)
  {
    hide GetAncestors;
    forall k | k != key ensures HasMember(rd, k) <==> HasMember(t.rd, k) {
      if HasMember(t.rd, k) { var e :| e in t.rd && e.0 == k; assert e in rd; }
    }
    assert forall e :: e in t.rddesc ==> HasMember(t.rd, e.1) && IsStrictAncestor(e.0, e.1);
    assert forall e :: e in t.rddesc && e.1 == key ==> e in IndexPairs(key);
  }

  /** Removing semaphore holders of one path. */
  lemma DropHolders(t: Tables, key: string, gone: set<string>, sem: set<(string, string)>, hs: set<Hold>)
    requires Core(t) && forall o :: o in gone ==> (key, o) in t.sem
    requires sem == set e | e in t.sem && !(e.0 == key && e.1 in gone)
    requires hs == set o | o in gone :: Hold(o, Write, key)
    ensures Drop(t, hs) == t.(sem := sem, alg := t.alg - hs)
  {
    var r := Drop(t, hs);
    assert forall e :: e in t.sem ==> (Hold(e.1, Write, e.0) in hs <==> e.0 == key && e.1 in gone);
    assert r.sem == sem;
    assert forall k :: k in t.wr ==> Hold(t.wr[k], Write, k) !in hs;
    assert r.wr == t.wr;
    assert r.rd == t.rd;
    KeptWriteIndex(t);
    KeptReadIndex(t, r.rd);
  }

  /** A removal that names no hold on record. */
  lemma DropAbsent(t: Tables, h: Hold)
    requires Core(t) && h !in t.alg
    ensures Drop(t, {h}) == t
  {
    DropSame(t, {h}, {});
    DropNothing(t);
  }
}

/** The deadlock walk over a fixed wait graph: each owner waits on at most one other. */
module Deadlock {

  datatype CycleOutcome = NoCycle | Cycle(owners: seq<string>) | Truncated(chain: seq<string>)

  /** Blocking edges only: an edge whose blocker no longer blocks is not in the graph. */
  type Graph = map<string, string>

  ghost predicate Distinct(s: seq<string>) { forall i, j :: 0 <= i < j < |s| ==> s[i] != s[j] }

  /** Each owner waits on the next. */
  ghost predicate IsChain(g: Graph, s: seq<string>) { forall i :: 0 <= i < |s| - 1 ==> s[i] in g && g[s[i]] == s[i + 1] }

  ghost predicate IsCycle(g: Graph, s: seq<string>) {
    s != [] && Distinct(s) && IsChain(g, s) && s[|s| - 1] in g && g[s[|s| - 1]] == s[0]
  }

  /** Who is reached after a number of hops, if the walk gets that far. */
  function Walk(g: Graph, start: string, hops: nat): (r: string)
    requires CanWalk(g, start, hops)
    decreases hops
  {
    if hops == 0 then start else Walk(g, g[start], hops - 1)
  }

  predicate CanWalk(g: Graph, start: string, hops: nat)
    decreases hops
  {
    hops == 0 || (start in g && CanWalk(g, g[start], hops - 1))
  }

  ghost predicate Reaches(g: Graph, start: string, owner: string) { exists n :: CanWalk(g, start, n) && Walk(g, start, n) == owner }

  lemma {:induction false} ChainWalks(g: Graph, s: seq<string>, i: nat)
    requires IsChain(g, s) && i < |s|
    ensures CanWalk(g, s[0], i) && Walk(g, s[0], i) == s[i]
  {
    if i > 0 { ChainWalks(g, s[1..], i - 1); }
  }

  /** From a cycle the walk never ends. */
  lemma {:induction false} CycleForever(g: Graph, s: seq<string>, i: nat, hops: nat)
    requires IsCycle(g, s) && i < |s|
    ensures CanWalk(g, s[i], hops)
    decreases hops
  {
    if hops > 0 { CycleForever(g, s, if i + 1 < |s| then i + 1 else 0, hops - 1); }
  }

  lemma {:induction false} WalkOn(g: Graph, start: string, n: nat, m: nat)
    requires CanWalk(g, start, n)
    ensures CanWalk(g, start, n + m) <==> CanWalk(g, Walk(g, start, n), m)
    decreases n
  {
    if n > 0 { WalkOn(g, g[start], n - 1, m); }
  }

  lemma {:induction false} WalkShorter(g: Graph, start: string, n: nat, m: nat)
    requires CanWalk(g, start, n) && m <= n
    ensures CanWalk(g, start, m)
    decreases m
  {
    if m > 0 { WalkShorter(g, g[start], n - 1, m - 1); }
  }

  /** A walk that ends meets no cycle. */
  lemma EndMeansNoCycle(g: Graph, start: string, end: nat, c: seq<string>)
    requires !CanWalk(g, start, end) && IsCycle(g, c)
    ensures !Reaches(g, start, c[0])
  {
    if Reaches(g, start, c[0]) {
      var n: nat :| CanWalk(g, start, n) && Walk(g, start, n) == c[0];
      CycleForever(g, c, 0, end);
      WalkOn(g, start, n, end);
      WalkShorter(g, start, n + end, end);
      assert false;
    }
  }

  lemma EndMeansNone(g: Graph, start: string, end: nat)
    requires !CanWalk(g, start, end)
    ensures forall c :: IsCycle(g, c) ==> !Reaches(g, start, c[0])
  {
    hide Reaches;
    forall c | IsCycle(g, c) ensures !Reaches(g, start, c[0]) { EndMeansNoCycle(g, start, end, c); }
  }

  /** A chain whose last owner waits on one of its own closes a cycle there. */
  lemma SuffixCycle(g: Graph, chain: seq<string>, pos: nat)
    requires pos < |chain| && Distinct(chain) && IsChain(g, chain)
    requires chain[|chain| - 1] in g && g[chain[|chain| - 1]] == chain[pos]
    ensures IsCycle(g, chain[pos..]) && chain[pos..] != [] && Reaches(g, chain[0], chain[pos])
  {
    ChainWalks(g, chain, pos);
  }

  lemma ChainEnds(g: Graph, chain: seq<string>)
    requires chain != [] && IsChain(g, chain) && chain[|chain| - 1] !in g
    ensures !CanWalk(g, chain[0], |chain|)
  {
    var n := |chain| - 1;
    ChainWalks(g, chain, n);
    WalkOn(g, chain[0], n, 1);
  }

  /** Where an owner first stands in the chain. */
  method Position(chain: seq<string>, owner: string) returns (pos: nat)
    requires owner in chain
    ensures pos < |chain| && chain[pos] == owner && owner !in chain[..pos]
  {
    pos := 0;
    while chain[pos] != owner
      invariant pos < |chain| && owner in chain[pos..] && owner !in chain[..pos]
      decreases |chain| - pos
    {
      assert chain[..pos + 1] == chain[..pos] + [chain[pos]];
      assert chain[pos..] == [chain[pos]] + chain[pos + 1..];
      pos := pos + 1;
    }
  }

  /** The chain starts at the start and its last owner waits on the current one, who is not the start again. */
  ghost predicate Leads(g: Graph, start: string, chain: seq<string>, current: string) {
    if chain == [] then current == start
    else chain[0] == start && current != start && chain[|chain| - 1] in g && g[chain[|chain| - 1]] == current
  }

  lemma NoHops(g: Graph, start: string)
    ensures Distinct([]) && IsChain(g, []) && Leads(g, start, [], start)
  {
  }

  lemma ChainMore(g: Graph, start: string, chain: seq<string>, current: string)
    requires Distinct(chain) && IsChain(g, chain) && Leads(g, start, chain, current)
    ensures current !in chain ==> Distinct(chain + [current])
    ensures IsChain(g, chain + [current]) && (chain + [current])[0] == start
  {
  }

  lemma LeadsBack(g: Graph, start: string, chain: seq<string>, current: string)
    requires Leads(g, start, chain, current) && current in chain
    ensures chain[0] == start && chain[|chain| - 1] in g && g[chain[|chain| - 1]] == current
  {
  }

  lemma LeadsOn(g: Graph, start: string, chain: seq<string>, next: string)
    requires chain != [] && chain[0] == start && next != start && chain[|chain| - 1] in g && g[chain[|chain| - 1]] == next
    ensures Leads(g, start, chain, next)
  {
  }

  lemma LeadsFrom(g: Graph, start: string, chain: seq<string>, current: string)
    requires Leads(g, start, chain, current) && chain != []
    ensures chain[0] == start
  {
  }

  /**
   A reported cycle is one, reached from the start and possibly not containing it;
   no cycle reported means none is reachable; a truncated walk saw that many
   distinct owners.
   */
  method DetectCycle(g: Graph, start: string, maxDepth: nat) returns (r: CycleOutcome)
    ensures r.Cycle? ==> IsCycle(g, r.owners) && r.owners != [] && Reaches(g, start, r.owners[0])
    ensures r.NoCycle? ==> forall c :: IsCycle(g, c) ==> !Reaches(g, start, c[0])
    ensures r.Truncated? ==> |r.chain| == maxDepth + 1 && Distinct(r.chain) && IsChain(g, r.chain) && r.chain[0] == start
  {
    hide CanWalk, Walk, Reaches, Distinct, IsChain, IsCycle, Leads;
    NoHops(g, start);
    var visited: set<string> := {};
    var chain: seq<string> := [];
    var current := start;
    for i := 0 to maxDepth + 1
      invariant |chain| == i && Distinct(chain) && IsChain(g, chain) && Leads(g, start, chain, current)
      invariant forall o :: o in visited <==> o in chain
    {
      ChainMore(g, start, chain, current);
      if current in visited {
        var pos := Position(chain, current);
        LeadsBack(g, start, chain, current);
        SuffixCycle(g, chain, pos);
        return Cycle(chain[pos..]);
      }
      visited := visited + {current};
      chain := chain + [current];
      if current !in g {
        ChainEnds(g, chain);
        EndMeansNone(g, start, |chain|);
        return NoCycle;
      }
      var next := g[current];
      if next == start {
        SuffixCycle(g, chain, 0);
        assert chain[0..] == chain;
        return Cycle(chain);
      }
      LeadsOn(g, start, chain, next);
      current := next;
    }
    LeadsFrom(g, start, chain, current);
    return Truncated(chain);
  }

  lemma {:induction false} DistinctSize(s: seq<string>, owners: set<string>)
    requires Distinct(s) && forall o :: o in s ==> o in owners
    ensures |s| <= |owners|
    decreases |s|
  {
    if s != [] {
      var last := s[|s| - 1];
      assert last in s && last in owners;
      forall o | o in s[..|s| - 1] ensures o in owners - {last} { assert o in s; }
      DistinctSize(s[..|s| - 1], owners - {last});
    }
  }

  /** With a depth of at least the number of reachable owners, the walk is never cut short. */
  lemma {:induction false} ChainStaysReachable(g: Graph, chain: seq<string>, owners: set<string>, i: nat)
    requires chain != [] && IsChain(g, chain) && chain[0] in owners && i < |chain|
    requires forall o :: o in owners && o in g ==> g[o] in owners
    ensures chain[i] in owners
  {
    if i > 0 { ChainStaysReachable(g, chain, owners, i - 1); }
  }

  lemma NeverTruncated(g: Graph, start: string, chain: seq<string>, maxDepth: nat, owners: set<string>)
    requires start in owners && (forall o :: o in owners && o in g ==> g[o] in owners) && |owners| <= maxDepth
    requires chain != [] && chain[0] == start && Distinct(chain) && IsChain(g, chain)
    ensures |chain| != maxDepth + 1
  {
    forall o | o in chain ensures o in owners {
      var i :| 0 <= i < |chain| && chain[i] == o;
      ChainStaysReachable(g, chain, owners, i);
    }
    DistinctSize(chain, owners);
  }

  /** The decision: with enough depth, a cycle is returned exactly when one is reachable. */
  method DecideCycle(g: Graph, start: string, maxDepth: nat, ghost owners: set<string>) returns (r: CycleOutcome)
    requires start in owners && (forall o :: o in owners && o in g ==> g[o] in owners) && |owners| <= maxDepth
    ensures !r.Truncated?
    ensures r.Cycle? <==> exists c :: IsCycle(g, c) && Reaches(g, start, c[0])
  {
    r := DetectCycle(g, start, maxDepth);
    if r.Truncated? { NeverTruncated(g, start, r.chain, maxDepth, owners); assert false; }
  }
}

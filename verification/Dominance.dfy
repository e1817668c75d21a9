/** Dominance over all paths from the entry, and the order it puts on the dominators of a vertex. */
module Dominance {
  import opened Graph

  ghost predicate Dom(g: Digraph, d: Vertex, v: Vertex) {
    forall p :: IsPath(g, p, v) ==> d in p
  }

  ghost predicate StrictDom(g: Digraph, d: Vertex, v: Vertex) {
    Dom(g, d, v) && d != v
  }

  // The closest strict dominator: every other strict dominator dominates it.
  ghost predicate IsIdom(g: Digraph, d: Vertex, v: Vertex) {
    StrictDom(g, d, v) && forall e :: StrictDom(g, e, v) ==> Dom(g, e, d)
  }

  lemma OnlyEntryDominatesEntry(g: Digraph, d: Vertex)
    requires Dom(g, d, g.entry)
    ensures d == g.entry
  {
    assert IsPath(g, [g.entry], g.entry);
    assert d in [g.entry];
  }

  // A path to v with an occurrence of d at i has a prefix ending in d.
  lemma DomTrans(g: Digraph, a: Vertex, b: Vertex, v: Vertex)
    requires Dom(g, a, b) && Dom(g, b, v)
    ensures Dom(g, a, v)
  {
    forall p | IsPath(g, p, v)
      ensures a in p
    {
      var i :| 0 <= i < |p| && p[i] == b;
      PathPrefix(g, p, v, i);
      assert a in p[..i + 1];
    }
  }

  lemma DominatorReachable(g: Digraph, d: Vertex, v: Vertex)
    requires Dom(g, d, v) && Reachable(g, v)
    ensures Reachable(g, d)
  {
    var p :| IsPath(g, p, v);
    var i :| 0 <= i < |p| && p[i] == d;
    PathPrefix(g, p, v, i);
  }

  // Some prefix of a walk through v ends in v and meets it nowhere else.
  lemma FirstVisit(p: seq<Vertex>, v: Vertex) returns (i: nat)
    requires v in p
    ensures i < |p| && p[i] == v && v !in p[..i]
  {
    i := 0;
    while p[i] != v
      invariant i < |p| && v !in p[..i] && v in p[i..]
      decreases |p| - i
    {
      assert p[i..] == [p[i]] + p[i + 1..];
      i := i + 1;
    }
  }

  lemma LastVisit(p: seq<Vertex>, v: Vertex) returns (i: nat)
    requires v in p
    ensures i < |p| && p[i] == v && v !in p[i + 1..]
  {
    i := |p| - 1;
    while p[i] != v
      invariant 0 <= i < |p| && v !in p[i + 1..] && v in p[..i + 1]
      decreases i
    {
      assert p[..i + 1] == p[..i] + [p[i]];
      assert p[i..] == [p[i]] + p[i + 1..];
      i := i - 1;
    }
  }

  lemma DomAntisym(g: Digraph, a: Vertex, b: Vertex)
    requires Dom(g, a, b) && Dom(g, b, a) && Reachable(g, b)
    ensures a == b
  {
    if a != b {
      var p :| IsPath(g, p, b);
      var i := FirstVisit(p, b);
      PathPrefix(g, p, b, i);
      assert p[..i + 1] == p[..i] + [b];
      assert a in p[..i];
      var j :| 0 <= j < i && p[j] == a;
      assert b !in p[..j + 1];
      PathPrefix(g, p, b, j);
    }
  }

  lemma AvoidingPath(g: Digraph, d: Vertex, v: Vertex) returns (p: seq<Vertex>)
    requires !Dom(g, d, v)
    ensures IsPath(g, p, v) && d !in p
  {
    p :| IsPath(g, p, v) && d !in p;
  }

  // The dominators of a reachable vertex form a chain.
  lemma DomComparable(g: Digraph, a: Vertex, b: Vertex, v: Vertex)
    requires Dom(g, a, v) && Dom(g, b, v) && Reachable(g, v)
    ensures Dom(g, a, b) || Dom(g, b, a)
  {
    if a != b {
      var p :| IsPath(g, p, v);
      var i := LastVisit(p, a);
      var j := LastVisit(p, b);
      if i < j {
        LaterLastVisitIsDominated(g, a, b, v, p, i, j);
      } else {
        LaterLastVisitIsDominated(g, b, a, v, p, j, i);
      }
    }
  }

  lemma LaterLastVisitIsDominated(g: Digraph, a: Vertex, b: Vertex, v: Vertex, p: seq<Vertex>, i: nat, j: nat)
    requires Dom(g, a, v) && IsPath(g, p, v)
    requires i < j < |p| && p[j] == b && a !in p[i + 1..]
    ensures Dom(g, a, b)
  {
    if !Dom(g, a, b) {
      var q := AvoidingPath(g, a, b);
      assert a !in p[j..][1..];
      JoinWalk(g, q, b, p[j..]);
    }
  }

  // A strict dominator of v dominates every predecessor of v.
  lemma DomPred(g: Digraph, d: Vertex, u: Vertex, v: Vertex)
    requires StrictDom(g, d, v) && HasEdge(g, u, v)
    ensures Dom(g, d, u)
  {
    forall p | IsPath(g, p, u)
      ensures d in p
    {
      assert IsPath(g, p + [v], v);
      assert d in p + [v];
    }
  }

  // A vertex that dominates every predecessor of v but those v dominates itself, dominates v.
  lemma DomByPreds(g: Digraph, d: Vertex, v: Vertex)
    requires v != g.entry
    requires forall u :: HasEdge(g, u, v) && Reachable(g, u) && !Dom(g, v, u) ==> Dom(g, d, u)
    ensures Dom(g, d, v)
  {
    forall p | IsPath(g, p, v)
      ensures d in p
    {
      var i := FirstVisit(p, v);
      assert i > 0;
      var u := p[i - 1];
      assert HasEdge(g, u, p[i - 1 + 1]);
      PathPrefix(g, p, v, i - 1);
      assert v !in p[..i - 1 + 1];
      assert d in p[..i - 1 + 1];
    }
  }

  lemma IdomUnique(g: Digraph, d: Vertex, e: Vertex, v: Vertex)
    requires IsIdom(g, d, v) && IsIdom(g, e, v) && Reachable(g, v)
    ensures d == e
  {
    DominatorReachable(g, e, v);
    DomAntisym(g, d, e);
  }

  // An edge whose target does not dominate its source.
  ghost predicate ForwardEdge(g: Digraph, u: Vertex, v: Vertex) {
    HasEdge(g, u, v) && Reachable(g, u) && !Dom(g, v, u)
  }

  ghost predicate ForwardCycle(g: Digraph, c: seq<Vertex>) {
    |c| >= 2 && c[0] == c[|c| - 1] && forall i :: 0 <= i < |c| - 1 ==> ForwardEdge(g, c[i], c[i + 1])
  }

  /** A graph is reducible when its forward edges form no cycle. */
  ghost predicate Reducible(g: Digraph) {
    forall c :: !ForwardCycle(g, c)
  }
}

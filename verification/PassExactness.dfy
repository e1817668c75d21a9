/** Exactly when the single pass finds the dominator tree, and a graph on which it does not. */
module PassExactness {
  import opened Words
  import opened Graph
  import opened DepthFirstSearch
  import opened Dominance
  import opened DominanceComputer
  import opened DominatorTree

  /** Another pass over the edges would move no parent: it lies on the chain of every predecessor. */
  ghost predicate Settled(g: Digraph, index: Index, doms: Parents)
    requires Climbs(g.entry, index, doms)
  {
    forall u, v {:trigger HasEdge(g, u, v)} :: HasEdge(g, u, v) && u in doms && v in doms && v != g.entry ==>
      doms[v] in Chain(g.entry, index, doms, u)
  }

  lemma {:induction false} ChainNested(entry: Vertex, index: Index, doms: Parents, u: Vertex, x: Vertex, d: Vertex)
    requires Climbs(entry, index, doms) && u in doms && x in doms
    requires x in Chain(entry, index, doms, u) && d in Chain(entry, index, doms, x)
    ensures d in Chain(entry, index, doms, u)
    decreases index[entry] - index[u]
  {
    if x != u {
      ChainNested(entry, index, doms, doms[u], x, d);
    }
  }

  // With settled parents every path to v passes through the whole chain of v.
  lemma {:induction false} ChainOnPath(g: Digraph, index: Index, doms: Parents, p: seq<Vertex>, v: Vertex, d: Vertex)
    requires IsPass(g, index, doms) && Settled(g, index, doms)
    requires IsPath(g, p, v) && v in doms && d in Chain(g.entry, index, doms, v)
    ensures d in p
    decreases |p|
  {
    if v != g.entry && d != v {
      var k := |p| - 2;
      var u := p[k];
      PathPrefix(g, p, v, k);
      assert HasEdge(g, p[k], p[k + 1]);
      ChainAbove(g.entry, index, doms, doms[v]);
      ChainNested(g.entry, index, doms, u, doms[v], d);
      ChainOnPath(g, index, doms, p[..k + 1], u, d);
    }
  }

  lemma SettledIsExact(g: Digraph, index: Index, doms: Parents, v: Vertex)
    requires IsPass(g, index, doms) && Settled(g, index, doms) && v in doms && v != g.entry
    ensures IsIdom(g, doms[v], v)
  {
    var d := doms[v];
    ChainAbove(g.entry, index, doms, d);
    forall p | IsPath(g, p, v)
      ensures d in p
    {
      ChainOnPath(g, index, doms, p, v, d);
    }
    forall e | StrictDom(g, e, v)
      ensures Dom(g, e, d)
    {
      ChainHoldsDominators(g, index, doms, v, e);
      OffTheBottom(g.entry, index, doms, v, e);
      forall p | IsPath(g, p, d)
        ensures e in p
      {
        ChainOnPath(g, index, doms, p, d, e);
      }
    }
  }

  lemma ExactIsSettled(g: Digraph, index: Index, doms: Parents, u: Vertex, v: Vertex)
    requires IsPass(g, index, doms) && HasEdge(g, u, v) && u in doms && v in doms && v != g.entry
    requires IsIdom(g, doms[v], v)
    ensures doms[v] in Chain(g.entry, index, doms, u)
  {
    hide Chain, IsMeet, Climbs;
    DomPred(g, doms[v], u, v);
    ChainHoldsDominators(g, index, doms, u, doms[v]);
  }

  /** On any graph for which the pass returns, its parents are the immediate dominators exactly when
      they are settled. */
  lemma ExactWhenSettled(g: Digraph, index: Index, doms: Parents)
    requires IsPass(g, index, doms)
    ensures ExactParents(g, doms) <==> Settled(g, index, doms)
  {
    hide Chain, Dom, OnEarlierChains, Reachable;
    if Settled(g, index, doms) {
      forall v {:trigger doms[v]} | v in doms && v != g.entry
        ensures IsIdom(g, doms[v], v)
      {
        SettledIsExact(g, index, doms, v);
      }
    }
    if ExactParents(g, doms) {
      forall u, v {:trigger HasEdge(g, u, v)} | HasEdge(g, u, v) && u in doms && v in doms && v != g.entry
        ensures doms[v] in Chain(g.entry, index, doms, u)
      {
        ExactIsSettled(g, index, doms, u, v);
      }
    }
  }

  // ---- The same, before the pass

  function EdgesDown(edges: seq<Edge>, index: Index): (r: seq<Edge>)
    ensures forall e :: e in r <==> e in edges && e.src in index && e.dst in index && index[e.src] > index[e.dst]
  {
    if edges == [] then []
    else
      var e := edges[0];
      (if e.src in index && e.dst in index && index[e.src] > index[e.dst] then [e] else [])
        + EdgesDown(edges[1..], index)
  }

  // The graph without the edges that retreat in the search order.
  function Advancing(g: Digraph, index: Index): Digraph {
    Digraph(g.entry, EdgesDown(g.edges, index))
  }

  lemma AdvancingPath(g: Digraph, index: Index, p: seq<Vertex>, v: Vertex)
    requires IsPath(Advancing(g, index), p, v)
    ensures IsPath(g, p, v)
  {
    forall i | 0 <= i < |p| - 1
      ensures HasEdge(g, p[i], p[i + 1])
    {
      assert HasEdge(Advancing(g, index), p[i], p[i + 1]);
    }
  }

  lemma LaterIsHigher(entry: Vertex, index: Index, doms: Parents, v: Vertex)
    requires Climbs(entry, index, doms) && v in doms
    ensures v in index && entry in index && index[v] <= index[entry]
  {
  }

  // What dominates v without the retreating edges is on its chain.
  lemma {:induction false} AdvancingOnChain(g: Digraph, index: Index, doms: Parents, v: Vertex, d: Vertex)
    requires IsPass(g, index, doms) && v in doms && Dom(Advancing(g, index), d, v)
    ensures d in Chain(g.entry, index, doms, v)
    decreases index[g.entry] - index[v]
  {
    var a := Advancing(g, index);
    if v == g.entry {
      OnlyEntryDominatesEntry(a, d);
    } else if d != v {
      assert IsMeet(g, index, doms, v);
      forall p | HasEdge(g, p, v) && p in doms && index[p] > index[v]
        ensures d in Chain(g.entry, index, doms, p)
      {
        assert HasEdge(a, p, v);
        DomPred(a, d, p, v);
        LaterIsHigher(g.entry, index, doms, p);
        AdvancingOnChain(g, index, doms, p, d);
      }
      assert OnEarlierChains(g, index, doms, v, d);
    }
  }

  // The last edge of an advancing path comes from a vertex that was handled earlier.
  lemma LastAdvances(g: Digraph, index: Index, doms: Parents, p: seq<Vertex>, v: Vertex)
    requires IsPass(g, index, doms) && IsPath(Advancing(g, index), p, v) && v != g.entry
    ensures |p| >= 2 && IsPath(Advancing(g, index), p[..|p| - 1], p[|p| - 2])
    ensures var u := p[|p| - 2]; HasEdge(g, u, v) && u in doms && u in index && v in index && index[u] > index[v]
  {
    hide IsMeet, Chain, Climbs;
    var a := Advancing(g, index);
    var k := |p| - 2;
    PathPrefix(a, p, v, k);
    assert p[..k + 1] == p[..|p| - 1];
    assert HasEdge(a, p[k], p[k + 1]);
    AdvancingPath(g, index, p[..k + 1], p[k]);
  }

  lemma OnEarlierChain(g: Digraph, index: Index, doms: Parents, v: Vertex, u: Vertex, d: Vertex)
    requires IsPass(g, index, doms) && v in doms && v != g.entry && d != v && d in Chain(g.entry, index, doms, v)
    requires HasEdge(g, u, v) && u in doms && u in index && v in index && index[u] > index[v]
    ensures d in Chain(g.entry, index, doms, u)
  {
    hide Climbs;
    assert IsMeet(g, index, doms, v);
    assert OnEarlierChains(g, index, doms, v, d);
  }

  // What is on the chain of v is on every path to it without retreating edges.
  lemma {:induction false} ChainOnAdvancing(g: Digraph, index: Index, doms: Parents, p: seq<Vertex>, v: Vertex,
      d: Vertex)
    requires IsPass(g, index, doms) && v in doms && d in Chain(g.entry, index, doms, v)
    requires IsPath(Advancing(g, index), p, v)
    ensures d in p
    decreases |p|
  {
    hide IsMeet, Climbs, Advancing, Reachable;
    if v != g.entry && d != v {
      LastAdvances(g, index, doms, p, v);
      OnEarlierChain(g, index, doms, v, p[|p| - 2], d);
      ChainOnAdvancing(g, index, doms, p[..|p| - 1], p[|p| - 2], d);
    }
  }

  /** On any graph for which the pass returns, it computes dominance along the advancing edges. */
  lemma PassIsAdvancingDominance(g: Digraph, index: Index, doms: Parents, v: Vertex, d: Vertex)
    requires IsPass(g, index, doms) && v in doms
    ensures d in Chain(g.entry, index, doms, v) <==> Dom(Advancing(g, index), d, v)
  {
    if Dom(Advancing(g, index), d, v) {
      AdvancingOnChain(g, index, doms, v, d);
    } else if d in Chain(g.entry, index, doms, v) {
      forall p | IsPath(Advancing(g, index), p, v)
        ensures d in p
      {
        ChainOnAdvancing(g, index, doms, p, v, d);
      }
    }
  }

  /** Whatever strictly dominates the target of a retreating edge along the advancing edges also
      dominates its source along them. The parents are not mentioned. */
  ghost predicate RetreatsInside(g: Digraph, index: Index) {
    forall u, v, d {:trigger StaysInside(g, index, u, v, d)} :: StaysInside(g, index, u, v, d)
  }

  ghost predicate StaysInside(g: Digraph, index: Index, u: Vertex, v: Vertex, d: Vertex) {
    Retreating(g, index, u, v) && StrictDom(Advancing(g, index), d, v) ==> Dom(Advancing(g, index), d, u)
  }

  ghost predicate Retreating(g: Digraph, index: Index, u: Vertex, v: Vertex) {
    HasEdge(g, u, v) && Reachable(g, u) && v != g.entry && u in index && v in index && index[u] <= index[v]
  }

  lemma SettledRetreats(g: Digraph, index: Index, doms: Parents, u: Vertex, v: Vertex, d: Vertex)
    requires IsPass(g, index, doms) && Settled(g, index, doms)
    requires Retreating(g, index, u, v) && StrictDom(Advancing(g, index), d, v)
    ensures Dom(Advancing(g, index), d, u)
  {
    ReachableStep(g, u, v);
    PassIsAdvancingDominance(g, index, doms, v, d);
    OffTheBottom(g.entry, index, doms, v, d);
    ParentKnown(g.entry, index, doms, v);
    ChainNested(g.entry, index, doms, u, doms[v], d);
    PassIsAdvancingDominance(g, index, doms, u, d);
  }

  lemma RetreatsSettle(g: Digraph, index: Index, doms: Parents, u: Vertex, v: Vertex)
    requires IsPass(g, index, doms) && RetreatsInside(g, index)
    requires HasEdge(g, u, v) && u in doms && v in doms && v != g.entry
    ensures doms[v] in Chain(g.entry, index, doms, u)
  {
    hide Dom, Advancing;
    var d := doms[v];
    ParentClimbs(g.entry, index, doms, v);
    LaterIsHigher(g.entry, index, doms, u);
    if index[u] > index[v] {
      assert IsMeet(g, index, doms, v);
      assert OnEarlierChains(g, index, doms, v, d);
    } else {
      assert Retreating(g, index, u, v);
      assert StaysInside(g, index, u, v, d);
      PassIsAdvancingDominance(g, index, doms, v, d);
      PassIsAdvancingDominance(g, index, doms, u, d);
    }
  }

  /** When the pass returns it is exact exactly when the retreating edges stay inside, which is a
      condition on the graph and the search order alone. */
  lemma ExactExactly(g: Digraph, index: Index, doms: Parents)
    requires IsPass(g, index, doms)
    ensures ExactParents(g, doms) <==> RetreatsInside(g, index)
  {
    hide Chain, IsMeet, ExactParents, Dom, Advancing;
    ExactWhenSettled(g, index, doms);
    if Settled(g, index, doms) {
      forall u, v, d {:trigger StaysInside(g, index, u, v, d)}
        ensures StaysInside(g, index, u, v, d)
      {
        if Retreating(g, index, u, v) && StrictDom(Advancing(g, index), d, v) {
          SettledRetreats(g, index, doms, u, v, d);
        }
      }
    }
    if RetreatsInside(g, index) {
      forall u, v {:trigger HasEdge(g, u, v)} | HasEdge(g, u, v) && u in doms && v in doms && v != g.entry
        ensures doms[v] in Chain(g.entry, index, doms, u)
      {
        RetreatsSettle(g, index, doms, u, v);
      }
    }
  }

  // ---- An irreducible graph: 2 and 3 form a cycle with two entries

  const IRREDUCIBLE: Digraph := Digraph(0, [Edge(0, 1), Edge(1, 2), Edge(2, 3), Edge(0, 3), Edge(3, 2)])
  const ITS_INDEX: Index := map[3 := 0, 2 := 1, 1 := 2, 0 := 3]
  const ITS_PARENTS: Parents := map[0 := 0, 1 := 0, 2 := 1, 3 := 0]

  lemma PathEndsInEdge(g: Digraph, p: seq<Vertex>, v: Vertex)
    requires IsPath(g, p, v) && |p| > 1
    ensures exists u :: Edge(u, v) in g.edges
  {
    var k := |p| - 2;
    assert HasEdge(g, p[k], p[k + 1]);
  }

  lemma ItsVertices(v: Vertex)
    ensures Reachable(IRREDUCIBLE, v) <==> v < 4
  {
    var g := IRREDUCIBLE;
    if v < 4 {
      EntryReachable(g);
      ReachableStep(g, 0, 1);
      ReachableStep(g, 1, 2);
      ReachableStep(g, 2, 3);
    } else if Reachable(g, v) {
      var p :| IsPath(g, p, v);
      if |p| > 1 {
        PathEndsInEdge(g, p, v);
      }
    }
  }

  lemma ItClimbs()
    ensures Climbs(0, ITS_INDEX, ITS_PARENTS)
  {
  }

  lemma ItsChains()
    ensures Climbs(0, ITS_INDEX, ITS_PARENTS)
    ensures Chain(0, ITS_INDEX, ITS_PARENTS, 0) == {0} && Chain(0, ITS_INDEX, ITS_PARENTS, 1) == {0, 1}
    ensures Chain(0, ITS_INDEX, ITS_PARENTS, 2) == {0, 1, 2} && Chain(0, ITS_INDEX, ITS_PARENTS, 3) == {0, 3}
  {
    ItClimbs();
    hide Climbs;
    assert Chain(0, ITS_INDEX, ITS_PARENTS, 0) == {0};
    assert Chain(0, ITS_INDEX, ITS_PARENTS, 1) == {1} + {0};
    assert Chain(0, ITS_INDEX, ITS_PARENTS, 2) == {2} + {0, 1};
    assert Chain(0, ITS_INDEX, ITS_PARENTS, 3) == {3} + {0};
  }

  // The predecessors that are handled before b.
  predicate HandledFirst(b: Vertex, p: Vertex) {
    (b == 1 && p == 0) || (b == 2 && p == 1) || (b == 3 && (p == 2 || p == 0))
  }

  lemma ItsEarlier(b: Vertex, p: Vertex)
    requires b in ITS_PARENTS && b != 0
    ensures HasEdge(IRREDUCIBLE, p, b) && p in ITS_PARENTS && ITS_INDEX[p] > ITS_INDEX[b] <==> HandledFirst(b, p)
  {
  }

  lemma HandledFirsts()
    ensures HandledFirst(1, 0) && HandledFirst(2, 1) && HandledFirst(3, 2) && HandledFirst(3, 0)
    ensures forall p {:trigger HandledFirst(1, p)} :: HandledFirst(1, p) ==> p == 0
    ensures forall p {:trigger HandledFirst(2, p)} :: HandledFirst(2, p) ==> p == 1
    ensures forall p {:trigger HandledFirst(3, p)} :: HandledFirst(3, p) ==> p == 0 || p == 2
  {
  }

  lemma ItsMeets(b: Vertex, d: Vertex, index: Index, doms: Parents)
    requires index == ITS_INDEX && doms == ITS_PARENTS
    requires Climbs(0, index, doms) && b in doms && b != 0
    ensures d in Chain(0, index, doms, doms[b]) <==> OnEarlierChains(IRREDUCIBLE, index, doms, b, d)
  {
    ItsChains();
    hide Chain, HasEdge, Climbs, HandledFirst;
    HandledFirsts();
    forall p
      ensures HasEdge(IRREDUCIBLE, p, b) && p in doms && index[p] > index[b] <==> HandledFirst(b, p)
    {
      ItsEarlier(b, p);
    }
  }

  lemma ItsMeet(b: Vertex)
    requires b in ITS_PARENTS && b != 0
    ensures IsMeet(IRREDUCIBLE, ITS_INDEX, ITS_PARENTS, b)
  {
    hide Chain, HasEdge, OnEarlierChains, Reachable;
    var g := IRREDUCIBLE;
    ItsChains();
    forall d {:trigger OnEarlierChains(g, ITS_INDEX, ITS_PARENTS, b, d)}
      ensures d in Chain(0, ITS_INDEX, ITS_PARENTS, ITS_PARENTS[b]) <==>
          OnEarlierChains(g, ITS_INDEX, ITS_PARENTS, b, d)
    {
      ItsMeets(b, d, ITS_INDEX, ITS_PARENTS);
    }
  }

  lemma ItsPass()
    ensures IsPass(IRREDUCIBLE, ITS_INDEX, ITS_PARENTS)
  {
    hide Chain, HasEdge, IsMeet, Reachable;
    var g := IRREDUCIBLE;
    ItsChains();
    forall v
      ensures v in ITS_PARENTS <==> Reachable(g, v)
    {
      ItsVertices(v);
    }
    forall b | b in ITS_PARENTS && b != g.entry
      ensures IsMeet(g, ITS_INDEX, ITS_PARENTS, b)
    {
      ItsMeet(b);
    }
  }

  // ---- Searching the examples

  // Nothing new is found among what has been seen.
  lemma {:induction false} VisitSeen(g: Digraph, vs: seq<Vertex>, seen: set<Vertex>)
    requires seen <= Universe(g) && forall v :: v in vs ==> v in seen
    ensures Visit(g, vs, seen) == Found([], [], seen)
  {
    if vs != [] {
      VisitSeen(g, vs[1..], seen);
    }
  }

  // The first vertex is explored, and then the others have been seen.
  lemma VisitFirst(g: Digraph, vs: seq<Vertex>, seen: set<Vertex>, now: set<Vertex>, inner: Found)
    requires seen <= Universe(g) && (forall v :: v in vs ==> v in Universe(g)) && vs != [] && vs[0] !in seen
    requires now == seen + {vs[0]} && (forall w :: w in Succs(g, vs[0]) ==> w in Universe(g))
    requires Visit(g, Succs(g, vs[0]), now) == inner && forall w :: w in vs[1..] ==> w in inner.seen
    ensures Visit(g, vs, seen) == Found([vs[0]] + inner.pre, inner.post + [vs[0]], inner.seen)
  {
    VisitSeen(g, vs[1..], inner.seen);
  }

  lemma ItsSuccs()
    ensures Succs(IRREDUCIBLE, 0) == [1, 3] && Succs(IRREDUCIBLE, 1) == [2] && Succs(IRREDUCIBLE, 2) == [3]
    ensures Succs(IRREDUCIBLE, 3) == [2] && Universe(IRREDUCIBLE) >= {0, 1, 2, 3}
  {
    hide Targets;
    var g := IRREDUCIBLE;
    EdgesOfFive(g.edges, Edge(0, 1), Edge(1, 2), Edge(2, 3), Edge(0, 3), Edge(3, 2), 0);
    EdgesOfFive(g.edges, Edge(0, 1), Edge(1, 2), Edge(2, 3), Edge(0, 3), Edge(3, 2), 1);
    EdgesOfFive(g.edges, Edge(0, 1), Edge(1, 2), Edge(2, 3), Edge(0, 3), Edge(3, 2), 2);
    EdgesOfFive(g.edges, Edge(0, 1), Edge(1, 2), Edge(2, 3), Edge(0, 3), Edge(3, 2), 3);
    assert HasEdge(g, 0, 1) && HasEdge(g, 1, 2) && HasEdge(g, 2, 3);
  }

  lemma ItsOrders()
    ensures SearchOrders(IRREDUCIBLE).pre == [0, 1, 2, 3] && SearchOrders(IRREDUCIBLE).post == [3, 2, 1, 0]
  {
    hide Visit, Universe, Succs;
    ItsSuccs();
    ItsFromOne();
    VisitFirst(IRREDUCIBLE, [0], {}, {0}, Found([1, 2, 3], [3, 2, 1], {0, 1, 2, 3}));
  }

  lemma ItsFromOne()
    ensures {0} <= Universe(IRREDUCIBLE) && forall v :: v in [1, 3] ==> v in Universe(IRREDUCIBLE)
    ensures Visit(IRREDUCIBLE, [1, 3], {0}) == Found([1, 2, 3], [3, 2, 1], {0, 1, 2, 3})
  {
    hide Visit, Universe, Succs;
    ItsSuccs();
    ItsFromTwo();
    VisitFirst(IRREDUCIBLE, [1, 3], {0}, {0, 1}, Found([2, 3], [3, 2], {0, 1, 2, 3}));
  }

  lemma ItsFromTwo()
    ensures {0, 1} <= Universe(IRREDUCIBLE) && 2 in Universe(IRREDUCIBLE)
    ensures Visit(IRREDUCIBLE, [2], {0, 1}) == Found([2, 3], [3, 2], {0, 1, 2, 3})
  {
    hide Visit, Universe, Succs;
    var all := {0, 1, 2, 3};
    ItsSuccs();
    VisitSeen(IRREDUCIBLE, [2], all);
    VisitFirst(IRREDUCIBLE, [3], {0, 1, 2}, all, Found([], [], all));
    VisitFirst(IRREDUCIBLE, [2], {0, 1}, {0, 1, 2}, Found([3], [3], all));
  }

  // The index is the one that the search of the graph gives it.
  lemma ItsSearch(pre: seq<Vertex>, post: seq<Vertex>)
    requires pre == [0, 1, 2, 3] && post == [3, 2, 1, 0]
    ensures IsSearchOf(IRREDUCIBLE, pre, post) && Indexes(post, ITS_INDEX)
  {
    hide IsSearchOf, SearchOrders;
    ItsOrders();
    SearchIsSound(IRREDUCIBLE);
  }

  function TargetIf(e: Edge, u: Vertex): seq<Vertex> {
    if e.src == u then [e.dst] else []
  }

  lemma TargetsAppend(edges: seq<Edge>, e: Edge, u: Vertex)
    ensures Targets(edges + [e], u) == Targets(edges, u) + TargetIf(e, u)
  {
    OneMoreEdge(edges, e, u);
  }

  lemma TargetsOne(e: Edge, u: Vertex)
    ensures Targets([e], u) == TargetIf(e, u)
  {
    assert [e][..0] == [];
  }

  lemma EdgesOfFour(edges: seq<Edge>, a: Edge, b: Edge, c: Edge, d: Edge, u: Vertex)
    requires edges == [a, b, c, d]
    ensures Targets(edges, u) == TargetIf(a, u) + TargetIf(b, u) + TargetIf(c, u) + TargetIf(d, u)
  {
    hide TargetIf, Targets;
    TargetsOne(a, u);
    TargetsAppend([a], b, u);
    TargetsAppend([a] + [b], c, u);
    TargetsAppend([a] + [b] + [c], d, u);
    assert [a] + [b] + [c] + [d] == edges;
  }

  lemma EdgesOfFive(edges: seq<Edge>, a: Edge, b: Edge, c: Edge, d: Edge, e: Edge, u: Vertex)
    requires edges == [a, b, c, d, e]
    ensures Targets(edges, u) == TargetIf(a, u) + TargetIf(b, u) + TargetIf(c, u) + TargetIf(d, u) + TargetIf(e, u)
  {
    hide TargetIf, Targets;
    EdgesOfFour([a, b, c, d], a, b, c, d, u);
    TargetsAppend([a, b, c, d], e, u);
    assert [a, b, c, d] + [e] == edges;
  }

  function SourceIf(e: Edge, v: Vertex): seq<Vertex> {
    if e.dst == v then [e.src] else []
  }

  lemma SourcesAppend(edges: seq<Edge>, e: Edge, v: Vertex)
    ensures Sources(edges + [e], v) == Sources(edges, v) + SourceIf(e, v)
  {
    assert (edges + [e])[..|edges|] == edges;
  }

  lemma SourcesOne(e: Edge, v: Vertex)
    ensures Sources([e], v) == SourceIf(e, v)
  {
    assert [e][..0] == [];
  }

  lemma PredsOfFour(edges: seq<Edge>, a: Edge, b: Edge, c: Edge, d: Edge, v: Vertex)
    requires edges == [a, b, c, d]
    ensures Sources(edges, v) == SourceIf(a, v) + SourceIf(b, v) + SourceIf(c, v) + SourceIf(d, v)
  {
    hide SourceIf, Sources;
    SourcesOne(a, v);
    SourcesAppend([a], b, v);
    SourcesAppend([a] + [b], c, v);
    SourcesAppend([a] + [b] + [c], d, v);
    assert [a] + [b] + [c] + [d] == edges;
  }

  lemma PredsOfFive(edges: seq<Edge>, a: Edge, b: Edge, c: Edge, d: Edge, e: Edge, v: Vertex)
    requires edges == [a, b, c, d, e]
    ensures Sources(edges, v) == SourceIf(a, v) + SourceIf(b, v) + SourceIf(c, v) + SourceIf(d, v) + SourceIf(e, v)
  {
    hide SourceIf, Sources;
    PredsOfFour([a, b, c, d], a, b, c, d, v);
    SourcesAppend([a, b, c, d], e, v);
    assert [a, b, c, d] + [e] == edges;
  }

  lemma ItsPreds()
    ensures Preds(IRREDUCIBLE, 1) == [0] && Preds(IRREDUCIBLE, 2) == [1, 3] && Preds(IRREDUCIBLE, 3) == [2, 0]
  {
    hide Sources;
    var g := IRREDUCIBLE;
    PredsOfFive(g.edges, Edge(0, 1), Edge(1, 2), Edge(2, 3), Edge(0, 3), Edge(3, 2), 1);
    PredsOfFive(g.edges, Edge(0, 1), Edge(1, 2), Edge(2, 3), Edge(0, 3), Edge(3, 2), 2);
    PredsOfFive(g.edges, Edge(0, 1), Edge(1, 2), Edge(2, 3), Edge(0, 3), Edge(3, 2), 3);
  }

  lemma ItsSeeds(b: Vertex)
    requires b in ITS_INDEX && b != 0
    ensures SeedPrecedes(IRREDUCIBLE, ITS_INDEX, b)
  {
    hide Sources;
    var g := IRREDUCIBLE;
    ItsPreds();
    assert HasEdge(g, 0, 1) && HasEdge(g, 1, 2) && HasEdge(g, 3, 2);
    assert SeedAt(g, Preds(g, b), 0);
  }

  lemma ItsParentsWrong()
    ensures !ExactParents(IRREDUCIBLE, ITS_PARENTS)
  {
    hide Chain, IsMeet, ExactParents, Reachable;
    ItsPass();
    ItsChains();
    ExactWhenSettled(IRREDUCIBLE, ITS_INDEX, ITS_PARENTS);
    assert HasEdge(IRREDUCIBLE, 3, 2);
  }

  /** Reducibility cannot be dropped: here the pass gets through and makes 1 the parent of 2, which 0 reaches
      through 3. */
  lemma PassNotAlwaysExact()
    ensures IsSearchOf(IRREDUCIBLE, [0, 1, 2, 3], [3, 2, 1, 0]) && Indexes([3, 2, 1, 0], ITS_INDEX)
    ensures forall b :: b in ITS_INDEX && b != 0 ==> SeedPrecedes(IRREDUCIBLE, ITS_INDEX, b)
    ensures IsPass(IRREDUCIBLE, ITS_INDEX, ITS_PARENTS) && !ExactParents(IRREDUCIBLE, ITS_PARENTS)
  {
    hide *;
    ItsSearch([0, 1, 2, 3], [3, 2, 1, 0]);
    ItsPass();
    ItsParentsWrong();
    forall b | b in ITS_INDEX && b != 0
      ensures SeedPrecedes(IRREDUCIBLE, ITS_INDEX, b)
    {
      ItsSeeds(b);
    }
  }

  // ---- A reducible graph that the pass does not get through: a loop 2, 1 whose body is listed first

  const LOOP: Digraph := Digraph(0, [Edge(0, 3), Edge(1, 2), Edge(2, 1), Edge(3, 2)])
  const LOOP_INDEX: Index := map[1 := 0, 2 := 1, 3 := 2, 0 := 3]

  lemma LoopDominance(p: seq<Vertex>)
    requires IsPath(LOOP, p, 1)
    ensures 2 in p
  {
    var k := |p| - 2;
    assert HasEdge(LOOP, p[k], p[k + 1]);
  }

  lemma {:induction false} LoopForward(c: seq<Vertex>, k: nat)
    requires k < |c| && forall i :: 0 <= i < |c| - 1 ==> ForwardEdge(LOOP, c[i], c[i + 1])
    requires c[0] in LOOP_INDEX
    ensures c[k] in LOOP_INDEX && LOOP_INDEX[c[k]] + k <= LOOP_INDEX[c[0]]
  {
    if k > 0 {
      LoopForward(c, k - 1);
      assert ForwardEdge(LOOP, c[k - 1], c[k - 1 + 1]);
      assert Dom(LOOP, 2, 1) by {
        forall p | IsPath(LOOP, p, 1)
          ensures 2 in p
        {
          LoopDominance(p);
        }
      }
    }
  }

  lemma LoopIsReducible()
    ensures Reducible(LOOP)
  {
    forall c
      ensures !ForwardCycle(LOOP, c)
    {
      if ForwardCycle(LOOP, c) {
        assert ForwardEdge(LOOP, c[0], c[0 + 1]);
        LoopForward(c, |c| - 1);
      }
    }
  }

  lemma LoopPreds()
    ensures Preds(LOOP, 1) == [2] && Preds(LOOP, 2) == [1, 3]
  {
    PredsOfFour(LOOP.edges, Edge(0, 3), Edge(1, 2), Edge(2, 1), Edge(3, 2), 2);
    PredsOfFour(LOOP.edges, Edge(0, 3), Edge(1, 2), Edge(2, 1), Edge(3, 2), 1);
  }

  lemma LoopSuccs()
    ensures Succs(LOOP, 0) == [3] && Succs(LOOP, 3) == [2] && Succs(LOOP, 2) == [1] && Succs(LOOP, 1) == [2]
    ensures Universe(LOOP) >= {0, 1, 2, 3}
  {
    hide Targets;
    EdgesOfFour(LOOP.edges, Edge(0, 3), Edge(1, 2), Edge(2, 1), Edge(3, 2), 0);
    EdgesOfFour(LOOP.edges, Edge(0, 3), Edge(1, 2), Edge(2, 1), Edge(3, 2), 1);
    EdgesOfFour(LOOP.edges, Edge(0, 3), Edge(1, 2), Edge(2, 1), Edge(3, 2), 2);
    EdgesOfFour(LOOP.edges, Edge(0, 3), Edge(1, 2), Edge(2, 1), Edge(3, 2), 3);
    assert HasEdge(LOOP, 0, 3) && HasEdge(LOOP, 2, 1) && HasEdge(LOOP, 3, 2);
  }

  lemma LoopOrders()
    ensures SearchOrders(LOOP).pre == [0, 3, 2, 1] && SearchOrders(LOOP).post == [1, 2, 3, 0]
  {
    hide Visit, Universe, Succs;
    LoopSuccs();
    LoopFromThree();
    VisitFirst(LOOP, [0], {}, {0}, Found([3, 2, 1], [1, 2, 3], {0, 1, 2, 3}));
  }

  lemma LoopFromThree()
    ensures {0} <= Universe(LOOP) && 3 in Universe(LOOP)
    ensures Visit(LOOP, [3], {0}) == Found([3, 2, 1], [1, 2, 3], {0, 1, 2, 3})
  {
    hide Visit, Universe, Succs;
    var all := {0, 1, 2, 3};
    LoopSuccs();
    VisitSeen(LOOP, [2], all);
    VisitFirst(LOOP, [1], {0, 2, 3}, all, Found([], [], all));
    VisitFirst(LOOP, [2], {0, 3}, {0, 2, 3}, Found([1], [1], all));
    VisitFirst(LOOP, [3], {0}, {0, 3}, Found([2, 1], [1, 2], all));
  }

  /** Not even reducibility makes the pass return: the first predecessor of 2 has predecessors of its own,
      so it is the seed, and it is not handled yet. */
  lemma PassMayThrow()
    ensures Reducible(LOOP) && IsSearchOf(LOOP, [0, 3, 2, 1], [1, 2, 3, 0]) && Indexes([1, 2, 3, 0], LOOP_INDEX)
    ensures !SeedPrecedes(LOOP, LOOP_INDEX, 2)
  {
    hide Sources, Reducible, IsSearchOf, SearchOrders;
    LoopIsReducible();
    LoopOrders();
    SearchIsSound(LOOP);
    LoopPreds();
    assert HasEdge(LOOP, 2, 1);
    assert SeedAt(LOOP, Preds(LOOP, 2), 0);
    OneSeed(LOOP, LOOP_INDEX, 2, 0);
  }
}

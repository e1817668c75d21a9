/** How the computed tree relates to dominance over all paths. */
module DominatorTree {
  import opened Words
  import opened Graph
  import opened DepthFirstSearch
  import opened Dominance
  import opened DominanceComputer

  /** On every graph, each true dominator of a reachable vertex lies on its parent chain. */
  lemma {:induction false} ChainHoldsDominators(g: Digraph, index: Index, doms: Parents, v: Vertex, d: Vertex)
    requires IsPass(g, index, doms) && v in doms && Dom(g, d, v)
    ensures d in Chain(g.entry, index, doms, v)
    decreases index[g.entry] - index[v]
  {
    if v == g.entry {
      OnlyEntryDominatesEntry(g, d);
    } else if d != v {
      assert IsMeet(g, index, doms, v);
      forall p | HasEdge(g, p, v) && p in doms && index[p] > index[v]
        ensures d in Chain(g.entry, index, doms, p)
      {
        DomPred(g, d, p, v);
        ChainHoldsDominators(g, index, doms, p, d);
      }
      assert OnEarlierChains(g, index, doms, v, d);
    }
  }

  // On a simple path each edge is a forward edge: the path to its source avoids its target.
  lemma SimplePathForward(g: Digraph, p: seq<Vertex>, u: Vertex, k: nat)
    requires IsPath(g, p, u) && NoDup(p) && k < |p| - 1
    ensures ForwardEdge(g, p[k], p[k + 1])
  {
    PathPrefix(g, p, u, k);
    assert p[k + 1] !in p[..k + 1];
  }

  // In a reducible graph the target of a retreating edge dominates its source.
  lemma RetreatingIsBack(g: Digraph, u: Vertex, v: Vertex)
    requires Reducible(g) && HasEdge(g, u, v) && OnSimplePath(g, u, v)
    ensures Dom(g, v, u)
  {
    if !Dom(g, v, u) {
      var p :| IsPath(g, p, u) && NoDup(p) && v in p;
      var i :| 0 <= i < |p| && p[i] == v;
      var c := p[i..] + [v];
      forall k | 0 <= k < |c| - 1
        ensures ForwardEdge(g, c[k], c[k + 1])
      {
        if k < |p| - i - 1 {
          SimplePathForward(g, p, u, i + k);
          assert c[k] == p[i + k] && c[k + 1] == p[i + k + 1];
        }
      }
      assert ForwardCycle(g, c);
    }
  }

  // A predecessor that v does not dominate was handled before v.
  lemma ForwardPredIsEarlier(g: Digraph, t: Trace, u: Vertex, v: Vertex)
    requires IsSearchOf(g, t.pre, t.post) && Indexes(t.post, t.index) && Reducible(g)
    requires HasEdge(g, u, v) && Reachable(g, u) && !Dom(g, v, u)
    ensures u in t.index && v in t.index && t.index[u] > t.index[v]
  {
    var i :| 0 <= i < |t.post| && t.post[i] == u;
    assert v in t.post[..i] || Retreats(g, t.pre, t.post[i], v);
    if Retreats(g, t.pre, u, v) {
      RetreatingIsBack(g, u, v);
    }
    var j :| 0 <= j < i && t.post[j] == v;
    assert t.index[t.post[i]] == i && t.index[t.post[j]] == j;
  }

  lemma OnChainOfPred(g: Digraph, index: Index, doms: Parents, v: Vertex, d: Vertex, u: Vertex)
    requires Climbs(g.entry, index, doms) && v in doms && OnEarlierChains(g, index, doms, v, d)
    requires HasEdge(g, u, v) && u in doms && index[u] > index[v]
    ensures d in Chain(g.entry, index, doms, u)
  {
  }

  /** On a reducible graph the parent chain of a reachable vertex is exactly its dominators. */
  lemma {:induction false} ChainIsDominators(g: Digraph, t: Trace, v: Vertex, d: Vertex)
    requires IsSearchOf(g, t.pre, t.post) && Indexes(t.post, t.index) && IsPass(g, t.index, t.doms)
    requires Reducible(g) && v in t.doms
    ensures d in Chain(g.entry, t.index, t.doms, v) <==> Dom(g, d, v)
    decreases t.index[g.entry] - t.index[v]
  {
    hide IsSearchOf, Climbs, Reducible, Indexes, OnEarlierChains;
    if Dom(g, d, v) {
      ChainHoldsDominators(g, t.index, t.doms, v, d);
    } else if d in Chain(g.entry, t.index, t.doms, v) && v != g.entry {
      assert IsMeet(g, t.index, t.doms, v);
      ParentClimbs(g.entry, t.index, t.doms, v);
      assert OnEarlierChains(g, t.index, t.doms, v, d);
      forall u | HasEdge(g, u, v) && Reachable(g, u) && !Dom(g, v, u)
        ensures Dom(g, d, u)
      {
        ForwardPredIsEarlier(g, t, u, v);
        OnChainOfPred(g, t.index, t.doms, v, d, u);
        ChainIsDominators(g, t, u, d);
      }
      DomByPreds(g, d, v);
    }
  }

  // The parent of every reachable vertex but the entry is its immediate dominator.
  ghost predicate ExactParents(g: Digraph, doms: Parents) {
    && g.entry in doms && doms[g.entry] == g.entry
    && (forall v :: v in doms <==> Reachable(g, v))
    && (forall v {:trigger doms[v]} :: v in doms && v != g.entry ==> IsIdom(g, doms[v], v))
  }

  lemma OffTheBottom(entry: Vertex, index: Index, doms: Parents, v: Vertex, e: Vertex)
    requires Climbs(entry, index, doms) && v in doms && v != entry && e != v
    requires e in Chain(entry, index, doms, v)
    ensures e in Chain(entry, index, doms, doms[v])
  {
  }

  lemma ParentIsIdom(g: Digraph, t: Trace, v: Vertex)
    requires IsSearchOf(g, t.pre, t.post) && Indexes(t.post, t.index) && IsPass(g, t.index, t.doms)
    requires Reducible(g) && v in t.doms && v != g.entry
    ensures IsIdom(g, t.doms[v], v)
  {
    hide IsSearchOf, Reducible, Indexes, IsMeet, Reachable;
    var d := t.doms[v];
    ChainIsDominators(g, t, v, d);
    forall e | StrictDom(g, e, v)
      ensures Dom(g, e, d)
    {
      ChainHoldsDominators(g, t.index, t.doms, v, e);
      OffTheBottom(g.entry, t.index, t.doms, v, e);
      ChainIsDominators(g, t, d, e);
    }
  }

  /** The pass is exact on reducible graphs: parents are the closest strict dominators. */
  lemma PassIsExact(g: Digraph, t: Trace)
    requires IsSearchOf(g, t.pre, t.post) && Indexes(t.post, t.index) && IsPass(g, t.index, t.doms)
    requires Reducible(g)
    ensures ExactParents(g, t.doms)
  {
    forall v {:trigger t.doms[v]} | v in t.doms && v != g.entry
      ensures IsIdom(g, t.doms[v], v)
    {
      ParentIsIdom(g, t, v);
    }
  }

  // No other vertex is the immediate dominator.
  lemma ExactParentsUnique(g: Digraph, doms: Parents, v: Vertex, d: Vertex)
    requires ExactParents(g, doms) && v in doms && v != g.entry && IsIdom(g, d, v)
    ensures d == doms[v]
  {
    IdomUnique(g, d, doms[v], v);
  }

  /** The parent lookup of the tree; None is the null returned for the entry. */
  method Idom(tree: GraphObject, v: Vertex, ghost doms: Parents) returns (r: Option<Vertex>)
    requires tree.Valid() && IsTreeOf(tree.Model(), tree.entry, doms) && v in doms
    ensures r == if v == tree.entry then None else Some(doms[v])
  {
    if v == tree.entry {
      return None;
    }
    var preds := tree.PredsOf(v);
    assert |preds| == 1;
    r := Some(preds[0]);
  }

  /** Walks from the dominatee to the entry, looking for the dominator. */
  method Dominates(tree: GraphObject, dominator: Vertex, dominatee: Vertex, ghost doms: Parents, ghost index: Index)
      returns (r: bool)
    requires tree.Valid() && IsTreeOf(tree.Model(), tree.entry, doms)
    requires Climbs(tree.entry, index, doms) && dominatee in doms
    ensures r <==> dominator in Chain(tree.entry, index, doms, dominatee)
  {
    hide IsTreeOf, InStep;
    ghost var goal := dominator in Chain(tree.entry, index, doms, dominatee);
    if dominator == dominatee {
      return true;
    }
    var pred := Some(dominatee);
    while pred.Some?
      invariant pred.Some? ==> pred.value in doms
      invariant goal <==> pred.Some? && dominator in Chain(tree.entry, index, doms, pred.value)
      decreases if pred.Some? then 1 + index[tree.entry] - index[pred.value] else 0
    {
      if pred.value == dominator {
        return true;
      }
      pred := Idom(tree, pred.value, doms);
    }
    r := false;
  }
}

/** Dominance frontiers, computed bottom-up over the dominator tree. */
module Frontiers {
  import opened Words
  import opened Graph
  import opened DepthFirstSearch
  import opened Dominance
  import opened DominanceComputer
  import opened DominatorTree

  type FrontierMap = map<Vertex, set<Vertex>>

  // y is where the dominance of x ends: x dominates a predecessor of y but not strictly y.
  ghost predicate InFrontier(g: Digraph, x: Vertex, y: Vertex) {
    exists p :: InFrontierVia(g, x, y, p)
  }

  ghost predicate InFrontierVia(g: Digraph, x: Vertex, y: Vertex, p: Vertex) {
    HasEdge(g, p, y) && Reachable(g, p) && Dom(g, x, p) && !StrictDom(g, x, y)
  }

  // A tree over the reachable vertices, with the index that orders it; its parents may be any.
  ghost predicate TreeFor(g: Digraph, tree: Digraph, index: Index, doms: Parents) {
    IsTreeOf(tree, g.entry, doms) && Climbs(g.entry, index, doms) && forall v :: v in doms <==> Reachable(g, v)
  }

  // The exact dominator tree.
  ghost predicate ExactTree(g: Digraph, tree: Digraph, index: Index, doms: Parents) {
    TreeFor(g, tree, index, doms) && ExactParents(g, doms)
  }

  ghost predicate IsChild(g: Digraph, doms: Parents, x: Vertex, y: Vertex) {
    IsChildOf(g.entry, doms, x, y)
  }

  ghost predicate IsChildOf(entry: Vertex, doms: Parents, x: Vertex, y: Vertex) {
    y in doms && y != entry && doms[y] == x
  }

  lemma ChildDominated(g: Digraph, doms: Parents, x: Vertex, y: Vertex)
    requires ExactParents(g, doms) && IsChild(g, doms, x, y)
    ensures StrictDom(g, x, y) && Reachable(g, x) && Reachable(g, y)
  {
    assert IsIdom(g, doms[y], y);
    DominatorReachable(g, x, y);
  }

  // A strict dominator of y dominates the parent of y.
  lemma StrictDomReachesParent(g: Digraph, doms: Parents, x: Vertex, y: Vertex)
    requires ExactParents(g, doms) && y in doms && StrictDom(g, x, y)
    ensures y != g.entry && Dom(g, x, doms[y])
  {
    if y == g.entry {
      OnlyEntryDominatesEntry(g, x);
    }
    assert IsIdom(g, doms[y], y);
  }

  // Local rule: an edge out of x whose target is not a child of x ends the dominance of x.
  lemma LocalRule(g: Digraph, doms: Parents, x: Vertex, y: Vertex)
    requires ExactParents(g, doms) && x in doms && HasEdge(g, x, y) && !IsChild(g, doms, x, y)
    ensures InFrontier(g, x, y)
  {
    ReachableStep(g, x, y);
    if StrictDom(g, x, y) {
      StrictDomReachesParent(g, doms, x, y);
      ChildDominated(g, doms, doms[y], y);
      DomPred(g, doms[y], x, y);
      DomAntisym(g, x, doms[y]);
    }
    assert InFrontierVia(g, x, y, x);
  }

  // Upward rule: what is in the frontier of a child stays in the frontier of its parent x,
  // unless it is a child of x.
  lemma UpRule(g: Digraph, doms: Parents, x: Vertex, c: Vertex, y: Vertex)
    requires ExactParents(g, doms) && IsChild(g, doms, x, c) && InFrontier(g, c, y) && !IsChild(g, doms, x, y)
    ensures InFrontier(g, x, y)
  {
    var p :| InFrontierVia(g, c, y, p);
    ChildDominated(g, doms, x, c);
    DomTrans(g, x, c, p);
    ReachableStep(g, p, y);
    if StrictDom(g, x, y) {
      StrictDomReachesParent(g, doms, x, y);
      var i := doms[y];
      ChildDominated(g, doms, i, y);
      DomPred(g, i, p, y);
      DomComparable(g, i, c, p);
      if Dom(g, c, i) {
        DomTrans(g, c, i, y);
      } else {
        StrictDomReachesParent(g, doms, i, c);
        DomAntisym(g, x, i);
      }
    }
    assert InFrontierVia(g, x, y, p);
  }

  // Some child of x dominates every vertex that x strictly dominates.
  lemma {:induction false} ChildTowards(g: Digraph, index: Index, doms: Parents, x: Vertex, p: Vertex)
      returns (c: Vertex)
    requires Climbs(g.entry, index, doms) && ExactParents(g, doms) && p in doms && StrictDom(g, x, p)
    ensures IsChild(g, doms, x, c) && Dom(g, c, p)
    decreases index[g.entry] - index[p]
  {
    StrictDomReachesParent(g, doms, x, p);
    if doms[p] == x {
      c := p;
    } else {
      c := ChildTowards(g, index, doms, x, doms[p]);
      ChildDominated(g, doms, doms[p], p);
      DomTrans(g, c, doms[p], p);
    }
  }

  // Every vertex of the frontier comes from one of the two rules.
  lemma FrontierSources(g: Digraph, index: Index, doms: Parents, x: Vertex, y: Vertex)
    requires Climbs(g.entry, index, doms) && ExactParents(g, doms) && x in doms && InFrontier(g, x, y)
    ensures !IsChild(g, doms, x, y)
    ensures HasEdge(g, x, y) || exists c :: IsChild(g, doms, x, c) && InFrontier(g, c, y)
  {
    var p :| InFrontierVia(g, x, y, p);
    if IsChild(g, doms, x, y) {
      ChildDominated(g, doms, x, y);
    }
    if p != x {
      var c := ChildTowards(g, index, doms, x, p);
      ChildDominated(g, doms, x, c);
      if StrictDom(g, c, y) {
        DomTrans(g, x, c, y);
        if x == y {
          DomAntisym(g, c, x);
        }
      }
      assert InFrontierVia(g, c, y, p);
    }
  }

  // ---- The tree, whatever its parents are

  // On the way down a tree path the index falls.
  lemma {:induction false} TreePathFalls(g: Digraph, tree: Digraph, index: Index, doms: Parents, p: seq<Vertex>,
      v: Vertex, c: Vertex)
    requires TreeFor(g, tree, index, doms) && IsPath(tree, p, v) && c in p
    ensures v in doms && v in index && c in index && index[v] <= index[c]
    decreases |p|
  {
    hide Reachable;
    if |p| > 1 {
      var u, q := p[|p| - 2], p[..|p| - 1];
      assert HasEdge(tree, u, p[|p| - 2 + 1]);
      assert u in Preds(tree, v);
      assert IsPath(tree, q, u);
      ParentClimbs(g.entry, index, doms, v);
      if c != v {
        assert p == q + [v];
        TreePathFalls(g, tree, index, doms, q, u, c);
      }
    }
  }

  lemma {:induction false} TreeReaches(g: Digraph, tree: Digraph, index: Index, doms: Parents, v: Vertex)
    requires TreeFor(g, tree, index, doms) && v in doms
    ensures Reachable(tree, v)
    decreases index[g.entry] - index[v]
  {
    if v == g.entry {
      EntryReachable(tree);
    } else {
      TreeReaches(g, tree, index, doms, doms[v]);
      assert doms[v] in Preds(tree, v);
      ReachableStep(tree, doms[v], v);
    }
  }

  // The vertices of the tree are those with a parent.
  lemma TreeVertices(g: Digraph, tree: Digraph, index: Index, doms: Parents, v: Vertex)
    requires TreeFor(g, tree, index, doms)
    ensures Reachable(tree, v) <==> v in doms
  {
    hide TreeFor;
    if v in doms {
      TreeReaches(g, tree, index, doms, v);
    }
    if Reachable(tree, v) {
      var p :| IsPath(tree, p, v);
      TreePathFalls(g, tree, index, doms, p, v, v);
    }
  }

  // A child is no ancestor of its parent.
  lemma ChildNotAbove(g: Digraph, tree: Digraph, index: Index, doms: Parents, u: Vertex, c: Vertex)
    requires TreeFor(g, tree, index, doms) && IsChild(g, doms, u, c)
    ensures HasEdge(tree, u, c) && !OnSimplePath(tree, u, c)
  {
    assert u in Preds(tree, c);
    ParentClimbs(g.entry, index, doms, c);
    if OnSimplePath(tree, u, c) {
      var p :| IsPath(tree, p, u) && NoDup(p) && c in p;
      TreePathFalls(g, tree, index, doms, p, u, c);
    }
  }

  // The tree post-order lists the vertices of the tree, children before their parents.
  lemma TreeOrder(g: Digraph, tree: Digraph, index: Index, doms: Parents, pre: seq<Vertex>, post: seq<Vertex>)
    requires TreeFor(g, tree, index, doms) && IsSearchOf(tree, pre, post)
    ensures forall v :: v in post <==> v in doms
    ensures forall i, c :: 0 <= i < |post| && IsChild(g, doms, post[i], c) ==> c in post[..i]
  {
    hide TreeFor, IsChild, SearchOrders, EdgesDescend, ParentsFollow, OnSimplePath, Reachable;
    forall v
      ensures v in post <==> v in doms
    {
      TreeVertices(g, tree, index, doms, v);
    }
    forall i, c | 0 <= i < |post| && IsChild(g, doms, post[i], c)
      ensures c in post[..i]
    {
      ChildNotAbove(g, tree, index, doms, post[i], c);
      SearchDescends(tree, pre, post, i, c);
    }
  }

  function FrontierOf(frontiers: FrontierMap, x: Vertex): set<Vertex> {
    if x in frontiers then frontiers[x] else {}
  }

  // First loop for x: the targets of its edges that are not its children.
  method LocalPart(cfg: GraphObject, tree: GraphObject, x: Vertex, ghost doms: Parents) returns (r: set<Vertex>)
    requires cfg.Valid() && tree.Valid() && tree.entry == cfg.entry
    requires IsTreeOf(tree.Model(), tree.entry, doms) && x in doms
    requires forall v :: v in doms <==> Reachable(cfg.Model(), v)
    ensures forall y :: y in r <==> HasEdge(cfg.Model(), x, y) && !IsChild(cfg.Model(), doms, x, y)
  {
    r := {};
    var succs := cfg.SuccsOf(x);
    var k := 0;
    while k < |succs|
      invariant 0 <= k <= |succs|
      invariant forall y :: y in r <==> y in succs[..k] && !IsChild(cfg.Model(), doms, x, y)
    {
      assert HasEdge(cfg.Model(), x, succs[k]);
      assert succs[..k + 1] == succs[..k] + [succs[k]];
      ReachableStep(cfg.Model(), x, succs[k]);
      var parent := Idom(tree, succs[k], doms);
      if parent != Some(x) {
        r := r + {succs[k]};
      }
      k := k + 1;
    }
  }

  // Inner loop of the second loop: what the frontier of one child contributes to that of x.
  method UpPart(tree: GraphObject, x: Vertex, below: set<Vertex>, ghost entry: Vertex, ghost doms: Parents)
      returns (r: set<Vertex>)
    requires tree.Valid() && tree.entry == entry && IsTreeOf(tree.Model(), entry, doms)
    requires below <= doms.Keys
    ensures forall y :: y in r <==> y in below && !IsChildOf(entry, doms, x, y)
  {
    r := {};
    var todo := below;
    while todo != {}
      invariant todo <= below
      invariant forall y :: y in r <==> y in below && y !in todo && !IsChildOf(entry, doms, x, y)
      decreases todo
    {
      var y :| y in todo;
      var parent := Idom(tree, y, doms);
      if parent != Some(x) {
        r := r + {y};
      }
      todo := todo - {y};
    }
  }

  // y is in the frontier of one of the first k children.
  ghost predicate BelowFirst(frontiers: FrontierMap, children: seq<Vertex>, k: nat, y: Vertex)
    requires k <= |children|
  {
    exists j :: 0 <= j < k && y in FrontierOf(frontiers, children[j])
  }

  // The second loop.
  method UpParts(tree: GraphObject, x: Vertex, frontiers: FrontierMap, children: seq<Vertex>, ghost entry: Vertex,
      ghost doms: Parents)
    returns (r: set<Vertex>)
    requires tree.Valid() && tree.entry == entry && IsTreeOf(tree.Model(), entry, doms)
    requires forall j :: 0 <= j < |children| ==> FrontierOf(frontiers, children[j]) <= doms.Keys
    ensures forall y {:trigger y in r} :: y in r <==>
        BelowFirst(frontiers, children, |children|, y) && !IsChildOf(entry, doms, x, y)
  {
    r := {};
    var k := 0;
    while k < |children|
      invariant 0 <= k <= |children|
      invariant forall y {:trigger y in r} :: y in r <==>
          BelowFirst(frontiers, children, k, y) && !IsChildOf(entry, doms, x, y)
    {
      var up := UpPart(tree, x, FrontierOf(frontiers, children[k]), entry, doms);
      forall y
        ensures BelowFirst(frontiers, children, k + 1, y) <==>
          BelowFirst(frontiers, children, k, y) || y in FrontierOf(frontiers, children[k])
      {
      }
      r := r + up;
      k := k + 1;
    }
  }

  // What the two rules give for x, from what they gave for its children.
  ghost predicate RuleAt(g: Digraph, doms: Parents, frontiers: FrontierMap, x: Vertex, f: set<Vertex>) {
    forall y {:trigger y in f} :: y in f <==>
      !IsChild(g, doms, x, y) && (HasEdge(g, x, y) || BelowChild(g, doms, frontiers, x, y))
  }

  ghost predicate BelowChild(g: Digraph, doms: Parents, frontiers: FrontierMap, x: Vertex, y: Vertex) {
    exists c {:trigger IsChild(g, doms, x, c)} :: IsChild(g, doms, x, c) && y in FrontierOf(frontiers, c)
  }

  /** Every frontier is what the two rules give; as children have smaller indices, no other sets do so. */
  ghost predicate ByRules(g: Digraph, doms: Parents, frontiers: FrontierMap) {
    && (forall x {:trigger FrontierOf(frontiers, x)} :: x in doms ==>
          RuleAt(g, doms, frontiers, x, FrontierOf(frontiers, x)))
    && frontiers.Keys <= doms.Keys
  }

  // Both loops for x, over what is known of its children.
  method VertexFrontier(cfg: GraphObject, tree: GraphObject, x: Vertex, frontiers: FrontierMap, ghost g: Digraph,
                        ghost index: Index, ghost doms: Parents) returns (r: set<Vertex>)
    requires cfg.Valid() && tree.Valid() && cfg.Model() == g && tree.entry == g.entry
    requires TreeFor(g, tree.Model(), index, doms) && x in doms
    requires forall c {:trigger FrontierOf(frontiers, c)} :: FrontierOf(frontiers, c) <= doms.Keys
    ensures RuleAt(g, doms, frontiers, x, r) && r <= doms.Keys
  {
    hide Reachable, FrontierOf, TreeFor, IsTreeOf, InStep, BelowFirst, BelowChild;
    TreeParts(g, tree.Model(), index, doms);
    var here := LocalPart(cfg, tree, x, doms);
    var children := tree.SuccsOf(x);
    var up := UpParts(tree, x, frontiers, children, g.entry, doms);
    r := here + up;
    forall y
      ensures BelowFirst(frontiers, children, |children|, y) <==> BelowChild(g, doms, frontiers, x, y)
    {
      BelowChildren(g, tree.Model(), doms, x, y, frontiers, children);
    }
    forall y | y in r
      ensures y in doms
    {
      if HasEdge(g, x, y) {
        ReachableStep(g, x, y);
      } else {
        BelowInside(frontiers, children, y, doms);
      }
    }
  }

  lemma BelowInside(frontiers: FrontierMap, children: seq<Vertex>, y: Vertex, doms: Parents)
    requires BelowFirst(frontiers, children, |children|, y)
    requires forall c {:trigger FrontierOf(frontiers, c)} :: FrontierOf(frontiers, c) <= doms.Keys
    ensures y in doms
  {
  }

  // The successors in the tree are the children.
  lemma BelowChildren(g: Digraph, tree: Digraph, doms: Parents, x: Vertex, y: Vertex, frontiers: FrontierMap,
      children: seq<Vertex>)
    requires IsTreeOf(tree, g.entry, doms) && children == Succs(tree, x)
    ensures BelowFirst(frontiers, children, |children|, y) <==> BelowChild(g, doms, frontiers, x, y)
  {
    hide FrontierOf;
    if BelowFirst(frontiers, children, |children|, y) {
      var j :| 0 <= j < |children| && y in FrontierOf(frontiers, children[j]);
      assert HasEdge(tree, x, children[j]);
      ChildOfTreeEdge(g, tree, doms, x, children[j]);
    }
    if BelowChild(g, doms, frontiers, x, y) {
      var c :| IsChild(g, doms, x, c) && y in FrontierOf(frontiers, c);
      assert x in Preds(tree, c);
      assert c in children;
    }
  }

  lemma ChildOfTreeEdge(g: Digraph, tree: Digraph, doms: Parents, x: Vertex, c: Vertex)
    requires IsTreeOf(tree, g.entry, doms) && HasEdge(tree, x, c)
    ensures IsChild(g, doms, x, c)
  {
    assert x in Preds(tree, c);
  }

  // ---- With exact parents the rules give the dominance frontiers

  // f is the dominance frontier of x.
  ghost predicate IsFrontier(g: Digraph, x: Vertex, f: set<Vertex>) {
    forall y {:trigger y in f} :: y in f <==> InFrontier(g, x, y)
  }

  // The two rules, with the frontiers of the children known, give the frontier of x.
  lemma RulesAreFrontier(g: Digraph, index: Index, doms: Parents, x: Vertex, y: Vertex, frontiers: FrontierMap)
    requires Climbs(g.entry, index, doms) && ExactParents(g, doms) && x in doms
    requires forall c {:trigger IsChild(g, doms, x, c)} ::
      IsChild(g, doms, x, c) ==> IsFrontier(g, c, FrontierOf(frontiers, c))
    ensures InFrontier(g, x, y) <==>
      !IsChild(g, doms, x, y) && (HasEdge(g, x, y) || BelowChild(g, doms, frontiers, x, y))
  {
    hide FrontierOf;
    if InFrontier(g, x, y) {
      FrontierSources(g, index, doms, x, y);
      if !HasEdge(g, x, y) {
        var c :| IsChild(g, doms, x, c) && InFrontier(g, c, y);
        assert y in FrontierOf(frontiers, c);
      }
    } else if !IsChild(g, doms, x, y) && HasEdge(g, x, y) {
      LocalRule(g, doms, x, y);
    } else if !IsChild(g, doms, x, y) && BelowChild(g, doms, frontiers, x, y) {
      var c :| IsChild(g, doms, x, c) && y in FrontierOf(frontiers, c);
      UpRule(g, doms, x, c, y);
    }
  }

  /** With the true dominator tree, what the rules give every reachable vertex is its dominance frontier. */
  lemma {:induction false} RulesGiveFrontiers(g: Digraph, index: Index, doms: Parents, frontiers: FrontierMap,
      x: Vertex)
    requires Climbs(g.entry, index, doms) && ExactParents(g, doms) && ByRules(g, doms, frontiers) && x in doms
    ensures x in index && IsFrontier(g, x, FrontierOf(frontiers, x))
    decreases index[x]
  {
    hide ExactParents, InFrontier, FrontierOf, BelowChild;
    forall c | IsChild(g, doms, x, c)
      ensures IsFrontier(g, c, FrontierOf(frontiers, c))
    {
      ParentClimbs(g.entry, index, doms, c);
      RulesGiveFrontiers(g, index, doms, frontiers, c);
    }
    forall y
      ensures y in FrontierOf(frontiers, x) <==> InFrontier(g, x, y)
    {
      RulesAreFrontier(g, index, doms, x, y, frontiers);
    }
  }

  // ---- All vertices

  // The rules hold at the first k vertices of the order, and nothing is known of the others.
  ghost predicate RulesUpTo(g: Digraph, doms: Parents, post: seq<Vertex>, frontiers: FrontierMap, k: nat)
    requires k <= |post|
  {
    && (forall i {:trigger post[i]} :: 0 <= i < k ==>
          RuleAt(g, doms, frontiers, post[i], FrontierOf(frontiers, post[i])))
    && (forall c {:trigger FrontierOf(frontiers, c)} :: FrontierOf(frontiers, c) <= doms.Keys)
    && (forall i {:trigger post[i]} :: k <= i < |post| ==> post[i] !in frontiers)
  }

  lemma RulesNext(g: Digraph, doms: Parents, post: seq<Vertex>, frontiers: FrontierMap, k: nat, r: set<Vertex>)
    requires k < |post| && ChildrenFirst(g, doms, post) && RulesUpTo(g, doms, post, frontiers, k)
    requires RuleAt(g, doms, frontiers, post[k], r) && r <= doms.Keys
    ensures RulesUpTo(g, doms, post, frontiers[post[k] := r], k + 1)
  {
    hide RuleAt, ChildrenFirst;
    OrderIs(g, doms, post);
    var more := frontiers[post[k] := r];
    forall i | 0 <= i < k + 1
      ensures RuleAt(g, doms, more, post[i], FrontierOf(more, post[i]))
    {
      assert post[i] == post[k] ==> i == k;
      assert FrontierOf(more, post[i]) == if i == k then r else FrontierOf(frontiers, post[i]);
      assert RuleAt(g, doms, frontiers, post[i], FrontierOf(more, post[i]));
      SameBelow(g, doms, post, frontiers, more, k, i);
      RuleKept(g, doms, frontiers, more, post[i], FrontierOf(more, post[i]));
    }
    forall i | k + 1 <= i < |post|
      ensures post[i] !in more
    {
      assert post[i] != post[k] && post[i] !in frontiers;
    }
    forall c
      ensures FrontierOf(more, c) <= doms.Keys
    {
      assert FrontierOf(more, c) == if c == post[k] then r else FrontierOf(frontiers, c);
    }
  }

  lemma RuleKept(g: Digraph, doms: Parents, frontiers: FrontierMap, more: FrontierMap, x: Vertex, f: set<Vertex>)
    requires RuleAt(g, doms, frontiers, x, f)
    requires forall y :: BelowChild(g, doms, more, x, y) <==> BelowChild(g, doms, frontiers, x, y)
    ensures RuleAt(g, doms, more, x, f)
  {
    hide BelowChild, IsChild;
  }

  // What is new at k changes nothing below the vertices up to k.
  lemma SameBelow(g: Digraph, doms: Parents, post: seq<Vertex>, frontiers: FrontierMap, more: FrontierMap, k: nat,
      i: nat)
    requires i <= k < |post| && ChildrenFirst(g, doms, post)
    requires forall c :: c != post[k] ==> FrontierOf(more, c) == FrontierOf(frontiers, c)
    ensures forall y :: BelowChild(g, doms, more, post[i], y) <==> BelowChild(g, doms, frontiers, post[i], y)
  {
    hide FrontierOf;
    forall c | IsChild(g, doms, post[i], c)
      ensures FrontierOf(more, c) == FrontierOf(frontiers, c)
    {
      assert c in post[..i];
    }
  }

  // Lists the vertices of the tree, children before their parents.
  ghost predicate ChildrenFirst(g: Digraph, doms: Parents, post: seq<Vertex>) {
    && NoDup(post) && (forall v :: v in post <==> v in doms)
    && forall i, c {:trigger IsChild(g, doms, post[i], c)} :: 0 <= i < |post| && IsChild(g, doms, post[i], c) ==>
         c in post[..i]
  }

  method TreePostOrder(tree: GraphObject, ghost g: Digraph, ghost index: Index, ghost doms: Parents)
      returns (post: seq<Vertex>)
    requires tree.Valid() && TreeFor(g, tree.Model(), index, doms)
    ensures ChildrenFirst(g, doms, post)
  {
    ghost var t := tree.Model();
    var search := new Search();
    search.Run(tree, t);
    post := search.postOrder;
    TreeOrder(g, t, index, doms, search.preOrder, post);
  }

  /** The frontiers are what the rules give over the tree; with the true dominator tree the computed frontier of
      every reachable vertex is exactly its dominance frontier. */
  method Run(cfg: GraphObject, tree: GraphObject, ghost index: Index, ghost doms: Parents)
      returns (frontiers: FrontierMap)
    requires cfg.Valid() && tree.Valid() && tree.entry == cfg.entry
    requires TreeFor(cfg.Model(), tree.Model(), index, doms)
    ensures ByRules(cfg.Model(), doms, frontiers)
    ensures ExactParents(cfg.Model(), doms) ==> forall x {:trigger FrontierOf(frontiers, x)} :: x in doms ==>
        IsFrontier(cfg.Model(), x, FrontierOf(frontiers, x))
  {
    hide TreeFor, RuleAt, ExactParents, ChildrenFirst, IsFrontier;
    ghost var g := cfg.Model();
    var post := TreePostOrder(tree, g, index, doms);
    OrderIs(g, doms, post);
    frontiers := map[];
    var k := 0;
    while k < |post|
      invariant 0 <= k <= |post|
      invariant RulesUpTo(g, doms, post, frontiers, k) && frontiers.Keys <= doms.Keys
    {
      var r := VertexFrontier(cfg, tree, post[k], frontiers, g, index, doms);
      RulesNext(g, doms, post, frontiers, k, r);
      frontiers := frontiers[post[k] := r];
      k := k + 1;
    }
    forall x | x in doms
      ensures RuleAt(g, doms, frontiers, x, FrontierOf(frontiers, x))
    {
      assert x in post;
      var i :| 0 <= i < |post| && post[i] == x;
    }
    if ExactParents(g, doms) {
      TreeParts(g, tree.Model(), index, doms);
      forall x | x in doms
        ensures IsFrontier(g, x, FrontierOf(frontiers, x))
      {
        RulesGiveFrontiers(g, index, doms, frontiers, x);
      }
    }
  }

  lemma OrderIs(g: Digraph, doms: Parents, post: seq<Vertex>)
    requires ChildrenFirst(g, doms, post)
    ensures NoDup(post) && forall v :: v in post <==> v in doms
  {
  }

  lemma TreeParts(g: Digraph, tree: Digraph, index: Index, doms: Parents)
    requires TreeFor(g, tree, index, doms)
    ensures IsTreeOf(tree, g.entry, doms) && Climbs(g.entry, index, doms) && forall v :: v in doms <==> Reachable(g, v)
  {
  }
}

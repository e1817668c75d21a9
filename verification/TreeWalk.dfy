/** Walking the dominator tree with a stack of waiting blocks. */
module TreeWalk {
  import opened Words
  import opened Graph
  import opened Dominance
  import DC = DominanceComputer
  import DT = DominatorTree
  import F = Frontiers

  datatype Walk = Walk(visited: set<Vertex>, waiting: seq<Vertex>)

  // Dominators of visited vertices have been visited.
  ghost predicate Closed(g: Digraph, visited: set<Vertex>) {
    forall v, d :: v in visited && Dom(g, d, v) ==> d in visited
  }

  // A waiting vertex has not been visited, but its parent has.
  ghost predicate Waits(g: Digraph, doms: DC.Parents, visited: set<Vertex>, w: Vertex) {
    w in doms && w !in visited && (w == g.entry || doms[w] in visited)
  }

  // The waiting vertices that a visited one dominates are on top of the stack.
  ghost predicate Layered(g: Digraph, visited: set<Vertex>, waiting: seq<Vertex>) {
    forall d, i, j {:trigger Dom(g, d, waiting[i]), waiting[j]} ::
      d in visited && 0 <= i < j < |waiting| && Dom(g, d, waiting[i]) ==> Dom(g, d, waiting[j])
  }

  // No child of a visited vertex is forgotten.
  ghost predicate ChildrenWait(g: Digraph, doms: DC.Parents, w: Walk) {
    forall v, c :: v in w.visited && F.IsChild(g, doms, v, c) ==> c in w.visited || c in w.waiting
  }

  ghost predicate WalkOk(g: Digraph, doms: DC.Parents, w: Walk) {
    && DT.ExactParents(g, doms) && w.visited <= doms.Keys && Closed(g, w.visited) && NoDup(w.waiting)
    && (forall i :: 0 <= i < |w.waiting| ==> Waits(g, doms, w.visited, w.waiting[i]))
    && Layered(g, w.visited, w.waiting) && ChildrenWait(g, doms, w)
    && (g.entry in w.visited || w == Walk({}, [g.entry]))
  }

  ghost predicate AreChildren(g: Digraph, doms: DC.Parents, b: Vertex, children: seq<Vertex>) {
    NoDup(children) && forall c :: c in children <==> F.IsChild(g, doms, b, c)
  }

  lemma BeginWalk(g: Digraph, doms: DC.Parents)
    requires DT.ExactParents(g, doms)
    ensures WalkOk(g, doms, Walk({}, [g.entry]))
  {
  }

  // A strict dominator of a child of b dominates b.
  lemma ChildDominators(g: Digraph, doms: DC.Parents, b: Vertex, c: Vertex, d: Vertex)
    requires DT.ExactParents(g, doms) && F.IsChild(g, doms, b, c)
    ensures Dom(g, d, c) <==> d == c || Dom(g, d, b)
  {
    F.ChildDominated(g, doms, b, c);
    if Dom(g, d, c) && d != c {
      F.StrictDomReachesParent(g, doms, d, c);
    }
    if Dom(g, d, b) {
      DomTrans(g, d, b, c);
    }
  }

  lemma ClosedStep(g: Digraph, doms: DC.Parents, w: Walk, b: Vertex)
    requires WalkOk(g, doms, w) && Waits(g, doms, w.visited, b)
    ensures Closed(g, w.visited + {b})
  {
    forall d | Dom(g, d, b) && d != b
      ensures d in w.visited
    {
      if b == g.entry {
        OnlyEntryDominatesEntry(g, d);
      } else {
        F.StrictDomReachesParent(g, doms, d, b);
      }
    }
  }

  // The vertex visited next dominates no vertex that still waits.
  lemma NewIsNotAbove(g: Digraph, doms: DC.Parents, w: Walk, b: Vertex, x: Vertex)
    requires WalkOk(g, doms, w) && b !in w.visited && Waits(g, doms, w.visited, x) && x != b
    ensures !Dom(g, b, x)
  {
    if Dom(g, b, x) {
      if x == g.entry {
        OnlyEntryDominatesEntry(g, b);
      } else {
        F.StrictDomReachesParent(g, doms, b, x);
      }
    }
  }

  lemma ParentsUnique(g: Digraph, doms: DC.Parents, b: Vertex, x: Vertex)
    requires DT.ExactParents(g, doms) && F.IsChild(g, doms, b, x)
    ensures b in doms && x in doms && doms[x] == b && x != b && x != g.entry
  {
    F.ChildDominated(g, doms, b, x);
  }

  // Popping the top vertex and pushing its children.
  lemma Pop(g: Digraph, doms: DC.Parents, w: Walk, b: Vertex, rest: seq<Vertex>, children: seq<Vertex>)
    requires WalkOk(g, doms, w) && w.waiting == rest + [b] && AreChildren(g, doms, b, children)
    ensures WalkOk(g, doms, Walk(w.visited + {b}, rest + children))
  {
    hide Dom, DT.ExactParents;
    TopWaits(g, doms, w, b, rest);
    ClosedStep(g, doms, w, b);
    var visited', waiting' := w.visited + {b}, rest + children;
    forall i | 0 <= i < |waiting'|
      ensures Waits(g, doms, visited', waiting'[i])
    {
      WaitsStill(g, doms, w, b, rest, children, i);
    }
    forall i, j | 0 <= i < j < |waiting'|
      ensures waiting'[i] != waiting'[j]
    {
      WaitingDiffer(g, doms, w, b, rest, children, i, j);
    }
    forall d, i, j | d in visited' && 0 <= i < j < |waiting'| && Dom(g, d, waiting'[i])
      ensures Dom(g, d, waiting'[j])
    {
      LayeredStep(g, doms, w, b, rest, children, d, i, j);
    }
    forall v, c | v in visited' && F.IsChild(g, doms, v, c)
      ensures c in visited' || c in waiting'
    {
      assert v != b ==> c in w.visited || c in rest + [b];
    }
    NowVisited(g, doms, w, b, rest);
  }

  lemma NowVisited(g: Digraph, doms: DC.Parents, w: Walk, b: Vertex, rest: seq<Vertex>)
    requires WalkOk(g, doms, w) && w.waiting == rest + [b]
    ensures g.entry in w.visited + {b} && b in doms && w.visited + {b} <= doms.Keys && DT.ExactParents(g, doms)
  {
    TopWaits(g, doms, w, b, rest);
  }

  lemma TopWaits(g: Digraph, doms: DC.Parents, w: Walk, b: Vertex, rest: seq<Vertex>)
    requires WalkOk(g, doms, w) && w.waiting == rest + [b]
    ensures Waits(g, doms, w.visited, b) && b !in rest
  {
    assert w.waiting[|rest|] == b;
    assert forall i :: 0 <= i < |rest| ==> rest[i] == w.waiting[i];
  }

  lemma WaitsStill(g: Digraph, doms: DC.Parents, w: Walk, b: Vertex, rest: seq<Vertex>, children: seq<Vertex>, i: nat)
    requires WalkOk(g, doms, w) && w.waiting == rest + [b] && AreChildren(g, doms, b, children) && i < |rest + children|
    ensures Waits(g, doms, w.visited + {b}, (rest + children)[i])
  {
    TopWaits(g, doms, w, b, rest);
    if i < |rest| {
      assert w.waiting[i] == rest[i];
    } else {
      var c := children[i - |rest|];
      assert c in children;
      ParentsUnique(g, doms, b, c);
      if c in w.visited {
        F.ChildDominated(g, doms, b, c);
      }
    }
  }

  lemma WaitingDiffer(g: Digraph, doms: DC.Parents, w: Walk, b: Vertex, rest: seq<Vertex>, children: seq<Vertex>,
      i: nat, j: nat)
    requires WalkOk(g, doms, w) && w.waiting == rest + [b] && AreChildren(g, doms, b, children)
    requires i < j < |rest + children|
    ensures (rest + children)[i] != (rest + children)[j]
  {
    TopWaits(g, doms, w, b, rest);
    if i < |rest| {
      assert w.waiting[i] == rest[i];
      if j < |rest| {
        assert w.waiting[j] == rest[j];
      } else {
        assert children[j - |rest|] in children;
        ParentsUnique(g, doms, b, children[j - |rest|]);
      }
    }
  }

  lemma LayeredStep(g: Digraph, doms: DC.Parents, w: Walk, b: Vertex, rest: seq<Vertex>, children: seq<Vertex>,
      d: Vertex, i: nat, j: nat)
    requires WalkOk(g, doms, w) && w.waiting == rest + [b] && AreChildren(g, doms, b, children)
    requires i < j < |rest + children|
    requires d in w.visited + {b} && Dom(g, d, (rest + children)[i])
    ensures Dom(g, d, (rest + children)[j])
  {
    hide Dom, DT.ExactParents, ChildrenWait, Closed;
    TopWaits(g, doms, w, b, rest);
    WaitsStill(g, doms, w, b, rest, children, i);
    WaitsStill(g, doms, w, b, rest, children, j);
    WalkExact(g, doms, w);
    var x, y := (rest + children)[i], (rest + children)[j];
    if i < |rest| {
      assert w.waiting[i] == x && w.waiting[|rest|] == b;
      if d == b {
        NewIsNotAbove(g, doms, w, b, x);
      } else if j < |rest| {
        assert w.waiting[j] == y;
      } else {
        assert y in children;
        ChildDominators(g, doms, b, y, d);
      }
    } else {
      assert x in children && y in children;
      ChildDominators(g, doms, b, x, d);
      ChildDominators(g, doms, b, y, d);
    }
  }

  lemma WalkExact(g: Digraph, doms: DC.Parents, w: Walk)
    requires WalkOk(g, doms, w)
    ensures DT.ExactParents(g, doms)
  {
  }

  // ---- Inside a subtree

  // The walk is inside the subtree of d: the next vertex is dominated by d.
  ghost predicate Inside(g: Digraph, w: Walk, d: Vertex) {
    w.waiting != [] && Dom(g, d, w.waiting[|w.waiting| - 1])
  }

  /** Once the walk has left the subtree of a visited vertex, it does not return. */
  lemma StillInside(g: Digraph, doms: DC.Parents, w: Walk, b: Vertex, rest: seq<Vertex>, children: seq<Vertex>,
      d: Vertex)
    requires WalkOk(g, doms, w) && w.waiting == rest + [b] && AreChildren(g, doms, b, children)
    requires d in w.visited && Inside(g, Walk(w.visited + {b}, rest + children), d)
    ensures Inside(g, w, d)
  {
    hide Dom, DT.ExactParents, ChildrenWait, Closed;
    WalkExact(g, doms, w);
    TopWaits(g, doms, w, b, rest);
    if children != [] {
      var c := children[|children| - 1];
      assert c in children && (rest + children)[|rest + children| - 1] == c;
      WaitsStill(g, doms, w, b, rest, children, |rest + children| - 1);
      ChildDominators(g, doms, b, c, d);
    } else {
      assert rest + children == rest;
      assert w.waiting[|rest| - 1] == rest[|rest| - 1] && w.waiting[|rest|] == b;
    }
  }

  // ---- The end of the walk

  lemma {:induction false} AllVisited(g: Digraph, index: DC.Index, doms: DC.Parents, w: Walk, v: Vertex)
    requires WalkOk(g, doms, w) && w.waiting == [] && DC.Climbs(g.entry, index, doms) && v in doms
    ensures v in w.visited
    decreases index[g.entry] - index[v]
  {
    if v != g.entry {
      AllVisited(g, index, doms, w, doms[v]);
      assert F.IsChild(g, doms, doms[v], v);
    }
  }

  // ---- The children that the tree records

  lemma {:induction false} SourcesCount(edges: seq<Edge>, u: Vertex, i: nat, j: nat)
    requires i < j < |Targets(edges, u)| && Targets(edges, u)[i] == Targets(edges, u)[j]
    ensures |Sources(edges, Targets(edges, u)[i])| >= 2
  {
    var rest, last := edges[..|edges| - 1], edges[|edges| - 1];
    var t := Targets(rest, u);
    if last.src == u && j == |t| {
      assert t[i] in t;
      assert Edge(u, t[i]) in rest && u in Sources(rest, t[i]);
    } else {
      SourcesCount(rest, u, i, j);
    }
  }

  lemma TreeChildren(g: Digraph, tree: Digraph, doms: DC.Parents, b: Vertex)
    requires DC.IsTreeOf(tree, g.entry, doms)
    ensures AreChildren(g, doms, b, Succs(tree, b))
  {
    var s := Succs(tree, b);
    forall c
      ensures c in s <==> F.IsChild(g, doms, b, c)
    {
      assert c in s <==> b in Preds(tree, c);
    }
    forall i, j | 0 <= i < j < |s|
      ensures s[i] != s[j]
    {
      if s[i] == s[j] {
        SourcesCount(tree.edges, b, i, j);
        var preds := Preds(tree, s[i]);
      }
    }
  }

  // ---- The order of the walk

  // What waits on the stack when the vertices have been popped in this order, if they can have been: each pop is
  // followed by pushing the successors in the tree.
  ghost function Waiting(tree: Digraph, order: seq<Vertex>): Option<seq<Vertex>> {
    if order == [] then Some([tree.entry])
    else
      var b, w := order[|order| - 1], Waiting(tree, order[..|order| - 1]);
      if w.Some? && w.value != [] && w.value[|w.value| - 1] == b
      then Some(w.value[..|w.value| - 1] + Succs(tree, b)) else None
  }

  lemma WaitingNext(tree: Digraph, order: seq<Vertex>, b: Vertex, rest: seq<Vertex>)
    requires Waiting(tree, order) == Some(rest + [b])
    ensures Waiting(tree, order + [b]) == Some(rest + Succs(tree, b))
  {
    hide Succs;
    assert (order + [b])[..|order|] == order;
    assert (rest + [b])[..|rest|] == rest;
  }

  // The walk takes one vertex after the other.
  lemma {:induction false} WaitingBefore(tree: Digraph, order: seq<Vertex>, n: nat)
    requires Waiting(tree, order).Some? && n < |order|
    ensures var w := Waiting(tree, order[..n]); w.Some? && w.value != [] && w.value[|w.value| - 1] == order[n]
    decreases |order|
  {
    hide Succs;
    var front := order[..|order| - 1];
    if n < |front| {
      WaitingBefore(tree, front, n);
      assert front[..n] == order[..n];
    }
  }

  // It has only one order.
  lemma {:induction false} OrdersAgree(tree: Digraph, p: seq<Vertex>, q: seq<Vertex>, n: nat)
    requires Waiting(tree, p).Some? && Waiting(tree, q).Some? && n <= |p| && n <= |q|
    ensures p[..n] == q[..n]
  {
    hide Waiting;
    if n > 0 {
      OrdersAgree(tree, p, q, n - 1);
      WaitingBefore(tree, p, n - 1);
      WaitingBefore(tree, q, n - 1);
      assert p[..n] == p[..n - 1] + [p[n - 1]] && q[..n] == q[..n - 1] + [q[n - 1]];
    }
  }

  lemma NotLonger(tree: Digraph, p: seq<Vertex>, q: seq<Vertex>)
    requires Waiting(tree, p).Some? && Waiting(tree, q) == Some([])
    ensures |p| <= |q|
  {
    hide Waiting;
    var n := if |p| < |q| then |p| else |q|;
    OrdersAgree(tree, p, q, n);
    assert q[..|q|] == q;
    if n < |p| {
      WaitingBefore(tree, p, n);
    }
  }

  lemma OneOrder(tree: Digraph, p: seq<Vertex>, q: seq<Vertex>)
    requires Waiting(tree, p) == Some([]) && Waiting(tree, q) == Some([])
    ensures p == q
  {
    hide Waiting;
    NotLonger(tree, p, q);
    NotLonger(tree, q, p);
    OrdersAgree(tree, p, q, |p|);
    assert p[..|p|] == p && q[..|q|] == q;
  }

  // The walk has been through these vertices.
  ghost predicate Through(g: Digraph, doms: DC.Parents, w: Walk, order: seq<Vertex>) {
    WalkOk(g, doms, w) && NoDup(order) && forall v :: v in w.visited <==> v in order
  }

  lemma ThroughNext(g: Digraph, tree: Digraph, doms: DC.Parents, w: Walk, order: seq<Vertex>, b: Vertex,
      rest: seq<Vertex>)
    requires DC.IsTreeOf(tree, g.entry, doms) && Through(g, doms, w, order) && w.waiting == rest + [b]
    ensures Through(g, doms, Walk(w.visited + {b}, rest + Succs(tree, b)), order + [b])
  {
    hide WalkOk, DC.IsTreeOf, Succs, AreChildren;
    TreeChildren(g, tree, doms, b);
    TopIsNew(g, doms, w, b, rest);
    Pop(g, doms, w, b, rest, Succs(tree, b));
  }

  // Where the walk has come to.
  lemma {:induction false} WalkAt(g: Digraph, tree: Digraph, doms: DC.Parents, order: seq<Vertex>) returns (w: Walk)
    requires DT.ExactParents(g, doms) && DC.IsTreeOf(tree, g.entry, doms) && Waiting(tree, order).Some?
    ensures Through(g, doms, w, order) && w.waiting == Waiting(tree, order).value
    decreases |order|
  {
    hide DT.ExactParents, Succs, DC.IsTreeOf, WalkOk;
    if order == [] {
      BeginWalk(g, doms);
      TreeStarts(g, tree, doms);
      w := Walk({}, [g.entry]);
    } else {
      var front, b := order[..|order| - 1], order[|order| - 1];
      var v := WalkAt(g, tree, doms, front);
      var rest := v.waiting[..|v.waiting| - 1];
      assert v.waiting == rest + [b];
      ThroughNext(g, tree, doms, v, front, b, rest);
      w := Walk(v.visited + {b}, rest + Succs(tree, b));
      assert order == front + [b];
    }
  }

  lemma TreeStarts(g: Digraph, tree: Digraph, doms: DC.Parents)
    requires DC.IsTreeOf(tree, g.entry, doms)
    ensures tree.entry == g.entry
  {
  }

  lemma TopIsNew(g: Digraph, doms: DC.Parents, w: Walk, b: Vertex, rest: seq<Vertex>)
    requires WalkOk(g, doms, w) && w.waiting == rest + [b]
    ensures b !in w.visited && b in doms
  {
    TopWaits(g, doms, w, b, rest);
  }

  /** Every reachable vertex once, dominators first, and what a vertex dominates in one piece. */
  ghost predicate Preorder(g: Digraph, order: seq<Vertex>) {
    && NoDup(order) && order != [] && order[0] == g.entry && (forall v :: v in order <==> Reachable(g, v))
    && (forall i, j :: 0 <= i < |order| && 0 <= j < |order| && Dom(g, order[i], order[j]) ==> i <= j)
    && forall i, k, j {:trigger Dom(g, order[i], order[j]), order[k]} ::
         0 <= i <= k <= j < |order| && Dom(g, order[i], order[j]) ==> Dom(g, order[i], order[k])
  }

  // Inside the subtree of a vertex the walk has been since it came there.
  lemma {:induction false} StaysInside(g: Digraph, tree: Digraph, doms: DC.Parents, order: seq<Vertex>, i: nat, k: nat,
      j: nat)
    requires DT.ExactParents(g, doms) && DC.IsTreeOf(tree, g.entry, doms) && Waiting(tree, order).Some?
    requires i <= k <= j < |order| && Dom(g, order[i], order[j])
    ensures Dom(g, order[i], order[k])
    decreases j
  {
    hide Dom, DT.ExactParents, Succs, WalkOk, DC.IsTreeOf;
    if k < j {
      if i < j - 1 {
        InsideBefore(g, tree, doms, order, i, j);
        StaysInside(g, tree, doms, order, i, k, j - 1);
      } else {
        DominatesItself(g, order[i]);
      }
    }
  }

  lemma DominatesItself(g: Digraph, v: Vertex)
    ensures Dom(g, v, v)
  {
  }

  lemma InsideBefore(g: Digraph, tree: Digraph, doms: DC.Parents, order: seq<Vertex>, i: nat, j: nat)
    requires DT.ExactParents(g, doms) && DC.IsTreeOf(tree, g.entry, doms) && Waiting(tree, order).Some?
    requires i < j - 1 && j < |order| && Dom(g, order[i], order[j])
    ensures Dom(g, order[i], order[j - 1])
  {
    hide Dom, DT.ExactParents, Succs, WalkOk, DC.IsTreeOf, Waiting, AreChildren;
    WaitingBefore(tree, order, j - 1);
    WaitingBefore(tree, order, j);
    var w := WalkAt(g, tree, doms, order[..j - 1]);
    var b := order[j - 1];
    var rest := w.waiting[..|w.waiting| - 1];
    assert w.waiting == rest + [b];
    WaitingNext(tree, order[..j - 1], b, rest);
    assert order[..j] == order[..j - 1] + [b];
    TreeChildren(g, tree, doms, b);
    assert order[..j - 1][i] == order[i];
    StillInside(g, doms, w, b, rest, Succs(tree, b), order[i]);
  }

  /** The order in which the walk takes the vertices. */
  lemma WalkIsPreorder(g: Digraph, tree: Digraph, index: DC.Index, doms: DC.Parents, order: seq<Vertex>)
    requires DT.ExactParents(g, doms) && DC.IsTreeOf(tree, g.entry, doms) && DC.Climbs(g.entry, index, doms)
    requires Waiting(tree, order) == Some([])
    ensures Preorder(g, order)
  {
    hide Dom, DC.IsTreeOf, Succs, Waiting, WalkOk, Reachable, DC.Climbs, DT.ExactParents;
    var w := WalkAt(g, tree, doms, order);
    VisitedIsReachable(g, index, doms, w, order);
    EntryFirst(g, tree, doms, order);
    forall i, j | 0 <= i < |order| && 0 <= j < |order| && Dom(g, order[i], order[j])
      ensures i <= j
    {
      DominatorsFirst(g, tree, doms, order, i, j);
    }
    forall i, k, j | 0 <= i <= k <= j < |order| && Dom(g, order[i], order[j])
      ensures Dom(g, order[i], order[k])
    {
      StaysInside(g, tree, doms, order, i, k, j);
    }
  }

  lemma EntryFirst(g: Digraph, tree: Digraph, doms: DC.Parents, order: seq<Vertex>)
    requires DC.IsTreeOf(tree, g.entry, doms) && Waiting(tree, order) == Some([])
    ensures order != [] && order[0] == g.entry
  {
    hide Succs;
    TreeStarts(g, tree, doms);
    if order != [] {
      WaitingBefore(tree, order, 0);
    }
  }

  lemma VisitedIsReachable(g: Digraph, index: DC.Index, doms: DC.Parents, w: Walk, order: seq<Vertex>)
    requires Through(g, doms, w, order) && w.waiting == [] && DC.Climbs(g.entry, index, doms)
    ensures forall v :: v in order <==> Reachable(g, v)
  {
    hide Reachable, DC.Climbs, Closed, Layered, ChildrenWait;
    forall v
      ensures v in order <==> Reachable(g, v)
    {
      assert v in doms <==> Reachable(g, v);
      if v in doms {
        AllVisited(g, index, doms, w, v);
      }
    }
  }

  lemma DominatorsFirst(g: Digraph, tree: Digraph, doms: DC.Parents, order: seq<Vertex>, i: nat, j: nat)
    requires DT.ExactParents(g, doms) && DC.IsTreeOf(tree, g.entry, doms) && Waiting(tree, order).Some?
    requires i < |order| && j < |order| && Dom(g, order[i], order[j]) && NoDup(order)
    ensures i <= j
  {
    hide Dom, DT.ExactParents, DC.IsTreeOf, Succs, WalkOk, Waiting;
    if j + 1 < |order| {
      WaitingBefore(tree, order, j + 1);
    } else {
      assert order[..j + 1] == order;
    }
    var w := WalkAt(g, tree, doms, order[..j + 1]);
    assert order[j] == order[..j + 1][j];
    VisitedDominators(g, doms, w, order[..j + 1], order[i], order[j]);
  }

  lemma VisitedDominators(g: Digraph, doms: DC.Parents, w: Walk, order: seq<Vertex>, d: Vertex, v: Vertex)
    requires Through(g, doms, w, order) && v in order && Dom(g, d, v)
    ensures d in order
  {
    hide Dom, DT.ExactParents, Waits, Layered, ChildrenWait;
  }

  // The walk can go on until nothing waits.
  lemma {:induction false} OrderFrom(g: Digraph, tree: Digraph, doms: DC.Parents, order: seq<Vertex>, w: Walk)
      returns (all: seq<Vertex>)
    requires DC.IsTreeOf(tree, g.entry, doms) && Through(g, doms, w, order) && Waiting(tree, order) == Some(w.waiting)
    ensures Waiting(tree, all) == Some([])
    decreases doms.Keys - w.visited
  {
    hide DC.IsTreeOf, Succs, Waiting, WalkOk;
    all := order;
    if w.waiting != [] {
      var b, rest := w.waiting[|w.waiting| - 1], w.waiting[..|w.waiting| - 1];
      assert w.waiting == rest + [b];
      ThroughNext(g, tree, doms, w, order, b, rest);
      WaitingNext(tree, order, b, rest);
      TopIsNew(g, doms, w, b, rest);
      all := OrderFrom(g, tree, doms, order + [b], Walk(w.visited + {b}, rest + Succs(tree, b)));
    }
  }

  /** Every tree has an order in which it is walked. */
  lemma OrderExists(g: Digraph, tree: Digraph, doms: DC.Parents) returns (order: seq<Vertex>)
    requires DT.ExactParents(g, doms) && DC.IsTreeOf(tree, g.entry, doms)
    ensures Waiting(tree, order) == Some([])
  {
    hide DC.IsTreeOf;
    BeginWalk(g, doms);
    TreeStarts(g, tree, doms);
    order := OrderFrom(g, tree, doms, [], Walk({}, [g.entry]));
  }
}

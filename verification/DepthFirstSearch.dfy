/** Depth-first search from the entry, with its pre-order and post-order. */
module DepthFirstSearch {
  import opened Graph

  datatype State = Unexplored | Exploring | Explored

  ghost function Universe(g: Digraph): set<Vertex> {
    {g.entry} + set e | e in g.edges :: e.dst
  }

  lemma InUniverse(g: Digraph, u: Vertex, v: Vertex)
    requires HasEdge(g, u, v)
    ensures v in Universe(g)
  {
    assert Edge(u, v) in g.edges;
  }

  // ---- What the search computes

  // The vertices discovered and finished, in order, and all that have been seen.
  datatype Found = Found(pre: seq<Vertex>, post: seq<Vertex>, seen: set<Vertex>)

  // Explores the vertices one after another, those that have not been seen.
  ghost function Visit(g: Digraph, vs: seq<Vertex>, seen: set<Vertex>): (r: Found)
    requires seen <= Universe(g) && forall v :: v in vs ==> v in Universe(g)
    ensures seen <= r.seen <= Universe(g)
    decreases Universe(g) - seen, |vs|
  {
    if vs == [] then Found([], [], seen)
    else if vs[0] in seen then Visit(g, vs[1..], seen)
    else
      var v := vs[0];
      SuccsInUniverse(g, v);
      var inner := Visit(g, Succs(g, v), seen + {v});
      var rest := Visit(g, vs[1..], inner.seen);
      Found([v] + inner.pre + rest.pre, inner.post + [v] + rest.post, rest.seen)
  }

  lemma SuccsInUniverse(g: Digraph, v: Vertex)
    ensures forall w :: w in Succs(g, v) ==> w in Universe(g)
  {
    forall w | w in Succs(g, v)
      ensures w in Universe(g)
    {
      InUniverse(g, v, w);
    }
  }

  /** The orders of a search from the entry that takes the edges in the order they were connected. */
  ghost function SearchOrders(g: Digraph): Found {
    Visit(g, [g.entry], {})
  }

  // ---- What is true of the orders

  // v was discovered before u, or is u.
  ghost predicate NotAfter(pre: seq<Vertex>, v: Vertex, u: Vertex) {
    exists i, j {:trigger pre[i], pre[j]} :: 0 <= i <= j < |pre| && pre[i] == v && pre[j] == u
  }

  // v was still being explored when u was finished: it was discovered no later, and is not in the post-order
  // before u. Then it lies on the path of vertices being explored, which is simple.
  ghost predicate Retreats(g: Digraph, pre: seq<Vertex>, u: Vertex, v: Vertex) {
    NotAfter(pre, v, u) && OnSimplePath(g, u, v)
  }

  ghost predicate OnSimplePath(g: Digraph, u: Vertex, v: Vertex) {
    exists p :: IsPath(g, p, u) && NoDup(p) && v in p
  }

  // Every edge out of a listed vertex goes to a vertex listed earlier, unless that was still being explored.
  ghost predicate EdgesDescend(g: Digraph, pre: seq<Vertex>, post: seq<Vertex>) {
    forall i, v :: 0 <= i < |post| && HasEdge(g, post[i], v) ==> v in post[..i] || Retreats(g, pre, post[i], v)
  }

  // Every listed vertex but the entry was discovered over an edge from a vertex listed later,
  // or from one of the given vertices, which are still to be listed.
  ghost predicate ParentsFollow(g: Digraph, post: seq<Vertex>, unlisted: seq<Vertex>) {
    forall i {:trigger HasParent(g, post, unlisted, i)} :: 0 <= i < |post| && post[i] != g.entry ==>
      HasParent(g, post, unlisted, i)
  }

  ghost predicate HasParent(g: Digraph, post: seq<Vertex>, unlisted: seq<Vertex>, i: nat)
    requires i < |post|
  {
    exists u :: HasEdge(g, u, post[i]) && (u in unlisted || u in post[i + 1..])
  }

  /** The two orders of a finished search, and what they satisfy. */
  ghost predicate IsSearchOf(g: Digraph, pre: seq<Vertex>, post: seq<Vertex>) {
    && pre == SearchOrders(g).pre && post == SearchOrders(g).post
    && NoDup(pre) && NoDup(post)
    && (forall v :: v in pre <==> Reachable(g, v))
    && (forall v :: v in post <==> Reachable(g, v))
    && |pre| > 0 && pre[0] == g.entry
    && |post| > 0 && post[|post| - 1] == g.entry
    && EdgesDescend(g, pre, post) && ParentsFollow(g, post, [])
  }

  // The stack holds the vertices being explored, a path from the entry.
  ghost predicate Inv(g: Digraph, now: Found, stack: seq<Vertex>) {
    && NoDup(now.pre) && NoDup(now.post) && NoDup(stack)
    && (forall v :: v in now.seen <==> v in stack || v in now.post)
    && (forall v :: v in now.pre <==> v in now.seen)
    && PostOrdered(g, now.pre, now.post, stack) && InStackOrder(now.pre, stack)
    && |now.pre| > 0 && now.pre[0] == g.entry && now.seen <= Universe(g)
  }

  // The stack stands in the pre-order in stack order.
  ghost predicate InStackOrder(pre: seq<Vertex>, stack: seq<Vertex>) {
    forall i, j {:trigger stack[i], stack[j]} :: 0 <= i <= j < |stack| ==> NotAfter(pre, stack[i], stack[j])
  }

  ghost predicate PostOrdered(g: Digraph, pre: seq<Vertex>, post: seq<Vertex>, stack: seq<Vertex>) {
    && (forall v :: v in stack ==> v !in post)
    && (forall v :: v in stack || v in post ==> Reachable(g, v))
    && (forall u, v :: u in post && HasEdge(g, u, v) ==> v in stack || v in post)
    && EdgesDescend(g, pre, post) && ParentsFollow(g, post, stack)
  }

  // ---- A vertex is discovered

  lemma NotAfterMore(pre: seq<Vertex>, x: Vertex, v: Vertex, u: Vertex)
    requires NotAfter(pre, v, u)
    ensures NotAfter(pre + [x], v, u)
  {
    var i, j :| 0 <= i <= j < |pre| && pre[i] == v && pre[j] == u;
    assert (pre + [x])[i] == v && (pre + [x])[j] == u;
  }

  lemma NotAfterLast(pre: seq<Vertex>, x: Vertex, v: Vertex)
    requires v in pre || v == x
    ensures NotAfter(pre + [x], v, x)
  {
    var pre' := pre + [x];
    assert pre'[|pre|] == x;
    if v in pre {
      var i :| 0 <= i < |pre| && pre[i] == v;
      assert pre'[i] == v;
    }
  }

  lemma EdgesStillDescend(g: Digraph, pre: seq<Vertex>, post: seq<Vertex>, x: Vertex)
    requires EdgesDescend(g, pre, post)
    ensures EdgesDescend(g, pre + [x], post)
  {
    hide NotAfter, OnSimplePath;
    forall i, v | 0 <= i < |post| && HasEdge(g, post[i], v)
      ensures v in post[..i] || Retreats(g, pre + [x], post[i], v)
    {
      if Retreats(g, pre, post[i], v) {
        NotAfterMore(pre, x, v, post[i]);
      }
    }
  }

  lemma StackStillInOrder(pre: seq<Vertex>, stack: seq<Vertex>, v: Vertex)
    requires InStackOrder(pre, stack) && forall x :: x in stack ==> x in pre
    ensures InStackOrder(pre + [v], stack + [v])
  {
    hide NotAfter;
    var stack' := stack + [v];
    forall i, j | 0 <= i <= j < |stack'|
      ensures NotAfter(pre + [v], stack'[i], stack'[j])
    {
      if j < |stack| {
        NotAfterMore(pre, v, stack[i], stack[j]);
      } else {
        NotAfterLast(pre, v, stack'[i]);
      }
    }
  }

  lemma ParentsStillFollow(g: Digraph, post: seq<Vertex>, stack: seq<Vertex>, stack': seq<Vertex>)
    requires ParentsFollow(g, post, stack) && stack <= stack'
    ensures ParentsFollow(g, post, stack')
  {
    forall i | 0 <= i < |post| && post[i] != g.entry
      ensures HasParent(g, post, stack', i)
    {
      assert HasParent(g, post, stack, i);
      var u :| HasEdge(g, u, post[i]) && (u in stack || u in post[i + 1..]);
      assert u in stack' || u in post[i + 1..];
    }
  }

  lemma Discover(g: Digraph, now: Found, stack: seq<Vertex>, u: Vertex, v: Vertex)
    requires Inv(g, now, stack) && IsPath(g, stack, u) && HasEdge(g, u, v) && v !in now.seen
    ensures IsPath(g, stack + [v], v)
    ensures Inv(g, Found(now.pre + [v], now.post, now.seen + {v}), stack + [v])
  {
    hide EdgesDescend, ParentsFollow, InStackOrder, Reachable;
    assert v !in stack && v !in now.post && v !in now.pre;
    assert u in stack;
    ReachableStep(g, u, v);
    InUniverse(g, u, v);
    assert IsPath(g, stack + [v], v);
    ParentsStillFollow(g, now.post, stack, stack + [v]);
    EdgesStillDescend(g, now.pre, now.post, v);
    StackStillInOrder(now.pre, stack, v);
  }

  // ---- A vertex is finished

  // The vertex on top of the stack is listed; its own parent is the one below it.
  lemma ParentsFollowFinished(g: Digraph, post: seq<Vertex>, stack: seq<Vertex>, u: Vertex)
    requires ParentsFollow(g, post, stack) && IsPath(g, stack, u)
    ensures ParentsFollow(g, post + [u], stack[..|stack| - 1])
  {
    var post', stack' := post + [u], stack[..|stack| - 1];
    forall i | 0 <= i < |post'| && post'[i] != g.entry
      ensures HasParent(g, post', stack', i)
    {
      if i < |post| {
        assert HasParent(g, post, stack, i);
        var x :| HasEdge(g, x, post[i]) && (x in stack || x in post[i + 1..]);
        assert post'[i + 1..] == post[i + 1..] + [u];
        assert stack == stack' + [u];
        assert x in stack' || x in post'[i + 1..];
      } else {
        var x := stack[|stack| - 2];
        assert HasEdge(g, x, stack[|stack| - 2 + 1]);
        assert x in stack';
      }
    }
  }

  // Everything on the stack is still being explored when its top is finished.
  lemma OnStackRetreats(g: Digraph, pre: seq<Vertex>, stack: seq<Vertex>, u: Vertex, v: Vertex)
    requires IsPath(g, stack, u) && NoDup(stack) && InStackOrder(pre, stack) && v in stack
    ensures Retreats(g, pre, u, v)
  {
    hide NotAfter, HasEdge;
    var k :| 0 <= k < |stack| && stack[k] == v;
    assert NotAfter(pre, stack[k], stack[|stack| - 1]);
  }

  lemma FinishPostOrder(g: Digraph, pre: seq<Vertex>, post: seq<Vertex>, stack: seq<Vertex>, u: Vertex)
    requires PostOrdered(g, pre, post, stack) && IsPath(g, stack, u) && NoDup(stack) && InStackOrder(pre, stack)
    requires forall v :: HasEdge(g, u, v) ==> v in stack || v in post
    ensures PostOrdered(g, pre, post + [u], stack[..|stack| - 1])
  {
    hide ParentsFollow, Reachable, Retreats, InStackOrder;
    var post', stack' := post + [u], stack[..|stack| - 1];
    assert stack == stack' + [u];
    forall i, v | 0 <= i < |post'| && HasEdge(g, post'[i], v)
      ensures v in post'[..i] || Retreats(g, pre, post'[i], v)
    {
      if i < |post| {
        assert post'[..i] == post[..i];
      } else {
        assert post'[..i] == post;
        if v in stack {
          OnStackRetreats(g, pre, stack, u, v);
        }
      }
    }
    ParentsFollowFinished(g, post, stack, u);
  }

  lemma Finish(g: Digraph, now: Found, stack: seq<Vertex>, u: Vertex)
    requires Inv(g, now, stack) && IsPath(g, stack, u) && forall v :: HasEdge(g, u, v) ==> v in now.seen
    ensures Inv(g, Found(now.pre, now.post + [u], now.seen), stack[..|stack| - 1])
  {
    hide Reachable, EdgesDescend, ParentsFollow, NotAfter;
    var stack' := stack[..|stack| - 1];
    assert stack == stack' + [u];
    assert u in stack && u !in now.post;
    FinishPostOrder(g, now.pre, now.post, stack, u);
    assert forall v :: v in now.post + [u] <==> v in now.post || v == u;
    assert InStackOrder(now.pre, stack') by {
      forall i, j | 0 <= i <= j < |stack'|
        ensures NotAfter(now.pre, stack'[i], stack'[j])
      {
        assert stack'[i] == stack[i] && stack'[j] == stack[j];
      }
    }
  }

  // ---- The whole search

  ghost function Behind(now: Found, r: Found): Found {
    Found(now.pre + r.pre, now.post + r.post, r.seen)
  }

  // Exploring successors of the vertex on top of the stack.
  lemma {:induction false} VisitKeeps(g: Digraph, vs: seq<Vertex>, now: Found, stack: seq<Vertex>)
    requires |stack| > 0 && IsPath(g, stack, stack[|stack| - 1]) && Inv(g, now, stack)
    requires now.seen <= Universe(g) && forall v :: v in vs ==> HasEdge(g, stack[|stack| - 1], v) && v in Universe(g)
    ensures var r := Visit(g, vs, now.seen); Inv(g, Behind(now, r), stack) && forall v :: v in vs ==> v in r.seen
    decreases Universe(g) - now.seen, |vs|
  {
    hide PostOrdered, InStackOrder, NoDup, Reachable, HasEdge, Inv, IsPath;
    if vs == [] {
      assert Behind(now, Visit(g, vs, now.seen)) == now;
    } else if vs[0] in now.seen {
      assert forall v :: v in vs <==> v == vs[0] || v in vs[1..];
      VisitKeeps(g, vs[1..], now, stack);
    } else {
      var v, top := vs[0], stack[|stack| - 1];
      assert forall w :: w in vs <==> w == v || w in vs[1..];
      assert v in vs;
      Discover(g, now, stack, top, v);
      SuccsInUniverse(g, v);
      SuccsAreEdges(g, v);
      var entered := Found(now.pre + [v], now.post, now.seen + {v});
      assert v in now.seen + {v} && v !in now.seen && v in Universe(g);
      VisitKeeps(g, Succs(g, v), entered, stack + [v]);
      var inner := Visit(g, Succs(g, v), now.seen + {v});
      Finish(g, Behind(entered, inner), stack + [v], v);
      assert (stack + [v])[..|stack + [v]| - 1] == stack;
      var after := Found(now.pre + [v] + inner.pre, now.post + inner.post + [v], inner.seen);
      VisitKeeps(g, vs[1..], after, stack);
      assert Behind(now, Visit(g, vs, now.seen)) == Behind(after, Visit(g, vs[1..], inner.seen));
    }
  }

  lemma SuccsAreEdges(g: Digraph, v: Vertex)
    ensures forall w :: w in Succs(g, v) <==> HasEdge(g, v, w)
  {
  }

  lemma Begin(g: Digraph)
    ensures Inv(g, Found([g.entry], [], {g.entry}), [g.entry]) && IsPath(g, [g.entry], g.entry)
  {
    EntryReachable(g);
    assert NotAfter([g.entry], g.entry, g.entry) by {
      assert [g.entry][0] == g.entry;
    }
  }

  // The search is that of the entry, with nothing before or behind it.
  lemma SearchUnfolds(g: Digraph)
    ensures g.entry in Universe(g) && forall v :: v in Succs(g, g.entry) ==> v in Universe(g)
    ensures var inner := Visit(g, Succs(g, g.entry), {g.entry});
      SearchOrders(g) == Found([g.entry] + inner.pre, inner.post + [g.entry], inner.seen)
  {
    SuccsInUniverse(g, g.entry);
    assert {} + {g.entry} == {g.entry};
    var inner := Visit(g, Succs(g, g.entry), {g.entry});
    assert Visit(g, [], inner.seen) == Found([], [], inner.seen);
    assert [g.entry][1..] == [];
  }

  // With nothing left being explored, a list closed under descending edges is complete.
  lemma {:induction false} AllListed(g: Digraph, post: seq<Vertex>, p: seq<Vertex>, i: nat)
    requires IsWalk(g, p) && i < |p| && p[0] in post
    requires forall u, v :: u in post && HasEdge(g, u, v) ==> v in post
    ensures p[i] in post
  {
    if i > 0 {
      AllListed(g, post, p, i - 1);
      assert HasEdge(g, p[i - 1], p[i]);
    }
  }

  lemma FinishedIsSearch(g: Digraph, now: Found)
    requires Inv(g, now, []) && |now.post| > 0 && now.post[|now.post| - 1] == g.entry
    requires now == SearchOrders(g)
    ensures IsSearchOf(g, now.pre, now.post) && forall v :: v in now.post <==> v in now.seen
  {
    hide EdgesDescend, ParentsFollow, InStackOrder, SearchOrders;
    forall v | Reachable(g, v)
      ensures v in now.post
    {
      var p :| IsPath(g, p, v);
      AllListed(g, now.post, p, |p| - 1);
    }
  }

  /** The orders that the search computes list every reachable vertex once, the entry first and last, and an edge
      leads to a vertex finished earlier or to one that was still being explored. */
  lemma SearchIsSound(g: Digraph)
    ensures IsSearchOf(g, SearchOrders(g).pre, SearchOrders(g).post)
    ensures forall v :: v in SearchOrders(g).post <==> v in SearchOrders(g).seen
  {
    hide IsSearchOf, Inv, SearchOrders, IsPath;
    Begin(g);
    SearchUnfolds(g);
    SuccsAreEdges(g, g.entry);
    var start := Found([g.entry], [], {g.entry});
    VisitKeeps(g, Succs(g, g.entry), start, [g.entry]);
    var inner := Visit(g, Succs(g, g.entry), {g.entry});
    Finish(g, Behind(start, inner), [g.entry], g.entry);
    assert Behind(start, inner).post == inner.post;
    FinishedIsSearch(g, SearchOrders(g));
  }

  lemma SearchDescends(g: Digraph, pre: seq<Vertex>, post: seq<Vertex>, i: nat, v: Vertex)
    requires IsSearchOf(g, pre, post) && i < |post| && HasEdge(g, post[i], v)
    ensures v in post[..i] || OnSimplePath(g, post[i], v)
  {
    hide SearchOrders, ParentsFollow, NotAfter, OnSimplePath, NoDup;
  }

  // ---- The search object

  function StateOf(state: map<Vertex, State>, v: Vertex): State {
    if v in state then state[v] else Unexplored
  }

  ghost function Seen(state: map<Vertex, State>): set<Vertex> {
    set v | v in state && state[v] != Unexplored
  }

  // What has been discovered since has been explored, and nothing else has changed.
  ghost predicate ExploredSince(before: map<Vertex, State>, after: map<Vertex, State>) {
    forall v {:trigger StateOf(after, v)} :: StateOf(after, v)
      == (if StateOf(before, v) != Unexplored then StateOf(before, v)
          else if v in Seen(after) then Explored else Unexplored)
  }

  // A vertex that has been seen is skipped.
  lemma VisitSkips(g: Digraph, vs: seq<Vertex>, k: nat, seen: set<Vertex>)
    requires k < |vs| && seen <= Universe(g) && (forall v :: v in vs ==> v in Universe(g)) && vs[k] in seen
    ensures Visit(g, vs[k..], seen) == Visit(g, vs[k + 1..], seen)
  {
    assert vs[k..][0] == vs[k] && vs[k..][1..] == vs[k + 1..];
  }

  // One more of the vertices is explored.
  lemma VisitNext(g: Digraph, vs: seq<Vertex>, k: nat, now: Found)
    requires k < |vs| && now.seen <= Universe(g) && (forall v :: v in vs ==> v in Universe(g)) && vs[k] !in now.seen
    ensures (forall w :: w in Succs(g, vs[k]) ==> w in Universe(g)) && vs[k] in Universe(g)
    ensures var inner := Visit(g, Succs(g, vs[k]), now.seen + {vs[k]});
      Behind(Found(now.pre + [vs[k]] + inner.pre, now.post + inner.post + [vs[k]], inner.seen),
             Visit(g, vs[k + 1..], inner.seen))
        == Behind(now, Visit(g, vs[k..], now.seen))
  {
    hide Universe, Succs;
    var v := vs[k];
    assert vs[k..][0] == v && vs[k..][1..] == vs[k + 1..];
    SuccsInUniverse(g, v);
    var inner := Visit(g, Succs(g, v), now.seen + {v});
    var rest := Visit(g, vs[k + 1..], inner.seen);
    assert Visit(g, vs[k..], now.seen) == Found([v] + inner.pre + rest.pre, inner.post + [v] + rest.post, rest.seen);
    hide Visit;
    assert now.pre + [v] + inner.pre + rest.pre == now.pre + ([v] + inner.pre + rest.pre);
    assert now.post + inner.post + [v] + rest.post == now.post + (inner.post + [v] + rest.post);
  }

  lemma SinceItself(s: map<Vertex, State>)
    ensures ExploredSince(s, s)
  {
  }

  lemma SinceBoth(a: map<Vertex, State>, b: map<Vertex, State>, c: map<Vertex, State>)
    requires ExploredSince(a, b) && ExploredSince(b, c)
    ensures ExploredSince(a, c)
  {
    forall v
      ensures StateOf(c, v) == (if StateOf(a, v) != Unexplored then StateOf(a, v)
        else if v in Seen(c) then Explored else Unexplored)
    {
      assert StateOf(b, v) == StateOf(b, v);
    }
  }

  lemma SinceFinished(a: map<Vertex, State>, b: map<Vertex, State>, v: Vertex)
    requires ExploredSince(a, b) && StateOf(a, v) == Exploring
    ensures ExploredSince(a[v := Explored], b[v := Explored]) && Seen(b[v := Explored]) == Seen(b)
  {
    assert StateOf(b, v) == Exploring;
    var a', b' := a[v := Explored], b[v := Explored];
    forall w
      ensures StateOf(b', w) == (if StateOf(a', w) != Unexplored then StateOf(a', w)
        else if w in Seen(b') then Explored else Unexplored)
    {
      assert w != v ==> StateOf(b', w) == StateOf(b, w);
    }
  }

  lemma SinceDiscovered(a: map<Vertex, State>, b: map<Vertex, State>, v: Vertex)
    requires StateOf(a, v) == Unexplored && ExploredSince(a[v := Exploring][v := Explored], b)
    ensures ExploredSince(a, b) && Seen(a[v := Exploring]) == Seen(a) + {v}
  {
    var c := a[v := Exploring][v := Explored];
    forall w
      ensures StateOf(b, w) == (if StateOf(a, w) != Unexplored then StateOf(a, w)
        else if w in Seen(b) then Explored else Unexplored)
    {
      assert StateOf(c, w) == if w == v then Explored else StateOf(a, w);
    }
  }

  lemma SeenDiscovered(a: map<Vertex, State>, v: Vertex)
    requires StateOf(a, v) == Unexplored
    ensures v !in Seen(a) && Seen(a[v := Exploring]) == Seen(a) + {v} && StateOf(a[v := Exploring], v) == Exploring
  {
  }

  /** The search object of one run over a graph. */
  class Search {
    var state: map<Vertex, State>
    var preOrder: seq<Vertex>
    var postOrder: seq<Vertex>

    constructor ()
      ensures state == map[] && preOrder == [] && postOrder == []
    {
      state, preOrder, postOrder := map[], [], [];
    }

    ghost function Now(): Found
      reads this
    {
      Found(preOrder, postOrder, Seen(state))
    }

    method Dfs(graph: GraphObject, vertex: Vertex, ghost g: Digraph)
      requires graph.Valid() && graph.Model() == g && StateOf(state, vertex) == Exploring
      requires Seen(state) <= Universe(g) && forall w :: w in Succs(g, vertex) ==> w in Universe(g)
      modifies this
      ensures var r := Visit(g, Succs(g, vertex), old(Seen(state)));
        Now() == Found(old(preOrder) + [vertex] + r.pre, old(postOrder) + r.post + [vertex], r.seen)
      ensures ExploredSince(old(state)[vertex := Explored], state)
      decreases Universe(g) - Seen(state), 2
    {
      hide Visit, ExploredSince;
      preOrder := preOrder + [vertex];
      var succs := graph.SuccsOf(vertex);
      DfsSuccs(graph, succs, g);
      SinceFinished(old(state), state, vertex);
      state := state[vertex := Explored];
      postOrder := postOrder + [vertex];
    }

    // The loop of Dfs over the successors.
    method DfsSuccs(graph: GraphObject, succs: seq<Vertex>, ghost g: Digraph)
      requires graph.Valid() && graph.Model() == g
      requires Seen(state) <= Universe(g) && forall w :: w in succs ==> w in Universe(g)
      modifies this
      ensures Now() == Behind(old(Now()), Visit(g, succs, old(Seen(state)))) && ExploredSince(old(state), state)
      decreases Universe(g) - Seen(state), 1
    {
      hide ExploredSince, Seen, Universe;
      ghost var all := Visit(g, succs, Seen(state));
      var k := 0;
      assert succs[0..] == succs;
      SinceItself(state);
      while k < |succs|
        invariant 0 <= k <= |succs| && old(Seen(state)) <= Seen(state) <= Universe(g)
        invariant Behind(Now(), Visit(g, succs[k..], Seen(state))) == Behind(old(Now()), all)
        invariant ExploredSince(old(state), state)
      {
        ghost var before := state;
        DfsNext(graph, succs, k, g);
        SinceBoth(old(state), before, state);
        k := k + 1;
      }
      assert Visit(g, succs[k..], Seen(state)) == Found([], [], Seen(state));
    }

    // One round of the loop.
    method DfsNext(graph: GraphObject, succs: seq<Vertex>, k: nat, ghost g: Digraph)
      requires graph.Valid() && graph.Model() == g && k < |succs|
      requires Seen(state) <= Universe(g) && forall w :: w in succs ==> w in Universe(g)
      modifies this
      ensures old(Seen(state)) <= Seen(state) <= Universe(g) && ExploredSince(old(state), state)
      ensures Behind(Now(), Visit(g, succs[k + 1..], Seen(state)))
           == Behind(old(Now()), Visit(g, succs[k..], old(Seen(state))))
      decreases Universe(g) - Seen(state), 0
    {
      hide ExploredSince, Universe;
      var succ := succs[k];
      assert succ in succs;
      if StateOf(state, succ) == Unexplored {
        VisitNext(g, succs, k, Now());
        SeenDiscovered(state, succ);
        state := state[succ := Exploring];
        hide Visit, Seen;
        Dfs(graph, succ, g);
        SinceDiscovered(old(state), state, succ);
      } else {
        VisitSkips(g, succs, k, Seen(state));
        SinceItself(state);
      }
    }

    /** The orders are those of the search, with all that is true of them, and everything seen is explored. */
    method Run(graph: GraphObject, ghost g: Digraph)
      requires graph.Valid() && g == graph.Model() && state == map[] && preOrder == [] && postOrder == []
      modifies this
      ensures IsSearchOf(g, preOrder, postOrder)
      ensures forall v :: StateOf(state, v) == if v in postOrder then Explored else Unexplored
    {
      hide IsSearchOf, Visit, SearchOrders;
      SearchUnfolds(g);
      SeenDiscovered(state, graph.entry);
      assert Seen(state) == {};
      assert {} + {g.entry} == {g.entry};
      state := state[graph.entry := Exploring];
      Dfs(graph, graph.entry, g);
      SearchIsSound(g);
      assert Now() == SearchOrders(g);
      forall v
        ensures StateOf(state, v) == if v in postOrder then Explored else Unexplored
      {
        assert v in postOrder <==> v in Seen(state);
      }
    }
  }
}

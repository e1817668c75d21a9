/** One reverse-post-order pass of the iterative dominator algorithm, and what it computes. */
module DominanceComputer {
  import opened Words
  import opened Graph
  import opened DepthFirstSearch
  import opened Dominance

  type Index = map<Vertex, nat>
  type Parents = map<Vertex, Vertex>

  ghost predicate Indexes(post: seq<Vertex>, index: Index) {
    && (forall v :: v in index <==> v in post)
    && (forall i :: 0 <= i < |post| ==> index[post[i]] == i)
  }

  // Parents have larger indices, so parent chains end at the entry.
  ghost predicate Climbs(entry: Vertex, index: Index, doms: Parents) {
    && entry in doms && doms[entry] == entry && entry in index
    && (forall v {:trigger index[v]} :: v in doms ==> v in index && index[v] <= index[entry])
    && (forall v {:trigger doms[v]} :: v in doms ==> doms[v] in doms)
    && (forall v {:trigger doms[v]} :: v in doms && v != entry ==>
          v in index && doms[v] in index && index[v] < index[doms[v]])
  }

  ghost function Chain(entry: Vertex, index: Index, doms: Parents, v: Vertex): set<Vertex>
    requires Climbs(entry, index, doms) && v in doms
    decreases index[entry] - index[v]
  {
    if v == entry then {v} else {v} + Chain(entry, index, doms, doms[v])
  }

  lemma {:induction false} ChainAbove(entry: Vertex, index: Index, doms: Parents, v: Vertex)
    requires Climbs(entry, index, doms) && v in doms
    ensures forall d :: d in Chain(entry, index, doms, v) ==> d in doms && index[v] <= index[d]
    ensures entry in Chain(entry, index, doms, v)
    decreases index[entry] - index[v]
  {
    if v != entry {
      ChainAbove(entry, index, doms, doms[v]);
    }
  }

  lemma ParentClimbs(entry: Vertex, index: Index, doms: Parents, v: Vertex)
    requires Climbs(entry, index, doms) && v in doms && v != entry
    ensures doms[v] in doms && v in index && doms[v] in index && entry in index
    ensures index[v] < index[doms[v]] <= index[entry]
  {
    assert index[doms[v]] <= index[entry];
  }

  lemma {:induction false} ChainFrame(entry: Vertex, index: Index, doms: Parents, doms': Parents, v: Vertex)
    requires Climbs(entry, index, doms) && Climbs(entry, index, doms') && v in doms
    requires forall u :: u in doms ==> u in doms' && doms'[u] == doms[u]
    ensures Chain(entry, index, doms', v) == Chain(entry, index, doms, v)
    decreases index[entry] - index[v]
  {
    hide Climbs;
    if v != entry {
      ParentClimbs(entry, index, doms, v);
      ChainFrame(entry, index, doms, doms', doms[v]);
    }
  }

  // A vertex that the search for a seed does not pass over: the entry, or the target of some edge.
  ghost predicate MaySeed(g: Digraph, p: Vertex) {
    p == g.entry || exists q :: HasEdge(g, q, p)
  }

  // The first of the vertices that may be the seed stands at k.
  ghost predicate SeedAt(g: Digraph, preds: seq<Vertex>, k: nat) {
    k < |preds| && MaySeed(g, preds[k]) && forall j :: 0 <= j < k ==> !MaySeed(g, preds[j])
  }

  // The pass can only handle b if the first of its predecessors that may be the seed precedes it in reverse post-order.
  ghost predicate SeedPrecedes(g: Digraph, index: Index, b: Vertex)
    requires b in index
  {
    exists k: nat {:trigger SeedAt(g, Preds(g, b), k)} ::
      SeedAt(g, Preds(g, b), k) && Preds(g, b)[k] in index && index[Preds(g, b)[k]] > index[b]
  }

  lemma OneSeed(g: Digraph, index: Index, b: Vertex, k: nat)
    requires b in index && SeedAt(g, Preds(g, b), k)
    ensures SeedPrecedes(g, index, b) <==> Preds(g, b)[k] in index && index[Preds(g, b)[k]] > index[b]
  {
    hide MaySeed;
  }

  // The chain above b is what the chains of all predecessors handled before b have in common.
  ghost predicate IsMeet(g: Digraph, index: Index, doms: Parents, b: Vertex)
    requires Climbs(g.entry, index, doms) && b in doms
  {
    forall d {:trigger OnEarlierChains(g, index, doms, b, d)} ::
      d in Chain(g.entry, index, doms, doms[b]) <==> OnEarlierChains(g, index, doms, b, d)
  }

  ghost predicate OnEarlierChains(g: Digraph, index: Index, doms: Parents, b: Vertex, d: Vertex)
    requires Climbs(g.entry, index, doms) && b in doms
  {
    forall p :: HasEdge(g, p, b) && p in doms && index[p] > index[b] ==> d in Chain(g.entry, index, doms, p)
  }

  /** What one pass leaves in the parent map, for every vertex reachable from the entry. */
  ghost predicate IsPass(g: Digraph, index: Index, doms: Parents) {
    && Climbs(g.entry, index, doms)
    && (forall v :: v in doms <==> Reachable(g, v))
    && (forall b :: b in doms && b != g.entry ==> IsMeet(g, index, doms, b))
  }

  // The tree object holds one edge from the parent of every vertex but the entry.
  ghost predicate IsTreeOf(tree: Digraph, entry: Vertex, doms: Parents) {
    && tree.entry == entry
    && (forall v :: v in doms && v != entry ==> Preds(tree, v) == [doms[v]])
    && (forall v :: v !in doms || v == entry ==> Preds(tree, v) == [])
  }

  ghost predicate Meet(entry: Vertex, index: Index, doms: Parents, u: Vertex, v: Vertex, common: set<Vertex>)
    requires Climbs(entry, index, doms) && u in doms && v in doms
  {
    forall d {:trigger d in common} :: d in common <==>
      d in Chain(entry, index, doms, u) && d in Chain(entry, index, doms, v)
  }

  lemma MeetStep(entry: Vertex, index: Index, doms: Parents, u: Vertex, v: Vertex, common: set<Vertex>)
    requires Climbs(entry, index, doms) && u in doms && v in doms
    requires Meet(entry, index, doms, u, v, common) && index[u] < index[v]
    ensures Meet(entry, index, doms, doms[u], v, common)
  {
    ChainAbove(entry, index, doms, v);
  }

  lemma MeetSwap(entry: Vertex, index: Index, doms: Parents, u: Vertex, v: Vertex, common: set<Vertex>)
    requires Climbs(entry, index, doms) && u in doms && v in doms
    requires Meet(entry, index, doms, u, v, common)
    ensures Meet(entry, index, doms, v, u, common)
  {
  }

  // Equal indices are equal vertices, and the entry has the largest.
  ghost predicate TopIsEntry(entry: Vertex, index: Index, post: seq<Vertex>) {
    && entry in index && index[entry] == |post| - 1
    && forall v {:trigger index[v]} :: v in index ==> index[v] < |post| && post[index[v]] == v
  }

  // One finger walks up past everything below the other; an unhandled finger cannot move.
  method Raise(finger: Vertex, other: Vertex, ghost entry: Vertex, index: Index, doms: Parents,
    ghost post: seq<Vertex>, ghost common: set<Vertex>) returns (r: Option<Vertex>)
    requires Climbs(entry, index, doms) && TopIsEntry(entry, index, post)
    requires finger in index && other in index
    requires finger in doms && other in doms ==> Meet(entry, index, doms, finger, other, common)
    ensures finger in doms ==> r.Some? && r.value in doms
    ensures finger !in doms ==> r == if index[finger] < index[other] then None else Some(finger)
    ensures r.Some? ==> r.value in index && index[r.value] >= index[other] && index[r.value] >= index[finger]
    ensures r.Some? && finger in doms && other in doms ==> Meet(entry, index, doms, r.value, other, common)
  {
    var f := finger;
    while index[f] < index[other]
      invariant f in index && index[f] >= index[finger]
      invariant if finger in doms then f in doms else f == finger
      invariant finger in doms && other in doms ==> Meet(entry, index, doms, f, other, common)
      decreases index[entry] - index[f]
    {
      if f !in doms {
        return None;
      }
      if other in doms {
        MeetStep(entry, index, doms, f, other, common);
      }
      f := doms[f];
    }
    r := Some(f);
  }

  /** Walks two fingers up until they meet; None is the failed lookup of an unhandled vertex. */
  method Intersect(finger1: Vertex, finger2: Vertex, ghost entry: Vertex, index: Index, doms: Parents,
    ghost post: seq<Vertex>, ghost common: set<Vertex>) returns (r: Option<Vertex>)
    requires Climbs(entry, index, doms) && TopIsEntry(entry, index, post)
    requires finger1 in doms
    requires finger2 in doms ==> Meet(entry, index, doms, finger1, finger2, common)
    ensures r.Some? <==> finger2 in doms
    ensures r.Some? ==> r.value in doms && Meet(entry, index, doms, r.value, r.value, common)
  {
    var f1, f2 := finger1, finger2;
    if f2 !in index {
      return None;
    }
    while index[f1] != index[f2]
      invariant f1 in doms && f2 in index
      invariant if finger2 in doms then f2 in doms && Meet(entry, index, doms, f1, f2, common) else f2 == finger2
      decreases index[entry] - index[f1] + index[entry] - index[f2]
    {
      var raised := Raise(f1, f2, entry, index, doms, post, common);
      f1 := raised.value;
      if f2 in doms {
        MeetSwap(entry, index, doms, f1, f2, common);
      }
      raised := Raise(f2, f1, entry, index, doms, post, common);
      if raised.None? {
        return None;
      }
      f2 := raised.value;
      if f2 in doms {
        MeetSwap(entry, index, doms, f2, f1, common);
      }
    }
    r := Some(f1);
  }

  ghost predicate InAll(entry: Vertex, index: Index, doms: Parents, preds: seq<Vertex>, n: nat, d: Vertex)
    requires Climbs(entry, index, doms) && n <= |preds|
  {
    forall j :: 0 <= j < n && preds[j] in doms ==> d in Chain(entry, index, doms, preds[j])
  }

  // The chain of v is what the chains of the seed and of the handled among the first n
  // predecessors have in common.
  ghost predicate CommonTo(entry: Vertex, index: Index, doms: Parents, seed: Vertex, preds: seq<Vertex>, n: nat,
      v: Vertex)
    requires Climbs(entry, index, doms) && seed in doms && v in doms && n <= |preds|
  {
    forall d {:trigger InAll(entry, index, doms, preds, n, d)} ::
      d in Chain(entry, index, doms, v) <==>
        d in Chain(entry, index, doms, seed) && InAll(entry, index, doms, preds, n, d)
  }

  lemma InAllNext(entry: Vertex, index: Index, doms: Parents, preds: seq<Vertex>, n: nat, d: Vertex)
    requires Climbs(entry, index, doms) && n < |preds|
    ensures InAll(entry, index, doms, preds, n + 1, d) <==>
      InAll(entry, index, doms, preds, n, d) && (preds[n] in doms ==> d in Chain(entry, index, doms, preds[n]))
  {
    if InAll(entry, index, doms, preds, n, d) && (preds[n] in doms ==> d in Chain(entry, index, doms, preds[n])) {
      forall j | 0 <= j < n + 1 && preds[j] in doms
        ensures d in Chain(entry, index, doms, preds[j])
      {
        assert j == n || j < n;
      }
    }
  }

  lemma CommonToNext(entry: Vertex, index: Index, doms: Parents, seed: Vertex, preds: seq<Vertex>, n: nat, v: Vertex,
      r: Vertex)
    requires Climbs(entry, index, doms) && seed in doms && v in doms && r in doms && n < |preds|
    requires CommonTo(entry, index, doms, seed, preds, n, v)
    requires if preds[n] in doms
             then Meet(entry, index, doms, r, r, Chain(entry, index, doms, preds[n]) * Chain(entry, index, doms, v))
             else r == v
    ensures CommonTo(entry, index, doms, seed, preds, n + 1, r)
  {
    forall d
      ensures d in Chain(entry, index, doms, r) <==>
        d in Chain(entry, index, doms, seed) && InAll(entry, index, doms, preds, n + 1, d)
    {
      InAllNext(entry, index, doms, preds, n, d);
      if preds[n] in doms {
        assert d in Chain(entry, index, doms, preds[n]) * Chain(entry, index, doms, v) <==>
          d in Chain(entry, index, doms, r);
      }
    }
  }

  // The first loop of the body: the seed of the intersection.
  method FindSeed(graph: GraphObject, preds: seq<Vertex>) returns (seed: Option<Vertex>, ghost at: nat)
    requires graph.Valid()
    ensures seed.Some? ==> SeedAt(graph.Model(), preds, at) && seed.value == preds[at]
    ensures seed.None? ==> forall j :: 0 <= j < |preds| ==> !MaySeed(graph.Model(), preds[j])
  {
    var k := 0;
    while k < |preds|
      invariant 0 <= k <= |preds| && forall j :: 0 <= j < k ==> !MaySeed(graph.Model(), preds[j])
    {
      var above := graph.PredsOf(preds[k]);
      AboveDecides(graph.Model(), preds[k]);
      if above != [] || preds[k] == graph.entry {
        return Some(preds[k]), k;
      }
      k := k + 1;
    }
    seed, at := None, 0;
  }

  lemma AboveDecides(g: Digraph, p: Vertex)
    ensures MaySeed(g, p) <==> Preds(g, p) != [] || p == g.entry
  {
    if Preds(g, p) != [] {
      assert Preds(g, p)[0] in Preds(g, p);
    }
  }

  // One round of the second loop of the body.
  method IntersectNext(preds: seq<Vertex>, k: nat, seed: Vertex, newIdom: Vertex, ghost entry: Vertex,
                       index: Index, doms: Parents, ghost post: seq<Vertex>) returns (r: Option<Vertex>)
    requires Climbs(entry, index, doms) && TopIsEntry(entry, index, post) && k < |preds|
    requires seed in doms ==> newIdom in doms && CommonTo(entry, index, doms, seed, preds, k, newIdom)
    requires seed !in doms ==> newIdom == seed
    ensures seed in doms ==> r.Some? && r.value in doms && CommonTo(entry, index, doms, seed, preds, k + 1, r.value)
    ensures seed !in doms ==> r == if preds[k] in doms then None else Some(seed)
  {
    var p := preds[k];
    if p != newIdom && p in doms {
      ghost var common := if newIdom in doms then Chain(entry, index, doms, p) * Chain(entry, index, doms, newIdom)
          else {};
      r := Intersect(p, newIdom, entry, index, doms, post, common);
    } else {
      r := Some(newIdom);
    }
    if seed in doms {
      CommonToNext(entry, index, doms, seed, preds, k, newIdom, r.value);
    }
  }

  // The second loop of the body; None when a lookup of an unhandled vertex fails.
  method IntersectPreds(preds: seq<Vertex>, seed: Vertex, ghost entry: Vertex, index: Index, doms: Parents,
      ghost post: seq<Vertex>, ghost handled: nat) returns (r: Option<Vertex>)
    requires Climbs(entry, index, doms) && TopIsEntry(entry, index, post)
    requires handled < |preds| && preds[handled] in doms
    ensures r.Some? <==> seed in doms
    ensures r.Some? ==> r.value in doms && CommonTo(entry, index, doms, seed, preds, |preds|, r.value)
  {
    var newIdom := seed;
    var k := 0;
    while k < |preds|
      invariant 0 <= k <= |preds|
      invariant seed in doms ==> newIdom in doms && CommonTo(entry, index, doms, seed, preds, k, newIdom)
      invariant seed !in doms ==> newIdom == seed && k <= handled
    {
      var next := IntersectNext(preds, k, seed, newIdom, entry, index, doms, post);
      if next.None? {
        return None;
      }
      assert k == handled ==> preds[k] in doms;
      newIdom := next.value;
      k := k + 1;
    }
    assert k == |preds|;
    r := Some(newIdom);
  }

  // The first k vertices after the entry, in reverse post-order, have been handled.
  ghost predicate PassUpTo(g: Digraph, post: seq<Vertex>, index: Index, doms: Parents, k: nat)
    requires Indexes(post, index) && k < |post|
  {
    && Climbs(g.entry, index, doms)
    && (forall v {:trigger v in doms} :: v in doms <==> v in index && index[v] >= |post| - 1 - k)
    && (forall b {:trigger IsMeet(g, index, doms, b)} :: b in doms && b != g.entry ==> IsMeet(g, index, doms, b))
  }

  ghost predicate Ready(g: Digraph, post: seq<Vertex>, index: Index) {
    && Indexes(post, index) && TopIsEntry(g.entry, index, post)
    && |post| > 0 && ParentsFollow(g, post, [])
  }

  // Every vertex but the entry has a predecessor listed after it, hence handled before it.
  lemma HandledPred(g: Digraph, post: seq<Vertex>, index: Index, i: nat) returns (u: Vertex, j: nat)
    requires Ready(g, post, index) && i < |post| - 1
    ensures u in index && index[u] > i && j < |Preds(g, post[i])| && Preds(g, post[i])[j] == u
  {
    assert index[post[i]] == i;
    assert HasParent(g, post, [], i);
    u :| HasEdge(g, u, post[i]) && u in post[i + 1..];
    var m :| i < m < |post| && post[m] == u;
    assert index[post[m]] == m;
    j :| 0 <= j < |Preds(g, post[i])| && Preds(g, post[i])[j] == u;
  }

  lemma SeedExists(g: Digraph, post: seq<Vertex>, index: Index, i: nat, b: Vertex, preds: seq<Vertex>)
    requires Ready(g, post, index) && i < |post| - 1 && b == post[i] && preds == Preds(g, b)
    ensures exists j :: 0 <= j < |preds| && MaySeed(g, preds[j])
  {
    hide Preds;
    var u, j := HandledPred(g, post, index, i);
    if u != g.entry {
      assert post[index[u]] == u && index[u] != |post| - 1;
      var v, k := HandledPred(g, post, index, index[u]);
      EdgeOfPred(g, u, v, k);
    }
    assert MaySeed(g, preds[j]);
  }

  lemma EdgeOfPred(g: Digraph, u: Vertex, v: Vertex, k: nat)
    requires k < |Preds(g, u)| && Preds(g, u)[k] == v
    ensures HasEdge(g, v, u)
  {
    assert v in Preds(g, u);
  }

  // doms' adds the vertex b, below everything in doms.
  ghost predicate Adds(entry: Vertex, index: Index, doms: Parents, doms': Parents, b: Vertex) {
    && Climbs(entry, index, doms) && Climbs(entry, index, doms')
    && b !in doms && b in doms' && doms'[b] in doms && doms' == doms[b := doms'[b]]
    && (forall x {:trigger x in doms} :: x in doms ==> index[x] > index[b])
  }

  lemma ChainsKept(entry: Vertex, index: Index, doms: Parents, doms': Parents, b: Vertex)
    requires Adds(entry, index, doms, doms', b)
    ensures forall p {:trigger Chain(entry, index, doms', p)} {:trigger Chain(entry, index, doms, p)} ::
      p in doms ==> Chain(entry, index, doms', p) == Chain(entry, index, doms, p)
  {
    hide Climbs;
    forall p | p in doms
      ensures Chain(entry, index, doms', p) == Chain(entry, index, doms, p)
    {
      ChainFrame(entry, index, doms, doms', p);
    }
  }

  lemma ParentKnown(entry: Vertex, index: Index, doms: Parents, x: Vertex)
    requires Climbs(entry, index, doms) && x in doms
    ensures x in index && doms[x] in doms && forall p :: p in doms ==> p in index
  {
  }

  lemma OldMeet(g: Digraph, index: Index, doms: Parents, doms': Parents, b: Vertex, x: Vertex)
    requires Adds(g.entry, index, doms, doms', b) && x in doms && IsMeet(g, index, doms, x)
    ensures IsMeet(g, index, doms', x)
  {
    hide Chain, Climbs, HasEdge;
    ParentKnown(g.entry, index, doms, x);
    ParentKnown(g.entry, index, doms', x);
    ChainsKept(g.entry, index, doms, doms', b);
    forall d
      ensures d in Chain(g.entry, index, doms', doms'[x]) <==> OnEarlierChains(g, index, doms', x, d)
    {
      assert OnEarlierChains(g, index, doms, x, d) <==> OnEarlierChains(g, index, doms', x, d);
    }
  }

  lemma NewMeet(g: Digraph, index: Index, doms: Parents, doms': Parents, b: Vertex, seed: Vertex)
    requires Adds(g.entry, index, doms, doms', b)
    requires seed in Preds(g, b) && seed in doms
    requires CommonTo(g.entry, index, doms, seed, Preds(g, b), |Preds(g, b)|, doms'[b])
    ensures IsMeet(g, index, doms', b)
  {
    hide Chain, Climbs, HasEdge, Preds;
    forall d
      ensures d in Chain(g.entry, index, doms', doms'[b]) <==> OnEarlierChains(g, index, doms', b, d)
    {
      ChainFrame(g.entry, index, doms, doms', doms'[b]);
      NewMeetAt(g, index, doms, doms', b, seed, d);
      assert InAll(g.entry, index, doms, Preds(g, b), |Preds(g, b)|, d)
        || !InAll(g.entry, index, doms, Preds(g, b), |Preds(g, b)|, d);
    }
  }

  lemma NewMeetAt(g: Digraph, index: Index, doms: Parents, doms': Parents, b: Vertex, seed: Vertex, d: Vertex)
    requires Adds(g.entry, index, doms, doms', b)
    requires seed in Preds(g, b) && seed in doms
    ensures OnEarlierChains(g, index, doms', b, d) <==>
      d in Chain(g.entry, index, doms, seed) && InAll(g.entry, index, doms, Preds(g, b), |Preds(g, b)|, d)
  {
    var preds := Preds(g, b);
    ChainsKept(g.entry, index, doms, doms', b);
    if OnEarlierChains(g, index, doms', b, d) {
      forall j | 0 <= j < |preds| && preds[j] in doms
        ensures d in Chain(g.entry, index, doms, preds[j])
      {
        assert HasEdge(g, preds[j], b);
      }
      assert HasEdge(g, seed, b);
    }
    if InAll(g.entry, index, doms, preds, |preds|, d) {
      forall p | HasEdge(g, p, b) && p in doms' && index[p] > index[b]
        ensures d in Chain(g.entry, index, doms', p)
      {
        assert p in preds;
      }
    }
  }

  lemma NextHandled(entry: Vertex, post: seq<Vertex>, index: Index, doms: Parents, k: nat, v: Vertex)
    requires TopIsEntry(entry, index, post) && k < |post| - 1
    requires index.Keys >= {post[|post| - 2 - k]} && index[post[|post| - 2 - k]] == |post| - 2 - k
    requires forall x {:trigger x in doms} :: x in doms <==> x in index && index[x] >= |post| - 1 - k
    ensures forall x {:trigger x in doms[post[|post| - 2 - k] := v]} ::
      x in doms[post[|post| - 2 - k] := v] <==> x in index && index[x] >= |post| - 1 - (k + 1)
  {
    forall x
      ensures x in doms[post[|post| - 2 - k] := v] <==> x in index && index[x] >= |post| - 1 - (k + 1)
    {
      if x in index && index[x] == |post| - 2 - k {
        assert post[index[x]] == x;
      }
    }
  }

  // Recording the parent found for the next vertex extends the pass by one.
  lemma ClimbsNext(entry: Vertex, index: Index, doms: Parents, b: Vertex, v: Vertex)
    requires Climbs(entry, index, doms) && v in doms && b in index && b !in doms && index[b] < index[v]
    ensures Climbs(entry, index, doms[b := v])
  {
    var doms' := doms[b := v];
    assert index[v] <= index[entry];
    forall x {:trigger doms'[x]} | x in doms' && x != entry
      ensures x in index && doms'[x] in index && index[x] < index[doms'[x]]
    {
      if x != b {
        assert doms'[x] == doms[x];
      }
    }
  }

  lemma AddsNext(g: Digraph, post: seq<Vertex>, index: Index, doms: Parents, k: nat, v: Vertex)
    requires Indexes(post, index) && TopIsEntry(g.entry, index, post) && k < |post| - 1
    requires PassUpTo(g, post, index, doms, k) && v in doms
    ensures var b := post[|post| - 2 - k]; Adds(g.entry, index, doms, doms[b := v], b) && b != g.entry
  {
    hide IsMeet, Climbs;
    var b := post[|post| - 2 - k];
    assert index[b] == |post| - 2 - k;
    assert index[v] >= |post| - 1 - k;
    ClimbsNext(g.entry, index, doms, b, v);
  }

  lemma MeetsKept(g: Digraph, index: Index, doms: Parents, doms': Parents, b: Vertex)
    requires Adds(g.entry, index, doms, doms', b) && IsMeet(g, index, doms', b)
    requires forall x {:trigger IsMeet(g, index, doms, x)} :: x in doms && x != g.entry ==> IsMeet(g, index, doms, x)
    ensures forall x {:trigger IsMeet(g, index, doms', x)} :: x in doms' && x != g.entry ==> IsMeet(g, index, doms', x)
  {
    hide Chain, IsMeet, Climbs;
    forall x {:trigger IsMeet(g, index, doms', x)} | x in doms' && x != g.entry
      ensures IsMeet(g, index, doms', x)
    {
      if x != b {
        OldMeet(g, index, doms, doms', b, x);
      }
    }
  }

  lemma PassStep(g: Digraph, post: seq<Vertex>, index: Index, doms: Parents, k: nat, b: Vertex, preds: seq<Vertex>,
      seed: Vertex, v: Vertex)
    requires Ready(g, post, index) && k < |post| - 1 && PassUpTo(g, post, index, doms, k)
    requires b == post[|post| - 2 - k] && preds == Preds(g, b) && seed in preds && seed in doms && v in doms
    requires CommonTo(g.entry, index, doms, seed, preds, |preds|, v)
    ensures PassUpTo(g, post, index, doms[b := v], k + 1)
  {
    hide Chain, IsMeet, OnEarlierChains, CommonTo, Preds, HasEdge, ParentsFollow, Climbs;
    var doms' := doms[b := v];
    AddsNext(g, post, index, doms, k, v);
    NewMeet(g, index, doms, doms', b, seed);
    MeetsKept(g, index, doms, doms', b);
    assert index[b] == |post| - 2 - k;
    NextHandled(g.entry, post, index, doms, k, v);
  }

  method BuildIndex(order: seq<Vertex>) returns (index: Index)
    requires NoDup(order)
    ensures Indexes(order, index)
  {
    index := map[];
    var k := 0;
    while k < |order|
      invariant 0 <= k <= |order|
      invariant forall v :: v in index <==> v in order[..k]
      invariant forall i :: 0 <= i < k ==> index[order[i]] == i
      invariant |index| == k
    {
      assert order[k] !in index.Keys;
      index := index[order[k] := |index|];
      k := k + 1;
    }
  }

  method NewIdomFrom(index: Index, doms: Parents, b: Vertex, preds: seq<Vertex>, seed: Vertex, ghost post: seq<Vertex>,
      ghost k: nat, ghost g: Digraph)
    returns (r: Option<Vertex>)
    requires Ready(g, post, index) && k < |post| - 1 && b == post[|post| - 2 - k] && PassUpTo(g, post, index, doms, k)
    requires preds == Preds(g, b) && seed in preds
    ensures r.Some? <==> seed in index && index[seed] > index[b]
    ensures r.Some? ==> PassUpTo(g, post, index, doms[b := r.value], k + 1)
  {
    assert index[b] == |post| - 2 - k;
    ghost var u, handled := HandledPred(g, post, index, |post| - 2 - k);
    assert u in doms;
    r := IntersectPreds(preds, seed, g.entry, index, doms, post, handled);
    if r.Some? {
      PassStep(g, post, index, doms, k, b, preds, seed, r.value);
    }
  }

  // The body of the pass for the next vertex b of the order.
  method NewIdom(graph: GraphObject, index: Index, doms: Parents, b: Vertex, ghost post: seq<Vertex>, ghost k: nat,
      ghost g: Digraph)
    returns (r: Option<Vertex>)
    requires graph.Valid() && graph.Model() == g && Ready(g, post, index)
    requires k < |post| - 1 && b == post[|post| - 2 - k] && PassUpTo(g, post, index, doms, k)
    ensures r.Some? <==> SeedPrecedes(g, index, b)
    ensures r.Some? ==> PassUpTo(g, post, index, doms[b := r.value], k + 1)
  {
    var preds := graph.PredsOf(b);
    var seed;
    ghost var at;
    seed, at := FindSeed(graph, preds);
    SeedExists(g, post, index, |post| - 2 - k, b, preds);
    assert index[b] == |post| - 2 - k;
    OneSeed(g, index, b, at);
    r := NewIdomFrom(index, doms, b, preds, seed.value, post, k, g);
  }

  // The pass over the order; None when the lookup of an unhandled vertex fails.
  method Pass(graph: GraphObject, index: Index, ghost post: seq<Vertex>, order: seq<Vertex>, ghost g: Digraph)
    returns (doms: Option<Parents>, changed: bool)
    requires graph.Valid() && graph.Model() == g && Ready(g, post, index) && post[|post| - 1] == g.entry
    requires |order| == |post| - 1 && forall k :: 0 <= k < |order| ==> order[k] == post[|post| - 2 - k]
    ensures doms.Some? ==> PassUpTo(g, post, index, doms.value, |post| - 1) && !changed
    ensures doms.Some? <==> forall b :: b in index && b != g.entry ==> SeedPrecedes(g, index, b)
  {
    var parents: Parents := map[graph.entry := graph.entry];
    changed := false;
    StartPass(g, post, index, parents);
    var k := 0;
    while k < |order|
      invariant 0 <= k <= |order| && !changed
      invariant PassUpTo(g, post, index, parents, k)
      invariant forall b {:trigger SeedPrecedes(g, index, b)} :: b in parents && b != g.entry ==>
          SeedPrecedes(g, index, b)
    {
      var b := order[k];
      assert index[b] == |post| - 2 - k;
      var newIdom := NewIdom(graph, index, parents, b, post, k, g);
      if newIdom.None? {
        return None, changed;
      }
      // The lookup doms[b] of a vertex not yet handled yields null.
      changed := Lookup(parents, b) == newIdom;
      parents := parents[b := newIdom.value];
      k := k + 1;
    }
    doms := Some(parents);
  }

  lemma StartPass(g: Digraph, post: seq<Vertex>, index: Index, doms: Parents)
    requires Ready(g, post, index) && post[|post| - 1] == g.entry && doms == map[g.entry := g.entry]
    ensures PassUpTo(g, post, index, doms, 0)
  {
    forall v
      ensures v in doms <==> v in index && index[v] >= |post| - 1
    {
      if v in index && index[v] >= |post| - 1 {
        assert post[index[v]] == v;
      }
    }
  }

  lemma PassComplete(g: Digraph, post: seq<Vertex>, index: Index, doms: Parents)
    requires Ready(g, post, index) && (forall v :: v in post <==> Reachable(g, v))
    requires PassUpTo(g, post, index, doms, |post| - 1)
    ensures IsPass(g, index, doms)
  {
  }

  lemma PredsAfterConnect(g: Digraph, u: Vertex, v: Vertex, x: Vertex)
    ensures Preds(g.(edges := g.edges + [Edge(u, v)]), x) == Preds(g, x) + (if x == v then [u] else [])
  {
    assert (g.edges + [Edge(u, v)])[..|g.edges + [Edge(u, v)]| - 1] == g.edges;
  }

  // The edges of all vertices not in todo are in the tree.
  ghost predicate TreeSoFar(tree: Digraph, entry: Vertex, doms: Parents, todo: set<Vertex>) {
    && tree.entry == entry
    && forall v {:trigger Preds(tree, v)} ::
      Preds(tree, v) == (if v in doms && v !in todo && v != entry then [doms[v]] else [])
  }

  lemma TreeGrows(tree: Digraph, entry: Vertex, doms: Parents, todo: set<Vertex>, v: Vertex)
    requires TreeSoFar(tree, entry, doms, todo) && v in todo && v in doms
    ensures v == entry ==> TreeSoFar(tree, entry, doms, todo - {v})
    ensures v != entry ==> TreeSoFar(tree.(edges := tree.edges + [Edge(doms[v], v)]), entry, doms, todo - {v})
  {
    if v != entry {
      var tree' := tree.(edges := tree.edges + [Edge(doms[v], v)]);
      forall x
        ensures Preds(tree', x) == (if x in doms && x !in todo - {v} && x != entry then [doms[x]] else [])
      {
        PredsAfterConnect(tree, doms[v], v, x);
      }
    }
  }

  method BuildTree(entry: Vertex, doms: Parents) returns (tree: GraphObject)
    requires entry in doms && doms[entry] == entry && forall v :: v in doms && v != entry ==> doms[v] != v
    ensures fresh(tree) && tree.Valid() && IsTreeOf(tree.Model(), entry, doms)
  {
    tree := new GraphObject();
    tree.SetEntry(entry);
    var todo := doms.Keys;
    while todo != {}
      invariant tree.Valid() && fresh(tree) && todo <= doms.Keys && TreeSoFar(tree.Model(), entry, doms, todo)
      decreases todo
    {
      var v :| v in todo;
      TreeGrows(tree.Model(), entry, doms, todo, v);
      if v != doms[v] {
        tree.Connect(doms[v], v);
      }
      todo := todo - {v};
    }
  }

  lemma ReadyToPass(g: Digraph, pre: seq<Vertex>, post: seq<Vertex>, index: Index)
    requires IsSearchOf(g, pre, post) && Indexes(post, index)
    ensures Ready(g, post, index)
  {
    forall v | v in index
      ensures index[v] < |post| && post[index[v]] == v
    {
      var i :| 0 <= i < |post| && post[i] == v;
    }
    assert index[post[|post| - 1]] == |post| - 1;
  }

  // What a run leaves behind for its specification: the search, the indices and the parents.
  datatype Trace = Trace(pre: seq<Vertex>, post: seq<Vertex>, index: Index, doms: Parents)

  /** The whole computation: a null tree stands for the exception thrown by a failed lookup. */
  method Run(graph: GraphObject) returns (tree: GraphObject?, ghost t: Trace)
    requires graph.Valid()
    ensures IsSearchOf(graph.Model(), t.pre, t.post) && Indexes(t.post, t.index)
    ensures tree != null <==>
      forall b :: b in t.index && b != graph.Model().entry ==> SeedPrecedes(graph.Model(), t.index, b)
    ensures tree != null ==> fresh(tree) && tree.Valid() && IsPass(graph.Model(), t.index, t.doms)
    ensures tree != null ==> IsTreeOf(tree.Model(), graph.Model().entry, t.doms)
  {
    hide SearchOrders, EdgesDescend, ParentsFollow, InStep;
    ghost var g := graph.Model();
    var search := new Search();
    search.Run(graph, g);
    var post := search.postOrder;
    var index := BuildIndex(post);
    t := Trace(search.preOrder, post, index, map[]);
    ReadyToPass(g, t.pre, t.post, index);
    var order := seq(|post| - 1, i requires 0 <= i < |post| - 1 => post[|post| - 2 - i]);
    var parents: Option<Parents> := None;
    var changed := true;
    while changed
      invariant changed || (parents.Some? && PassUpTo(g, post, index, parents.value, |post| - 1))
      invariant changed || forall b :: b in index && b != g.entry ==> SeedPrecedes(g, index, b)
      decreases changed
    {
      parents, changed := Pass(graph, index, post, order, g);
      if parents.None? {
        return null, t;
      }
    }
    PassComplete(g, post, index, parents.value);
    t := t.(doms := parents.value);
    tree := BuildTree(graph.entry, parents.value);
  }
}

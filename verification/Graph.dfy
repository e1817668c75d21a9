/** Directed graphs with an entry vertex, and the mutable graph object that records them. */
module Graph {
  type Vertex = nat

  datatype Edge = Edge(src: Vertex, dst: Vertex)

  // The value of a graph: its entry and its edges in the order they were connected.
  datatype Digraph = Digraph(entry: Vertex, edges: seq<Edge>)

  ghost predicate NoDup(s: seq<Vertex>) {
    forall i, j :: 0 <= i < j < |s| ==> s[i] != s[j]
  }

  ghost predicate HasEdge(g: Digraph, u: Vertex, v: Vertex) {
    Edge(u, v) in g.edges
  }

  function Sources(edges: seq<Edge>, v: Vertex): (r: seq<Vertex>)
    ensures forall u :: u in r <==> Edge(u, v) in edges
  {
    if edges == [] then []
    else
      var rest := Sources(edges[..|edges| - 1], v);
      var last := edges[|edges| - 1];
      assert edges == edges[..|edges| - 1] + [last];
      if last.dst == v then rest + [last.src] else rest
  }

  function Targets(edges: seq<Edge>, u: Vertex): (r: seq<Vertex>)
    ensures forall v :: v in r <==> Edge(u, v) in edges
  {
    if edges == [] then []
    else
      var rest := Targets(edges[..|edges| - 1], u);
      var last := edges[|edges| - 1];
      assert edges == edges[..|edges| - 1] + [last];
      if last.src == u then rest + [last.dst] else rest
  }

  function Preds(g: Digraph, v: Vertex): (r: seq<Vertex>)
    ensures forall u :: u in r <==> HasEdge(g, u, v)
  {
    Sources(g.edges, v)
  }

  function Succs(g: Digraph, u: Vertex): (r: seq<Vertex>)
    ensures forall v :: v in r <==> HasEdge(g, u, v)
  {
    Targets(g.edges, u)
  }

  // A walk follows edges; a path is a walk from the entry.
  ghost predicate IsWalk(g: Digraph, p: seq<Vertex>) {
    |p| > 0 && forall i :: 0 <= i < |p| - 1 ==> HasEdge(g, p[i], p[i + 1])
  }

  ghost predicate IsPath(g: Digraph, p: seq<Vertex>, v: Vertex) {
    IsWalk(g, p) && p[0] == g.entry && p[|p| - 1] == v
  }

  ghost predicate Reachable(g: Digraph, v: Vertex) {
    exists p :: IsPath(g, p, v)
  }

  lemma ReachableStep(g: Digraph, u: Vertex, v: Vertex)
    requires Reachable(g, u) && HasEdge(g, u, v)
    ensures Reachable(g, v)
  {
    var p :| IsPath(g, p, u);
    assert IsPath(g, p + [v], v);
  }

  lemma EntryReachable(g: Digraph)
    ensures Reachable(g, g.entry)
  {
    assert IsPath(g, [g.entry], g.entry);
  }

  lemma PathPrefix(g: Digraph, p: seq<Vertex>, v: Vertex, i: nat)
    requires IsPath(g, p, v) && i < |p|
    ensures IsPath(g, p[..i + 1], p[i]) && Reachable(g, p[i])
  {
    assert IsPath(g, p[..i + 1], p[i]);
  }

  lemma JoinWalk(g: Digraph, p: seq<Vertex>, v: Vertex, w: seq<Vertex>)
    requires IsPath(g, p, v) && IsWalk(g, w) && w[0] == v
    ensures IsPath(g, p + w[1..], w[|w| - 1])
  {
    var q := p + w[1..];
    forall i | 0 <= i < |q| - 1
      ensures HasEdge(g, q[i], q[i + 1])
    {
      if i < |p| - 1 {
        assert q[i] == p[i] && q[i + 1] == p[i + 1];
      } else {
        assert q[i] == w[i - |p| + 1] && q[i + 1] == w[i - |p| + 2];
      }
    }
  }

  function Listed(m: map<Vertex, seq<Vertex>>, v: Vertex): seq<Vertex> {
    if v in m then m[v] else []
  }

  // The edge vectors of every vertex are those of the list of edges.
  ghost predicate InStep(edges: seq<Edge>, preds: map<Vertex, seq<Vertex>>, succs: map<Vertex, seq<Vertex>>) {
    && (forall v :: Listed(preds, v) == Sources(edges, v))
    && (forall u :: Listed(succs, u) == Targets(edges, u))
  }

  lemma OneMoreEdge(edges: seq<Edge>, e: Edge, v: Vertex)
    ensures Sources(edges + [e], v) == if v == e.dst then Sources(edges, v) + [e.src] else Sources(edges, v)
    ensures Targets(edges + [e], v) == if v == e.src then Targets(edges, v) + [e.dst] else Targets(edges, v)
  {
    var more := edges + [e];
    assert more[..|more| - 1] == edges;
  }

  lemma OneMoreListed(m: map<Vertex, seq<Vertex>>, u: Vertex, x: Vertex, v: Vertex)
    ensures Listed(m[u := Listed(m, u) + [x]], v) == if v == u then Listed(m, v) + [x] else Listed(m, v)
  {
  }

  lemma StaysInStep(edges: seq<Edge>, preds: map<Vertex, seq<Vertex>>, succs: map<Vertex, seq<Vertex>>, e: Edge)
    requires InStep(edges, preds, succs)
    ensures InStep(edges + [e], preds[e.dst := Listed(preds, e.dst) + [e.src]],
                   succs[e.src := Listed(succs, e.src) + [e.dst]])
  {
    hide Sources, Targets, Listed;
    forall v
      ensures Listed(preds[e.dst := Listed(preds, e.dst) + [e.src]], v) == Sources(edges + [e], v)
      ensures Listed(succs[e.src := Listed(succs, e.src) + [e.dst]], v) == Targets(edges + [e], v)
    {
      OneMoreEdge(edges, e, v);
      OneMoreListed(preds, e.dst, e.src, v);
      OneMoreListed(succs, e.src, e.dst, v);
    }
  }

  /** The graph object: edge vectors per vertex, kept in step with the list of all edges. */
  class GraphObject {
    var edges: seq<Edge>
    var predMap: map<Vertex, seq<Vertex>>
    var succMap: map<Vertex, seq<Vertex>>
    var entry: Vertex

    ghost predicate Valid()
      reads this
    {
      InStep(edges, predMap, succMap)
    }

    ghost function Model(): Digraph
      reads this
    {
      Digraph(entry, edges)
    }

    constructor ()
      ensures Valid() && Model() == Digraph(0, [])
    {
      edges, predMap, succMap, entry := [], map[], map[], 0;
    }

    method SetEntry(v: Vertex)
      requires Valid()
      modifies this
      ensures Valid() && Model() == old(Model()).(entry := v)
    {
      entry := v;
    }

    method Connect(src: Vertex, dst: Vertex)
      requires Valid()
      modifies this
      ensures Valid() && Model() == old(Model()).(edges := old(edges) + [Edge(src, dst)])
    {
      hide InStep;
      StaysInStep(edges, predMap, succMap, Edge(src, dst));
      edges := edges + [Edge(src, dst)];
      predMap := predMap[dst := Listed(predMap, dst) + [src]];
      succMap := succMap[src := Listed(succMap, src) + [dst]];
    }

    method PredsOf(v: Vertex) returns (r: seq<Vertex>)
      requires Valid()
      ensures r == Preds(Model(), v)
    {
      r := Listed(predMap, v);
    }

    method SuccsOf(v: Vertex) returns (r: seq<Vertex>)
      requires Valid()
      ensures r == Succs(Model(), v)
    {
      r := Listed(succMap, v);
    }
  }
}

/** The control flow analysis of a function, and the check that definitions dominate their uses. */
module ControlFlow {
  import opened Words
  import opened Graph
  import DepthFirstSearch
  import opened Dominance
  import opened DominanceComputer
  import opened DominatorTree
  import opened Frontiers
  import opened PassExactness
  import opened Ir
  import opened Ssa
  import opened FunctionObject

  // ---- The control flow graph

  method ConnectTargets(cfg: GraphObject, b: BlockId, i: Inst)
    requires cfg.Valid()
    modifies cfg
    ensures cfg.Valid() && cfg.Model() == old(cfg.Model()).(edges := old(cfg.edges) + BlockEdges(b, InstTargets(i)))
  {
    if i.BranchInst? {
      cfg.Connect(b, i.dst);
      assert BlockEdges(b, InstTargets(i)) == [Edge(b, i.dst)];
    } else if i.CondBranchInst? {
      cfg.Connect(b, i.falseDst);
      cfg.Connect(b, i.trueDst);
      assert BlockEdges(b, InstTargets(i)) == [Edge(b, i.falseDst)] + [Edge(b, i.trueDst)];
    } else {
      assert BlockEdges(b, InstTargets(i)) == [];
    }
  }

  lemma {:induction false} TargetsAppend(a: Block, b: Block)
    ensures BlockTargets(a + b) == BlockTargets(a) + BlockTargets(b)
  {
    if a == [] {
      assert a + b == b;
    } else {
      assert (a + b)[1..] == a[1..] + b;
      TargetsAppend(a[1..], b);
    }
  }

  lemma BlockEdgesStep(b: BlockId, block: Block, k: nat)
    requires k < |block|
    ensures BlockEdges(b, BlockTargets(block[..k + 1]))
        == BlockEdges(b, BlockTargets(block[..k])) + BlockEdges(b, InstTargets(block[k]))
  {
    assert block[..k + 1] == block[..k] + [block[k]];
    TargetsAppend(block[..k], [block[k]]);
    assert BlockTargets([block[k]]) == InstTargets(block[k]);
  }

  method ConnectBlock(cfg: GraphObject, b: BlockId, block: Block)
    requires cfg.Valid()
    modifies cfg
    ensures cfg.Valid()
    ensures cfg.Model() == old(cfg.Model()).(edges := old(cfg.edges) + BlockEdges(b, BlockTargets(block)))
  {
    var k := 0;
    assert BlockEdges(b, BlockTargets(block[..0])) == [];
    while k < |block|
      invariant 0 <= k <= |block| && cfg.Valid()
      invariant cfg.Model() == old(cfg.Model()).(edges := old(cfg.edges) + BlockEdges(b, BlockTargets(block[..k])))
    {
      BlockEdgesStep(b, block, k);
      ConnectTargets(cfg, b, block[k]);
      k := k + 1;
    }
    assert block[..k] == block;
  }

  lemma {:induction false} EdgesOfAppend(f: Function, order: seq<BlockId>, o: nat)
    requires o < |order| && forall b :: b in order ==> b in f.blocks
    ensures EdgesOf(f, order[..o + 1])
        == EdgesOf(f, order[..o]) + BlockEdges(order[o], BlockTargets(f.blocks[order[o]]))
    decreases o
  {
    var b := order[0];
    if o == 0 {
      assert order[..1] == [b] && order[..0] == [];
      assert EdgesOf(f, [b]) == BlockEdges(b, BlockTargets(f.blocks[b])) + EdgesOf(f, []);
    } else {
      EdgesOfAppend(f, order[1..], o - 1);
      assert order[..o + 1][1..] == order[1..][..o] && order[..o][1..] == order[1..][..o - 1];
    }
  }

  // An instruction of the block sends control to d.
  ghost predicate SendsTo(block: Block, d: BlockId) {
    exists k :: 0 <= k < |block| &&
      ((block[k].BranchInst? && block[k].dst == d)
        || (block[k].CondBranchInst? && (block[k].falseDst == d || block[k].trueDst == d)))
  }

  lemma TargetsAreSent(block: Block, d: BlockId)
    ensures d in BlockTargets(block) <==> SendsTo(block, d)
  {
    if SendsTo(block, d) {
      var k :| 0 <= k < |block| && d in InstTargets(block[k]);
    }
  }

  /** Builds the control flow graph: its edges are those on which a block sends control to another. */
  method BuildCfg(f: Function) returns (cfg: GraphObject)
    requires ValidFunction(f)
    ensures fresh(cfg) && cfg.Valid() && cfg.Model() == CfgOf(f) && cfg.entry == f.order[0]
    ensures forall b: BlockId, d: BlockId {:trigger Edge(b, d) in cfg.edges} ::
      Edge(b, d) in cfg.edges <==> b in f.blocks && SendsTo(f.blocks[b], d)
  {
    cfg := new GraphObject();
    cfg.SetEntry(Entry(f));
    var o := 0;
    while o < |f.order|
      invariant 0 <= o <= |f.order| && cfg.Valid() && fresh(cfg)
      invariant cfg.Model() == Digraph(Entry(f), EdgesOf(f, f.order[..o]))
    {
      EdgesOfAppend(f, f.order, o);
      ConnectBlock(cfg, f.order[o], f.blocks[f.order[o]]);
      o := o + 1;
    }
    assert f.order[..o] == f.order;
    forall b: BlockId, d: BlockId
      ensures Edge(b, d) in cfg.edges <==> b in f.blocks && SendsTo(f.blocks[b], d)
    {
      CfgEdges(f, b, d);
      if b in f.blocks {
        TargetsAreSent(f.blocks[b], d);
      }
    }
  }

  // ---- The analysis

  // What the analysis of a function found: its graph, its dominator tree and the frontiers.
  class ControlFlowAnalysis {
    const cfg: GraphObject
    const tree: GraphObject
    const frontiers: FrontierMap

    constructor (cfg: GraphObject, tree: GraphObject, frontiers: FrontierMap)
      ensures this.cfg == cfg && this.tree == tree && this.frontiers == frontiers
    {
      this.cfg, this.tree, this.frontiers := cfg, tree, frontiers;
    }

    // The analysis belongs to f: its graph, a tree over the blocks that can be reached, and the frontiers that
    // the rules give over that tree.
    ghost predicate Computed(f: Function, index: Index, doms: Parents)
      requires ValidFunction(f)
      reads cfg, tree
    {
      && cfg.Valid() && tree.Valid() && cfg.Model() == CfgOf(f) && tree.entry == cfg.entry
      && TreeFor(CfgOf(f), tree.Model(), index, doms) && ByRules(CfgOf(f), doms, frontiers)
    }

    // Besides, its tree is the true dominator tree.
    ghost predicate Exact(f: Function, index: Index, doms: Parents)
      requires ValidFunction(f)
      reads cfg, tree
    {
      && cfg.Valid() && tree.Valid() && cfg.Model() == CfgOf(f) && tree.entry == cfg.entry
      && ExactTree(CfgOf(f), tree.Model(), index, doms)
      && (forall x {:trigger FrontierOf(frontiers, x)} :: x in doms ==>
           IsFrontier(CfgOf(f), x, FrontierOf(frontiers, x)))
      && frontiers.Keys <= doms.Keys
    }

    /** Position order in the same block, the dominator tree otherwise. */
    method Dominates(f: Function, d: Pos, u: Pos, ghost index: Index, ghost doms: Parents) returns (r: bool)
      requires ValidFunction(f) && Exact(f, index, doms) && (d.block != u.block ==> u.block in doms)
      ensures r <==> if d.block == u.block then d.index < u.index else Dom(CfgOf(f), d.block, u.block)
    {
      if d.block == u.block {
        return u.index - d.index > 0;
      }
      r := DominatorTree.Dominates(tree, d.block, u.block, doms, index);
      ExactChain(CfgOf(f), index, doms, u.block, d.block);
    }
  }

  // With exact parents the chain of a vertex is its dominators.
  lemma {:induction false} ExactChain(g: Digraph, index: Index, doms: Parents, v: Vertex, d: Vertex)
    requires Climbs(g.entry, index, doms) && ExactParents(g, doms) && v in doms
    ensures d in Chain(g.entry, index, doms, v) <==> Dom(g, d, v)
    decreases index[g.entry] - index[v]
  {
    if v == g.entry {
      if Dom(g, d, v) {
        OnlyEntryDominatesEntry(g, d);
      }
    } else {
      ExactChain(g, index, doms, doms[v], d);
      assert IsIdom(g, doms[v], v);
      if Dom(g, d, doms[v]) {
        DomTrans(g, d, doms[v], v);
      }
      if Dom(g, d, v) && d != v {
        StrictDomReachesParent(g, doms, d, v);
      }
    }
  }

  // Frontiers over the tree, and what they make of it.
  method Complete(f: Function, cfg: GraphObject, tree: GraphObject, ghost index: Index, ghost doms: Parents)
      returns (cfa: ControlFlowAnalysis)
    requires ValidFunction(f) && cfg.Valid() && tree.Valid() && cfg.Model() == CfgOf(f) && tree.entry == cfg.entry
    requires TreeFor(CfgOf(f), tree.Model(), index, doms)
    ensures fresh(cfa) && cfa.cfg == cfg && cfa.tree == tree && cfa.Computed(f, index, doms)
    ensures cfa.Exact(f, index, doms) <==> ExactParents(CfgOf(f), doms)
  {
    hide ExactParents, ByRules, IsFrontier, TreeFor, InStep, CfgOf, ValidFunction;
    EntryOfCfg(f);
    var frontiers := Frontiers.Run(cfg, tree, index, doms);
    FrontiersKeys(CfgOf(f), doms, frontiers);
    cfa := new ControlFlowAnalysis(cfg, tree, frontiers);
  }

  /** Analyses a function; null stands for the exception of a failed lookup, which is thrown exactly when the first
      seed of a block is not handled before the block. The analysis is exact exactly when the retreating edges stay
      inside, and always on a reducible graph. */
  method Analyse(f: Function) returns (cfa: ControlFlowAnalysis?, ghost t: Trace)
    requires ValidFunction(f)
    ensures DepthFirstSearch.IsSearchOf(CfgOf(f), t.pre, t.post) && Indexes(t.post, t.index)
    ensures cfa != null <==> forall b :: b in t.index && b != Entry(f) ==> SeedPrecedes(CfgOf(f), t.index, b)
    ensures cfa != null ==> fresh(cfa) && cfa.Computed(f, t.index, t.doms) && IsPass(CfgOf(f), t.index, t.doms)
    ensures cfa != null ==> (cfa.Exact(f, t.index, t.doms) <==> RetreatsInside(CfgOf(f), t.index))
    ensures cfa != null && Reducible(CfgOf(f)) ==> cfa.Exact(f, t.index, t.doms)
  {
    hide IsPass, ExactParents, RetreatsInside, Reducible, DepthFirstSearch.IsSearchOf, ByRules, Climbs, SeedPrecedes,
      IsFrontier, TreeFor, IsTreeOf, InStep, CfgOf, ValidFunction, Indexes;
    EntryOfCfg(f);
    var cfg := BuildCfg(f);
    var tree;
    tree, t := DominanceComputer.Run(cfg);
    if tree == null {
      return null, t;
    }
    ghost var g := CfgOf(f);
    PassGivesTree(g, tree.Model(), t);
    ExactExactly(g, t.index, t.doms);
    if Reducible(g) {
      PassIsExact(g, t);
    }
    cfa := Complete(f, cfg, tree, t.index, t.doms);
  }

  lemma EntryOfCfg(f: Function)
    requires ValidFunction(f)
    ensures |f.order| > 0 && (forall b :: b in f.order ==> b in f.blocks) && CfgOf(f).entry == Entry(f)
  {
  }

  lemma FrontiersKeys(g: Digraph, doms: Parents, frontiers: FrontierMap)
    requires ByRules(g, doms, frontiers)
    ensures frontiers.Keys <= doms.Keys
  {
  }

  lemma PassGivesTree(g: Digraph, tree: Digraph, t: Trace)
    requires IsPass(g, t.index, t.doms) && IsTreeOf(tree, g.entry, t.doms)
    ensures TreeFor(g, tree, t.index, t.doms) && Climbs(g.entry, t.index, t.doms) && tree.entry == g.entry
  {
  }
}

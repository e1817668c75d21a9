/** Where values are available, and when replacing uses of a value by another keeps every run. */
module Ssa {
  import opened Words
  import opened Graph
  import opened Dominance
  import opened Ir

  function CfgOf(f: Function): Digraph
    requires |f.order| > 0 && forall b :: b in f.order ==> b in f.blocks
  {
    Digraph(Entry(f), EdgesOf(f, f.order))
  }

  lemma {:induction false} EdgesOfFunction(f: Function, order: seq<BlockId>, b: BlockId, d: BlockId)
    requires forall c :: c in order ==> c in f.blocks
    ensures Edge(b, d) in EdgesOf(f, order) <==> b in order && d in BlockTargets(f.blocks[b])
  {
    if order != [] {
      EdgesOfFunction(f, order[1..], b, d);
      var first := BlockEdges(order[0], BlockTargets(f.blocks[order[0]]));
      if Edge(b, d) in first {
        var k :| 0 <= k < |first| && first[k] == Edge(b, d);
      }
      if b == order[0] && d in BlockTargets(f.blocks[b]) {
        var k :| 0 <= k < |BlockTargets(f.blocks[b])| && BlockTargets(f.blocks[b])[k] == d;
        assert first[k] == Edge(b, d);
      }
    }
  }

  lemma CfgEdges(f: Function, b: BlockId, d: BlockId)
    requires ValidFunction(f)
    ensures HasEdge(CfgOf(f), b, d) <==> b in f.blocks && d in BlockTargets(f.blocks[b])
  {
    EdgesOfFunction(f, f.order, b, d);
  }

  datatype Pos = Pos(block: BlockId, index: nat)

  type Places = map<nat, Pos>

  predicate Within(f: Function, p: Pos) {
    p.block in f.blocks && p.index < |f.blocks[p.block]|
  }

  function InstAt(f: Function, p: Pos): Inst
    requires Within(f, p)
  {
    f.blocks[p.block][p.index]
  }

  predicate DefinesAt(f: Function, x: nat, p: Pos) {
    Within(f, p) && DefinesValue(InstAt(f, p)) && InstAt(f, p).id == x
  }

  // at says where each result is defined; every result is defined once.
  ghost predicate Located(f: Function, at: Places) {
    && (forall p {:trigger InstAt(f, p)} :: Within(f, p) && DefinesValue(InstAt(f, p)) ==>
          InstAt(f, p).id in at && at[InstAt(f, p).id] == p)
    && (forall x {:trigger at[x]} :: x in at ==> DefinesAt(f, x, at[x]))
  }

  predicate IsPhi(f: Function, p: Pos) {
    Within(f, p) && InstAt(f, p).PhiInst?
  }

  // Whatever is defined at d has been defined when control is before instruction k of block c;
  // phis are defined on entry to their block.
  ghost predicate Precedes(f: Function, d: Pos, c: BlockId, k: nat)
    requires ValidFunction(f)
  {
    if d.block == c then IsPhi(f, d) || d.index < k else Dom(CfgOf(f), d.block, c)
  }

  ghost predicate Avail(f: Function, at: Places, x: nat, c: BlockId, k: nat)
    requires ValidFunction(f)
  {
    x in at && Precedes(f, at[x], c, k)
  }

  // y is available where the instruction at p takes its operands; for a phi, already before
  // its block.
  ghost predicate SourceAvail(f: Function, at: Places, y: nat, p: Pos)
    requires ValidFunction(f)
  {
    y in at && Precedes(f, at[y], p.block, p.index) && (IsPhi(f, p) ==> at[y].block != p.block)
  }

  lemma AvailTrans(f: Function, at: Places, y: nat, p: Pos, c: BlockId, k: nat)
    requires ValidFunction(f) && Reachable(CfgOf(f), c)
    requires SourceAvail(f, at, y, p) && Precedes(f, p, c, k)
    ensures Avail(f, at, y, c, k)
  {
    var d := at[y];
    if p.block != c {
      if d.block == c {
        DomAntisym(CfgOf(f), p.block, c);
      } else if d.block != p.block {
        DomTrans(CfgOf(f), d.block, p.block, c);
      }
    }
  }

  // Re-executing the definition of a source means leaving the region where the copy is available.
  lemma SourceNotRedefined(f: Function, at: Places, y: nat, p: Pos, c: BlockId, k: nat)
    requires ValidFunction(f) && Reachable(CfgOf(f), c)
    requires SourceAvail(f, at, y, p) && Precedes(f, p, c, k)
    ensures at[y] != Pos(c, k) || IsPhi(f, Pos(c, k))
    ensures p.block != c ==> at[y].block != c
  {
    if p.block != c && at[y].block == c {
      DomAntisym(CfgOf(f), p.block, c);
    }
  }

  // ---- Operands

  function Operands(i: Inst): seq<Value> {
    match i
    case BinaryInst(_, _, lhs, rhs) => [lhs, rhs]
    case CompareInst(_, _, lhs, rhs) => [lhs, rhs]
    case LoadInst(_, ptr) => [ptr]
    case StoreInst(_, ptr, val) => [ptr, val]
    case CondBranchInst(_, cond, _, _) => [cond]
    case RetInst(_, retVal) => [retVal]
    case MoveInst(dst, val) => [dst, val]
    case AllocInst(_) => []
    case BranchInst(_, _) => []
    case ConstraintInst(_) => []
    case PhiInst(_, _) => []
  }

  ghost predicate OperandsAvail(f: Function, at: Places, p: Pos)
    requires ValidFunction(f) && Within(f, p)
  {
    forall x {:trigger Def(x)} :: Def(x) in Operands(InstAt(f, p)) ==> Avail(f, at, x, p.block, p.index)
  }

  ghost predicate IncomingAvail(f: Function, at: Places, p: Pos)
    requires ValidFunction(f) && Within(f, p)
  {
    InstAt(f, p).PhiInst? ==> forall b, x :: b in InstAt(f, p).incoming && InstAt(f, p).incoming[b] == Def(x) ==>
      b in f.blocks && Avail(f, at, x, b, |f.blocks[b]|)
  }

  /** Static single assignment: definitions dominate uses, and blocks end at their terminator. */
  ghost predicate WellFormed(f: Function, at: Places) {
    && ValidFunction(f) && Located(f, at)
    && (forall p {:trigger OperandsAvail(f, at, p)} :: Within(f, p) ==> OperandsAvail(f, at, p))
    && (forall p {:trigger IncomingAvail(f, at, p)} :: Within(f, p) ==> IncomingAvail(f, at, p))
    && (forall p {:trigger IsTerminator(InstAt(f, p))} :: Within(f, p) && IsTerminator(InstAt(f, p)) ==>
         p.index == |f.blocks[p.block]| - 1)
    && (forall k :: 0 <= k < |f.blocks[Entry(f)]| ==> !f.blocks[Entry(f)][k].PhiInst?)
  }

  // Phis have one incoming value for each predecessor of their block.
  ghost predicate PhisCover(f: Function)
    requires ValidFunction(f)
  {
    forall p, b {:trigger InstAt(f, p), HasEdge(CfgOf(f), b, p.block)} :: IsPhi(f, p) ==>
      (b in InstAt(f, p).incoming <==> HasEdge(CfgOf(f), b, p.block))
  }

  // Phis have at least an incoming value for each of those.
  ghost predicate PhisHaveAll(f: Function)
    requires ValidFunction(f)
  {
    forall p, b {:trigger InstAt(f, p), HasEdge(CfgOf(f), b, p.block)} ::
      IsPhi(f, p) && HasEdge(CfgOf(f), b, p.block) ==>
      b in InstAt(f, p).incoming
  }

  ghost predicate AllReachable(f: Function)
    requires ValidFunction(f)
  {
    forall b {:trigger b in f.blocks} :: b in f.blocks ==> Reachable(CfgOf(f), b)
  }

  // Control can come to the block.
  ghost predicate CanRun(f: Function, b: BlockId) {
    |f.order| > 0 && (forall c :: c in f.order ==> c in f.blocks) && Reachable(CfgOf(f), b)
  }

  ghost predicate IsLive(f: Function, at: Places, x: nat)
    requires ValidFunction(f)
  {
    x in at && Reachable(CfgOf(f), at[x].block)
  }

  // What is available in reachable code is defined in reachable code.
  lemma SourceIsLive(f: Function, at: Places, x: nat, p: Pos)
    requires ValidFunction(f) && SourceAvail(f, at, x, p) && Reachable(CfgOf(f), p.block)
    ensures IsLive(f, at, x)
  {
    if at[x].block != p.block {
      DominatorReachable(CfgOf(f), at[x].block, p.block);
    }
  }

  lemma IncomingOf(f: Function, at: Places, p: Pos, b: BlockId)
    requires WellFormed(f, at) && IsPhi(f, p) && b in InstAt(f, p).incoming && InstAt(f, p).incoming[b].Def?
    ensures b in f.blocks && Avail(f, at, InstAt(f, p).incoming[b].id, b, |f.blocks[b]|)
  {
    hide Located, OperandsAvail, Precedes;
    assert IncomingAvail(f, at, p);
    assert InstAt(f, p).incoming[b] == Def(InstAt(f, p).incoming[b].id);
  }

  // ---- Renaming

  type Subst = map<nat, Value>

  function Apply(s: Subst, v: Value): Value {
    if v.Def? && v.id in s then s[v.id] else v
  }

  function RenameInst(s: Subst, i: Inst): Inst {
    match i
    case AllocInst(_) => i
    case BinaryInst(id, op, lhs, rhs) => BinaryInst(id, op, Apply(s, lhs), Apply(s, rhs))
    case CompareInst(id, pred, lhs, rhs) => CompareInst(id, pred, Apply(s, lhs), Apply(s, rhs))
    case LoadInst(id, ptr) => LoadInst(id, Apply(s, ptr))
    case StoreInst(id, ptr, val) => StoreInst(id, Apply(s, ptr), Apply(s, val))
    case PhiInst(id, incoming) => PhiInst(id, map b | b in incoming :: Apply(s, incoming[b]))
    case BranchInst(_, _) => i
    case CondBranchInst(id, cond, falseDst, trueDst) => CondBranchInst(id, Apply(s, cond), falseDst, trueDst)
    case RetInst(id, retVal) => RetInst(id, Apply(s, retVal))
    case MoveInst(dst, val) => MoveInst(Apply(s, dst), Apply(s, val))
    case ConstraintInst(_) => i
  }

  function RenameBlock(s: Subst, b: Block): (r: Block)
    ensures |r| == |b| && forall k :: 0 <= k < |b| ==> r[k] == RenameInst(s, b[k])
  {
    seq(|b|, k requires 0 <= k < |b| => RenameInst(s, b[k]))
  }

  function RenameFunction(s: Subst, f: Function): Function {
    Function(f.order, map b | b in f.blocks :: RenameBlock(s, f.blocks[b]))
  }

  lemma RenameNothing(f: Function)
    ensures RenameFunction(map[], f) == f
  {
    forall b | b in f.blocks
      ensures RenameBlock(map[], f.blocks[b]) == f.blocks[b]
    {
      forall k | 0 <= k < |f.blocks[b]|
        ensures RenameInst(map[], f.blocks[b][k]) == f.blocks[b][k]
      {
        var i := f.blocks[b][k];
        if i.PhiInst? {
          assert RenameInst(map[], i).incoming == i.incoming;
        }
      }
    }
  }

  // ---- Adding one replacement

  // s followed by the replacement of x by v.
  function Extend(s: Subst, x: nat, v: Value): (r: Subst)
    ensures r.Keys == s.Keys + {x}
  {
    map z | z in s.Keys + {x} :: if z == x then v else Apply(map[x := v], s[z])
  }

  lemma ApplyExtend(s: Subst, x: nat, v: Value, u: Value)
    requires x !in s
    ensures Apply(Extend(s, x, v), u) == Apply(map[x := v], Apply(s, u))
  {
  }

  lemma RenameInstExtend(s: Subst, x: nat, v: Value, i: Inst)
    requires x !in s
    ensures RenameInst(Extend(s, x, v), i) == RenameInst(map[x := v], RenameInst(s, i))
  {
    forall u
      ensures Apply(Extend(s, x, v), u) == Apply(map[x := v], Apply(s, u))
    {
      ApplyExtend(s, x, v, u);
    }
  }

  lemma RenameExtend(s: Subst, x: nat, v: Value, f: Function)
    requires x !in s
    ensures RenameFunction(Extend(s, x, v), f) == RenameFunction(map[x := v], RenameFunction(s, f))
  {
    forall b | b in f.blocks
      ensures RenameBlock(Extend(s, x, v), f.blocks[b]) == RenameBlock(map[x := v], RenameBlock(s, f.blocks[b]))
    {
      forall k | 0 <= k < |f.blocks[b]|
        ensures RenameInst(Extend(s, x, v), f.blocks[b][k]) == RenameInst(map[x := v], RenameInst(s, f.blocks[b][k]))
      {
        RenameInstExtend(s, x, v, f.blocks[b][k]);
      }
    }
  }

  // What is available to the source of a copy is available to the copy.
  lemma SourceTrans(f: Function, at: Places, y: nat, x: nat, p: Pos)
    requires WellFormed(f, at) && Within(f, p) && Reachable(CfgOf(f), p.block)
    requires x in at && SourceAvail(f, at, x, p) && SourceAvail(f, at, y, at[x])
    ensures SourceAvail(f, at, y, p)
  {
    AvailTrans(f, at, y, at[x], p.block, p.index);
    SourceNotRedefined(f, at, y, at[x], p.block, p.index);
  }

  // The function that returns 0 at once.
  function ReturnZero(): Function {
    Function([0], map[0 := [RetInst(0, Const(0))]])
  }

  lemma ReturnZeroFacts()
    ensures WellFormed(ReturnZero(), map[])
    ensures forall p {:trigger Within(ReturnZero(), p)} :: Within(ReturnZero(), p) ==>
        p == Pos(0, 0) && InstAt(ReturnZero(), p) == RetInst(0, Const(0))
  {
    var f := ReturnZero();
    forall p | Within(f, p)
      ensures p == Pos(0, 0) && InstAt(f, p) == RetInst(0, Const(0))
    {
    }
  }
}

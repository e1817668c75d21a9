/** A counting loop with a variable, a compare and a phi: it meets what every pass demands. */
module CountingLoop {
  import opened Words
  import opened Graph
  import opened Dominance
  import opened Ir
  import opened Ssa
  import opened FunctionObject
  import X86
  import MachineRun
  import C = Compilation
  import F = ConstantFolder
  import M = MoveInserter
  import P = PhiCopies
  import opened TreeWalk
  import A = PromotedVariables
  import DC = DominanceComputer
  import DT = DominatorTree
  import B = BlockSim
  import L = Liveness
  import R = CopyRuns

  // Counts from 0 up to the limit that a variable holds.
  function EntryBlock(limit: Word): Block {
    [AllocInst(0), StoreInst(1, Alloc(0), Const(limit)), BranchInst(2, 1)]
  }

  function Header(): Block {
    [PhiInst(3, map[0 := Const(0), 2 := Def(7)]), LoadInst(4, Alloc(0)), CompareInst(5, Slt, Def(3), Def(4)),
     CondBranchInst(6, Def(5), 3, 2)]
  }

  function Body(): Block {
    [BinaryInst(7, Add, Def(3), Const(1)), BranchInst(8, 1)]
  }

  function Exit(): Block {
    [RetInst(9, Def(3))]
  }

  function Loop(limit: Word): Function {
    Function([0, 1, 2, 3], map[0 := EntryBlock(limit), 1 := Header(), 2 := Body(), 3 := Exit()])
  }

  function ResultsAt(): Places {
    map[3 := Pos(1, 0), 4 := Pos(1, 1), 5 := Pos(1, 2), 7 := Pos(2, 0)]
  }

  lemma TargetsOfLast(b: Block)
    requires b != [] && forall k :: 0 <= k < |b| - 1 ==> InstTargets(b[k]) == []
    ensures forall d :: d in BlockTargets(b) <==> d in InstTargets(b[|b| - 1])
  {
  }

  // Where control goes.
  predicate Goes(b: BlockId, d: BlockId) {
    (b == 0 && d == 1) || (b == 1 && (d == 2 || d == 3)) || (b == 2 && d == 1)
  }

  lemma BlocksGo(limit: Word, b: BlockId)
    requires b < 4
    ensures forall d :: d in BlockTargets(Loop(limit).blocks[b]) <==> Goes(b, d)
  {
    hide BlockTargets;
    if b == 0 {
      TargetsOfLast(EntryBlock(limit));
    } else if b == 1 {
      TargetsOfLast(Header());
    } else if b == 2 {
      TargetsOfLast(Body());
    } else {
      TargetsOfLast(Exit());
    }
  }

  lemma LoopBlocks(limit: Word)
    ensures var f := Loop(limit); f.order == [0, 1, 2, 3] && forall b: BlockId :: b in f.blocks <==> b < 4
  {
  }

  lemma LoopValid(limit: Word)
    ensures ValidFunction(Loop(limit))
  {
    hide BlockTargets, Loop;
    var f := Loop(limit);
    LoopBlocks(limit);
    forall b, d | b in f.blocks && d in BlockTargets(f.blocks[b])
      ensures d in f.blocks
    {
      BlocksGo(limit, b);
    }
  }

  lemma LoopEdges(limit: Word)
    ensures var f := Loop(limit); ValidFunction(f) && forall b, d :: HasEdge(CfgOf(f), b, d) <==> Goes(b, d)
  {
    hide BlockTargets, Loop, HasEdge, CfgOf;
    var f := Loop(limit);
    LoopBlocks(limit);
    LoopValid(limit);
    forall b, d
      ensures HasEdge(CfgOf(f), b, d) <==> Goes(b, d)
    {
      CfgEdges(f, b, d);
      if b < 4 {
        BlocksGo(limit, b);
      }
    }
  }

  lemma LoopReachable(limit: Word)
    ensures var f := Loop(limit); ValidFunction(f) && forall b :: b < 4 ==> Reachable(CfgOf(f), b)
  {
    hide CfgOf, Loop, HasEdge, Reachable;
    var f := Loop(limit);
    LoopBlocks(limit);
    LoopEdges(limit);
    var g := CfgOf(f);
    EntryIs(f);
    EntryReachable(g);
    ReachableStep(g, 0, 1);
    ReachableStep(g, 1, 2);
    ReachableStep(g, 1, 3);
  }

  lemma EntryIs(f: Function)
    requires ValidFunction(f)
    ensures CfgOf(f).entry == Entry(f)
  {
  }

  lemma LoopDominance(limit: Word)
    ensures var f := Loop(limit); ValidFunction(f) && Dom(CfgOf(f), 1, 2) && Dom(CfgOf(f), 1, 3)
  {
    hide CfgOf, Loop, HasEdge, Reachable, Dom;
    var f := Loop(limit);
    LoopBlocks(limit);
    LoopEdges(limit);
    LoopReachable(limit);
    EntryIs(f);
    F.SinglePredDominates(CfgOf(f), 1, 2);
    F.SinglePredDominates(CfgOf(f), 1, 3);
  }

  lemma LoopLocated(limit: Word)
    ensures Located(Loop(limit), ResultsAt())
  {
  }

  lemma LoopOperands(limit: Word, p: Pos)
    requires Within(Loop(limit), p)
    ensures ValidFunction(Loop(limit)) && OperandsAvail(Loop(limit), ResultsAt(), p)
  {
    hide CfgOf, Dom, ValidFunction;
    LoopDominance(limit);
  }

  lemma LoopIncoming(limit: Word, p: Pos)
    requires Within(Loop(limit), p)
    ensures ValidFunction(Loop(limit)) && IncomingAvail(Loop(limit), ResultsAt(), p)
  {
    hide CfgOf, Dom, ValidFunction;
    LoopDominance(limit);
  }

  lemma LoopShape(limit: Word, p: Pos)
    requires Within(Loop(limit), p)
    ensures IsTerminator(InstAt(Loop(limit), p)) ==> p.index == |Loop(limit).blocks[p.block]| - 1
    ensures p.block == 0 ==> !InstAt(Loop(limit), p).PhiInst?
  {
  }

  lemma LoopWellFormed(limit: Word)
    ensures WellFormed(Loop(limit), ResultsAt())
  {
    hide Loop, Located, OperandsAvail, IncomingAvail, BlockTargets;
    var f, at := Loop(limit), ResultsAt();
    LoopBlocks(limit);
    LoopValid(limit);
    LoopLocated(limit);
    forall p | Within(f, p)
      ensures OperandsAvail(f, at, p) && IncomingAvail(f, at, p)
      ensures IsTerminator(InstAt(f, p)) ==> p.index == |f.blocks[p.block]| - 1
      ensures p.block == 0 ==> !InstAt(f, p).PhiInst?
    {
      LoopOperands(limit, p);
      LoopIncoming(limit, p);
      LoopShape(limit, p);
    }
    forall k | 0 <= k < |f.blocks[0]|
      ensures !f.blocks[0][k].PhiInst?
    {
      LoopShape(limit, Pos(0, k));
    }
  }

  // ---- What the backend demands

  lemma LoopClass(limit: Word, p: Pos)
    requires Within(Loop(limit), p)
    ensures C.InClass(Loop(limit), p)
  {
    if p == Pos(0, 1) || p == Pos(1, 1) {
      assert C.DeclaredAt(Loop(limit), 0, 0);
    }
  }

  // The only phi is the first instruction of the header.
  lemma OnlyPhi(limit: Word, p: Pos)
    requires IsPhi(Loop(limit), p)
    ensures p == Pos(1, 0) && InstAt(Loop(limit), p) == Header()[0]
  {
  }

  lemma LoopCopies(limit: Word, b: BlockId)
    ensures P.SafeCopies(Loop(limit).blocks[1], |Loop(limit).blocks[1]|, b)
  {
  }

  lemma LoopPhiOk(limit: Word)
    ensures M.PhiOk(Loop(limit), map[0 := Const(0), 2 := Def(7)])
  {
  }

  lemma LoopPhis(limit: Word)
    ensures C.PhisCopyable(Loop(limit)) && L.PlainPhis(Loop(limit))
  {
    hide Loop, M.PhiOk;
    LoopPhiOk(limit);
    forall p | IsPhi(Loop(limit), p)
      ensures p == Pos(1, 0) && InstAt(Loop(limit), p) == Header()[0]
    {
      OnlyPhi(limit, p);
    }
    assert 0 in map[0 := Const(0), 2 := Def(7)];
  }

  lemma LoopEndsPlainly(limit: Word)
    ensures 0 in Loop(limit).blocks && 2 in Loop(limit).blocks
    ensures L.EndsPlainly(Loop(limit).blocks[0]) && L.EndsPlainly(Loop(limit).blocks[2])
  {
  }

  lemma LoopMatch(limit: Word)
    ensures ValidFunction(Loop(limit)) && L.PhisMatch(Loop(limit)) && C.EntryNotTarget(Loop(limit))
  {
    hide Loop, CfgOf, HasEdge, CanRun, ValidFunction, BlockTargets, L.EndsPlainly;
    LoopBlocks(limit);
    LoopEdges(limit);
    LoopCanRun(limit);
    LoopEndsPlainly(limit);
    forall p | IsPhi(Loop(limit), p)
      ensures p == Pos(1, 0) && InstAt(Loop(limit), p) == Header()[0]
    {
      OnlyPhi(limit, p);
    }
  }

  lemma LoopSafe(limit: Word)
    ensures ValidFunction(Loop(limit)) && L.CopiesSafe(Loop(limit))
  {
    hide Loop, CfgOf, HasEdge, CanRun, ValidFunction, P.SafeCopies;
    LoopEdges(limit);
    forall p, b | IsPhi(Loop(limit), p)
      ensures P.SafeCopies(Loop(limit).blocks[p.block], |Loop(limit).blocks[p.block]|, b)
    {
      OnlyPhi(limit, p);
      LoopCopies(limit, b);
    }
  }

  lemma LoopResults(limit: Word)
    ensures L.ResultsDiffer(Loop(limit))
  {
  }

  lemma LoopShaped(limit: Word)
    ensures L.Shaped(Loop(limit))
  {
    LoopBlocks(limit);
  }

  /** The copies of the loop stand in for its phi. */
  lemma LoopCopiesServe(limit: Word)
    ensures ValidFunction(Loop(limit)) && L.Shaped(Loop(limit)) && L.CopiesHarmless(Loop(limit))
  {
    hide Loop, L.PlainPhis, L.PhisMatch, L.CopiesSafe, L.ResultsDiffer, L.CopiesHarmless, L.Shaped, ValidFunction;
    LoopPhis(limit);
    LoopMatch(limit);
    LoopSafe(limit);
    LoopResults(limit);
    LoopShaped(limit);
    L.MatchingPhisServe(Loop(limit));
  }

  lemma LoopCanRun(limit: Word)
    ensures forall b: BlockId :: CanRun(Loop(limit), b) <==> b < 4
  {
    hide CfgOf, Loop, HasEdge, Reachable, BlockTargets;
    var f := Loop(limit);
    LoopBlocks(limit);
    LoopValid(limit);
    LoopReachable(limit);
    forall b | CanRun(f, b)
      ensures b < 4
    {
      RunsInside(limit, b);
    }
  }

  lemma RunsInside(limit: Word, b: BlockId)
    requires CanRun(Loop(limit), b)
    ensures b < 4
  {
    hide CfgOf, Loop, HasEdge, BlockTargets;
    LoopEdges(limit);
    LoopBlocks(limit);
    EntryIs(Loop(limit));
    var p :| IsPath(CfgOf(Loop(limit)), p, b);
    if |p| > 1 {
      assert HasEdge(CfgOf(Loop(limit)), p[|p| - 2], p[|p| - 2 + 1]);
    }
  }

  lemma LoopRets(limit: Word)
    ensures C.RetsDiffer(Loop(limit))
  {
    forall p | C.IsRet(Loop(limit), p)
      ensures p == Pos(3, 0)
    {
    }
  }

  lemma LoopBlockOk(limit: Word, b: BlockId)
    requires b < 4
    ensures M.BlockOk(Loop(limit).blocks[b], 10)
  {
  }

  /** The backend takes the loop. */
  lemma LoopIsCompilable(limit: Word)
    ensures C.Compilable(Loop(limit), ResultsAt(), 10)
  {
    hide Loop, CfgOf, WellFormed, C.PhisCopyable, C.RetsDiffer, C.InClass, M.BlockOk, BlockTargets, L.PlainPhis;
    LoopBlocks(limit);
    LoopWellFormed(limit);
    LoopPhis(limit);
    LoopRets(limit);
    forall b | b in Loop(limit).blocks
      ensures M.BlockOk(Loop(limit).blocks[b], 10)
    {
      LoopBlockOk(limit, b);
    }
    forall p | Within(Loop(limit), p)
      ensures C.InClass(Loop(limit), p)
    {
      LoopClass(limit, p);
    }
  }

  /** So does the constant folder. */
  lemma LoopIsFoldee(limit: Word)
    ensures F.Foldee(Loop(limit), ResultsAt())
  {
    hide Loop, CfgOf, Located, OperandsAvail, IncomingAvail, BlockTargets, HasEdge, Reachable;
    LoopWellFormed(limit);
    LoopEdges(limit);
    LoopReachable(limit);
    forall p | IsPhi(Loop(limit), p)
      ensures p == Pos(1, 0) && InstAt(Loop(limit), p) == Header()[0]
    {
      OnlyPhi(limit, p);
    }
    assert F.Ranked(Loop(limit), map[]);
  }

  // ---- What the promoter demands

  function LoopSetup(limit: Word): A.Setup {
    A.Setup(Loop(limit), ResultsAt(), {0}, 10, map[0 := 3, 1 := 2, 2 := 1, 3 := 0], map[0 := 0, 1 := 0, 2 := 1, 3 := 1],
      [0, 1, 2, 3])
  }

  // Every other dominator of a block with a single predecessor dominates that one.
  lemma SinglePredIsIdom(g: Digraph, b: Vertex, d: Vertex)
    requires Reachable(g, d) && d != g.entry && (forall c :: HasEdge(g, c, d) ==> c == b) && HasEdge(g, b, d)
    ensures IsIdom(g, b, d)
  {
    F.SinglePredDominates(g, b, d);
    forall e | StrictDom(g, e, d)
      ensures Dom(g, e, b)
    {
      forall p | IsPath(g, p, b)
        ensures e in p
      {
        assert IsPath(g, p + [d], d);
        assert e in p + [d];
      }
    }
  }

  // The header has two predecessors, but one of them only behind it.
  lemma HeaderIdom(limit: Word)
    ensures ValidFunction(Loop(limit)) && IsIdom(CfgOf(Loop(limit)), 0, 1)
  {
    hide CfgOf, Loop, HasEdge;
    LoopEdges(limit);
    LoopBlocks(limit);
    EntryIs(Loop(limit));
    var g := CfgOf(Loop(limit));
    assert IsPath(g, [0, 1], 1);
    forall e | StrictDom(g, e, 1)
      ensures Dom(g, e, 0)
    {
      assert e in [0, 1];
    }
  }

  lemma LoopTree(limit: Word)
    ensures ValidFunction(Loop(limit))
    ensures DT.ExactParents(CfgOf(Loop(limit)), LoopSetup(limit).doms)
    ensures DC.Climbs(CfgOf(Loop(limit)).entry, LoopSetup(limit).index, LoopSetup(limit).doms)
  {
    hide ValidFunction, BlockTargets, CfgOf, Loop, HasEdge, Reachable, IsIdom;
    LoopBlocks(limit);
    LoopEdges(limit);
    LoopReachable(limit);
    LoopCanRun(limit);
    EntryIs(Loop(limit));
    HeaderIdom(limit);
    SinglePredIsIdom(CfgOf(Loop(limit)), 1, 2);
    SinglePredIsIdom(CfgOf(Loop(limit)), 1, 3);
    forall v
      ensures v in LoopSetup(limit).doms <==> Reachable(CfgOf(Loop(limit)), v)
    {
      assert CanRun(Loop(limit), v) <==> v < 4;
    }
  }

  lemma LoopUsers(limit: Word, a: nat, p: Pos)
    requires IsUser(Loop(limit), Alloc(a), p)
    ensures a == 0 && (p == Pos(0, 1) || p == Pos(1, 1))
  {
  }

  lemma LoopInsts(limit: Word)
    ensures var f := Loop(limit);
      Within(f, Pos(0, 0)) && InstAt(f, Pos(0, 0)) == AllocInst(0)
      && Within(f, Pos(0, 1)) && InstAt(f, Pos(0, 1)) == StoreInst(1, Alloc(0), Const(limit))
      && Within(f, Pos(1, 1)) && InstAt(f, Pos(1, 1)) == LoadInst(4, Alloc(0))
    ensures forall p :: Within(Loop(limit), p) && InstAt(Loop(limit), p).StoreInst? ==> p == Pos(0, 1)
    ensures forall p :: Within(Loop(limit), p) && InstAt(Loop(limit), p).LoadInst? ==> p == Pos(1, 1)
    ensures forall p, a :: Within(Loop(limit), p) && InstAt(Loop(limit), p) == AllocInst(a) ==> a == 0
  {
  }

  lemma LoopVars(limit: Word)
    ensures A.AreVars(Loop(limit), {0}) && A.NoneStored(Loop(limit), {0})
  {
    hide Loop;
    var f := Loop(limit);
    LoopInsts(limit);
    forall p, a | IsUser(f, Alloc(a), p)
      ensures a == 0 && (p == Pos(0, 1) || p == Pos(1, 1))
    {
      LoopUsers(limit, a, p);
    }
    assert IsUser(f, Alloc(0), Pos(0, 1));
    assert A.HasAlloc(f, 0);
  }

  // Ways to the blocks that go through no later one.
  lemma LoopPaths(limit: Word)
    ensures ValidFunction(Loop(limit))
    ensures var g := CfgOf(Loop(limit));
      IsPath(g, [0], 0) && IsPath(g, [0, 1], 1) && IsPath(g, [0, 1, 2], 2) && IsPath(g, [0, 1, 3], 3)
  {
    hide Loop, CfgOf, HasEdge;
    LoopEdges(limit);
    LoopBlocks(limit);
    EntryIs(Loop(limit));
  }

  lemma LoopIdoms(limit: Word)
    ensures ValidFunction(Loop(limit))
    ensures var g := CfgOf(Loop(limit)); Dom(g, 0, 1) && Dom(g, 1, 2) && Dom(g, 1, 3)
  {
    hide Loop, CfgOf, HasEdge, Reachable, Dom, DC.Climbs;
    LoopTree(limit);
    EntryIs(Loop(limit));
    LoopBlocks(limit);
    var g, doms := CfgOf(Loop(limit)), LoopSetup(limit).doms;
    assert IsIdom(g, doms[1], 1) && IsIdom(g, doms[2], 2) && IsIdom(g, doms[3], 3);
  }

  lemma NotAbove(g: Digraph, d: BlockId, p: seq<BlockId>, v: BlockId)
    requires IsPath(g, p, v) && Dom(g, d, v)
    ensures d in p
  {
  }

  lemma LoopDominators(limit: Word)
    ensures ValidFunction(Loop(limit))
    ensures var g := CfgOf(Loop(limit)); forall i, j :: 0 <= i < 4 && 0 <= j < 4 ==>
      (Dom(g, i, j) <==> i == 0 || i == j || (i == 1 && j > 1))
  {
    hide Loop, CfgOf, HasEdge, Reachable, Dom, IsPath;
    LoopPaths(limit);
    LoopIdoms(limit);
    var g := CfgOf(Loop(limit));
    DomTrans(g, 0, 1, 2);
    DomTrans(g, 0, 1, 3);
    forall i, j | 0 <= i < 4 && 0 <= j < 4
      ensures Dom(g, i, j) ==> i == 0 || i == j || (i == 1 && j > 1)
      ensures i == j ==> Dom(g, i, j)
    {
      DominatesItself(g, i);
      if Dom(g, i, j) {
        NotAbove(g, i, if j == 0 then [0] else if j == 1 then [0, 1] else if j == 2 then [0, 1, 2] else [0, 1, 3], j);
      }
    }
  }

  lemma LoopPreorder(limit: Word)
    ensures ValidFunction(Loop(limit)) && Preorder(CfgOf(Loop(limit)), LoopSetup(limit).order)
  {
    hide Loop, CfgOf, HasEdge, Reachable, Dom, ValidFunction;
    LoopDominators(limit);
    LoopCanRun(limit);
    LoopBlocks(limit);
    EntryIs(Loop(limit));
    forall v: BlockId
      ensures v in LoopSetup(limit).order <==> Reachable(CfgOf(Loop(limit)), v)
    {
      assert CanRun(Loop(limit), v) <==> v < 4;
    }
  }

  /** And the promoter, with the dominator tree of the loop; the load is reached by the only store. */
  lemma LoopIsReady(limit: Word)
    ensures A.IsSetup(LoopSetup(limit)) && A.AreVars(Loop(limit), {0}) && A.AllReached(LoopSetup(limit))
  {
    hide Loop, CfgOf, WellFormed, A.AreVars, A.NoneStored, Dom, HasEdge, Reachable, DT.ExactParents,
      DC.Climbs, Preorder;
    LoopWellFormed(limit);
    LoopPreorder(limit);
    LoopTree(limit);
    LoopVars(limit);
    LoopInsts(limit);
    HeaderIdom(limit);
    assert A.Reaches(Loop(limit), Pos(0, 1), Pos(1, 1));
  }

  // ---- A run

  // The state at the header: the counter is i, the variable holds the limit.
  ghost predicate AtHeader(limit: Word, i: Word, o: Outcome) {
    o.Jump? && o.dst == 1 && 3 in o.st.env && o.st.env[3] == i && Alloc(0) in o.st.cells
      && o.st.cells[Alloc(0)] == limit
  }

  // The state at the body or at the exit.
  ghost predicate Behind(limit: Word, i: Word, d: BlockId, o: Outcome) {
    o.Jump? && o.dst == d && 3 in o.st.env && o.st.env[3] == i && Alloc(0) in o.st.cells
      && o.st.cells[Alloc(0)] == limit
  }

  lemma Unroll(i: Inst, rest: Block, st: State)
    ensures var o := ExecInst(i, st); ExecInsts([i] + rest, st) == if o.Fell? then ExecInsts(rest, o.st) else o
  {
    assert ([i] + rest)[1..] == rest;
  }

  lemma EntryExec(limit: Word, st: State)
    ensures ExecInsts(EntryBlock(limit), st) == Jump(1, st.(cells := st.cells[Alloc(0) := limit]))
  {
    hide ExecInsts, EvalBinary, EvalCompare, Read64, Write64;
    var b := EntryBlock(limit);
    assert b == [b[0]] + ([b[1]] + ([b[2]] + []));
    Unroll(b[0], [b[1]] + ([b[2]] + []), st);
    Unroll(b[1], [b[2]] + [], st);
    Unroll(b[2], [], st.(cells := st.cells[Alloc(0) := limit]));
  }

  lemma HeaderFront(limit: Word, st: State)
    requires Alloc(0) in st.cells && st.cells[Alloc(0)] == limit
    ensures ExecInsts(Header()[..2], st) == Fell(st.(env := st.env[4 := limit]))
  {
    hide ExecInsts, EvalBinary, EvalCompare, Read64, Write64;
    var b := Header();
    assert b[..2] == [b[0]] + ([b[1]] + []);
    Unroll(b[0], [b[1]] + [], st);
    Unroll(b[1], [], st);
    NothingExec(st.(env := st.env[4 := limit]));
  }

  lemma LimitTested(i: Word, limit: Word, st: State)
    requires 3 in st.env && st.env[3] == i && 4 in st.env && st.env[4] == limit && i <= limit < 256
    ensures ExecInst(Header()[2], st) == Fell(st.(env := st.env[5 := if i < limit then 1 else 0]))
  {
  }

  lemma HeaderLeft(st: State)
    requires 5 in st.env
    ensures ExecInst(Header()[3], st) == Jump(if st.env[5] == 1 then 2 else 3, st)
  {
  }

  lemma HeaderBack(i: Word, limit: Word, st: State)
    requires 3 in st.env && st.env[3] == i && 4 in st.env && st.env[4] == limit && i <= limit < 256
    ensures var c := if i < limit then 1 else 0;
      ExecInsts(Header()[2..], st) == Jump(if i < limit then 2 else 3, st.(env := st.env[5 := c]))
  {
    hide ExecInsts, ExecInst;
    var b := Header();
    assert b[2..] == [b[2]] + ([b[3]] + []);
    LimitTested(i, limit, st);
    HeaderLeft(st.(env := st.env[5 := if i < limit then 1 else 0]));
    Unroll(b[2], [b[3]] + [], st);
    Unroll(b[3], [], st.(env := st.env[5 := if i < limit then 1 else 0]));
  }

  lemma HeaderExec(limit: Word, i: Word, st: State)
    requires 3 in st.env && st.env[3] == i && Alloc(0) in st.cells && st.cells[Alloc(0)] == limit && i <= limit < 256
    ensures var c := if i < limit then 1 else 0;
      ExecInsts(Header(), st) == Jump(if i < limit then 2 else 3, st.(env := st.env[4 := limit][5 := c]))
    ensures ExecInsts(Header()[..2], st) == Fell(st.(env := st.env[4 := limit]))
  {
    hide ExecInsts, Header;
    HeaderFront(limit, st);
    HeaderBack(i, limit, st.(env := st.env[4 := limit]));
    TwoAndRest();
    ExecAppend(Header()[..2], Header()[2..], st);
  }

  lemma TwoAndRest()
    ensures |Header()| == 4 && Header()[..2] + Header()[2..] == Header()
  {
  }

  lemma NothingExec(st: State)
    ensures ExecInsts([], st) == Fell(st)
  {
  }

  lemma Increment(i: Word, st: State)
    requires 3 in st.env && st.env[3] == i && i < 256
    ensures ExecInst(BinaryInst(7, Add, Def(3), Const(1)), st) == Fell(st.(env := st.env[7 := i + 1]))
  {
  }

  lemma BodyExec(i: Word, st: State)
    requires 3 in st.env && st.env[3] == i && i < 256
    ensures ExecInsts(Body(), st) == Jump(1, st.(env := st.env[7 := i + 1]))
  {
    hide ExecInsts, ExecInst;
    var b := Body();
    assert b == [b[0]] + ([b[1]] + []);
    Increment(i, st);
    Unroll(b[0], [b[1]] + [], st);
    Unroll(b[1], [], st.(env := st.env[7 := i + 1]));
    BranchExec(8, 1, st.(env := st.env[7 := i + 1]));
  }

  lemma BranchExec(id: nat, d: BlockId, st: State)
    ensures ExecInst(BranchInst(id, d), st) == Jump(d, st)
  {
  }

  lemma EntryStep(limit: Word, st: State)
    ensures AtHeader(limit, 0, StepBlock(Loop(limit), 0, st))
  {
    hide ExecInsts, EnterEnv;
    EntryExec(limit, st);
    EnterLookup(Header(), 0, st.env, 3);
  }

  lemma HeaderStep(limit: Word, i: Word, o: Outcome)
    requires AtHeader(limit, i, o) && i <= limit < 256
    ensures Behind(limit, i, if i < limit then 2 else 3, StepBlock(Loop(limit), 1, o.st))
    ensures B.SmallCompares(Header(), |Header()| - 1, o.st)
  {
    hide ExecInsts, EnterEnv;
    HeaderExec(limit, i, o.st);
    var env := o.st.env[4 := limit][5 := if i < limit then 1 else 0];
    EnterLookup(Body(), 1, env, 3);
    EnterLookup(Exit(), 1, env, 3);
  }

  lemma BodyStep(limit: Word, i: Word, o: Outcome)
    requires Behind(limit, i, 2, o) && i < limit < 256
    ensures AtHeader(limit, i + 1, StepBlock(Loop(limit), 2, o.st))
  {
    hide ExecInsts, EnterEnv;
    BodyExec(i, o.st);
    EnterLookup(Header(), 2, o.st.env[7 := i + 1], 3);
  }

  lemma NoCompares(limit: Word, b: BlockId, st: State)
    requires b < 4 && b != 1
    ensures B.SmallCompares(Loop(limit).blocks[b], |Loop(limit).blocks[b]| - 1, st)
  {
    hide ExecInsts;
  }

  lemma ExitStep(limit: Word, i: Word, o: Outcome)
    requires Behind(limit, i, 3, o)
    ensures StepBlock(Loop(limit), 3, o.st) == Return(i, o.st)
  {
    assert Exit()[1..] == [];
  }

  lemma {:induction false} HeaderRuns(limit: Word, i: Word, o: Outcome, n: nat)
    requires AtHeader(limit, i, o) && i <= limit < 256 && n == 2 * (limit - i) + 2
    ensures R.SmallRun(Loop(limit), o, n) && Run(Loop(limit), o, n).Return? && Run(Loop(limit), o, n).word == limit
    decreases n
  {
    hide StepBlock, B.SmallCompares;
    var f := Loop(limit);
    HeaderStep(limit, i, o);
    var o1 := StepBlock(f, 1, o.st);
    if i < limit {
      BodyStep(limit, i, o1);
      NoCompares(limit, 2, o1.st);
      HeaderRuns(limit, i + 1, StepBlock(f, 2, o1.st), n - 2);
    } else {
      ExitStep(limit, i, o1);
      NoCompares(limit, 3, o1.st);
    }
  }

  /** With a limit below 256 the loop returns it, and every compare on the way is small. */
  lemma LoopReturns(limit: Word, mem: Memory)
    requires limit < 256
    ensures var n, st := 2 * limit + 3, State(map[], map[], mem);
      R.SmallRun(Loop(limit), Jump(0, st), n) && RunFunction(Loop(limit), st, n).Return?
        && RunFunction(Loop(limit), st, n).word == limit
  {
    hide StepBlock, B.SmallCompares;
    var st := State(map[], map[], mem);
    EntryStep(limit, st);
    NoCompares(limit, 0, st);
    HeaderRuns(limit, 0, StepBlock(Loop(limit), 0, st), 2 * limit + 2);
    assert st.(env := map[]) == st;
  }

  /** So every call of the code that the backend emits for it returns the limit in rax. */
  lemma LoopCodeReturns(limit: Word, code: MachineRun.Program, size: nat, m: X86.Machine)
    requires limit < 256 && C.Faithful(Loop(limit), code, size)
    ensures C.CallReturns(code, m, limit)
  {
    hide R.SmallRun, Run, C.CallReturns, Loop, L.Shaped, L.CopiesHarmless, C.FollowsCopies, C.KeepsFrames,
      C.AlwaysInFrame, ValidFunction;
    LoopReturns(limit, map[]);
    LoopCopiesServe(limit);
    LoopBlocks(limit);
    assert C.SameResult(Loop(limit), code, map[], 2 * limit + 3, m);
  }
}

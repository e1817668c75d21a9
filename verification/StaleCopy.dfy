/** A function with a phi that has a value for a block that is no predecessor any more: the emitted code returns it. */
module StaleCopy {
  import opened Words
  import opened Graph
  import opened Dominance
  import opened Ir
  import opened Ssa
  import opened PhiCopies
  import opened CopyRuns
  import opened Liveness
  import opened BlockSim
  import X86
  import MachineRun
  import C = Compilation
  import F = ConstantFolder
  import M = MoveInserter
  import R = Reentry

  function ThePhi(): Inst {
    PhiInst(1, map[0 := Const(5), 2 := Const(7)])
  }

  // Block 2 once branched back to block 1.
  function Stale(): Function {
    Function([0, 1, 2, 3], map[0 := [BranchInst(0, 1)], 1 := [ThePhi(), BranchInst(2, 2)], 2 := [BranchInst(3, 3)],
                               3 := [RetInst(4, Def(1))]])
  }

  lemma StaleBlocks()
    ensures var f := Stale(); f.order == [0, 1, 2, 3] && forall b: BlockId :: b in f.blocks <==> b < 4
    ensures Stale().blocks[0] == [BranchInst(0, 1)] && Stale().blocks[1] == [ThePhi(), BranchInst(2, 2)]
    ensures Stale().blocks[2] == [BranchInst(3, 3)] && Stale().blocks[3] == [RetInst(4, Def(1))]
  {
  }

  lemma StaleInst(p: Pos)
    requires Within(Stale(), p)
    ensures p == Pos(0, 0) || p == Pos(1, 0) || p == Pos(1, 1) || p == Pos(2, 0) || p == Pos(3, 0)
    ensures InstAt(Stale(), p) ==
      if p == Pos(0, 0) then BranchInst(0, 1) else if p == Pos(1, 0) then ThePhi()
      else if p == Pos(1, 1) then BranchInst(2, 2) else if p == Pos(2, 0) then BranchInst(3, 3)
      else RetInst(4, Def(1))
  {
  }

  lemma StaleTargets(b: BlockId)
    requires b < 4
    ensures b in Stale().blocks && BlockTargets(Stale().blocks[b]) == if b < 3 then [b + 1] else []
  {
    StaleBlocks();
    if b == 1 {
      assert [ThePhi(), BranchInst(2, 2)][1..] == [BranchInst(2, 2)];
    }
  }

  lemma StaleEdges()
    ensures ValidFunction(Stale()) && forall b, d :: HasEdge(CfgOf(Stale()), b, d) <==> b < 3 && d == b + 1
  {
    hide Stale, BlockTargets, HasEdge, CfgOf;
    StaleBlocks();
    forall b: BlockId | b < 4
      ensures b in Stale().blocks && BlockTargets(Stale().blocks[b]) == if b < 3 then [b + 1] else []
    {
      StaleTargets(b);
    }
    StaleValid();
    forall b, d
      ensures HasEdge(CfgOf(Stale()), b, d) <==> b < 3 && d == b + 1
    {
      CfgEdges(Stale(), b, d);
    }
  }

  lemma StaleValid()
    ensures ValidFunction(Stale())
  {
    hide Stale, BlockTargets;
    StaleBlocks();
    forall b, d | b in Stale().blocks && d in BlockTargets(Stale().blocks[b])
      ensures d in Stale().blocks
    {
      StaleTargets(b);
    }
  }

  lemma StaleReachable()
    ensures ValidFunction(Stale()) && forall b: BlockId :: b < 4 ==> Reachable(CfgOf(Stale()), b)
  {
    hide Stale, HasEdge, CfgOf, Reachable;
    StaleBlocks();
    StaleEdges();
    EntryIsFirst();
    EntryReachable(CfgOf(Stale()));
    ReachableStep(CfgOf(Stale()), 0, 1);
    ReachableStep(CfgOf(Stale()), 1, 2);
    ReachableStep(CfgOf(Stale()), 2, 3);
  }

  lemma EntryIsFirst()
    ensures ValidFunction(Stale()) && CfgOf(Stale()).entry == 0
  {
    StaleValid();
  }

  lemma StaleDominance()
    ensures ValidFunction(Stale()) && Dom(CfgOf(Stale()), 1, 3)
  {
    hide Stale, HasEdge, CfgOf, Reachable, Dom;
    StaleEdges();
    StaleReachable();
    EntryIsFirst();
    F.SinglePredDominates(CfgOf(Stale()), 1, 2);
    F.SinglePredDominates(CfgOf(Stale()), 2, 3);
    DomTrans(CfgOf(Stale()), 1, 2, 3);
  }

  function PhiAt(): Places {
    map[1 := Pos(1, 0)]
  }

  lemma StaleAvail(p: Pos)
    requires Within(Stale(), p)
    ensures ValidFunction(Stale()) && OperandsAvail(Stale(), PhiAt(), p) && IncomingAvail(Stale(), PhiAt(), p)
  {
    hide Stale, Dom, CfgOf, ValidFunction;
    StaleDominance();
    StaleInst(p);
  }

  lemma StaleForm()
    ensures WellFormed(Stale(), PhiAt())
  {
    hide Stale, Located, OperandsAvail, IncomingAvail, ValidFunction;
    var f := Stale();
    StaleBlocks();
    StaleValid();
    StaleLocated();
    forall p | Within(f, p)
      ensures OperandsAvail(f, PhiAt(), p) && IncomingAvail(f, PhiAt(), p)
      ensures IsTerminator(InstAt(f, p)) ==> p.index == |f.blocks[p.block]| - 1
    {
      StaleAvail(p);
      StaleInst(p);
    }
  }

  lemma StaleLocated()
    ensures Located(Stale(), PhiAt())
  {
    hide Stale;
    StaleBlocks();
    forall p | Within(Stale(), p)
      ensures DefinesValue(InstAt(Stale(), p)) ==> p == Pos(1, 0) && InstAt(Stale(), p) == ThePhi()
    {
      StaleInst(p);
    }
  }

  lemma StaleParts()
    ensures C.PhisCopyable(Stale()) && C.RetsDiffer(Stale())
    ensures forall b :: b in Stale().blocks ==> M.BlockOk(Stale().blocks[b], 5)
    ensures forall p :: Within(Stale(), p) ==> C.InClass(Stale(), p)
  {
    hide Stale;
    StaleBlocks();
    forall p | Within(Stale(), p)
      ensures C.InClass(Stale(), p) && (InstAt(Stale(), p).PhiInst? ==> InstAt(Stale(), p) == ThePhi())
      ensures InstAt(Stale(), p).RetInst? ==> p == Pos(3, 0)
    {
      StaleInst(p);
    }
    assert 0 in ThePhi().incoming;
  }

  /** The backend takes the function. */
  lemma StaleIsCompilable()
    ensures C.Compilable(Stale(), PhiAt(), 5)
  {
    hide Stale, WellFormed, C.PhisCopyable, C.RetsDiffer, M.BlockOk, C.InClass;
    StaleForm();
    StaleParts();
  }

  // ---- What it returns, and what its code returns

  lemma StaleInsts()
    ensures forall b :: b in Stale().order ==> b in Stale().blocks
    ensures InstsOf(Stale()) == [BranchInst(0, 1), ThePhi(), BranchInst(2, 2), BranchInst(3, 3), RetInst(4, Def(1))]
  {
    hide Stale;
    StaleBlocks();
    var f := Stale();
    assert InstsUpTo(f, 1) == [BranchInst(0, 1)];
    assert InstsUpTo(f, 2) == [BranchInst(0, 1), ThePhi(), BranchInst(2, 2)];
    assert InstsUpTo(f, 3) == [BranchInst(0, 1), ThePhi(), BranchInst(2, 2), BranchInst(3, 3)];
  }

  lemma StaleCopies(b: BlockId, env: Env)
    ensures forall c :: c in Stale().order ==> c in Stale().blocks
    ensures var all := InstsOf(Stale());
      CopyInOrder(all, |all|, b, env) == if b == 0 then env[1 := 5] else if b == 2 then env[1 := 7] else env
    ensures Held(InstsOf(Stale()), |InstsOf(Stale())|, b, Def(1))
         == if b == 0 then Const(5) else if b == 2 then Const(7) else Def(1)
  {
    hide Stale, InstsOf;
    StaleInsts();
    var all := InstsOf(Stale());
    assert CopyInOrder(all, 1, b, env) == env;
    var copied := CopyInOrder(all, 2, b, env);
    assert CopyInOrder(all, 3, b, env) == copied;
    assert CopyInOrder(all, 4, b, env) == copied;
    assert Held(all, 3, b, Def(1)) == Held(all, 2, b, Def(1));
    assert Held(all, 4, b, Def(1)) == Held(all, 3, b, Def(1));
    assert Held(all, 5, b, Def(1)) == Held(all, 4, b, Def(1));
    HeldWithoutCopies(all, 1, b, if b == 0 then Const(5) else if b == 2 then Const(7) else Def(1));
  }

  lemma BranchExec(id: nat, d: BlockId, st: State)
    ensures ExecInsts([BranchInst(id, d)], st) == Jump(d, st)
    ensures ExecInsts([ThePhi(), BranchInst(id, d)], st) == Jump(d, st)
  {
    assert [ThePhi(), BranchInst(id, d)][1..] == [BranchInst(id, d)];
  }

  lemma Enters(d: BlockId, b: BlockId, env: Env)
    requires d < 4
    ensures d in Stale().blocks
    ensures Lookup(EnterEnv(Stale().blocks[d], b, env), 1)
         == if d == 1 then (if b == 0 then Some(5) else if b == 2 then Some(7) else None) else Lookup(env, 1)
  {
    StaleBlocks();
    EnterLookup(Stale().blocks[d], b, env, 1);
  }

  /** The function returns 5. */
  lemma StaleReturns(mem: Memory)
    ensures |Stale().order| > 0
    ensures var o := R.CallStart(Stale(), mem);
      SmallRun(Stale(), o, 4) && Run(Stale(), o, 4).Return? && Run(Stale(), o, 4).word == 5
  {
    hide Stale, ExecInsts, EnterEnv;
    var f := Stale();
    StaleBlocks();
    var o := R.CallStart(f, mem);
    BranchExec(0, 1, o.st);
    Enters(1, 0, o.st.env);
    var o1 := StepBlock(f, 0, o.st);
    BranchExec(2, 2, o1.st);
    Enters(2, 1, o1.st.env);
    var o2 := StepBlock(f, 1, o1.st);
    BranchExec(3, 3, o2.st);
    Enters(3, 2, o2.st.env);
    var o3 := StepBlock(f, 2, o2.st);
    RetExec(4, o3.st);
    NothingCompared(f.blocks[0], o.st);
    NothingCompared(f.blocks[1], o1.st);
    NothingCompared(f.blocks[2], o2.st);
    NothingCompared(f.blocks[3], o3.st);
  }

  lemma RetExec(id: nat, st: State)
    requires 1 in st.env
    ensures ExecInsts([RetInst(id, Def(1))], st) == Return(st.env[1], st)
  {
  }

  lemma NothingCompared(b: Block, st: State)
    requires b != [] && forall k :: 0 <= k < |b| ==> !b[k].CompareInst?
    ensures SmallCompares(b, |b| - 1, st)
  {
    hide ExecInsts;
  }

  lemma StaleCopying()
    ensures ValidFunction(Stale()) && Shaped(Stale()) && (forall c :: c in Stale().order ==> c in Stale().blocks)
    ensures CopyingFor(Stale()).phis == InstsOf(Stale())
  {
    hide ValidFunction, InstsOf, CutOf;
    StaleValid();
  }

  lemma PhiExec(st: State)
    ensures ExecInsts([ThePhi()], st) == Fell(st)
  {
    assert [ThePhi()][1..] == [];
    assert ExecInsts([], st) == Fell(st);
  }

  // A branch: the copies are made for it.
  lemma StepAcross(b: BlockId, st: State)
    requires b < 3
    ensures ValidFunction(Stale()) && Shaped(Stale())
    ensures var c := CopyingFor(Stale()); StepCopies(Stale(), c, b, st) == Jump(b + 1, Copied(c, b, st))
  {
    hide ValidFunction, CopyingFor, Shaped, Copied, ReadState, Stale;
    StaleCopying();
    StaleBlocks();
    var block := Stale().blocks[b];
    if b == 1 {
      assert block[..1] == [ThePhi()];
      PhiExec(st);
    } else {
      assert block[..0] == [];
    }
  }

  lemma StepExit(st: State)
    requires 1 in st.env
    ensures ValidFunction(Stale()) && Shaped(Stale())
    ensures StepCopies(Stale(), CopyingFor(Stale()), 3, st) == Return(st.env[1], st)
  {
    hide ValidFunction, CopyingOf, Shaped, InstsOf, CopyInOrder;
    StaleCopying();
    StaleInsts();
    StaleBlocks();
    var c := CopyingFor(Stale());
    NothingIsCopied(c.phis, ReadAfter(c, 3), 3, st.env);
  }

  // With copies for the phi, 7.
  lemma CopiesReturn(mem: Memory)
    ensures |Stale().order| > 0 && ValidFunction(Stale()) && Shaped(Stale())
    ensures var c, o := CopyingFor(Stale()), R.CallStart(Stale(), mem);
      SmallCopyRun(Stale(), c, o, 4) && RunCopies(Stale(), c, o, 4).Return? && RunCopies(Stale(), c, o, 4).word == 7
  {
    hide Stale, ExecInsts, InstsOf, CopyInOrder, CopyingFor, StepCopies, ValidFunction, Shaped, Held;
    var f := Stale();
    StaleBlocks();
    StaleCopying();
    var c, o := CopyingFor(f), R.CallStart(f, mem);
    StepAcross(0, o.st);
    StaleCopies(0, o.st.env);
    var o1 := StepCopies(f, c, 0, o.st);
    StepAcross(1, o1.st);
    StaleCopies(1, o1.st.env);
    var o2 := StepCopies(f, c, 1, o1.st);
    StepAcross(2, o2.st);
    StaleCopies(2, o2.st.env);
    var o3 := StepCopies(f, c, 2, o2.st);
    StepExit(o3.st);
    NothingCompared(f.blocks[0], o.st);
    NothingCompared(f.blocks[1], o1.st);
    NothingCompared(f.blocks[2], o2.st);
    NothingCompared(f.blocks[3], o3.st);
  }

  /** So does every call of the code that the backend emits, which therefore does not keep the meaning. */
  lemma StaleCodeReturns(code: MachineRun.Program, size: nat, m: X86.Machine)
    requires C.Faithful(Stale(), code, size)
    ensures C.CallReturns(code, m, 7) && !C.KeepsMeaning(Stale(), code)
  {
    hide Stale, CopyingFor, RunCopies, SmallCopyRun, Run, SmallRun, C.CallReturns, C.KeepsFrames, C.AlwaysInFrame,
      CopiesHarmless, C.EntryNotTarget, ValidFunction, Shaped;
    StaleReturns(map[]);
    CopiesReturn(map[]);
    assert C.SameAsCopies(Stale(), code, map[], 4, m);
    if C.KeepsMeaning(Stale(), code) {
      assert C.SameResult(Stale(), code, map[], 4, m);
      C.ReturnsOnce(code, m, 5, 7);
    }
  }

  /** The phi is live behind the block with the stale copy. */
  lemma StaleIsLive()
    ensures ValidFunction(Stale()) && LiveAt(Stale(), 1, 3) && Overwritten(Stale(), 2, 1) && !StaleHarmless(Stale())
  {
    hide Stale, HasEdge, CfgOf, Reachable, InstsOf, Held, LiveAt;
    StaleBlocks();
    StaleEdges();
    StaleReachable();
    StaleCopies(2, map[]);
    assert InstAt(Stale(), Pos(3, 0)) == RetInst(4, Def(1));
    assert Def(1) in Operands(InstAt(Stale(), Pos(3, 0)));
    ReadIsLive(Stale(), 1, 3);
    NoPhiThere();
    assert Matters(Stale(), 2, 3, 1);
  }

  lemma NoPhiThere()
    ensures !HasPhi(Stale(), 3, 1)
  {
    StaleBlocks();
  }
}

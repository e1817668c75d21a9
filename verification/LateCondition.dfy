/** A countdown whose branch tests the phi of its own block: the emitted code tests the next value instead. */
module LateCondition {
  import opened Words
  import opened Graph
  import opened Dominance
  import opened Ir
  import opened Ssa
  import opened PhiCopies
  import opened CopyRuns
  import opened Liveness
  import opened KeptResults
  import opened BlockSim
  import X86
  import MachineRun
  import C = Compilation
  import F = ConstantFolder
  import M = MoveInserter
  import R = Reentry

  function Counter(): Inst {
    PhiInst(1, map[0 := Const(2), 1 := Def(2)])
  }

  function Less(): Inst {
    BinaryInst(2, Sub, Def(1), Const(1))
  }

  function Test(): Inst {
    CondBranchInst(3, Def(1), 1, 2)
  }

  // Counts down from 2, leaves when the value before the step was 1, and returns the value behind it.
  function Countdown(): Function {
    Function([0, 1, 2], map[0 := [BranchInst(0, 1)], 1 := [Counter(), Less(), Test()], 2 := [RetInst(4, Def(2))]])
  }

  lemma Blocks()
    ensures var f := Countdown(); f.order == [0, 1, 2] && forall b: BlockId :: b in f.blocks <==> b < 3
    ensures Countdown().blocks[0] == [BranchInst(0, 1)] && Countdown().blocks[1] == [Counter(), Less(), Test()]
    ensures Countdown().blocks[2] == [RetInst(4, Def(2))]
  {
  }

  function PlaceList(): seq<(Pos, Inst)> {
    [(Pos(0, 0), BranchInst(0, 1)), (Pos(1, 0), Counter()), (Pos(1, 1), Less()), (Pos(1, 2), Test()),
     (Pos(2, 0), RetInst(4, Def(2)))]
  }

  lemma InstIs(p: Pos)
    requires Within(Countdown(), p)
    ensures p == Pos(0, 0) || p == Pos(1, 0) || p == Pos(1, 1) || p == Pos(1, 2) || p == Pos(2, 0)
    ensures (p, InstAt(Countdown(), p)) in PlaceList()
  {
    var k := if p.block < 2 then p.block + p.index else 4;
    assert PlaceList()[k] == (p, InstAt(Countdown(), p));
  }

  // Where control goes.
  predicate Goes(b: BlockId, d: BlockId) {
    (b == 0 && d == 1) || (b == 1 && (d == 1 || d == 2))
  }

  lemma Targets(b: BlockId)
    requires b < 3
    ensures b in Countdown().blocks && forall d :: d in BlockTargets(Countdown().blocks[b]) <==> Goes(b, d)
  {
    Blocks();
    if b == 1 {
      var block := Countdown().blocks[1];
      assert block[1..] == [Less(), Test()] && block[1..][1..] == [Test()] && [Test()][1..] == [];
    } else {
      assert Countdown().blocks[b][1..] == [];
    }
  }

  lemma Valid()
    ensures ValidFunction(Countdown()) && CfgOf(Countdown()).entry == 0
  {
    hide BlockTargets;
    Blocks();
    forall b, d | b in Countdown().blocks && d in BlockTargets(Countdown().blocks[b])
      ensures d in Countdown().blocks
    {
      Targets(b);
    }
  }

  lemma Edges()
    ensures ValidFunction(Countdown()) && forall b, d :: HasEdge(CfgOf(Countdown()), b, d) <==> Goes(b, d)
  {
    hide Countdown, BlockTargets, HasEdge, CfgOf;
    Blocks();
    Valid();
    forall b, d
      ensures HasEdge(CfgOf(Countdown()), b, d) <==> Goes(b, d)
    {
      CfgEdges(Countdown(), b, d);
      if b < 3 {
        Targets(b);
      }
    }
  }

  lemma AllReached()
    ensures ValidFunction(Countdown()) && forall b: BlockId :: b < 3 ==> Reachable(CfgOf(Countdown()), b)
    ensures Dom(CfgOf(Countdown()), 1, 2) && CanRun(Countdown(), 1)
  {
    hide Countdown, HasEdge, CfgOf, Reachable;
    Blocks();
    Edges();
    Valid();
    var g := CfgOf(Countdown());
    EntryReachable(g);
    ReachableStep(g, 0, 1);
    ReachableStep(g, 1, 2);
    F.SinglePredDominates(g, 1, 2);
  }

  function ResultsAt(): Places {
    map[1 := Pos(1, 0), 2 := Pos(1, 1)]
  }

  lemma Available(p: Pos)
    requires Within(Countdown(), p)
    ensures ValidFunction(Countdown()) && OperandsAvail(Countdown(), ResultsAt(), p)
    ensures IncomingAvail(Countdown(), ResultsAt(), p)
  {
    hide Countdown, Dom, CfgOf, ValidFunction;
    Blocks();
    AllReached();
    InstIs(p);
  }

  lemma InForm()
    ensures WellFormed(Countdown(), ResultsAt())
  {
    hide Countdown, Located, OperandsAvail, IncomingAvail, ValidFunction;
    var f := Countdown();
    Blocks();
    Valid();
    AllLocated();
    forall p | Within(f, p)
      ensures OperandsAvail(f, ResultsAt(), p) && IncomingAvail(f, ResultsAt(), p)
      ensures IsTerminator(InstAt(f, p)) ==> p.index == |f.blocks[p.block]| - 1
    {
      Available(p);
      InstIs(p);
    }
  }

  lemma AllLocated()
    ensures Located(Countdown(), ResultsAt())
  {
    Blocks();
  }

  lemma Parts()
    ensures C.PhisCopyable(Countdown()) && C.RetsDiffer(Countdown())
    ensures forall b :: b in Countdown().blocks ==> M.BlockOk(Countdown().blocks[b], 5)
    ensures forall p :: Within(Countdown(), p) ==> C.InClass(Countdown(), p)
  {
    hide Countdown;
    Blocks();
    forall p | Within(Countdown(), p)
      ensures C.InClass(Countdown(), p) && (InstAt(Countdown(), p).PhiInst? ==> InstAt(Countdown(), p) == Counter())
      ensures InstAt(Countdown(), p).RetInst? ==> p == Pos(2, 0)
    {
      InstIs(p);
    }
    assert 0 in Counter().incoming;
  }

  /** The backend takes the function. */
  lemma CountdownIsCompilable()
    ensures C.Compilable(Countdown(), ResultsAt(), 5)
  {
    hide Countdown, WellFormed, C.PhisCopyable, C.RetsDiffer, M.BlockOk, C.InClass;
    InForm();
    Parts();
  }

  // ---- What it returns

  // The counter is c when the block is entered.
  lemma BlockExec(c: Word, st: State)
    requires 1 in st.env && st.env[1] == c && 0 < c < 256
    ensures ExecInsts([Counter(), Less()], st) == Fell(st.(env := st.env[2 := c - 1]))
    ensures ExecInsts([Counter(), Less(), Test()], st) == Jump(if c == 1 then 2 else 1, st.(env := st.env[2 := c - 1]))
  {
    hide ExecInsts;
    var st' := st.(env := st.env[2 := c - 1]);
    SubtractOne(c, st);
    TestExec(st');
    FirstExec(Counter(), [Less()], st);
    FirstExec(Less(), [], st);
    NothingExec(st');
    assert [Less()] + [] == [Less()] && [Counter()] + [Less()] == [Counter(), Less()];
    assert [Counter(), Less(), Test()] == [Counter(), Less()] + [Test()];
    ExecAppend([Counter(), Less()], [Test()], st);
    OneInst(Test(), st');
  }

  lemma SubtractOne(c: Word, st: State)
    requires 1 in st.env && st.env[1] == c && 0 < c < 256
    ensures ExecInst(Less(), st) == Fell(st.(env := st.env[2 := c - 1])) && ExecInst(Counter(), st) == Fell(st)
  {
  }

  lemma TestExec(st: State)
    requires 1 in st.env
    ensures ExecInst(Test(), st) == Jump(if st.env[1] == 1 then 2 else 1, st)
  {
  }

  lemma FirstExec(i: Inst, rest: Block, st: State)
    ensures var o := ExecInst(i, st); ExecInsts([i] + rest, st) == if o.Fell? then ExecInsts(rest, o.st) else o
  {
    assert ([i] + rest)[1..] == rest;
  }

  lemma NothingExec(st: State)
    ensures ExecInsts([], st) == Fell(st)
  {
  }

  lemma EndsExec(st: State)
    ensures ExecInsts([BranchInst(0, 1)], st) == Jump(1, st)
    ensures 2 in st.env ==> ExecInsts([RetInst(4, Def(2))], st) == Return(st.env[2], st)
  {
  }

  lemma Enters(d: BlockId, b: BlockId, env: Env)
    requires d < 3 && b < 2
    ensures d in Countdown().blocks
    ensures var e := EnterEnv(Countdown().blocks[d], b, env);
      Lookup(e, 2) == Lookup(env, 2)
        && Lookup(e, 1) == if d != 1 then Lookup(env, 1) else if b == 0 then Some(2) else Lookup(env, 2)
  {
    Blocks();
    EnterLookup(Countdown().blocks[d], b, env, 1);
    EnterLookup(Countdown().blocks[d], b, env, 2);
  }

  lemma NothingCompared(b: Block, st: State)
    requires b != [] && forall k :: 0 <= k < |b| ==> !b[k].CompareInst?
    ensures SmallCompares(b, |b| - 1, st)
  {
    hide ExecInsts;
  }

  /** The function returns 0. */
  lemma CountdownReturns(mem: Memory)
    ensures |Countdown().order| > 0
    ensures var o := R.CallStart(Countdown(), mem);
      SmallRun(Countdown(), o, 4) && Run(Countdown(), o, 4).Return? && Run(Countdown(), o, 4).word == 0
  {
    hide Countdown, ExecInsts, EnterEnv;
    var f := Countdown();
    Blocks();
    var o := R.CallStart(f, mem);
    EndsExec(o.st);
    Enters(1, 0, o.st.env);
    var o1 := StepBlock(f, 0, o.st);
    BlockExec(2, o1.st);
    Enters(1, 1, o1.st.env[2 := 1]);
    var o2 := StepBlock(f, 1, o1.st);
    BlockExec(1, o2.st);
    Enters(2, 1, o2.st.env[2 := 0]);
    var o3 := StepBlock(f, 1, o2.st);
    EndsExec(o3.st);
    NothingCompared(f.blocks[0], o.st);
    NothingCompared(f.blocks[1], o1.st);
    NothingCompared(f.blocks[1], o2.st);
    NothingCompared(f.blocks[2], o3.st);
  }

  // ---- What its code returns

  lemma InstsAre()
    ensures forall b :: b in Countdown().order ==> b in Countdown().blocks && Countdown().blocks[b] != []
    ensures InstsOf(Countdown()) == [BranchInst(0, 1), Counter(), Less(), Test(), RetInst(4, Def(2))]
    ensures CutOf(Countdown(), 1) == 3
  {
    hide Countdown;
    Blocks();
    var f := Countdown();
    assert InstsUpTo(f, 1) == [BranchInst(0, 1)];
    assert InstsUpTo(f, 2) == [BranchInst(0, 1), Counter(), Less(), Test()];
    assert f.order[1..][0] == 1;
  }

  // The copies for the counter are all made when the branch reads it.
  lemma CopyingIs()
    ensures ValidFunction(Countdown()) && Shaped(Countdown())
    ensures CopyingFor(Countdown()).phis == InstsOf(Countdown()) && ReadAfter(CopyingFor(Countdown()), 1) == 3
  {
    hide Countdown, ValidFunction, InstsOf, CutOf;
    Valid();
    Blocks();
    InstsAre();
    var c := CopyingFor(Countdown());
    assert Countdown().blocks[1][2] == Test();
    assert !PhiFrom(InstsOf(Countdown()), 3, 1);
    assert 1 !in c.shared;
    assert Cut(c, 1) == 3;
  }

  lemma CopiesAre(b: BlockId, env: Env)
    requires b == 0 || b == 1
    ensures InstsOf(Countdown()) == [BranchInst(0, 1), Counter(), Less(), Test(), RetInst(4, Def(2))]
    ensures CopyInOrder(InstsOf(Countdown()), 5, b, env)
         == if b == 0 then env[1 := 2] else Bind(env, 1, Lookup(env, 2))
    ensures CopyInOrder(InstsOf(Countdown()), 3, b, env) == CopyInOrder(InstsOf(Countdown()), 5, b, env)
    ensures b == 1 ==> Held(InstsOf(Countdown()), 3, b, Def(1)) == Def(2)
  {
    hide Countdown, InstsOf;
    InstsAre();
    var all := InstsOf(Countdown());
    assert CopyInOrder(all, 1, b, env) == env;
    var copied := CopyInOrder(all, 2, b, env);
    assert CopyInOrder(all, 3, b, env) == copied;
    assert CopyInOrder(all, 4, b, env) == copied;
    assert Held(all, 3, 1, Def(1)) == Held(all, 2, 1, Def(1));
    assert Held(all, 1, 1, Def(2)) == Held(all, 0, 1, Def(2));
  }

  lemma StepEntry(st: State)
    ensures ValidFunction(Countdown()) && Shaped(Countdown())
    ensures var c := CopyingFor(Countdown());
      StepCopies(Countdown(), c, 0, st) == Jump(1, st.(env := st.env[1 := 2]))
  {
    hide Countdown, ValidFunction, Shaped, CopyingFor, InstsOf, CopyInOrder, ReadAfter;
    Blocks();
    CopyingIs();
    CopiesAre(0, st.env);
    assert Countdown().blocks[0][..0] == [];
  }

  lemma StepTest(st: State)
    requires 1 in st.env && st.env[1] == 2
    ensures ValidFunction(Countdown()) && Shaped(Countdown())
    ensures var c := CopyingFor(Countdown());
      StepCopies(Countdown(), c, 1, st) == Jump(2, st.(env := st.env[2 := 1][1 := 1]))
  {
    hide Countdown, ValidFunction, Shaped, CopyingFor, InstsOf, CopyInOrder, ReadAfter, ExecInsts;
    Blocks();
    CopyingIs();
    BlockExec(2, st);
    CopiesAre(1, st.env[2 := 1]);
    assert Countdown().blocks[1][..2] == [Counter(), Less()];
    TestExec(st.(env := st.env[2 := 1][1 := 1]));
  }

  lemma StepExit(st: State)
    requires 2 in st.env
    ensures ValidFunction(Countdown()) && Shaped(Countdown())
    ensures StepCopies(Countdown(), CopyingFor(Countdown()), 2, st) == Return(st.env[2], st)
  {
    hide Countdown, ValidFunction, Shaped, CopyingFor, InstsOf, CopyInOrder;
    Blocks();
    CopyingIs();
    InstsAre();
    var c := CopyingFor(Countdown());
    NothingIsCopied(c.phis, ReadAfter(c, 2), 2, st.env);
    assert Countdown().blocks[2][..0] == [];
  }

  // With copies for the phi, 1.
  lemma CopiesReturn(mem: Memory)
    ensures |Countdown().order| > 0 && ValidFunction(Countdown()) && Shaped(Countdown())
    ensures var c, o := CopyingFor(Countdown()), R.CallStart(Countdown(), mem);
      SmallCopyRun(Countdown(), c, o, 3) && RunCopies(Countdown(), c, o, 3).Return?
        && RunCopies(Countdown(), c, o, 3).word == 1
  {
    hide Countdown, ExecInsts, CopyingFor, StepCopies, ValidFunction, Shaped;
    var f := Countdown();
    Blocks();
    CopyingIs();
    var c, o := CopyingFor(f), R.CallStart(f, mem);
    StepEntry(o.st);
    var o1 := StepCopies(f, c, 0, o.st);
    StepTest(o1.st);
    var o2 := StepCopies(f, c, 1, o1.st);
    StepExit(o2.st);
    NothingCompared(f.blocks[0], o.st);
    NothingCompared(f.blocks[1], o1.st);
    NothingCompared(f.blocks[2], o2.st);
  }

  /** Every call of the code that the backend emits returns 1. */
  lemma CountdownCodeReturns(code: MachineRun.Program, size: nat, m: X86.Machine)
    requires C.Faithful(Countdown(), code, size)
    ensures C.CallReturns(code, m, 1) && !C.KeepsMeaning(Countdown(), code)
  {
    hide Countdown, CopyingFor, RunCopies, SmallCopyRun, Run, SmallRun, C.CallReturns, C.KeepsFrames, C.AlwaysInFrame,
      CopiesHarmless, C.EntryNotTarget, ValidFunction, Shaped;
    CountdownReturns(map[]);
    CopiesReturn(map[]);
    assert C.SameAsCopies(Countdown(), code, map[], 3, m);
    if C.KeepsMeaning(Countdown(), code) {
      assert C.SameResult(Countdown(), code, map[], 4, m);
      C.ReturnsOnce(code, m, 0, 1);
    }
  }

  lemma TestReadsLate()
    ensures ValidFunction(Countdown()) && Shaped(Countdown()) && 1 in Countdown().blocks
    ensures LastInst(Countdown(), 1) == Test() && !ReadsRight(CopyingFor(Countdown()), 1, Test())
  {
    hide Countdown, ValidFunction, Shaped, CopyingFor, InstsOf, Held, ReadAfter;
    Blocks();
    CopyingIs();
    CopiesAre(1, map[]);
    assert Def(1) in Operands(Test());
  }

  /** The condition has been overwritten when it is read. */
  lemma ConditionOverwritten()
    ensures ValidFunction(Countdown()) && Shaped(Countdown()) && !BranchesServed(Countdown())
  {
    hide Countdown, ValidFunction, Shaped, CopyingFor, ReadsRight, LastInst, CanRun;
    AllReached();
    TestReadsLate();
  }
}

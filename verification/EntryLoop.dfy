/** A function whose only block branches to itself: its code comes back to the prologue and leaves its frame. */
module EntryLoop {
  import opened Words
  import opened X86
  import opened Graph
  import opened Dominance
  import opened Ir
  import opened Ssa
  import opened MachineRun
  import opened Backend
  import opened StackFrame
  import opened BlockSim
  import opened ProgramSim
  import opened FrameSafety
  import C = Compilation
  import M = MoveInserter

  function Spin(): Function {
    Function([0], map[0 := [BranchInst(0, 0)]])
  }

  function SpinCode(): Program {
    EntryCode() + [Machine64(OpJmp, [Label(0)])]
  }

  lemma SpinFlow()
    ensures ValidFunction(Spin()) && HasEdge(CfgOf(Spin()), 0, 0)
  {
    assert BlockTargets(Spin().blocks[0]) == [0];
    CfgEdges(Spin(), 0, 0);
  }

  lemma SpinForm()
    ensures WellFormed(Spin(), map[])
  {
    hide CfgOf, Dom, Reachable, ValidFunction, Spin;
    var f := Spin();
    SpinFlow();
    SpinBlocks();
    forall p | Within(f, p)
      ensures p == Pos(0, 0) && InstAt(f, p) == BranchInst(0, 0)
    {
    }
  }

  lemma SpinBlocks()
    ensures Spin().order == [0] && 0 in Spin().blocks && Spin().blocks[0] == [BranchInst(0, 0)]
  {
  }

  lemma SpinParts()
    ensures C.PhisCopyable(Spin()) && C.RetsDiffer(Spin()) && M.BlockOk(Spin().blocks[0], 1)
    ensures forall p :: Within(Spin(), p) ==> C.InClass(Spin(), p)
  {
  }

  /** The backend takes the function. */
  lemma SpinIsCompilable()
    ensures C.Compilable(Spin(), map[], 1)
  {
    hide WellFormed, C.PhisCopyable, C.RetsDiffer, M.BlockOk, C.InClass;
    SpinForm();
    SpinParts();
  }

  /** And emits this code for it. */
  lemma SpinIsEmitted()
    ensures forall b :: b in [0] ==> BlockEmittable(Spin(), map[], map[0 := 0], b)
    ensures Code(Spin(), map[], map[0 := 0], [0], 1) == SpinCode()
  {
    var f, labels: Labels, order: seq<BlockId> := Spin(), map[0 := 0], [0];
    assert BlockEmittable(f, map[], labels, 0);
    var block := f.blocks[0];
    assert EmitBlock(map[], labels, block, 1) == EmitBlock(map[], labels, block, 0) + EmitInst(map[], labels, block[0]);
    assert BlockStart(f, labels, 0) == EntryCode();
    assert Code(f, map[], labels, order, 1) == Code(f, map[], labels, order, 0) + BlockCode(f, map[], labels, order[0]);
  }

  // The prologue once more, eight bytes lower, for any machine.
  lemma SpinGoesRound(fr: Frame, m: Machine)
    requires FrameOf(fr, m)
    ensures Steps(SpinCode(), At(0, m), 4) == At(0, AfterPrologue(fr, m))
  {
    hide Read64, Write64, EvalBinary, Steps;
    PrologueSteps(SpinCode(), fr, m);
    var m1 := AfterPrologue(fr, m);
    StepOnce(SpinCode(), 3, m1);
    assert SpinCode()[3] == Machine64(OpJmp, [Label(0)]);
    StepsAppend(SpinCode(), At(0, m), 3, 1);
  }

  function Start(): Machine {
    Machine(seq(16, i => if i == RSP then 1000 else 0), None, map[])
  }

  /** Already the second push writes outside the frame, which has no slots. */
  lemma SpinLeavesFrame()
    ensures !FrameSafe(SpinCode(), 0, Start(), 6)
  {
    hide Write64, Steps, Outside;
    var m := Start();
    var fr := Frame(992, 0, 0, map[], map[], {});
    NothingStored(1000);
    assert FrameOf(fr, m);
    SpinGoesRound(fr, m);
    var m1 := AfterPrologue(fr, m);
    var fr1 := Frame(984, 992, Read64(m1.mem, 992), map[], map[], {});
    assert FrameOf(fr1, m1);
    PrologueSteps(SpinCode(), fr1, m1);
    StepsAppend(SpinCode(), At(0, m), 4, 2);
    SecondPush(m1.mem);
  }

  lemma NothingStored(a: Word)
    ensures Read64(map[], a) == 0
  {
  }

  lemma SecondPush(mem: Memory)
    ensures !SameOutside(992, 0, map[], Write64(mem, 984, 992))
  {
    hide Write64, SameOutside;
    ReadOverWrite(mem, 984, 992, 984);
    if SameOutside(992, 0, map[], Write64(mem, 984, 992)) {
      StillEmpty(Write64(mem, 984, 992));
    }
  }

  lemma StillEmpty(after: Memory)
    requires SameOutside(992, 0, map[], after)
    ensures Read64(after, 984) == 0
  {
    forall x: Word | 984 <= x < 992
      ensures ByteAt(after, x) == 0
    {
      assert Outside(992, 0, x);
    }
  }
}

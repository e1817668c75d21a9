/** Runs of the emitted program follow runs of the function, block by block. */
module ProgramSim {
  import opened Words
  import opened X86
  import opened Graph
  import opened Ir
  import opened Ssa
  import opened MachineRun
  import opened Backend
  import opened StackFrame
  import opened PhiCopies
  import opened BlockSim
  import opened CodeLayout
  import opened CopyRuns
  import opened Reentry
  import M = MoveInserter
  import A = RegAllocator

  // A function f and what the backend made of it; keys are the values whose registers hold the conditions of
  // its branches, allocs the slots put in front of its entry; c says how the copies stand that replace its phis.
  datatype Unit = Unit(f: Function, n: Naming, base: nat, keys: map<BlockId, Value>, allocs: seq<nat>, l: Layout,
                       c: Copying)

  function LastOf(b: Block): Inst
    requires b != []
  {
    b[|b| - 1]
  }

  ghost predicate BlockWellShaped(fr: Frame, n: Naming, b: Block) {
    b != [] && IsTerminator(LastOf(b)) && BodyOk(fr, n, b, |b| - 1) && InstOk(fr, n, LastOf(b))
  }

  // The parts of what a block has become: its body, the copies in front of what its terminator reads, what stands in
  // front of the exit, the other copies, and the exit.
  ghost function BodyPart(u: Unit, b: BlockId): Block
    requires b in u.f.blocks && u.f.blocks[b] != []
  {
    BodyCode(u.n, u.base, u.f.blocks[b], |u.f.blocks[b]| - 1)
  }

  ghost function EarlyPart(u: Unit, b: BlockId): Block {
    Final(u.n, M.CopiesIn(u.c.phis, 0, Cut(u.c, b), b))
  }

  ghost function LatePart(u: Unit, b: BlockId): Block {
    Final(u.n, M.CopiesIn(u.c.phis, Cut(u.c, b), |u.c.phis|, b))
  }

  ghost predicate HasEnd(u: Unit, b: BlockId) {
    b in u.f.blocks && u.f.blocks[b] != [] && b in u.keys && IsTerminator(LastOf(u.f.blocks[b]))
  }

  ghost function FrontPart(u: Unit, b: BlockId): Block
    requires HasEnd(u, b)
  {
    Final(u.n, M.Front(u.base, u.keys[b], LastOf(u.f.blocks[b])))
  }

  ghost function ExitPart(u: Unit, b: BlockId): Block
    requires HasEnd(u, b)
  {
    Final(u.n, [M.Exit(u.base, u.keys[b], LastOf(u.f.blocks[b]))])
  }

  ghost function EndPart(u: Unit, b: BlockId): Block
    requires HasEnd(u, b)
  {
    EarlyPart(u, b) + FrontPart(u, b) + LatePart(u, b) + ExitPart(u, b)
  }

  // What the block has become.
  ghost predicate BlockLowered(u: Unit, b: BlockId) {
    && HasEnd(u, b) && b in u.l.h.blocks && |u.l.h.order| > 0
    && u.l.h.blocks[b] == (if b == Entry(u.l.h) then A.AllocInsts(u.allocs) else []) + (BodyPart(u, b) + EndPart(u, b))
  }

  // A block that is jumped to is emitted.
  ghost predicate TargetOk(u: Unit, d: BlockId) {
    d in u.f.blocks && d in u.l.order && |u.l.h.order| > 0
  }

  ghost predicate TerminatorOk(u: Unit, fr: Frame, b: BlockId)
    requires b in u.f.blocks && u.f.blocks[b] != [] && b in u.keys
  {
    match LastOf(u.f.blocks[b])
    case BranchInst(_, d) => TargetOk(u, d)
    case CondBranchInst(_, cond, falseDst, trueDst) =>
      TargetOk(u, falseDst) && TargetOk(u, trueDst) && KeyOk(fr, u.n, u.keys[b], cond, b in u.c.shared)
    case RetInst(id, _) => FinalValue(u.n, Virt(RetReg(id))) == Phys(0) && b !in u.c.shared
    case _ => false
  }

  ghost predicate UnitOk(u: Unit, fr: Frame) {
    && LayoutOk(u.l) && fr.slots == u.l.slots && FrameOk(fr) && NamingOk(fr, u.n) && PhisOk(fr, u.n, u.c.phis)
    && (forall b {:trigger b in u.l.order} :: b in u.l.order ==>
         BlockLowered(u, b) && BlockWellShaped(fr, u.n, u.f.blocks[b]) && TerminatorOk(u, fr, b))
  }

  // ---- The parts of a block's code

  lemma {:induction false} AllocsEmitNothing(slots: Slots, labels: Labels, allocs: seq<nat>, k: nat)
    requires k <= |allocs|
    ensures (forall j :: 0 <= j < k ==> CanEmit(slots, labels, A.AllocInsts(allocs)[j]))
    ensures EmitBlock(slots, labels, A.AllocInsts(allocs), k) == []
  {
    if k > 0 {
      AllocsEmitNothing(slots, labels, allocs, k - 1);
      assert A.AllocInsts(allocs)[k - 1] == AllocInst(allocs[k - 1]);
    }
  }

  lemma ListOkParts(slots: Slots, labels: Labels, a: Block, b: Block)
    requires ListOk(slots, labels, a + b)
    ensures ListOk(slots, labels, a) && ListOk(slots, labels, b)
  {
    hide CanEmit;
    forall j | 0 <= j < |a|
      ensures CanEmit(slots, labels, a[j])
    {
      assert (a + b)[j] == a[j];
    }
    forall j | 0 <= j < |b|
      ensures CanEmit(slots, labels, b[j])
    {
      assert (a + b)[|a| + j] == b[j];
    }
  }

  // Where the code of a block begins behind its label and prologue.
  ghost function BodyStart(u: Unit, b: BlockId): nat
    requires LayoutOk(u.l) && b in u.l.order
  {
    LabelIndex(u.l, b);
    StartOf(u.l, b) + |BlockStart(u.l.h, u.l.labels, b)|
  }

  ghost predicate PartsOk(u: Unit, b: BlockId) {
    && HasEnd(u, b) && ListOk(u.l.slots, u.l.labels, BodyPart(u, b)) && ListOk(u.l.slots, u.l.labels, EarlyPart(u, b))
    && ListOk(u.l.slots, u.l.labels, FrontPart(u, b)) && ListOk(u.l.slots, u.l.labels, LatePart(u, b))
    && ListOk(u.l.slots, u.l.labels, ExitPart(u, b))
  }

  ghost function Segment(u: Unit, list: Block): Program
    requires ListOk(u.l.slots, u.l.labels, list)
  {
    Emit(u.l.slots, u.l.labels, list)
  }

  ghost function EndCode(u: Unit, b: BlockId): Program
    requires PartsOk(u, b)
  {
    Segment(u, EarlyPart(u, b)) + Segment(u, FrontPart(u, b)) + Segment(u, LatePart(u, b)) + Segment(u, ExitPart(u, b))
  }

  // The code of a block behind its start.
  lemma BlockIs(u: Unit, b: BlockId)
    requires LayoutOk(u.l) && b in u.l.order && BlockLowered(u, b)
    ensures PartsOk(u, b) && b in u.l.labels
    ensures CodeOfBlock(u.l, b) == BlockStart(u.l.h, u.l.labels, b) + (Segment(u, BodyPart(u, b)) + EndCode(u, b))
  {
    hide CanEmit, EmitInst, EmitBlock, Final, BodyCode, M.Front, M.Exit;
    var slots, labels := u.l.slots, u.l.labels;
    var pre := if b == Entry(u.l.h) then A.AllocInsts(u.allocs) else [];
    var x := BodyPart(u, b);
    var e, f, l, z := EarlyPart(u, b), FrontPart(u, b), LatePart(u, b), ExitPart(u, b);
    assert u.l.h.blocks[b] == pre + (x + (e + f + l + z));
    LabelIndex(u.l, b);
    assert ListOk(slots, labels, u.l.h.blocks[b]);
    ListOkParts(slots, labels, pre, x + (e + f + l + z));
    ListOkParts(slots, labels, x, e + f + l + z);
    ListOkParts(slots, labels, e + f + l, z);
    ListOkParts(slots, labels, e + f, l);
    ListOkParts(slots, labels, e, f);
    PrologueEmitsNothing(u, b);
    EmitAppend(slots, labels, pre, x + (e + f + l + z));
    EmitAppend(slots, labels, x, e + f + l + z);
    EmitAppend(slots, labels, e + f + l, z);
    EmitAppend(slots, labels, e + f, l);
    EmitAppend(slots, labels, e, f);
    assert [] + Emit(slots, labels, x + (e + f + l + z)) == Emit(slots, labels, x + (e + f + l + z));
  }

  lemma BlockParts(u: Unit, b: BlockId)
    requires LayoutOk(u.l) && b in u.l.order && BlockLowered(u, b)
    ensures PartsOk(u, b) && HasCode(CodeOf(u.l), BodyStart(u, b), Segment(u, BodyPart(u, b)) + EndCode(u, b))
  {
    hide BlockCode, EmitBlock, Final, BodyCode, M.Front, M.Exit, ListOk, BlockStart, EndCode;
    BlockIs(u, b);
    BlockAt(u.l, b);
    HasParts(CodeOf(u.l), StartOf(u.l, b), BlockStart(u.l.h, u.l.labels, b), Segment(u, BodyPart(u, b))
      + EndCode(u, b));
  }

  lemma PrologueEmitsNothing(u: Unit, b: BlockId)
    requires |u.l.h.order| > 0
    ensures var pre := if b == Entry(u.l.h) then A.AllocInsts(u.allocs) else [];
      ListOk(u.l.slots, u.l.labels, pre) && Emit(u.l.slots, u.l.labels, pre) == []
  {
    AllocsEmitNothing(u.l.slots, u.l.labels, u.allocs, |u.allocs|);
  }

  // ---- One block

  lemma UnitBlock(u: Unit, fr: Frame, b: BlockId)
    requires UnitOk(u, fr) && b in u.l.order
    ensures BlockLowered(u, b) && BlockWellShaped(fr, u.n, u.f.blocks[b]) && TerminatorOk(u, fr, b)
    ensures LayoutOk(u.l) && fr.slots == u.l.slots && FrameOk(fr) && NamingOk(fr, u.n) && PhisOk(fr, u.n, u.c.phis)
  {
  }

  // A jump leads behind the label of its target.
  lemma TargetReached(u: Unit, d: BlockId)
    requires LayoutOk(u.l) && TargetOk(u, d)
    ensures d in u.l.labels && FindLabel(CodeOf(u.l), u.l.labels[d]) < |CodeOf(u.l)|
    ensures d != Entry(u.l.h) ==> FindLabel(CodeOf(u.l), u.l.labels[d]) + 1 == BodyStart(u, d)
  {
    LabelOnce(u.l, d);
  }

  lemma BranchEmitted(u: Unit, b: BlockId, d: BlockId)
    requires HasEnd(u, b) && LastOf(u.f.blocks[b]).BranchInst? && d == LastOf(u.f.blocks[b]).dst && d in u.l.labels
    ensures FrontPart(u, b) == [] && ListOk(u.l.slots, u.l.labels, FrontPart(u, b)) && Segment(u, FrontPart(u, b)) == []
    ensures ListOk(u.l.slots, u.l.labels, ExitPart(u, b))
    ensures Segment(u, ExitPart(u, b)) == [Machine64(OpJmp, [Label(u.l.labels[d])])]
  {
    var i := LastOf(u.f.blocks[b]);
    assert M.Front(u.base, u.keys[b], i) == [] && M.Exit(u.base, u.keys[b], i) == i;
    FinalNothing(u.n);
    FinalOne(u.n, i);
    EmitOne(u.l.slots, u.l.labels, i);
  }

  // What a run of a block, from behind its label, leads to; a jump back to the entry is left open.
  ghost predicate Reaches(u: Unit, fr: Frame, o: Outcome, s: Status)
    requires LayoutOk(u.l)
  {
    match o
    case Jump(d, st) => |u.l.h.order| > 0 && (d == Entry(u.l.h) || Placed(u, fr, d, st, s))
    case Return(v, _) => ReturnsTo(fr, v, s)
    case Fell(_) => false
    case Stuck => true
  }

  // Control is behind the label of a block, in a state related to that of the run.
  ghost predicate Placed(u: Unit, fr: Frame, d: BlockId, st: State, s: Status)
    requires LayoutOk(u.l)
  {
    d in u.l.order && s.At? && s.pc == BodyStart(u, d) && Related(fr, st, s.m)
  }

  // The outcome of a block whose terminator runs after the body has left a state.
  ghost predicate Ends(f: Function, c: Copying, b: BlockId, i: Inst, st: State, o: Outcome) {
    var e := ExecInst(i, ReadState(c, b, st));
    && (e.Jump? ==> e.dst in f.blocks && o == Jump(e.dst, Copied(c, b, st)))
    && (e.Return? ==> o == Return(e.word, st)) && (e.Jump? || e.Return?)
  }

  // After the copies up to the cut.
  function EarlyState(c: Copying, b: BlockId, st: State): State {
    st.(env := CopyInOrder(c.phis, Cut(c, b), b, st.env))
  }

  // What the code in front of the exit leaves to it.
  ghost predicate Prepared(u: Unit, fr: Frame, b: BlockId, st: State, m: Machine)
    requires HasEnd(u, b)
  {
    var i := LastOf(u.f.blocks[b]);
    && (i.CondBranchInst? ==> FinalValue(u.n, Virt(Keyed(u.keys[b]))).Alloc? && KeySlot(u.n, u.keys[b]) in fr.slots)
    && (i.CondBranchInst? && Eval(i.cond, st.env).Some? ==>
          SlotValue(fr, m.mem, KeySlot(u.n, u.keys[b])) == Eval(i.cond, st.env).value)
    && (i.RetInst? && Eval(i.retVal, st.env).Some? ==> m.regs[RAX] == Eval(i.retVal, st.env).value)
  }

  lemma FrontRun(u: Unit, fr: Frame, b: BlockId, st: State, m: Machine) returns (m': Machine)
    requires UnitOk(u, fr) && b in u.l.order && HasEnd(u, b) && Related(fr, st, m)
    ensures ListOk(u.l.slots, u.l.labels, FrontPart(u, b)) && ExecList(Segment(u, FrontPart(u, b)), m) == Some(m')
    ensures Related(fr, st, m') && Prepared(u, fr, b, st, m')
  {
    hide UnitOk, LayoutOk, FrameOk, NamingOk, Related, BlockLowered, EmitBlock, ListOk, SlotValue, IsSpare, M.Front,
      M.Exit, Final, PhisOk, EmitMove;
    UnitBlock(u, fr, b);
    var i := LastOf(u.f.blocks[b]);
    if i.BranchInst? {
      LabelIndex(u.l, i.dst);
      BranchEmitted(u, b, i.dst);
      m' := m;
    } else if i.CondBranchInst? {
      LabelIndex(u.l, i.falseDst);
      LabelIndex(u.l, i.trueDst);
      CondBranchEmitted(fr, u.n, u.l.labels, u.base, u.keys[b], i, b in u.c.shared);
      m' := KeySim(fr, u.n, st, m, u.keys[b], i.cond, b in u.c.shared);
    } else {
      RetEmitted(fr, u.n, u.l.labels, u.base, u.keys[b], i);
      m' := ResultSim(fr, i.retVal, st, m);
    }
  }

  // A jump to a block that is not the entry.
  lemma JumpPlaced(u: Unit, fr: Frame, d: BlockId, st: State, s: Status)
    requires LayoutOk(u.l) && TargetOk(u, d) && d != Entry(u.l.h) && d in u.l.labels && s.At? && Related(fr, st, s.m)
    requires s.pc == FindLabel(CodeOf(u.l), u.l.labels[d]) + 1
    ensures Placed(u, fr, d, st, s)
  {
    hide LayoutOk, Related, FindLabel;
    TargetReached(u, d);
  }

  lemma ExitRun(u: Unit, fr: Frame, b: BlockId, pc: nat, st: State, m0: Machine, m: Machine, o: Outcome)
      returns (k: nat)
    requires UnitOk(u, fr) && b in u.l.order && HasEnd(u, b) && Ends(u.f, u.c, b, LastOf(u.f.blocks[b]), st, o)
    requires o.Jump? && |u.l.h.order| > 0 ==> o.dst != Entry(u.l.h)
    requires Prepared(u, fr, b, EarlyState(u.c, b, st), m0) && SparesKept(fr, m0, m) && m.regs[RAX] == m0.regs[RAX]
    requires Related(fr, Copied(u.c, b, st), m)
    requires ListOk(u.l.slots, u.l.labels, ExitPart(u, b))
    requires HasCode(CodeOf(u.l), pc, Segment(u, ExitPart(u, b)))
    ensures LayoutOk(u.l) && Reaches(u, fr, o, Steps(CodeOf(u.l), At(pc, m), k))
  {
    hide UnitOk, LayoutOk, FrameOk, NamingOk, Related, EmitBlock, ListOk, HasCode, Steps, CopyInOrder, SlotValue,
      SparesKept, M.Front, M.Exit, Final, PhisOk, FindLabel, BlockLowered, BodyStart, IsSpare, BodyOk, InstOk,
      ReturnsTo;
    UnitBlock(u, fr, b);
    var i, code := LastOf(u.f.blocks[b]), CodeOf(u.l);
    if i.BranchInst? {
      TargetReached(u, i.dst);
      BranchEmitted(u, b, i.dst);
      JumpSim(code, pc, u.l.labels[i.dst], m);
      k := 2;
      JumpPlaced(u, fr, i.dst, Copied(u.c, b, st), Steps(code, At(pc, m), k));
    } else if i.CondBranchInst? {
      k := CondExit(u, fr, b, pc, st, m0, m);
    } else {
      RetEmitted(fr, u.n, u.l.labels, u.base, u.keys[b], i);
      RetSim(fr, code, pc, Copied(u.c, b, st), m);
      k := 2;
    }
  }

  lemma CondExit(u: Unit, fr: Frame, b: BlockId, pc: nat, st: State, m0: Machine, m: Machine) returns (k: nat)
    requires UnitOk(u, fr) && b in u.l.order && HasEnd(u, b) && LastOf(u.f.blocks[b]).CondBranchInst?
    requires ExecInst(LastOf(u.f.blocks[b]), ReadState(u.c, b, st)).Jump? && |u.l.h.order| > 0
    requires ExecInst(LastOf(u.f.blocks[b]), ReadState(u.c, b, st)).dst != Entry(u.l.h)
    requires Prepared(u, fr, b, EarlyState(u.c, b, st), m0) && SparesKept(fr, m0, m)
    requires Related(fr, Copied(u.c, b, st), m)
    requires ListOk(u.l.slots, u.l.labels, ExitPart(u, b))
    requires HasCode(CodeOf(u.l), pc, Segment(u, ExitPart(u, b)))
    ensures LayoutOk(u.l)
    ensures Placed(u, fr, ExecInst(LastOf(u.f.blocks[b]), ReadState(u.c, b, st)).dst, Copied(u.c, b, st),
              Steps(CodeOf(u.l), At(pc, m), k))
  {
    hide UnitOk, LayoutOk, FrameOk, NamingOk, Related, EmitBlock, ListOk, HasCode, Steps, CopyInOrder, SlotValue,
      SparesKept, M.Front, M.Exit, Final, PhisOk, FindLabel, BlockLowered, BodyStart, IsSpare, BodyOk, InstOk,
      ReturnsTo, JumpsCode, Placed;
    UnitBlock(u, fr, b);
    var i, code, a := LastOf(u.f.blocks[b]), CodeOf(u.l), KeySlot(u.n, u.keys[b]);
    var c := Eval(i.cond, ReadState(u.c, b, st).env).value;
    TargetReached(u, i.falseDst);
    TargetReached(u, i.trueDst);
    CondBranchEmitted(fr, u.n, u.l.labels, u.base, u.keys[b], i, b in u.c.shared);
    KeyHolds(fr, u.n, u.keys[b], i.cond, b in u.c.shared, EarlyState(u.c, b, st), m0, Copied(u.c, b, st), m, c);
    var m': Machine;
    k, m' := CondBranchSim(fr, u.l.labels, a, i.falseDst, i.trueDst, code, pc, Copied(u.c, b, st), m, c);
    JumpPlaced(u, fr, if c == 1 then i.trueDst else i.falseDst, Copied(u.c, b, st), Steps(code, At(pc, m), k));
  }

  lemma RunThree(code: Program, pc: nat, e: Program, f: Program, l: Program, z: Program, m: Machine, m1: Machine,
      m2: Machine, m3: Machine)
    requires HasCode(code, pc, e + f + l + z)
    requires ExecList(e, m) == Some(m1) && ExecList(f, m1) == Some(m2) && ExecList(l, m2) == Some(m3)
    ensures Steps(code, At(pc, m), |e + f + l|) == At(pc + |e + f + l|, m3) && HasCode(code, pc + |e + f + l|, z)
  {
    hide HasCode, ExecList, Steps;
    HasParts(code, pc, e + f + l, z);
    HasParts(code, pc, e + f, l);
    HasParts(code, pc, e, f);
    RunPart(code, pc, e, m, m1);
    RunPart(code, pc + |e|, f, m1, m2);
    RunPart(code, pc + |e + f|, l, m2, m3);
    StepsAppend(code, At(pc, m), |e|, |f|);
    StepsAppend(code, At(pc, m), |e + f|, |l|);
  }

  // Everything behind the body of a block.
  lemma EndRun(u: Unit, fr: Frame, b: BlockId, pc: nat, st: State, m: Machine, o: Outcome) returns (k: nat)
    requires UnitOk(u, fr) && b in u.l.order && PartsOk(u, b) && Related(fr, st, m)
    requires Ends(u.f, u.c, b, LastOf(u.f.blocks[b]), st, o) && HasCode(CodeOf(u.l), pc, EndCode(u, b))
    ensures LayoutOk(u.l) && Reaches(u, fr, o, Steps(CodeOf(u.l), At(pc, m), k))
  {
    hide UnitOk, LayoutOk, FrameOk, NamingOk, Related, EmitBlock, ListOk, HasCode, Steps, CopyInOrder, SlotValue,
      SparesKept, M.CopiesIn, Final, PhisOk, BlockLowered, BodyPart, FrontPart, ExitPart, ExecList, Prepared, Ends,
      ReturnsTo, Placed, BodyStart;
    UnitBlock(u, fr, b);
    if o.Jump? && o.dst == Entry(u.l.h) {
      k := 0;
    } else {
      var d, cut, labels := u.c.phis, Cut(u.c, b), u.l.labels;
      NothingYet(d, b, st);
      var m1 := CopiesSim(fr, u.n, labels, d, 0, cut, b, st, m);
      var m2 := FrontRun(u, fr, b, EarlyState(u.c, b, st), m1);
      var m3 := CopiesSim(fr, u.n, labels, d, cut, |d|, b, st, m2);
      var e, f, l, z := Segment(u, EarlyPart(u, b)), Segment(u, FrontPart(u, b)), Segment(u, LatePart(u, b)),
        Segment(u, ExitPart(u, b));
      RunThree(CodeOf(u.l), pc, e, f, l, z, m, m1, m2, m3);
      var j := ExitRun(u, fr, b, pc + |e + f + l|, st, m2, m3, o);
      k := |e + f + l| + j;
      StepsAppend(CodeOf(u.l), At(pc, m), |e + f + l|, j);
    }
  }

  lemma NothingYet(d: Block, b: BlockId, st: State)
    ensures st.(env := CopyInOrder(d, 0, b, st.env)) == st
  {
  }

  lemma StepOfBlock(f: Function, c: Copying, b: BlockId, st: State)
    requires b in f.blocks && f.blocks[b] != [] && !StepCopies(f, c, b, st).Stuck?
    ensures var body := ExecInsts(f.blocks[b][..|f.blocks[b]| - 1], st);
      body.Fell? && Ends(f, c, b, LastOf(f.blocks[b]), body.st, StepCopies(f, c, b, st))
  {
  }

  /** The code of a block does what the block does. */
  lemma BlockRun(u: Unit, fr: Frame, b: BlockId, st: State, m: Machine) returns (k: nat)
    requires UnitOk(u, fr) && b in u.l.order && b in u.f.blocks && u.f.blocks[b] != [] && Related(fr, st, m)
    requires SmallCompares(u.f.blocks[b], |u.f.blocks[b]| - 1, st)
    ensures LayoutOk(u.l) && (!StepCopies(u.f, u.c, b, st).Stuck? ==>
      Reaches(u, fr, StepCopies(u.f, u.c, b, st), Steps(CodeOf(u.l), At(BodyStart(u, b), m), k)))
  {
    hide UnitOk, LayoutOk, FrameOk, NamingOk, Related, EmitBlock, ListOk, HasCode, Steps, CopyInOrder, InstOk, ExecInst,
      ExecInsts, StepCopies, ReturnsTo, SmallCompares, ExecList, Final, BodyStart, BodyOk, PhisOk, EndCode, Ends,
      PartsOk, Placed, TerminatorOk, HasEnd;
    UnitLayout(u, fr);
    k := 0;
    if !StepCopies(u.f, u.c, b, st).Stuck? {
      k := BlockRunsOn(u, fr, b, st, m, StepCopies(u.f, u.c, b, st));
    }
  }

  lemma BlockRunsOn(u: Unit, fr: Frame, b: BlockId, st: State, m: Machine, o: Outcome) returns (k: nat)
    requires UnitOk(u, fr) && b in u.l.order && b in u.f.blocks && u.f.blocks[b] != [] && Related(fr, st, m)
    requires SmallCompares(u.f.blocks[b], |u.f.blocks[b]| - 1, st) && o == StepCopies(u.f, u.c, b, st)
    requires !o.Stuck?
    ensures LayoutOk(u.l) && Reaches(u, fr, o, Steps(CodeOf(u.l), At(BodyStart(u, b), m), k))
  {
    hide UnitOk, LayoutOk, FrameOk, NamingOk, Related, EmitBlock, ListOk, HasCode, Steps, CopyInOrder, InstOk, ExecInst,
      ExecInsts, StepCopies, ReturnsTo, SmallCompares, ExecList, Final, BodyStart, BodyOk, PhisOk, EndCode, Ends,
      EndPart, EarlyPart, LatePart, FrontPart, ExitPart, Placed, Reaches, TerminatorOk;
    UnitBlock(u, fr, b);
    StepOfBlock(u.f, u.c, b, st);
    BlockParts(u, b);
    var code, block, pc := CodeOf(u.l), u.f.blocks[b], BodyStart(u, b);
    var st1 := ExecInsts(block[..|block| - 1], st).st;
    var m1 := BodySim(fr, u.n, u.l.labels, u.base, block, |block| - 1, st, m);
    var x := Segment(u, BodyPart(u, b));
    HasParts(code, pc, x, EndCode(u, b));
    RunPart(code, pc, x, m, m1);
    var j := EndRun(u, fr, b, pc + |x|, st1, m1, o);
    k := |x| + j;
    StepsAppend(code, At(pc, m), |x|, j);
  }

  // ---- Whole runs

  // Control does not come back to the entry within n blocks.
  ghost predicate NeverBack(f: Function, c: Copying, o: Outcome, n: nat)
    decreases n
  {
    n > 0 && o.Jump? && |f.order| > 0 ==>
      var next := StepCopies(f, c, o.dst, o.st);
      !(next.Jump? && next.dst == Entry(f)) && NeverBack(f, c, next, n - 1)
  }

  lemma {:induction false} BackAt(f: Function, c: Copying, o: Outcome, n: nat) returns (j: nat)
    requires |f.order| > 0 && !NeverBack(f, c, o, n)
    ensures 0 < j <= n && RunCopies(f, c, o, j).Jump? && RunCopies(f, c, o, j).dst == Entry(f)
    decreases n
  {
    hide StepCopies;
    var next := StepCopies(f, c, o.dst, o.st);
    if next.Jump? && next.dst == Entry(f) {
      j := 1;
      RunInTwo(f, c, o, 1, 0);
      assert RunCopies(f, c, o, 1) == RunCopies(f, c, next, 0);
    } else {
      var i := BackAt(f, c, next, n - 1);
      j := i + 1;
    }
  }

  /** The program follows a run of the lowered function for as long as that does not come back to the entry. */
  lemma {:induction false} RunFollows(u: Unit, fr: Frame, o: Outcome, s: Status, n: nat) returns (k: nat)
    requires UnitOk(u, fr) && |u.l.h.order| > 0 && |u.f.order| > 0 && Entry(u.f) == Entry(u.l.h)
    requires (o.Jump? ==> Placed(u, fr, o.dst, o.st, s)) && (!o.Jump? ==> Reaches(u, fr, o, s))
    requires SmallCopyRun(u.f, u.c, o, n) && NeverBack(u.f, u.c, o, n)
    ensures LayoutOk(u.l) && (RunCopies(u.f, u.c, o, n).Jump? || RunCopies(u.f, u.c, o, n).Return? ==>
      Reaches(u, fr, RunCopies(u.f, u.c, o, n), Steps(CodeOf(u.l), s, k)))
    decreases n
  {
    hide UnitOk, LayoutOk, Related, StepCopies, ReturnsTo, SmallCompares, BlockWellShaped, BodyStart, BlockLowered,
      TerminatorOk;
    UnitLayout(u, fr);
    if n == 0 || !o.Jump? {
      k := 0;
    } else {
      UnitBlock(u, fr, o.dst);
      BlockLoweredIs(u, o.dst);
      var i := BlockRun(u, fr, o.dst, o.st, s.m);
      var j := RunFollows(u, fr, StepCopies(u.f, u.c, o.dst, o.st), Steps(CodeOf(u.l), s, i), n - 1);
      k := i + j;
      StepsAppend(CodeOf(u.l), s, i, j);
    }
  }

  lemma UnitLayout(u: Unit, fr: Frame)
    requires UnitOk(u, fr)
    ensures LayoutOk(u.l)
  {
  }

  lemma BlockLoweredIs(u: Unit, b: BlockId)
    requires BlockLowered(u, b)
    ensures b in u.f.blocks && u.f.blocks[b] != []
  {
  }

  // The frame that the prologue sets up.
  ghost predicate FrameOf(fr: Frame, m: Machine) {
    && fr.base == EvalBinary(Sub, m.regs[RSP], 8) && fr.savedRbp == m.regs[RBP]
    && fr.returnTo == Read64(m.mem, m.regs[RSP])
  }

  function AfterPrologue(fr: Frame, m: Machine): Machine {
    Machine(m.regs[RSP := fr.base][RBP := fr.base], m.flags, Write64(m.mem, fr.base, fr.savedRbp))
  }

  lemma PrologueKept(fr: Frame, m: Machine)
    requires FrameOf(fr, m) && Fits(fr.slots)
    ensures FrameKept(fr, AfterPrologue(fr, m))
  {
    hide Read64, Write64, Apart, EvalBinary, Wrap;
    ReturnSlot(m.regs[RSP], fr.base);
    ReadOverWrite(m.mem, fr.base, fr.savedRbp, m.regs[RSP]);
  }

  lemma ReturnSlot(sp: Word, base: Word)
    requires base == EvalBinary(Sub, sp, 8)
    ensures Wrap(base + 8) == sp && Apart(base, sp, 8)
  {
  }

  lemma PrologueExec(fr: Frame, m: Machine)
    requires FrameOf(fr, m)
    ensures ExecList([Machine64(OpPush, [Reg(RBP)]), Machine64(OpMov, [Reg(RBP), Reg(RSP)])], m)
        == Some(AfterPrologue(fr, m))
  {
    hide Write64, Read64;
    var push, mov := Machine64(OpPush, [Reg(RBP)]), Machine64(OpMov, [Reg(RBP), Reg(RSP)]);
    var m1 := m.(regs := m.regs[RSP := fr.base], mem := Write64(m.mem, fr.base, fr.savedRbp));
    assert ExecData(push, m) == Some(m1);
    assert ExecData(mov, m1) == Some(AfterPrologue(fr, m));
    assert [push, mov][1..] == [mov];
    ExecOne(mov, m1);
  }

  lemma Prologue(u: Unit, fr: Frame, m: Machine, st: State)
    requires LayoutOk(u.l) && u.l.order != [] && u.l.order[0] == Entry(u.l.h) && FrameOf(fr, m) && Fits(fr.slots)
    requires st.env == map[] && st.cells == map[]
    ensures Steps(CodeOf(u.l), At(0, m), 3) == At(BodyStart(u, u.l.order[0]), AfterPrologue(fr, m))
    ensures Related(fr, st, AfterPrologue(fr, m))
  {
    hide LayoutOk, FrameKept, FrameOf, AfterPrologue, BlockCode, Steps;
    var b := u.l.order[0];
    OrderLabel(u.l, 0);
    BlockAt(u.l, b);
    var start := [Machine64(OpPush, [Reg(RBP)]), Machine64(OpMov, [Reg(RBP), Reg(RSP)])];
    StartHere(u.l, b);
    HasParts(CodeOf(u.l), 0, [Machine64(OpLabel, [Label(0)])], start);
    PrologueKept(fr, m);
    PrologueExec(fr, m);
    RunPart(CodeOf(u.l), 1, start, m, AfterPrologue(fr, m));
    LabelExec(CodeOf(u.l), m);
    StepsAppend(CodeOf(u.l), At(0, m), 1, 2);
  }

  lemma LabelExec(code: Program, m: Machine)
    requires HasCode(code, 0, [Machine64(OpLabel, [Label(0)])])
    ensures Steps(code, At(0, m), 1) == At(1, m)
  {
    assert code[0] == Machine64(OpLabel, [Label(0)]);
    DataStep(code, 0, m);
    StepOnce(code, 0, m);
  }

  lemma StartHere(l: Layout, b: BlockId)
    requires LayoutOk(l) && b in l.order && b in l.labels && l.labels[b] == 0 && b == Entry(l.h) && StartOf(l, b) == 0
    requires HasCode(CodeOf(l), 0, CodeOfBlock(l, b))
    ensures HasCode(CodeOf(l), 0, [Machine64(OpLabel, [Label(0)])]
        + [Machine64(OpPush, [Reg(RBP)]), Machine64(OpMov, [Reg(RBP), Reg(RSP)])])
    ensures |BlockStart(l.h, l.labels, b)| == 3
  {
    LabelIndex(l, b);
    var start := BlockStart(l.h, l.labels, b);
    assert start == [Machine64(OpLabel, [Label(0)])]
      + [Machine64(OpPush, [Reg(RBP)]), Machine64(OpMov, [Reg(RBP), Reg(RSP)])];
    hide BlockStart, CanEmit, EmitBlock, IsNumbering;
    HasParts(CodeOf(l), 0, start, EmitBlock(l.slots, l.labels, l.h.blocks[b], |l.h.blocks[b]|));
  }

  /** Every run of the lowered function that returns is matched by a run of the program from its first
      instruction to a return with the same value in rax and the caller's registers restored. */
  lemma ProgramReturns(u: Unit, fr: Frame, m: Machine, mem: Memory, n: nat) returns (k: nat)
    requires UnitOk(u, fr) && |u.f.order| > 0 && |u.l.h.order| > 0 && Entry(u.f) == Entry(u.l.h) && NoMemory(u.f)
    requires u.l.order != [] && u.l.order[0] == Entry(u.l.h) && FrameOf(fr, m) && Fits(fr.slots)
    requires var start := CallStart(u.f, mem);
      SmallCopyRun(u.f, u.c, start, n) && RunCopies(u.f, u.c, start, n).Return?
    ensures LayoutOk(u.l)
    ensures ReturnsTo(fr, RunCopies(u.f, u.c, CallStart(u.f, mem), n).word, Steps(CodeOf(u.l), At(0, m), k))
  {
    hide UnitOk, LayoutOk, Related, ReturnsTo, SmallCopyRun, BodyStart, FrameOf, AfterPrologue, RunCopies, Steps,
      BlockLowered, BlockWellShaped, TerminatorOk, Code, NeverBack, NoMemory;
    var start := CallStart(u.f, mem);
    UnitBlock(u, fr, u.l.order[0]);
    Prologue(u, fr, m, start.st);
    if !NeverBack(u.f, u.c, start, n) {
      var j := BackAt(u.f, u.c, start, n);
      ReenteredNeverReturns(u.f, u.c, mem, j, n);
    }
    hide EvalBinary;
    var j := RunFollows(u, fr, start, Steps(CodeOf(u.l), At(0, m), 3), n);
    k := 3 + j;
    StepsAppend(CodeOf(u.l), At(0, m), 3, j);
  }
}

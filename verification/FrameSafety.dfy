/** Frame safety: whatever the machine holds when the emitted code is entered, it never faults, writes only
    inside its own frame and gives the caller its registers back. No run of the function is involved. */
module FrameSafety {
  import opened Words
  import opened X86
  import opened Ir
  import opened MachineRun
  import opened Backend
  import opened StackFrame
  import opened GroupSim
  import opened PhiCopies
  import opened BlockSim
  import opened CodeLayout
  import opened CopyRuns
  import opened ProgramSim
  import M = MoveInserter
  import A = RegAllocator

  // ---- Instructions that stay inside the frame

  ghost predicate IsSlotOperand(slots: Slots, op: Operand) {
    exists a {:trigger slots[a]} :: a in slots && op == MemBaseDisp(RBP, Disp32(slots[a]))
  }

  ghost predicate IsScratch(slots: Slots, op: Operand) {
    op == Reg(RAX) || op == Reg(RCX) || IsSlotOperand(slots, op)
  }

  ghost predicate IsSource(slots: Slots, op: Operand) {
    op.Imm? || IsScratch(slots, op)
  }

  predicate Computes(opcode: Opcode) {
    opcode.OpMov? || BinaryOf(opcode).Some?
  }

  predicate IsJump(opcode: Opcode) {
    opcode.OpJmp? || opcode.OpJne?
  }

  predicate NeedsFlags(opcode: Opcode) {
    IsSet(opcode) || opcode.OpJne?
  }

  ghost predicate InFrame(slots: Slots, i: MachineInst) {
    var ops := i.operands;
    if Computes(i.opcode) then i.operandWidth == 64 && |ops| == 2 && IsScratch(slots, ops[0]) && IsSource(slots, ops[1])
    else if i.opcode.OpCmp? then i.operandWidth == 64 && |ops| == 2 && IsSource(slots, ops[0])
      && IsSource(slots, ops[1])
    else if IsSet(i.opcode) then ops == [Reg(RAX)] && i.operandWidth == 8
    else if IsJump(i.opcode) then |ops| == 1 && ops[0].Label?
    else if i.opcode.OpPop? then ops == [Reg(RBP)] && i.operandWidth == 64
    else i.opcode.OpRet? || i.opcode.OpLabel?
  }

  // Flags are read right after the compare that sets them, and rbp is popped right before the return.
  ghost predicate InPlace(part: Program, k: nat)
    requires k < |part|
  {
    && (NeedsFlags(part[k].opcode) ==> k > 0 && (part[k - 1].opcode.OpCmp?))
    && (part[k].opcode.OpRet? ==> k > 0 && part[k - 1].opcode.OpPop?)
    && (part[k].opcode.OpPop? ==> k + 1 < |part| && part[k + 1].opcode.OpRet?)
  }

  // Jumps go to labels from low on; 0 is the label in front of the prologue.
  ghost predicate StaysInFrame(slots: Slots, low: nat, part: Program) {
    forall k :: 0 <= k < |part| ==>
      InFrame(slots, part[k]) && InPlace(part, k) && (IsJump(part[k].opcode) ==> part[k].operands[0].target >= low)
  }

  predicate LeavesLast(part: Program) {
    part != [] && (part[|part| - 1].opcode.OpJmp? || part[|part| - 1].opcode.OpRet?)
  }

  function EntryCode(): Program {
    [Machine64(OpLabel, [Label(0)]), Machine64(OpPush, [Reg(RBP)]), Machine64(OpMov, [Reg(RBP), Reg(RSP)])]
  }

  ghost predicate Framed(slots: Slots, code: Program) {
    && |code| > 3 && code[..3] == EntryCode() && StaysInFrame(slots, 0, code[3..]) && LeavesLast(code[3..])
    && LabelsResolve(code)
  }

  // ---- What one instruction does to the frame

  // The frame has the given size and is in reach of 32-bit displacements.
  ghost predicate FrameFits(fr: Frame, size: nat) {
    FrameOk(fr) && size <= 0x8000_0000 && forall a {:trigger fr.slots[a]} :: a in fr.slots ==> fr.slots[a] <= size
  }

  // Not one of the bytes of the saved rbp and of the slots below it.
  ghost predicate Outside(base: Word, size: nat, x: Word) {
    Distance(SlotAddr(base, size), x) >= size + 8
  }

  ghost predicate SameOutside(base: Word, size: nat, a: Memory, b: Memory) {
    forall x: Word {:trigger Outside(base, size, x)} :: Outside(base, size, x) ==> ByteAt(b, x) == ByteAt(a, x)
  }

  lemma SlotInside(base: Word, size: nat, s: nat, x: Word)
    requires s <= size <= 0x8000_0000 && Outside(base, size, x)
    ensures Distance(SlotAddr(base, s), x) >= 8
  {
    WrapCases(base - s);
    WrapCases(base - size);
  }

  lemma WriteInside(base: Word, size: nat, s: nat, before: Memory, mem: Memory, v: Word)
    requires s <= size <= 0x8000_0000 && SameOutside(base, size, before, mem)
    ensures SameOutside(base, size, before, Write64(mem, SlotAddr(base, s), v))
  {
    forall x: Word | Outside(base, size, x)
      ensures ByteAt(Write64(mem, SlotAddr(base, s), v), x) == ByteAt(before, x)
    {
      SlotInside(base, size, s, x);
    }
  }

  // The frame is as the prologue left it, and nothing outside of it has been written.
  ghost predicate Kept(fr: Frame, size: nat, before: Memory, m: Machine) {
    FrameKept(fr, m) && SameOutside(fr.base, size, before, m.mem)
  }

  lemma SourceReadable(slots: Slots, op: Operand)
    requires IsSource(slots, op)
    ensures Readable(op)
  {
  }

  lemma ScratchSet(fr: Frame, size: nat, before: Memory, op: Operand, v: Word, m: Machine)
    requires FrameFits(fr, size) && Kept(fr, size, before, m) && IsScratch(fr.slots, op)
    ensures Writable(op) && Kept(fr, size, before, Set(op, v, m))
  {
    hide FrameOk, FrameKept, SameOutside;
    if IsSlotOperand(fr.slots, op) {
      var a :| a in fr.slots && op == SlotOperand(fr, a);
      SlotKept(fr, size, before, a, v, m);
    } else {
      RegisterKept(fr, m, op.reg, v);
      SetReg(op.reg, v, m);
    }
  }

  lemma SlotKept(fr: Frame, size: nat, before: Memory, a: nat, v: Word, m: Machine)
    requires FrameFits(fr, size) && Kept(fr, size, before, m) && a in fr.slots
    ensures Writable(SlotOperand(fr, a)) && Kept(fr, size, before, Set(SlotOperand(fr, a), v, m))
  {
    hide FrameOk, SameOutside, Set;
    KeptBySlot(fr, m, a, v);
    SlotOperandSet(fr, m, a, v);
    WriteInside(fr.base, size, fr.slots[a], before, m.mem, v);
  }

  lemma RegisterKept(fr: Frame, m: Machine, r: nat, v: Word)
    requires FrameKept(fr, m) && r < 2
    ensures FrameKept(fr, m.(regs := m.regs[r := v]))
  {
  }

  lemma FlagsKept(fr: Frame, size: nat, before: Memory, m: Machine, flags: Option<Flags>)
    requires Kept(fr, size, before, m)
    ensures Kept(fr, size, before, m.(flags := flags))
  {
  }

  // An instruction that only computes.
  lemma DataKept(fr: Frame, size: nat, before: Memory, i: MachineInst, m: Machine)
    requires FrameFits(fr, size) && Kept(fr, size, before, m) && InFrame(fr.slots, i)
    requires !IsJump(i.opcode) && !i.opcode.OpPop? && !i.opcode.OpRet? && (NeedsFlags(i.opcode) ==> m.flags.Some?)
    ensures ExecData(i, m).Some? && Kept(fr, size, before, ExecData(i, m).value)
    ensures i.opcode.OpCmp? ==> ExecData(i, m).value.flags.Some?
  {
    hide FrameFits, Kept, IsSource, IsScratch, Get, Set, CompareFlags, EvalBinary, Readable, Writable, SetLowByte;
    var ops := i.operands;
    if Computes(i.opcode) {
      SourceReadable(fr.slots, ops[1]);
      ScratchReadable(fr.slots, ops[0]);
      ComputeKept(fr, size, before, i, m);
    } else if i.opcode.OpCmp? {
      SourceReadable(fr.slots, ops[0]);
      SourceReadable(fr.slots, ops[1]);
      FlagsKept(fr, size, before, m, Some(CompareFlags(Get(ops[0], m), Get(ops[1], m))));
    } else if IsSet(i.opcode) {
      SetKept(fr, size, before, i, m);
    }
  }

  lemma ScratchReadable(slots: Slots, op: Operand)
    requires IsScratch(slots, op)
    ensures Readable(op) && Writable(op)
  {
  }

  lemma ComputeKept(fr: Frame, size: nat, before: Memory, i: MachineInst, m: Machine)
    requires FrameFits(fr, size) && Kept(fr, size, before, m) && InFrame(fr.slots, i) && Computes(i.opcode)
    ensures ExecData(i, m).Some? && Kept(fr, size, before, ExecData(i, m).value)
  {
    hide FrameFits, Kept, IsSource, IsScratch, Get, Set, EvalBinary, Readable, Writable;
    var dst, src := i.operands[0], i.operands[1];
    SourceReadable(fr.slots, src);
    ScratchReadable(fr.slots, dst);
    if i.opcode.OpMov? {
      ScratchSet(fr, size, before, dst, Get(src, m), m);
    } else {
      var v := EvalBinary(BinaryOf(i.opcode).value, Get(dst, m), Get(src, m));
      ScratchSet(fr, size, before, dst, v, m);
      FlagsKept(fr, size, before, Set(dst, v, m), None);
    }
  }

  lemma SetKept(fr: Frame, size: nat, before: Memory, i: MachineInst, m: Machine)
    requires FrameFits(fr, size) && Kept(fr, size, before, m) && InFrame(fr.slots, i) && IsSet(i.opcode)
    requires m.flags.Some?
    ensures ExecData(i, m).Some? && Kept(fr, size, before, ExecData(i, m).value)
  {
    hide FrameFits, SameOutside, FrameKept, SetLowByte, Condition;
    var b := if Condition(i.opcode, m.flags.value) then 1 else 0;
    RegisterKept(fr, m, RAX, SetLowByte(m.regs[RAX], b));
  }

  // ---- What the whole code keeps

  // Between the pop and the return.
  ghost predicate Popped(fr: Frame, size: nat, before: Memory, m: Machine) {
    && m.regs[RBP] == fr.savedRbp && m.regs[RSP] == Wrap(fr.base + 8) && SameOutside(fr.base, size, before, m.mem)
    && Read64(m.mem, fr.base) == fr.savedRbp && Read64(m.mem, Wrap(fr.base + 8)) == fr.returnTo
  }

  // The status once rbp is saved, up to where control comes back to the start.
  ghost predicate Safe(code: Program, fr: Frame, size: nat, before: Memory, s: Status) {
    match s
    case At(pc, m) =>
      && (pc == 0 || 3 <= pc) && pc < |code|
      && (if code[pc].opcode.OpRet? then Popped(fr, size, before, m) else Kept(fr, size, before, m))
      && (NeedsFlags(code[pc].opcode) ==> m.flags.Some?)
    case Returned(to, m) =>
      && to == fr.returnTo && m.regs[RBP] == fr.savedRbp && m.regs[RSP] == Wrap(fr.base + 16)
      && Read64(m.mem, fr.base) == fr.savedRbp && SameOutside(fr.base, size, before, m.mem)
    case Fault => false
  }

  lemma FramedAt(slots: Slots, code: Program, pc: nat)
    requires Framed(slots, code) && 3 <= pc < |code|
    ensures InFrame(slots, code[pc])
    ensures NeedsFlags(code[pc].opcode) ==> pc > 3 && code[pc - 1].opcode.OpCmp?
    ensures code[pc].opcode.OpRet? ==> pc > 3 && code[pc - 1].opcode.OpPop?
    ensures code[pc].opcode.OpPop? ==> pc + 1 < |code| && code[pc + 1].opcode.OpRet?
    ensures !code[pc].opcode.OpJmp? && !code[pc].opcode.OpRet? ==> pc + 1 < |code|
  {
    hide InFrame;
    var part := code[3..];
    assert part[pc - 3] == code[pc] && InPlace(part, pc - 3);
    if pc > 3 {
      assert part[pc - 4] == code[pc - 1];
    }
  }

  lemma JumpLands(slots: Slots, code: Program, pc: nat, m: Machine)
    requires Framed(slots, code) && 3 <= pc < |code| && IsJump(code[pc].opcode)
    ensures var s := JumpTo(code, code[pc], m);
      s.At? && s.m == m && (s.pc == 0 || 3 <= s.pc) && s.pc < |code| && code[s.pc].opcode.OpLabel?
  {
    FramedAt(slots, code, pc);
    var t := code[pc].operands[0].target;
    assert code[pc].operands == [Label(t)];
    assert forall k :: 0 <= k < 3 ==> code[k] == code[..3][k];
    assert forall k :: 1 <= k < 3 ==> !IsLabel(code[k], t);
  }

  lemma StepSafe(code: Program, fr: Frame, size: nat, before: Memory, pc: nat, m: Machine)
    requires Framed(fr.slots, code) && FrameFits(fr, size) && Safe(code, fr, size, before, At(pc, m)) && pc > 0
    ensures Safe(code, fr, size, before, Step(code, pc, m))
  {
    hide Framed, FrameFits, InFrame, ExecData, JumpTo, Popped, Kept;
    var i := code[pc];
    FramedAt(fr.slots, code, pc);
    FrameHasOpcode(fr.slots, i);
    if IsJump(i.opcode) {
      JumpLands(fr.slots, code, pc, m);
      if i.opcode.OpJne? {
        FramedAt(fr.slots, code, pc + 1);
      }
    } else if i.opcode.OpRet? {
      RetSafe(fr, size, before, m);
    } else if i.opcode.OpPop? {
      PopSafe(fr, size, before, i, m);
      FramedAt(fr.slots, code, pc + 1);
    } else {
      DataKept(fr, size, before, i, m);
      FramedAt(fr.slots, code, pc + 1);
    }
  }

  lemma FrameHasOpcode(slots: Slots, i: MachineInst)
    requires InFrame(slots, i)
    ensures IsConditional(i.opcode) ==> i.opcode.OpJne?
    ensures i.opcode.OpPop? ==> i.operands == [Reg(RBP)] && i.operandWidth == 64
  {
  }

  lemma PopSafe(fr: Frame, size: nat, before: Memory, i: MachineInst, m: Machine)
    requires Kept(fr, size, before, m) && i.opcode.OpPop? && i.operands == [Reg(RBP)] && i.operandWidth == 64
    ensures ExecData(i, m).Some? && Popped(fr, size, before, ExecData(i, m).value)
  {
    hide SameOutside, Read64;
  }

  lemma RetSafe(fr: Frame, size: nat, before: Memory, m: Machine)
    requires Popped(fr, size, before, m)
    ensures var m' := m.(regs := m.regs[RSP := EvalBinary(Add, m.regs[RSP], 8)]);
      Read64(m.mem, m.regs[RSP]) == fr.returnTo && m'.regs[RBP] == fr.savedRbp && m'.regs[RSP] == Wrap(fr.base + 16)
      && Read64(m.mem, fr.base) == fr.savedRbp && SameOutside(fr.base, size, before, m.mem)
  {
    hide SameOutside, Read64;
    WrapTwice(fr.base);
  }

  // How often control comes back to the first instruction in the next k steps.
  function Reentries(code: Program, s: Status, k: nat): nat
    decreases k
  {
    if k == 0 || !s.At? then 0
    else
      var next := Step(code, s.pc, s.m);
      (if next.At? && next.pc == 0 then 1 else 0) + Reentries(code, next, k - 1)
  }

  lemma {:induction false} StepsSafe(code: Program, fr: Frame, size: nat, before: Memory, s: Status, k: nat)
    requires Framed(fr.slots, code) && FrameFits(fr, size) && Safe(code, fr, size, before, s) && (s.At? ==> s.pc > 0)
    requires Reentries(code, s, k) == 0
    ensures Safe(code, fr, size, before, Steps(code, s, k))
    decreases k
  {
    hide Framed, FrameFits, Popped, Kept, Step;
    if k > 0 && s.At? {
      StepSafe(code, fr, size, before, s.pc, s.m);
      StepsSafe(code, fr, size, before, Step(code, s.pc, s.m), k - 1);
    }
  }

  // ---- From the first instruction on

  // After push rbp.
  function Pushed(fr: Frame, m: Machine): Machine {
    m.(regs := m.regs[RSP := fr.base], mem := Write64(m.mem, fr.base, fr.savedRbp))
  }

  lemma PushedKeeps(fr: Frame, size: nat, m: Machine)
    requires FrameOf(fr, m) && size <= 0x8000_0000
    ensures Read64(Pushed(fr, m).mem, fr.base) == fr.savedRbp && SameOutside(fr.base, size, m.mem, Pushed(fr, m).mem)
  {
    hide EvalBinary, Read64, Write64;
    ReadOverWrite(m.mem, fr.base, fr.savedRbp, fr.base);
    WriteInside(fr.base, size, 0, m.mem, m.mem, fr.savedRbp);
    assert SlotAddr(fr.base, 0) == fr.base;
  }

  lemma PrologueSteps(code: Program, fr: Frame, m: Machine)
    requires |code| > 3 && code[..3] == EntryCode() && FrameOf(fr, m)
    ensures Steps(code, At(0, m), 1) == At(1, m) && Steps(code, At(0, m), 2) == At(2, Pushed(fr, m))
    ensures Steps(code, At(0, m), 3) == At(3, AfterPrologue(fr, m))
  {
    hide Write64, Read64, EvalBinary, Steps;
    assert forall k :: 0 <= k < 3 ==> code[k] == code[..3][k];
    StepOnce(code, 0, m);
    StepOnce(code, 1, m);
    StepOnce(code, 2, Pushed(fr, m));
    StepsAppend(code, At(0, m), 1, 1);
    StepsAppend(code, At(0, m), 2, 1);
  }

  lemma PrologueSafe(code: Program, fr: Frame, size: nat, m: Machine)
    requires Framed(fr.slots, code) && FrameFits(fr, size) && FrameOf(fr, m)
    ensures Safe(code, fr, size, m.mem, At(3, AfterPrologue(fr, m)))
  {
    hide InFrame, FrameOf, Read64, Write64, FrameKept, Outside;
    FramedAt(fr.slots, code, 3);
    PrologueKept(fr, m);
    PushedKeeps(fr, size, m);
  }

  predicate BackInCaller(m: Machine, returnTo: Word, after: Machine) {
    && returnTo == Read64(m.mem, m.regs[RSP]) && after.regs[RBP] == m.regs[RBP]
    && after.regs[RSP] == EvalBinary(Add, m.regs[RSP], 8)
  }

  /** What the caller keeps, whatever it holds and however far the code has run: the code has not faulted, no
      byte outside the frame has changed, the saved rbp has not changed since it was pushed, and a return goes to
      the return address with rbp restored and rsp just above that address. */
  ghost predicate FrameSafe(code: Program, size: nat, m: Machine, k: nat) {
    var s, base := Steps(code, At(0, m), k), EvalBinary(Sub, m.regs[RSP], 8);
    && !s.Fault? && SameOutside(base, size, m.mem, s.m.mem)
    && (k >= 2 ==> Read64(s.m.mem, base) == m.regs[RBP])
    && (s.Returned? ==> BackInCaller(m, s.returnTo, s.m))
  }

  lemma SafeIsFrameSafe(code: Program, fr: Frame, size: nat, m: Machine, s: Status)
    requires Safe(code, fr, size, m.mem, s) && FrameOf(fr, m)
    ensures !s.Fault? && SameOutside(fr.base, size, m.mem, s.m.mem) && Read64(s.m.mem, fr.base) == m.regs[RBP]
    ensures s.Returned? ==> BackInCaller(m, s.returnTo, s.m)
  {
    hide SameOutside, Read64;
  }

  lemma SafeUntilReentry(code: Program, fr: Frame, size: nat, m: Machine, k: nat)
    requires Framed(fr.slots, code) && FrameFits(fr, size) && FrameOf(fr, m) && Reentries(code, At(0, m), k) == 0
    ensures FrameSafe(code, size, m, k)
  {
    hide Framed, FrameFits, SameOutside, Read64, Steps, Safe, AfterPrologue, Pushed, Reentries;
    PrologueStarts(fr.slots, code);
    PrologueSteps(code, fr, m);
    FitsSize(fr, size);
    if k == 0 {
      NothingOutside(fr.base, size, m.mem);
      StepsNone(code, At(0, m));
    } else if k == 1 {
      NothingOutside(fr.base, size, m.mem);
    } else if k == 2 {
      PushedKeeps(fr, size, m);
    } else {
      PrologueSafe(code, fr, size, m);
      ReentriesAppend(code, At(0, m), 3, k - 3);
      StepsSafe(code, fr, size, m.mem, At(3, AfterPrologue(fr, m)), k - 3);
      StepsAppend(code, At(0, m), 3, k - 3);
      SafeIsFrameSafe(code, fr, size, m, Steps(code, At(0, m), k));
    }
  }

  lemma {:induction false} ReentriesAppend(code: Program, s: Status, a: nat, b: nat)
    ensures Reentries(code, s, a + b) == Reentries(code, s, a) + Reentries(code, Steps(code, s, a), b)
    decreases a
  {
    hide Step;
    if a > 0 && s.At? {
      ReentriesAppend(code, Step(code, s.pc, s.m), a - 1, b);
    }
  }

  // ---- Coming back to the start

  // Where rsp is, sp being its value when control last came to the first instruction.
  ghost predicate Tracks(code: Program, sp: Word, s: Status) {
    match s
    case At(pc, m) =>
      && pc < |code| && (NeedsFlags(code[pc].opcode) ==> m.flags.Some?)
      && m.regs[RSP] == (if pc < 2 || code[pc].opcode.OpRet? then sp else Wrap(sp - 8))
    case Returned(_, m) => m.regs[RSP] == Wrap(sp + 8)
    case Fault => false
  }

  // Nothing but push, pop and return moves rsp.
  lemma DataTracks(slots: Slots, i: MachineInst, m: Machine)
    requires InFrame(slots, i) && !IsJump(i.opcode) && !i.opcode.OpPop? && !i.opcode.OpRet?
    requires NeedsFlags(i.opcode) ==> m.flags.Some?
    ensures ExecData(i, m).Some? && ExecData(i, m).value.regs[RSP] == m.regs[RSP]
    ensures i.opcode.OpCmp? ==> ExecData(i, m).value.flags.Some?
  {
    hide IsSource, IsScratch, Get, CompareFlags, EvalBinary, Readable, Writable, SetLowByte, Write64;
    var ops := i.operands;
    if Computes(i.opcode) {
      SourceReadable(slots, ops[1]);
      ScratchReadable(slots, ops[0]);
      ScratchIsNotStack(slots, ops[0]);
    } else if i.opcode.OpCmp? {
      SourceReadable(slots, ops[0]);
      SourceReadable(slots, ops[1]);
    }
  }

  lemma ScratchIsNotStack(slots: Slots, op: Operand)
    requires IsScratch(slots, op)
    ensures forall v, m {:trigger Set(op, v, m)} :: Set(op, v, m).regs[RSP] == m.regs[RSP]
  {
  }

  lemma StepTracks(slots: Slots, code: Program, sp: Word, pc: nat, m: Machine)
    requires Framed(slots, code) && Tracks(code, sp, At(pc, m))
    ensures var next := Step(code, pc, m);
      Tracks(code, if next.At? && next.pc == 0 then Wrap(sp - 8) else sp, next)
  {
    hide Framed, InFrame, ExecData, JumpTo, EvalBinary;
    PrologueStarts(slots, code);
    if pc < 3 {
      StartTracks(slots, code, sp, pc, m);
    } else {
      LaterTracks(slots, code, sp, pc, m);
    }
  }

  lemma StartTracks(slots: Slots, code: Program, sp: Word, pc: nat, m: Machine)
    requires Framed(slots, code) && Tracks(code, sp, At(pc, m)) && pc < 3
    ensures Step(code, pc, m).At? && Step(code, pc, m).pc == pc + 1 && Tracks(code, sp, Step(code, pc, m))
  {
    hide Framed, Read64, Write64;
    PrologueStarts(slots, code);
    FramedAt(slots, code, 3);
    assert forall k :: 0 <= k < 3 ==> code[k] == code[..3][k];
  }

  lemma LaterTracks(slots: Slots, code: Program, sp: Word, pc: nat, m: Machine)
    requires Framed(slots, code) && Tracks(code, sp, At(pc, m)) && 3 <= pc
    ensures var next := Step(code, pc, m);
      Tracks(code, if next.At? && next.pc == 0 then Wrap(sp - 8) else sp, next)
  {
    hide Framed, InFrame, ExecData, JumpTo, EvalBinary, Read64;
    var i := code[pc];
    FramedAt(slots, code, pc);
    FrameHasOpcode(slots, i);
    if IsJump(i.opcode) {
      JumpLands(slots, code, pc, m);
      if i.opcode.OpJne? {
        FramedAt(slots, code, pc + 1);
      }
    } else if i.opcode.OpRet? {
      AddIsWrap(sp);
    } else if i.opcode.OpPop? {
      PopTracks(i, sp, m);
      FramedAt(slots, code, pc + 1);
    } else {
      DataTracks(slots, i, m);
      FramedAt(slots, code, pc + 1);
    }
  }

  lemma AddIsWrap(sp: Word)
    ensures EvalBinary(Add, sp, 8) == Wrap(sp + 8)
  {
  }

  lemma PopTracks(i: MachineInst, sp: Word, m: Machine)
    requires i.opcode.OpPop? && i.operands == [Reg(RBP)] && i.operandWidth == 64 && m.regs[RSP] == Wrap(sp - 8)
    ensures ExecData(i, m).Some? && ExecData(i, m).value.regs[RSP] == sp
  {
    hide Read64;
  }

  lemma {:induction false} StepsTrack(slots: Slots, code: Program, sp: Word, s: Status, k: nat)
    requires Framed(slots, code) && Tracks(code, sp, s)
    ensures Tracks(code, Wrap(sp - 8 * Reentries(code, s, k)), Steps(code, s, k))
    decreases k
  {
    hide Framed, Tracks, Step;
    if k > 0 && s.At? {
      var next := Step(code, s.pc, s.m);
      StepTracks(slots, code, sp, s.pc, s.m);
      if next.At? && next.pc == 0 {
        StepsTrack(slots, code, Wrap(sp - 8), next, k - 1);
        WrapDown(sp, 8, 8 * Reentries(code, next, k - 1));
      } else {
        StepsTrack(slots, code, sp, next, k - 1);
      }
    }
  }

  lemma WrapDown(x: int, a: int, b: int)
    ensures Wrap(Wrap(x - a) - b) == Wrap(x - a - b)
  {
    WrapCongruent(x - a, -b);
  }

  lemma WrapCongruent(x: int, y: int)
    ensures Wrap(Wrap(x) + y) == Wrap(x + y)
  {
  }

  // No jump to the label in front of the prologue, no way back.
  lemma {:induction false} NoWayBack(slots: Slots, code: Program, s: Status, k: nat)
    requires Framed(slots, code) && StaysInFrame(slots, 1, code[3..])
    ensures Reentries(code, s, k) == 0
    decreases k
  {
    hide Framed, StaysInFrame, Step;
    if k > 0 && s.At? {
      StepsOnward(slots, code, s.pc, s.m);
      NoWayBack(slots, code, Step(code, s.pc, s.m), k - 1);
    }
  }

  lemma StepsOnward(slots: Slots, code: Program, pc: nat, m: Machine)
    requires Framed(slots, code) && StaysInFrame(slots, 1, code[3..])
    ensures Step(code, pc, m).At? ==> Step(code, pc, m).pc > 0
  {
    hide ExecData, LabelsResolve, InPlace, LeavesLast, InFrame;
    if pc < |code| {
      if pc < 3 {
        assert code[pc] == code[..3][pc];
      } else {
        assert code[3..][pc - 3] == code[pc];
        JumpIsForward(slots, code, pc, m);
      }
    }
  }

  lemma JumpIsForward(slots: Slots, code: Program, pc: nat, m: Machine)
    requires |code| > 3 && code[..3] == EntryCode() && 3 <= pc < |code| && InFrame(slots, code[pc])
    requires IsJump(code[pc].opcode) ==> code[pc].operands[0].target >= 1
    ensures code[pc].opcode.OpJmp? || IsConditional(code[pc].opcode) ==>
      (JumpTo(code, code[pc], m).At? ==> JumpTo(code, code[pc], m).pc > 0)
  {
    assert code[0] == code[..3][0];
  }

  /** However far the code has run: it has not faulted; after a return rsp is just above the return address for a call
      that never came back to the start, and eight bytes lower for each time it did; it is frame safe as long as
      control has not come back; and a return leads back into the caller exactly when it never has. */
  ghost predicate CallSafe(code: Program, size: nat, m: Machine, k: nat) {
    var s, n := Steps(code, At(0, m), k), Reentries(code, At(0, m), k);
    && !s.Fault? && (n == 0 ==> FrameSafe(code, size, m, k))
    && (s.Returned? ==> s.m.regs[RSP] == Wrap(m.regs[RSP] + 8 - 8 * n))
    && (s.Returned? && n < 0x2000_0000_0000_0000 ==> (BackInCaller(m, s.returnTo, s.m) <==> n == 0))
  }

  lemma FramedIsSafe(code: Program, fr: Frame, size: nat, m: Machine, k: nat)
    requires Framed(fr.slots, code) && FrameFits(fr, size) && FrameOf(fr, m)
    ensures CallSafe(code, size, m, k)
  {
    hide Framed, FrameFits, SameOutside, Read64, Steps, Reentries, FrameOf, FrameSafe;
    var s, n := Steps(code, At(0, m), k), Reentries(code, At(0, m), k);
    PrologueStarts(fr.slots, code);
    StepsTrack(fr.slots, code, m.regs[RSP], At(0, m), k);
    if n == 0 {
      SafeUntilReentry(code, fr, size, m, k);
      ReturnedIsBack(code, size, m, k);
    }
    WrapCongruent(m.regs[RSP] - 8 * n, 8);
  }

  lemma ReturnedIsBack(code: Program, size: nat, m: Machine, k: nat)
    requires FrameSafe(code, size, m, k)
    ensures var s := Steps(code, At(0, m), k); s.Returned? ==> BackInCaller(m, s.returnTo, s.m)
  {
    hide SameOutside, Read64, Steps;
  }

  lemma SafeWithoutReentry(code: Program, size: nat, m: Machine, k: nat)
    requires CallSafe(code, size, m, k) && Reentries(code, At(0, m), k) == 0
    ensures FrameSafe(code, size, m, k)
  {
    hide FrameSafe, Steps, BackInCaller;
  }

  lemma StepsNone(code: Program, s: Status)
    ensures Steps(code, s, 0) == s
  {
  }

  lemma PrologueStarts(slots: Slots, code: Program)
    requires Framed(slots, code)
    ensures |code| > 3 && code[..3] == EntryCode()
  {
  }

  lemma FitsSize(fr: Frame, size: nat)
    requires FrameFits(fr, size)
    ensures size <= 0x8000_0000
  {
  }

  lemma NothingOutside(base: Word, size: nat, mem: Memory)
    ensures SameOutside(base, size, mem, mem)
  {
  }

  // ---- Everything that is emitted stays inside the frame

  lemma StaysAppend(slots: Slots, low: nat, a: Program, b: Program)
    requires StaysInFrame(slots, low, a) && StaysInFrame(slots, low, b)
    ensures StaysInFrame(slots, low, a + b)
  {
    hide InFrame;
    var c := a + b;
    forall k | 0 <= k < |c|
      ensures InFrame(slots, c[k]) && InPlace(c, k)
    {
      if k < |a| {
        assert InPlace(a, k);
      } else {
        assert c[k] == b[k - |a|] && InPlace(b, k - |a|);
      }
    }
  }

  lemma PlaceIsSource(fr: Frame, v: Value)
    requires HasPlace(fr, v)
    ensures IsSource(fr.slots, Place(fr, v))
  {
    if !v.Const? {
      var a := if v.Def? then fr.homes[v.id] else v.id;
      assert Place(fr, v) == MemBaseDisp(RBP, Disp32(fr.slots[a]));
    }
  }

  lemma SlotIsScratch(fr: Frame, a: nat)
    requires a in fr.slots
    ensures IsScratch(fr.slots, SlotOperand(fr, a))
  {
    assert SlotOperand(fr, a) == MemBaseDisp(RBP, Disp32(fr.slots[a]));
  }

  lemma MovStays(slots: Slots, low: nat, dst: Operand, src: Operand)
    requires IsScratch(slots, dst) && IsSource(slots, src)
    ensures StaysInFrame(slots, low, [Mov(dst, src)])
  {
  }

  lemma MoveStays(fr: Frame, low: nat, a: nat, v: Value)
    requires a in fr.slots && HasPlace(fr, v)
    ensures CanEmitOp(fr.slots, Loc(fr, v)) && StaysInFrame(fr.slots, low, EmitMove(fr.slots, Alloc(a), Loc(fr, v)))
  {
    hide StaysInFrame, IsScratch;
    LocPlace(fr, v);
    PlaceIsSource(fr, v);
    SlotIsScratch(fr, a);
    ScratchIsScratch(fr.slots);
    if v.Const? {
      MovStays(fr.slots, low, SlotOperand(fr, a), Place(fr, v));
    } else {
      MovStays(fr.slots, low, Reg(RCX), Place(fr, v));
      MovStays(fr.slots, low, SlotOperand(fr, a), Reg(RCX));
      var load, store := Mov(Reg(RCX), Place(fr, v)), Mov(SlotOperand(fr, a), Reg(RCX));
      StaysAppend(fr.slots, low, [load], [store]);
      assert EmitMove(fr.slots, Alloc(a), Loc(fr, v)) == [load] + [store];
    }
  }

  lemma ScratchIsScratch(slots: Slots)
    ensures IsScratch(slots, Reg(RAX)) && IsScratch(slots, Reg(RCX))
  {
  }

  lemma OperationStays(fr: Frame, low: nat, x: nat, lhs: Value, rhs: Value, operation: Program)
    requires HasPlace(fr, lhs) && HasPlace(fr, rhs) && x in fr.homes && fr.homes[x] in fr.slots
    requires StaysInFrame(fr.slots, low, operation)
    ensures StaysInFrame(fr.slots, low, OperationGroup(fr, x, lhs, rhs, operation))
  {
    hide StaysInFrame, IsScratch, Place, Mov, SlotOperand;
    PlaceIsSource(fr, lhs);
    PlaceIsSource(fr, rhs);
    SlotIsScratch(fr, fr.homes[x]);
    ScratchIsScratch(fr.slots);
    var m1, m2, m3 := Mov(Reg(RAX), Place(fr, lhs)), Mov(Reg(RCX), Place(fr, rhs)),
      Mov(SlotOperand(fr, fr.homes[x]), Reg(RAX));
    MovStays(fr.slots, low, Reg(RAX), Place(fr, lhs));
    MovStays(fr.slots, low, Reg(RCX), Place(fr, rhs));
    MovStays(fr.slots, low, SlotOperand(fr, fr.homes[x]), Reg(RAX));
    StaysAppend(fr.slots, low, [m1], [m2]);
    StaysAppend(fr.slots, low, [m1] + [m2], operation);
    StaysAppend(fr.slots, low, [m1] + [m2] + operation, [m3]);
  }

  lemma BinaryStays(slots: Slots, low: nat, op: BinaryOp)
    requires op != Shl
    ensures StaysInFrame(slots, low, [Machine64(BinaryOpcode(op), [Reg(RAX), Reg(RCX)])])
  {
    BinaryOpcodeIs(op);
  }

  lemma CompareStays(slots: Slots, low: nat, pred: ComparePred)
    ensures StaysInFrame(slots, low, CompareGroup(pred))
  {
  }

  lemma NothingStays(slots: Slots, low: nat)
    ensures StaysInFrame(slots, low, [])
  {
  }

  // What an instruction of the body of a block becomes.
  lemma LoweredStays(fr: Frame, low: nat, n: Naming, labels: Labels, base: nat, i: Inst)
    requires FrameOk(fr) && NamingOk(fr, n) && InstOk(fr, n, i) && InBody(i)
    ensures ListOk(fr.slots, labels, Lowered(n, base, i))
    ensures StaysInFrame(fr.slots, low, Emit(fr.slots, labels, Lowered(n, base, i)))
  {
    hide FrameOk, NamingOk, StaysInFrame, OperationGroup, EmitMove;
    if i.BinaryInst? {
      FinalOfName(fr, n, i.id, NewDef(i.id));
      OperationEmitted(fr, n, labels, i.id, i.lhs, i.rhs, BinaryInst(base + i.id, i.op, Phys(0), Phys(1)));
      BinaryStays(fr.slots, low, i.op);
      OperationStays(fr, low, i.id, i.lhs, i.rhs, [Machine64(BinaryOpcode(i.op), [Reg(RAX), Reg(RCX)])]);
    } else if i.CompareInst? {
      FinalOfName(fr, n, i.id, NewDef(i.id));
      OperationEmitted(fr, n, labels, i.id, i.lhs, i.rhs, CompareInst(base + i.id, i.pred, Phys(0), Phys(1)));
      CompareStays(fr.slots, low, i.pred);
      OperationStays(fr, low, i.id, i.lhs, i.rhs, CompareGroup(i.pred));
    } else if i.LoadInst? {
      FinalOfName(fr, n, i.id, LoadReg(i.id));
      OneMove(fr, n, labels, Virt(LoadReg(i.id)), i.ptr, fr.homes[i.id]);
      MoveStays(fr, low, fr.homes[i.id], i.ptr);
    } else if i.StoreInst? {
      FinalLoc(fr, n, i.ptr);
      OneMove(fr, n, labels, i.ptr, i.val, i.ptr.id);
      MoveStays(fr, low, i.ptr.id, i.val);
    } else {
      NothingStays(fr.slots, low);
      if i.AllocInst? {
        FinalOne(n, i);
        EmitOne(fr.slots, labels, i);
      }
    }
  }

  lemma {:induction false} BodyStays(fr: Frame, low: nat, n: Naming, labels: Labels, base: nat, b: Block, k: nat)
    requires FrameOk(fr) && NamingOk(fr, n) && k <= |b| && BodyOk(fr, n, b, k)
    ensures ListOk(fr.slots, labels, BodyCode(n, base, b, k))
    ensures StaysInFrame(fr.slots, low, Emit(fr.slots, labels, BodyCode(n, base, b, k)))
  {
    hide FrameOk, NamingOk, StaysInFrame, CanEmit, InstOk, Lowered, Final, EmitBlock;
    if k == 0 {
      FinalNothing(n);
      NothingEmitted(fr.slots, labels);
      NothingStays(fr.slots, low);
    } else {
      BodyStays(fr, low, n, labels, base, b, k - 1);
      LoweredStays(fr, low, n, labels, base, b[k - 1]);
      BodyCodeStep(n, base, b, k - 1);
      EmitAppend(fr.slots, labels, BodyCode(n, base, b, k - 1), Lowered(n, base, b[k - 1]));
      StaysAppend(fr.slots, low, Emit(fr.slots, labels, BodyCode(n, base, b, k - 1)),
        Emit(fr.slots, labels, Lowered(n, base, b[k - 1])));
    }
  }

  lemma NothingEmitted(slots: Slots, labels: Labels)
    ensures ListOk(slots, labels, []) && Emit(slots, labels, []) == []
  {
  }

  lemma {:induction false} CopiesStay(fr: Frame, low: nat, n: Naming, labels: Labels, d: Block, a: nat, k: nat,
      b: BlockId)
    requires FrameOk(fr) && NamingOk(fr, n) && a <= k <= |d| && PhisOk(fr, n, d)
    ensures ListOk(fr.slots, labels, Final(n, M.CopiesIn(d, a, k, b)))
    ensures StaysInFrame(fr.slots, low, Emit(fr.slots, labels, Final(n, M.CopiesIn(d, a, k, b))))
    decreases k
  {
    hide FrameOk, NamingOk, StaysInFrame, CanEmit, InstOk, Final, EmitBlock, M.PhiCopy, EmitMove;
    if k == a {
      FinalNothing(n);
      NothingEmitted(fr.slots, labels);
      NothingStays(fr.slots, low);
    } else {
      var i := d[k - 1];
      CopiesStay(fr, low, n, labels, d, a, k - 1, b);
      CopiesStep(n, d, a, k - 1, b);
      if IsCopy(i, b) {
        CopyStays(fr, low, n, labels, i, b);
        EmitAppend(fr.slots, labels, Final(n, M.CopiesIn(d, a, k - 1, b)), Final(n, M.PhiCopy(i, b)));
        StaysAppend(fr.slots, low, Emit(fr.slots, labels, Final(n, M.CopiesIn(d, a, k - 1, b))),
                    Emit(fr.slots, labels, Final(n, M.PhiCopy(i, b))));
      }
    }
  }

  lemma CopyStays(fr: Frame, low: nat, n: Naming, labels: Labels, i: Inst, b: BlockId)
    requires FrameOk(fr) && NamingOk(fr, n) && InstOk(fr, n, i) && IsCopy(i, b)
    ensures ListOk(fr.slots, labels, Final(n, M.PhiCopy(i, b)))
    ensures StaysInFrame(fr.slots, low, Emit(fr.slots, labels, Final(n, M.PhiCopy(i, b))))
  {
    hide NamingOk, StaysInFrame, Final, EmitBlock, ListOk, M.PhiCopy, EmitMove;
    CopyEmitted(fr, n, labels, i, b);
    MoveStays(fr, low, fr.homes[i.id], i.incoming[b]);
  }

  // ---- Terminators

  lemma JumpStays(slots: Slots, low: nat, t: nat)
    requires t >= low
    ensures StaysInFrame(slots, low, [Machine64(OpJmp, [Label(t)])]) && LeavesLast([Machine64(OpJmp, [Label(t)])])
  {
  }

  lemma JumpsStay(fr: Frame, low: nat, labels: Labels, a: nat, falseDst: BlockId, trueDst: BlockId)
    requires a in fr.slots && falseDst in labels && trueDst in labels
    requires labels[falseDst] >= low && labels[trueDst] >= low
    ensures StaysInFrame(fr.slots, low, JumpsCode(fr, labels, a, falseDst, trueDst))
    ensures LeavesLast(JumpsCode(fr, labels, a, falseDst, trueDst))
  {
    hide IsScratch, SlotOperand;
    SlotIsScratch(fr, a);
  }

  lemma ResultStays(fr: Frame, low: nat, v: Value)
    requires HasPlace(fr, v)
    ensures StaysInFrame(fr.slots, low, [Mov(Reg(RAX), Place(fr, v))])
  {
    hide StaysInFrame, IsScratch, Place;
    PlaceIsSource(fr, v);
    ScratchIsScratch(fr.slots);
    MovStays(fr.slots, low, Reg(RAX), Place(fr, v));
  }

  lemma LeaveStays(slots: Slots, low: nat)
    ensures StaysInFrame(slots, low, LeaveCode()) && LeavesLast(LeaveCode())
  {
  }

  // Blocks that can be jumped to have labels from low on.
  ghost predicate TargetsFrom(u: Unit, low: nat) {
    forall b, d {:trigger d in InstTargets(LastOf(u.f.blocks[b]))} ::
      b in u.l.order && b in u.f.blocks && u.f.blocks[b] != [] && d in InstTargets(LastOf(u.f.blocks[b]))
        && d in u.l.labels ==>
        u.l.labels[d] >= low
  }

  lemma LaterLabel(u: Unit, low: nat, b: BlockId, d: BlockId)
    requires LayoutOk(u.l) && TargetOk(u, d) && TargetsFrom(u, low) && b in u.l.order && b in u.f.blocks
    requires u.f.blocks[b] != [] && d in InstTargets(LastOf(u.f.blocks[b]))
    ensures d in u.l.labels && u.l.labels[d] >= low
  {
    LabelIndex(u.l, d);
  }

  // What stands in front of the exit, and the exit.
  lemma ExitStays(u: Unit, fr: Frame, low: nat, b: BlockId)
    requires UnitOk(u, fr) && b in u.l.order && PartsOk(u, b) && TargetsFrom(u, low)
    ensures StaysInFrame(fr.slots, low, Segment(u, FrontPart(u, b)))
    ensures StaysInFrame(fr.slots, low, Segment(u, ExitPart(u, b))) && LeavesLast(Segment(u, ExitPart(u, b)))
  {
    hide UnitOk, LayoutOk, FrameOk, NamingOk, StaysInFrame, LeavesLast, EmitBlock, ListOk, EmitMove, TargetOk,
      BlockLowered, M.Front, M.Exit, Final, IsSpare, JumpsCode, LeaveCode, PhisOk;
    UnitBlock(u, fr, b);
    var last := LastOf(u.f.blocks[b]);
    if last.BranchInst? {
      LaterLabel(u, low, b, last.dst);
      BranchEmitted(u, b, last.dst);
      NothingStays(fr.slots, low);
      JumpStays(fr.slots, low, u.l.labels[last.dst]);
    } else if last.CondBranchInst? {
      LaterLabel(u, low, b, last.falseDst);
      LaterLabel(u, low, b, last.trueDst);
      CondBranchEmitted(fr, u.n, u.l.labels, u.base, u.keys[b], last, b in u.c.shared);
      MoveStays(fr, low, KeySlot(u.n, u.keys[b]), last.cond);
      JumpsStay(fr, low, u.l.labels, KeySlot(u.n, u.keys[b]), last.falseDst, last.trueDst);
    } else {
      RetEmitted(fr, u.n, u.l.labels, u.base, u.keys[b], last);
      ResultStays(fr, low, last.retVal);
      LeaveStays(fr.slots, low);
    }
  }

  // ---- Blocks and the whole code

  lemma EndStays(u: Unit, fr: Frame, low: nat, b: BlockId)
    requires UnitOk(u, fr) && b in u.l.order && PartsOk(u, b) && TargetsFrom(u, low)
    ensures StaysInFrame(fr.slots, low, EndCode(u, b)) && LeavesLast(EndCode(u, b))
  {
    hide UnitOk, LayoutOk, FrameOk, NamingOk, StaysInFrame, EmitBlock, ListOk, Final, M.CopiesIn, PhisOk, BlockLowered,
      BodyPart, FrontPart, ExitPart, TargetsFrom;
    UnitBlock(u, fr, b);
    var d, cut := u.c.phis, Cut(u.c, b);
    CopiesStay(fr, low, u.n, u.l.labels, d, 0, cut, b);
    CopiesStay(fr, low, u.n, u.l.labels, d, cut, |d|, b);
    ExitStays(u, fr, low, b);
    var e, f, l, z := Segment(u, EarlyPart(u, b)), Segment(u, FrontPart(u, b)), Segment(u, LatePart(u, b)),
      Segment(u, ExitPart(u, b));
    StaysAppend(fr.slots, low, e, f);
    StaysAppend(fr.slots, low, e + f, l);
    StaysAppend(fr.slots, low, e + f + l, z);
  }

  // A block's code is its start and code that stays inside the frame and ends by leaving the block.
  lemma BlockStays(u: Unit, fr: Frame, low: nat, b: BlockId) returns (rest: Program)
    requires UnitOk(u, fr) && b in u.l.order && TargetsFrom(u, low)
    ensures LayoutOk(u.l) && b in u.l.labels && CodeOfBlock(u.l, b) == BlockStart(u.l.h, u.l.labels, b) + rest
    ensures StaysInFrame(fr.slots, low, rest) && LeavesLast(rest)
  {
    hide UnitOk, LayoutOk, FrameOk, NamingOk, StaysInFrame, EmitBlock, ListOk, InstOk, BlockLowered, TerminatorOk,
      Final, BodyCode, BlockStart, EndCode, EarlyPart, LatePart, FrontPart, ExitPart;
    UnitBlock(u, fr, b);
    BlockLoweredIs(u, b);
    BlockIs(u, b);
    LabelIndex(u.l, b);
    BodyStays(fr, low, u.n, u.l.labels, u.base, u.f.blocks[b], |u.f.blocks[b]| - 1);
    EndStays(u, fr, low, b);
    StaysAppend(fr.slots, low, Segment(u, BodyPart(u, b)), EndCode(u, b));
    rest := Segment(u, BodyPart(u, b)) + EndCode(u, b);
  }

  lemma OnlyLabel(u: Unit, fr: Frame, low: nat, b: BlockId)
    requires LayoutOk(u.l) && b in u.l.labels && b in u.l.order
    ensures b != Entry(u.l.h) ==> BlockStart(u.l.h, u.l.labels, b) == [Machine64(OpLabel, [Label(u.l.labels[b])])]
    ensures b == Entry(u.l.h) && u.l.labels[b] == 0 ==> BlockStart(u.l.h, u.l.labels, b) == EntryCode()
    ensures StaysInFrame(fr.slots, low, [Machine64(OpLabel, [Label(u.l.labels[b])])])
  {
  }

  // The code of the first n blocks, from the prologue on.
  lemma {:induction false} CodeStays(u: Unit, fr: Frame, low: nat, n: nat) returns (rest: Program)
    requires UnitOk(u, fr) && 0 < n <= |u.l.order| && u.l.order[0] == Entry(u.l.h) && TargetsFrom(u, low)
    ensures LayoutOk(u.l) && CodeUpTo(u.l, n) == EntryCode() + rest
    ensures StaysInFrame(fr.slots, low, rest) && LeavesLast(rest)
  {
    hide UnitOk, LayoutOk, StaysInFrame, BlockStart, BlockCode, Code;
    UnitLayout(u, fr);
    var b := u.l.order[n - 1];
    OrderLabel(u.l, n - 1);
    CodeStep(u.l, n - 1);
    OnlyLabel(u, fr, low, b);
    var here := BlockStays(u, fr, low, b);
    if n == 1 {
      CodeOfNone(u.l);
      rest := here;
      assert [] + (EntryCode() + here) == EntryCode() + here;
    } else {
      var before := CodeStays(u, fr, low, n - 1);
      EntryOnce(u.l, n - 1);
      var start := [Machine64(OpLabel, [Label(u.l.labels[b])])];
      StaysAppend(fr.slots, low, start, here);
      StaysAppend(fr.slots, low, before, start + here);
      rest := before + (start + here);
      assert (EntryCode() + before) + (start + here) == EntryCode() + rest;
    }
  }

  lemma CodeOfNone(l: Layout)
    requires LayoutOk(l)
    ensures CodeUpTo(l, 0) == []
  {
  }

  lemma EntryOnce(l: Layout, j: nat)
    requires LayoutOk(l) && 0 < j < |l.order| && l.order[0] == Entry(l.h)
    ensures l.order[j] != Entry(l.h)
  {
    OrderLabel(l, 0);
    OrderLabel(l, j);
  }

  lemma CodeIsFramed(u: Unit, fr: Frame, low: nat)
    requires UnitOk(u, fr) && u.l.order != [] && u.l.order[0] == Entry(u.l.h) && TargetsFrom(u, low)
    ensures LayoutOk(u.l) && Framed(fr.slots, CodeOf(u.l)) && |CodeOf(u.l)| > 3
    ensures StaysInFrame(fr.slots, low, CodeOf(u.l)[3..])
  {
    hide UnitOk, LayoutOk, Code, LabelsResolve, InFrame, TargetsFrom;
    UnitLayout(u, fr);
    var rest := CodeStays(u, fr, low, |u.l.order|);
    AllLabelsResolve(u.l);
    assert CodeOf(u.l)[..3] == EntryCode();
    assert CodeOf(u.l)[3..] == rest;
  }

  /** The code of a function is safe for its frame, for every machine and every number of steps. */
  lemma CodeIsFrameSafe(u: Unit, fr: Frame, size: nat, m: Machine, k: nat)
    requires UnitOk(u, fr) && u.l.order != [] && u.l.order[0] == Entry(u.l.h) && FrameFits(fr, size) && FrameOf(fr, m)
    ensures LayoutOk(u.l) && CallSafe(CodeOf(u.l), size, m, k)
    ensures TargetsFrom(u, 1) ==> FrameSafe(CodeOf(u.l), size, m, k)
  {
    hide UnitOk, LayoutOk, Framed, FrameFits, FrameOf, FrameSafe, CallSafe, StaysInFrame;
    assert TargetsFrom(u, 0);
    CodeIsFramed(u, fr, 0);
    FramedIsSafe(CodeOf(u.l), fr, size, m, k);
    if TargetsFrom(u, 1) {
      CodeIsFramed(u, fr, 1);
      NoWayBack(fr.slots, CodeOf(u.l), At(0, m), k);
      SafeWithoutReentry(CodeOf(u.l), size, m, k);
    }
  }
}

/** What the group of machine instructions emitted for one IR instruction does. */
module GroupSim {
  import opened Words
  import opened X86
  import opened Ir
  import opened MachineRun
  import opened Backend
  import opened StackFrame

  // Where a value is after allocation.
  ghost function Loc(fr: Frame, v: Value): Value
    requires HasPlace(fr, v)
  {
    if v.Def? then Alloc(fr.homes[v.id]) else v
  }

  lemma LocPlace(fr: Frame, v: Value)
    requires HasPlace(fr, v)
    ensures CanEmitOp(fr.slots, Loc(fr, v)) && EmitOp(fr.slots, Loc(fr, v)) == Place(fr, v)
  {
  }

  function Mov(dst: Operand, src: Operand): MachineInst {
    Machine64(OpMov, [dst, src])
  }

  // A 64-bit move executes.
  lemma MovExec(dst: Operand, src: Operand, m: Machine)
    requires Writable(dst) && Readable(src)
    ensures ExecData(Mov(dst, src), m) == Some(Set(dst, Get(src, m), m))
  {
  }

  lemma ExecCons(i: MachineInst, rest: Program, m: Machine, m1: Machine)
    requires ExecData(i, m) == Some(m1)
    ensures ExecList([i] + rest, m) == ExecList(rest, m1)
  {
    assert ([i] + rest)[1..] == rest;
  }

  // rcx takes the value on its way between two slots.
  ghost function Moved(fr: Frame, m: Machine, a: nat, v: Value, w: Word): Machine
    requires a in fr.slots
  {
    WithSlot(fr, if v.Const? then m else m.(regs := m.regs[RCX := w]), a, w)
  }

  // The code that moves a value to a slot.
  lemma MoveExec(fr: Frame, st: State, m: Machine, a: nat, v: Value)
    requires FrameOk(fr) && Related(fr, st, m) && a in fr.slots && HasPlace(fr, v)
    ensures CanEmitOp(fr.slots, Loc(fr, v)) && Readable(Place(fr, v))
    ensures ExecList(EmitMove(fr.slots, Alloc(a), Loc(fr, v)), m) == Some(Moved(fr, m, a, v, Get(Place(fr, v), m)))
  {
    hide EnvHeld, CellsHeld, FrameOk, ExecData, Get, Set, Address;
    LocPlace(fr, v);
    PlaceHolds(fr, st, m, v);
    var w := Get(Place(fr, v), m);
    var slot := SlotOperand(fr, a);
    assert EmitOp(fr.slots, Alloc(a)) == slot;
    SlotOperandSet(fr, m, a, w);
    if v.Const? {
      MovExec(slot, Place(fr, v), m);
      ExecOne(Mov(slot, Place(fr, v)), m);
    } else {
      var m1 := m.(regs := m.regs[RCX := w]);
      SetReg(RCX, w, m);
      MovExec(Reg(RCX), Place(fr, v), m);
      SlotOperandSet(fr, m1, a, w);
      GetReg(RCX, m1);
      MovExec(slot, Reg(RCX), m1);
      ExecCons(Mov(Reg(RCX), Place(fr, v)), [Mov(slot, Reg(RCX))], m, m1);
      ExecOne(Mov(slot, Reg(RCX)), m1);
    }
  }

  lemma SetReg(r: nat, w: Word, m: Machine)
    requires r < 16
    ensures Writable(Reg(r)) && Set(Reg(r), w, m) == m.(regs := m.regs[r := w])
  {
  }

  lemma GetReg(r: nat, m: Machine)
    requires r < 16
    ensures Readable(Reg(r)) && Get(Reg(r), m) == m.regs[r]
  {
  }

  lemma RelatedFits(fr: Frame, st: State, m: Machine)
    requires Related(fr, st, m)
    ensures Fits(fr.slots)
  {
  }

  // A value moved to the slot of a result.
  lemma CopySim(fr: Frame, st: State, m: Machine, x: nat, v: Value) returns (m': Machine)
    requires FrameOk(fr) && Related(fr, st, m) && x in fr.homes && fr.homes[x] in fr.slots && HasPlace(fr, v)
    ensures CanEmitOp(fr.slots, Loc(fr, v)) && Readable(Place(fr, v))
    ensures ExecList(EmitMove(fr.slots, Alloc(fr.homes[x]), Loc(fr, v)), m) == Some(m')
    ensures Related(fr, st.(env := st.env[x := Get(Place(fr, v), m)]), m')
    ensures SparesKept(fr, m, m') && m'.regs[RAX] == m.regs[RAX]
  {
    hide EnvHeld, CellsHeld, FrameOk, FrameKept, ExecData, Get, Address, SlotValue;
    MoveExec(fr, st, m, fr.homes[x], v);
    var w := Get(Place(fr, v), m);
    m' := Moved(fr, m, fr.homes[x], v, w);
    var m1 := if v.Const? then m else m.(regs := m.regs[RCX := w]);
    ScratchChanged(fr, st, m, m1);
    WriteHome(fr, st, m1, x, w);
    RelatedFits(fr, st, m);
    HomeKeepsSpares(fr, m1, x, w);
  }

  /** A store to a variable. */
  lemma StoreSim(fr: Frame, st: State, m: Machine, id: nat, a: nat, v: Value) returns (m': Machine)
    requires FrameOk(fr) && Related(fr, st, m) && a in fr.vars && a in fr.slots && HasPlace(fr, v) && !v.Alloc?
    requires ExecInst(StoreInst(id, Alloc(a), v), st).Fell?
    ensures CanEmitOp(fr.slots, Loc(fr, v))
    ensures ExecList(EmitMove(fr.slots, Alloc(a), Loc(fr, v)), m) == Some(m')
    ensures Related(fr, ExecInst(StoreInst(id, Alloc(a), v), st).st, m')
  {
    hide EnvHeld, CellsHeld, FrameOk, FrameKept, ExecData, Get, Address;
    PlaceHolds(fr, st, m, v);
    MoveExec(fr, st, m, a, v);
    var w := Get(Place(fr, v), m);
    m' := Moved(fr, m, a, v, w);
    var m1 := if v.Const? then m else m.(regs := m.regs[RCX := w]);
    ScratchChanged(fr, st, m, m1);
    WriteVar(fr, st, m1, a, w);
  }

  /** A load from a variable; an undefined one leaves some value in its slot. */
  lemma LoadSim(fr: Frame, st: State, m: Machine, x: nat, a: nat) returns (m': Machine)
    requires FrameOk(fr) && Related(fr, st, m) && a in fr.slots && x in fr.homes && fr.homes[x] in fr.slots
    ensures ExecList(EmitMove(fr.slots, Alloc(fr.homes[x]), Alloc(a)), m) == Some(m')
    ensures Related(fr, ExecInst(LoadInst(x, Alloc(a)), st).st, m')
  {
    hide EnvHeld, CellsHeld, FrameOk, FrameKept, ExecData, Get, Address;
    PlaceHolds(fr, st, m, Alloc(a));
    m' := CopySim(fr, st, m, x, Alloc(a));
    var w := Get(Place(fr, Alloc(a)), m);
    FewerResults(fr, st.(env := st.env[x := w]), m', ExecInst(LoadInst(x, Alloc(a)), st).st.env);
  }

  // Both operands in the scratch registers.
  lemma OperandsExec(fr: Frame, st: State, m: Machine, lhs: Value, rhs: Value, l: Word, r: Word) returns (m': Machine)
    requires FrameOk(fr) && Related(fr, st, m) && HasPlace(fr, lhs) && HasPlace(fr, rhs)
    requires Eval(lhs, st.env) == Some(l) && Eval(rhs, st.env) == Some(r)
    ensures m' == m.(regs := m.regs[RAX := l][RCX := r]) && Related(fr, st, m')
    ensures ExecList([Mov(Reg(RAX), Place(fr, lhs))] + [Mov(Reg(RCX), Place(fr, rhs))], m) == Some(m')
  {
    hide EnvHeld, CellsHeld, FrameOk, FrameKept, ExecData, Get, Set, Address;
    PlaceHolds(fr, st, m, lhs);
    SetReg(RAX, l, m);
    MovExec(Reg(RAX), Place(fr, lhs), m);
    var m1 := m.(regs := m.regs[RAX := l]);
    ScratchChanged(fr, st, m, m1);
    PlaceHolds(fr, st, m1, rhs);
    SetReg(RCX, r, m1);
    MovExec(Reg(RCX), Place(fr, rhs), m1);
    m' := m1.(regs := m1.regs[RCX := r]);
    ScratchChanged(fr, st, m1, m');
    ExecCons(Mov(Reg(RAX), Place(fr, lhs)), [Mov(Reg(RCX), Place(fr, rhs))], m, m1);
    ExecOne(Mov(Reg(RCX), Place(fr, rhs)), m1);
  }

  // rax moved to the slot of a result.
  lemma ResultExec(fr: Frame, st: State, m: Machine, x: nat) returns (m': Machine)
    requires FrameOk(fr) && Related(fr, st, m) && x in fr.homes && fr.homes[x] in fr.slots
    ensures ExecList([Mov(SlotOperand(fr, fr.homes[x]), Reg(RAX))], m) == Some(m')
    ensures Related(fr, st.(env := st.env[x := m.regs[RAX]]), m')
  {
    hide EnvHeld, CellsHeld, FrameOk, ExecData, Get, Set, Address;
    var slot := SlotOperand(fr, fr.homes[x]);
    GetReg(RAX, m);
    SlotOperandSet(fr, m, fr.homes[x], m.regs[RAX]);
    MovExec(slot, Reg(RAX), m);
    ExecOne(Mov(slot, Reg(RAX)), m);
    m' := WithSlot(fr, m, fr.homes[x], m.regs[RAX]);
    WriteHome(fr, st, m, x, m.regs[RAX]);
  }

  ghost function OperationGroup(fr: Frame, x: nat, lhs: Value, rhs: Value, operation: Program): Program
    requires HasPlace(fr, lhs) && HasPlace(fr, rhs) && x in fr.homes && fr.homes[x] in fr.slots
  {
    [Mov(Reg(RAX), Place(fr, lhs))] + [Mov(Reg(RCX), Place(fr, rhs))] + operation
      + [Mov(SlotOperand(fr, fr.homes[x]), Reg(RAX))]
  }

  // The operation in the middle leaves w in rax and no other trace but in the flags.
  lemma GroupExec(fr: Frame, st: State, m: Machine, x: nat, lhs: Value, rhs: Value, operation: Program, l: Word,
      r: Word, w: Word, flags: Option<Flags>)
      returns (m': Machine)
    requires FrameOk(fr) && Related(fr, st, m) && HasPlace(fr, lhs) && HasPlace(fr, rhs) && x in fr.homes
    requires fr.homes[x] in fr.slots
    requires Eval(lhs, st.env) == Some(l) && Eval(rhs, st.env) == Some(r)
    requires var m1 := m.(regs := m.regs[RAX := l][RCX := r]);
      ExecList(operation, m1) == Some(m1.(regs := m1.regs[RAX := w], flags := flags))
    ensures ExecList(OperationGroup(fr, x, lhs, rhs, operation), m) == Some(m')
    ensures Related(fr, st.(env := st.env[x := w]), m')
  {
    hide EnvHeld, CellsHeld, FrameOk, FrameKept, ExecList;
    var m1 := OperandsExec(fr, st, m, lhs, rhs, l, r);
    var m2 := m1.(regs := m1.regs[RAX := w], flags := flags);
    ScratchChanged(fr, st, m1, m2);
    m' := ResultExec(fr, st, m2, x);
    var front := [Mov(Reg(RAX), Place(fr, lhs))] + [Mov(Reg(RCX), Place(fr, rhs))];
    ExecListAppend(front, operation, m);
    ExecListAppend(front + operation, [Mov(SlotOperand(fr, fr.homes[x]), Reg(RAX))], m);
  }

  lemma BinaryOpcodeIs(op: BinaryOp)
    requires op != Shl
    ensures BinaryOf(BinaryOpcode(op)) == Some(op) && !IsSet(BinaryOpcode(op))
  {
  }

  lemma BinaryData(op: BinaryOp, i: MachineInst, m: Machine)
    requires BinaryOf(i.opcode) == Some(op) && !IsSet(i.opcode)
    ensures ExecData(i, m) == ExecBinary(op, i, m)
  {
    hide ExecBinary;
  }

  lemma BinaryExec(op: BinaryOp, m: Machine)
    requires op != Shl
    ensures ExecList([Machine64(BinaryOpcode(op), [Reg(RAX), Reg(RCX)])], m)
         == Some(m.(regs := m.regs[RAX := EvalBinary(op, m.regs[RAX], m.regs[RCX])], flags := None))
  {
    hide EvalBinary, ExecData, BinaryOf, BinaryOpcode, ExecList;
    var i := Machine64(BinaryOpcode(op), [Reg(RAX), Reg(RCX)]);
    BinaryOpcodeIs(op);
    BinaryData(op, i, m);
    ExecOne(i, m);
  }

  /** A binary operation. */
  lemma BinarySim(fr: Frame, st: State, m: Machine, x: nat, op: BinaryOp, lhs: Value, rhs: Value) returns (m': Machine)
    requires FrameOk(fr) && Related(fr, st, m) && HasPlace(fr, lhs) && HasPlace(fr, rhs) && x in fr.homes
    requires fr.homes[x] in fr.slots
    requires op != Shl && ExecInst(BinaryInst(x, op, lhs, rhs), st).Fell?
    ensures ExecList(OperationGroup(fr, x, lhs, rhs, [Machine64(BinaryOpcode(op), [Reg(RAX), Reg(RCX)])]), m)
        == Some(m')
    ensures Related(fr, ExecInst(BinaryInst(x, op, lhs, rhs), st).st, m')
  {
    hide EnvHeld, CellsHeld, FrameOk, FrameKept, ExecList, EvalBinary;
    var l, r := Eval(lhs, st.env).value, Eval(rhs, st.env).value;
    var m1 := m.(regs := m.regs[RAX := l][RCX := r]);
    BinaryExec(op, m1);
    m' := GroupExec(fr, st, m, x, lhs, rhs, [Machine64(BinaryOpcode(op), [Reg(RAX), Reg(RCX)])], l, r,
      EvalBinary(op, l, r), None);
  }

  // ---- Compares

  /** setcc tests the flags of the compare as the IR does. */
  lemma SetMeansCompare(pred: ComparePred, a: Word, b: Word)
    ensures Condition(SetOpcode(pred), CompareFlags(a, b)) <==> Holds(pred, a, b)
  {
    var d := a - b;
    assert Wrap(d) == if d < 0 then d + TWO_TO_64 else d;
  }

  /** setcc only writes the low byte of the register that still holds the left operand, so it
      leaves the value of the compare exactly when that operand is below 256. */
  lemma SetccExact(pred: ComparePred, l: Word, r: Word)
    ensures SetLowByte(l, EvalCompare(pred, l, r)) == EvalCompare(pred, l, r) <==> l < 256
  {
  }

  function CompareGroup(pred: ComparePred): Program {
    [Machine64(OpCmp, [Reg(RAX), Reg(RCX)]), MachineInst(SetOpcode(pred), [Reg(RAX)], 8, 0, 0)]
  }

  lemma CompareExec(pred: ComparePred, m: Machine)
    ensures ExecList(CompareGroup(pred), m)
         == Some(m.(regs := m.regs[RAX := SetLowByte(m.regs[RAX], EvalCompare(pred, m.regs[RAX], m.regs[RCX]))],
                    flags := Some(CompareFlags(m.regs[RAX], m.regs[RCX]))))
  {
    hide CompareFlags, Condition, Holds;
    var cmp := Machine64(OpCmp, [Reg(RAX), Reg(RCX)]);
    var set_ := MachineInst(SetOpcode(pred), [Reg(RAX)], 8, 0, 0);
    var m1 := m.(flags := Some(CompareFlags(m.regs[RAX], m.regs[RCX])));
    SetMeansCompare(pred, m.regs[RAX], m.regs[RCX]);
    ExecCons(cmp, [set_], m, m1);
    ExecOne(set_, m1);
    assert [cmp] + [set_] == CompareGroup(pred);
  }

  /** A compare leaves what the IR computes exactly when its left operand is below 256. */
  lemma CompareSim(fr: Frame, st: State, m: Machine, x: nat, pred: ComparePred, lhs: Value, rhs: Value)
      returns (m': Machine)
    requires FrameOk(fr) && Related(fr, st, m) && HasPlace(fr, lhs) && HasPlace(fr, rhs) && x in fr.homes
    requires fr.homes[x] in fr.slots
    requires ExecInst(CompareInst(x, pred, lhs, rhs), st).Fell?
    ensures ExecList(OperationGroup(fr, x, lhs, rhs, CompareGroup(pred)), m) == Some(m')
    ensures Related(fr, ExecInst(CompareInst(x, pred, lhs, rhs), st).st, m') <==> Eval(lhs, st.env).value < 256
  {
    hide CellsHeld, FrameOk, FrameKept, ExecList, Holds, SetLowByte, CompareFlags, OperationGroup;
    var l, r := Eval(lhs, st.env).value, Eval(rhs, st.env).value;
    var m1 := m.(regs := m.regs[RAX := l][RCX := r]);
    CompareExec(pred, m1);
    var w := SetLowByte(l, EvalCompare(pred, l, r));
    m' := GroupExec(fr, st, m, x, lhs, rhs, CompareGroup(pred), l, r, w, Some(CompareFlags(l, r)));
    SetccExact(pred, l, r);
    var st1 := ExecInst(CompareInst(x, pred, lhs, rhs), st).st;
    assert st1.env[x] == EvalCompare(pred, l, r);
    assert st.env[x := w][x] == w;
  }
}

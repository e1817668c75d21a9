/** Running emitted code: labels, jumps and return. */
module MachineRun {
  import opened Words
  import opened X86

  type Program = seq<MachineInst>

  predicate IsLabel(i: MachineInst, t: nat) {
    i.opcode.OpLabel? && i.operands == [Label(t)]
  }

  // Where a label is emitted; the length of the program if it is not.
  function FindLabel(code: Program, t: nat): (pc: nat)
    ensures pc <= |code| && (pc < |code| ==> IsLabel(code[pc], t))
    ensures forall k :: 0 <= k < pc ==> !IsLabel(code[k], t)
  {
    if code == [] || IsLabel(code[0], t) then 0 else 1 + FindLabel(code[1..], t)
  }

  datatype Status =
    | At(pc: nat, m: Machine)
    | Returned(returnTo: Word, m: Machine)
    | Fault

  function JumpTo(code: Program, i: MachineInst, m: Machine): Status {
    if |i.operands| == 1 && i.operands[0].Label? && FindLabel(code, i.operands[0].target) < |code|
    then At(FindLabel(code, i.operands[0].target), m) else Fault
  }

  predicate IsConditional(opcode: Opcode) {
    opcode.OpJg? || opcode.OpJge? || opcode.OpJle? || opcode.OpJne?
  }

  function Step(code: Program, pc: nat, m: Machine): Status {
    if pc >= |code| then Fault
    else
      var i := code[pc];
      if i.opcode.OpJmp? then JumpTo(code, i, m)
      else if IsConditional(i.opcode) then
        if m.flags.None? then Fault
        else if Condition(i.opcode, m.flags.value) then JumpTo(code, i, m)
        else At(pc + 1, m)
      else if i.opcode.OpRet? then
        Returned(Read64(m.mem, m.regs[RSP]), m.(regs := m.regs[RSP := EvalBinary(Add, m.regs[RSP], 8)]))
      else
        var o := ExecData(i, m);
        if o.Some? then At(pc + 1, o.value) else Fault
  }

  function Steps(code: Program, s: Status, n: nat): Status
    decreases n
  {
    if n == 0 || !s.At? then s else Steps(code, Step(code, s.pc, s.m), n - 1)
  }

  // Straight-line code.
  function ExecList(code: Program, m: Machine): Option<Machine> {
    if code == [] then Some(m)
    else
      var o := ExecData(code[0], m);
      if o.Some? then ExecList(code[1..], o.value) else None
  }

  lemma ExecOne(i: MachineInst, m: Machine)
    ensures ExecList([i], m) == ExecData(i, m)
  {
  }

  lemma {:induction false} ExecListAppend(a: Program, b: Program, m: Machine)
    ensures ExecList(a + b, m) == (var o := ExecList(a, m); if o.Some? then ExecList(b, o.value) else None)
  {
    if a == [] {
      assert a + b == b;
    } else {
      assert (a + b)[1..] == a[1..] + b;
      var o := ExecData(a[0], m);
      if o.Some? {
        ExecListAppend(a[1..], b, o.value);
      }
    }
  }

  lemma {:induction false} StepsAppend(code: Program, s: Status, a: nat, b: nat)
    ensures Steps(code, s, a + b) == Steps(code, Steps(code, s, a), b)
    decreases a
  {
    if a > 0 && s.At? {
      StepsAppend(code, Step(code, s.pc, s.m), a - 1, b);
    }
  }

  lemma DataStep(code: Program, pc: nat, m: Machine)
    requires pc < |code| && ExecData(code[pc], m).Some?
    ensures Step(code, pc, m) == At(pc + 1, ExecData(code[pc], m).value)
  {
  }

  // A part of the program that is straight-line code runs as such.
  lemma {:induction false} RunData(code: Program, pc: nat, part: Program, m: Machine)
    requires pc + |part| <= |code| && code[pc..pc + |part|] == part && ExecList(part, m).Some?
    ensures Steps(code, At(pc, m), |part|) == At(pc + |part|, ExecList(part, m).value)
    decreases |part|
  {
    if part != [] {
      assert code[pc] == part[0];
      DataStep(code, pc, m);
      assert code[pc + 1..pc + 1 + |part[1..]|] == part[1..];
      RunData(code, pc + 1, part[1..], ExecData(part[0], m).value);
    }
  }
}

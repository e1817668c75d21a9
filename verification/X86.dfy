/** Machine instructions and what the data instructions do to registers, flags and memory. */
module X86 {
  import opened Words

  const RAX: nat := 0
  const RCX: nat := 1
  const RSP: nat := 4
  const RBP: nat := 5

  datatype Operand =
    | Imm(imm: Word)
    | Label(target: nat)
    | MemBaseDisp(base: nat, disp: int)
    | Reg(reg: nat)

  datatype Opcode =
    | OpAdd | OpAnd | OpCall | OpCmp | OpInc | OpJg | OpJge | OpJle | OpJmp | OpJne | OpLabel
    | OpMov | OpOr | OpPop | OpPush | OpRet | OpSete | OpSetl | OpSetne | OpShl | OpSub | OpXor

  // The address width is 64 bits for every instruction executed here.
  datatype MachineInst = MachineInst(opcode: Opcode, operands: seq<Operand>, operandWidth: nat,
                                     offset: nat, length: nat)

  datatype Flags = Flags(zf: bool, sf: bool, of: bool)

  type Registers = r: seq<Word> | |r| == 16 witness seq(16, _ => 0)

  // Flags are None after an instruction whose effect on them is not part of this model.
  datatype Machine = Machine(regs: Registers, flags: Option<Flags>, mem: Memory)

  function Address(base: nat, disp: int, m: Machine): Word
    requires base < 16
  {
    Wrap(m.regs[base] + disp)
  }

  predicate Readable(op: Operand) {
    match op
    case Imm(_) => true
    case Label(_) => false
    case MemBaseDisp(base, _) => base < 16
    case Reg(r) => r < 16
  }

  predicate Writable(op: Operand) {
    Readable(op) && !op.Imm?
  }

  function Get(op: Operand, m: Machine): Word
    requires Readable(op)
  {
    match op
    case Imm(w) => w
    case MemBaseDisp(base, disp) => Read64(m.mem, Address(base, disp, m))
    case Reg(r) => m.regs[r]
  }

  function Set(op: Operand, w: Word, m: Machine): Machine
    requires Writable(op)
  {
    match op
    case MemBaseDisp(base, disp) => m.(mem := Write64(m.mem, Address(base, disp, m), w))
    case Reg(r) => m.(regs := m.regs[r := w])
  }

  // The flags of a - b on 64-bit words.
  function CompareFlags(a: Word, b: Word): Flags {
    var d := Signed(a) - Signed(b);
    Flags(a == b, Signed(Wrap(a - b)) < 0, d < -TWO_TO_63 || d >= TWO_TO_63)
  }

  // Appendix B of Volume 1 of the Intel 64 and IA-32 Software Developer's Manual.
  predicate Condition(opcode: Opcode, f: Flags) {
    match opcode
    case OpJg => !f.zf && f.sf == f.of
    case OpJge => f.sf == f.of
    case OpJle => f.zf || f.sf != f.of
    case OpJne => !f.zf
    case OpSete => f.zf
    case OpSetne => !f.zf
    case OpSetl => f.sf != f.of
    case _ => false
  }

  function BinaryOf(opcode: Opcode): Option<BinaryOp> {
    match opcode
    case OpAdd => Some(Add)
    case OpAnd => Some(And)
    case OpOr => Some(Or)
    case OpShl => Some(Shl)
    case OpSub => Some(Sub)
    case OpXor => Some(Xor)
    case _ => None
  }

  // A write to an 8-bit register keeps the upper 56 bits.
  function SetLowByte(w: Word, b: Byte): Word {
    w - w % 256 + b
  }

  predicate IsSet(opcode: Opcode) {
    opcode.OpSete? || opcode.OpSetne? || opcode.OpSetl?
  }

  // setcc on an 8-bit register operand.
  function ExecSet(inst: MachineInst, m: Machine): Option<Machine> {
    var ops := inst.operands;
    if |ops| == 1 && ops[0].Reg? && ops[0].reg < 16 && inst.operandWidth == 8 && m.flags.Some? then
      var r := ops[0].reg;
      var b := if Condition(inst.opcode, m.flags.value) then 1 else 0;
      Some(m.(regs := m.regs[r := SetLowByte(m.regs[r], b)]))
    else
      None
  }

  // dst := dst op src.
  function ExecBinary(op: BinaryOp, inst: MachineInst, m: Machine): Option<Machine> {
    var ops := inst.operands;
    if |ops| == 2 && Writable(ops[0]) && Readable(ops[1]) && inst.operandWidth == 64 then
      Some(Set(ops[0], EvalBinary(op, Get(ops[0], m), Get(ops[1], m)), m).(flags := None))
    else
      None
  }

  // Executes an instruction that does not transfer control; None if it is not one.
  function ExecData(inst: MachineInst, m: Machine): Option<Machine> {
    var ops := inst.operands;
    var opcode := inst.opcode;
    if opcode.OpMov? then
      if |ops| == 2 && Writable(ops[0]) && Readable(ops[1]) && inst.operandWidth == 64
      then Some(Set(ops[0], Get(ops[1], m), m)) else None
    else if opcode.OpInc? then
      if |ops| == 1 && Writable(ops[0]) && inst.operandWidth == 64
      then Some(Set(ops[0], EvalBinary(Add, Get(ops[0], m), 1), m).(flags := None)) else None
    else if opcode.OpCmp? then
      if |ops| == 2 && Readable(ops[0]) && Readable(ops[1]) && inst.operandWidth == 64
      then Some(m.(flags := Some(CompareFlags(Get(ops[0], m), Get(ops[1], m))))) else None
    else if opcode.OpPush? then
      if |ops| == 1 && Readable(ops[0]) && inst.operandWidth == 64
      then
        var sp := EvalBinary(Sub, m.regs[RSP], 8);
        Some(m.(regs := m.regs[RSP := sp], mem := Write64(m.mem, sp, Get(ops[0], m))))
      else None
    else if opcode.OpPop? then
      // rsp is incremented before the destination is addressed or written.
      if |ops| == 1 && Writable(ops[0]) && inst.operandWidth == 64
      then
        var top := Read64(m.mem, m.regs[RSP]);
        Some(Set(ops[0], top, m.(regs := m.regs[RSP := EvalBinary(Add, m.regs[RSP], 8)])))
      else None
    else if opcode.OpLabel? then
      Some(m)
    else if IsSet(opcode) then
      ExecSet(inst, m)
    else if BinaryOf(opcode).Some? then
      ExecBinary(BinaryOf(opcode).value, inst, m)
    else
      None
  }
}

/** What the bytes of an instruction mean, as a function of the stream and the position in it. */
module Decoding {
  import opened Words
  import opened X86
  import opened Stream

  datatype OperandInfo =
    | ConstantInfo(constant: Byte)
    | ImmInfo(immWidth: nat)        // 0 stands for the operand width
    | ModRmGprInfo
    | ModRmRmInfo
    | OpcodeGprInfo
    | RelInfo

  datatype InstructionInfo = InstructionInfo(present: bool, baseOp: nat, opcode: Opcode, hasSlash: bool, modRm: bool,
                                             addressWidth: nat, operandWidth: nat, operands: seq<OperandInfo>,
                                             slashes: map<nat, InstructionInfo>)

  const ABSENT: InstructionInfo := InstructionInfo(false, 0, OpAdd, false, false, 0, 0, [], map[])

  function Plain(opcode: Opcode, modRm: bool, addressWidth: nat, operandWidth: nat,
      operands: seq<OperandInfo>): InstructionInfo {
    InstructionInfo(true, 0, opcode, false, modRm, addressWidth, operandWidth, operands, map[])
  }

  function WithSlashes(slashes: map<nat, InstructionInfo>): InstructionInfo {
    InstructionInfo(true, 0, OpAdd, true, false, 0, 0, [], slashes)
  }

  // The one-byte opcodes.
  function Primary(op: nat): InstructionInfo {
    if op == 0x03 then Plain(OpAdd, true, 64, 32, [ModRmGprInfo, ModRmRmInfo]).(baseOp := 0x03)
    else if op == 0x31 then Plain(OpXor, true, 0, 32, [ModRmRmInfo, ModRmGprInfo]).(baseOp := 0x31)
    else if 0x50 <= op < 0x58 then Plain(OpPush, false, 0, 64, [OpcodeGprInfo]).(baseOp := 0x50)
    else if 0x58 <= op < 0x60 then Plain(OpPop, false, 0, 64, [OpcodeGprInfo]).(baseOp := 0x58)
    else if op == 0x7D then Plain(OpJge, false, 8, 0, [RelInfo]).(baseOp := 0x7D)
    else if op == 0x83 then WithSlashes(map[
      0 := Plain(OpAdd, true, 64, 32, [ModRmRmInfo, ImmInfo(8)]),
      7 := Plain(OpCmp, true, 64, 32, [ModRmRmInfo, ImmInfo(8)])])
    else if op == 0x89 then Plain(OpMov, true, 64, 32, [ModRmRmInfo, ModRmGprInfo]).(baseOp := 0x89)
    else if op == 0x8B then Plain(OpMov, true, 64, 32, [ModRmGprInfo, ModRmRmInfo]).(baseOp := 0x8B)
    else if 0xB8 <= op < 0xC0 then Plain(OpMov, false, 0, 32, [OpcodeGprInfo, ImmInfo(0)]).(baseOp := 0xB8)
    else if op == 0xC3 then Plain(OpRet, false, 0, 0, []).(baseOp := 0xC3)
    else if op == 0xC7 then Plain(OpMov, true, 64, 32, [ModRmRmInfo, ImmInfo(32)]).(baseOp := 0xC7)
    else if op == 0xD1 then WithSlashes(map[4 := Plain(OpShl, true, 32, 32, [ModRmRmInfo, ConstantInfo(1)])])
    else if op == 0xE8 then Plain(OpCall, false, 32, 0, [RelInfo]).(baseOp := 0xE8)
    else if op == 0xE9 then Plain(OpJmp, false, 32, 0, [RelInfo]).(baseOp := 0xE9)
    else if op == 0xEB then Plain(OpJmp, false, 8, 0, [RelInfo]).(baseOp := 0xEB)
    else if op == 0xFF then WithSlashes(map[0 := Plain(OpInc, true, 0, 32, [ModRmRmInfo])])
    else ABSENT
  }

  // The opcodes after a byte 0F.
  function Secondary(op: nat): InstructionInfo {
    if op == 0x8E then Plain(OpJle, false, 32, 0, [RelInfo]).(baseOp := 0x8E)
    else if op == 0x8F then Plain(OpJg, false, 32, 0, [RelInfo]).(baseOp := 0x8F)
    else ABSENT
  }

  function Slash(info: InstructionInfo, reg: nat): InstructionInfo {
    if reg in info.slashes then info.slashes[reg] else ABSENT
  }

  // The source reads past the end of a truncated stream.
  datatype Error = Truncated | UnknownOpcode | UnsupportedMode

  datatype Result<T> = Ok(value: T) | Err(error: Error)

  // An instruction with the bytes it was decoded from.
  datatype Decoded = Decoded(inst: MachineInst, bytes: seq<Byte>, addressWidth: nat)

  // The widths that a prefix byte sets; 0 leaves one as it is.
  datatype Widths = Widths(operand: nat, address: nat)

  predicate IsRex(b: Byte) {
    0x40 <= b < 0x50
  }

  function Prefix(b: Byte): Option<Widths> {
    if b == 0x66 then Some(Widths(16, 0))
    else if b == 0x67 then Some(Widths(0, 32))
    else if IsRex(b) then Some(Widths(if (b / 8) % 2 == 1 then 64 else 0, 0))
    else None
  }

  function OrDefault(width: nat, default: nat): nat {
    if width == 0 then default else width
  }

  // What the operands are decoded from besides the bytes that follow.
  datatype Context = Context(op: Byte, modRm: Byte, info: InstructionInfo, operandWidth: nat, addressWidth: nat)

  predicate IsWidth(width: nat) {
    width == 8 || width == 16 || width == 32 || width == 64
  }

  // The two's complement reading of an n-byte number, as a word.
  function SignExtend(x: nat, n: nat): Word {
    if 2 * x < Power256(n) then Wrap(x) else Wrap(x - Power256(n))
  }

  function DecodeImm(data: seq<Byte>, p: nat, width: nat): Result<(Operand, nat)> {
    if !IsWidth(width) then Ok((Imm(0), p))
    else if p + width / 8 > |data| then Err(Truncated)
    else Ok((Imm(Wrap(LittleEndian(data[p..p + width / 8]))), p + width / 8))
  }

  // A relative operand becomes the offset it refers to.
  function DecodeRel(data: seq<Byte>, p: nat, width: nat): Result<(Operand, nat)> {
    if !IsWidth(width) then Ok((Imm(Wrap(p)), p))
    else if p + width / 8 > |data| then Err(Truncated)
    else
      var n := width / 8;
      Ok((Imm(Wrap(SignExtend(LittleEndian(data[p..p + n]), n) + p + n)), p + n))
  }

  // A byte follows when rm is 100, also for a register operand; its index is dropped.
  function DecodeRm(data: seq<Byte>, p: nat, modRm: Byte): Result<(Operand, nat)> {
    var mode, rm := modRm / 64, modRm % 8;
    if rm == 4 && p >= |data| then Err(Truncated)
    else
      var p1 := if rm == 4 then p + 1 else p;
      var base := if rm == 4 then data[p] % 8 else rm;
      if mode == 3 then Ok((Reg(rm), p1))
      else if mode != 1 then Err(UnsupportedMode)
      else if p1 >= |data| then Err(Truncated)
      else
        var disp: int := data[p1];
        Ok((MemBaseDisp(base, if disp < 128 then disp else disp - 256), p1 + 1))
  }

  function DecodeOperand(data: seq<Byte>, p: nat, c: Context, info: OperandInfo): Result<(Operand, nat)> {
    match info
    case ConstantInfo(k) => Ok((Imm(k), p))
    case ImmInfo(w) => DecodeImm(data, p, OrDefault(w, c.operandWidth))
    case ModRmGprInfo => Ok((Reg(c.modRm / 8 % 8), p))
    case ModRmRmInfo => DecodeRm(data, p, c.modRm)
    case OpcodeGprInfo => Ok((Reg(if c.op >= c.info.baseOp then c.op - c.info.baseOp else 0), p))
    case RelInfo => DecodeRel(data, p, c.addressWidth)
  }

  // The operands from position p on, and where they end.
  function DecodeOperands(data: seq<Byte>, p: nat, c: Context, infos: seq<OperandInfo>): Result<(seq<Operand>, nat)>
    decreases infos
  {
    if infos == [] then Ok(([], p))
    else
      var first := DecodeOperand(data, p, c, infos[0]);
      if first.Err? then Err(first.error)
      else
        var rest := DecodeOperands(data, first.value.1, c, infos[1..]);
        if rest.Err? then rest else Ok(([first.value.0] + rest.value.0, rest.value.1))
  }

  function DecodeTail(data: seq<Byte>, start: nat, p: nat, c: Context): Result<Decoded> {
    var r := DecodeOperands(data, p, c, c.info.operands);
    if r.Err? then Err(r.error)
    else if !(start <= r.value.1 <= |data|) then Err(Truncated)
    else
      var q := r.value.1;
      Ok(Decoded(MachineInst(c.info.opcode, r.value.0, c.operandWidth, start, q - start), data[start..q],
        c.addressWidth))
  }

  function ContextOf(op: Byte, modRm: Byte, info: InstructionInfo, w: Widths): Context {
    Context(op, modRm, info, OrDefault(w.operand, info.operandWidth), OrDefault(w.address, info.addressWidth))
  }

  // The opcode has been read up to p.
  function DecodeOpcode(data: seq<Byte>, start: nat, p: nat, w: Widths, op: Byte,
      info: InstructionInfo): Result<Decoded> {
    if !info.present then Err(UnknownOpcode)
    else if !(info.modRm || info.hasSlash) then DecodeTail(data, start, p, ContextOf(op, 0, info, w))
    else if p >= |data| then Err(Truncated)
    else
      var modRm := data[p];
      var info' := if info.hasSlash then Slash(info, modRm / 8 % 8) else info;
      if !info'.present then Err(UnknownOpcode)
      else DecodeTail(data, start, p + 1, ContextOf(op, modRm, info', w))
  }

  /** The instruction at a position of a stream. */
  function Decode(data: seq<Byte>, start: nat): Result<Decoded> {
    if start >= |data| then Err(Truncated)
    else
      var prefix := Prefix(data[start]);
      var p := if prefix.Some? then start + 1 else start;
      var w := if prefix.Some? then prefix.value else Widths(0, 0);
      if p >= |data| then Err(Truncated)
      else if data[p] != 0x0F then DecodeOpcode(data, start, p + 1, w, data[p], Primary(data[p]))
      else if p + 1 >= |data| then Err(Truncated)
      else DecodeOpcode(data, start, p + 2, w, data[p + 1], Secondary(data[p + 1]))
  }

  // ---- What is consumed

  function MostBytes(info: OperandInfo): nat {
    if info.ImmInfo? || info.RelInfo? then 8 else if info.ModRmRmInfo? then 2 else 0
  }

  function MostBytesOf(infos: seq<OperandInfo>): nat {
    if infos == [] then 0 else MostBytes(infos[0]) + MostBytesOf(infos[1..])
  }

  lemma OperandConsumes(data: seq<Byte>, p: nat, c: Context, info: OperandInfo)
    requires DecodeOperand(data, p, c, info).Ok? && p <= |data|
    ensures var q := DecodeOperand(data, p, c, info).value.1; p <= q <= |data| && q - p <= MostBytes(info)
  {
    hide LittleEndian, SignExtend;
  }

  lemma {:induction false} OperandsConsume(data: seq<Byte>, p: nat, c: Context, infos: seq<OperandInfo>)
    requires DecodeOperands(data, p, c, infos).Ok? && p <= |data|
    ensures var q := DecodeOperands(data, p, c, infos).value.1; p <= q <= |data| && q - p <= MostBytesOf(infos)
    decreases infos
  {
    hide DecodeOperand, MostBytes;
    if infos != [] {
      OperandConsumes(data, p, c, infos[0]);
      OperandsConsume(data, DecodeOperand(data, p, c, infos[0]).value.1, c, infos[1..]);
    }
  }

  lemma MostBytesOfTwo(infos: seq<OperandInfo>)
    requires |infos| <= 2
    ensures MostBytesOf(infos)
        == (if |infos| > 0 then MostBytes(infos[0]) else 0) + (if |infos| > 1 then MostBytes(infos[1]) else 0)
  {
    if |infos| == 2 {
      assert infos[1..] == [infos[1]] && infos[1..][1..] == [];
    }
  }

  predicate Small(info: InstructionInfo) {
    |info.operands| <= 2 && MostBytesOf(info.operands) <= 10
  }

  lemma PrimarySmall(op: nat)
    ensures Small(Primary(op)) && forall reg {:trigger Slash(Primary(op), reg)} :: Small(Slash(Primary(op), reg))
  {
    MostBytesOfTwo(Primary(op).operands);
    forall reg {:trigger Slash(Primary(op), reg)}
      ensures Small(Slash(Primary(op), reg))
    {
      MostBytesOfTwo(Slash(Primary(op), reg).operands);
    }
  }

  lemma SecondarySmall(op: nat)
    ensures Small(Secondary(op)) && !Secondary(op).hasSlash
  {
    MostBytesOfTwo(Secondary(op).operands);
  }

  // An instruction takes the bytes from its offset on, at least one and at most n.
  predicate Takes(data: seq<Byte>, start: nat, d: Decoded, n: nat) {
    && d.inst.offset == start && 0 < d.inst.length == |d.bytes| <= n
    && start + d.inst.length <= |data| && d.bytes == data[start..start + d.inst.length]
  }

  lemma TailTakes(data: seq<Byte>, start: nat, p: nat, c: Context)
    requires Small(c.info) && start < p <= |data| && p - start <= 4 && DecodeTail(data, start, p, c).Ok?
    ensures Takes(data, start, DecodeTail(data, start, p, c).value, 14)
  {
    hide DecodeOperands, MostBytesOf;
    OperandsConsume(data, p, c, c.info.operands);
  }

  /** An instruction is at most 14 bytes long, and they are the bytes of the stream at its offset. */
  lemma DecodeTakes(data: seq<Byte>, start: nat)
    requires Decode(data, start).Ok?
    ensures Takes(data, start, Decode(data, start).value, 14)
  {
    hide Primary, Secondary, Small, DecodeTail, Takes, Slash, ContextOf;
    var prefix := Prefix(data[start]);
    var w := if prefix.Some? then prefix.value else Widths(0, 0);
    var p := if prefix.Some? then start + 1 else start;
    var zero := data[p] == 0x0F;
    var q := if zero then p + 2 else p + 1;
    var op := data[q - 1];
    var info := if zero then Secondary(op) else Primary(op);
    PrimarySmall(op);
    SecondarySmall(op);
    if info.modRm || info.hasSlash {
      var modRm := data[q];
      var info' := if info.hasSlash then Slash(info, modRm / 8 % 8) else info;
      ContextInfo(op, modRm, info', w);
      TailTakes(data, start, q + 1, ContextOf(op, modRm, info', w));
    } else {
      ContextInfo(op, 0, info, w);
      TailTakes(data, start, q, ContextOf(op, 0, info, w));
    }
  }

  lemma ContextInfo(op: Byte, modRm: Byte, info: InstructionInfo, w: Widths)
    ensures ContextOf(op, modRm, info, w).info == info
  {
  }

  // ---- The same bytes elsewhere

  ghost predicate Agree(a: seq<Byte>, p: nat, b: seq<Byte>, q: nat, n: nat) {
    p + n <= |a| && q + n <= |b| && a[p..p + n] == b[q..q + n]
  }

  lemma AgreeAt(a: seq<Byte>, p: nat, b: seq<Byte>, q: nat, n: nat, k: nat)
    requires Agree(a, p, b, q, n) && k < n
    ensures a[p + k] == b[q + k]
  {
    assert a[p..p + n][k] == b[q..q + n][k];
  }

  lemma AgreeWithin(a: seq<Byte>, p: nat, b: seq<Byte>, q: nat, n: nat, k: nat, m: nat)
    requires Agree(a, p, b, q, n) && k + m <= n
    ensures Agree(a, p + k, b, q + k, m)
  {
    forall i {:trigger a[p + k..p + k + m][i]} | 0 <= i < m
      ensures a[p + k..p + k + m][i] == b[q + k..q + k + m][i]
    {
      AgreeAt(a, p, b, q, n, k + i);
    }
  }

  // A reference to an offset, when everything is moved by delta.
  function MovedTarget(o: Operand, delta: int): Operand {
    if o.Imm? then Imm(Wrap(o.imm + delta)) else o
  }

  predicate IsRelative(opcode: Opcode) {
    opcode.OpJge? || opcode.OpJle? || opcode.OpJg? || opcode.OpJmp? || opcode.OpCall?
  }

  // The instruction at another offset: the same but for what it refers to.
  function Moved(d: Decoded, offset: nat): Decoded {
    var i := d.inst;
    var ops := if IsRelative(i.opcode) && |i.operands| == 1 then [MovedTarget(i.operands[0], offset - i.offset)]
      else i.operands;
    d.(inst := i.(offset := offset, operands := ops))
  }

  lemma WrapMoved(x: Word, at: int, delta: int)
    ensures Wrap(Wrap(x + at) + delta) == Wrap(x + (at + delta))
  {
  }

  lemma OperandMoves(a: seq<Byte>, p: nat, b: seq<Byte>, q: nat, c: Context, info: OperandInfo)
    requires DecodeOperand(a, p, c, info).Ok?
    requires var e := DecodeOperand(a, p, c, info).value.1; p <= e && Agree(a, p, b, q, e - p)
    ensures var r := DecodeOperand(a, p, c, info).value;
      DecodeOperand(b, q, c, info) == Ok((if info.RelInfo? then MovedTarget(r.0, q - p) else r.0, q + (r.1 - p)))
  {
    hide LittleEndian, SignExtend, Wrap;
    var e := DecodeOperand(a, p, c, info).value.1;
    if info.RelInfo? {
      if IsWidth(c.addressWidth) {
        var n := c.addressWidth / 8;
        WrapMoved(SignExtend(LittleEndian(a[p..p + n]), n), p + n, q - p);
      } else {
        WrapMoved(0, p, q - p);
      }
    } else if info.ModRmRmInfo? {
      if e > p {
        AgreeAt(a, p, b, q, e - p, 0);
      }
      if e > p + 1 {
        AgreeAt(a, p, b, q, e - p, 1);
      }
    }
  }

  ghost predicate NoRel(infos: seq<OperandInfo>) {
    forall k :: 0 <= k < |infos| ==> !infos[k].RelInfo?
  }

  lemma {:induction false} OperandsStay(a: seq<Byte>, p: nat, b: seq<Byte>, q: nat, c: Context, infos: seq<OperandInfo>)
    requires DecodeOperands(a, p, c, infos).Ok? && NoRel(infos) && p <= |a|
    requires var e := DecodeOperands(a, p, c, infos).value.1; p <= e && Agree(a, p, b, q, e - p)
    ensures var r := DecodeOperands(a, p, c, infos).value; DecodeOperands(b, q, c, infos) == Ok((r.0, q + (r.1 - p)))
    decreases infos
  {
    hide DecodeOperand, Agree;
    if infos != [] {
      var e := DecodeOperands(a, p, c, infos).value.1;
      OperandConsumes(a, p, c, infos[0]);
      var m := DecodeOperand(a, p, c, infos[0]).value.1;
      OperandsConsume(a, m, c, infos[1..]);
      AgreeWithin(a, p, b, q, e - p, 0, m - p);
      AgreeWithin(a, p, b, q, e - p, m - p, e - m);
      OperandMoves(a, p, b, q, c, infos[0]);
      OperandsStay(a, m, b, q + (m - p), c, infos[1..]);
    }
  }

  predicate RelShape(info: InstructionInfo) {
    if IsRelative(info.opcode) then info.operands == [RelInfo] else forall k :: 0 <= k < |info.operands| ==>
      !info.operands[k].RelInfo?
  }

  lemma PrimaryShape(op: nat)
    ensures RelShape(Primary(op)) && forall reg {:trigger Slash(Primary(op), reg)} :: RelShape(Slash(Primary(op), reg))
  {
    forall reg {:trigger Slash(Primary(op), reg)}
      ensures RelShape(Slash(Primary(op), reg))
    {
    }
  }

  lemma SecondaryShape(op: nat)
    ensures RelShape(Secondary(op))
  {
  }

  lemma OneOperand(a: seq<Byte>, p: nat, c: Context, info: OperandInfo)
    ensures var first := DecodeOperand(a, p, c, info);
      DecodeOperands(a, p, c, [info]) == if first.Err? then Err(first.error) else Ok(([first.value.0], first.value.1))
  {
    hide DecodeOperand;
    var first := DecodeOperand(a, p, c, info);
    assert [info][1..] == [] && [info][0] == info;
    if first.Ok? {
      assert DecodeOperands(a, first.value.1, c, []) == Ok(([], first.value.1));
      assert [first.value.0] + [] == [first.value.0];
    }
  }
  lemma TailMoves(a: seq<Byte>, start: nat, p: nat, b: seq<Byte>, start': nat, q: nat, c: Context)
    requires RelShape(c.info) && start < p <= |a| && p - start == q - start' && DecodeTail(a, start, p, c).Ok?
    requires Agree(a, start, b, start', DecodeTail(a, start, p, c).value.inst.length)
    ensures DecodeTail(b, start', q, c) == Ok(Moved(DecodeTail(a, start, p, c).value, start'))
  {
    hide DecodeOperand, DecodeOperands, Agree, MovedTarget;
    var infos := c.info.operands;
    var d := DecodeTail(a, start, p, c).value;
    var e := DecodeOperands(a, p, c, infos).value.1;
    OperandsConsume(a, p, c, infos);
    AgreeWithin(a, start, b, start', e - start, p - start, e - p);
    if IsRelative(c.info.opcode) {
      OneOperand(a, p, c, RelInfo);
      OneOperand(b, q, c, RelInfo);
      OperandMoves(a, p, b, q, c, RelInfo);
    } else {
      OperandsStay(a, p, b, q, c, infos);
    }
    AgreeIs(a, start, b, start', e - start);
  }

  lemma AgreeIs(a: seq<Byte>, p: nat, b: seq<Byte>, q: nat, n: nat)
    requires Agree(a, p, b, q, n)
    ensures p + n <= |a| && q + n <= |b| && a[p..p + n] == b[q..q + n]
  {
  }

  lemma OpcodeMoves(a: seq<Byte>, start: nat, p: nat, b: seq<Byte>, start': nat, q: nat, w: Widths, op: Byte,
      info: InstructionInfo)
    requires RelShape(info) && forall reg {:trigger Slash(info, reg)} :: RelShape(Slash(info, reg))
    requires start < p <= |a| && p - start == q - start' && DecodeOpcode(a, start, p, w, op, info).Ok?
    requires var d := DecodeOpcode(a, start, p, w, op, info).value;
      d.inst.length >= p - start && Agree(a, start, b, start', d.inst.length)
    ensures DecodeOpcode(b, start', q, w, op, info) == Ok(Moved(DecodeOpcode(a, start, p, w, op, info).value, start'))
  {
    hide DecodeTail, Agree, Moved, RelShape, ContextOf, Slash;
    var d := DecodeOpcode(a, start, p, w, op, info).value;
    AgreeIs(a, start, b, start', d.inst.length);
    if info.modRm || info.hasSlash {
      var modRm := a[p];
      var info' := if info.hasSlash then Slash(info, modRm / 8 % 8) else info;
      ContextInfo(op, modRm, info', w);
      TailLength(a, start, p + 1, ContextOf(op, modRm, info', w));
      AgreeAt(a, start, b, start', d.inst.length, p - start);
      TailMoves(a, start, p + 1, b, start', q + 1, ContextOf(op, modRm, info', w));
    } else {
      ContextInfo(op, 0, info, w);
      TailMoves(a, start, p, b, start', q, ContextOf(op, 0, info, w));
    }
  }

  lemma TailLength(a: seq<Byte>, start: nat, p: nat, c: Context)
    requires start < p <= |a| && DecodeTail(a, start, p, c).Ok?
    ensures DecodeTail(a, start, p, c).value.inst.length >= p - start
  {
    hide DecodeOperands;
    OperandsConsume(a, p, c, c.info.operands);
  }

  lemma OpcodeLength(a: seq<Byte>, start: nat, p: nat, w: Widths, op: Byte, info: InstructionInfo)
    requires start < p <= |a| && DecodeOpcode(a, start, p, w, op, info).Ok?
    ensures DecodeOpcode(a, start, p, w, op, info).value.inst.length >= p - start
  {
    hide DecodeTail, ContextOf, Slash;
    if info.modRm || info.hasSlash {
      var modRm := a[p];
      TailLength(a, start, p + 1, ContextOf(op, modRm, if info.hasSlash then Slash(info, modRm / 8 % 8) else info, w));
    } else {
      TailLength(a, start, p, ContextOf(op, 0, info, w));
    }
  }

  /** Wherever the bytes of an instruction occur again, the same instruction is decoded, with its
      relative targets moved by the distance. */
  lemma DecodeMoves(a: seq<Byte>, start: nat, b: seq<Byte>, start': nat)
    requires Decode(a, start).Ok? && Agree(a, start, b, start', Decode(a, start).value.inst.length)
    ensures Decode(b, start') == Ok(Moved(Decode(a, start).value, start'))
  {
    hide Primary, Secondary, DecodeOpcode, Agree, Moved, RelShape, Slash, Prefix;
    var n := Decode(a, start).value.inst.length;
    AgreeIs(a, start, b, start', n);
    var prefix := Prefix(a[start]);
    var w := if prefix.Some? then prefix.value else Widths(0, 0);
    var k := if prefix.Some? then 1 else 0;
    var zero := a[start + k] == 0x0F;
    var m := if zero then k + 2 else k + 1;
    var op := a[start + m - 1];
    var info := if zero then Secondary(op) else Primary(op);
    SecondaryNoSlash(op);
    PrimaryShape(op);
    SecondaryShape(op);
    OpcodeLength(a, start, start + m, w, op, info);
    AgreeAt(a, start, b, start', n, 0);
    AgreeAt(a, start, b, start', n, k);
    AgreeAt(a, start, b, start', n, m - 1);
    OpcodeMoves(a, start, start + m, b, start', start' + m, w, op, info);
  }

  lemma SecondaryNoSlash(op: nat)
    ensures forall reg {:trigger Slash(Secondary(op), reg)} :: RelShape(Slash(Secondary(op), reg))
  {
  }

  /** The recorded bytes alone decode to the same instruction at offset 0. */
  lemma Redecodes(data: seq<Byte>, start: nat)
    requires Decode(data, start).Ok?
    ensures var d := Decode(data, start).value; Decode(d.bytes, 0) == Ok(Moved(d, 0))
  {
    hide Decode, Moved;
    var d := Decode(data, start).value;
    DecodeTakes(data, start);
    assert d.bytes[0..|d.bytes|] == d.bytes;
    DecodeMoves(data, start, d.bytes, 0);
  }

  // ---- What the architecture says

  // The bytes after a ModRM byte with mode 01 or 11 (table 2-2 in volume 2 of the Intel 64 and IA-32
  // Software Developer's Manual): a SIB byte for a memory operand with rm 100, and the displacement.
  function ArchitecturalBytes(modRm: Byte): nat {
    if modRm / 64 == 3 then 0 else if modRm % 8 == 4 then 2 else 1
  }

  /** A decoded ModRM operand takes as many bytes as the architecture says exactly when it is not the
      register with rm 100: that one takes a byte too many. */
  lemma RmLengthExact(data: seq<Byte>, p: nat, modRm: Byte)
    requires DecodeRm(data, p, modRm).Ok?
    ensures DecodeRm(data, p, modRm).value.1 - p == ArchitecturalBytes(modRm) <==> !(modRm / 64 == 3 && modRm % 8 == 4)
  {
  }

  /** A move of any of the first eight registers to rsp swallows the byte that follows it. */
  lemma MovToRspTakesNext(r: nat, next: Byte)
    requires r < 8
    ensures var d := Decode([0x48, 0x89, 0xC4 + 8 * r, next], 0);
      d.Ok? && d.value.inst == MachineInst(OpMov, [Reg(4), Reg(r)], 64, 0, 4)
  {
    var modRm: Byte := 0xC4 + 8 * r;
    var data: seq<Byte> := [0x48, 0x89, modRm, next];
    var c := ContextOf(0x89, modRm, Primary(0x89), Widths(64, 0));
    TwoOperands(data, 3, c);
    var first := DecodeOperand(data, 3, c, ModRmRmInfo);
    assert first == DecodeRm(data, 3, modRm);
    assert DecodeRm(data, 3, modRm) == Ok((Reg(4), 4));
  }

  lemma TwoOperands(data: seq<Byte>, p: nat, c: Context)
    requires |c.info.operands| == 2 && DecodeOperand(data, p, c, c.info.operands[0]).Ok?
    ensures var first := DecodeOperand(data, p, c, c.info.operands[0]).value;
      var second := DecodeOperand(data, first.1, c, c.info.operands[1]);
      DecodeOperands(data, p, c, c.info.operands) == if second.Err? then Err(second.error)
        else Ok(([first.0, second.value.0], second.value.1))
  {
    hide DecodeOperand;
    var infos := c.info.operands;
    var first := DecodeOperand(data, p, c, infos[0]).value;
    assert infos[1..] == [infos[1]];
    OneOperand(data, first.1, c, infos[1]);
    var second := DecodeOperand(data, first.1, c, infos[1]);
    if second.Ok? {
      assert [first.0] + [second.value.0] == [first.0, second.value.0];
    }
  }
}

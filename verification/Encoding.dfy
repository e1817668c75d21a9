/** The instruction formats of the architecture, written down without the tables of the decoder, and the round trip. */
module Encoding {
  import opened Words
  import opened X86
  import opened Stream
  import opened Decoding

  // ---- Instructions as volume 2 of the Intel 64 and IA-32 Software Developer's Manual encodes them

  // What stands in front of the opcode (sections 2.1.1 and 2.2.1).
  datatype Lead = NoLead | OperandSize | AddressSize | Rex(w: bool, r: bool, x: bool, b: bool)

  // A ModRM operand with mode 11 or 01 (table 2-2); an index of 4 stands for none (table 2-3).
  datatype Rm = InRegister(reg: nat) | AtBase(base: nat, disp: int)
    | AtSib(scale: nat, index: nat, base: nat, disp: int)

  datatype RegRmOp = AddLoad | MovLoad | MovStore | XorStore
  datatype RmImmOp = AddImm8 | CmpImm8 | MovImm
  datatype RmOp = ShlOne | IncOne
  datatype RegOp = PushOne | PopOne
  datatype JumpOp = JmpShort | JgeShort | JmpNear | CallNear | JleNear | JgNear

  // Immediates and distances are signed numbers, apart from those that are moved to a register.
  datatype Form =
    | RegRm(regRmOp: RegRmOp, reg: nat, rm: Rm)
    | RmImm(rmImmOp: RmImmOp, rm: Rm, value: int)
    | RmOnly(rmOp: RmOp, rm: Rm)
    | RegOnly(regOp: RegOp, reg: nat)
    | RegImm(reg: nat, value: int)
    | Alone
    | Jump(jumpOp: JumpOp, value: int)

  // What the decoder takes beyond the encoding: bytes behind the ModRM operand and behind the immediate or distance,
  // and a ModRM reg field that it does not look at.
  datatype Slack = Slack(behindRm: seq<Byte>, behindValue: seq<Byte>, field: nat)

  const NONE: Slack := Slack([], [], 0)

  datatype Encoding = Encoding(lead: Lead, form: Form, slack: Slack)

  function BitOf(b: bool): nat {
    if b then 1 else 0
  }

  function LeadBytes(l: Lead): seq<Byte> {
    match l
    case NoLead => []
    case OperandSize => [0x66]
    case AddressSize => [0x67]
    case Rex(w, r, x, b) => [0x40 + 8 * BitOf(w) + 4 * BitOf(r) + 2 * BitOf(x) + BitOf(b)]
  }

  // ADD, MOV, XOR: opcodes 03 /r, 8B /r, 89 /r and 31 /r. ADD and CMP with a byte: 83 /0 ib and 83 /7 ib. MOV: C7 /0
  // and B8+r. SHL by 1: D1 /4. INC: FF /0. PUSH, POP: 50+r and 58+r. RET: C3. JMP: EB cb and E9 cd. CALL: E8 cd.
  // JGE: 7D cb. JLE and JG: 0F 8E cd and 0F 8F cd.
  function OpcodeBytes(f: Form): seq<Byte>
    requires InFields(f)
  {
    match f
    case RegRm(op, _, _) =>
      [if op.AddLoad? then 0x03 else if op.MovLoad? then 0x8B else if op.MovStore? then 0x89 else 0x31]
    case RmImm(op, _, _) => [if op.MovImm? then 0xC7 else 0x83]
    case RmOnly(op, _) => [if op.ShlOne? then 0xD1 else 0xFF]
    case RegOnly(op, reg) => [if op.PushOne? then 0x50 + reg else 0x58 + reg]
    case RegImm(reg, _) => [0xB8 + reg]
    case Alone => [0xC3]
    case Jump(op, _) =>
      if op.JleNear? then [0x0F, 0x8E] else if op.JgNear? then [0x0F, 0x8F]
      else [if op.JmpShort? then 0xEB else if op.JgeShort? then 0x7D else if op.JmpNear? then 0xE9 else 0xE8]
  }

  predicate HasRm(f: Form) {
    f.RegRm? || f.RmImm? || f.RmOnly?
  }

  // The reg field of the ModRM byte: a register or the digit behind the slash.
  function RegField(e: Encoding): nat
    requires HasRm(e.form)
  {
    match e.form
    case RegRm(_, reg, _) => reg
    case RmImm(op, _, _) => if op.AddImm8? then 0 else if op.CmpImm8? then 7 else e.slack.field
    case RmOnly(op, _) => if op.ShlOne? then 4 else 0
  }

  predicate RmOk(rm: Rm) {
    match rm
    case InRegister(reg) => reg < 8
    case AtBase(base, disp) => base < 8 && base != 4 && -128 <= disp < 128
    case AtSib(scale, index, base, disp) => scale < 4 && index < 8 && base < 8 && -128 <= disp < 128
  }

  // Every field has room for its value.
  predicate InFields(f: Form) {
    && (f.RegRm? || f.RegOnly? || f.RegImm? ==> f.reg < 8) && (HasRm(f) ==> RmOk(f.rm))
  }

  function ModRmByte(field: nat, rm: Rm): Byte
    requires field < 8 && RmOk(rm)
  {
    match rm
    case InRegister(reg) => 0xC0 + 8 * field + reg
    case AtBase(base, _) => 0x40 + 8 * field + base
    case AtSib(_, _, _, _) => 0x40 + 8 * field + 4
  }

  function RmBytes(rm: Rm): seq<Byte>
    requires RmOk(rm)
  {
    match rm
    case InRegister(_) => []
    case AtBase(_, disp) => SignedBytes(disp, 1)
    case AtSib(scale, index, base, disp) => [64 * scale + 8 * index + base] + SignedBytes(disp, 1)
  }

  // The n bytes of a number in two's complement.
  function SignedBytes(v: int, n: nat): (r: seq<Byte>)
    ensures |r| == n
  {
    LowBytes(if v >= 0 then v else Negative(v, n), n)
  }

  function Negative(v: int, n: nat): nat {
    if v + Power256(n) >= 0 then v + Power256(n) else 0
  }

  function OperandBits(l: Lead, default: nat): nat {
    if l.OperandSize? then 16 else if l.Rex? && l.w then 64 else default
  }

  predicate IsShort(op: JumpOp) {
    op.JmpShort? || op.JgeShort?
  }

  // How many bytes the immediate or distance has: one for ib and cb, four for cd; the others have the operand size,
  // but an immediate for ModRM has at most four.
  function ValueLength(l: Lead, f: Form): nat {
    match f
    case RmImm(op, _, _) => if !op.MovImm? then 1 else if l.OperandSize? then 2 else 4
    case RegImm(_, _) => OperandBits(l, 32) / 8
    case Jump(op, _) => if IsShort(op) then 1 else 4
    case _ => 0
  }

  predicate ValueOk(l: Lead, f: Form) {
    match f
    case RmImm(_, _, v) => Fits(v, ValueLength(l, f))
    case RegImm(_, v) => 0 <= v < Power256(ValueLength(l, f))
    case Jump(_, v) => Fits(v, ValueLength(l, f))
    case _ => true
  }

  predicate Fits(v: int, n: nat) {
    0 <= 2 * v + Power256(n) && 2 * v < Power256(n)
  }

  function ValueBytes(l: Lead, f: Form): (r: seq<Byte>)
    ensures |r| == ValueLength(l, f)
  {
    match f
    case RmImm(_, _, v) => SignedBytes(v, ValueLength(l, f))
    case RegImm(_, v) => SignedBytes(v, ValueLength(l, f))
    case Jump(_, v) => SignedBytes(v, ValueLength(l, f))
    case _ => []
  }

  // ---- What the decoder takes too many

  // A byte behind a register with number 4, which it takes for a SIB byte.
  function TooManyForRm(f: Form): nat {
    if HasRm(f) && f.rm == InRegister(4) then 1 else 0
  }

  // Three bytes behind a distance of one byte with the address size prefix, two behind an immediate of two bytes.
  function TooManyForValue(l: Lead, f: Form): nat {
    if f.Jump? && IsShort(f.jumpOp) && l.AddressSize? then 3
    else if f.RmImm? && f.rmImmOp.MovImm? && l.OperandSize? then 2
    else 0
  }

  // An encoding with what the decoder takes besides.
  predicate Valid(e: Encoding) {
    && InFields(e.form) && ValueOk(e.lead, e.form)
    && |e.slack.behindRm| == TooManyForRm(e.form) && |e.slack.behindValue| == TooManyForValue(e.lead, e.form)
    && e.slack.field < 8 && (e.slack.field > 0 ==> e.form.RmImm? && e.form.rmImmOp.MovImm?)
  }

  function RmPart(e: Encoding): seq<Byte>
    requires Valid(e)
  {
    if HasRm(e.form) then [ModRmByte(RegField(e), e.form.rm)] + (RmBytes(e.form.rm) + e.slack.behindRm) else []
  }

  function ValuePart(e: Encoding): seq<Byte> {
    ValueBytes(e.lead, e.form) + e.slack.behindValue
  }

  /** The bytes of an encoding; without slack they are those of the manual. */
  function Bytes(e: Encoding): seq<Byte>
    requires Valid(e)
  {
    LeadBytes(e.lead) + (OpcodeBytes(e.form) + (RmPart(e) + ValuePart(e)))
  }

  // ---- What the decoder makes of it

  function RmOperand(rm: Rm): Operand {
    match rm
    case InRegister(reg) => Reg(reg)
    case AtBase(base, disp) => MemBaseDisp(base, disp)
    case AtSib(_, _, base, disp) => MemBaseDisp(base, disp)
  }

  function ImmOperand(e: Encoding): Operand {
    Imm(Wrap(LittleEndian(ValuePart(e))))
  }

  function TargetOperand(e: Encoding, end: nat): Operand {
    Imm(Wrap(SignExtend(LittleEndian(ValuePart(e)), |ValuePart(e)|) + end))
  }

  function OperandsOf(e: Encoding, end: nat): seq<Operand> {
    match e.form
    case RegRm(op, reg, rm) =>
      if op.AddLoad? || op.MovLoad? then [Reg(reg), RmOperand(rm)] else [RmOperand(rm), Reg(reg)]
    case RmImm(_, rm, _) => [RmOperand(rm), ImmOperand(e)]
    case RmOnly(op, rm) => if op.ShlOne? then [RmOperand(rm), Imm(1)] else [RmOperand(rm)]
    case RegOnly(_, reg) => [Reg(reg)]
    case RegImm(reg, _) => [Reg(reg), ImmOperand(e)]
    case Alone => []
    case Jump(_, _) => [TargetOperand(e, end)]
  }

  function OpcodeOf(f: Form): Opcode {
    match f
    case RegRm(op, _, _) => if op.AddLoad? then OpAdd else if op.XorStore? then OpXor else OpMov
    case RmImm(op, _, _) => if op.AddImm8? then OpAdd else if op.CmpImm8? then OpCmp else OpMov
    case RmOnly(op, _) => if op.ShlOne? then OpShl else OpInc
    case RegOnly(op, _) => if op.PushOne? then OpPush else OpPop
    case RegImm(_, _) => OpMov
    case Alone => OpRet
    case Jump(op, _) =>
      if op.JleNear? then OpJle else if op.JgNear? then OpJg else if op.JgeShort? then OpJge
      else if op.CallNear? then OpCall else OpJmp
  }

  // Jumps, calls and returns have no operand size.
  function WidthOf(e: Encoding): nat {
    OperandBits(e.lead, if e.form.Jump? || e.form.Alone? then 0 else if e.form.RegOnly? then 64 else 32)
  }

  function InstOf(e: Encoding, start: nat): MachineInst
    requires Valid(e)
  {
    MachineInst(OpcodeOf(e.form), OperandsOf(e, start + |Bytes(e)|), WidthOf(e), start, |Bytes(e)|)
  }

  // The stream holds the bytes at the position.
  ghost predicate Holds(data: seq<Byte>, p: nat, s: seq<Byte>) {
    p + |s| <= |data| && data[p..p + |s|] == s
  }

  lemma HoldsParts(data: seq<Byte>, p: nat, a: seq<Byte>, b: seq<Byte>)
    requires Holds(data, p, a + b)
    ensures Holds(data, p, a) && Holds(data, p + |a|, b)
  {
    assert data[p..p + |a|] == (a + b)[..|a|];
    assert data[p + |a|..p + |a + b|] == (a + b)[|a|..];
  }

  lemma HoldsJoined(data: seq<Byte>, p: nat, a: seq<Byte>, b: seq<Byte>)
    requires Holds(data, p, a) && Holds(data, p + |a|, b)
    ensures Holds(data, p, a + b)
  {
    assert data[p..p + |a + b|] == data[p..p + |a|] + data[p + |a|..p + |a| + |b|];
  }

  lemma HoldsOne(data: seq<Byte>, p: nat, b: Byte)
    ensures Holds(data, p, [b]) <==> p < |data| && data[p] == b
  {
    if p < |data| {
      assert data[p..p + 1] == [data[p]];
    }
  }

  lemma HoldsAt(data: seq<Byte>, p: nat, s: seq<Byte>, k: nat)
    requires Holds(data, p, s) && k < |s|
    ensures p + k < |data| && data[p + k] == s[k]
  {
    assert data[p..p + |s|][k] == data[p + k];
  }

  // ---- Numbers

  lemma {:induction false} ReadBack(x: nat, n: nat)
    requires x < Power256(n)
    ensures LittleEndian(LowBytes(x, n)) == x
    decreases n
  {
    if n > 0 {
      ReadBack(x / 256, n - 1);
      assert LowBytes(x, n)[1..] == LowBytes(x / 256, n - 1);
    }
  }

  lemma OneByte(b: Byte)
    ensures LittleEndian([b]) == b && LowBytes(b, 1) == [b] && Power256(1) == 256
  {
    assert LittleEndian([b]) == b + 256 * LittleEndian([]);
    assert LowBytes(b, 1) == [b] + LowBytes(b / 256, 0);
  }

  // One byte as the displacement that it encodes.
  lemma DispByte(disp: int)
    requires -128 <= disp < 128
    ensures SignedBytes(disp, 1) == [if disp >= 0 then disp else disp + 256]
  {
    OneByte(if disp >= 0 then disp else disp + 256);
  }

  // ---- The parts of an encoding are decoded

  lemma ModRmFields(field: nat, rm: Rm)
    requires field < 8 && RmOk(rm)
    ensures var b := ModRmByte(field, rm);
      b / 8 % 8 == field && b / 64 == (if rm.InRegister? then 3 else 1)
      && b % 8 == if rm.InRegister? then rm.reg else if rm.AtBase? then rm.base else 4
  {
  }

  lemma RmDecodes(data: seq<Byte>, p: nat, field: nat, rm: Rm, junk: seq<Byte>)
    requires field < 8 && RmOk(rm) && |junk| == if rm == InRegister(4) then 1 else 0
    requires Holds(data, p, RmBytes(rm) + junk)
    ensures DecodeRm(data, p, ModRmByte(field, rm)) == Ok((RmOperand(rm), p + |RmBytes(rm) + junk|))
  {
    hide SignedBytes;
    ModRmFields(field, rm);
    var s := RmBytes(rm) + junk;
    if !rm.InRegister? {
      DispByte(rm.disp);
      HoldsAt(data, p, s, |s| - 1);
      HoldsAt(data, p, s, 0);
    }
  }

  function LeadWidths(l: Lead): Widths {
    match l
    case NoLead => Widths(0, 0)
    case OperandSize => Widths(16, 0)
    case AddressSize => Widths(0, 32)
    case Rex(w, _, _, _) => Widths(if w then 64 else 0, 0)
  }

  lemma LeadDecodes(l: Lead)
    requires !l.NoLead?
    ensures |LeadBytes(l)| == 1 && Prefix(LeadBytes(l)[0]) == Some(LeadWidths(l))
  {
  }

  lemma OpcodeIsNoPrefix(f: Form)
    requires InFields(f)
    ensures var s := OpcodeBytes(f);
      Prefix(s[0]) == None && (|s| == 2 <==> s[0] == 0x0F) && (|s| == 1 || |s| == 2)
  {
  }

  // The row of the table, before and after the digit has been looked at.
  function InfoOf(f: Form): InstructionInfo
    requires InFields(f)
  {
    var s := OpcodeBytes(f);
    if |s| == 2 then Secondary(s[1]) else Primary(s[0])
  }

  function RowOf(e: Encoding): InstructionInfo
    requires Valid(e)
  {
    if InfoOf(e.form).hasSlash && HasRm(e.form) then Slash(InfoOf(e.form), RegField(e)) else InfoOf(e.form)
  }

  function InfosOf(f: Form): seq<OperandInfo> {
    match f
    case RegRm(op, _, _) =>
      if op.AddLoad? || op.MovLoad? then [ModRmGprInfo, ModRmRmInfo] else [ModRmRmInfo, ModRmGprInfo]
    case RmImm(op, _, _) => [ModRmRmInfo, ImmInfo(if op.MovImm? then 32 else 8)]
    case RmOnly(op, _) => if op.ShlOne? then [ModRmRmInfo, ConstantInfo(1)] else [ModRmRmInfo]
    case RegOnly(_, _) => [OpcodeGprInfo]
    case RegImm(_, _) => [OpcodeGprInfo, ImmInfo(0)]
    case Alone => []
    case Jump(_, _) => [RelInfo]
  }

  // The forms with a ModRM byte.
  lemma RmRowIs(e: Encoding)
    requires Valid(e) && HasRm(e.form)
    ensures InfoOf(e.form).present && (InfoOf(e.form).modRm || InfoOf(e.form).hasSlash)
    ensures RowOf(e).present && RowOf(e).opcode == OpcodeOf(e.form) && RowOf(e).operands == InfosOf(e.form)
    ensures RowOf(e).operandWidth == 32
  {
    hide ValueOk, RmOk;
  }

  // The others.
  lemma PlainRowIs(e: Encoding)
    requires Valid(e) && !HasRm(e.form)
    ensures InfoOf(e.form).present && !InfoOf(e.form).modRm && !InfoOf(e.form).hasSlash
    ensures RowOf(e).opcode == OpcodeOf(e.form) && RowOf(e).operands == InfosOf(e.form)
    ensures RowOf(e).operandWidth == if e.form.RegOnly? then 64 else if e.form.RegImm? then 32 else 0
    ensures e.form.Jump? ==> RowOf(e).addressWidth == if IsShort(e.form.jumpOp) then 8 else 32
    ensures e.form.RegOnly? || e.form.RegImm? ==>
      OpcodeBytes(e.form)[0] >= RowOf(e).baseOp && OpcodeBytes(e.form)[0] - RowOf(e).baseOp == e.form.reg
  {
    hide ValueOk, RmOk;
  }

  lemma JumpLength(e: Encoding)
    requires Valid(e) && e.form.Jump?
    ensures 8 * |ValuePart(e)|
         == OrDefault(LeadWidths(e.lead).address, if IsShort(e.form.jumpOp) then 8 else 32)
  {
    hide ValueOk, SignedBytes;
  }

  /** What the tables hold for each encoding. */
  lemma RowIs(e: Encoding)
    requires Valid(e)
    ensures InfoOf(e.form).present && ((InfoOf(e.form).modRm || InfoOf(e.form).hasSlash) <==> HasRm(e.form))
    ensures RowOf(e).present && RowOf(e).opcode == OpcodeOf(e.form) && RowOf(e).operands == InfosOf(e.form)
    ensures OrDefault(LeadWidths(e.lead).operand, RowOf(e).operandWidth) == WidthOf(e)
    ensures e.form.Jump? ==> OrDefault(LeadWidths(e.lead).address, RowOf(e).addressWidth) == 8 * |ValuePart(e)|
    ensures e.form.RegOnly? || e.form.RegImm? ==>
      OpcodeBytes(e.form)[0] >= RowOf(e).baseOp && OpcodeBytes(e.form)[0] - RowOf(e).baseOp == e.form.reg
  {
    hide Valid, InfoOf, OpcodeOf, InfosOf, OpcodeBytes, ValuePart;
    if HasRm(e.form) {
      RmRowIs(e);
    } else {
      PlainRowIs(e);
      if e.form.Jump? {
        JumpLength(e);
      }
    }
  }

  // ---- Decoding an encoding

  lemma AsReads(data: seq<Byte>, p: nat, s: seq<Byte>)
    requires Holds(data, p, s) && s != []
    ensures p < |data| && data[p] == s[0]
  {
    HoldsAt(data, p, s, 0);
  }

  // The opcode is read behind the prefix.
  lemma OpcodeRead(data: seq<Byte>, start: nat, e: Encoding)
    requires Valid(e) && Holds(data, start, LeadBytes(e.lead) + OpcodeBytes(e.form))
    ensures var s := OpcodeBytes(e.form);
      Decode(data, start) == DecodeOpcode(data, start, start + |LeadBytes(e.lead) + s|, LeadWidths(e.lead), s[|s| - 1],
        InfoOf(e.form))
  {
    hide DecodeOpcode, Primary, Secondary, Valid, Prefix, Holds;
    ValidFields(e);
    var l, s := LeadBytes(e.lead), OpcodeBytes(e.form);
    HoldsParts(data, start, l, s);
    OpcodeIsNoPrefix(e.form);
    AsReads(data, start + |l|, s);
    if |s| == 2 {
      HoldsAt(data, start + |l|, s, 1);
    }
    if !e.lead.NoLead? {
      LeadDecodes(e.lead);
      AsReads(data, start, l);
    }
  }

  lemma ValidFields(e: Encoding)
    requires Valid(e)
    ensures InFields(e.form) && (HasRm(e.form) ==> RmOk(e.form.rm) && RegField(e) < 8)
  {
  }

  ghost predicate DecodesTo(r: Result<Decoded>, i: MachineInst, bytes: seq<Byte>) {
    r.Ok? && r.value.inst == i && r.value.bytes == bytes
  }

  lemma TailDecodes(data: seq<Byte>, start: nat, p: nat, c: Context, ops: seq<Operand>, q: nat)
    requires DecodeOperands(data, p, c, c.info.operands) == Ok((ops, q)) && start <= q <= |data|
    ensures DecodesTo(DecodeTail(data, start, p, c), MachineInst(c.info.opcode, ops, c.operandWidth, start, q - start),
              data[start..q])
  {
  }

  lemma ImmDecodes(data: seq<Byte>, p: nat, width: nat, s: seq<Byte>)
    requires Holds(data, p, s) && IsWidth(width) && |s| == width / 8
    ensures DecodeImm(data, p, width) == Ok((Imm(Wrap(LittleEndian(s))), p + |s|))
  {
    hide LittleEndian, Wrap;
  }

  lemma RelDecodes(data: seq<Byte>, p: nat, width: nat, s: seq<Byte>)
    requires Holds(data, p, s) && IsWidth(width) && |s| == width / 8
    ensures DecodeRel(data, p, width)
         == Ok((Imm(Wrap(SignExtend(LittleEndian(s), |s|) + (p + |s|))), p + |s|))
  {
    hide LittleEndian, SignExtend, Wrap;
  }

  lemma ValueWidth(e: Encoding)
    requires Valid(e) && (e.form.RmImm? || e.form.RegImm? || e.form.Jump?)
    ensures IsWidth(8 * |ValuePart(e)|)
    ensures e.form.RmImm? ==> |ValuePart(e)| == if e.form.rmImmOp.MovImm? then 4 else 1
    ensures e.form.RegImm? ==> 8 * |ValuePart(e)| == WidthOf(e)
  {
    hide ValueOk, SignedBytes, RmOk;
  }

  // What the ModRM operand and the value are decoded to, from where they stand.
  lemma OperandsDecode(data: seq<Byte>, p: nat, e: Encoding, c: Context)
    requires Valid(e) && c.info.operands == InfosOf(e.form) && c.operandWidth == WidthOf(e)
    requires HasRm(e.form) ==> c.modRm == ModRmByte(RegField(e), e.form.rm)
    requires HasRm(e.form) ==> Holds(data, p, (RmBytes(e.form.rm) + e.slack.behindRm) + ValuePart(e))
    requires !HasRm(e.form) ==> Holds(data, p, ValuePart(e))
    requires e.form.Jump? ==> c.addressWidth == 8 * |ValuePart(e)|
    requires e.form.RegOnly? || e.form.RegImm? ==> c.op >= c.info.baseOp && c.op - c.info.baseOp == e.form.reg
    ensures var q := p + (if HasRm(e.form) then |RmBytes(e.form.rm) + e.slack.behindRm| else 0) + |ValuePart(e)|;
      DecodeOperands(data, p, c, c.info.operands) == Ok((OperandsOf(e, q), q))
  {
    hide Holds, DecodeRm, DecodeImm, DecodeRel, RmBytes, ValuePart, ModRmByte, DecodeOperands, Valid, SignExtend,
      LittleEndian, RmOperand, Wrap;
    ValidFields(e);
    if HasRm(e.form) {
      var s := RmBytes(e.form.rm) + e.slack.behindRm;
      HoldsParts(data, p, s, ValuePart(e));
      SlackLengths(e);
      ModRmFields(RegField(e), e.form.rm);
      RmDecodes(data, p, RegField(e), e.form.rm, e.slack.behindRm);
      RmOperandsDecode(data, p, p + |s|, e, c);
    } else if e.form.RegImm? {
      ValueWidth(e);
      ImmDecodes(data, p, 8 * |ValuePart(e)|, ValuePart(e));
      TwoOperands(data, p, c);
    } else if e.form.Jump? {
      ValueWidth(e);
      RelDecodes(data, p, 8 * |ValuePart(e)|, ValuePart(e));
      OneOperand(data, p, c, RelInfo);
    } else if e.form.RegOnly? {
      NoValue(e);
      OneOperand(data, p, c, OpcodeGprInfo);
    } else {
      NoValue(e);
      NoOperands(data, p, c);
    }
  }

  lemma NoOperands(data: seq<Byte>, p: nat, c: Context)
    ensures DecodeOperands(data, p, c, []) == Ok(([], p))
  {
  }

  lemma SlackLengths(e: Encoding)
    requires Valid(e) && HasRm(e.form)
    ensures |e.slack.behindRm| == if e.form.rm == InRegister(4) then 1 else 0
  {
  }

  lemma NoValue(e: Encoding)
    requires Valid(e) && (e.form.RegRm? || e.form.RmOnly? || e.form.RegOnly? || e.form.Alone?)
    ensures ValuePart(e) == []
  {
  }

  lemma RmOperandsDecode(data: seq<Byte>, p: nat, m: nat, e: Encoding, c: Context)
    requires Valid(e) && HasRm(e.form) && RmOk(e.form.rm) && RegField(e) < 8
    requires c.info.operands == InfosOf(e.form) && c.operandWidth == WidthOf(e)
    requires c.modRm == ModRmByte(RegField(e), e.form.rm) && c.modRm / 8 % 8 == RegField(e)
    requires DecodeRm(data, p, c.modRm) == Ok((RmOperand(e.form.rm), m)) && Holds(data, m, ValuePart(e))
    ensures DecodeOperands(data, p, c, c.info.operands)
         == Ok((OperandsOf(e, m + |ValuePart(e)|), m + |ValuePart(e)|))
  {
    hide Holds, DecodeRm, DecodeImm, DecodeRel, RmBytes, ValuePart, ModRmByte, DecodeOperands, Valid, SignExtend,
      LittleEndian, RmOperand, Wrap, RmOk;
    if e.form.RegRm? {
      NoValue(e);
      TwoOperands(data, p, c);
    } else if e.form.RmImm? {
      ValueWidth(e);
      ImmDecodes(data, m, 8 * |ValuePart(e)|, ValuePart(e));
      TwoOperands(data, p, c);
    } else {
      NoValue(e);
      if e.form.rmOp.ShlOne? {
        TwoOperands(data, p, c);
      } else {
        OneOperand(data, p, c, ModRmRmInfo);
      }
    }
  }

  // The byte of the opcode that the tables are looked up by.
  function OpByte(f: Form): Byte
    requires InFields(f)
  {
    OpcodeBytes(f)[|OpcodeBytes(f)| - 1]
  }

  lemma TailOf(data: seq<Byte>, start: nat, p: nat, e: Encoding, c: Context)
    requires Valid(e) && Holds(data, start, Bytes(e)) && c.info == RowOf(e)
    requires c.operandWidth == OrDefault(LeadWidths(e.lead).operand, RowOf(e).operandWidth)
    requires c.addressWidth == OrDefault(LeadWidths(e.lead).address, RowOf(e).addressWidth)
    requires c.op == OpByte(e.form) && (HasRm(e.form) ==> c.modRm == ModRmByte(RegField(e), e.form.rm))
    requires p == start + |LeadBytes(e.lead) + OpcodeBytes(e.form)| + if HasRm(e.form) then 1 else 0
    ensures DecodesTo(DecodeTail(data, start, p, c), InstOf(e, start), Bytes(e))
  {
    hide Valid, RowOf, InfoOf, OpcodeBytes, LeadBytes, OperandsOf, DecodeTail, ValuePart, RmBytes, ModRmByte,
      LeadWidths, WidthOf, OpcodeOf, InfosOf;
    RowIs(e);
    PartsHeld(data, start, e);
    if e.form.RegOnly? || e.form.RegImm? {
      OneByteOpcodes(e);
    }
    OperandsDecode(data, p, e, c);
    var q := start + |Bytes(e)|;
    BytesLength(e);
    TailDecodes(data, start, p, c, OperandsOf(e, q), q);
  }

  lemma OneByteOpcodes(e: Encoding)
    requires Valid(e) && (e.form.RegOnly? || e.form.RegImm?)
    ensures OpByte(e.form) == OpcodeBytes(e.form)[0]
  {
  }

  lemma BytesLength(e: Encoding)
    requires Valid(e)
    ensures |Bytes(e)| == |LeadBytes(e.lead) + OpcodeBytes(e.form)| + |RmPart(e)| + |ValuePart(e)|
  {
  }

  lemma PartsHeld(data: seq<Byte>, start: nat, e: Encoding)
    requires Valid(e) && Holds(data, start, Bytes(e))
    ensures Holds(data, start, LeadBytes(e.lead) + OpcodeBytes(e.form))
    ensures var m := start + |LeadBytes(e.lead) + OpcodeBytes(e.form)|;
      if HasRm(e.form) then
        m < |data| && data[m] == ModRmByte(RegField(e), e.form.rm)
        && Holds(data, m + 1, (RmBytes(e.form.rm) + e.slack.behindRm) + ValuePart(e))
      else Holds(data, m, ValuePart(e))
  {
    hide Valid, Holds, LeadBytes, OpcodeBytes, ValuePart, RmBytes, ModRmByte;
    ValidFields(e);
    var l, o, r, v := LeadBytes(e.lead), OpcodeBytes(e.form), RmPart(e), ValuePart(e);
    assert l + (o + (r + v)) == (l + o) + (r + v);
    HoldsParts(data, start, l + o, r + v);
    if HasRm(e.form) {
      var m, s := [ModRmByte(RegField(e), e.form.rm)], RmBytes(e.form.rm) + e.slack.behindRm;
      assert r + v == m + (s + v);
      HoldsParts(data, start + |l + o|, m, s + v);
      HoldsOne(data, start + |l + o|, m[0]);
    } else {
      assert r + v == v;
    }
  }

  /** Wherever a stream holds the bytes of an encoding, the decoder finds the instruction. */
  lemma DecodesEncoding(data: seq<Byte>, start: nat, e: Encoding)
    requires Valid(e) && Holds(data, start, Bytes(e))
    ensures DecodesTo(Decode(data, start), InstOf(e, start), Bytes(e))
  {
    hide Valid, RowOf, InfoOf, OpcodeBytes, LeadBytes, Bytes, DecodeTail, InstOf, ModRmByte, LeadWidths, RmBytes,
      ValuePart, Holds, Decode, RegField;
    RowIs(e);
    ValidFields(e);
    PartsHeld(data, start, e);
    OpcodeRead(data, start, e);
    var p := start + |LeadBytes(e.lead) + OpcodeBytes(e.form)|;
    if HasRm(e.form) {
      ModRmFields(RegField(e), e.form.rm);
      TailOf(data, start, p + 1, e, ContextOf(OpByte(e.form), data[p], RowOf(e), LeadWidths(e.lead)));
      RowChosen(e);
    } else {
      TailOf(data, start, p, e, ContextOf(OpByte(e.form), 0, RowOf(e), LeadWidths(e.lead)));
      RowChosen(e);
    }
  }

  lemma RowChosen(e: Encoding)
    requires Valid(e)
    ensures RowOf(e) == if InfoOf(e.form).hasSlash && HasRm(e.form) then Slash(InfoOf(e.form), RegField(e))
      else InfoOf(e.form)
    ensures OpByte(e.form) == OpcodeBytes(e.form)[|OpcodeBytes(e.form)| - 1]
  {
  }

  // ---- Whatever the decoder accepts is an encoding

  lemma SignedRecovered(s: seq<Byte>) returns (v: int)
    ensures Fits(v, |s|) && SignedBytes(v, |s|) == s
  {
    hide LittleEndian, LowBytes, Power256;
    var x := LittleEndian(s);
    WriteReadAlone(s);
    v := if 2 * x < Power256(|s|) then x else x - Power256(|s|);
  }

  lemma UnsignedRecovered(s: seq<Byte>) returns (v: nat)
    ensures v < Power256(|s|) && SignedBytes(v, |s|) == s
  {
    hide LittleEndian, LowBytes, Power256;
    v := LittleEndian(s);
    WriteReadAlone(s);
  }

  lemma LeadRecovered(data: seq<Byte>, start: nat) returns (l: Lead)
    requires start < |data|
    ensures Holds(data, start, LeadBytes(l)) && LeadWidths(l) == (if Prefix(data[start]).Some? then
              Prefix(data[start]).value else Widths(0, 0))
    ensures |LeadBytes(l)| == if Prefix(data[start]).Some? then 1 else 0
  {
    var b := data[start];
    if b == 0x66 {
      l := OperandSize;
    } else if b == 0x67 {
      l := AddressSize;
    } else if IsRex(b) {
      l := Rex(b / 8 % 2 == 1, b / 4 % 2 == 1, b / 2 % 2 == 1, b % 2 == 1);
      RexBits(b);
    } else {
      l := NoLead;
    }
    if !l.NoLead? {
      HoldsOne(data, start, b);
    }
  }

  lemma RexBits(b: Byte)
    requires IsRex(b)
    ensures b == 0x40 + 8 * (b / 8 % 2) + 4 * (b / 4 % 2) + 2 * (b / 2 % 2) + b % 2
  {
  }

  lemma RmRecovered(data: seq<Byte>, p: nat, modRm: Byte) returns (rm: Rm, junk: seq<Byte>)
    requires DecodeRm(data, p, modRm).Ok? && p <= |data|
    ensures RmOk(rm) && ModRmByte(modRm / 8 % 8, rm) == modRm && |junk| == if rm == InRegister(4) then 1 else 0
    ensures Holds(data, p, RmBytes(rm) + junk) && DecodeRm(data, p, modRm).value.1 == p + |RmBytes(rm) + junk|
  {
    hide SignedBytes;
    var low := modRm % 8;
    junk := [];
    if modRm / 64 == 3 {
      rm := InRegister(low);
      if low == 4 {
        junk := [data[p]];
        HoldsOne(data, p, data[p]);
      }
      assert RmBytes(rm) + junk == junk;
    } else {
      var at := if low == 4 then p + 1 else p;
      var raw: int := data[at];
      var disp := if raw < 128 then raw else raw - 256;
      DispByte(disp);
      HoldsOne(data, at, data[at]);
      if low == 4 {
        var sib := data[p];
        SibFields(sib);
        rm := AtSib(sib / 64, sib / 8 % 8, sib % 8, disp);
        HoldsOne(data, p, sib);
        HoldsJoined(data, p, [sib], [data[at]]);
      } else {
        rm := AtBase(low, disp);
      }
      assert RmBytes(rm) + junk == RmBytes(rm);
    }
    ModRmParts(modRm);
  }

  lemma SibFields(b: Byte)
    ensures b == 64 * (b / 64) + 8 * (b / 8 % 8) + b % 8 && b / 64 < 4
  {
  }

  lemma ModRmParts(b: Byte)
    ensures b == 64 * (b / 64) + 8 * (b / 8 % 8) + b % 8 && b / 64 < 4
  {
  }

  // The form of an opcode with a ModRM byte.
  function RmForm(op: Byte, field: nat, rm: Rm, v: int): Form {
    if op == 0x03 then RegRm(AddLoad, field, rm)
    else if op == 0x8B then RegRm(MovLoad, field, rm)
    else if op == 0x89 then RegRm(MovStore, field, rm)
    else if op == 0x31 then RegRm(XorStore, field, rm)
    else if op == 0x83 then RmImm(if field == 0 then AddImm8 else CmpImm8, rm, v)
    else if op == 0xC7 then RmImm(MovImm, rm, v)
    else RmOnly(if op == 0xD1 then ShlOne else IncOne, rm)
  }

  function SlackField(f: Form, field: nat): nat {
    if f.RmImm? && f.rmImmOp.MovImm? then field else 0
  }

  function RowAt(op: Byte, field: nat): InstructionInfo {
    if Primary(op).hasSlash then Slash(Primary(op), field) else Primary(op)
  }

  lemma RmRow(op: Byte, field: nat, rm: Rm, v: int)
    requires field < 8 && RmOk(rm) && (Primary(op).modRm || Primary(op).hasSlash) && RowAt(op, field).present
    ensures var f := RmForm(op, field, rm, v);
      && InFields(f) && HasRm(f) && f.rm == rm && OpcodeBytes(f) == [op] && RowAt(op, field).operands == InfosOf(f)
      && forall l, a, b :: RegField(Encoding(l, f, Slack(a, b, SlackField(f, field)))) == field
  {
    hide RmOk;
  }

  lemma RmInfosOk(data: seq<Byte>, p: nat, c: Context, f: Form)
    requires HasRm(f) && c.info.operands == InfosOf(f) && DecodeOperands(data, p, c, c.info.operands).Ok?
    ensures DecodeRm(data, p, c.modRm).Ok?
    ensures f.RmImm? ==>
      DecodeImm(data, DecodeRm(data, p, c.modRm).value.1, if f.rmImmOp.MovImm? then 32 else 8).Ok?
  {
    hide DecodeRm, DecodeImm, DecodeRel;
    var infos := c.info.operands;
    var rest := infos[1..];
    if f.RegRm? && infos[0].ModRmGprInfo? {
      assert rest == [ModRmRmInfo];
      OneOperand(data, p, c, ModRmRmInfo);
    } else if f.RmImm? {
      assert rest == [infos[1]];
      OneOperand(data, DecodeRm(data, p, c.modRm).value.1, c, infos[1]);
    }
  }

  // The immediate of a ModRM form, parted where the encoding ends and the slack begins.
  lemma ImmRecovered(data: seq<Byte>, m: nat, l: Lead, f: Form) returns (v: int, behind: seq<Byte>)
    requires f.RmImm? && m <= |data| && DecodeImm(data, m, if f.rmImmOp.MovImm? then 32 else 8).Ok?
    ensures Fits(v, ValueLength(l, f)) && |behind| == TooManyForValue(l, f)
    ensures Holds(data, m, SignedBytes(v, ValueLength(l, f)) + behind)
  {
    hide SignedBytes, Fits;
    var n, k := if f.rmImmOp.MovImm? then 4 else 1, ValueLength(l, f);
    var s := data[m..m + n];
    v := SignedRecovered(s[..k]);
    behind := s[k..];
    assert s[..k] + s[k..] == s;
  }

  lemma RmEncoding(data: seq<Byte>, p: nat, l: Lead, op: Byte, c: Context) returns (e: Encoding)
    requires p < |data| && (Primary(op).modRm || Primary(op).hasSlash) && RowAt(op, data[p] / 8 % 8).present
    requires c.modRm == data[p] && c.info == RowAt(op, data[p] / 8 % 8)
    requires DecodeOperands(data, p + 1, c, c.info.operands).Ok?
    ensures Valid(e) && e.lead == l && OpcodeBytes(e.form) == [op] && Holds(data, p, RmPart(e) + ValuePart(e))
  {
    hide DecodeRm, DecodeImm, DecodeOperands, Primary, RowAt, OpcodeBytes, RmForm, SignedBytes, Holds, RmBytes,
      ModRmByte, InfosOf, Fits;
    var field := data[p] / 8 % 8;
    RmRow(op, field, InRegister(0), 0);
    var f0 := RmForm(op, field, InRegister(0), 0);
    RmInfosOk(data, p + 1, c, f0);
    var rm, junk := RmRecovered(data, p + 1, data[p]);
    var m := DecodeRm(data, p + 1, data[p]).value.1;
    HeldInside(data, p + 1, RmBytes(rm) + junk);
    var v, behind := 0, [];
    SameKind(op, field, InRegister(0), 0, rm, v);
    if f0.RmImm? {
      v, behind := ImmRecovered(data, m, l, f0);
      SameKind(op, field, InRegister(0), 0, rm, v);
    }
    RmRow(op, field, rm, v);
    var f := RmForm(op, field, rm, v);
    e := Encoding(l, f, Slack(junk, behind, SlackField(f, field)));
    RmValid(e, f0);
    HoldsOne(data, p, data[p]);
    RmHeld(data, p, e, m);
  }

  lemma HeldInside(data: seq<Byte>, p: nat, s: seq<Byte>)
    requires Holds(data, p, s)
    ensures p + |s| <= |data|
  {
  }

  // The kind of the form depends on the opcode and the digit alone.
  lemma SameKind(op: Byte, field: nat, rm: Rm, v: int, rm': Rm, v': int)
    ensures var f, f' := RmForm(op, field, rm, v), RmForm(op, field, rm', v');
      && (f.RmImm? <==> f'.RmImm?) && (f.RmImm? ==> f'.rmImmOp == f.rmImmOp && f'.value == v')
      && f.RegRm? == f'.RegRm? && f.RmOnly? == f'.RmOnly?
  {
  }

  lemma RmValid(e: Encoding, f0: Form)
    requires InFields(e.form) && HasRm(e.form) && e.slack.field < 8
    requires |e.slack.behindRm| == if e.form.rm == InRegister(4) then 1 else 0
    requires e.form.RmImm? == f0.RmImm? && (f0.RmImm? ==> f0.rmImmOp == e.form.rmImmOp)
    requires if f0.RmImm? then Fits(e.form.value, ValueLength(e.lead, f0))
        && |e.slack.behindValue| == TooManyForValue(e.lead, f0) else e.slack.behindValue == []
    requires e.slack.field > 0 ==> e.form.RmImm? && e.form.rmImmOp.MovImm?
    ensures Valid(e)
  {
    hide RmOk, Fits;
  }

  lemma RmHeld(data: seq<Byte>, p: nat, e: Encoding, m: nat)
    requires Valid(e) && HasRm(e.form) && RmOk(e.form.rm) && RegField(e) < 8 && p < |data|
    requires data[p] == ModRmByte(RegField(e), e.form.rm) && Holds(data, p, [data[p]])
    requires Holds(data, p + 1, RmBytes(e.form.rm) + e.slack.behindRm)
    requires m == p + 1 + |RmBytes(e.form.rm) + e.slack.behindRm|
    requires e.form.RmImm? ==>
        Holds(data, m, SignedBytes(e.form.value, ValueLength(e.lead, e.form)) + e.slack.behindValue)
    ensures Holds(data, p, RmPart(e) + ValuePart(e))
  {
    hide Valid, Holds, RmBytes, ModRmByte, SignedBytes;
    HoldsJoined(data, p, [data[p]], RmBytes(e.form.rm) + e.slack.behindRm);
    if e.form.RmImm? {
      HoldsJoined(data, p, RmPart(e), ValuePart(e));
    } else {
      NoValue(e);
      assert RmPart(e) + ValuePart(e) == RmPart(e);
    }
  }

  // The form of an opcode without a ModRM byte.
  function PlainForm(zero: bool, op: Byte, v: int): Form {
    if zero then Jump(if op == 0x8E then JleNear else JgNear, v)
    else if 0x50 <= op < 0x58 then RegOnly(PushOne, op - 0x50)
    else if 0x58 <= op < 0x60 then RegOnly(PopOne, op - 0x58)
    else if 0xB8 <= op < 0xC0 then RegImm(op - 0xB8, v)
    else if op == 0xC3 then Alone
    else Jump(
      if op == 0xEB then JmpShort else if op == 0x7D then JgeShort else if op == 0xE9 then JmpNear else CallNear, v)
  }

  function PlainInfo(zero: bool, op: Byte): InstructionInfo {
    if zero then Secondary(op) else Primary(op)
  }

  lemma PlainRow(zero: bool, op: Byte, v: int)
    requires PlainInfo(zero, op).present && !(PlainInfo(zero, op).modRm || PlainInfo(zero, op).hasSlash)
    ensures var f := PlainForm(zero, op, v);
      && InFields(f) && !HasRm(f) && OpcodeBytes(f) == (if zero then [0x0F, op] else [op])
      && PlainInfo(zero, op).operands == InfosOf(f) && InfoOf(f) == PlainInfo(zero, op)
      && (f.RegImm? || f.Jump? ==> f.value == v)
  {
  }

  // The number of bytes that the decoder takes for the value.
  function TakenLength(l: Lead, f: Form): nat {
    ValueLength(l, f) + TooManyForValue(l, f)
  }

  lemma PlainWidths(l: Lead, f: Form)
    requires InFields(f) && (f.RegImm? || f.Jump?)
    ensures IsWidth(8 * TakenLength(l, f))
    ensures f.RegImm? ==> OrDefault(LeadWidths(l).operand, InfoOf(f).operandWidth) == 8 * TakenLength(l, f)
    ensures f.Jump? ==> OrDefault(LeadWidths(l).address, InfoOf(f).addressWidth) == 8 * TakenLength(l, f)
  {
  }

  lemma PlainValueOk(data: seq<Byte>, p: nat, c: Context, l: Lead, f: Form)
    requires InFields(f) && !HasRm(f) && c.info == InfoOf(f) && c.info.operands == InfosOf(f) && p <= |data|
    requires c.operandWidth == OrDefault(LeadWidths(l).operand, c.info.operandWidth)
    requires c.addressWidth == OrDefault(LeadWidths(l).address, c.info.addressWidth)
    requires DecodeOperands(data, p, c, c.info.operands).Ok?
    ensures p + TakenLength(l, f) <= |data|
  {
    hide InfoOf, LeadWidths, LittleEndian, SignExtend, InFields, Wrap;
    if f.RegImm? {
      PlainWidths(l, f);
      assert c.info.operands[1..] == [ImmInfo(0)];
      OneOperand(data, p, c, ImmInfo(0));
    } else if f.Jump? {
      PlainWidths(l, f);
      OneOperand(data, p, c, RelInfo);
    }
  }

  lemma PlainEncoding(data: seq<Byte>, p: nat, l: Lead, zero: bool, op: Byte, c: Context) returns (e: Encoding)
    requires PlainInfo(zero, op).present && !(PlainInfo(zero, op).modRm || PlainInfo(zero, op).hasSlash) && p <= |data|
    requires c.info == PlainInfo(zero, op)
    requires c.operandWidth == OrDefault(LeadWidths(l).operand, c.info.operandWidth)
    requires c.addressWidth == OrDefault(LeadWidths(l).address, c.info.addressWidth)
    requires DecodeOperands(data, p, c, c.info.operands).Ok?
    ensures Valid(e) && e.lead == l && OpcodeBytes(e.form) == (if zero then [0x0F, op] else [op])
    ensures Holds(data, p, RmPart(e) + ValuePart(e))
  {
    hide DecodeOperands, PlainInfo, OpcodeBytes, PlainForm, SignedBytes, InfosOf, Fits, LeadWidths, InfoOf, Power256;
    PlainRow(zero, op, 0);
    var f0 := PlainForm(zero, op, 0);
    PlainValueOk(data, p, c, l, f0);
    var s := data[p..p + TakenLength(l, f0)];
    var k, v := ValueLength(l, f0), 0;
    if f0.RegImm? {
      v := UnsignedRecovered(s[..k]);
    } else if f0.Jump? {
      v := SignedRecovered(s[..k]);
    }
    PlainRow(zero, op, v);
    var f := PlainForm(zero, op, v);
    PlainKind(zero, op, v);
    e := Encoding(l, f, Slack([], s[k..], 0));
    assert s[..k] + s[k..] == s;
    assert RmPart(e) + ValuePart(e) == ValuePart(e);
  }

  lemma PlainKind(zero: bool, op: Byte, v: int)
    ensures var f, f' := PlainForm(zero, op, 0), PlainForm(zero, op, v);
      f.RegImm? == f'.RegImm? && f.Jump? == f'.Jump? && f.Alone? == f'.Alone? && f.RegOnly? == f'.RegOnly?
      && (f.Jump? ==> f'.jumpOp == f.jumpOp)
  {
  }

  lemma Assembled(data: seq<Byte>, start: nat, e: Encoding)
    requires Valid(e) && Holds(data, start, LeadBytes(e.lead))
    requires Holds(data, start + |LeadBytes(e.lead)|, OpcodeBytes(e.form))
    requires Holds(data, start + |LeadBytes(e.lead)| + |OpcodeBytes(e.form)|, RmPart(e) + ValuePart(e))
    ensures Holds(data, start, Bytes(e))
  {
    hide Valid, Holds, LeadBytes, OpcodeBytes, RmPart, ValuePart;
    ValidFields(e);
    HoldsJoined(data, start + |LeadBytes(e.lead)|, OpcodeBytes(e.form), RmPart(e) + ValuePart(e));
    HoldsJoined(data, start, LeadBytes(e.lead), OpcodeBytes(e.form) + (RmPart(e) + ValuePart(e)));
  }

  lemma OpcodeHeld(data: seq<Byte>, p: nat, zero: bool, op: Byte)
    requires if zero then p + 1 < |data| && data[p] == 0x0F && data[p + 1] == op else p < |data| && data[p] == op
    ensures Holds(data, p, if zero then [0x0F, op] else [op])
  {
    if zero {
      assert data[p..p + 2] == [data[p], data[p + 1]];
    } else {
      HoldsOne(data, p, op);
    }
  }

  // No opcode behind a byte 0F has a ModRM byte.
  lemma SecondaryIsPlain(op: Byte)
    ensures !Secondary(op).modRm && !Secondary(op).hasSlash
  {
  }

  lemma TailAccepted(data: seq<Byte>, start: nat, p: nat, c: Context)
    requires DecodeTail(data, start, p, c).Ok?
    ensures DecodeOperands(data, p, c, c.info.operands).Ok?
  {
  }

  lemma OpcodeAccepted(data: seq<Byte>, start: nat, p: nat, l: Lead, zero: bool, op: Byte) returns (e: Encoding)
    requires p <= |data| && DecodeOpcode(data, start, p, LeadWidths(l), op, PlainInfo(zero, op)).Ok?
    ensures Valid(e) && e.lead == l && OpcodeBytes(e.form) == (if zero then [0x0F, op] else [op])
    ensures Holds(data, p, RmPart(e) + ValuePart(e))
  {
    hide Primary, Secondary, DecodeTail, Valid, OpcodeBytes, Holds, LeadWidths, RmPart, ValuePart;
    SecondaryIsPlain(op);
    var info := PlainInfo(zero, op);
    if info.modRm || info.hasSlash {
      var c := ContextOf(op, data[p], RowAt(op, data[p] / 8 % 8), LeadWidths(l));
      TailAccepted(data, start, p + 1, c);
      e := RmEncoding(data, p, l, op, c);
    } else {
      var c := ContextOf(op, 0, info, LeadWidths(l));
      TailAccepted(data, start, p, c);
      e := PlainEncoding(data, p, l, zero, op, c);
    }
  }

  /** What is decoded is the bytes of some encoding. */
  lemma Recovered(data: seq<Byte>, start: nat) returns (e: Encoding)
    requires Decode(data, start).Ok?
    ensures Valid(e) && Holds(data, start, Bytes(e))
  {
    hide Prefix, DecodeOpcode, Primary, Secondary, Valid, Holds, OpcodeBytes, LeadBytes, RmPart, ValuePart, LeadWidths,
      Bytes;
    var l := LeadRecovered(data, start);
    var p := start + |LeadBytes(l)|;
    var zero := data[p] == 0x0F;
    var op := if zero then data[p + 1] else data[p];
    e := OpcodeAccepted(data, start, if zero then p + 2 else p + 1, l, zero, op);
    OpcodeHeld(data, p, zero, op);
    Assembled(data, start, e);
  }

  ghost predicate SomeEncoding(data: seq<Byte>, start: nat) {
    exists e {:trigger Valid(e)} :: Valid(e) && Holds(data, start, Bytes(e))
  }

  /** The decoder accepts exactly the encodings of the manual with the slack it leaves; everything else is an error. */
  lemma DecodesExactly(data: seq<Byte>, start: nat)
    ensures Decode(data, start).Ok? <==> SomeEncoding(data, start)
    ensures forall e {:trigger Valid(e)} :: Valid(e) && Holds(data, start, Bytes(e)) ==>
      DecodesTo(Decode(data, start), InstOf(e, start), Bytes(e))
  {
    hide Decode, Valid, Holds, Bytes, InstOf;
    forall e | Valid(e) && Holds(data, start, Bytes(e))
      ensures DecodesTo(Decode(data, start), InstOf(e, start), Bytes(e))
    {
      DecodesEncoding(data, start, e);
    }
    if Decode(data, start).Ok? {
      var e := Recovered(data, start);
    }
  }

  // ---- What the manual says the encoding means

  // Without what the decoder takes too many.
  predicate ByTheBook(e: Encoding) {
    Valid(e) && e.slack == NONE
  }

  function WithR(l: Lead, n: nat): nat {
    if l.Rex? && l.r then n + 8 else n
  }

  function WithX(l: Lead, n: nat): nat {
    if l.Rex? && l.x then n + 8 else n
  }

  function WithB(l: Lead, n: nat): nat {
    if l.Rex? && l.b then n + 8 else n
  }

  // A memory operand with an index has no counterpart among the decoded ones.
  function RmMeaning(l: Lead, rm: Rm): Option<Operand> {
    match rm
    case InRegister(reg) => Some(Reg(WithB(l, reg)))
    case AtBase(base, disp) => Some(MemBaseDisp(WithB(l, base), disp))
    case AtSib(_, index, base, disp) =>
      if WithX(l, index) == 4 then Some(MemBaseDisp(WithB(l, base), disp)) else None
  }

  // A number at the operand size; a smaller immediate is sign-extended to it.
  function AtWidth(v: int, width: nat): Word {
    if width == 16 then v % 0x1_0000 else if width == 32 then v % 0x1_0000_0000 else Wrap(v)
  }

  /** The operands of the instruction (sections 2.2.1 and 2.2.1.2, and the pages of the instructions): REX extends the
      register fields, immediates are sign-extended, and distances are counted from the end. */
  function Meaning(e: Encoding, end: nat): seq<Option<Operand>> {
    var l := e.lead;
    match e.form
    case RegRm(op, reg, rm) =>
      if op.AddLoad? || op.MovLoad? then [Some(Reg(WithR(l, reg))), RmMeaning(l, rm)]
      else [RmMeaning(l, rm), Some(Reg(WithR(l, reg)))]
    case RmImm(_, rm, v) => [RmMeaning(l, rm), Some(Imm(AtWidth(v, WidthOf(e))))]
    case RmOnly(op, rm) => if op.ShlOne? then [RmMeaning(l, rm), Some(Imm(1))] else [RmMeaning(l, rm)]
    case RegOnly(_, reg) => [Some(Reg(WithB(l, reg)))]
    case RegImm(reg, v) => [Some(Reg(WithB(l, reg))), Some(Imm(AtWidth(v, WidthOf(e))))]
    case Alone => []
    case Jump(_, v) => [Some(Imm(Wrap(v + end)))]
  }

  // The decoded operand is the one that is meant.
  predicate RmPlain(l: Lead, rm: Rm) {
    !(l.Rex? && l.b) && (rm.AtSib? ==> rm.index == 4 && !(l.Rex? && l.x))
  }

  /** When the decoded operands are those that are meant: no register field is extended, there is no index, and no
      negative immediate is sign-extended beyond its own bytes. */
  predicate Plainly(e: Encoding) {
    && (HasRm(e.form) ==> RmPlain(e.lead, e.form.rm))
    && (e.form.RegRm? ==> !(e.lead.Rex? && e.lead.r))
    && (e.form.RegOnly? || e.form.RegImm? ==> !(e.lead.Rex? && e.lead.b))
    && (e.form.RmImm? ==> e.form.value >= 0 || (e.form.rmImmOp.MovImm? && WidthOf(e) == 32))
  }

  predicate Means(ops: seq<Operand>, meant: seq<Option<Operand>>) {
    |ops| == |meant| && forall k :: 0 <= k < |ops| ==> meant[k] == Some(ops[k])
  }

  // A number that fits is read back from its bytes modulo their range.
  lemma SignedReadBack(v: int, n: nat)
    requires Fits(v, n) || 0 <= v < Power256(n)
    ensures LittleEndian(SignedBytes(v, n)) == if v >= 0 then v else v + Power256(n)
  {
    hide LittleEndian, LowBytes, Power256;
    ReadBack(if v >= 0 then v else Negative(v, n), n);
  }

  lemma Ranges()
    ensures Power256(1) == 0x100 && Power256(2) == 0x1_0000 && Power256(4) == 0x1_0000_0000 && Power256(8) == TWO_TO_64
  {
    assert Power256(3) == 0x100_0000;
    assert Power256(5) == 0x100_0000_0000;
    assert Power256(6) == 0x1_0000_0000_0000;
    assert Power256(7) == 0x100_0000_0000_0000;
  }

  lemma BookValue(e: Encoding)
    requires ByTheBook(e)
    ensures ValuePart(e) == ValueBytes(e.lead, e.form) && ValueOk(e.lead, e.form)
    ensures TooManyForValue(e.lead, e.form) == 0
  {
    assert ValuePart(e) == ValueBytes(e.lead, e.form) + [];
  }

  lemma RmImmMeaning(e: Encoding)
    requires ByTheBook(e) && e.form.RmImm?
    ensures ImmOperand(e) == Imm(AtWidth(e.form.value, WidthOf(e))) <==>
      e.form.value >= 0 || (e.form.rmImmOp.MovImm? && WidthOf(e) == 32)
  {
    hide SignedBytes, Power256, LittleEndian;
    BookValue(e);
    Ranges();
    SignedReadBack(e.form.value, ValueLength(e.lead, e.form));
  }

  lemma RegImmMeaning(e: Encoding)
    requires ByTheBook(e) && e.form.RegImm?
    ensures ImmOperand(e) == Imm(AtWidth(e.form.value, WidthOf(e)))
  {
    hide SignedBytes, Power256, LittleEndian;
    BookValue(e);
    Ranges();
    SignedReadBack(e.form.value, ValueLength(e.lead, e.form));
  }

  lemma WrapTwice(v: int, end: nat)
    ensures Wrap(Wrap(v) + end) == Wrap(v + end)
  {
  }

  lemma JumpMeaning(e: Encoding, end: nat)
    requires ByTheBook(e) && e.form.Jump?
    ensures TargetOperand(e, end) == Imm(Wrap(e.form.value + end))
  {
    hide SignedBytes, Power256, LittleEndian, Wrap;
    BookValue(e);
    Ranges();
    SignedReadBack(e.form.value, ValueLength(e.lead, e.form));
    WrapTwice(e.form.value, end);
  }

  lemma RmMeans(l: Lead, rm: Rm)
    requires RmOk(rm)
    ensures RmMeaning(l, rm) == Some(RmOperand(rm)) <==> RmPlain(l, rm)
  {
  }

  lemma MeansTwo(a: Operand, b: Operand, x: Option<Operand>, y: Option<Operand>)
    ensures Means([a, b], [x, y]) <==> x == Some(a) && y == Some(b)
    ensures Means([a], [x]) <==> x == Some(a)
    ensures Means([], [])
  {
    if Means([a, b], [x, y]) {
      assert [x, y][0] == Some([a, b][0]) && [x, y][1] == Some([a, b][1]);
    }
    if Means([a], [x]) {
      assert [x][0] == Some([a][0]);
    }
  }

  /** An encoding of the manual is decoded to what it means exactly under these conditions. */
  lemma MeansExactly(e: Encoding, end: nat)
    requires ByTheBook(e)
    ensures Means(OperandsOf(e, end), Meaning(e, end)) <==> Plainly(e)
  {
    hide ValueOk, ImmOperand, TargetOperand, AtWidth, WidthOf, RmMeaning, RmOperand, RmPlain, RmOk, Means;
    ValidFields(e);
    if HasRm(e.form) {
      RmMeans(e.lead, e.form.rm);
    }
    var ops, meant := OperandsOf(e, end), Meaning(e, end);
    if |ops| == 0 {
      MeansTwo(Imm(0), Imm(0), None, None);
    } else {
      MeansTwo(ops[0], ops[|ops| - 1], meant[0], meant[|ops| - 1]);
      assert |ops| == 2 ==> ops == [ops[0], ops[1]] && meant == [meant[0], meant[1]];
      assert |ops| == 1 ==> ops == [ops[0]] && meant == [meant[0]];
    }
    if e.form.RmImm? {
      RmImmMeaning(e);
    } else if e.form.RegImm? {
      RegImmMeaning(e);
    } else if e.form.Jump? {
      JumpMeaning(e, end);
    }
  }

  /** The round trip: an instruction that is encoded as the manual says, anywhere in a stream, is decoded again. The
      decoder takes its bytes and no others; its operands are those that are meant, under the conditions above. */
  lemma RoundTrip(before: seq<Byte>, e: Encoding, after: seq<Byte>)
    requires ByTheBook(e)
    ensures var r := Decode(before + Bytes(e) + after, |before|);
      && DecodesTo(r, InstOf(e, |before|), Bytes(e))
      && (Means(r.value.inst.operands, Meaning(e, |before| + |Bytes(e)|)) <==> Plainly(e))
  {
    hide Decode, Bytes, Valid, Means, Meaning, Plainly, OperandsOf;
    var data := before + Bytes(e) + after;
    assert data[|before|..|before| + |Bytes(e)|] == Bytes(e);
    DecodesEncoding(data, |before|, e);
    MeansExactly(e, |before| + |Bytes(e)|);
  }

  // ---- The encodings that the decoder takes too many bytes for

  // The bytes of the manual.
  function BookBytes(l: Lead, f: Form): seq<Byte>
    requires InFields(f) && ValueOk(l, f)
  {
    var e := Encoding(l, f, NONE);
    LeadBytes(l) + OpcodeBytes(f) + ((if HasRm(f) then [ModRmByte(RegField(e), f.rm)] + RmBytes(f.rm) else [])
      + ValueBytes(l, f))
  }

  function TooMany(l: Lead, f: Form): nat {
    TooManyForRm(f) + TooManyForValue(l, f)
  }

  lemma BookParts(data: seq<Byte>, start: nat, l: Lead, f: Form)
    requires InFields(f) && ValueOk(l, f) && Holds(data, start, BookBytes(l, f))
    ensures Holds(data, start, LeadBytes(l)) && Holds(data, start + |LeadBytes(l)|, OpcodeBytes(f))
    ensures var p := start + |LeadBytes(l) + OpcodeBytes(f)|;
      if HasRm(f) then
        p < |data| && data[p] == ModRmByte(RegField(Encoding(l, f, NONE)), f.rm) && Holds(data, p + 1, RmBytes(f.rm))
          && Holds(data, p + 1 + |RmBytes(f.rm)|, ValueBytes(l, f))
      else Holds(data, p, ValueBytes(l, f))
  {
    hide Holds, LeadBytes, OpcodeBytes, ValueBytes, RmBytes, ModRmByte, ValueOk, InFields;
    FieldsOk(f);
    var b, v := LeadBytes(l) + OpcodeBytes(f), ValueBytes(l, f);
    if HasRm(f) {
      var m, r := [ModRmByte(RegField(Encoding(l, f, NONE)), f.rm)], RmBytes(f.rm);
      assert BookBytes(l, f) == b + (m + (r + v));
      HoldsParts(data, start, b, m + (r + v));
      HoldsParts(data, start + |b|, m, r + v);
      HoldsParts(data, start + |b| + 1, r, v);
      HoldsOne(data, start + |b|, m[0]);
    } else {
      assert BookBytes(l, f) == b + v;
      HoldsParts(data, start, b, v);
    }
    HoldsParts(data, start, LeadBytes(l), OpcodeBytes(f));
  }

  lemma FieldsOk(f: Form)
    requires InFields(f)
    ensures HasRm(f) ==> RmOk(f.rm) && forall l :: RegField(Encoding(l, f, NONE)) < 8
  {
  }

  lemma PartHeld(data: seq<Byte>, p: nat, n: nat)
    requires p + n <= |data|
    ensures Holds(data, p, data[p..p + n])
  {
  }

  // With the bytes that follow, the stream holds an encoding of the same kind.
  lemma BookFilled(data: seq<Byte>, start: nat, l: Lead, f: Form) returns (e: Encoding)
    requires InFields(f) && ValueOk(l, f) && Holds(data, start, BookBytes(l, f))
    requires start + |BookBytes(l, f)| + TooMany(l, f) <= |data|
    ensures Valid(e) && Holds(data, start, Bytes(e)) && |Bytes(e)| == |BookBytes(l, f)| + TooMany(l, f)
  {
    hide Holds, LeadBytes, OpcodeBytes, ValueBytes, RmBytes, ModRmByte, ValueOk, InFields, RmOk;
    BookParts(data, start, l, f);
    FieldsOk(f);
    BookLength(l, f);
    var p := start + |LeadBytes(l) + OpcodeBytes(f)|;
    if TooManyForRm(f) == 1 {
      e := FourFilled(data, p, l, f);
    } else {
      e := ValueFilled(data, p, l, f);
    }
    Assembled(data, start, e);
    BytesLength(e);
  }

  lemma BookLength(l: Lead, f: Form)
    requires InFields(f) && ValueOk(l, f)
    ensures |BookBytes(l, f)| == |LeadBytes(l) + OpcodeBytes(f)|
        + (if HasRm(f) then 1 + |RmBytes(f.rm)| else 0) + ValueLength(l, f)
  {
    hide LeadBytes, OpcodeBytes, RmBytes, ValueOk, SignedBytes;
  }

  lemma ValueFilled(data: seq<Byte>, p: nat, l: Lead, f: Form) returns (e: Encoding)
    requires InFields(f) && ValueOk(l, f) && TooManyForRm(f) == 0 && (HasRm(f) ==> RmOk(f.rm))
    requires HasRm(f) ==>
        p < |data| && data[p] == ModRmByte(RegField(Encoding(l, f, NONE)), f.rm) && Holds(data, p + 1, RmBytes(f.rm))
    requires Holds(data, p + (if HasRm(f) then 1 + |RmBytes(f.rm)| else 0), ValueBytes(l, f))
    requires p + (if HasRm(f) then 1 + |RmBytes(f.rm)| else 0) + ValueLength(l, f) + TooManyForValue(l, f) <= |data|
    ensures Valid(e) && e.lead == l && OpcodeBytes(e.form) == OpcodeBytes(f)
    ensures Holds(data, p, RmPart(e) + ValuePart(e))
    ensures |RmPart(e)| + |ValuePart(e)|
         == (if HasRm(f) then 1 + |RmBytes(f.rm)| else 0) + ValueLength(l, f) + TooManyForValue(l, f)
  {
    hide Holds, OpcodeBytes, ValueBytes, RmBytes, ModRmByte, ValueOk;
    var m := p + (if HasRm(f) then 1 + |RmBytes(f.rm)| else 0) + ValueLength(l, f);
    var behind := data[m..m + TooManyForValue(l, f)];
    e := Encoding(l, f, Slack([], behind, 0));
    PartHeld(data, m, |behind|);
    HoldsJoined(data, m - ValueLength(l, f), ValueBytes(l, f), behind);
    if HasRm(f) {
      assert RmBytes(f.rm) + [] == RmBytes(f.rm);
      HoldsOne(data, p, data[p]);
      HoldsJoined(data, p, [data[p]], RmBytes(f.rm));
      HoldsJoined(data, p, RmPart(e), ValuePart(e));
    } else {
      assert RmPart(e) + ValuePart(e) == ValuePart(e);
    }
  }

  // Nothing has changed but the value of an immediate.
  predicate SameButValue(f': Form, f: Form) {
    if f.RmImm? then f'.RmImm? && f'.rmImmOp == f.rmImmOp && f'.rm == f.rm else f' == f
  }

  // The form with another value in its place, and what is left of the bytes behind that.
  lemma ValueTaken(s: seq<Byte>, l: Lead, f: Form) returns (f': Form, behind: seq<Byte>)
    requires InFields(f) && HasRm(f) && |s| == ValueLength(l, f) + TooManyForValue(l, f)
    ensures InFields(f') && ValueOk(l, f') && SameButValue(f', f)
    ensures |behind| == TooManyForValue(l, f') && ValueBytes(l, f') + behind == s
    ensures OpcodeBytes(f') == OpcodeBytes(f)
  {
    hide SignedBytes, Fits, RmOk;
    var k := ValueLength(l, f);
    f', behind := f, s[k..];
    if f.RmImm? {
      var v := SignedRecovered(s[..k]);
      f' := RmImm(f.rmImmOp, f.rm, v);
    }
    assert s[..k] + s[k..] == s;
  }

  // The byte behind the register counts as a SIB byte, so the value begins one byte later.
  lemma FourFilled(data: seq<Byte>, p: nat, l: Lead, f: Form) returns (e: Encoding)
    requires InFields(f) && TooManyForRm(f) == 1 && RmOk(f.rm)
    requires p < |data| && data[p] == ModRmByte(RegField(Encoding(l, f, NONE)), f.rm)
    requires p + 2 + ValueLength(l, f) + TooManyForValue(l, f) <= |data|
    ensures Valid(e) && e.lead == l && OpcodeBytes(e.form) == OpcodeBytes(f)
    ensures Holds(data, p, RmPart(e) + ValuePart(e))
    ensures |RmPart(e)| + |ValuePart(e)| == 2 + ValueLength(l, f) + TooManyForValue(l, f) && RmBytes(f.rm) == []
  {
    hide Holds, ModRmByte, ValueBytes, ValueOk, InFields, OpcodeBytes, ValueLength, TooManyForValue;
    var s := data[p + 2..p + 2 + (ValueLength(l, f) + TooManyForValue(l, f))];
    FieldsOk(f);
    var f', behind := ValueTaken(s, l, f);
    e := Encoding(l, f', Slack([data[p + 1]], behind, 0));
    var x := RmBytes(f.rm) + [data[p + 1]];
    assert x == [data[p + 1]];
    FourPart(e, f, data[p], data[p + 1]);
    HoldsOne(data, p, data[p]);
    HoldsOne(data, p + 1, data[p + 1]);
    HoldsJoined(data, p, [data[p]], [data[p + 1]]);
    PartHeld(data, p + 2, |s|);
    HoldsJoined(data, p, RmPart(e), ValuePart(e));
  }

  lemma FourPart(e: Encoding, f: Form, modRm: Byte, behind: Byte)
    requires Valid(e) && HasRm(f) && f.rm == InRegister(4) && e.slack.behindRm == [behind] && e.slack.field == 0
    requires SameButValue(e.form, f)
    requires RegField(Encoding(e.lead, f, NONE)) < 8
    requires modRm == ModRmByte(RegField(Encoding(e.lead, f, NONE)), f.rm)
    ensures RmPart(e) == [modRm] + [behind]
  {
    hide Valid, ModRmByte;
    assert RegField(e) == RegField(Encoding(e.lead, f, NONE));
    assert [] + [behind] == [behind];
  }

  /** Of a stream that goes on with an encoding of the manual the decoder takes this number of bytes too many, and fails
      if they are not there. It is zero but for a register with number 4 in ModRM, a short jump with an address size
      prefix, and a move of an immediate with an operand size prefix. */
  lemma TakesTooMany(data: seq<Byte>, start: nat, l: Lead, f: Form)
    requires InFields(f) && ValueOk(l, f) && Holds(data, start, BookBytes(l, f))
    ensures Decode(data, start).Ok? <==> start + |BookBytes(l, f)| + TooMany(l, f) <= |data|
    ensures Decode(data, start).Ok? ==>
        Decode(data, start).value.inst.length == |BookBytes(l, f)| + TooMany(l, f)
  {
    hide Decode, BookBytes, InFields, ValueOk, Valid, Bytes, OperandsOf, TooMany;
    var n := |BookBytes(l, f)| + TooMany(l, f);
    if start + n <= |data| {
      var e := BookFilled(data, start, l, f);
      DecodesEncoding(data, start, e);
    } else if Decode(data, start).Ok? {
      // With more bytes behind it the same instruction would be decoded, and be longer.
      var longer := data + seq(TooMany(l, f), i => 0);
      assert longer[start..start + |BookBytes(l, f)|] == data[start..start + |BookBytes(l, f)|];
      var e := BookFilled(longer, start, l, f);
      DecodesEncoding(longer, start, e);
      DecodeTakes(data, start);
      SamePrefix(data, longer, start, Decode(data, start).value.inst.length);
      DecodeMoves(data, start, longer, start);
    }
  }

  lemma SamePrefix(a: seq<Byte>, b: seq<Byte>, p: nat, n: nat)
    requires a <= b && p + n <= |a|
    ensures Agree(a, p, b, p, n)
  {
  }
}

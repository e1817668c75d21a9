/** Decoding machine instructions from a byte stream. */
module Decoder {
  import opened Words
  import opened X86
  import opened Stream
  import opened Decoding
  import opened Frontend
  import E = Encoding

  // ---- The tables

  function Filled(t: seq<InstructionInfo>, op: nat, range: nat, info: InstructionInfo): (r: seq<InstructionInfo>)
    ensures |r| == |t| && forall i :: 0 <= i < |t| ==> r[i] == if op <= i < op + range then info else t[i]
  {
    seq(|t|, i requires 0 <= i < |t| => if op <= i < op + range then info else t[i])
  }

  function FirstHalf(t: seq<InstructionInfo>): seq<InstructionInfo> {
    var t1 := Filled(t, 0x03, 1, Plain(OpAdd, true, 64, 32, [ModRmGprInfo, ModRmRmInfo]).(baseOp := 0x03));
    var t2 := Filled(t1, 0x31, 1, Plain(OpXor, true, 0, 32, [ModRmRmInfo, ModRmGprInfo]).(baseOp := 0x31));
    var t3 := Filled(t2, 0x50, 8, Plain(OpPush, false, 0, 64, [OpcodeGprInfo]).(baseOp := 0x50));
    var t4 := Filled(t3, 0x58, 8, Plain(OpPop, false, 0, 64, [OpcodeGprInfo]).(baseOp := 0x58));
    var t5 := Filled(t4, 0x7D, 1, Plain(OpJge, false, 8, 0, [RelInfo]).(baseOp := 0x7D));
    var t6 := Filled(t5, 0x89, 1, Plain(OpMov, true, 64, 32, [ModRmRmInfo, ModRmGprInfo]).(baseOp := 0x89));
    var t7 := Filled(t6, 0x8B, 1, Plain(OpMov, true, 64, 32, [ModRmGprInfo, ModRmRmInfo]).(baseOp := 0x8B));
    t7
  }

  function SecondHalf(t: seq<InstructionInfo>): seq<InstructionInfo> {
    var t1 := Filled(t, 0xB8, 8, Plain(OpMov, false, 0, 32, [OpcodeGprInfo, ImmInfo(0)]).(baseOp := 0xB8));
    var t2 := Filled(t1, 0xC3, 1, Plain(OpRet, false, 0, 0, []).(baseOp := 0xC3));
    var t3 := Filled(t2, 0xC7, 1, Plain(OpMov, true, 64, 32, [ModRmRmInfo, ImmInfo(32)]).(baseOp := 0xC7));
    var t4 := Filled(t3, 0xE8, 1, Plain(OpCall, false, 32, 0, [RelInfo]).(baseOp := 0xE8));
    var t5 := Filled(t4, 0xE9, 1, Plain(OpJmp, false, 32, 0, [RelInfo]).(baseOp := 0xE9));
    var t6 := Filled(t5, 0xEB, 1, Plain(OpJmp, false, 8, 0, [RelInfo]).(baseOp := 0xEB));
    t6
  }

  predicate IsSlashOp(i: nat) {
    i == 0x83 || i == 0xD1 || i == 0xFF
  }

  lemma HalvesAt(t: seq<InstructionInfo>, i: nat)
    requires i < |t| && t[i] == ABSENT
    ensures |SecondHalf(FirstHalf(t))| == |t| && SecondHalf(FirstHalf(t))[i] == if IsSlashOp(i) then ABSENT
        else Primary(i)
  {
  }

  function WithSlash(info: InstructionInfo, slash: nat, inner: InstructionInfo): InstructionInfo {
    info.(present := true, hasSlash := true, slashes := info.slashes[slash := inner])
  }

  // ---- One instruction

  // The bytes that have been recorded are those read since start; they fit the 16-byte buffer.
  ghost predicate Recorded(data: seq<Byte>, start: nat, p: nat, bytes: seq<Byte>) {
    start <= p <= |data| && bytes == data[start..p] && |bytes| <= 16
  }

  lemma RecordedMore(data: seq<Byte>, start: nat, p: nat, bytes: seq<Byte>, n: nat)
    requires Recorded(data, start, p, bytes) && p + n <= |data| && |bytes| + n <= 16
    ensures Recorded(data, start, p + n, bytes + data[p..p + n])
  {
  }

  method RecordByte(bytes: seq<Byte>, b: Byte) returns (bytes': seq<Byte>)
    requires |bytes| < 16
    ensures bytes' == bytes + [b]
  {
    bytes' := bytes + [b];
  }

  // The low n bytes of an immediate.
  method RecordImm(bytes: seq<Byte>, imm: Word, n: nat) returns (bytes': seq<Byte>)
    requires |bytes| + n <= 16
    ensures bytes' == bytes + LowBytes(imm, n)
  {
    bytes' := bytes;
    var rest: nat := imm;
    var j := 0;
    while j < n
      invariant 0 <= j <= n && |bytes'| == |bytes| + j
      invariant bytes' + LowBytes(rest, n - j) == bytes + LowBytes(imm, n)
    {
      bytes' := RecordByte(bytes', rest % 256);
      rest := rest / 256;
      j := j + 1;
    }
  }

  lemma Powers()
    ensures Power256(1) == 0x100 && Power256(2) == 0x1_0000 && Power256(4) == 0x1_0000_0000 && Power256(8) == TWO_TO_64
  {
    assert Power256(3) == 0x100_0000;
    assert Power256(5) == 0x100_0000_0000;
    assert Power256(6) == 0x1_0000_0000_0000;
    assert Power256(7) == 0x100_0000_0000_0000;
  }

  lemma PowerBound(n: nat)
    requires IsWidth(8 * n)
    ensures Power256(n) <= TWO_TO_64
  {
    Powers();
  }

  lemma ImmBytes(s: seq<Byte>)
    requires IsWidth(8 * |s|)
    ensures Wrap(LittleEndian(s)) == LittleEndian(s) && LowBytes(LittleEndian(s), |s|) == s
  {
    hide LowBytes, Power256;
    PowerBound(|s|);
    WriteReadAlone(s);
  }

  // The bytes above an n-byte negative number, as a number.
  function AllOnesAbove(n: nat): nat {
    if n == 1 then 0xFF_FFFF_FFFF_FFFF else if n == 2 then 0xFFFF_FFFF_FFFF else if n == 4 then 0xFFFF_FFFF else 0
  }

  lemma OnesAbove(n: nat)
    requires IsWidth(8 * n)
    ensures Power256(n) * AllOnesAbove(n) == TWO_TO_64 - Power256(n)
  {
    Powers();
  }

  lemma WrapNegative(x: nat, p: nat)
    requires x < p <= TWO_TO_64
    ensures Wrap(x - p) == x + (TWO_TO_64 - p)
  {
  }

  // Sign extension does not change the bytes that were read.
  lemma RelBytes(s: seq<Byte>)
    requires IsWidth(8 * |s|)
    ensures LowBytes(SignExtend(LittleEndian(s), |s|), |s|) == s
  {
    hide LittleEndian, LowBytes, Power256, AllOnesAbove, Wrap;
    var x, n := LittleEndian(s), |s|;
    PowerBound(n);
    ImmBytes(s);
    if 2 * x >= Power256(n) {
      OnesAbove(n);
      WrapNegative(x, Power256(n));
      WriteRead(s, AllOnesAbove(n));
    }
  }

  // The operand infos that the tables hold.
  predicate Decodable(c: Context, info: OperandInfo) {
    && (info.ImmInfo? ==> IsWidth(OrDefault(info.immWidth, c.operandWidth)))
    && (info.RelInfo? ==> IsWidth(c.addressWidth))
    && (info.OpcodeGprInfo? ==> c.op >= c.info.baseOp)
  }

  predicate DecodableAll(c: Context) {
    forall k :: 0 <= k < |c.info.operands| ==> Decodable(c, c.info.operands[k])
  }

  predicate PrefixWidths(w: Widths) {
    (w.operand == 0 || IsWidth(w.operand)) && (w.address == 0 || IsWidth(w.address))
  }

  lemma PrimaryDecodable(op: Byte, modRm: Byte, w: Widths)
    requires PrefixWidths(w)
    ensures DecodableAll(ContextOf(op, modRm, Primary(op), w))
  {
  }

  lemma SlashDecodable(op: Byte, reg: nat, modRm: Byte, w: Widths)
    requires PrefixWidths(w)
    ensures DecodableAll(ContextOf(op, modRm, Slash(Primary(op), reg), w))
  {
  }

  lemma SecondaryDecodable(op: Byte, modRm: Byte, w: Widths)
    requires PrefixWidths(w)
    ensures DecodableAll(ContextOf(op, modRm, Secondary(op), w))
  {
  }

  // A result of the stream code next to that of the function, with the position and the record.
  ghost predicate Follows(data: seq<Byte>, start: nat, expected: Result<(Operand, nat)>, r: Result<Operand>, p: nat,
      bytes: seq<Byte>) {
    if expected.Ok? then r == Ok(expected.value.0) && p == expected.value.1 && Recorded(data, start, p, bytes)
    else r == Err(expected.error) && p <= |data|
  }

  ghost predicate FollowsAll(data: seq<Byte>, start: nat, expected: Result<(seq<Operand>, nat)>,
      r: Result<seq<Operand>>, p: nat, bytes: seq<Byte>) {
    if expected.Ok? then r == Ok(expected.value.0) && p == expected.value.1 && Recorded(data, start, p, bytes)
    else r == Err(expected.error) && p <= |data|
  }

  ghost function Prepend(ops: seq<Operand>, r: Result<(seq<Operand>, nat)>): Result<(seq<Operand>, nat)> {
    if r.Err? then r else Ok((ops + r.value.0, r.value.1))
  }

  lemma NothingYet(data: seq<Byte>, p: nat, c: Context, infos: seq<OperandInfo>)
    ensures DecodeOperands(data, p, c, infos) == Prepend([], DecodeOperands(data, p, c, infos))
  {
    var r := DecodeOperands(data, p, c, infos);
    if r.Ok? {
      assert [] + r.value.0 == r.value.0;
    }
  }

  lemma NothingLeft(data: seq<Byte>, p: nat, c: Context, ops: seq<Operand>)
    ensures Prepend(ops, DecodeOperands(data, p, c, [])) == Ok((ops, p))
  {
    assert ops + [] == ops;
  }

  lemma MostBytesStep(infos: seq<OperandInfo>, k: nat)
    requires k < |infos|
    ensures MostBytesOf(infos[k..]) == MostBytes(infos[k]) + MostBytesOf(infos[k + 1..])
  {
    assert infos[k..][1..] == infos[k + 1..];
  }

  lemma StepLength(data: seq<Byte>, p: nat, c: Context, info: OperandInfo, start: nat, before: seq<Byte>,
      r: Result<Operand>, q: nat, bytes: seq<Byte>)
    requires Recorded(data, start, p, before) && Follows(data, start, DecodeOperand(data, p, c, info), r, q, bytes)
    ensures r.Ok? ==> Recorded(data, start, q, bytes) && |bytes| <= |before| + MostBytes(info)
  {
    hide DecodeOperand, MostBytes;
    if r.Ok? {
      OperandConsumes(data, p, c, info);
    }
  }

  lemma PrependMore(ops: seq<Operand>, data: seq<Byte>, p: nat, c: Context, infos: seq<OperandInfo>, k: nat)
    requires k < |infos|
    ensures var o := DecodeOperand(data, p, c, infos[k]);
      Prepend(ops, DecodeOperands(data, p, c, infos[k..]))
      == if o.Err? then Err(o.error) else Prepend(ops + [o.value.0], DecodeOperands(data, o.value.1, c, infos[k + 1..]))
  {
    hide DecodeOperand;
    assert infos[k..][0] == infos[k] && infos[k..][1..] == infos[k + 1..];
    var o := DecodeOperand(data, p, c, infos[k]);
    if o.Ok? {
      var rest := DecodeOperands(data, o.value.1, c, infos[k + 1..]);
      if rest.Ok? {
        assert ops + ([o.value.0] + rest.value.0) == (ops + [o.value.0]) + rest.value.0;
      }
    }
  }

  class Decoder {
    const stream: Stream
    const table: array<InstructionInfo>
    const table0F: array<InstructionInfo>

    ghost predicate Ready()
      reads table, table0F
    {
      && table != table0F && table.Length == 256 && table0F.Length == 256
      && (forall i :: 0 <= i < 256 ==> table[i] == Primary(i))
      && (forall i :: 0 <= i < 256 ==> table0F[i] == Secondary(i))
    }

    static method Build(t: array<InstructionInfo>, op: nat, range: nat, info: InstructionInfo)
      requires op + range <= t.Length
      modifies t
      ensures t[..] == Filled(old(t[..]), op, range, info.(baseOp := op))
    {
      var i := op;
      while i < op + range
        invariant op <= i <= op + range
        invariant forall j :: 0 <= j < t.Length ==> t[j] == if op <= j < i then info.(baseOp := op) else old(t[j])
      {
        t[i] := info.(baseOp := op);
        i := i + 1;
      }
    }

    static method BuildSlash(t: array<InstructionInfo>, op: nat, slash: nat, info: InstructionInfo)
      requires op < t.Length
      modifies t
      ensures t[..] == old(t[..])[op := WithSlash(old(t[op]), slash, info)]
    {
      t[op] := WithSlash(t[op], slash, info);
    }

    constructor (stream: Stream)
      ensures this.stream == stream && fresh(table) && fresh(table0F) && Ready()
    {
      this.stream := stream;
      table := new InstructionInfo[256](_ => ABSENT);
      table0F := new InstructionInfo[256](_ => ABSENT);
      new;
      BuildPrimary(table);
      BuildSecondary(table0F);
    }

    static method BuildFirst(table: array<InstructionInfo>)
      requires table.Length == 256
      modifies table
      ensures table[..] == FirstHalf(old(table[..]))
    {
      hide Filled;
      Build(table, 0x03, 1, Plain(OpAdd, true, 64, 32, [ModRmGprInfo, ModRmRmInfo]));
      Build(table, 0x31, 1, Plain(OpXor, true, 0, 32, [ModRmRmInfo, ModRmGprInfo]));
      Build(table, 0x50, 8, Plain(OpPush, false, 0, 64, [OpcodeGprInfo]));
      Build(table, 0x58, 8, Plain(OpPop, false, 0, 64, [OpcodeGprInfo]));
      Build(table, 0x7D, 1, Plain(OpJge, false, 8, 0, [RelInfo]));
      Build(table, 0x89, 1, Plain(OpMov, true, 64, 32, [ModRmRmInfo, ModRmGprInfo]));
      Build(table, 0x8B, 1, Plain(OpMov, true, 64, 32, [ModRmGprInfo, ModRmRmInfo]));
    }

    static method BuildSecond(table: array<InstructionInfo>)
      requires table.Length == 256
      modifies table
      ensures table[..] == SecondHalf(old(table[..]))
    {
      hide Filled;
      Build(table, 0xB8, 8, Plain(OpMov, false, 0, 32, [OpcodeGprInfo, ImmInfo(0)]));
      Build(table, 0xC3, 1, Plain(OpRet, false, 0, 0, []));
      Build(table, 0xC7, 1, Plain(OpMov, true, 64, 32, [ModRmRmInfo, ImmInfo(32)]));
      Build(table, 0xE8, 1, Plain(OpCall, false, 32, 0, [RelInfo]));
      Build(table, 0xE9, 1, Plain(OpJmp, false, 32, 0, [RelInfo]));
      Build(table, 0xEB, 1, Plain(OpJmp, false, 8, 0, [RelInfo]));
    }

    static method BuildSlashes(table: array<InstructionInfo>)
      requires table.Length == 256
      requires table[0x83] == table[0xD1] == table[0xFF] == ABSENT
      modifies table
      ensures table[0x83] == Primary(0x83) && table[0xD1] == Primary(0xD1) && table[0xFF] == Primary(0xFF)
      ensures forall i :: 0 <= i < 256 && !IsSlashOp(i) ==> table[i] == old(table[i])
    {
      BuildSlash(table, 0x83, 0, Plain(OpAdd, true, 64, 32, [ModRmRmInfo, ImmInfo(8)]));
      BuildSlash(table, 0x83, 7, Plain(OpCmp, true, 64, 32, [ModRmRmInfo, ImmInfo(8)]));
      BuildSlash(table, 0xD1, 4, Plain(OpShl, true, 32, 32, [ModRmRmInfo, ConstantInfo(1)]));
      BuildSlash(table, 0xFF, 0, Plain(OpInc, true, 0, 32, [ModRmRmInfo]));
    }

    static method BuildPrimary(table: array<InstructionInfo>)
      requires table.Length == 256 && forall i :: 0 <= i < 256 ==> table[i] == ABSENT
      modifies table
      ensures forall i :: 0 <= i < 256 ==> table[i] == Primary(i)
    {
      hide FirstHalf, SecondHalf, Primary;
      ghost var t := table[..];
      BuildFirst(table);
      BuildSecond(table);
      forall i | 0 <= i < 256
        ensures table[i] == if IsSlashOp(i) then ABSENT else Primary(i)
      {
        HalvesAt(t, i);
        assert table[i] == table[..][i];
      }
      BuildSlashes(table);
    }

    static method BuildSecondary(table0F: array<InstructionInfo>)
      requires table0F.Length == 256 && forall i :: 0 <= i < 256 ==> table0F[i] == ABSENT
      modifies table0F
      ensures forall i :: 0 <= i < 256 ==> table0F[i] == Secondary(i)
    {
      Build(table0F, 0x8E, 1, Plain(OpJle, false, 32, 0, [RelInfo]));
      Build(table0F, 0x8F, 1, Plain(OpJg, false, 32, 0, [RelInfo]));
      forall i | 0 <= i < 256
        ensures table0F[i] == Secondary(i)
      {
        assert table0F[i] == table0F[..][i];
      }
    }

    method ReadNumber(width: nat) returns (x: nat)
      requires IsWidth(width) && stream.Has(width / 8)
      modifies stream`bytesRead
      ensures stream.bytesRead == old(stream.bytesRead) + width / 8 <= |stream.data|
      ensures x == LittleEndian(stream.data[old(stream.bytesRead)..stream.bytesRead])
    {
      if width == 8 {
        x := stream.Read8();
      } else if width == 16 {
        x := stream.Read16();
      } else if width == 32 {
        x := stream.Read32();
      } else {
        x := stream.Read64();
      }
    }

    method NextImm(width: nat, bytes: seq<Byte>, ghost start: nat) returns (r: Result<Operand>, bytes': seq<Byte>)
      requires IsWidth(width) && Recorded(stream.data, start, stream.bytesRead, bytes) && |bytes| <= 8
      modifies stream`bytesRead
      ensures Follows(stream.data, start, DecodeImm(stream.data, old(stream.bytesRead), width), r, stream.bytesRead,
          bytes')
    {
      hide LittleEndian, LowBytes;
      bytes' := bytes;
      if !stream.Has(width / 8) {
        return Err(Truncated), bytes';
      }
      ghost var p := stream.bytesRead;
      var x := ReadNumber(width);
      ImmBytes(stream.data[p..stream.bytesRead]);
      RecordedMore(stream.data, start, p, bytes, width / 8);
      bytes' := RecordImm(bytes, x, width / 8);
      r := Ok(Imm(x));
    }

    method NextRel(width: nat, bytes: seq<Byte>, start: nat) returns (r: Result<Operand>, bytes': seq<Byte>)
      requires IsWidth(width) && Recorded(stream.data, start, stream.bytesRead, bytes) && |bytes| <= 8
      modifies stream`bytesRead
      ensures Follows(stream.data, start, DecodeRel(stream.data, old(stream.bytesRead), width), r, stream.bytesRead,
          bytes')
    {
      hide LittleEndian, LowBytes, SignExtend, Wrap;
      bytes' := bytes;
      if !stream.Has(width / 8) {
        return Err(Truncated), bytes';
      }
      ghost var p := stream.bytesRead;
      var x := ReadNumber(width);
      RelBytes(stream.data[p..stream.bytesRead]);
      RecordedMore(stream.data, start, p, bytes, width / 8);
      var imm := SignExtend(x, width / 8);
      bytes' := RecordImm(bytes, imm, width / 8);
      assert |bytes'| + start == p + width / 8;
      r := Ok(Imm(Wrap(imm + |bytes'| + start)));
    }

    method NextByte(bytes: seq<Byte>, ghost start: nat) returns (b: Byte, bytes': seq<Byte>)
      requires stream.Has(1) && Recorded(stream.data, start, stream.bytesRead, bytes) && |bytes| < 16
      modifies stream`bytesRead
      ensures stream.bytesRead == old(stream.bytesRead) + 1 && b == stream.data[old(stream.bytesRead)]
      ensures Recorded(stream.data, start, stream.bytesRead, bytes')
    {
      RecordedMore(stream.data, start, stream.bytesRead, bytes, 1);
      b := stream.Read8();
      bytes' := RecordByte(bytes, b);
    }

    method NextRm(modRm: Byte, bytes: seq<Byte>, ghost start: nat) returns (r: Result<Operand>, bytes': seq<Byte>)
      requires Recorded(stream.data, start, stream.bytesRead, bytes) && |bytes| <= 14
      modifies stream`bytesRead
      ensures Follows(stream.data, start, DecodeRm(stream.data, old(stream.bytesRead), modRm), r, stream.bytesRead,
          bytes')
    {
      bytes' := bytes;
      var mode, rm := modRm / 64, modRm % 8;
      var base: nat := rm;
      if rm == 4 {
        if !stream.Has(1) {
          return Err(Truncated), bytes';
        }
        var sib;
        sib, bytes' := NextByte(bytes', start);
        base := sib % 8;
      }
      if mode == 3 {
        return Ok(Reg(rm)), bytes';
      }
      if mode != 1 {
        return Err(UnsupportedMode), bytes';
      }
      if !stream.Has(1) {
        return Err(Truncated), bytes';
      }
      var disp;
      disp, bytes' := NextByte(bytes', start);
      var signed: int := disp;
      r := Ok(MemBaseDisp(base, if signed < 128 then signed else signed - 256));
    }

    method NextOperand(c: Context, info: OperandInfo, bytes: seq<Byte>, start: nat)
        returns (r: Result<Operand>, bytes': seq<Byte>)
      requires Decodable(c, info) && Recorded(stream.data, start, stream.bytesRead, bytes)
      requires |bytes| + MostBytes(info) <= 16
      modifies stream`bytesRead
      ensures Follows(stream.data, start, DecodeOperand(stream.data, old(stream.bytesRead), c, info), r,
          stream.bytesRead, bytes')
    {
      hide DecodeImm, DecodeRel, DecodeRm;
      bytes' := bytes;
      match info
      case ConstantInfo(k) => r := Ok(Imm(k));
      case ImmInfo(w) => r, bytes' := NextImm(OrDefault(w, c.operandWidth), bytes, start);
      case ModRmGprInfo => r := Ok(Reg(c.modRm / 8 % 8));
      case ModRmRmInfo => r, bytes' := NextRm(c.modRm, bytes, start);
      case OpcodeGprInfo => r := Ok(Reg(c.op - c.info.baseOp));
      case RelInfo => r, bytes' := NextRel(c.addressWidth, bytes, start);
    }

    // The loop over the operands.
    method NextOperands(c: Context, bytes: seq<Byte>, start: nat) returns (r: Result<seq<Operand>>, bytes': seq<Byte>)
      requires DecodableAll(c) && Recorded(stream.data, start, stream.bytesRead, bytes)
      requires |bytes| + MostBytesOf(c.info.operands) <= 16
      modifies stream`bytesRead
      ensures FollowsAll(stream.data, start, DecodeOperands(stream.data, old(stream.bytesRead), c, c.info.operands), r,
          stream.bytesRead, bytes')
    {
      hide DecodeOperand, Recorded, Decodable, MostBytes, DecodeOperands, MostBytesOf;
      var infos := c.info.operands;
      var ops: seq<Operand> := [];
      bytes' := bytes;
      var k := 0;
      ghost var p0 := stream.bytesRead;
      assert infos[0..] == infos;
      NothingYet(stream.data, p0, c, infos);
      while k < |infos|
        invariant 0 <= k <= |infos| && Recorded(stream.data, start, stream.bytesRead, bytes')
        invariant |bytes'| + MostBytesOf(infos[k..]) <= 16
        invariant DecodeOperands(stream.data, p0, c, infos)
            == Prepend(ops, DecodeOperands(stream.data, stream.bytesRead, c, infos[k..]))
      {
        ghost var p := stream.bytesRead;
        MostBytesStep(infos, k);
        ghost var before := bytes';
        var op;
        op, bytes' := NextOperand(c, infos[k], bytes', start);
        StepLength(stream.data, p, c, infos[k], start, before, op, stream.bytesRead, bytes');
        PrependMore(ops, stream.data, p, c, infos, k);
        if op.Err? {
          return Err(op.error), bytes';
        }
        ops := ops + [op.value];
        k := k + 1;
      }
      assert infos[k..] == [];
      NothingLeft(stream.data, stream.bytesRead, c, ops);
      r := Ok(ops);
    }

    // The opcode and the ModRM byte are known.
    method NextTail(c: Context, bytes: seq<Byte>, start: nat) returns (r: Result<Decoded>)
      requires DecodableAll(c) && Small(c.info) && Recorded(stream.data, start, stream.bytesRead, bytes) && |bytes| <= 4
      modifies stream`bytesRead
      ensures r == DecodeTail(stream.data, start, old(stream.bytesRead), c)
      ensures stream.Valid() && (r.Ok? ==> stream.bytesRead == start + r.value.inst.length)
    {
      hide DecodeOperands, DecodableAll;
      var ops, bytes' := NextOperands(c, bytes, start);
      if ops.Err? {
        return Err(ops.error);
      }
      r := Ok(Decoded(MachineInst(c.info.opcode, ops.value, c.operandWidth, start, |bytes'|), bytes', c.addressWidth));
    }

    method NextModRm(w: Widths, op: Byte, info: InstructionInfo, bytes: seq<Byte>, start: nat)
        returns (r: Result<Decoded>)
      requires info == Primary(op) || info == Secondary(op)
      requires PrefixWidths(w) && Recorded(stream.data, start, stream.bytesRead, bytes) && |bytes| <= 3
      modifies stream`bytesRead
      ensures r == DecodeOpcode(stream.data, start, old(stream.bytesRead), w, op, info)
      ensures stream.Valid() && (r.Ok? ==> stream.bytesRead == start + r.value.inst.length)
    {
      hide Primary, Secondary, DecodeTail, DecodableAll, Small, ContextOf, PrefixWidths, Slash, Decodable;
      if !info.present {
        return Err(UnknownOpcode);
      }
      PrimarySmall(op);
      SecondarySmall(op);
      var modRm: Byte := 0;
      var bytes', info' := bytes, info;
      if info.modRm || info.hasSlash {
        if !stream.Has(1) {
          return Err(Truncated);
        }
        modRm, bytes' := NextByte(bytes, start);
      }
      if info.hasSlash {
        info' := Slash(info, modRm / 8 % 8);
        if !info'.present {
          return Err(UnknownOpcode);
        }
        SlashDecodable(op, modRm / 8 % 8, modRm, w);
      }
      ContextInfo(op, modRm, info', w);
      PrimaryDecodable(op, modRm, w);
      SecondaryDecodable(op, modRm, w);
      r := NextTail(ContextOf(op, modRm, info', w), bytes', start);
    }

    /** The next instruction; an error stands for an exception, or for reading past the end. */
    method NextInst() returns (r: Result<Decoded>)
      requires Ready() && stream.HasMore()
      modifies stream`bytesRead
      ensures r == Decode(stream.data, old(stream.bytesRead))
      ensures stream.Valid() && (r.Ok? ==> stream.bytesRead == old(stream.bytesRead) + r.value.inst.length)
      ensures r.Ok? <==> E.SomeEncoding(stream.data, old(stream.bytesRead))
      ensures forall e {:trigger E.Valid(e)} ::
          E.Valid(e) && E.Holds(stream.data, old(stream.bytesRead), E.Bytes(e)) ==>
          E.DecodesTo(r, E.InstOf(e, old(stream.bytesRead)), E.Bytes(e))
    {
      hide Primary, Secondary, DecodeOpcode, E.Valid, E.Bytes, E.InstOf, E.Holds, E.SomeEncoding;
      E.DecodesExactly(stream.data, stream.bytesRead);
      var start := stream.bytesRead;
      var byte, bytes := NextByte([], start);
      var w, hasPrefix := Widths(0, 0), true;
      if byte == 0x66 {
        w := Widths(16, 0);
      } else if byte == 0x67 {
        w := Widths(0, 32);
      } else if IsRex(byte) {
        w := Widths(if (byte / 8) % 2 == 1 then 64 else 0, 0);
      } else {
        hasPrefix := false;
      }
      var op := byte;
      if hasPrefix {
        if !stream.Has(1) {
          return Err(Truncated);
        }
        op, bytes := NextByte(bytes, start);
      }
      var is0F := op == 0x0F;
      if is0F {
        if !stream.Has(1) {
          return Err(Truncated);
        }
        op, bytes := NextByte(bytes, start);
      }
      var info := if is0F then table0F[op] else table[op];
      r := NextModRm(w, op, info, bytes, start);
    }
  }

  // ---- A whole stream

  // The instructions from position p to the end.
  function DecodeFrom(data: seq<Byte>, p: nat): Result<seq<Decoded>>
    decreases |data| - p
  {
    if p >= |data| then Ok([])
    else
      var d := Decode(data, p);
      if d.Err? then Err(d.error)
      else
        DecodeTakes(data, p);
        var rest := DecodeFrom(data, p + d.value.inst.length);
        if rest.Err? then rest else Ok([d.value] + rest.value)
  }

  function Joined(ds: seq<Decoded>): seq<Byte> {
    if ds == [] then [] else ds[0].bytes + Joined(ds[1..])
  }

  function Insts(ds: seq<Decoded>): (r: seq<MachineInst>)
    ensures |r| == |ds| && forall k :: 0 <= k < |ds| ==> r[k] == ds[k].inst
  {
    seq(|ds|, k requires 0 <= k < |ds| => ds[k].inst)
  }

  // Instructions that follow each other from p to the end of the stream.
  ghost predicate Tiles(data: seq<Byte>, p: nat, ds: seq<Decoded>) {
    && (if |ds| > 0 then ds[0].inst.offset == p else p >= |data|)
    && (forall k {:trigger ds[k]} :: 0 <= k < |ds| ==>
          Takes(data, ds[k].inst.offset, ds[k], 14) && Decode(data, ds[k].inst.offset) == Ok(ds[k]))
    && (forall k {:trigger ds[k]} :: 0 <= k < |ds| - 1 ==>
         ds[k + 1].inst.offset == ds[k].inst.offset + ds[k].inst.length)
    && (|ds| > 0 ==> ds[|ds| - 1].inst.offset + ds[|ds| - 1].inst.length == |data|)
  }

  lemma TilesNothing(data: seq<Byte>, p: nat)
    requires p >= |data|
    ensures Tiles(data, p, [])
  {
  }

  lemma TilesCons(data: seq<Byte>, p: nat, d: Decoded, rest: seq<Decoded>)
    requires Takes(data, p, d, 14) && Decode(data, p) == Ok(d) && Tiles(data, p + d.inst.length, rest)
    ensures Tiles(data, p, [d] + rest)
  {
    hide Decode;
    var ds := [d] + rest;
    forall k {:trigger ds[k]} | 0 <= k < |ds| - 1
      ensures ds[k + 1].inst.offset == ds[k].inst.offset + ds[k].inst.length
    {
      if k > 0 {
        assert rest[k - 1 + 1].inst.offset == rest[k - 1].inst.offset + rest[k - 1].inst.length;
      }
    }
  }

  /** A stream that decodes is exactly the bytes of its instructions, each at its offset. */
  lemma {:induction false} DecodeConserves(data: seq<Byte>, p: nat)
    requires DecodeFrom(data, p).Ok? && p <= |data|
    ensures var ds := DecodeFrom(data, p).value; Tiles(data, p, ds) && Joined(ds) == data[p..]
    decreases |data| - p
  {
    hide Decode, Tiles, Takes;
    if p == |data| {
      TilesNothing(data, p);
    } else {
      DecodeTakes(data, p);
      var d := Decode(data, p).value;
      TakenBytes(data, p, d);
      DecodeConserves(data, p + d.inst.length);
      var rest := DecodeFrom(data, p + d.inst.length).value;
      TilesCons(data, p, d, rest);
      assert ([d] + rest)[1..] == rest;
    }
  }

  lemma TakenBytes(data: seq<Byte>, p: nat, d: Decoded)
    requires Takes(data, p, d, 14)
    ensures 0 < d.inst.length && p + d.inst.length <= |data| && d.bytes + data[p + d.inst.length..] == data[p..]
  {
  }

  lemma TilesAreContiguous(data: seq<Byte>, ds: seq<Decoded>)
    requires Tiles(data, 0, ds)
    ensures Contiguous(Insts(ds))
  {
    hide Decode;
    var insts := Insts(ds);
    forall j {:trigger insts[j]} | 0 <= j < |insts| - 1
      ensures insts[j + 1].offset == insts[j].offset + insts[j].length
    {
      assert ds[j + 1].inst.offset == ds[j].inst.offset + ds[j].inst.length;
    }
  }

  lemma DecodeFromStep(data: seq<Byte>, p: nat, done: seq<Decoded>)
    requires p < |data|
    ensures var d := Decode(data, p);
      Behind(done, DecodeFrom(data, p)) == if d.Err? then Err(d.error)
        else Behind(done + [d.value], DecodeFrom(data, p + d.value.inst.length))
  {
    hide Decode;
    var d := Decode(data, p);
    if d.Ok? {
      var rest := DecodeFrom(data, p + d.value.inst.length);
      if rest.Ok? {
        assert done + ([d.value] + rest.value) == (done + [d.value]) + rest.value;
      }
    }
  }

  ghost function Behind(done: seq<Decoded>, r: Result<seq<Decoded>>): Result<seq<Decoded>> {
    if r.Err? then r else Ok(done + r.value)
  }

  lemma BehindNothing(r: Result<seq<Decoded>>)
    ensures Behind([], r) == r
  {
    if r.Ok? {
      assert [] + r.value == r.value;
    }
  }

  // ---- Programs

  ghost predicate AllValid(es: seq<E.Encoding>) {
    forall k :: 0 <= k < |es| ==> E.Valid(es[k])
  }

  // The bytes of encodings, one behind the other.
  ghost function Program(es: seq<E.Encoding>): seq<Byte>
    requires AllValid(es)
  {
    if es == [] then [] else E.Bytes(es[0]) + Program(es[1..])
  }

  // Each instruction is that of its encoding.
  ghost predicate Match(ds: seq<Decoded>, es: seq<E.Encoding>) {
    AllValid(es) && |ds| == |es| && forall k {:trigger ds[k]} {:trigger es[k]} :: 0 <= k < |ds| ==>
      ds[k].bytes == E.Bytes(es[k]) && ds[k].inst == E.InstOf(es[k], ds[k].inst.offset)
  }

  lemma MatchCons(d: Decoded, ds: seq<Decoded>, e: E.Encoding, es: seq<E.Encoding>)
    requires Match(ds, es) && E.Valid(e) && d.bytes == E.Bytes(e) && d.inst == E.InstOf(e, d.inst.offset)
    ensures Match([d] + ds, [e] + es)
  {
    hide E.Valid, E.Bytes, E.InstOf;
    forall k | 0 <= k < |es| + 1
      ensures ([e] + es)[k] == if k == 0 then e else es[k - 1]
    {
    }
  }

  /** What an assembler puts down for a program is decoded to the program again. */
  lemma {:induction false} ProgramDecodes(data: seq<Byte>, p: nat, es: seq<E.Encoding>)
    requires AllValid(es) && p <= |data| && data[p..] == Program(es)
    ensures DecodeFrom(data, p).Ok? && Match(DecodeFrom(data, p).value, es)
    decreases |es|
  {
    hide Decode, E.Valid, E.Bytes, E.InstOf, Match;
    if es == [] {
      NothingMatches();
    } else {
      var e, rest := es[0], es[1..];
      var n := |E.Bytes(e)|;
      assert data[p..p + n] == data[p..][..n] == E.Bytes(e);
      assert E.Holds(data, p, E.Bytes(e));
      E.DecodesEncoding(data, p, e);
      DecodeTakes(data, p);
      InstLength(e, p);
      assert data[p + n..] == data[p..][n..] == Program(rest);
      ProgramDecodes(data, p + n, rest);
      MatchCons(Decode(data, p).value, DecodeFrom(data, p + n).value, e, rest);
      assert es == [e] + rest;
    }
  }

  lemma NothingMatches()
    ensures Match([], [])
  {
  }

  lemma InstLength(e: E.Encoding, start: nat)
    requires E.Valid(e)
    ensures E.InstOf(e, start).length == |E.Bytes(e)| && E.InstOf(e, start).offset == start
  {
  }

  lemma {:induction false} ProgramRecovered(data: seq<Byte>, p: nat) returns (es: seq<E.Encoding>)
    requires p <= |data| && DecodeFrom(data, p).Ok?
    ensures AllValid(es) && Program(es) == data[p..]
    decreases |data| - p
  {
    hide Decode, E.Valid, E.Bytes, E.InstOf;
    if p == |data| {
      es := [];
    } else {
      var e := E.Recovered(data, p);
      E.DecodesEncoding(data, p, e);
      DecodeTakes(data, p);
      var rest := ProgramRecovered(data, p + |E.Bytes(e)|);
      es := [e] + rest;
      assert es[1..] == rest;
      assert data[p..] == data[p..p + |E.Bytes(e)|] + data[p + |E.Bytes(e)|..];
    }
  }

  // The bytes are those of some program.
  ghost predicate IsProgram(code: seq<Byte>) {
    exists es :: AllValid(es) && Program(es) == code
  }

  /** A stream decodes exactly if it is the bytes of a program, and then to that program. */
  lemma ProgramsExactly(code: seq<Byte>)
    ensures DecodeFrom(code, 0).Ok? <==> IsProgram(code)
    ensures forall es :: AllValid(es) && Program(es) == code ==> Match(DecodeFrom(code, 0).value, es)
  {
    hide DecodeFrom, Program, AllValid, Match;
    assert code[0..] == code;
    if DecodeFrom(code, 0).Ok? {
      var es := ProgramRecovered(code, 0);
    }
    forall es | AllValid(es) && Program(es) == code
      ensures DecodeFrom(code, 0).Ok? && Match(DecodeFrom(code, 0).value, es)
    {
      ProgramDecodes(code, 0, es);
    }
  }

  lemma TilesAreDecoded(data: seq<Byte>, ds: seq<Decoded>)
    requires Tiles(data, 0, ds)
    ensures AllDecoded(Insts(ds))
  {
    hide Decode, Takes;
    forall i | i in Insts(ds)
      ensures IsDecoded(i)
    {
      var k :| 0 <= k < |ds| && Insts(ds)[k] == i;
      assert Decode(data, ds[k].inst.offset) == Ok(ds[k]);
    }
  }

  /** Decodes a whole stream, which succeeds exactly if it is the bytes of a program, and finds that program. The
      bytes of the instructions are the stream again, and the instructions are what the translation to IR expects. */
  method DecodeAll(code: seq<Byte>) returns (r: Result<seq<Decoded>>)
    ensures r == DecodeFrom(code, 0)
    ensures r.Ok? <==> IsProgram(code)
    ensures forall es :: AllValid(es) && Program(es) == code ==> Match(r.value, es)
    ensures r.Ok? ==> Tiles(code, 0, r.value) && Joined(r.value) == code && Contiguous(Insts(r.value))
    ensures r.Ok? ==> AllDecoded(Insts(r.value))
  {
    hide Decode, DecodeFrom, Tiles, Contiguous, Joined, Program, AllValid, Match, AllDecoded, IsProgram;
    ProgramsExactly(code);
    var stream := new Stream(code);
    var decoder := new Decoder(stream);
    var insts: seq<Decoded> := [];
    BehindNothing(DecodeFrom(code, 0));
    while stream.HasMore()
      invariant stream.data == code && stream.Valid() && decoder.stream == stream && decoder.Ready()
      invariant fresh(stream) && fresh(decoder.table) && fresh(decoder.table0F)
      invariant DecodeFrom(code, 0) == Behind(insts, DecodeFrom(code, stream.bytesRead))
      decreases |code| - stream.bytesRead
    {
      var p := stream.bytesRead;
      var d := decoder.NextInst();
      DecodeFromStep(code, p, insts);
      if d.Err? {
        return Err(d.error);
      }
      Progresses(code, p);
      insts := insts + [d.value];
    }
    AtEnd(code, stream.bytesRead, insts);
    r := Ok(insts);
    DecodeConserves(code, 0);
    TilesAreContiguous(code, insts);
    TilesAreDecoded(code, insts);
    assert code[0..] == code;
  }

  lemma Progresses(data: seq<Byte>, p: nat)
    requires Decode(data, p).Ok?
    ensures Decode(data, p).value.inst.length > 0
  {
    hide Decode;
    DecodeTakes(data, p);
  }

  lemma AtEnd(data: seq<Byte>, p: nat, insts: seq<Decoded>)
    requires p >= |data|
    ensures Behind(insts, DecodeFrom(data, p)) == Ok(insts)
  {
    assert insts + [] == insts;
  }
}

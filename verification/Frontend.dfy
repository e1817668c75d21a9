/** Building IR blocks from machine instructions. */
module Frontend {
  import opened Words
  import opened X86
  import opened Ir
  import opened FrontendCode
  import D = Decoding
  import E = Encoding

  predicate IsConditionalJump(opcode: Opcode) {
    opcode.OpJg? || opcode.OpJge? || opcode.OpJle?
  }

  predicate IsJump(opcode: Opcode) {
    opcode.OpJmp? || IsConditionalJump(opcode)
  }

  predicate HasTarget(i: MachineInst) {
    |i.operands| > 0 && i.operands[0].Imm?
  }

  function TargetOf(i: MachineInst): nat {
    if HasTarget(i) then i.operands[0].imm else 0
  }

  // The instructions that are translated; the others raise an exception.
  predicate CanTranslate(i: MachineInst) {
    var ops := i.operands;
    if i.opcode.OpAdd? || i.opcode.OpShl? || i.opcode.OpMov? then |ops| == 2 && Writable(ops[0]) && Readable(ops[1])
    else if i.opcode.OpCmp? then |ops| == 2 && Readable(ops[0]) && Readable(ops[1])
    else if i.opcode.OpInc? then |ops| == 1 && ops[0].Reg? && ops[0].reg < 16
    else if i.opcode.OpPop? then |ops| == 1 && Writable(ops[0])
    else if i.opcode.OpPush? then |ops| == 1 && Readable(ops[0])
    else if i.opcode.OpRet? then true
    else IsJump(i.opcode) && HasTarget(i)
  }

  // Some stream holds the instruction.
  ghost predicate IsDecoded(i: MachineInst) {
    exists data, start {:trigger D.Decode(data, start)} ::
      D.Decode(data, start).Ok? && D.Decode(data, start).value.inst == i
  }

  ghost predicate AllDecoded(insts: seq<MachineInst>) {
    forall i :: i in insts ==> IsDecoded(i)
  }

  lemma RmServes(rm: E.Rm)
    requires E.RmOk(rm)
    ensures Writable(E.RmOperand(rm)) && (E.RmOperand(rm).Reg? ==> E.RmOperand(rm).reg < 8)
  {
  }

  /** Of what the decoder finds, everything is translated but call, xor, and inc of memory. */
  lemma DecodedTranslates(i: MachineInst)
    requires IsDecoded(i)
    ensures CanTranslate(i) <==> !i.opcode.OpCall? && !i.opcode.OpXor? && (i.opcode.OpInc? ==> i.operands[0].Reg?)
    ensures i.opcode.OpInc? ==> |i.operands| == 1
    ensures i.opcode in [OpAdd, OpCall, OpCmp, OpInc, OpJg, OpJge, OpJle, OpJmp, OpMov, OpPop, OpPush, OpRet, OpShl,
        OpXor]
  {
    hide E.Valid, E.Bytes, E.RmOperand, E.RmOk, E.ImmOperand, E.TargetOperand, Writable, Readable, D.Decode, E.Holds;
    var data, start :| D.Decode(data, start).Ok? && D.Decode(data, start).value.inst == i;
    var e := E.Recovered(data, start);
    E.DecodesEncoding(data, start, e);
    E.ValidFields(e);
    EncodedTranslates(e, start);
  }

  lemma EncodedTranslates(e: E.Encoding, start: nat)
    requires E.Valid(e) && E.InFields(e.form) && (E.HasRm(e.form) ==> E.RmOk(e.form.rm))
    ensures var i := E.InstOf(e, start);
      && (CanTranslate(i) <==> !i.opcode.OpCall? && !i.opcode.OpXor? && (i.opcode.OpInc? ==> i.operands[0].Reg?))
      && (i.opcode.OpInc? ==> |i.operands| == 1)
      && i.opcode in
         [OpAdd, OpCall, OpCmp, OpInc, OpJg, OpJge, OpJle, OpJmp, OpMov, OpPop, OpPush, OpRet, OpShl, OpXor]
  {
    hide E.Valid, E.Bytes, E.RmOperand, E.RmOk, E.WidthOf, E.ValuePart;
    if E.HasRm(e.form) {
      RmServes(e.form.rm);
    }
  }

  type Addresses = map<nat, BlockId>

  ghost predicate TargetsKnown(i: MachineInst, addrs: Addresses) {
    IsJump(i.opcode) ==> TargetOf(i) in addrs && (IsConditionalJump(i.opcode) ==> i.offset + i.length in addrs)
  }

  // What is appended for an instruction.
  ghost function Chunk(i: MachineInst, id: nat, addrs: Addresses): Block
    requires CanTranslate(i) && TargetsKnown(i, addrs)
  {
    var ops := i.operands;
    if i.opcode.OpAdd? then BinaryCode(Add, ops[0], ops[1], id)
    else if i.opcode.OpShl? then BinaryCode(Shl, ops[0], ops[1], id)
    else if i.opcode.OpMov? then MovCode(ops[0], ops[1], id)
    else if i.opcode.OpCmp? then CmpCode(ops[0], ops[1], id)
    else if i.opcode.OpInc? then IncCode(ops[0].reg, id)
    else if i.opcode.OpPop? then PopCode(ops[0], id)
    else if i.opcode.OpPush? then PushCode(ops[0], id)
    else if i.opcode.OpRet? then [LoadInst(id, Global(RAX)), RetInst(id + 1, Def(id))]
    else if i.opcode.OpJg? then JgCode(addrs[i.offset + i.length], addrs[TargetOf(i)], id)
    else if i.opcode.OpJge? then JgeCode(addrs[i.offset + i.length], addrs[TargetOf(i)], id)
    else if i.opcode.OpJle? then JleCode(addrs[i.offset + i.length], addrs[TargetOf(i)], id)
    else [BranchInst(id, addrs[TargetOf(i)])]
  }

  // The block b has grown by the code and no other block has changed.
  ghost predicate GrownBy(bs: seq<Block>, bs': seq<Block>, b: BlockId, code: Block) {
    b < |bs| && |bs'| == |bs| && bs'[b] == bs[b] + code && forall c :: 0 <= c < |bs| && c != b ==> bs'[c] == bs[c]
  }

  lemma GrownTwice(bs: seq<Block>, bs1: seq<Block>, bs2: seq<Block>, b: BlockId, x: Block, y: Block)
    requires GrownBy(bs, bs1, b, x) && GrownBy(bs1, bs2, b, y)
    ensures GrownBy(bs, bs2, b, x + y)
  {
  }

  // ---- Where the instructions end up

  // The instructions follow each other from offset 0 on, as the decoder delivers them.
  ghost predicate Contiguous(insts: seq<MachineInst>) {
    && (|insts| > 0 ==> insts[0].offset == 0)
    && (forall j {:trigger insts[j]} :: 0 <= j < |insts| ==> insts[j].length > 0)
    && (forall j {:trigger insts[j]} :: 0 <= j < |insts| - 1 ==>
         insts[j + 1].offset == insts[j].offset + insts[j].length)
  }

  // Where the code of an instruction begins, and the first identity in it.
  datatype Site = Site(block: BlockId, pos: nat, id: nat)

  predicate FallsThrough(i: MachineInst) {
    !IsJump(i.opcode) && !i.opcode.OpRet?
  }

  ghost function CodeOf(i: MachineInst, id: nat, addrs: Addresses): Block {
    if CanTranslate(i) && TargetsKnown(i, addrs) then Chunk(i, id, addrs) else []
  }

  ghost predicate CodeAt(bs: seq<Block>, s: Site, code: Block) {
    s.block < |bs| && s.pos + |code| <= |bs[s.block]| && bs[s.block][s.pos..s.pos + |code|] == code
  }

  // Control passes from the end of the code at s to t.
  ghost predicate Links(bs: seq<Block>, s: Site, code: Block, t: Site) {
    var end := s.pos + |code|;
    s.block < |bs| && ((t.block == s.block && t.pos == end)
      || (end < |bs[s.block]| && bs[s.block][end].BranchInst? && bs[s.block][end].dst == t.block && t.pos == 0))
  }

  ghost predicate AllKnown(insts: seq<MachineInst>, addrs: Addresses) {
    forall i {:trigger TargetsKnown(i, addrs)} :: i in insts ==> TargetsKnown(i, addrs)
  }

  // Different addresses have different blocks, and address 0 has the entry.
  ghost predicate Table(bs: seq<Block>, addrs: Addresses) {
    && 0 in addrs && addrs[0] == 0
    && (forall a {:trigger addrs[a]} :: a in addrs ==> addrs[a] < |bs|)
    && (forall a, c {:trigger addrs[a], addrs[c]} :: a in addrs && c in addrs && addrs[a] == addrs[c] ==> a == c)
  }

  /** Every instruction has its code in a block, at the start of the block of its address if it has
      one, and the code of an instruction that falls through leads to the code of the next. */
  ghost predicate Laid(insts: seq<MachineInst>, bs: seq<Block>, addrs: Addresses, sites: seq<Site>) {
    && |sites| <= |insts|
    && (forall j {:trigger sites[j]} :: 0 <= j < |sites| ==> CodeAt(bs, sites[j], CodeOf(insts[j], sites[j].id, addrs)))
    && (forall j {:trigger sites[j]} :: 0 <= j < |sites| && insts[j].offset in addrs ==>
         sites[j].block == addrs[insts[j].offset] && sites[j].pos == 0)
    && (forall j {:trigger sites[j]} :: 0 <= j < |sites| - 1 && FallsThrough(insts[j]) ==>
         Links(bs, sites[j], CodeOf(insts[j], sites[j].id, addrs), sites[j + 1]))
  }

  // The current block ends with the code of the last instruction.
  ghost predicate Current(insts: seq<MachineInst>, bs: seq<Block>, addrs: Addresses, sites: seq<Site>, block: BlockId) {
    block < |bs| && |sites| <= |insts|
    && (if |sites| == 0 then block == 0 else
        var k := |sites| - 1;
        sites[k].block == block && sites[k].pos + |CodeOf(insts[k], sites[k].id, addrs)| == |bs[block]|)
  }

  // The blocks of the addresses from instruction k on are still empty.
  ghost predicate Ahead(insts: seq<MachineInst>, bs: seq<Block>, addrs: Addresses, k: nat) {
    forall j {:trigger insts[j]} :: k <= j < |insts| && insts[j].offset in addrs && addrs[insts[j].offset] < |bs| ==>
      bs[addrs[insts[j].offset]] == []
  }

  ghost predicate NotAhead(insts: seq<MachineInst>, addrs: Addresses, k: nat, block: BlockId) {
    forall j {:trigger insts[j]} :: k <= j < |insts| && insts[j].offset in addrs ==> addrs[insts[j].offset] != block
  }

  ghost predicate Grew(bs: seq<Block>, bs': seq<Block>) {
    |bs| <= |bs'| && forall b {:trigger bs[b]} :: 0 <= b < |bs| ==> |bs[b]| <= |bs'[b]| && bs'[b][..|bs[b]|] == bs[b]
  }

  lemma CodeGrows(bs: seq<Block>, bs': seq<Block>, s: Site, code: Block)
    requires Grew(bs, bs') && CodeAt(bs, s, code)
    ensures CodeAt(bs', s, code)
  {
    var b, b', n := bs[s.block], bs'[s.block], |bs[s.block]|;
    assert b'[..n] == b;
    assert b'[s.pos..s.pos + |code|] == b'[..n][s.pos..s.pos + |code|];
  }

  lemma LinksGrows(bs: seq<Block>, bs': seq<Block>, s: Site, code: Block, t: Site)
    requires Grew(bs, bs') && Links(bs, s, code, t)
    ensures Links(bs', s, code, t)
  {
    var b, b', n, end := bs[s.block], bs'[s.block], |bs[s.block]|, s.pos + |code|;
    assert b'[..n] == b;
    if end < n {
      assert b'[end] == b'[..n][end];
    }
  }

  lemma LaidGrows(insts: seq<MachineInst>, bs: seq<Block>, bs': seq<Block>, addrs: Addresses, sites: seq<Site>)
    requires Grew(bs, bs') && Laid(insts, bs, addrs, sites)
    ensures Laid(insts, bs', addrs, sites)
  {
    hide CodeAt, Links, Grew, CodeOf, FallsThrough;
    forall j {:trigger sites[j]} | 0 <= j < |sites|
      ensures CodeAt(bs', sites[j], CodeOf(insts[j], sites[j].id, addrs))
    {
      CodeGrows(bs, bs', sites[j], CodeOf(insts[j], sites[j].id, addrs));
    }
    forall j {:trigger sites[j]} | 0 <= j < |sites| - 1 && FallsThrough(insts[j])
      ensures Links(bs', sites[j], CodeOf(insts[j], sites[j].id, addrs), sites[j + 1])
    {
      LinksGrows(bs, bs', sites[j], CodeOf(insts[j], sites[j].id, addrs), sites[j + 1]);
    }
  }

  lemma {:induction false} OffsetsRise(insts: seq<MachineInst>, i: nat, j: nat)
    requires Contiguous(insts) && i < j < |insts|
    ensures insts[i].offset < insts[j].offset
    decreases j
  {
    var before := insts[j - 1];
    if i < j - 1 {
      OffsetsRise(insts, i, j - 1);
    }
  }

  // The code of an instruction ends in a terminator exactly when the instruction does not fall through.
  lemma ChunkEnds(i: MachineInst, id: nat, addrs: Addresses)
    requires CanTranslate(i) && TargetsKnown(i, addrs)
    ensures var c := Chunk(i, id, addrs);
      |c| > 0 && (FallsThrough(i) <==> !IsTerminator(c[|c| - 1])) && (i.opcode.OpRet? <==> c[|c| - 1].RetInst?)
  {
    hide LoadCode, LoadValue;
  }

  // Between instructions: the first |sites| of them are laid out.
  ghost predicate Between(insts: seq<MachineInst>, bs: seq<Block>, addrs: Addresses, sites: seq<Site>, block: BlockId) {
    && Table(bs, addrs) && Laid(insts, bs, addrs, sites) && Current(insts, bs, addrs, sites, block)
    && Ahead(insts, bs, addrs, |sites|) && (|sites| > 0 ==> NotAhead(insts, addrs, |sites|, block))
  }

  // The next instruction goes to s.
  ghost predicate Ready(insts: seq<MachineInst>, bs: seq<Block>, addrs: Addresses, sites: seq<Site>, s: Site) {
    var k := |sites|;
    && k < |insts| && Table(bs, addrs) && Laid(insts, bs, addrs, sites)
    && s.block < |bs| && s.pos == |bs[s.block]|
    && (insts[k].offset in addrs ==> s.block == addrs[insts[k].offset] && s.pos == 0)
    && (k > 0 && FallsThrough(insts[k - 1]) ==>
         Links(bs, sites[k - 1], CodeOf(insts[k - 1], sites[k - 1].id, addrs), s))
    && Ahead(insts, bs, addrs, k + 1) && NotAhead(insts, addrs, k + 1, s.block)
  }

  // The current block ends as the last instruction does.
  lemma LastInst(insts: seq<MachineInst>, bs: seq<Block>, addrs: Addresses, sites: seq<Site>, block: BlockId)
    requires Laid(insts, bs, addrs, sites) && Current(insts, bs, addrs, sites, block) && 0 < |sites|
    requires CanTranslate(insts[|sites| - 1]) && TargetsKnown(insts[|sites| - 1], addrs)
    ensures var i := insts[|sites| - 1]; var n := |bs[block]|;
      n > 0 && (FallsThrough(i) <==> !IsTerminator(bs[block][n - 1]))
        && (i.opcode.OpRet? <==> bs[block][n - 1].RetInst?)
  {
    hide Chunk, Table;
    var k := |sites| - 1;
    var s := sites[k];
    var c := CodeOf(insts[k], s.id, addrs);
    assert CodeAt(bs, s, c);
    ChunkEnds(insts[k], s.id, addrs);
    assert bs[block][s.pos..s.pos + |c|][|c| - 1] == bs[block][|bs[block]| - 1];
  }

  // The block of the next instruction is not that of a later one.
  lemma LaterBlocks(insts: seq<MachineInst>, bs: seq<Block>, addrs: Addresses, k: nat)
    requires Contiguous(insts) && Table(bs, addrs) && k < |insts| && insts[k].offset in addrs
    ensures NotAhead(insts, addrs, k + 1, addrs[insts[k].offset])
  {
    forall j {:trigger insts[j]} | k + 1 <= j < |insts| && insts[j].offset in addrs
      ensures addrs[insts[j].offset] != addrs[insts[k].offset]
    {
      OffsetsRise(insts, k, j);
    }
  }

  // An instruction at a block address, with the branch that may have been put before it.
  lemma ReadyAtAddress(insts: seq<MachineInst>, bs: seq<Block>, bs1: seq<Block>, addrs: Addresses, sites: seq<Site>,
      block: BlockId, id: nat)
    requires Contiguous(insts) && Between(insts, bs, addrs, sites, block) && |sites| < |insts|
    requires insts[|sites|].offset in addrs
    requires bs1 == bs || (bs[block] != [] && GrownBy(bs, bs1, block, [BranchInst(id, addrs[insts[|sites|].offset])]))
    requires |sites| > 0 && FallsThrough(insts[|sites| - 1]) ==> bs1 != bs
    ensures Ready(insts, bs1, addrs, sites, Site(addrs[insts[|sites|].offset], 0, if bs1 == bs then id else id + 1))
  {
    hide CodeOf, CodeAt, FallsThrough, Contiguous;
    var k := |sites|;
    var next := addrs[insts[k].offset];
    LaterBlocks(insts, bs, addrs, k);
    assert Grew(bs, bs1);
    LaidGrows(insts, bs, bs1, addrs, sites);
    assert bs1[next] == [];
    forall j {:trigger insts[j]} | k + 1 <= j < |insts| && insts[j].offset in addrs
      ensures bs1[addrs[insts[j].offset]] == []
    {
    }
  }

  lemma ReadyHere(insts: seq<MachineInst>, bs: seq<Block>, addrs: Addresses, sites: seq<Site>, block: BlockId, id: nat)
    requires Between(insts, bs, addrs, sites, block) && 0 < |sites| < |insts| && insts[|sites|].offset !in addrs
    ensures Ready(insts, bs, addrs, sites, Site(block, |bs[block]|, id))
  {
    hide CodeOf, CodeAt, FallsThrough, Laid;
  }

  lemma ReadyInNew(insts: seq<MachineInst>, bs: seq<Block>, addrs: Addresses, sites: seq<Site>, block: BlockId, id: nat)
    requires Between(insts, bs, addrs, sites, block) && 0 < |sites| < |insts| && insts[|sites|].offset !in addrs
    requires !FallsThrough(insts[|sites| - 1])
    ensures Ready(insts, bs + [[]], addrs, sites, Site(|bs|, 0, id))
  {
    hide CodeOf, CodeAt, FallsThrough;
    assert Grew(bs, bs + [[]]);
    LaidGrows(insts, bs, bs + [[]], addrs, sites);
  }

  lemma BetweenNext(insts: seq<MachineInst>, bs: seq<Block>, bs1: seq<Block>, addrs: Addresses, sites: seq<Site>,
      s: Site)
    requires Ready(insts, bs, addrs, sites, s)
    requires GrownBy(bs, bs1, s.block, CodeOf(insts[|sites|], s.id, addrs))
    ensures Between(insts, bs1, addrs, sites + [s], s.block)
  {
    hide CodeOf, FallsThrough;
    var k := |sites|;
    var sites1 := sites + [s];
    var c := CodeOf(insts[k], s.id, addrs);
    assert Grew(bs, bs1);
    LaidGrows(insts, bs, bs1, addrs, sites);
    assert bs1[s.block][s.pos..s.pos + |c|] == c;
    forall j {:trigger sites1[j]} | 0 <= j < |sites1| - 1 && FallsThrough(insts[j])
      ensures Links(bs1, sites1[j], CodeOf(insts[j], sites1[j].id, addrs), sites1[j + 1])
    {
      if j == k - 1 {
        LinksGrows(bs, bs1, sites[j], CodeOf(insts[j], sites[j].id, addrs), s);
      } else {
        assert sites1[j] == sites[j] && sites1[j + 1] == sites[j + 1];
      }
    }
    forall j {:trigger insts[j]} | k + 1 <= j < |insts| && insts[j].offset in addrs
      ensures bs1[addrs[insts[j].offset]] == []
    {
    }
  }

  ghost predicate AllEmpty(bs: seq<Block>) {
    |bs| > 0 && forall b {:trigger bs[b]} :: 0 <= b < |bs| ==> bs[b] == []
  }

  ghost predicate Translatable(insts: seq<MachineInst>) {
    forall j {:trigger insts[j]} :: 0 <= j < |insts| ==> CanTranslate(insts[j])
  }

  /** No call, no xor, and no inc of memory. */
  ghost predicate NoneRaises(insts: seq<MachineInst>) {
    forall i :: i in insts ==>
      !i.opcode.OpCall? && !i.opcode.OpXor? && (i.opcode.OpInc? ==> |i.operands| == 1 && i.operands[0].Reg?)
  }

  // Of decoded instructions those are the ones that are not translated.
  lemma DecodedDecides(insts: seq<MachineInst>)
    ensures AllDecoded(insts) ==> (Translatable(insts) <==> NoneRaises(insts))
  {
    hide CanTranslate, IsDecoded;
    if AllDecoded(insts) {
      forall i | i in insts
        ensures CanTranslate(i) <==>
          !i.opcode.OpCall? && !i.opcode.OpXor? && (i.opcode.OpInc? ==> |i.operands| == 1 && i.operands[0].Reg?)
      {
        DecodedTranslates(i);
      }
      if Translatable(insts) {
        forall i | i in insts
          ensures CanTranslate(i)
        {
          var j :| 0 <= j < |insts| && insts[j] == i;
        }
      }
    }
  }

  ghost predicate Translated(insts: seq<MachineInst>, bs: seq<Block>, addrs: Addresses, sites: seq<Site>) {
    |sites| == |insts| && AllKnown(insts, addrs) && Table(bs, addrs) && Laid(insts, bs, addrs, sites)
  }

  // What happens to the blocks before an instruction is translated.
  ghost predicate Started(bs: seq<Block>, b: BlockId, id: nat, offset: nat, addrs: Addresses, bs': seq<Block>,
      b': BlockId, id': nat)
    requires b < |bs| && Table(bs, addrs)
  {
    exists bs1: seq<Block>,
      b1: BlockId {:trigger Joined(bs, b, id, offset, addrs, bs1, b1, id'), Left(bs1, b1, bs', b')} ::
      Joined(bs, b, id, offset, addrs, bs1, b1, id') && Left(bs1, b1, bs', b')
  }

  ghost predicate Joined(bs: seq<Block>, b: BlockId, id: nat, offset: nat, addrs: Addresses, bs1: seq<Block>,
      b1: BlockId, id1: nat) {
    b < |bs| &&
    if offset !in addrs then bs1 == bs && b1 == b && id1 == id
    else if bs[b] != [] && !bs[b][|bs[b]| - 1].BranchInst? && !bs[b][|bs[b]| - 1].CondBranchInst?
    then b1 == addrs[offset] && id1 == id + 1 && GrownBy(bs, bs1, b, [BranchInst(id, addrs[offset])])
    else b1 == addrs[offset] && id1 == id && bs1 == bs
  }

  ghost predicate Left(bs1: seq<Block>, b1: BlockId, bs': seq<Block>, b': BlockId) {
    b1 < |bs1| &&
    if bs1[b1] != [] && IsTerminator(bs1[b1][|bs1[b1]| - 1]) then bs' == bs1 + [[]] && b' == |bs1|
    else bs' == bs1 && b' == b1
  }

  lemma StartedIsReady(insts: seq<MachineInst>, bs: seq<Block>, bs': seq<Block>, addrs: Addresses, sites: seq<Site>,
                       b: BlockId, id: nat, b': BlockId, id': nat)
    requires Contiguous(insts) && AllKnown(insts, addrs) && |sites| < |insts| && Translatable(insts[..|sites|])
    requires Between(insts, bs, addrs, sites, b)
    requires Started(bs, b, id, insts[|sites|].offset, addrs, bs', b', id')
    ensures b' < |bs'| && Ready(insts, bs', addrs, sites, Site(b', |bs'[b']|, id'))
  {
    hide Laid, NotAhead, CodeAt, Links, FallsThrough, CanTranslate;
    var k := |sites|;
    var offset := insts[k].offset;
    var bs1: seq<Block>, b1: BlockId :| Joined(bs, b, id, offset, addrs, bs1, b1, id') && Left(bs1, b1, bs', b');
    if k > 0 {
      assert insts[..k][k - 1] == insts[k - 1];
      LastInst(insts, bs, addrs, sites, b);
    }
    if offset in addrs {
      assert bs[addrs[offset]] == [];
      ReadyAtAddress(insts, bs, bs1, addrs, sites, b, id);
    } else if bs' == bs1 {
      ReadyHere(insts, bs, addrs, sites, b, id);
    } else {
      ReadyInNew(insts, bs, addrs, sites, b, id);
    }
  }

  lemma Empty()
    ensures Table([[]], map[0 := 0]) && AllEmpty([[]])
  {
  }

  lemma Beginning(insts: seq<MachineInst>, bs: seq<Block>, addrs: Addresses)
    requires Table(bs, addrs) && AllEmpty(bs)
    ensures Between(insts, bs, addrs, [], 0)
  {
  }

  class Translator {
    var blocks: seq<Block>
    var addrs: Addresses
    var block: BlockId
    var nextId: nat

    constructor ()
      ensures blocks == [[]] && addrs == map[0 := 0] && block == 0 && nextId == 0
    {
      blocks, addrs, block, nextId := [[]], map[0 := 0], 0, 0;
    }

    method AppendBlock() returns (b: BlockId)
      modifies this`blocks
      ensures b == |old(blocks)| && blocks == old(blocks) + [[]]
    {
      b := |blocks|;
      blocks := blocks + [[]];
    }

    // BasicBlock::append.
    method Append(i: Inst)
      requires block < |blocks|
      modifies this`blocks, this`nextId
      ensures GrownBy(old(blocks), blocks, block, [i]) && nextId == old(nextId) + 1
    {
      blocks := blocks[block := blocks[block] + [i]];
      nextId := nextId + 1;
    }

    method LoadOp(op: Operand) returns (v: Value)
      requires block < |blocks| && Readable(op)
      modifies this`blocks, this`nextId
      ensures v == LoadValue(op, old(nextId)) && GrownBy(old(blocks), blocks, block, LoadCode(op, old(nextId)))
      ensures nextId == old(nextId) + |LoadCode(op, old(nextId))|
    {
      if op.MemBaseDisp? {
        var base := Def(nextId);
        Append(LoadInst(nextId, Global(op.base)));
        var displaced := Def(nextId);
        Append(BinaryInst(nextId, Add, base, Const(Wrap(op.disp))));
        v := Def(nextId);
        Append(LoadInst(nextId, displaced));
      } else if op.Reg? {
        v := Def(nextId);
        Append(LoadInst(nextId, Global(op.reg)));
      } else {
        v := Const(op.imm);
      }
    }

    method StoreOp(op: Operand, val: Value)
      requires block < |blocks| && Writable(op)
      modifies this`blocks, this`nextId
      ensures GrownBy(old(blocks), blocks, block, StoreCode(op, val, old(nextId)))
      ensures nextId == old(nextId) + |StoreCode(op, val, old(nextId))|
    {
      var ptr: Value;
      if op.MemBaseDisp? {
        var base := Def(nextId);
        Append(LoadInst(nextId, Global(op.base)));
        ptr := Def(nextId);
        Append(BinaryInst(nextId, Add, base, Const(Wrap(op.disp))));
      } else {
        ptr := Global(op.reg);
      }
      Append(StoreInst(nextId, ptr, val));
    }

    // add, and shl, whose operands are taken to be loaded from left to right.
    method TranslateBinary(op: BinaryOp, lhsOp: Operand, rhsOp: Operand)
      requires block < |blocks| && Writable(lhsOp) && Readable(rhsOp)
      modifies this`blocks, this`nextId
      ensures GrownBy(old(blocks), blocks, block, BinaryCode(op, lhsOp, rhsOp, old(nextId)))
      ensures nextId == old(nextId) + |BinaryCode(op, lhsOp, rhsOp, old(nextId))|
    {
      hide LoadCode, StoreCode, LoadValue;
      ghost var bs, id := blocks, nextId;
      var lhs := LoadOp(lhsOp);
      ghost var bs1 := blocks;
      var rhs := LoadOp(rhsOp);
      GrownTwice(bs, bs1, blocks, block, LoadCode(lhsOp, id), LoadCode(rhsOp, id + |LoadCode(lhsOp, id)|));
      ghost var bs2, id2 := blocks, nextId;
      var result := Def(nextId);
      Append(BinaryInst(nextId, op, lhs, rhs));
      ghost var bs3 := blocks;
      StoreOp(lhsOp, result);
      GrownTwice(bs, bs2, bs3, block, LoadCode(lhsOp, id)
        + LoadCode(rhsOp, id + |LoadCode(lhsOp, id)|), [BinaryInst(id2, op, lhs, rhs)]);
      GrownTwice(bs, bs3, blocks, block, LoadCode(lhsOp, id) + LoadCode(rhsOp, id + |LoadCode(lhsOp, id)|)
        + [BinaryInst(id2, op, lhs, rhs)],
        StoreCode(lhsOp, result, id2 + 1));
    }

    method TranslateFlags(lhs: Value, rhs: Value)
      requires block < |blocks|
      modifies this`blocks, this`nextId
      ensures GrownBy(old(blocks), blocks, block, FlagCode(lhs, rhs, old(nextId))) && nextId == old(nextId) + 10
    {
      var cmp := Def(nextId);
      Append(BinaryInst(nextId, Sub, lhs, rhs));
      var xor0 := Def(nextId);
      Append(BinaryInst(nextId, Xor, lhs, rhs));
      var xor1 := Def(nextId);
      Append(BinaryInst(nextId, Xor, lhs, cmp));
      var and0 := Def(nextId);
      Append(BinaryInst(nextId, And, xor0, xor1));
      var overflow := Def(nextId);
      Append(CompareInst(nextId, Slt, and0, Const(0)));
      Append(StoreInst(nextId, Global(OF), overflow));
      var cmpLtz := Def(nextId);
      Append(CompareInst(nextId, Slt, cmp, Const(0)));
      Append(StoreInst(nextId, Global(SF), cmpLtz));
      var cmpEqz := Def(nextId);
      Append(CompareInst(nextId, Eq, cmp, Const(0)));
      Append(StoreInst(nextId, Global(ZF), cmpEqz));
    }

    method TranslateCmp(lhsOp: Operand, rhsOp: Operand)
      requires block < |blocks| && Readable(lhsOp) && Readable(rhsOp)
      modifies this`blocks, this`nextId
      ensures GrownBy(old(blocks), blocks, block, CmpCode(lhsOp, rhsOp, old(nextId)))
      ensures nextId == old(nextId) + |CmpCode(lhsOp, rhsOp, old(nextId))|
    {
      hide LoadCode, FlagCode, LoadValue;
      ghost var bs, id := blocks, nextId;
      var lhs := LoadOp(lhsOp);
      ghost var bs1 := blocks;
      var rhs := LoadOp(rhsOp);
      ghost var loads := LoadCode(lhsOp, id) + LoadCode(rhsOp, id + |LoadCode(lhsOp, id)|);
      GrownTwice(bs, bs1, blocks, block, LoadCode(lhsOp, id), LoadCode(rhsOp, id + |LoadCode(lhsOp, id)|));
      ghost var bs2, id2 := blocks, nextId;
      TranslateFlags(lhs, rhs);
      GrownTwice(bs, bs2, blocks, block, loads, FlagCode(lhs, rhs, id2));
      FlagCodeLength(lhs, rhs, id2);
    }

    method TranslateInc(r: nat)
      requires block < |blocks|
      modifies this`blocks, this`nextId
      ensures GrownBy(old(blocks), blocks, block, IncCode(r, old(nextId))) && nextId == old(nextId) + 3
    {
      var src := Def(nextId);
      Append(LoadInst(nextId, Global(r)));
      var added := Def(nextId);
      Append(BinaryInst(nextId, Add, src, Const(1)));
      Append(StoreInst(nextId, Global(r), added));
    }

    method TranslateMov(dst: Operand, src: Operand)
      requires block < |blocks| && Writable(dst) && Readable(src)
      modifies this`blocks, this`nextId
      ensures GrownBy(old(blocks), blocks, block, MovCode(dst, src, old(nextId)))
      ensures nextId == old(nextId) + |MovCode(dst, src, old(nextId))|
    {
      hide LoadCode, StoreCode, LoadValue;
      ghost var bs, id := blocks, nextId;
      var v := LoadOp(src);
      ghost var bs1, id1 := blocks, nextId;
      StoreOp(dst, v);
      GrownTwice(bs, bs1, blocks, block, LoadCode(src, id), StoreCode(dst, v, id1));
    }

    method TranslatePop(dst: Operand)
      requires block < |blocks| && Writable(dst)
      modifies this`blocks, this`nextId
      ensures GrownBy(old(blocks), blocks, block, PopCode(dst, old(nextId)))
      ensures nextId == old(nextId) + |PopCode(dst, old(nextId))|
    {
      hide StoreCode;
      ghost var bs, id := blocks, nextId;
      var sp := Def(nextId);
      Append(LoadInst(nextId, Global(RSP)));
      var stackTop := Def(nextId);
      Append(LoadInst(nextId, sp));
      ghost var bs1 := blocks;
      StoreOp(dst, stackTop);
      ghost var bs2, id2 := blocks, nextId;
      var newSp := Def(nextId);
      Append(BinaryInst(nextId, Add, sp, Const(8)));
      Append(StoreInst(nextId, Global(RSP), newSp));
      ghost var head := [LoadInst(id, Global(RSP)), LoadInst(id + 1, Def(id))];
      ghost var tail := [BinaryInst(id2, Add, Def(id), Const(8)), StoreInst(id2 + 1, Global(RSP), Def(id2))];
      GrownTwice(bs, bs1, bs2, block, head, StoreCode(dst, Def(id + 1), id + 2));
      GrownTwice(bs, bs2, blocks, block, head + StoreCode(dst, Def(id + 1), id + 2), tail);
    }

    method TranslatePush(src: Operand)
      requires block < |blocks| && Readable(src)
      modifies this`blocks, this`nextId
      ensures GrownBy(old(blocks), blocks, block, PushCode(src, old(nextId)))
      ensures nextId == old(nextId) + |PushCode(src, old(nextId))|
    {
      hide LoadCode, LoadValue;
      ghost var bs, id := blocks, nextId;
      var sp := Def(nextId);
      Append(LoadInst(nextId, Global(RSP)));
      var newSp := Def(nextId);
      Append(BinaryInst(nextId, Sub, sp, Const(8)));
      ghost var bs1 := blocks;
      var v := LoadOp(src);
      ghost var bs2, id2 := blocks, nextId;
      Append(StoreInst(nextId, newSp, v));
      Append(StoreInst(nextId, Global(RSP), newSp));
      ghost var head := [LoadInst(id, Global(RSP)), BinaryInst(id + 1, Sub, Def(id), Const(8))];
      ghost var tail := [StoreInst(id2, Def(id + 1), v), StoreInst(id2 + 1, Global(RSP), Def(id + 1))];
      GrownTwice(bs, bs1, bs2, block, head, LoadCode(src, id + 2));
      GrownTwice(bs, bs2, blocks, block, head + LoadCode(src, id + 2), tail);
    }

    method TranslateJg(trueBlock: BlockId, falseBlock: BlockId)
      requires block < |blocks|
      modifies this`blocks, this`nextId
      ensures GrownBy(old(blocks), blocks, block, JgCode(falseBlock, trueBlock, old(nextId)))
      ensures nextId == old(nextId) + 7
    {
      var of := Def(nextId);
      Append(LoadInst(nextId, Global(OF)));
      var sf := Def(nextId);
      Append(LoadInst(nextId, Global(SF)));
      var zf := Def(nextId);
      Append(LoadInst(nextId, Global(ZF)));
      var ofEqSf := Def(nextId);
      Append(CompareInst(nextId, Eq, of, sf));
      var zfZero := Def(nextId);
      Append(CompareInst(nextId, Eq, zf, Const(0)));
      var cond := Def(nextId);
      Append(BinaryInst(nextId, And, ofEqSf, zfZero));
      Append(CondBranchInst(nextId, cond, falseBlock, trueBlock));
    }

    method TranslateJge(trueBlock: BlockId, falseBlock: BlockId)
      requires block < |blocks|
      modifies this`blocks, this`nextId
      ensures GrownBy(old(blocks), blocks, block, JgeCode(falseBlock, trueBlock, old(nextId)))
      ensures nextId == old(nextId) + 4
    {
      var of := Def(nextId);
      Append(LoadInst(nextId, Global(OF)));
      var sf := Def(nextId);
      Append(LoadInst(nextId, Global(SF)));
      var cond := Def(nextId);
      Append(CompareInst(nextId, Eq, of, sf));
      Append(CondBranchInst(nextId, cond, falseBlock, trueBlock));
    }

    method TranslateJle(trueBlock: BlockId, falseBlock: BlockId)
      requires block < |blocks|
      modifies this`blocks, this`nextId
      ensures GrownBy(old(blocks), blocks, block, JleCode(falseBlock, trueBlock, old(nextId)))
      ensures nextId == old(nextId) + 6
    {
      var of := Def(nextId);
      Append(LoadInst(nextId, Global(OF)));
      var sf := Def(nextId);
      Append(LoadInst(nextId, Global(SF)));
      var zf := Def(nextId);
      Append(LoadInst(nextId, Global(ZF)));
      var ofsf := Def(nextId);
      Append(CompareInst(nextId, Ne, of, sf));
      var cond := Def(nextId);
      Append(BinaryInst(nextId, Or, ofsf, zf));
      Append(CondBranchInst(nextId, cond, falseBlock, trueBlock));
    }

    method TranslateRet()
      requires block < |blocks|
      modifies this`blocks, this`nextId
      ensures GrownBy(old(blocks), blocks, block,
          [LoadInst(old(nextId), Global(RAX)), RetInst(old(nextId) + 1, Def(old(nextId)))])
      ensures nextId == old(nextId) + 2
    {
      var rax := Def(nextId);
      Append(LoadInst(nextId, Global(RAX)));
      Append(RetInst(nextId, rax));
    }

    // Dispatches on the opcode.
    method Translate(i: MachineInst)
      requires block < |blocks| && CanTranslate(i) && TargetsKnown(i, addrs)
      modifies this`blocks, this`nextId
      ensures GrownBy(old(blocks), blocks, block, Chunk(i, old(nextId), addrs))
      ensures nextId == old(nextId) + |Chunk(i, old(nextId), addrs)|
    {
      hide BinaryCode, MovCode, CmpCode, PopCode, PushCode, GrownBy;
      var ops := i.operands;
      if i.opcode.OpAdd? {
        TranslateBinary(Add, ops[0], ops[1]);
      } else if i.opcode.OpCmp? {
        TranslateCmp(ops[0], ops[1]);
      } else if i.opcode.OpInc? {
        TranslateInc(ops[0].reg);
      } else if i.opcode.OpJg? {
        TranslateJg(addrs[TargetOf(i)], addrs[i.offset + i.length]);
      } else if i.opcode.OpJge? {
        TranslateJge(addrs[TargetOf(i)], addrs[i.offset + i.length]);
      } else if i.opcode.OpJle? {
        TranslateJle(addrs[TargetOf(i)], addrs[i.offset + i.length]);
      } else if i.opcode.OpJmp? {
        Append(BranchInst(nextId, addrs[TargetOf(i)]));
      } else if i.opcode.OpMov? {
        TranslateMov(ops[0], ops[1]);
      } else if i.opcode.OpPop? {
        TranslatePop(ops[0]);
      } else if i.opcode.OpPush? {
        TranslatePush(ops[0]);
      } else if i.opcode.OpRet? {
        TranslateRet();
      } else {
        TranslateBinary(Shl, ops[0], ops[1]);
      }
    }

    method BlockFor(address: nat)
      requires Table(blocks, addrs) && AllEmpty(blocks)
      modifies this`blocks, this`addrs
      ensures Table(blocks, addrs) && AllEmpty(blocks)
      ensures address in addrs && old(addrs.Keys) <= addrs.Keys
    {
      if address !in addrs {
        var b := AppendBlock();
        addrs := addrs[address := b];
      }
    }

    // A block for the target of every jump, and for what follows a conditional jump.
    method BuildJumpTargets(insts: seq<MachineInst>)
      requires Table(blocks, addrs) && AllEmpty(blocks)
      modifies this`blocks, this`addrs
      ensures Table(blocks, addrs) && AllEmpty(blocks) && AllKnown(insts, addrs)
    {
      var k := 0;
      while k < |insts|
        invariant 0 <= k <= |insts| && Table(blocks, addrs) && AllEmpty(blocks)
        invariant forall j {:trigger insts[j]} :: 0 <= j < k ==> TargetsKnown(insts[j], addrs)
      {
        hide Table, AllEmpty;
        var inst := insts[k];
        if IsJump(inst.opcode) {
          BlockFor(TargetOf(inst));
          if !inst.opcode.OpJmp? {
            BlockFor(inst.offset + inst.length);
          }
        }
        k := k + 1;
      }
    }

    // Ends the current block with a branch to the block of the next instruction, unless it is empty
    // or ends in a branch already.
    method Join(next: BlockId)
      requires block < |blocks|
      modifies this`blocks, this`nextId
      ensures var b := old(blocks)[block]; var n := |b|;
        if n > 0 && !b[n - 1].BranchInst? && !b[n - 1].CondBranchInst?
        then GrownBy(old(blocks), blocks, block, [BranchInst(old(nextId), next)]) && nextId == old(nextId) + 1
        else blocks == old(blocks) && nextId == old(nextId)
    {
      var n := |blocks[block]|;
      if n > 0 {
        var term := blocks[block][n - 1];
        if !term.BranchInst? && !term.CondBranchInst? {
          Append(BranchInst(nextId, next));
        }
      }
    }

    // Leaves the current block if it has ended.
    method Leave()
      requires block < |blocks|
      modifies this`blocks, this`block
      ensures var b := old(blocks)[old(block)]; var n := |b|;
        if n > 0 && IsTerminator(b[n - 1]) then block == |old(blocks)| && blocks == old(blocks) + [[]]
        else block == old(block) && blocks == old(blocks)
    {
      var n := |blocks[block]|;
      if n > 0 && IsTerminator(blocks[block][n - 1]) {
        block := AppendBlock();
      }
    }

    method StartAt(offset: nat)
      requires block < |blocks| && Table(blocks, addrs)
      modifies this`blocks, this`block, this`nextId
      ensures Started(old(blocks), old(block), old(nextId), offset, addrs, blocks, block, nextId)
    {
      ghost var bs, b, id := blocks, block, nextId;
      if offset in addrs {
        var next := addrs[offset];
        Join(next);
        block := next;
      }
      assert Joined(bs, b, id, offset, addrs, blocks, block, nextId);
      ghost var bs1, b1 := blocks, block;
      Leave();
      assert Left(bs1, b1, blocks, block);
    }

    method TranslateNext(insts: seq<MachineInst>, k: nat, ghost sites: seq<Site>) returns (ghost sites': seq<Site>)
      requires Contiguous(insts) && AllKnown(insts, addrs) && k == |sites| < |insts| && Translatable(insts[..k])
      requires CanTranslate(insts[k])
      requires Between(insts, blocks, addrs, sites, block)
      modifies this`blocks, this`block, this`nextId
      ensures |sites'| == k + 1 && sites'[..k] == sites && Between(insts, blocks, addrs, sites', block)
    {
      hide Chunk, Laid, Ahead, NotAhead, Contiguous, GrownBy, CanTranslate;
      ghost var bs, b, id := blocks, block, nextId;
      StartAt(insts[k].offset);
      StartedIsReady(insts, bs, blocks, addrs, sites, b, id, block, nextId);
      ghost var s := Site(block, |blocks[block]|, nextId);
      ghost var bs1 := blocks;
      assert TargetsKnown(insts[k], addrs);
      Translate(insts[k]);
      BetweenNext(insts, bs1, blocks, addrs, sites, s);
      sites' := sites + [s];
    }

    /** Fails exactly when an instruction is not supported; of decoded instructions those are call, xor and inc of
        memory. */
    method Run(insts: seq<MachineInst>) returns (ok: bool, ghost sites: seq<Site>)
      requires Contiguous(insts)
      requires blocks == [[]] && addrs == map[0 := 0] && block == 0
      modifies this
      ensures ok <==> Translatable(insts)
      ensures AllDecoded(insts) ==> (ok <==> NoneRaises(insts))
      ensures ok ==> Translated(insts, blocks, addrs, sites)
    {
      hide AllDecoded;
      DecodedDecides(insts);
      hide Laid, Ahead, NotAhead, Contiguous, CanTranslate, Links, CodeAt, Table, Current, AllEmpty, TargetsKnown,
        NoneRaises;
      Empty();
      BuildJumpTargets(insts);
      sites := [];
      Beginning(insts, blocks, addrs);
      var k := 0;
      while k < |insts|
        invariant k == |sites| <= |insts| && Translatable(insts[..k])
        invariant AllKnown(insts, addrs) && Between(insts, blocks, addrs, sites, block)
      {
        if !CanTranslate(insts[k]) {
          return false, sites;
        }
        sites := TranslateNext(insts, k, sites);
        k := k + 1;
      }
      assert insts[..k] == insts;
      ok := true;
    }
  }

  // The blocks in the order they were appended; the entry is the first.
  function Assembled(bs: seq<Block>): Function {
    Function(seq(|bs|, b => b), map b: BlockId | 0 <= b < |bs| :: bs[b])
  }

  lemma FlagCodeLength(l: Value, r: Value, id: nat)
    ensures |FlagCode(l, r, id)| == 10
  {
  }
}

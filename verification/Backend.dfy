/** Emission of machine instructions for a lowered and allocated function. */
module Backend {
  import opened Words
  import opened X86
  import opened Graph
  import opened Ir
  import DepthFirstSearch

  type Slots = map<nat, nat>
  type Labels = map<BlockId, nat>

  // The displacement field of an operand has 32 bits.
  function Disp32(offset: nat): (d: int)
    ensures -0x8000_0000 <= d < 0x8000_0000
  {
    var low := Wrap(0 - offset) % 0x1_0000_0000;
    if low < 0x8000_0000 then low else low - 0x1_0000_0000
  }

  /** A slot is addressed where it lies exactly when its offset fits the displacement field. */
  lemma DispExact(offset: nat)
    ensures Disp32(offset) == 0 - offset <==> offset <= 0x8000_0000
  {
    if offset <= 0x8000_0000 {
      if offset > 0 {
        assert Wrap(0 - offset) == TWO_TO_64 - offset;
        assert (TWO_TO_64 - offset) % 0x1_0000_0000 == (0x1_0000_0000 - offset) % 0x1_0000_0000;
      }
    }
  }

  predicate CanEmitOp(slots: Slots, v: Value) {
    (v.Alloc? && v.id in slots) || v.Const? || (v.Phys? && v.r < 16)
  }

  function EmitOp(slots: Slots, v: Value): Operand
    requires CanEmitOp(slots, v)
  {
    if v.Alloc? then MemBaseDisp(RBP, Disp32(slots[v.id]))
    else if v.Const? then Imm(v.word)
    else Reg(v.r)
  }

  predicate CanEmit(slots: Slots, labels: Labels, i: Inst) {
    match i
    case AllocInst(_) => true
    case BinaryInst(_, op, lhs, rhs) => op != Shl && CanEmitOp(slots, lhs) && CanEmitOp(slots, rhs)
    case CompareInst(_, _, lhs, rhs) => CanEmitOp(slots, lhs) && CanEmitOp(slots, rhs)
    case LoadInst(_, _) => false
    case StoreInst(_, _, _) => false
    case PhiInst(_, _) => false
    case BranchInst(_, dst) => dst in labels
    case CondBranchInst(_, cond, falseDst, trueDst) => CanEmitOp(slots, cond) && falseDst in labels && trueDst in labels
    case RetInst(_, _) => true
    case MoveInst(dst, val) => CanEmitOp(slots, dst) && CanEmitOp(slots, val)
    case ConstraintInst(_) => true
  }

  function Machine64(opcode: Opcode, operands: seq<Operand>): MachineInst {
    MachineInst(opcode, operands, 64, 0, 0)
  }

  function BinaryOpcode(op: BinaryOp): Opcode
    requires op != Shl
  {
    match op
    case Add => OpAdd
    case And => OpAnd
    case Or => OpOr
    case Sub => OpSub
    case Xor => OpXor
  }

  function SetOpcode(pred: ComparePred): Opcode {
    match pred
    case Eq => OpSete
    case Ne => OpSetne
    case Slt => OpSetl
  }

  // A move between two slots goes through rcx.
  function EmitMove(slots: Slots, dst: Value, val: Value): seq<MachineInst>
    requires CanEmitOp(slots, dst) && CanEmitOp(slots, val)
  {
    if dst.Alloc? && val.Alloc? then
      [Machine64(OpMov, [Reg(RCX), EmitOp(slots, val)]), Machine64(OpMov, [EmitOp(slots, dst), Reg(RCX)])]
    else
      [Machine64(OpMov, [EmitOp(slots, dst), EmitOp(slots, val)])]
  }

  function EmitInst(slots: Slots, labels: Labels, i: Inst): seq<MachineInst>
    requires CanEmit(slots, labels, i)
  {
    match i
    case AllocInst(_) => []
    case BinaryInst(_, op, lhs, rhs) => [Machine64(BinaryOpcode(op), [EmitOp(slots, lhs), EmitOp(slots, rhs)])]
    case CompareInst(_, pred, lhs, rhs) =>
      [Machine64(OpCmp, [EmitOp(slots, lhs), EmitOp(slots, rhs)]), MachineInst(SetOpcode(pred), [Reg(RAX)], 8, 0, 0)]
    case BranchInst(_, dst) => [Machine64(OpJmp, [Label(labels[dst])])]
    case CondBranchInst(_, cond, falseDst, trueDst) =>
      [Machine64(OpCmp, [EmitOp(slots, cond), Imm(1)]), Machine64(OpJne, [Label(labels[falseDst])]),
       Machine64(OpJmp, [Label(labels[trueDst])])]
    case RetInst(_, _) => [Machine64(OpPop, [Reg(RBP)]), Machine64(OpRet, [])]
    case MoveInst(dst, val) => EmitMove(slots, dst, val)
    case ConstraintInst(_) => []
  }

  // The slots of the allocs among the first k instructions, in the order they are visited.
  function SlotsOf(b: Block, k: nat): Slots
    requires k <= |b|
  {
    if k == 0 then map[]
    else if b[k - 1].AllocInst? then SlotsOf(b, k - 1)[b[k - 1].id := 8 * |SlotsOf(b, k - 1)| + 8]
    else SlotsOf(b, k - 1)
  }

  function EmitBlock(slots: Slots, labels: Labels, b: Block, k: nat): seq<MachineInst>
    requires k <= |b| && forall j :: 0 <= j < k ==> CanEmit(slots, labels, b[j])
  {
    if k == 0 then [] else EmitBlock(slots, labels, b, k - 1) + EmitInst(slots, labels, b[k - 1])
  }

  function BlockStart(f: Function, labels: Labels, b: BlockId): seq<MachineInst>
    requires |f.order| > 0 && b in labels
  {
    [Machine64(OpLabel, [Label(labels[b])])]
    + if b == Entry(f) then [Machine64(OpPush, [Reg(RBP)]), Machine64(OpMov, [Reg(RBP), Reg(RSP)])] else []
  }

  ghost predicate BlockEmittable(f: Function, slots: Slots, labels: Labels, b: BlockId) {
    b in f.blocks && b in labels && forall j :: 0 <= j < |f.blocks[b]| ==> CanEmit(slots, labels, f.blocks[b][j])
  }

  function BlockCode(f: Function, slots: Slots, labels: Labels, b: BlockId): seq<MachineInst>
    requires |f.order| > 0 && BlockEmittable(f, slots, labels, b)
  {
    BlockStart(f, labels, b) + EmitBlock(slots, labels, f.blocks[b], |f.blocks[b]|)
  }

  // The code of the first n blocks of the order.
  function Code(f: Function, slots: Slots, labels: Labels, order: seq<BlockId>, n: nat): seq<MachineInst>
    requires |f.order| > 0 && n <= |order| && forall b :: b in order ==> BlockEmittable(f, slots, labels, b)
  {
    if n == 0 then [] else Code(f, slots, labels, order, n - 1) + BlockCode(f, slots, labels, order[n - 1])
  }

  // Blocks are numbered in pre-order.
  ghost predicate IsNumbering(labels: Labels, order: seq<BlockId>) {
    labels.Keys == (set b | b in order) && forall i :: 0 <= i < |order| ==> order[i] in labels && labels[order[i]] == i
  }

  // Allocs are in the entry block, each before its uses and only once.
  ghost predicate AllocsFirst(f: Function)
    requires |f.order| > 0
  {
    && (forall b, k :: b in f.blocks && 0 <= k < |f.blocks[b]| && f.blocks[b][k].AllocInst? ==> b == Entry(f))
    && Entry(f) in f.blocks && EntryAllocs(f.blocks[Entry(f)])
  }

  ghost predicate EntryAllocs(b: Block) {
    && (forall j, k :: 0 <= j < k < |b| && b[j].AllocInst? && b[k].AllocInst? ==> b[j].id != b[k].id)
    && (forall k, v {:trigger v in UsedBy(b[k])} :: 0 <= k < |b| && v in UsedBy(b[k]) && v.Alloc? ==>
         v.id in SlotsOf(b, k))
  }

  // The operands that emission looks at.
  function UsedBy(i: Inst): seq<Value> {
    match i
    case AllocInst(_) => []
    case BinaryInst(_, op, lhs, rhs) => [lhs, rhs]
    case CompareInst(_, _, lhs, rhs) => [lhs, rhs]
    case CondBranchInst(_, cond, _, _) => [cond]
    case MoveInst(dst, val) => [dst, val]
    case LoadInst(_, _) => []
    case StoreInst(_, _, _) => []
    case PhiInst(_, _) => []
    case BranchInst(_, _) => []
    case RetInst(_, _) => []
    case ConstraintInst(_) => []
  }

  lemma {:induction false} SlotsGrow(b: Block, j: nat, k: nat)
    requires j <= k <= |b| && EntryAllocs(b)
    ensures SlotsOf(b, j).Keys <= SlotsOf(b, k).Keys
    ensures forall x :: x in SlotsOf(b, j) ==> SlotsOf(b, k)[x] == SlotsOf(b, j)[x]
    ensures forall x :: x in SlotsOf(b, k) ==> exists m :: 0 <= m < k && b[m] == AllocInst(x)
    decreases k
  {
    if k > 0 {
      if j < k {
        SlotsGrow(b, j, k - 1);
      } else {
        SlotsGrow(b, k - 1, k - 1);
      }
    }
  }

  // Emission only looks up the slots of the operands.
  lemma EmitWithMoreSlots(s: Slots, t: Slots, labels: Labels, i: Inst)
    requires CanEmit(t, labels, i)
    requires forall v :: v in UsedBy(i) && v.Alloc? ==> v.id in s && v.id in t && s[v.id] == t[v.id]
    ensures CanEmit(s, labels, i) && EmitInst(s, labels, i) == EmitInst(t, labels, i)
  {
    forall v | v in UsedBy(i) && CanEmitOp(t, v)
      ensures CanEmitOp(s, v) && EmitOp(s, v) == EmitOp(t, v)
    {
    }
    if i.BinaryInst? || i.CompareInst? {
      assert i.lhs in UsedBy(i) && i.rhs in UsedBy(i);
    } else if i.MoveInst? {
      assert i.dstVal in UsedBy(i) && i.val in UsedBy(i);
    } else if i.CondBranchInst? {
      assert i.cond in UsedBy(i);
    }
  }

  // ---- The translator

  class InstTranslator {
    var allocMap: Slots
    var blockMap: Labels
    var insts: seq<MachineInst>
    var frameSize: nat

    constructor ()
      ensures allocMap == map[] && blockMap == map[] && insts == [] && frameSize == 0
    {
      allocMap, blockMap, insts, frameSize := map[], map[], [], 0;
    }

    method Emit(opcode: Opcode, operandWidth: nat, operands: seq<Operand>)
      modifies this`insts
      ensures insts == old(insts) + [MachineInst(opcode, operands, operandWidth, 0, 0)]
    {
      insts := insts + [MachineInst(opcode, operands, operandWidth, 0, 0)];
    }

    method VisitAlloc(id: nat)
      requires id !in allocMap
      modifies this`allocMap, this`frameSize
      ensures frameSize == old(frameSize) + 8 && allocMap == old(allocMap)[id := frameSize]
    {
      frameSize := frameSize + 8;
      allocMap := allocMap[id := frameSize];
    }

    method VisitMove(dst: Value, val: Value)
      requires CanEmitOp(allocMap, dst) && CanEmitOp(allocMap, val)
      modifies this`insts
      ensures insts == old(insts) + EmitMove(allocMap, dst, val)
    {
      var src := val;
      if dst.Alloc? && val.Alloc? {
        Emit(OpMov, 64, [Reg(RCX), EmitOp(allocMap, val)]);
        src := Phys(RCX);
      }
      Emit(OpMov, 64, [EmitOp(allocMap, dst), EmitOp(allocMap, src)]);
    }

    // Every instruction but an alloc only appends to the emitted code.
    method VisitInst(i: Inst)
      requires CanEmit(allocMap, blockMap, i) && !i.AllocInst?
      modifies this`insts
      ensures insts == old(insts) + EmitInst(allocMap, blockMap, i)
    {
      if i.BinaryInst? {
        Emit(BinaryOpcode(i.op), 64, [EmitOp(allocMap, i.lhs), EmitOp(allocMap, i.rhs)]);
      } else if i.BranchInst? {
        Emit(OpJmp, 64, [Label(blockMap[i.dst])]);
      } else if i.CompareInst? {
        Emit(OpCmp, 64, [EmitOp(allocMap, i.lhs), EmitOp(allocMap, i.rhs)]);
        Emit(SetOpcode(i.pred), 8, [Reg(RAX)]);
      } else if i.CondBranchInst? {
        Emit(OpCmp, 64, [EmitOp(allocMap, i.cond), Imm(1)]);
        Emit(OpJne, 64, [Label(blockMap[i.falseDst])]);
        Emit(OpJmp, 64, [Label(blockMap[i.trueDst])]);
      } else if i.MoveInst? {
        VisitMove(i.dstVal, i.val);
      } else if i.RetInst? {
        Emit(OpPop, 64, [Reg(RBP)]);
        Emit(OpRet, 64, []);
      }
    }

    // Numbers the blocks in the order given.
    method NumberBlocks(order: seq<BlockId>)
      requires blockMap == map[] && forall i, j :: 0 <= i < j < |order| ==> order[i] != order[j]
      modifies this`blockMap
      ensures IsNumbering(blockMap, order)
    {
      var i := 0;
      while i < |order|
        invariant 0 <= i <= |order|
        invariant blockMap.Keys == set k | 0 <= k < i :: order[k]
        invariant forall k :: 0 <= k < i ==> order[k] in blockMap && blockMap[order[k]] == k
      {
        blockMap := blockMap[order[i] := i];
        i := i + 1;
      }
      assert blockMap.Keys == set b | b in order;
    }

    // The instructions of the entry block fill the frame as they are emitted.
    method TranslateEntry(block: Block, ghost slots: Slots)
      requires allocMap == map[] && frameSize == 0 && slots == SlotsOf(block, |block|) && EntryAllocs(block)
      requires forall j :: 0 <= j < |block| ==> CanEmit(slots, blockMap, block[j])
      modifies this`allocMap, this`frameSize, this`insts
      ensures allocMap == slots && frameSize == 8 * |slots|
      ensures insts == old(insts) + EmitBlock(slots, blockMap, block, |block|)
    {
      hide EntryAllocs, CanEmit, EmitInst;
      var k := 0;
      while k < |block|
        invariant 0 <= k <= |block| && blockMap == old(blockMap)
        invariant allocMap == SlotsOf(block, k) && frameSize == 8 * |allocMap|
        invariant insts == old(insts) + EmitBlock(slots, blockMap, block, k)
      {
        TranslateEntryInst(block, k, slots);
        k := k + 1;
      }
      assert k == |block|;
    }

    method TranslateEntryInst(block: Block, k: nat, ghost slots: Slots)
      requires k < |block| && allocMap == SlotsOf(block, k) && frameSize == 8 * |allocMap|
      requires slots == SlotsOf(block, |block|) && EntryAllocs(block) && CanEmit(slots, blockMap, block[k])
      modifies this`allocMap, this`frameSize, this`insts
      ensures allocMap == SlotsOf(block, k + 1) && frameSize == 8 * |allocMap|
      ensures insts == old(insts) + EmitInst(slots, blockMap, block[k])
    {
      EmitHere(block, k, slots, blockMap);
      if block[k].AllocInst? {
        VisitAlloc(block[k].id);
      } else {
        VisitInst(block[k]);
      }
    }

    method TranslateOther(block: Block)
      requires forall j :: 0 <= j < |block| ==> CanEmit(allocMap, blockMap, block[j]) && !block[j].AllocInst?
      modifies this`insts
      ensures insts == old(insts) + EmitBlock(allocMap, blockMap, block, |block|)
    {
      var k := 0;
      while k < |block|
        invariant 0 <= k <= |block|
        invariant insts == old(insts) + EmitBlock(allocMap, blockMap, block, k)
      {
        VisitInst(block[k]);
        k := k + 1;
      }
      assert k == |block|;
    }
  }

  method TranslateBlock(t: InstTranslator, f: Function, b: BlockId, isEntry: bool, ghost slots: Slots)
    requires |f.order| > 0 && BlockEmittable(f, slots, t.blockMap, b) && AllocsFirst(f) && isEntry == (b == Entry(f))
    requires slots == SlotsOf(f.blocks[Entry(f)], |f.blocks[Entry(f)]|)
    requires if isEntry then t.allocMap == map[] && t.frameSize == 0
        else t.allocMap == slots && t.frameSize == 8 * |slots|
    modifies t`allocMap, t`frameSize, t`insts
    ensures t.allocMap == slots && t.frameSize == 8 * |slots|
    ensures t.insts == old(t.insts) + BlockCode(f, slots, t.blockMap, b)
  {
    hide CanEmit, EmitInst, EmitBlock, EntryAllocs;
    t.Emit(OpLabel, 64, [Label(t.blockMap[b])]);
    if isEntry {
      t.Emit(OpPush, 64, [Reg(RBP)]);
      t.Emit(OpMov, 64, [Reg(RBP), Reg(RSP)]);
      assert t.insts == old(t.insts) + BlockStart(f, t.blockMap, b);
      t.TranslateEntry(f.blocks[b], slots);
    } else {
      assert t.insts == old(t.insts) + BlockStart(f, t.blockMap, b);
      t.TranslateOther(f.blocks[b]);
    }
  }

  // Every reachable block can be emitted once the reachable blocks have labels.
  ghost predicate ReachableEmittable(f: Function, slots: Slots, g: Digraph) {
    forall labels: Labels, b {:trigger BlockEmittable(f, slots, labels, b)} ::
      (forall v :: v in labels <==> Reachable(g, v)) && b in labels ==> BlockEmittable(f, slots, labels, b)
  }

  lemma AllEmittable(f: Function, slots: Slots, g: Digraph, labels: Labels, order: seq<BlockId>)
    requires ReachableEmittable(f, slots, g) && IsNumbering(labels, order)
    requires forall v :: v in order <==> Reachable(g, v)
    ensures forall b :: b in order ==> BlockEmittable(f, slots, labels, b)
  {
    hide BlockEmittable;
  }

  // Emits the blocks in the order given, the entry first.
  method TranslateAll(t: InstTranslator, f: Function, order: seq<BlockId>, ghost slots: Slots)
    requires |f.order| > 0 && AllocsFirst(f) && slots == SlotsOf(f.blocks[Entry(f)], |f.blocks[Entry(f)]|)
    requires order != [] && order[0] == Entry(f) && forall i, j :: 0 <= i < j < |order| ==> order[i] != order[j]
    requires forall b :: b in order ==> BlockEmittable(f, slots, t.blockMap, b)
    requires t.allocMap == map[] && t.frameSize == 0 && t.insts == []
    modifies t`allocMap, t`frameSize, t`insts
    ensures t.allocMap == slots && t.frameSize == 8 * |slots| && t.insts == Code(f, slots, t.blockMap, order, |order|)
  {
    hide AllocsFirst, BlockEmittable, BlockCode, SlotsOf;
    var o := 0;
    while o < |order|
      invariant 0 <= o <= |order| && t.blockMap == old(t.blockMap)
      invariant if o == 0 then t.allocMap == map[] && t.frameSize == 0
          else t.allocMap == slots && t.frameSize == 8 * |slots|
      invariant t.insts == Code(f, slots, t.blockMap, order, o)
    {
      TranslateBlock(t, f, order[o], order[o] == Entry(f), slots);
      o := o + 1;
    }
    assert o == |order|;
  }

  /** Emits the reachable blocks in pre-order, numbered in that order. */
  method RunOn(f: Function, cfg: GraphObject, ghost slots: Slots)
      returns (t: InstTranslator, ghost order: seq<BlockId>, ghost post: seq<BlockId>)
    requires cfg.Valid() && |f.order| > 0 && cfg.Model().entry == Entry(f) && ReachableEmittable(f, slots, cfg.Model())
    requires AllocsFirst(f) && slots == SlotsOf(f.blocks[Entry(f)], |f.blocks[Entry(f)]|)
    ensures fresh(t) && DepthFirstSearch.IsSearchOf(cfg.Model(), order, post) && IsNumbering(t.blockMap, order)
    ensures forall b :: b in order ==> BlockEmittable(f, slots, t.blockMap, b)
    ensures t.allocMap == slots && t.frameSize == 8 * |slots| && t.insts == Code(f, slots, t.blockMap, order, |order|)
  {
    hide AllocsFirst, BlockEmittable, ReachableEmittable, Code, SlotsOf;
    ghost var g := cfg.Model();
    var search := new DepthFirstSearch.Search();
    search.Run(cfg, g);
    order, post := search.preOrder, search.postOrder;
    t := new InstTranslator();
    t.NumberBlocks(search.preOrder);
    AllEmittable(f, slots, g, t.blockMap, order);
    TranslateAll(t, f, search.preOrder, slots);
  }

  // With the slots known so far, an instruction is emitted as with all of them.
  lemma EmitHere(block: Block, k: nat, slots: Slots, labels: Labels)
    requires k < |block| && slots == SlotsOf(block, |block|) && EntryAllocs(block) && CanEmit(slots, labels, block[k])
    ensures CanEmit(SlotsOf(block, k), labels, block[k])
    ensures EmitInst(SlotsOf(block, k), labels, block[k]) == EmitInst(slots, labels, block[k])
    ensures block[k].AllocInst? ==> block[k].id !in SlotsOf(block, k)
  {
    SlotsGrow(block, k, |block|);
    forall v | v in UsedBy(block[k]) && v.Alloc?
      ensures v.id in SlotsOf(block, k)
    {
    }
    EmitWithMoreSlots(SlotsOf(block, k), slots, labels, block[k]);
    if block[k].AllocInst? && block[k].id in SlotsOf(block, k) {
      SlotsGrow(block, k, k);
    }
  }
}

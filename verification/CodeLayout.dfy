/** Where the blocks of a function are in the emitted code, and that each label is emitted once. */
module CodeLayout {
  import opened Words
  import opened X86
  import opened Ir
  import opened MachineRun
  import opened Backend
  import opened BlockSim

  // The function as emitted: its slots, its labels and the order of its blocks.
  datatype Layout = Layout(h: Function, slots: Slots, labels: Labels, order: seq<BlockId>)

  ghost predicate LayoutOk(l: Layout) {
    && |l.h.order| > 0 && IsNumbering(l.labels, l.order)
    && (forall b :: b in l.order ==> BlockEmittable(l.h, l.slots, l.labels, b))
  }

  ghost function CodeUpTo(l: Layout, j: nat): Program
    requires LayoutOk(l) && j <= |l.order|
  {
    Code(l.h, l.slots, l.labels, l.order, j)
  }

  ghost function CodeOf(l: Layout): Program
    requires LayoutOk(l)
  {
    CodeUpTo(l, |l.order|)
  }

  ghost function StartOf(l: Layout, b: BlockId): nat
    requires LayoutOk(l) && b in l.order
  {
    LabelIndex(l, b);
    |CodeUpTo(l, l.labels[b])|
  }

  lemma LabelIndex(l: Layout, b: BlockId)
    requires LayoutOk(l) && b in l.order
    ensures b in l.labels && l.labels[b] < |l.order| && l.order[l.labels[b]] == b
  {
  }

  ghost function CodeOfBlock(l: Layout, b: BlockId): Program
    requires LayoutOk(l) && b in l.order
  {
    BlockCode(l.h, l.slots, l.labels, b)
  }

  lemma {:induction false} CodeGrows(l: Layout, j: nat, n: nat)
    requires LayoutOk(l) && j <= n <= |l.order|
    ensures CodeUpTo(l, j) <= CodeUpTo(l, n)
    decreases n
  {
    hide LayoutOk, BlockCode;
    if j < n {
      CodeGrows(l, j, n - 1);
      CodeStep(l, n - 1);
    }
  }

  lemma CodeStep(l: Layout, j: nat)
    requires LayoutOk(l) && j < |l.order|
    ensures CodeUpTo(l, j + 1) == CodeUpTo(l, j) + CodeOfBlock(l, l.order[j])
  {
  }

  /** A block's code is where its label is. */
  lemma BlockAt(l: Layout, b: BlockId)
    requires LayoutOk(l) && b in l.order
    ensures HasCode(CodeOf(l), StartOf(l, b), CodeOfBlock(l, b))
  {
    hide LayoutOk, BlockCode;
    LabelIndex(l, b);
    var j := l.labels[b];
    CodeStep(l, j);
    CodeGrows(l, j + 1, |l.order|);
    var code, part := CodeOf(l), CodeUpTo(l, j) + CodeOfBlock(l, b);
    assert code[..|part|] == part;
    assert code[StartOf(l, b)..StartOf(l, b) + |CodeOfBlock(l, b)|] == part[StartOf(l, b)..];
  }

  // ---- Labels

  lemma NoLabelInInst(slots: Slots, labels: Labels, i: Inst)
    requires CanEmit(slots, labels, i)
    ensures forall k :: 0 <= k < |EmitInst(slots, labels, i)| ==> !EmitInst(slots, labels, i)[k].opcode.OpLabel?
  {
  }

  lemma {:induction false} NoLabelInBody(slots: Slots, labels: Labels, b: Block, k: nat)
    requires k <= |b| && forall j :: 0 <= j < k ==> CanEmit(slots, labels, b[j])
    ensures forall j :: 0 <= j < |EmitBlock(slots, labels, b, k)| ==> !EmitBlock(slots, labels, b, k)[j].opcode.OpLabel?
  {
    hide CanEmit, EmitInst;
    if k > 0 {
      NoLabelInBody(slots, labels, b, k - 1);
      NoLabelInInst(slots, labels, b[k - 1]);
    }
  }

  // The label of a block stands at its start and nowhere else in its code.
  lemma LabelInBlock(l: Layout, b: BlockId, k: nat, t: nat)
    requires LayoutOk(l) && b in l.order && k < |CodeOfBlock(l, b)|
    ensures b in l.labels && (IsLabel(CodeOfBlock(l, b)[k], t) <==> k == 0 && t == l.labels[b])
  {
    hide CanEmit, EmitBlock;
    LabelIndex(l, b);
    NoLabelInBody(l.slots, l.labels, l.h.blocks[b], |l.h.blocks[b]|);
    var start := BlockStart(l.h, l.labels, b);
    if k >= |start| {
      assert CodeOfBlock(l, b)[k] == EmitBlock(l.slots, l.labels, l.h.blocks[b], |l.h.blocks[b]|)[k - |start|];
    } else {
      assert CodeOfBlock(l, b)[k] == start[k];
    }
  }

  // The label t occurs below block n only at the start of block t.
  lemma {:induction false} LabelBelow(l: Layout, n: nat, k: nat, t: nat)
    requires LayoutOk(l) && n <= |l.order| && k < |CodeUpTo(l, n)|
    ensures IsLabel(CodeUpTo(l, n)[k], t) <==> t < n && k == |CodeUpTo(l, t)|
  {
    hide LayoutOk, BlockCode, IsLabel;
    if n > 0 {
      var rest := CodeUpTo(l, n - 1);
      CodeStep(l, n - 1);
      OrderLabel(l, n - 1);
      if k < |rest| {
        LabelBelow(l, n - 1, k, t);
        if t < n {
          CodeGrows(l, t, n - 1);
        }
      } else {
        LabelInBlock(l, l.order[n - 1], k - |rest|, t);
        if t < n - 1 {
          CodeStep(l, t);
          CodeGrows(l, t + 1, n - 1);
          BlockNotEmpty(l, l.order[t]);
        }
      }
    }
  }

  lemma OrderLabel(l: Layout, j: nat)
    requires LayoutOk(l) && j < |l.order|
    ensures l.order[j] in l.order && l.order[j] in l.labels && l.labels[l.order[j]] == j
  {
  }

  lemma BlockNotEmpty(l: Layout, b: BlockId)
    requires LayoutOk(l) && b in l.order
    ensures CodeOfBlock(l, b) != []
  {
  }

  /** The label of every emitted block is emitted exactly once, at the start of the block. */
  lemma LabelOnce(l: Layout, b: BlockId)
    requires LayoutOk(l) && b in l.order
    ensures b in l.labels && StartOf(l, b) < |CodeOf(l)|
    ensures forall k :: 0 <= k < |CodeOf(l)| ==> (IsLabel(CodeOf(l)[k], l.labels[b]) <==> k == StartOf(l, b))
    ensures FindLabel(CodeOf(l), l.labels[b]) == StartOf(l, b)
  {
    hide LayoutOk, BlockCode, IsLabel;
    LabelIndex(l, b);
    BlockAt(l, b);
    BlockNotEmpty(l, b);
    forall k | 0 <= k < |CodeOf(l)|
      ensures IsLabel(CodeOf(l)[k], l.labels[b]) <==> k == StartOf(l, b)
    {
      LabelBelow(l, |l.order|, k, l.labels[b]);
    }
    assert IsLabel(CodeOf(l)[StartOf(l, b)], l.labels[b]);
  }

  // ---- Jumps

  ghost predicate JumpsBelow(code: Program, n: nat) {
    forall k, t: nat :: 0 <= k < |code| && code[k].operands == [Label(t)] ==> t < n
  }

  lemma InstJumps(l: Layout, i: Inst)
    requires LayoutOk(l) && CanEmit(l.slots, l.labels, i)
    ensures JumpsBelow(EmitInst(l.slots, l.labels, i), |l.order|)
  {
    if i.BranchInst? {
      LabelIndex(l, i.dst);
    } else if i.CondBranchInst? {
      LabelIndex(l, i.falseDst);
      LabelIndex(l, i.trueDst);
    }
  }

  lemma {:induction false} BlockJumps(l: Layout, b: Block, k: nat)
    requires LayoutOk(l) && k <= |b| && forall j :: 0 <= j < k ==> CanEmit(l.slots, l.labels, b[j])
    ensures JumpsBelow(EmitBlock(l.slots, l.labels, b, k), |l.order|)
  {
    hide LayoutOk, CanEmit, EmitInst;
    if k > 0 {
      BlockJumps(l, b, k - 1);
      InstJumps(l, b[k - 1]);
    }
  }

  lemma {:induction false} CodeJumps(l: Layout, n: nat)
    requires LayoutOk(l) && n <= |l.order|
    ensures JumpsBelow(CodeUpTo(l, n), |l.order|)
  {
    hide LayoutOk, CanEmit, EmitInst;
    if n > 0 {
      CodeJumps(l, n - 1);
      CodeStep(l, n - 1);
      OrderLabel(l, n - 1);
      BlockNotEmpty(l, l.order[n - 1]);
      StartJumps(l, l.order[n - 1]);
      BlockJumps(l, l.h.blocks[l.order[n - 1]], |l.h.blocks[l.order[n - 1]]|);
    }
  }

  lemma StartJumps(l: Layout, b: BlockId)
    requires LayoutOk(l) && b in l.order
    ensures b in l.labels && BlockEmittable(l.h, l.slots, l.labels, b)
    ensures JumpsBelow(BlockStart(l.h, l.labels, b), |l.order|)
  {
    LabelIndex(l, b);
  }

  /** Every label that an instruction names is emitted exactly once. */
  ghost predicate LabelsResolve(code: Program) {
    forall k, t: nat :: 0 <= k < |code| && code[k].operands == [Label(t)] ==>
      FindLabel(code, t) < |code| && forall j :: 0 <= j < |code| ==> (IsLabel(code[j], t) <==> j == FindLabel(code, t))
  }

  lemma AllLabelsResolve(l: Layout)
    requires LayoutOk(l)
    ensures LabelsResolve(CodeOf(l))
  {
    hide LayoutOk, IsLabel, Code;
    var code := CodeOf(l);
    CodeJumps(l, |l.order|);
    forall k, t: nat | 0 <= k < |code| && code[k].operands == [Label(t)]
      ensures FindLabel(code, t) < |code|
      ensures forall j :: 0 <= j < |code| ==> (IsLabel(code[j], t) <==> j == FindLabel(code, t))
    {
      OrderLabel(l, t);
      LabelOnce(l, l.order[t]);
    }
  }
}

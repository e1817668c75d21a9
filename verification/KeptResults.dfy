/** Copies at the ends of blocks stand in for phis, as far as results are still read. */
module KeptResults {
  import opened Words
  import opened Ir
  import opened Ssa
  import opened PhiCopies
  import opened BlockSim
  import opened CopyRuns

  // Which results matter at the start of each block that can be run.
  type Keep = map<BlockId, set<nat>>

  // The second state knows the results in the set that the first one knows, and has the same variables and memory.
  ghost predicate Agree(keep: set<nat>, st: State, st': State) {
    && st'.cells == st.cells && st'.mem == st.mem
    && forall x {:trigger x in st.env} :: x in keep && x in st.env ==> x in st'.env && st'.env[x] == st.env[x]
  }

  // The second outcome is the first one, unless that is stuck.
  ghost predicate Alike(keep: set<nat>, o: Outcome, o': Outcome) {
    match o
    case Fell(st) => o'.Fell? && Agree(keep, st, o'.st)
    case Jump(d, st) => o'.Jump? && o'.dst == d && Agree(keep, st, o'.st)
    case Return(v, st) => o'.Return? && o'.word == v && Agree(keep, st, o'.st)
    case Stuck => true
  }

  ghost predicate ReadsKept(keep: set<nat>, i: Inst) {
    forall x {:trigger Def(x)} :: Def(x) in Operands(i) ==> x in keep
  }

  lemma EvalKept(keep: set<nat>, i: Inst, v: Value, st: State, st': State)
    requires Agree(keep, st, st') && ReadsKept(keep, i) && v in Operands(i)
    ensures Eval(v, st.env).Some? ==> Eval(v, st'.env) == Eval(v, st.env)
  {
    if v.Def? {
      assert v == Def(v.id);
    }
  }

  lemma ExecKept(keep: set<nat>, i: Inst, st: State, st': State)
    requires Agree(keep, st, st') && ReadsKept(keep, i)
    ensures Alike(keep, ExecInst(i, st), ExecInst(i, st'))
  {
    hide ReadsKept, Read64, Write64, EvalBinary, EvalCompare;
    if i.BinaryInst? || i.CompareInst? {
      EvalKept(keep, i, i.lhs, st, st');
      EvalKept(keep, i, i.rhs, st, st');
    } else if i.LoadInst? {
      EvalKept(keep, i, i.ptr, st, st');
    } else if i.StoreInst? {
      EvalKept(keep, i, i.ptr, st, st');
      EvalKept(keep, i, i.val, st, st');
    } else if i.CondBranchInst? {
      EvalKept(keep, i, i.cond, st, st');
    } else if i.RetInst? {
      EvalKept(keep, i, i.retVal, st, st');
    }
  }

  lemma {:induction false} ExecAllKept(keep: set<nat>, b: Block, st: State, st': State)
    requires Agree(keep, st, st') && forall k :: 0 <= k < |b| ==> ReadsKept(keep, b[k])
    ensures Alike(keep, ExecInsts(b, st), ExecInsts(b, st'))
  {
    hide ReadsKept, Agree, ExecInst;
    if b != [] {
      ExecKept(keep, b[0], st, st');
      if ExecInst(b[0], st).Fell? {
        ExecAllKept(keep, b[1..], ExecInst(b[0], st).st, ExecInst(b[0], st').st);
      }
    }
  }

  lemma SmallKept(keep: set<nat>, b: Block, k: nat, st: State, st': State)
    requires Agree(keep, st, st') && k <= |b| && forall j :: 0 <= j < |b| ==> ReadsKept(keep, b[j])
    requires SmallCompares(b, k, st) && !ExecInsts(b, st).Stuck?
    ensures SmallCompares(b, k, st')
  {
    hide ReadsKept, Agree, ExecInsts;
    forall j | 0 <= j < k && ExecInsts(b[..j], st').Fell?
      ensures SmallCompare(b[j], ExecInsts(b[..j], st').st)
    {
      ExecAllKept(keep, b[..j], st, st');
      assert b == b[..j] + b[j..];
      ExecAppend(b[..j], b[j..], st);
      OneSmallKept(keep, b, j, st, st');
    }
  }

  lemma OneSmallKept(keep: set<nat>, b: Block, j: nat, st: State, st': State)
    requires j < |b| && ReadsKept(keep, b[j]) && !ExecInsts(b, st).Stuck?
    requires ExecInsts(b[..j], st).Fell? && ExecInsts(b[..j], st').Fell?
    requires Agree(keep, ExecInsts(b[..j], st).st, ExecInsts(b[..j], st').st)
    requires SmallCompare(b[j], ExecInsts(b[..j], st).st)
    ensures SmallCompare(b[j], ExecInsts(b[..j], st').st)
  {
    hide ReadsKept, ExecInsts, Agree;
    if b[j].CompareInst? {
      var s, s' := ExecInsts(b[..j], st).st, ExecInsts(b[..j], st').st;
      EvalKept(keep, b[j], b[j].lhs, s, s');
      assert b == b[..j] + b[j..];
      ExecAppend(b[..j], b[j..], st);
      FirstExecuted(b[j..], s);
    }
  }

  lemma FirstExecuted(b: Block, st: State)
    requires b != [] && !ExecInsts(b, st).Stuck?
    ensures !ExecInst(b[0], st).Stuck?
  {
  }

  // ---- The end of a block

  // What a result is read from when control passes from b to d matters at b, and the copies bring it there.
  ghost predicate Arrives(f: Function, c: Copying, keep: Keep, b: BlockId, d: BlockId, x: nat)
    requires b in keep && d in f.blocks
  {
    var phi := FindPhi(f.blocks[d], x);
    if phi.None? then x in keep[b] && Held(c.phis, |c.phis|, b, Def(x)) == Def(x)
    else
      b in phi.value ==>
        (phi.value[b].Def? ==> phi.value[b].id in keep[b]) && Held(c.phis, |c.phis|, b, Def(x)) == phi.value[b]
  }

  lemma EnterKept(f: Function, c: Copying, keep: Keep, b: BlockId, d: BlockId, st: State, st': State)
    requires b in keep && d in keep && d in f.blocks && Agree(keep[b], st, st')
    requires forall x {:trigger x in keep[d]} :: x in keep[d] ==> Arrives(f, c, keep, b, d, x)
    ensures Agree(keep[d], st.(env := EnterEnv(f.blocks[d], b, st.env)), Copied(c, b, st'))
  {
    hide FindPhi, Held, CopyInOrder;
    var block := f.blocks[d];
    forall x | x in keep[d] && x in EnterEnv(block, b, st.env)
      ensures Lookup(Copied(c, b, st').env, x) == Some(EnterEnv(block, b, st.env)[x])
    {
      EnterLookup(block, b, st.env, x);
      HeldIs(c.phis, |c.phis|, b, st'.env, Def(x));
      assert Arrives(f, c, keep, b, d, x);
    }
  }

  // What the terminator reads has not been overwritten by the copies in front of it.
  ghost predicate ReadsRight(c: Copying, b: BlockId, i: Inst) {
    forall v :: v in Operands(i) ==> Held(c.phis, ReadAfter(c, b), b, v) == v
  }

  lemma TerminatorKept(keep: set<nat>, c: Copying, b: BlockId, i: Inst, st: State, st': State)
    requires IsTerminator(i) && Agree(keep, st, st') && ReadsKept(keep, i) && ReadsRight(c, b, i)
    ensures var o, o' := ExecInst(i, st), ExecInst(i, ReadState(c, b, st'));
      && (o.Jump? ==> o'.Jump? && o'.dst == o.dst && o.st == st)
      && (o.Return? ==> o'.Return? && o'.word == o.word) && !o.Fell?
  {
    hide ReadsKept, CopyInOrder, Held, Agree;
    forall v | v in Operands(i)
      ensures Eval(v, st.env).Some? ==> Eval(v, ReadState(c, b, st').env) == Eval(v, st.env)
    {
      EvalKept(keep, i, v, st, st');
      HeldIs(c.phis, ReadAfter(c, b), b, st'.env, v);
    }
    if i.CondBranchInst? {
      assert i.cond in Operands(i);
    } else if i.RetInst? {
      assert i.retVal in Operands(i);
    }
  }

  // ---- Whole runs

  predicate EndsOnce(b: Block) {
    b != [] && IsTerminator(b[|b| - 1]) && forall k :: 0 <= k < |b| - 1 ==> !IsTerminator(b[k])
  }

  ghost predicate BlockServed(f: Function, c: Copying, keep: Keep, b: BlockId) {
    && b in keep && b in f.blocks && (forall k :: 0 <= k < |f.blocks[b]| ==> ReadsKept(keep[b], f.blocks[b][k]))
    && EndsOnce(f.blocks[b]) && ReadsRight(c, b, f.blocks[b][|f.blocks[b]| - 1])
    && forall d :: d in BlockTargets(f.blocks[b]) ==> d in keep && d in f.blocks && EdgeServed(f, c, keep, b, d)
  }

  ghost predicate EdgeServed(f: Function, c: Copying, keep: Keep, b: BlockId, d: BlockId)
    requires b in keep && d in keep && d in f.blocks
  {
    forall x {:trigger x in keep[d]} :: x in keep[d] ==> Arrives(f, c, keep, b, d, x)
  }

  // Whatever matters is there to be read, on every path through the blocks.
  ghost predicate Served(f: Function, c: Copying, keep: Keep) {
    forall b {:trigger b in keep} :: b in keep ==> BlockServed(f, c, keep, b)
  }

  lemma {:induction false} BodyFalls(b: Block, k: nat, st: State)
    requires k < |b| && EndsOnce(b)
    ensures ExecInsts(b[..k], st).Fell? || ExecInsts(b[..k], st).Stuck?
  {
    if k > 0 {
      BodyFalls(b, k - 1, st);
      assert b[..k] == b[..k - 1] + [b[k - 1]];
      ExecAppend(b[..k - 1], [b[k - 1]], st);
    }
  }

  // The outcome of a block is that of its terminator after its body.
  lemma BlockInTwo(b: Block, st: State)
    requires EndsOnce(b) && !ExecInsts(b, st).Stuck?
    ensures ExecInsts(b[..|b| - 1], st).Fell?
    ensures ExecInsts(b, st) == ExecInst(b[|b| - 1], ExecInsts(b[..|b| - 1], st).st)
  {
    hide ExecInst;
    var last := |b| - 1;
    BodyFalls(b, last, st);
    assert b == b[..last] + [b[last]];
    ExecAppend(b[..last], [b[last]], st);
    OneInst(b[last], ExecInsts(b[..last], st).st);
  }

  lemma OneInst(i: Inst, st: State)
    ensures ExecInsts([i], st) == ExecInst(i, st)
  {
  }

  lemma StepKept(f: Function, c: Copying, keep: Keep, b: BlockId, st: State, st': State)
    requires BlockServed(f, c, keep, b) && Agree(keep[b], st, st') && !StepBlock(f, b, st).Stuck?
    ensures var o, o' := StepBlock(f, b, st), StepCopies(f, c, b, st');
      && (o.Return? ==> o'.Return? && o'.word == o.word)
      && (o.Jump? ==> o'.Jump? && o'.dst == o.dst && o.dst in keep && Agree(keep[o.dst], o.st, o'.st))
    ensures b in f.blocks && f.blocks[b] != [] && !ExecInsts(f.blocks[b], st).Stuck?
  {
    hide Agree, Arrives, ReadsKept, ReadsRight, EndsOnce, ExecInsts, ExecInst, EnterEnv, CopyInOrder;
    var block := f.blocks[b];
    ServedEnds(f, c, keep, b);
    var last := |block| - 1;
    BlockInTwo(block, st);
    ExecAllKept(keep[b], block[..last], st, st');
    var body, body' := ExecInsts(block[..last], st), ExecInsts(block[..last], st');
    TerminatorKept(keep[b], c, b, block[last], body.st, body'.st);
    var e := ExecInst(block[last], body.st);
    if e.Jump? && e.dst in f.blocks {
      ExecTarget(block, st);
      EnterKept(f, c, keep, b, e.dst, body.st, body'.st);
    }
  }

  lemma ServedEnds(f: Function, c: Copying, keep: Keep, b: BlockId)
    requires BlockServed(f, c, keep, b)
    ensures b in f.blocks && EndsOnce(f.blocks[b]) && f.blocks[b] != []
    ensures IsTerminator(f.blocks[b][|f.blocks[b]| - 1])
  {
  }

  /** A run of the function that returns is a run of the lowered function that returns the same. */
  lemma {:induction false} ReturnKept(f: Function, c: Copying, keep: Keep, o: Outcome, o': Outcome, n: nat)
    requires Served(f, c, keep) && Run(f, o, n).Return? && SmallRun(f, o, n)
    requires o.Return? ==> o'.Return? && o'.word == o.word
    requires o.Jump? ==> o'.Jump? && o'.dst == o.dst && o.dst in keep && Agree(keep[o.dst], o.st, o'.st)
    ensures RunCopies(f, c, o', n).Return? && RunCopies(f, c, o', n).word == Run(f, o, n).word
    ensures SmallCopyRun(f, c, o', n)
    decreases n
  {
    hide Agree, BlockServed, StepBlock, StepCopies, SmallCompares, ExecInsts;
    if n > 0 && o.Jump? {
      StepKept(f, c, keep, o.dst, o.st, o'.st);
      SmallStep(f, c, keep, o, o');
      ReturnKept(f, c, keep, StepBlock(f, o.dst, o.st), StepCopies(f, c, o'.dst, o'.st), n - 1);
    }
  }

  lemma SmallStep(f: Function, c: Copying, keep: Keep, o: Outcome, o': Outcome)
    requires o.Jump? && o'.Jump? && o'.dst == o.dst && BlockServed(f, c, keep, o.dst)
    requires Agree(keep[o.dst], o.st, o'.st) && !ExecInsts(f.blocks[o.dst], o.st).Stuck?
    ensures var b := f.blocks[o.dst];
      b != [] && SmallCompares(b, |b| - 1, o.st) ==> SmallCompares(b, |b| - 1, o'.st)
  {
    hide Agree, ReadsKept, SmallCompares, ExecInsts, ReadsRight, EdgeServed;
    var b := f.blocks[o.dst];
    if b != [] && SmallCompares(b, |b| - 1, o.st) {
      SmallKept(keep[o.dst], b, |b| - 1, o.st, o'.st);
    }
  }

}

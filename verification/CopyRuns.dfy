/** Runs as the lowered function makes them: phis are copies at the ends of the blocks they have values for. */
module CopyRuns {
  import opened Words
  import opened Ir
  import opened Ssa
  import opened PhiCopies
  import opened BlockSim
  import M = MoveInserter

  // The instructions of the first o blocks, in order.
  function InstsUpTo(f: Function, o: nat): Block
    requires o <= |f.order| && forall b :: b in f.order ==> b in f.blocks
  {
    if o == 0 then [] else InstsUpTo(f, o - 1) + f.blocks[f.order[o - 1]]
  }

  function InstsOf(f: Function): Block
    requires forall b :: b in f.order ==> b in f.blocks
  {
    InstsUpTo(f, |f.order|)
  }

  lemma {:induction false} CopiesAppend(a: Block, c: Block, k: nat, b: BlockId)
    requires k <= |c|
    ensures M.CopiesFrom(a + c, |a| + k, b) == M.CopiesFrom(a, |a|, b) + M.CopiesFrom(c, k, b)
    decreases k
  {
    if k == 0 {
      CopiesPrefix(a, c, |a|, b);
    } else {
      CopiesAppend(a, c, k - 1, b);
      assert (a + c)[|a| + k - 1] == c[k - 1];
    }
  }

  lemma {:induction false} CopiesPrefix(a: Block, c: Block, k: nat, b: BlockId)
    requires k <= |a|
    ensures M.CopiesFrom(a + c, k, b) == M.CopiesFrom(a, k, b)
  {
    if k > 0 {
      CopiesPrefix(a, c, k - 1, b);
      assert (a + c)[k - 1] == a[k - 1];
    }
  }

  /** The copies put at the end of a block, phi by phi in the order of the function. */
  lemma {:induction false} CopiesAreAll(f: Function, o: nat, b: BlockId)
    requires o <= |f.order| && forall c :: c in f.order ==> c in f.blocks
    ensures M.CopiesBefore(f, o, b) == M.CopiesFrom(InstsUpTo(f, o), |InstsUpTo(f, o)|, b)
  {
    hide M.CopiesFrom;
    if o == 0 {
      NoCopiesYet(b);
    } else {
      CopiesAreAll(f, o - 1, b);
      var block := f.blocks[f.order[o - 1]];
      CopiesAppend(InstsUpTo(f, o - 1), block, |block|, b);
    }
  }

  lemma NoCopiesYet(b: BlockId)
    ensures M.CopiesFrom([], 0, b) == []
  {
  }

  lemma {:induction false} InstFrom(f: Function, o: nat, j: nat) returns (p: Pos)
    requires o <= |f.order| && (forall b :: b in f.order ==> b in f.blocks) && j < |InstsUpTo(f, o)|
    ensures Within(f, p) && p.block in f.order && InstsUpTo(f, o)[j] == InstAt(f, p)
  {
    var block := f.blocks[f.order[o - 1]];
    if j < |InstsUpTo(f, o - 1)| {
      p := InstFrom(f, o - 1, j);
    } else {
      p := Pos(f.order[o - 1], j - |InstsUpTo(f, o - 1)|);
    }
  }

  lemma {:induction false} InstAmong(f: Function, o: nat, b: BlockId, k: nat) returns (j: nat)
    requires o <= |f.order| && (forall c :: c in f.order ==> c in f.blocks) && b in f.order[..o] && k < |f.blocks[b]|
    ensures j < |InstsUpTo(f, o)| && InstsUpTo(f, o)[j] == f.blocks[b][k]
  {
    if f.order[o - 1] == b {
      j := |InstsUpTo(f, o - 1)| + k;
    } else {
      assert f.order[..o] == f.order[..o - 1] + [f.order[o - 1]];
      j := InstAmong(f, o - 1, b, k);
    }
  }

  // How the copies come to stand: those of the phis before the cut in front of what the terminator of the block
  // reads, the others behind it; but where the block is shared, the condition is in the register of one of those.
  datatype Copying = Copying(phis: Block, cuts: map<BlockId, nat>, shared: set<BlockId>)

  function Cut(c: Copying, b: BlockId): (k: nat)
    ensures k <= |c.phis|
  {
    if b in c.cuts && c.cuts[b] <= |c.phis| then c.cuts[b] else |c.phis|
  }

  // How many phis have been copied when the terminator reads its operand.
  function ReadAfter(c: Copying, b: BlockId): (k: nat)
    ensures k <= |c.phis|
  {
    if b in c.shared then |c.phis| else Cut(c, b)
  }

  function Copied(c: Copying, b: BlockId, st: State): State {
    st.(env := CopyInOrder(c.phis, |c.phis|, b, st.env))
  }

  function ReadState(c: Copying, b: BlockId, st: State): State {
    st.(env := CopyInOrder(c.phis, ReadAfter(c, b), b, st.env))
  }

  // One step: the copies are made when control leaves the block.
  function StepCopies(f: Function, c: Copying, b: BlockId, st: State): Outcome {
    if b !in f.blocks || f.blocks[b] == [] then Stuck
    else
      var last := |f.blocks[b]| - 1;
      var body := ExecInsts(f.blocks[b][..last], st);
      if !body.Fell? then Stuck
      else
        var o := ExecInst(f.blocks[b][last], ReadState(c, b, body.st));
        if o.Jump? && o.dst in f.blocks then Jump(o.dst, Copied(c, b, body.st))
        else if o.Return? then Return(o.word, body.st)
        else Stuck
  }

  function RunCopies(f: Function, c: Copying, o: Outcome, n: nat): Outcome
    decreases n
  {
    if n == 0 || !o.Jump? then o else RunCopies(f, c, StepCopies(f, c, o.dst, o.st), n - 1)
  }

  // Every compare that the next n blocks execute has a left operand below 256.
  ghost predicate SmallCopyRun(f: Function, c: Copying, o: Outcome, n: nat)
    decreases n
  {
    n > 0 && o.Jump? && o.dst in f.blocks && f.blocks[o.dst] != [] ==>
      SmallCompares(f.blocks[o.dst], |f.blocks[o.dst]| - 1, o.st)
        && SmallCopyRun(f, c, StepCopies(f, c, o.dst, o.st), n - 1)
  }

  // ---- How the copies of a function come to stand

  // Where the terminator of a block stands among all instructions.
  function CutOf(f: Function, b: BlockId): (k: nat)
    requires b in f.order && (forall c :: c in f.order ==> c in f.blocks) && f.blocks[b] != []
    ensures k < |InstsOf(f)|
  {
    var o := M.IndexIn(f.order, b);
    PrefixLength(f, o + 1, |f.order|);
    |InstsUpTo(f, o)| + |f.blocks[b]| - 1
  }

  lemma {:induction false} PrefixLength(f: Function, a: nat, o: nat)
    requires a <= o <= |f.order| && forall b :: b in f.order ==> b in f.blocks
    ensures InstsUpTo(f, a) <= InstsUpTo(f, o)
    decreases o
  {
    if a < o {
      PrefixLength(f, a, o - 1);
    }
  }

  lemma FromStart(d: Block, k: nat, b: BlockId)
    requires k <= |d|
    ensures M.CopiesIn(d, 0, k, b) == M.CopiesFrom(d, k, b)
  {
    M.CopiesSplit(d, 0, k, b);
  }

  /** The copies in a block when its terminator is visited are those of the phis that stand before it, the others come
      later. */
  lemma CopiesAtCut(f: Function, b: BlockId)
    requires b in f.order && (forall c :: c in f.order ==> c in f.blocks) && f.blocks[b] != []
    ensures var o, cut, all := M.IndexIn(f.order, b), CutOf(f, b), InstsOf(f);
      && M.CopiesBefore(f, o, b) + M.CopiesFrom(f.blocks[b], |f.blocks[b]| - 1, b) == M.CopiesIn(all, 0, cut, b)
      && M.CopiesBefore(f, |f.order|, b) == M.CopiesIn(all, 0, cut, b) + M.CopiesIn(all, cut, |all|, b)
  {
    hide M.CopiesFrom, M.CopiesIn, M.CopiesBefore;
    var o, cut, all, block := M.IndexIn(f.order, b), CutOf(f, b), InstsOf(f), f.blocks[b];
    PrefixLength(f, o + 1, |f.order|);
    var head := InstsUpTo(f, o) + block;
    assert head == InstsUpTo(f, o + 1) && all == head + all[|head|..];
    CopiesAreAll(f, o, b);
    CopiesAppend(InstsUpTo(f, o), block, |block| - 1, b);
    CopiesPrefix(head, all[|head|..], cut, b);
    FromStart(all, cut, b);
    CopiesAreAll(f, |f.order|, b);
    M.CopiesSplit(all, cut, |all|, b);
  }

  // Where an instruction among all stands.
  lemma {:induction false} PlaceOf(f: Function, o: nat, j: nat) returns (a: nat, k: nat)
    requires o <= |f.order| && (forall b :: b in f.order ==> b in f.blocks) && j < |InstsUpTo(f, o)|
    ensures a < o && k < |f.blocks[f.order[a]]| && j == |InstsUpTo(f, a)| + k
    ensures InstsUpTo(f, o)[j] == f.blocks[f.order[a]][k]
  {
    if j < |InstsUpTo(f, o - 1)| {
      a, k := PlaceOf(f, o - 1, j);
    } else {
      a, k := o - 1, j - |InstsUpTo(f, o - 1)|;
    }
  }

  lemma InstPlaced(f: Function, a: nat, k: nat)
    requires a < |f.order| && (forall b :: b in f.order ==> b in f.blocks) && k < |f.blocks[f.order[a]]|
    ensures |InstsUpTo(f, a)| + k < |InstsOf(f)| && InstsOf(f)[|InstsUpTo(f, a)| + k] == f.blocks[f.order[a]][k]
  {
    PrefixLength(f, a + 1, |f.order|);
    assert InstsUpTo(f, a + 1)[|InstsUpTo(f, a)| + k] == f.blocks[f.order[a]][k];
  }

  // The condition of the block is a phi that stands behind it.
  predicate SharesRegister(f: Function, b: BlockId)
    requires b in f.order && (forall c :: c in f.order ==> c in f.blocks) && f.blocks[b] != []
  {
    var i := f.blocks[b][|f.blocks[b]| - 1];
    i.CondBranchInst? && i.cond.Def? && PhiFrom(InstsOf(f), CutOf(f, b), i.cond.id)
  }

  predicate PhiFrom(d: Block, k: nat, x: nat)
    requires k <= |d|
  {
    exists j :: k <= j < |d| && d[j].PhiInst? && d[j].id == x
  }

  function CopyingOf(f: Function): Copying
    requires forall b :: b in f.order ==> b in f.blocks && f.blocks[b] != []
  {
    Copying(InstsOf(f), map b | b in f.order :: CutOf(f, b), set b | b in f.order && SharesRegister(f, b))
  }

  // The same for a run in which the phis of a block take their values together.
  ghost predicate SmallRun(f: Function, o: Outcome, n: nat)
    decreases n
  {
    n > 0 && o.Jump? && o.dst in f.blocks && f.blocks[o.dst] != [] ==>
      SmallCompares(f.blocks[o.dst], |f.blocks[o.dst]| - 1, o.st) && SmallRun(f, StepBlock(f, o.dst, o.st), n - 1)
  }
}

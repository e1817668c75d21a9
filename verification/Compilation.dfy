/** The whole backend: what it needs of a function, and that the emitted program keeps its meaning. */
module Compilation {
  import opened Words
  import opened X86
  import opened Graph
  import opened Dominance
  import opened Ir
  import opened Ssa
  import opened FunctionObject
  import opened MachineRun
  import opened Backend
  import opened StackFrame
  import opened PhiCopies
  import opened BlockSim
  import opened CodeLayout
  import opened CopyRuns
  import opened KeptResults
  import opened Liveness
  import opened ProgramSim
  import opened Reentry
  import opened FrameSafety
  import DepthFirstSearch
  import M = MoveInserter
  import A = RegAllocator

  // ---- The functions that are lowered faithfully

  predicate IsPlain(v: Value) {
    v.Const? || v.Def?
  }

  // A variable of the entry block, declared before the position that uses it.
  ghost predicate IsVar(f: Function, v: Value, p: Pos)
    requires |f.order| > 0
  {
    v.Alloc? && exists k: nat :: DeclaredAt(f, v.id, k) && (p.block == Entry(f) ==> k < p.index)
  }

  ghost predicate DeclaredAt(f: Function, a: nat, k: nat)
    requires |f.order| > 0
  {
    Entry(f) in f.blocks && k < |f.blocks[Entry(f)]| && f.blocks[Entry(f)][k] == AllocInst(a)
  }

  // Variables live in the entry block and are only loaded from and stored to.
  ghost predicate InClass(f: Function, p: Pos)
    requires |f.order| > 0 && Within(f, p)
  {
    match InstAt(f, p)
    case AllocInst(_) => p.block == Entry(f)
    case BinaryInst(_, op, lhs, rhs) => op != Shl && IsPlain(lhs) && IsPlain(rhs)
    case CompareInst(_, _, lhs, rhs) => IsPlain(lhs) && IsPlain(rhs)
    case LoadInst(_, ptr) => IsVar(f, ptr, p)
    case StoreInst(_, ptr, val) => IsVar(f, ptr, p) && IsPlain(val)
    case PhiInst(_, incoming) => forall b :: b in incoming ==> IsPlain(incoming[b])
    case CondBranchInst(_, cond, _, _) => IsPlain(cond)
    case RetInst(_, retVal) => IsPlain(retVal)
    case BranchInst(_, _) => true
    case MoveInst(_, _) => false
    case ConstraintInst(_) => false
  }

  // Every phi has a value, and every block it has one for is there.
  ghost predicate PhisCopyable(f: Function) {
    forall p {:trigger IsPhi(f, p)} :: IsPhi(f, p) ==>
      InstAt(f, p).incoming != map[] && M.PhiOk(f, InstAt(f, p).incoming)
  }

  predicate IsRet(f: Function, p: Pos) {
    Within(f, p) && InstAt(f, p).RetInst?
  }

  ghost predicate RetsDiffer(f: Function) {
    forall p, q {:trigger IsRet(f, p), IsRet(f, q)} ::
      IsRet(f, p) && IsRet(f, q) && InstAt(f, p).id == InstAt(f, q).id ==> p == q
  }

  ghost predicate EntryNotTarget(f: Function)
    requires ValidFunction(f)
  {
    forall b {:trigger CanRun(f, b)} :: CanRun(f, b) ==> !HasEdge(CfgOf(f), b, Entry(f))
  }

  /** What the backend demands; base is above every identity in the function. */
  ghost predicate Compilable(f: Function, at: Places, base: nat) {
    && WellFormed(f, at) && PhisCopyable(f) && RetsDiffer(f)
    && (forall b {:trigger f.blocks[b]} :: b in f.blocks ==> M.BlockOk(f.blocks[b], base))
    && (forall p {:trigger InClass(f, p)} :: Within(f, p) ==> InClass(f, p))
  }

  type Source = w: M.Task | Compilable(w.f, w.at, w.base) ghost witness TrivialSource()

  ghost function TrivialSource(): (w: M.Task)
    ensures Compilable(w.f, w.at, w.base)
  {
    var f := ReturnZero();
    TrivialCompilable(f);
    M.Task(f, map[], 1)
  }

  lemma TrivialCompilable(f: Function)
    requires f == ReturnZero()
    ensures Compilable(f, map[], 1)
  {
    ReturnZeroFacts();
  }

  // The lowering pass can run on it.
  lemma SourceIsTask(w: Source)
    ensures M.IsTask(w)
  {
    hide OperandsAvail, IncomingAvail, InClass, RetsDiffer, M.PhiOk, M.BlockOk;
  }

  // ---- The names of results

  ghost function NamesOf(w: Source): Subst {
    map x | x in w.at :: Virt(M.NameOf(InstAt(w.f, w.at[x])))
  }

  lemma AllVisited(w: Source, b: BlockId)
    requires b in w.f.blocks
    ensures M.InRange(w.f, |w.f.order|, 0) && M.Visited(w.f, |w.f.order|, 0, b) == |w.f.blocks[b]|
  {
    assert w.f.order[..|w.f.order|] == w.f.order;
  }

  lemma DefinedAt(w: Source, x: nat)
    requires x in w.at
    ensures DefinesAt(w.f, x, w.at[x])
  {
  }

  lemma FinalNames(w: Source)
    ensures M.IsTask(w) && M.InRange(w.f, |w.f.order|, 0) && M.SubstAt(w, |w.f.order|, 0) == NamesOf(w)
  {
    hide Compilable, M.IsTask, M.Visited;
    SourceIsTask(w);
    EntryHeld(w);
    AllVisited(w, Entry(w.f));
    forall x | x in w.at
      ensures w.at[x].block in w.f.blocks && M.Visited(w.f, |w.f.order|, 0, w.at[x].block) > w.at[x].index
    {
      DefinedAt(w, x);
      AllVisited(w, w.at[x].block);
    }
  }

  lemma EntryHeld(w: Source)
    ensures |w.f.order| > 0 && Entry(w.f) in w.f.blocks && M.Ordered(w.f)
  {
  }

  // ---- The shape of a lowered block

  lemma SourceBlock(w: Source, b: BlockId)
    requires b in w.f.blocks
    ensures M.BlockOk(w.f.blocks[b], w.base) && b in w.f.order
  {
  }

  // Control leaves a block through its last instruction.
  lemma TargetOfLast(w: Source, b: BlockId, d: BlockId)
    requires HasEdge(CfgOf(w.f), b, d)
    ensures b in w.f.blocks && w.f.blocks[b] != [] && d in InstTargets(LastOf(w.f.blocks[b])) && d in w.f.blocks
  {
    hide Located, OperandsAvail, IncomingAvail, InClass, PhisCopyable, RetsDiffer, M.BlockOk, CfgOf,
      HasEdge;
    CfgEdges(w.f, b, d);
    SourceBlock(w, b);
    TargetInLast(w.f.blocks[b], w.base, d);
  }

  lemma TargetInLast(block: Block, base: nat, d: BlockId)
    requires M.BlockOk(block, base) && d in BlockTargets(block)
    ensures block != [] && d in InstTargets(LastOf(block))
  {
    hide BlockTargets, InstTargets, M.BlockOk;
    var k :| 0 <= k < |block| && d in InstTargets(block[k]);
    TargetsTerminate(block[k], d);
    TerminatorIsLast(block, base, k);
  }

  lemma TargetsTerminate(i: Inst, d: BlockId)
    requires d in InstTargets(i)
    ensures IsTerminator(i)
  {
  }

  lemma TerminatorIsLast(block: Block, base: nat, k: nat)
    requires M.BlockOk(block, base) && k < |block| && IsTerminator(block[k])
    ensures k == |block| - 1
  {
  }

  lemma EdgeOfLast(w: Source, b: BlockId, d: BlockId)
    requires b in w.f.blocks && w.f.blocks[b] != [] && d in InstTargets(LastOf(w.f.blocks[b]))
    ensures HasEdge(CfgOf(w.f), b, d) && d in w.f.blocks
  {
    hide Located, OperandsAvail, IncomingAvail, InClass, PhisCopyable, RetsDiffer;
    CfgEdges(w.f, b, d);
  }

  // The copies that are put at the end of a block.
  ghost function CopiesOf(w: Source, b: BlockId): Block {
    EntryHeld(w);
    M.CopiesBefore(w.f, |w.f.order|, b)
  }

  lemma BlockHeld(w: Source, b: BlockId)
    requires b in w.f.blocks
    ensures b in w.f.order && M.Ordered(w.f) && w.f.blocks[b] != [] && IsTerminator(LastOf(w.f.blocks[b]))
  {
    hide Compilable;
    EntryHeld(w);
    SourceBlock(w, b);
  }

  // Those in front of what its terminator reads, and those behind it.
  ghost function EarlyOf(w: Source, b: BlockId): Block
    requires b in w.f.blocks
  {
    BlockHeld(w, b);
    M.CopiesIn(InstsOf(w.f), 0, CutOf(w.f, b), b)
  }

  ghost function LateOf(w: Source, b: BlockId): Block
    requires b in w.f.blocks
  {
    BlockHeld(w, b);
    M.CopiesIn(InstsOf(w.f), CutOf(w.f, b), |InstsOf(w.f)|, b)
  }

  /** The copies in a block are those of all phis that have a value for it, in the order of the function; those of the
      phis that stand before its terminator are there when that is visited. */
  lemma CopiesAre(w: Source, b: BlockId)
    requires b in w.f.blocks
    ensures M.Ordered(w.f) && CopiesOf(w, b) == EarlyOf(w, b) + LateOf(w, b)
    ensures b in w.f.order && w.f.blocks.Keys >= (set c | c in w.f.order) && w.f.blocks[b] != []
    ensures M.EarlyCount(w.f, b) == |EarlyOf(w, b)|
  {
    hide Compilable, M.CopiesFrom, M.CopiesBefore, M.CopiesIn, InstsOf, CutOf;
    EntryHeld(w);
    BlockHeld(w, b);
    CopiesAtCut(w.f, b);
  }

  lemma CopiesInside(w: Source, b: BlockId)
    requires b in w.f.blocks
    ensures w.f.blocks[b] != [] && M.InRange(w.f, |w.f.order|, 0) && M.Ordered(w.f)
    ensures M.Copies(w.f, |w.f.order|, 0, b) == CopiesOf(w, b)
  {
    hide Compilable, M.CopiesFrom, M.CopiesBefore;
    EntryHeld(w);
    SourceBlock(w, b);
  }

  ghost function KeyOf(w: Source, b: BlockId): Value
    requires b in w.f.blocks
  {
    SourceIsTask(w);
    M.KeyAt(w, b)
  }

  ghost function LoweredOf(w: Source): Function {
    SourceIsTask(w);
    EntryHeld(w);
    M.Lowered(w)
  }

  ghost function FrontOf(w: Source, b: BlockId): Block
    requires b in w.f.blocks
  {
    BlockHeld(w, b);
    M.Front(w.base, KeyOf(w, b), LastOf(w.f.blocks[b]))
  }

  ghost function ExitOf(w: Source, b: BlockId): Inst
    requires b in w.f.blocks
  {
    BlockHeld(w, b);
    M.Exit(w.base, KeyOf(w, b), LastOf(w.f.blocks[b]))
  }

  ghost function BodyOf(w: Source, b: BlockId): Block
    requires b in w.f.blocks
  {
    BlockHeld(w, b);
    M.Body(w.base, w.f.blocks[b], |w.f.blocks[b]| - 1)
  }

  // A block before renaming.
  ghost function RawOf(w: Source, b: BlockId): Block
    requires b in w.f.blocks
  {
    BodyOf(w, b) + (EarlyOf(w, b) + FrontOf(w, b) + LateOf(w, b) + [ExitOf(w, b)])
  }

  /** The lowered form of every block: its body, its terminator and the copies around what that reads. */
  lemma LoweredBlock(w: Source, b: BlockId)
    requires b in w.f.blocks
    ensures LoweredOf(w).order == w.f.order && LoweredOf(w).blocks.Keys == w.f.blocks.Keys && w.f.blocks[b] != []
    ensures LoweredOf(w).blocks[b] == RenameBlock(NamesOf(w), RawOf(w, b))
  {
    hide Compilable, M.IsTask, M.Copies, M.KeyAt, M.Visited, RenameBlock, M.SubstAt, NamesOf, M.CopiesIn, InstsOf,
      CutOf, M.EarlyCount, M.Body, M.LowerRaw, CopiesOf;
    SourceIsTask(w);
    FinalNames(w);
    AllVisited(w, b);
    CopiesInside(w, b);
    CopiesAre(w, b);
    BlockHeld(w, b);
    var copies, early, late := CopiesOf(w, b), EarlyOf(w, b), LateOf(w, b);
    assert M.Early(copies, |early|) == early && M.Late(copies, |early|) == late;
  }

  // ---- Registers that are written or constrained

  lemma WrittenAt(g: Function, b: BlockId, k: nat, name: VirtName)
    requires b in g.blocks && k < |g.blocks[b]| && A.Writes(g.blocks[b][k], name)
    ensures A.Written(g, name)
  {
    assert A.Writes(InstAt(g, Pos(b, k)), name);
  }

  predicate HasWrite(b: Block, name: VirtName) {
    exists k :: 0 <= k < |b| && A.Writes(b[k], name)
  }

  lemma WriteRenamed(s: Subst, b: Block, name: VirtName)
    requires HasWrite(b, name)
    ensures HasWrite(RenameBlock(s, b), name)
  {
    var k :| 0 <= k < |b| && A.Writes(b[k], name);
    assert RenameBlock(s, b)[k] == RenameInst(s, b[k]);
  }

  lemma WriteAppended(a: Block, b: Block, name: VirtName)
    requires HasWrite(a, name) || HasWrite(b, name)
    ensures HasWrite(a + b, name)
  {
    if HasWrite(a, name) {
      var k :| 0 <= k < |a| && A.Writes(a[k], name);
      assert (a + b)[k] == a[k];
    } else {
      var k :| 0 <= k < |b| && A.Writes(b[k], name);
      assert (a + b)[|a| + k] == b[k];
    }
  }

  lemma {:induction false} BodyWrites(base: nat, b: Block, m: nat, k: nat)
    requires k < m <= |b| && DefinesValue(b[k]) && !b[k].PhiInst?
    ensures HasWrite(M.Body(base, b, m), M.NameOf(b[k]))
    decreases m
  {
    hide HasWrite;
    if k < m - 1 {
      BodyWrites(base, b, m - 1, k);
    } else {
      LoweredWrites(base, b[k]);
    }
    WriteAppended(M.Body(base, b, m - 1), M.LowerInst(base, b[m - 1]), M.NameOf(b[k]));
  }

  lemma LoweredWrites(base: nat, i: Inst)
    requires DefinesValue(i) && !i.PhiInst?
    ensures HasWrite(M.LowerInst(base, i), M.NameOf(i))
  {
    var l := M.LowerInst(base, i);
    assert A.Writes(l[|l| - 1], M.NameOf(i));
  }

  lemma {:induction false} CopiesWrite(d: Block, i: nat, m: nat, b: BlockId, k: nat)
    requires i <= k < m <= |d| && IsCopy(d[k], b)
    ensures HasWrite(M.CopiesIn(d, i, m, b), Keyed(Def(d[k].id)))
    decreases m
  {
    hide HasWrite;
    if k < m - 1 {
      CopiesWrite(d, i, m - 1, b, k);
    } else {
      CopyWrites(d[k], b);
    }
    WriteAppended(M.CopiesIn(d, i, m - 1, b), M.PhiCopy(d[m - 1], b), Keyed(Def(d[k].id)));
  }

  lemma CopyWrites(i: Inst, b: BlockId)
    requires IsCopy(i, b)
    ensures HasWrite(M.PhiCopy(i, b), Keyed(Def(i.id)))
  {
    assert A.Writes(M.PhiCopy(i, b)[0], Keyed(Def(i.id)));
  }

  lemma WrittenInBlock(w: Source, b: BlockId, raw: Block, name: VirtName)
    requires b in w.f.blocks && b in LoweredOf(w).blocks && LoweredOf(w).blocks[b] == RenameBlock(NamesOf(w), raw)
    requires HasWrite(raw, name)
    ensures A.Written(LoweredOf(w), name)
  {
    WriteRenamed(NamesOf(w), raw, name);
    var k :| 0 <= k < |RenameBlock(NamesOf(w), raw)| && A.Writes(RenameBlock(NamesOf(w), raw)[k], name);
    WrittenAt(LoweredOf(w), b, k, name);
  }

  lemma NotTerminatorBeforeLast(w: Source, p: Pos)
    requires Within(w.f, p) && DefinesValue(InstAt(w.f, p))
    ensures p.index < |w.f.blocks[p.block]| - 1
  {
    hide Compilable;
    SourceBlock(w, p.block);
  }

  lemma PhiCopyable(w: Source, p: Pos)
    requires IsPhi(w.f, p)
    ensures var incoming := InstAt(w.f, p).incoming;
      incoming != map[] && M.PhiOk(w.f, incoming) && forall b :: b in incoming ==> b in w.f.blocks
  {
    hide WellFormed, InClass, RetsDiffer, M.BlockOk;
  }

  // A block at whose end the phi gets a value.
  lemma PhiHasCopy(w: Source, p: Pos) returns (b: BlockId, j: nat)
    requires IsPhi(w.f, p)
    ensures b in w.f.blocks && M.Ordered(w.f) && j < |InstsOf(w.f)| && InstsOf(w.f)[j] == InstAt(w.f, p)
    ensures IsCopy(InstAt(w.f, p), b)
  {
    hide Compilable, InstsUpTo, M.PhiOk;
    EntryHeld(w);
    SourceBlock(w, p.block);
    PhiCopyable(w, p);
    b :| b in InstAt(w.f, p).incoming;
    assert w.f.order[..|w.f.order|] == w.f.order;
    j := InstAmong(w.f, |w.f.order|, p.block, p.index);
  }

  // A write in one of the parts of a block is one in the block.
  lemma WriteInRaw(w: Source, b: BlockId, name: VirtName)
    requires b in w.f.blocks
    requires HasWrite(BodyOf(w, b), name) || HasWrite(EarlyOf(w, b), name) || HasWrite(FrontOf(w, b), name)
      || HasWrite(LateOf(w, b), name)
    ensures A.Written(LoweredOf(w), name)
  {
    hide Compilable, HasWrite, LoweredOf, NamesOf, A.Written, BodyOf, EarlyOf, FrontOf, LateOf, ExitOf;
    var x, e, f, l, z := BodyOf(w, b), EarlyOf(w, b), FrontOf(w, b), LateOf(w, b), [ExitOf(w, b)];
    LoweredBlock(w, b);
    if HasWrite(x, name) {
      WriteAppended(x, e + f + l + z, name);
    } else {
      if !HasWrite(l, name) {
        WriteAppended(e, f, name);
      }
      WriteAppended(e + f, l, name);
      WriteAppended(e + f + l, z, name);
      WriteAppended(x, e + f + l + z, name);
    }
    WrittenInBlock(w, b, RawOf(w, b), name);
  }

  /** Every result has a register that is written. */
  lemma ResultWritten(w: Source, x: nat)
    requires x in w.at
    ensures DefinesAt(w.f, x, w.at[x]) && A.Written(LoweredOf(w), M.NameOf(InstAt(w.f, w.at[x])))
  {
    hide Compilable, HasWrite, LoweredOf, NamesOf, A.Written, M.Body, FrontOf, M.CopiesIn, InstsOf, CutOf;
    DefinedAt(w, x);
    var p := w.at[x];
    var i := InstAt(w.f, p);
    if i.PhiInst? {
      var b, j := PhiHasCopy(w, p);
      BlockHeld(w, b);
      if j < CutOf(w.f, b) {
        CopiesWrite(InstsOf(w.f), 0, CutOf(w.f, b), b, j);
      } else {
        CopiesWrite(InstsOf(w.f), CutOf(w.f, b), |InstsOf(w.f)|, b, j);
      }
      WriteInRaw(w, b, M.NameOf(i));
    } else {
      NotTerminatorBeforeLast(w, p);
      BlockHeld(w, p.block);
      var block := w.f.blocks[p.block];
      BodyWrites(w.base, block, |block| - 1, p.index);
      WriteInRaw(w, p.block, M.NameOf(i));
    }
  }

  // ---- Constraints

  // Neither a constraint nor a write to the register of a return value.
  predicate IsFree(i: Inst) {
    !i.ConstraintInst? && !(i.MoveInst? && i.dstVal.Virt? && i.dstVal.name.RetReg?)
  }

  predicate AllFree(b: Block) {
    forall k :: 0 <= k < |b| ==> IsFree(b[k])
  }

  lemma FreeRenamed(s: Subst, b: Block)
    requires AllFree(b) && forall k :: 0 <= k < |b| && b[k].MoveInst? ==> !b[k].dstVal.Def?
    ensures AllFree(RenameBlock(s, b))
  {
  }

  predicate MovesOk(b: Block) {
    AllFree(b) && forall k :: 0 <= k < |b| && b[k].MoveInst? ==> !b[k].dstVal.Def?
  }

  lemma MovesAppended(a: Block, b: Block)
    requires MovesOk(a) && MovesOk(b)
    ensures MovesOk(a + b)
  {
  }

  lemma LoweredFree(w: Source, b: BlockId, k: nat)
    requires b in w.f.blocks && k < |w.f.blocks[b]| - 1
    ensures MovesOk(M.LowerInst(w.base, w.f.blocks[b][k]))
  {
    hide Compilable;
    EntryHeld(w);
    SourceClass(w, Pos(b, k));
    SourceBlock(w, b);
  }

  lemma SourceClass(w: Source, p: Pos)
    requires Within(w.f, p)
    ensures |w.f.order| > 0 && InClass(w.f, p)
  {
  }

  lemma {:induction false} BodyFree(w: Source, b: BlockId, m: nat)
    requires b in w.f.blocks && m < |w.f.blocks[b]|
    ensures MovesOk(M.Body(w.base, w.f.blocks[b], m))
  {
    hide Compilable, MovesOk, M.LowerInst;
    if m == 0 {
      NothingFree();
    } else {
      BodyFree(w, b, m - 1);
      LoweredFree(w, b, m - 1);
      MovesAppended(M.Body(w.base, w.f.blocks[b], m - 1), M.LowerInst(w.base, w.f.blocks[b][m - 1]));
    }
  }

  lemma NothingFree()
    ensures MovesOk([])
  {
  }

  lemma {:induction false} CopiesFree(d: Block, i: nat, m: nat, b: BlockId)
    requires i <= m <= |d|
    ensures MovesOk(M.CopiesIn(d, i, m, b))
    decreases m
  {
    if m > i {
      CopiesFree(d, i, m - 1, b);
    }
  }

  // What stands before a terminator and what it reads.
  ghost function HeadOf(w: Source, b: BlockId): Block
    requires b in w.f.blocks
  {
    BodyOf(w, b) + EarlyOf(w, b)
  }

  lemma PartsFree(w: Source, b: BlockId)
    requires b in w.f.blocks
    ensures MovesOk(HeadOf(w, b)) && MovesOk(LateOf(w, b))
  {
    hide Compilable, MovesOk, M.Body, M.CopiesIn, InstsOf, CutOf;
    BlockHeld(w, b);
    BodyFree(w, b, |w.f.blocks[b]| - 1);
    CopiesFree(InstsOf(w.f), 0, CutOf(w.f, b), b);
    CopiesFree(InstsOf(w.f), CutOf(w.f, b), |InstsOf(w.f)|, b);
    MovesAppended(BodyOf(w, b), EarlyOf(w, b));
  }

  // The renamed block in pieces.
  lemma RawPieces(w: Source, b: BlockId)
    requires b in w.f.blocks
    ensures b in LoweredOf(w).blocks
    ensures var s := NamesOf(w);
      LoweredOf(w).blocks[b] == RenameBlock(s, HeadOf(w, b)) + RenameBlock(s, FrontOf(w, b))
        + RenameBlock(s, LateOf(w, b)) + [RenameInst(s, ExitOf(w, b))]
  {
    hide Compilable, LoweredOf, NamesOf, BodyOf, EarlyOf, FrontOf, LateOf, ExitOf, RenameInst;
    LoweredBlock(w, b);
    var s := NamesOf(w);
    var x, e, f, l, z := BodyOf(w, b), EarlyOf(w, b), FrontOf(w, b), LateOf(w, b), [ExitOf(w, b)];
    assert x + (e + f + l + z) == x + e + f + l + z;
    M.RenameAppend(s, x + e + f + l, z);
    M.RenameAppend(s, x + e + f, l);
    M.RenameAppend(s, x + e, f);
    assert RenameBlock(s, z) == [RenameInst(s, ExitOf(w, b))];
  }

  lemma MovesOkIs(b: Block)
    requires MovesOk(b)
    ensures AllFree(b) && forall k :: 0 <= k < |b| && b[k].MoveInst? ==> !b[k].dstVal.Def?
  {
  }

  // The register of a return value is constrained and written in front of the copies that stand before the return.
  lemma NotFreeAt(w: Source, b: BlockId, k: nat)
    requires b in w.f.blocks && b in LoweredOf(w).blocks && k < |LoweredOf(w).blocks[b]|
    requires !IsFree(LoweredOf(w).blocks[b][k])
    ensures w.f.blocks[b] != [] && LastOf(w.f.blocks[b]).RetInst? && |LoweredOf(w).blocks[b]| > |HeadOf(w, b)| + 1
    ensures var id, n := LastOf(w.f.blocks[b]).id, |HeadOf(w, b)|;
      && LoweredOf(w).blocks[b][n] == ConstraintInst(RetReg(id))
      && A.Writes(LoweredOf(w).blocks[b][n + 1], RetReg(id)) && (k == n || k == n + 1)
  {
    hide Compilable, MovesOk, LoweredOf, NamesOf, KeyOf, RenameBlock, HeadOf, LateOf, AllFree, RenameInst;
    RawPieces(w, b);
    BlockHeld(w, b);
    PartsFree(w, b);
    var s, last := NamesOf(w), LastOf(w.f.blocks[b]);
    var a, f, l := RenameBlock(s, HeadOf(w, b)), RenameBlock(s, FrontOf(w, b)), RenameBlock(s, LateOf(w, b));
    MovesOkIs(HeadOf(w, b));
    FreeRenamed(s, HeadOf(w, b));
    MovesOkIs(LateOf(w, b));
    FreeRenamed(s, LateOf(w, b));
    FrontNotFree(s, w.base, KeyOf(w, b), last);
  }

  lemma FrontNotFree(s: Subst, base: nat, key: Value, i: Inst)
    requires IsTerminator(i)
    ensures var f := RenameBlock(s, M.Front(base, key, i));
      && (forall k :: 0 <= k < |f| && !IsFree(f[k]) ==> i.RetInst?)
      && (i.RetInst? ==> |f| == 2 && f[0] == ConstraintInst(RetReg(i.id)) && A.Writes(f[1], RetReg(i.id)))
    ensures IsFree(RenameInst(s, M.Exit(base, key, i)))
  {
  }

  lemma ConstrainedIsRet(w: Source, name: VirtName) returns (b: BlockId)
    requires A.Constrained(LoweredOf(w), name)
    ensures b in w.f.blocks && w.f.blocks[b] != [] && LastOf(w.f.blocks[b]).RetInst?
    ensures name == RetReg(LastOf(w.f.blocks[b]).id)
  {
    hide Compilable, LoweredOf;
    var g := LoweredOf(w);
    var p :| Within(g, p) && A.Constrains(InstAt(g, p), name);
    b := p.block;
    LoweredKeys(w);
    NotFreeAt(w, b, p.index);
  }

  lemma LoweredKeys(w: Source)
    ensures |w.f.order| > 0 && LoweredOf(w).order == w.f.order && LoweredOf(w).blocks.Keys == w.f.blocks.Keys
  {
    hide Compilable, LoweredOf;
    EntryHeld(w);
    LoweredBlock(w, Entry(w.f));
  }

  lemma RetBlock(w: Source, b: BlockId, c: BlockId)
    requires b in w.f.blocks && w.f.blocks[b] != [] && LastOf(w.f.blocks[b]).RetInst?
    requires c in w.f.blocks && w.f.blocks[c] != [] && LastOf(w.f.blocks[c]).RetInst?
    requires LastOf(w.f.blocks[b]).id == LastOf(w.f.blocks[c]).id
    ensures b == c
  {
    hide Located, OperandsAvail, IncomingAvail, InClass, PhisCopyable, CfgOf, ValidFunction;
    assert IsRet(w.f, Pos(b, |w.f.blocks[b]| - 1)) && IsRet(w.f, Pos(c, |w.f.blocks[c]| - 1));
  }

  /** The allocator can run on the lowered function. */
  lemma LoweredConstraints(w: Source)
    ensures A.ConstraintsFirst(LoweredOf(w))
  {
    hide Compilable, LoweredOf, A.Constrained;
    var g := LoweredOf(w);
    LoweredKeys(w);
    forall p, q | Within(g, p) && Within(g, q) && InstAt(g, p).ConstraintInst? && InstAt(g, q) == InstAt(g, p)
      ensures p == q
    {
      NotFreeAt(w, p.block, p.index);
      NotFreeAt(w, q.block, q.index);
      RetBlock(w, p.block, q.block);
    }
    forall p, name | Within(g, p) && A.Writes(InstAt(g, p), name) && A.Constrained(g, name)
      ensures p.index > 0 && A.Constrains(InstAt(g, Pos(p.block, p.index - 1)), name)
    {
      var b := ConstrainedIsRet(w, name);
      NotFreeAt(w, p.block, p.index);
    }
  }

  // ---- Locations

  // A lowered function with a correct assignment of its registers.
  datatype Build = Build(w: M.Task, regs: A.Regs, allocs: seq<nat>)

  ghost predicate IsBuild(u: Build) {
    Compilable(u.w.f, u.w.at, u.w.base) && A.IsAssignment(LoweredOf(u.w), u.regs, u.allocs, u.w.base)
  }

  ghost function AllocatedOf(u: Build): Function
    requires IsBuild(u)
  {
    LoweredKeys(u.w);
    A.Allocated(LoweredOf(u.w), u.regs, u.allocs)
  }

  ghost function NamingOf(u: Build): Naming
    requires IsBuild(u)
  {
    Naming(NamesOf(u.w), u.regs)
  }

  // The slot of a register that is written and not constrained.
  lemma RegisterSlot(u: Build, name: VirtName)
    requires IsBuild(u) && A.Written(LoweredOf(u.w), name) && !name.RetReg?
    ensures name in u.regs && A.IsSlot(u.regs[name], u.allocs)
  {
    hide Compilable, LoweredOf, A.Written, A.SlotsDiffer, A.FreshSlots;
    if A.Constrained(LoweredOf(u.w), name) {
      var b := ConstrainedIsRet(u.w, name);
    }
  }

  lemma NamesAreNotRet(i: Inst)
    requires DefinesValue(i)
    ensures !M.NameOf(i).RetReg?
  {
  }

  lemma ResultSlot(u: Build, x: nat)
    requires IsBuild(u) && x in u.w.at
    ensures x in NamesOf(u.w) && NamesOf(u.w)[x].Virt? && NamesOf(u.w)[x].name in u.regs
    ensures A.IsSlot(u.regs[NamesOf(u.w)[x].name], u.allocs)
  {
    hide A.IsAssignment, LoweredOf, Compilable, A.Written, M.NameOf;
    ResultWritten(u.w, x);
    NamesAreNotRet(InstAt(u.w.f, u.w.at[x]));
    RegisterSlot(u, M.NameOf(InstAt(u.w.f, u.w.at[x])));
  }

  // The slot with the given alloc is the location of the result x.
  ghost predicate IsHome(u: Build, x: nat, a: nat)
    requires IsBuild(u)
  {
    x in NamesOf(u.w) && NamesOf(u.w)[x].Virt? && NamesOf(u.w)[x].name in u.regs
      && u.regs[NamesOf(u.w)[x].name] == Alloc(a) && a in u.allocs
  }

  ghost function HomeOf(u: Build, x: nat): (a: nat)
    requires IsBuild(u) && x in u.w.at
    ensures IsHome(u, x, a)
  {
    hide A.IsAssignment, LoweredOf, Compilable;
    ResultSlot(u, x);
    u.regs[NamesOf(u.w)[x].name].id
  }

  ghost function HomesOf(u: Build): map<nat, nat>
    requires IsBuild(u)
  {
    map x | x in u.w.at :: HomeOf(u, x)
  }

  function AllocIds(b: Block): set<nat> {
    set k | 0 <= k < |b| && b[k].AllocInst? :: b[k].id
  }

  ghost function VarsOf(w: Source): set<nat> {
    EntryHeld(w);
    AllocIds(w.f.blocks[Entry(w.f)])
  }

  // ---- Slots

  lemma {:induction false} SlotsShape(b: Block, k: nat)
    requires k <= |b|
    ensures SlotsOf(b, k).Keys == AllocIds(b[..k])
    ensures forall a {:trigger SlotsOf(b, k)[a]} :: a in SlotsOf(b, k) ==>
        SlotsOf(b, k)[a] % 8 == 0 && SlotsOf(b, k)[a] >= 8
  {
    hide AllocIds;
    AllocIdsOne(if k > 0 then b[k - 1] else AllocInst(0));
    if k > 0 {
      SlotsShape(b, k - 1);
      assert b[..k] == b[..k - 1] + [b[k - 1]];
      AllocIdsAppend(b[..k - 1], [b[k - 1]]);
    }
  }

  lemma AllocIdsOne(i: Inst)
    ensures AllocIds([]) == {} && AllocIds([i]) == if i.AllocInst? then {i.id} else {}
  {
    if i.AllocInst? {
      assert [i][0].AllocInst? && [i][0].id in AllocIds([i]);
    }
  }

  lemma AllocIdsAppend(a: Block, b: Block)
    ensures AllocIds(a + b) == AllocIds(a) + AllocIds(b)
  {
    forall x | x in AllocIds(a) + AllocIds(b)
      ensures x in AllocIds(a + b)
    {
      if x in AllocIds(a) {
        var k :| 0 <= k < |a| && a[k].AllocInst? && a[k].id == x;
        assert (a + b)[k] == a[k];
      } else {
        var k :| 0 <= k < |b| && b[k].AllocInst? && b[k].id == x;
        assert (a + b)[|a| + k] == b[k];
      }
    }
  }

  ghost predicate AllocsDiffer(b: Block) {
    forall j, k :: 0 <= j < k < |b| && b[j].AllocInst? && b[k].AllocInst? ==> b[j].id != b[k].id
  }

  // Slots are numbered from the top of the frame downwards.
  lemma {:induction false} SlotsDistinct(b: Block, k: nat)
    requires k <= |b| && AllocsDiffer(b)
    ensures forall a {:trigger SlotsOf(b, k)[a]} :: a in SlotsOf(b, k) ==> SlotsOf(b, k)[a] <= 8 * |SlotsOf(b, k)|
    ensures forall x, y {:trigger SlotsOf(b, k)[x], SlotsOf(b, k)[y]} ::
      x in SlotsOf(b, k) && y in SlotsOf(b, k) && x != y ==> SlotsOf(b, k)[x] != SlotsOf(b, k)[y]
  {
    if k > 0 {
      SlotsDistinct(b, k - 1);
      if b[k - 1].AllocInst? && b[k - 1].id in SlotsOf(b, k - 1) {
        SlotsShape(b, k - 1);
      }
    }
  }

  lemma EntrySlotsOk(b: Block)
    requires AllocsDiffer(b)
    ensures SlotsOk(SlotsOf(b, |b|)) && (8 * |SlotsOf(b, |b|)| <= 0x8000_0000 ==> Fits(SlotsOf(b, |b|)))
    ensures forall a {:trigger SlotsOf(b, |b|)[a]} :: a in SlotsOf(b, |b|) ==>
        SlotsOf(b, |b|)[a] <= 8 * |SlotsOf(b, |b|)|
  {
    SlotsShape(b, |b|);
    SlotsDistinct(b, |b|);
  }

  lemma AllocsDifferAppend(a: Block, b: Block)
    requires AllocsDiffer(a) && AllocsDiffer(b) && AllocIds(a) !! AllocIds(b)
    ensures AllocsDiffer(a + b)
  {
    var c := a + b;
    forall j, k | 0 <= j < k < |c| && c[j].AllocInst? && c[k].AllocInst?
      ensures c[j].id != c[k].id
    {
      if j < |a| <= k {
        assert c[j].id in AllocIds(a) && c[k] == b[k - |a|] && c[k].id in AllocIds(b);
      }
    }
  }

  // Renaming and allocation leave the allocs of a block alone.
  lemma AllocsFinal(n: Naming, b: Block)
    ensures AllocIds(Final(n, b)) == AllocIds(b)
    ensures AllocsDiffer(b) ==> AllocsDiffer(Final(n, b))
  {
    var r := Final(n, b);
    assert forall k :: 0 <= k < |b| ==> (r[k].AllocInst? <==> b[k].AllocInst?) && (b[k].AllocInst? ==> r[k] == b[k]);
    forall x
      ensures x in AllocIds(r) <==> x in AllocIds(b)
    {
      if x in AllocIds(b) {
        var k :| 0 <= k < |b| && b[k].AllocInst? && b[k].id == x;
        assert r[k] == b[k];
      }
    }
  }

  lemma AllocsLowered(base: nat, i: Inst)
    requires !IsTerminator(i)
    ensures AllocIds(M.LowerInst(base, i)) == (if i.AllocInst? then {i.id} else {})
    ensures AllocsDiffer(M.LowerInst(base, i))
  {
    var l := M.LowerInst(base, i);
    if i.AllocInst? {
      assert l[0] == i;
      assert i.id in AllocIds(l);
    } else {
      NoAllocs(l);
    }
  }

  lemma {:induction false} AllocsOfBody(base: nat, b: Block, m: nat)
    requires m < |b| && M.BlockOk(b, base)
    ensures AllocIds(M.Body(base, b, m)) == AllocIds(b[..m]) && AllocsDiffer(M.Body(base, b, m))
  {
    hide M.LowerInst, AllocsDiffer;
    if m == 0 {
      NoAllocs([]);
    } else {
      AllocsOfBody(base, b, m - 1);
      AllocsLowered(base, b[m - 1]);
      assert b[..m] == b[..m - 1] + [b[m - 1]];
      AllocIdsAppend(b[..m - 1], [b[m - 1]]);
      assert AllocIds([b[m - 1]]) == if b[m - 1].AllocInst? then {b[m - 1].id} else {};
      AllocIdsAppend(M.Body(base, b, m - 1), M.LowerInst(base, b[m - 1]));
      AllocsDifferAppend(M.Body(base, b, m - 1), M.LowerInst(base, b[m - 1]));
    }
  }

  lemma NoAllocs(b: Block)
    requires forall k :: 0 <= k < |b| ==> !b[k].AllocInst?
    ensures AllocIds(b) == {} && AllocsDiffer(b)
  {
  }

  lemma {:induction false} NoAllocsInCopies(d: Block, i: nat, m: nat, b: BlockId)
    requires i <= m <= |d|
    ensures forall k :: 0 <= k < |M.CopiesIn(d, i, m, b)| ==> !M.CopiesIn(d, i, m, b)[k].AllocInst?
    decreases m
  {
    if m > i {
      NoAllocsInCopies(d, i, m - 1, b);
    }
  }

  lemma NoAllocsInEnd(w: Source, b: BlockId)
    requires b in w.f.blocks
    ensures var end := EarlyOf(w, b) + FrontOf(w, b) + LateOf(w, b) + [ExitOf(w, b)];
      forall k :: 0 <= k < |end| ==> !end[k].AllocInst?
  {
    hide Compilable, M.CopiesIn, InstsOf, CutOf, KeyOf;
    BlockHeld(w, b);
    NoAllocsInCopies(InstsOf(w.f), 0, CutOf(w.f, b), b);
    NoAllocsInCopies(InstsOf(w.f), CutOf(w.f, b), |InstsOf(w.f)|, b);
  }

  // The allocs of a lowered block are those it had.
  lemma AllocsOfRaw(w: Source, b: BlockId)
    requires b in w.f.blocks
    ensures w.f.blocks[b] != []
    ensures AllocIds(RawOf(w, b)) == AllocIds(w.f.blocks[b]) && AllocsDiffer(RawOf(w, b))
  {
    hide Compilable, M.Body, KeyOf, AllocsDiffer, EarlyOf, FrontOf, LateOf, ExitOf;
    SourceBlock(w, b);
    BlockHeld(w, b);
    var block := w.f.blocks[b];
    var body, end := BodyOf(w, b), EarlyOf(w, b) + FrontOf(w, b) + LateOf(w, b) + [ExitOf(w, b)];
    AllocsOfBody(w.base, block, |block| - 1);
    NoAllocsInEnd(w, b);
    NoAllocs(end);
    NoAllocs([LastOf(block)]);
    AllocIdsAppend(body, end);
    AllocsDifferAppend(body, end);
    assert block == block[..|block| - 1] + [LastOf(block)];
    AllocIdsAppend(block[..|block| - 1], [LastOf(block)]);
  }

  // The block after allocation.
  lemma AllocatedBlock(u: Build, b: BlockId)
    requires IsBuild(u) && b in u.w.f.blocks
    ensures b in AllocatedOf(u).blocks && u.w.f.blocks[b] != [] && AllocatedOf(u).order == u.w.f.order
    ensures |u.w.f.order| > 0
    ensures AllocatedOf(u).blocks.Keys == u.w.f.blocks.Keys
    ensures AllocatedOf(u).blocks[b] == (if b == Entry(u.w.f) then A.AllocInsts(u.allocs) else [])
      + Final(NamingOf(u), RawOf(u.w, b))
  {
    hide Compilable, M.Body, KeyOf, A.IsAssignment, LoweredOf, NamesOf, RenameBlock, A.AssignBlock;
    LoweredKeys(u.w);
    LoweredBlock(u.w, b);
  }

  lemma FreshAllocs(allocs: seq<nat>, base: nat)
    requires A.FreshSlots(allocs, base)
    ensures AllocsDiffer(A.AllocInsts(allocs)) && (forall x :: x in AllocIds(A.AllocInsts(allocs)) <==> x in allocs)
    ensures forall x :: x in allocs ==> x >= base
  {
    forall x | x in allocs
      ensures x in AllocIds(A.AllocInsts(allocs)) && x >= base
    {
      var k :| 0 <= k < |allocs| && allocs[k] == x;
      assert A.AllocInsts(allocs)[k] == AllocInst(x);
    }
  }

  lemma VarsBelow(w: Source, b: BlockId, x: nat)
    requires b in w.f.blocks && x in AllocIds(w.f.blocks[b])
    ensures x < w.base && |w.f.order| > 0 && b == Entry(w.f)
  {
    hide Compilable;
    EntryHeld(w);
    SourceBlock(w, b);
    var k :| 0 <= k < |w.f.blocks[b]| && w.f.blocks[b][k].AllocInst? && w.f.blocks[b][k].id == x;
    SourceClass(w, Pos(b, k));
  }

  /** The allocs of the entry block: one for every slot of a register, and the variables. */
  lemma EntryAllocIds(u: Build, b: Block)
    requires IsBuild(u) && |AllocatedOf(u).order| > 0 && Entry(AllocatedOf(u)) in AllocatedOf(u).blocks
    requires b == AllocatedOf(u).blocks[Entry(AllocatedOf(u))]
    ensures AllocsDiffer(b) && (forall x :: x in AllocIds(b) <==> x in u.allocs || x in VarsOf(u.w))
    ensures forall x :: x in VarsOf(u.w) ==> x !in u.allocs
  {
    hide Compilable, M.Body, KeyOf, LoweredOf, AllocatedOf, AllocsDiffer, A.FreshSlots, A.SlotsDiffer, A.Written,
      A.Constrained, Final, RawOf;
    var w := u.w;
    EntryHeld(w);
    var e := Entry(w.f);
    AllocatedBlock(u, e);
    AllocsOfRaw(w, e);
    var raw := RawOf(w, e);
    AllocsFinal(NamingOf(u), raw);
    FreshAllocs(u.allocs, w.base);
    forall x | x in VarsOf(w)
      ensures x !in u.allocs
    {
      VarsBelow(w, e, x);
    }
    AllocIdsAppend(A.AllocInsts(u.allocs), Final(NamingOf(u), raw));
    AllocsDifferAppend(A.AllocInsts(u.allocs), Final(NamingOf(u), raw));
  }

  // ---- The frame

  ghost function EntrySlots(u: Build): Slots
    requires IsBuild(u)
  {
    EntryHeld(u.w);
    AllocatedBlock(u, Entry(u.w.f));
    var b := AllocatedOf(u).blocks[Entry(u.w.f)];
    SlotsOf(b, |b|)
  }

  // A frame for the function.
  ghost predicate FrameFor(u: Build, fr: Frame) {
    IsBuild(u) && fr.slots == EntrySlots(u) && fr.homes == HomesOf(u) && fr.vars == VarsOf(u.w)
  }

  lemma FrameSlots(u: Build, fr: Frame)
    requires FrameFor(u, fr)
    ensures SlotsOk(fr.slots) && (8 * |fr.slots| <= 0x8000_0000 ==> Fits(fr.slots))
    ensures forall x :: x in fr.slots <==> x in u.allocs || x in fr.vars
    ensures forall a {:trigger fr.slots[a]} :: a in fr.slots ==> fr.slots[a] <= 8 * |fr.slots|
    ensures forall x :: x in fr.vars ==> x !in u.allocs
  {
    hide IsBuild, AllocatedOf, SlotsOf, AllocIds, AllocsDiffer, VarsOf, Compilable;
    FrameForBuild(u, fr);
    EntryHeld(u.w);
    AllocatedBlock(u, Entry(u.w.f));
    var b := AllocatedOf(u).blocks[Entry(u.w.f)];
    EntryAllocIds(u, b);
    EntrySlotsOk(b);
    SlotsShape(b, |b|);
    assert b[..|b|] == b;
  }

  lemma HomesDiffer(u: Build, x: nat, y: nat)
    requires IsBuild(u) && x in u.w.at && y in u.w.at && x != y
    ensures HomeOf(u, x) != HomeOf(u, y)
  {
    hide Compilable, LoweredOf, A.Written, A.Constrained, A.FreshSlots, HomeOf;
    DefinedAt(u.w, x);
    DefinedAt(u.w, y);
    var a, b := HomeOf(u, x), HomeOf(u, y);
    assert IsHome(u, x, a) && IsHome(u, y, b);
  }

  lemma FrameIsOk(u: Build, fr: Frame)
    requires FrameFor(u, fr)
    ensures FrameOk(fr) && NamingOk(fr, NamingOf(u))
  {
    hide IsBuild, EntrySlots, VarsOf, SlotsOk, NamesOf, HomeOf;
    FrameSlots(u, fr);
    forall x | x in fr.homes
      ensures IsHome(u, x, fr.homes[x]) && fr.homes[x] in fr.slots && fr.homes[x] !in fr.vars
    {
    }
    forall x, y | x in fr.homes && y in fr.homes && x != y
      ensures fr.homes[x] != fr.homes[y]
    {
      HomesDiffer(u, x, y);
    }
  }

  // ---- Every instruction is of the class that is simulated

  lemma PlainOperand(u: Build, fr: Frame, v: Value)
    requires FrameFor(u, fr) && IsPlain(v) && (v.Def? ==> v.id in u.w.at)
    ensures IsOperand(fr, v)
  {
    hide IsBuild, EntrySlots, VarsOf, SlotsOk, NamesOf, HomeOf;
    FrameSlots(u, fr);
    if v.Def? {
      assert IsHome(u, v.id, fr.homes[v.id]);
    }
  }

  lemma VarOperand(u: Build, fr: Frame, v: Value, p: Pos)
    requires FrameFor(u, fr) && |u.w.f.order| > 0 && IsVar(u.w.f, v, p)
    ensures IsVariable(fr, v)
  {
    hide IsBuild, EntrySlots, SlotsOk, NamesOf, HomeOf, Compilable;
    FrameSlots(u, fr);
    FrameForBuild(u, fr);
    EntryHeld(u.w);
    var k: nat :| DeclaredAt(u.w.f, v.id, k);
    assert u.w.f.blocks[Entry(u.w.f)][k].AllocInst?;
  }

  // The operands of an instruction are results of the function.
  lemma OperandKnown(w: Source, p: Pos, v: Value)
    requires Within(w.f, p) && v in Operands(InstAt(w.f, p)) && v.Def?
    ensures v.id in w.at
  {
    hide Located, IncomingAvail, InClass, PhisCopyable, RetsDiffer;
    assert OperandsAvail(w.f, w.at, p);
    assert v == Def(v.id);
  }

  lemma IncomingKnown(w: Source, p: Pos, b: BlockId)
    requires IsPhi(w.f, p) && b in InstAt(w.f, p).incoming && InstAt(w.f, p).incoming[b].Def?
    ensures InstAt(w.f, p).incoming[b].id in w.at
  {
    hide Located, OperandsAvail, InClass, PhisCopyable, RetsDiffer;
    IncomingOf(w.f, w.at, p, b);
  }

  lemma Operand(u: Build, fr: Frame, p: Pos, v: Value)
    requires FrameFor(u, fr) && Within(u.w.f, p) && v in Operands(InstAt(u.w.f, p)) && IsPlain(v)
    ensures IsOperand(fr, v)
  {
    hide FrameFor, Compilable;
    FrameForBuild(u, fr);
    if v.Def? {
      OperandKnown(u.w, p, v);
    }
    PlainOperand(u, fr, v);
  }

  lemma FrameForBuild(u: Build, fr: Frame)
    requires FrameFor(u, fr)
    ensures IsBuild(u) && Compilable(u.w.f, u.w.at, u.w.base) && fr.homes.Keys == u.w.at.Keys
  {
  }

  lemma ResultKnown(w: Source, p: Pos)
    requires Within(w.f, p) && DefinesValue(InstAt(w.f, p))
    ensures InstAt(w.f, p).id in w.at && w.at[InstAt(w.f, p).id] == p
    ensures InstAt(w.f, p).id in NamesOf(w) && NamesOf(w)[InstAt(w.f, p).id] == Virt(M.NameOf(InstAt(w.f, p)))
  {
  }

  /** Every instruction of the function is of the class that is simulated. */
  lemma InstIsOk(u: Build, fr: Frame, p: Pos)
    requires FrameFor(u, fr) && Within(u.w.f, p)
    ensures IsBuild(u) && InstOk(fr, NamingOf(u), InstAt(u.w.f, p))
  {
    hide FrameFor, Compilable, IsVar, IsOperand, IsVariable, M.NameOf, NamesOf, IsBuild;
    FrameForBuild(u, fr);
    EntryHeld(u.w);
    SourceClass(u.w, p);
    var i := InstAt(u.w.f, p);
    if DefinesValue(i) {
      ResultKnown(u.w, p);
    }
    if i.BinaryInst? || i.CompareInst? {
      Operand(u, fr, p, i.lhs);
      Operand(u, fr, p, i.rhs);
    } else if i.LoadInst? {
      VarOperand(u, fr, i.ptr, p);
    } else if i.StoreInst? {
      VarOperand(u, fr, i.ptr, p);
      Operand(u, fr, p, i.val);
    } else if i.CondBranchInst? {
      Operand(u, fr, p, i.cond);
    } else if i.RetInst? {
      Operand(u, fr, p, i.retVal);
    } else if i.PhiInst? {
      forall b | b in i.incoming
        ensures IsOperand(fr, i.incoming[b])
      {
        if i.incoming[b].Def? {
          IncomingKnown(u.w, p, b);
        }
        PlainOperand(u, fr, i.incoming[b]);
      }
    }
  }

  // ---- The program

  lemma SourceShaped(w: Source)
    ensures ValidFunction(w.f) && Shaped(w.f)
  {
    hide Located, OperandsAvail, IncomingAvail, InClass, RetsDiffer, PhisCopyable, CfgOf;
    forall b | b in w.f.blocks
      ensures EndsOnce(w.f.blocks[b])
    {
      SourceBlock(w, b);
    }
  }

  ghost function UnitOf(u: Build, labels: Labels, order: seq<BlockId>): Unit
    requires IsBuild(u)
  {
    EntryHeld(u.w);
    SourceShaped(u.w);
    Unit(u.w.f, NamingOf(u), u.w.base, map b | b in u.w.f.blocks :: KeyOf(u.w, b), u.allocs,
         Layout(AllocatedOf(u), EntrySlots(u), labels, order), CopyingFor(u.w.f))
  }

  // The order lists the blocks that can be run, each once, the entry first.
  ghost predicate OrderOk(w: Source, order: seq<BlockId>) {
    EntryHeld(w);
    (forall b :: b in order <==> CanRun(w.f, b)) && order != [] && order[0] == Entry(w.f)
  }

  lemma BlockShaped(u: Build, fr: Frame, b: BlockId)
    requires FrameFor(u, fr) && b in u.w.f.blocks
    ensures IsBuild(u) && BlockWellShaped(fr, NamingOf(u), u.w.f.blocks[b]) && PhisOk(fr, NamingOf(u), u.w.f.blocks[b])
    ensures PhisDiffer(u.w.f.blocks[b])
  {
    hide FrameFor, Compilable, InstOk, IsBuild;
    FrameForBuild(u, fr);
    SourceBlock(u.w, b);
    var block := u.w.f.blocks[b];
    forall k | 0 <= k < |block|
      ensures InstOk(fr, NamingOf(u), block[k])
    {
      InstIsOk(u, fr, Pos(b, k));
    }
  }

  lemma KeyWritten(w: Source, b: BlockId)
    requires b in w.f.blocks && w.f.blocks[b] != [] && LastOf(w.f.blocks[b]).CondBranchInst?
    ensures A.Written(LoweredOf(w), Keyed(KeyOf(w, b)))
    ensures forall x :: KeyOf(w, b) == Def(x) ==> LastOf(w.f.blocks[b]).cond == Def(x)
  {
    hide Compilable, LoweredOf, A.Written, M.Visited, M.IsTask;
    SourceIsTask(w);
    assert A.Writes(FrontOf(w, b)[0], Keyed(KeyOf(w, b)));
    WriteInRaw(w, b, Keyed(KeyOf(w, b)));
  }

  // Whether the condition at the end of a block is in the register of a phi that stands behind it.
  ghost predicate Shares(w: Source, b: BlockId)
    requires b in w.f.blocks
  {
    BlockHeld(w, b);
    SharesRegister(w.f, b)
  }

  // What stands before the terminator of a block is visited before it.
  lemma VisitedInOrder(w: Source, b: BlockId, a: nat, k: nat)
    requires b in w.f.blocks && a < |w.f.order| && w.f.order[a] in w.f.blocks && k < |w.f.blocks[w.f.order[a]]|
    ensures b in w.f.order && M.Ordered(w.f) && w.f.blocks[b] != []
    ensures var o, last := M.IndexIn(w.f.order, b), |w.f.blocks[b]| - 1;
      M.InRange(w.f, o, last)
        && (|InstsUpTo(w.f, a)| + k < CutOf(w.f, b) <==> k < M.Visited(w.f, o, last, w.f.order[a]))
  {
    hide Compilable;
    EntryHeld(w);
    BlockHeld(w, b);
    var o := M.IndexIn(w.f.order, b);
    if a < o {
      PrefixLength(w.f, a + 1, o);
      assert w.f.order[..o][a] == w.f.order[a];
    } else {
      assert w.f.order[a] !in w.f.order[..o];
      if a > o {
        PrefixLength(w.f, o + 1, a);
      }
    }
  }

  lemma KeyIs(w: Source, b: BlockId, x: nat)
    requires b in w.f.blocks && w.f.blocks[b] != [] && LastOf(w.f.blocks[b]).CondBranchInst? && x in w.at
    requires LastOf(w.f.blocks[b]).cond == Def(x)
    ensures b in w.f.order && w.at[x].block in w.f.blocks
    ensures var o, last := M.IndexIn(w.f.order, b), |w.f.blocks[b]| - 1;
      M.InRange(w.f, o, last)
        && (KeyOf(w, b) == Def(x) <==> w.at[x].index >= M.Visited(w.f, o, last, w.at[x].block))
  {
    hide Compilable, M.Visited, M.IsTask;
    SourceIsTask(w);
    EntryHeld(w);
    BlockHeld(w, b);
    DefinedAt(w, x);
  }

  // The condition is in the register of the phi that it is exactly when that stands behind it.
  lemma KeyOfPhi(w: Source, b: BlockId, x: nat)
    requires b in w.f.blocks && w.f.blocks[b] != [] && LastOf(w.f.blocks[b]).CondBranchInst?
    requires LastOf(w.f.blocks[b]).cond == Def(x) && x in w.at && IsPhi(w.f, w.at[x])
    ensures KeyOf(w, b) == Def(x) <==> Shares(w, b)
  {
    hide Compilable, KeyOf, M.Visited, InstsUpTo, CutOf;
    EntryHeld(w);
    BlockHeld(w, b);
    DefinedAt(w, x);
    KeyIs(w, b, x);
    var p := w.at[x];
    BlockHeld(w, p.block);
    var a: nat :| a < |w.f.order| && w.f.order[a] == p.block;
    VisitedInOrder(w, b, a, p.index);
    InstPlaced(w.f, a, p.index);
    if SharesRegister(w.f, b) {
      var j :| CutOf(w.f, b) <= j < |InstsOf(w.f)| && InstsOf(w.f)[j].PhiInst? && InstsOf(w.f)[j].id == x;
      var c, k := PlaceOf(w.f, |w.f.order|, j);
      ResultKnown(w, Pos(w.f.order[c], k));
      assert c == a;
    } else {
      assert !PhiFrom(InstsOf(w.f), CutOf(w.f, b), x);
    }
  }

  lemma SharedIsPhi(w: Source, b: BlockId) returns (x: nat)
    requires b in w.f.blocks && Shares(w, b)
    ensures w.f.blocks[b] != [] && LastOf(w.f.blocks[b]).CondBranchInst? && LastOf(w.f.blocks[b]).cond == Def(x)
    ensures x in w.at && IsPhi(w.f, w.at[x]) && x in NamesOf(w) && NamesOf(w)[x] == Virt(Keyed(Def(x)))
  {
    hide Compilable, InstsUpTo, CutOf, NamesOf;
    EntryHeld(w);
    BlockHeld(w, b);
    x := LastOf(w.f.blocks[b]).cond.id;
    var j :| CutOf(w.f, b) <= j < |InstsOf(w.f)| && InstsOf(w.f)[j].PhiInst? && InstsOf(w.f)[j].id == x;
    var p := InstFrom(w.f, |w.f.order|, j);
    ResultKnown(w, p);
  }

  // A register whose slot holds a result is the register of that result.
  lemma SlotOfResult(u: Build, fr: Frame, x: nat, name: VirtName)
    requires FrameFor(u, fr) && x in fr.homes && name in u.regs && u.regs[name] == Alloc(fr.homes[x])
    ensures x in NamesOf(u.w) && NamesOf(u.w)[x] == Virt(name)
  {
    hide Compilable, LoweredOf, A.Written, A.Constrained, A.FreshSlots, HomeOf, EntrySlots, VarsOf, NamesOf;
    assert IsHome(u, x, fr.homes[x]);
  }

  lemma ConditionKey(u: Build, fr: Frame, b: BlockId)
    requires FrameFor(u, fr) && b in u.w.f.blocks && u.w.f.blocks[b] != [] && LastOf(u.w.f.blocks[b]).CondBranchInst?
    ensures IsBuild(u)
    ensures KeyOk(fr, NamingOf(u), KeyOf(u.w, b), LastOf(u.w.f.blocks[b]).cond, Shares(u.w, b))
  {
    hide Compilable, LoweredOf, A.Written, FrameFor, IsBuild, NamesOf, KeyOf, Shares, FrameOk, NamingOk;
    FrameForBuild(u, fr);
    var name := Keyed(KeyOf(u.w, b));
    KeyWritten(u.w, b);
    RegisterSlot(u, name);
    FrameAllocs(u, fr, u.regs[name].id);
    if Shares(u.w, b) {
      var x := SharedIsPhi(u.w, b);
      KeyOfPhi(u.w, b, x);
      FrameIsOk(u, fr);
      FinalOfName(fr, NamingOf(u), x, name);
    } else {
      forall x | x in fr.homes
        ensures fr.homes[x] != u.regs[name].id
      {
        if fr.homes[x] == u.regs[name].id {
          SlotOfResult(u, fr, x, name);
          NameIsKeyed(u.w, x, KeyOf(u.w, b));
          KeyOfPhi(u.w, b, x);
        }
      }
    }
  }

  lemma FrameAllocs(u: Build, fr: Frame, a: nat)
    requires FrameFor(u, fr) && a in u.allocs
    ensures a in fr.slots && a !in fr.vars
  {
    hide FrameFor;
    FrameSlots(u, fr);
  }

  lemma NameIsKeyed(w: Source, x: nat, key: Value)
    requires x in NamesOf(w) && NamesOf(w)[x] == Virt(Keyed(key))
    ensures key == Def(x) && x in w.at && IsPhi(w.f, w.at[x])
  {
    hide Compilable;
    DefinedAt(w, x);
  }

  lemma RetLocation(u: Build, b: BlockId)
    requires IsBuild(u) && b in u.w.f.blocks && u.w.f.blocks[b] != [] && LastOf(u.w.f.blocks[b]).RetInst?
    ensures FinalValue(NamingOf(u), Virt(RetReg(LastOf(u.w.f.blocks[b]).id))) == Phys(0)
  {
    hide Compilable, LoweredOf, A.Written, A.SlotsDiffer, A.FreshSlots, NamesOf, KeyOf;
    var w, id := u.w, LastOf(u.w.f.blocks[b]).id;
    assert A.Writes(FrontOf(w, b)[1], RetReg(id));
    WriteInRaw(w, b, RetReg(id));
    RetConstrained(w, b);
  }

  lemma RetConstrained(w: Source, b: BlockId)
    requires b in w.f.blocks && w.f.blocks[b] != [] && LastOf(w.f.blocks[b]).RetInst?
    ensures A.Constrained(LoweredOf(w), RetReg(LastOf(w.f.blocks[b]).id))
  {
    hide Compilable, LoweredOf, NamesOf, KeyOf, RenameBlock, HeadOf, LateOf, RenameInst, IsFree;
    RawPieces(w, b);
    BlockHeld(w, b);
    var g, s := LoweredOf(w), NamesOf(w);
    FrontNotFree(s, w.base, KeyOf(w, b), LastOf(w.f.blocks[b]));
    var a := RenameBlock(s, HeadOf(w, b));
    assert g.blocks[b][|a|] == RenameBlock(s, FrontOf(w, b))[0];
    assert A.Constrains(InstAt(g, Pos(b, |a|)), RetReg(LastOf(w.f.blocks[b]).id));
  }

  lemma TargetIsOk(u: Build, labels: Labels, order: seq<BlockId>, b: BlockId, d: BlockId)
    requires IsBuild(u) && OrderOk(u.w, order) && b in u.w.f.blocks && u.w.f.blocks[b] != []
    requires d in InstTargets(LastOf(u.w.f.blocks[b]))
    requires CanRun(u.w.f, b)
    ensures TargetOk(UnitOf(u, labels, order), d) && d in u.w.f.blocks && HasEdge(CfgOf(u.w.f), b, d)
  {
    hide Compilable, Reachable, LoweredOf, A.IsAssignment, NamingOf, KeyOf, AllocatedOf, EntrySlots;
    EdgeOfLast(u.w, b, d);
    ReachableStep(CfgOf(u.w.f), b, d);
    AllocatedBlock(u, d);
  }

  // If no edge leads to the entry, no jump leads to its label.
  lemma TargetsLater(u: Build, labels: Labels, order: seq<BlockId>)
    requires IsBuild(u) && OrderOk(u.w, order) && IsNumbering(labels, order)
    requires ValidFunction(u.w.f) && EntryNotTarget(u.w.f)
    ensures TargetsFrom(UnitOf(u, labels, order), 1)
  {
    hide Compilable, Reachable, LoweredOf, A.IsAssignment, NamingOf, KeyOf, AllocatedOf, EntrySlots, HasEdge, CfgOf,
      LastOf, ValidFunction;
    EntryHeld(u.w);
    forall b, d | b in order && b in u.w.f.blocks && u.w.f.blocks[b] != []
      && d in InstTargets(LastOf(u.w.f.blocks[b])) && d in labels
      ensures labels[d] >= 1
    {
      EdgeOfLast(u.w, b, d);
      assert CanRun(u.w.f, b) && d != order[0];
    }
  }

  lemma SourceValid(w: Source)
    ensures ValidFunction(w.f) && WellFormed(w.f, w.at)
  {
  }

  lemma InstsAreOk(u: Build, fr: Frame)
    requires FrameFor(u, fr)
    ensures IsBuild(u) && M.Ordered(u.w.f) && PhisOk(fr, NamingOf(u), InstsOf(u.w.f))
  {
    hide FrameFor, Compilable, InstOk, IsBuild;
    FrameForBuild(u, fr);
    EntryHeld(u.w);
    forall j | 0 <= j < |InstsOf(u.w.f)|
      ensures InstOk(fr, NamingOf(u), InstsOf(u.w.f)[j])
    {
      var p := InstFrom(u.w.f, |u.w.f.order|, j);
      InstIsOk(u, fr, p);
    }
  }

  // What the program takes for a block as the place and the register of its condition.
  lemma CopyingIs(w: Source, b: BlockId)
    requires b in w.f.blocks
    ensures ValidFunction(w.f) && Shaped(w.f) && b in w.f.order && M.Ordered(w.f) && w.f.blocks[b] != []
    ensures CopyingFor(w.f).phis == InstsOf(w.f) && Cut(CopyingFor(w.f), b) == CutOf(w.f, b)
    ensures b in CopyingFor(w.f).shared <==> Shares(w, b)
  {
    hide Compilable, InstsOf, CutOf, SharesRegister, ValidFunction, Shaped;
    SourceShaped(w);
    EntryHeld(w);
    BlockHeld(w, b);
    ShapedOrder(w.f);
  }

  lemma SharesAtBranch(w: Source, b: BlockId)
    requires b in w.f.blocks && Shares(w, b)
    ensures w.f.blocks[b] != [] && LastOf(w.f.blocks[b]).CondBranchInst?
  {
    var x := SharedIsPhi(w, b);
  }

  lemma TerminatorIsOk(u: Build, fr: Frame, labels: Labels, order: seq<BlockId>, b: BlockId)
    requires FrameFor(u, fr) && OrderOk(u.w, order) && b in u.w.f.blocks && u.w.f.blocks[b] != [] && CanRun(u.w.f, b)
    ensures IsBuild(u) && TerminatorOk(UnitOf(u, labels, order), fr, b)
  {
    hide FrameFor, Compilable, IsBuild, InstOk, TargetOk, KeyOk, NamingOf, KeyOf, AllocatedOf, EntrySlots,
      CanRun, OrderOk, InstsOf, CopyingFor, Shares, ValidFunction, Shaped;
    FrameForBuild(u, fr);
    SourceBlock(u.w, b);
    CopyingIs(u.w, b);
    var last := LastOf(u.w.f.blocks[b]);
    if last.BranchInst? {
      TargetIsOk(u, labels, order, b, last.dst);
    } else if last.CondBranchInst? {
      TargetIsOk(u, labels, order, b, last.falseDst);
      TargetIsOk(u, labels, order, b, last.trueDst);
      ConditionKey(u, fr, b);
    } else {
      if Shares(u.w, b) {
        SharesAtBranch(u.w, b);
      }
      RetLocation(u, b);
    }
  }

  lemma BlockIsLowered(u: Build, labels: Labels, order: seq<BlockId>, b: BlockId)
    requires IsBuild(u) && b in u.w.f.blocks
    ensures BlockLowered(UnitOf(u, labels, order), b)
  {
    hide Compilable, IsBuild, NamesOf, NamingOf, KeyOf, AllocatedOf, EntrySlots, M.Body, Final, M.Front, M.Exit,
      M.CopiesIn, InstsOf, CutOf, CopyingFor, ValidFunction, Shaped, Cut, Shares;
    BuildSource(u);
    AllocatedBlock(u, b);
    BlockHeld(u.w, b);
    CopyingIs(u.w, b);
    RawParts(NamingOf(u), u.w, b);
  }

  lemma BuildSource(u: Build)
    requires IsBuild(u)
    ensures Compilable(u.w.f, u.w.at, u.w.base)
  {
  }

  lemma RawParts(n: Naming, w: Source, b: BlockId)
    requires b in w.f.blocks
    ensures Final(n, RawOf(w, b))
         == Final(n, BodyOf(w, b)) + (Final(n, EarlyOf(w, b)) + Final(n, FrontOf(w, b)) + Final(n, LateOf(w, b))
           + Final(n, [ExitOf(w, b)]))
  {
    hide Compilable, Final, BodyOf, EarlyOf, FrontOf, LateOf, ExitOf;
    var e, f, l, z := EarlyOf(w, b), FrontOf(w, b), LateOf(w, b), [ExitOf(w, b)];
    FinalAppend(n, BodyOf(w, b), e + f + l + z);
    FinalAppend(n, e + f + l, z);
    FinalAppend(n, e + f, l);
    FinalAppend(n, e, f);
  }

  // The block and those it leads to have labels.
  predicate LabelsServe(f: Function, labels: Labels, b: BlockId) {
    b in labels && b in f.blocks
      && (f.blocks[b] != [] ==> forall d :: d in InstTargets(LastOf(f.blocks[b])) ==> d in labels)
  }

  // The terminator can be emitted.
  lemma TerminatorEmittable(u: Build, fr: Frame, labels: Labels, b: BlockId)
    requires FrameFor(u, fr) && b in u.w.f.blocks && u.w.f.blocks[b] != [] && LabelsServe(u.w.f, labels, b)
    ensures IsBuild(u) && ListOk(fr.slots, labels, Final(NamingOf(u), FrontOf(u.w, b)))
    ensures ListOk(fr.slots, labels, Final(NamingOf(u), [ExitOf(u.w, b)]))
  {
    hide FrameFor, Compilable, IsBuild, InstOk, KeyOk, NamingOf, KeyOf, FrameOk, NamingOk, Final, CanEmit, ListOk,
      BodyOk, PhisOk, M.Front, M.Exit, Shares;
    FrameForBuild(u, fr);
    SourceBlock(u.w, b);
    BlockHeld(u.w, b);
    FrameIsOk(u, fr);
    BlockShaped(u, fr, b);
    var last, n := LastOf(u.w.f.blocks[b]), NamingOf(u);
    if last.BranchInst? {
      EdgeOfLast(u.w, b, last.dst);
      BranchListOk(fr.slots, labels, n, u.w.base, KeyOf(u.w, b), last);
    } else if last.CondBranchInst? {
      EdgeOfLast(u.w, b, last.falseDst);
      EdgeOfLast(u.w, b, last.trueDst);
      ConditionKey(u, fr, b);
      CondBranchEmitted(fr, n, labels, u.w.base, KeyOf(u.w, b), last, Shares(u.w, b));
    } else {
      RetLocation(u, b);
      RetEmitted(fr, n, labels, u.w.base, KeyOf(u.w, b), last);
    }
  }

  lemma BranchListOk(slots: Slots, labels: Labels, n: Naming, base: nat, key: Value, i: Inst)
    requires i.BranchInst? && i.dst in labels
    ensures ListOk(slots, labels, Final(n, M.Front(base, key, i)))
    ensures ListOk(slots, labels, Final(n, [M.Exit(base, key, i)]))
  {
    assert M.Front(base, key, i) == [] && M.Exit(base, key, i) == i;
    FinalNothing(n);
    FinalOne(n, i);
  }

  lemma ListOkJoin(slots: Slots, labels: Labels, a: Block, b: Block)
    requires ListOk(slots, labels, a) && ListOk(slots, labels, b)
    ensures ListOk(slots, labels, a + b)
  {
    hide CanEmit;
  }

  /** Every block can be emitted. */
  lemma BlockIsEmittable(u: Build, fr: Frame, labels: Labels, b: BlockId)
    requires FrameFor(u, fr) && b in u.w.f.blocks && LabelsServe(u.w.f, labels, b)
    ensures IsBuild(u) && BlockEmittable(AllocatedOf(u), fr.slots, labels, b)
  {
    hide FrameFor, Compilable, IsBuild, KeyOf, AllocatedOf, Final, CanEmit, NamingOf, BodyOf, EarlyOf, FrontOf, LateOf,
      ExitOf, RawOf;
    FrameForBuild(u, fr);
    BlockHeld(u.w, b);
    AllocatedBlock(u, b);
    RawEmittable(u, fr, labels, b);
    AllocsEmitNothing(fr.slots, labels, u.allocs, |u.allocs|);
    ListOkJoin(fr.slots, labels, if b == Entry(u.w.f) then A.AllocInsts(u.allocs) else [],
      Final(NamingOf(u), RawOf(u.w, b)));
  }

  lemma RawEmittable(u: Build, fr: Frame, labels: Labels, b: BlockId)
    requires FrameFor(u, fr) && b in u.w.f.blocks && LabelsServe(u.w.f, labels, b)
    ensures IsBuild(u) && ListOk(fr.slots, labels, Final(NamingOf(u), RawOf(u.w, b)))
  {
    hide FrameFor, Compilable, IsBuild, InstOk, KeyOf, FrameOk, NamingOk, Final, ListOk, M.Body, NamingOf, FrontOf,
      ExitOf, M.CopiesIn, InstsOf, CutOf, PhisDiffer, LabelsServe;
    FrameForBuild(u, fr);
    FrameIsOk(u, fr);
    BlockHeld(u.w, b);
    BlockShaped(u, fr, b);
    InstsAreOk(u, fr);
    var n, w, slots := NamingOf(u), u.w, fr.slots;
    BodyListOk(fr, n, labels, w.base, w.f.blocks[b], |w.f.blocks[b]| - 1);
    CopiesListOk(fr, n, labels, InstsOf(w.f), 0, CutOf(w.f, b), b);
    CopiesListOk(fr, n, labels, InstsOf(w.f), CutOf(w.f, b), |InstsOf(w.f)|, b);
    TerminatorEmittable(u, fr, labels, b);
    RawParts(n, w, b);
    var e, f, l, z := Final(n, EarlyOf(w, b)), Final(n, FrontOf(w, b)), Final(n, LateOf(w, b)),
      Final(n, [ExitOf(w, b)]);
    ListOkJoin(slots, labels, e, f);
    ListOkJoin(slots, labels, e + f, l);
    ListOkJoin(slots, labels, e + f + l, z);
    ListOkJoin(slots, labels, Final(n, BodyOf(w, b)), e + f + l + z);
  }

  /** After allocation no operand that is emitted is a virtual register. */
  lemma NoVirtualOperands(u: Build, b: BlockId, k: nat, v: Value)
    requires IsBuild(u) && b in AllocatedOf(u).blocks && k < |AllocatedOf(u).blocks[b]|
    requires v in UsedBy(AllocatedOf(u).blocks[b][k])
    ensures !v.Virt? && !v.Def? && (v.Alloc? ==> v.id in EntrySlots(u))
  {
    hide IsBuild, Compilable, AllocatedOf, HomesOf, VarsOf, EntrySlots;
    BuildSource(u);
    EntryHeld(u.w);
    AllocatedBlock(u, Entry(u.w.f));
    var labels: Labels := map d | d in u.w.f.blocks :: 0;
    var fr := Frame(0, 0, 0, EntrySlots(u), HomesOf(u), VarsOf(u.w));
    assert FrameFor(u, fr);
    BlockLabels(u, labels, b);
    BlockIsEmittable(u, fr, labels, b);
  }

  lemma BlockLabels(u: Build, labels: Labels, b: BlockId)
    requires IsBuild(u) && b in u.w.f.blocks && forall d :: d in u.w.f.blocks ==> d in labels
    ensures LabelsServe(u.w.f, labels, b)
  {
    hide Compilable, A.IsAssignment, LoweredOf;
    if u.w.f.blocks[b] != [] {
      forall d | d in InstTargets(LastOf(u.w.f.blocks[b]))
        ensures d in labels
      {
        EdgeOfLast(u.w, b, d);
      }
    }
  }

  // Labels for the blocks that can be run serve each of them.
  lemma RunLabels(w: Source, labels: Labels, b: BlockId)
    requires CanRun(w.f, b) && b in w.f.blocks && forall d :: CanRun(w.f, d) ==> d in labels
    ensures LabelsServe(w.f, labels, b)
  {
    hide Compilable, Reachable;
    if w.f.blocks[b] != [] {
      forall d | d in InstTargets(LastOf(w.f.blocks[b]))
        ensures d in labels
      {
        EdgeOfLast(w, b, d);
        ReachableStep(CfgOf(w.f), b, d);
        assert CanRun(w.f, d);
      }
    }
  }

  lemma InOrderRuns(w: Source, order: seq<BlockId>, b: BlockId)
    requires OrderOk(w, order) && b in order
    ensures CanRun(w.f, b)
  {
    hide Compilable;
  }

  lemma OrderLabels(w: Source, labels: Labels, order: seq<BlockId>, b: BlockId)
    requires OrderOk(w, order) && IsNumbering(labels, order) && b in order && b in w.f.blocks
    ensures CanRun(w.f, b) && LabelsServe(w.f, labels, b)
  {
    hide Compilable, CanRun, LabelsServe;
    RunLabels(w, labels, b);
  }

  lemma UnitBlockIsOk(u: Build, fr: Frame, labels: Labels, order: seq<BlockId>, b: BlockId)
    requires FrameFor(u, fr) && OrderOk(u.w, order) && IsNumbering(labels, order) && b in order
    ensures IsBuild(u) && b in u.w.f.blocks && u.w.f.blocks[b] != []
    ensures BlockEmittable(AllocatedOf(u), fr.slots, labels, b) && BlockWellShaped(fr, NamingOf(u), u.w.f.blocks[b])
    ensures BlockLowered(UnitOf(u, labels, order), b) && TerminatorOk(UnitOf(u, labels, order), fr, b)
  {
    hide FrameFor, Compilable, IsBuild, InstOk, KeyOf, AllocatedOf, NamingOf, BlockLowered, TerminatorOk,
      BlockEmittable, PhisOk, EntrySlots, PhisDiffer, CanRun, LabelsServe, OrderOk, IsNumbering;
    FrameForBuild(u, fr);
    EntryHeld(u.w);
    InOrderRuns(u.w, order, b);
    ReachableAreBlocks(u.w, b);
    OrderLabels(u.w, labels, order, b);
    BlockIsEmittable(u, fr, labels, b);
    BlockShaped(u, fr, b);
    BlockIsLowered(u, labels, order, b);
    TerminatorIsOk(u, fr, labels, order, b);
  }

  lemma UnitIsOk(u: Build, fr: Frame, labels: Labels, order: seq<BlockId>)
    requires FrameFor(u, fr) && OrderOk(u.w, order) && IsNumbering(labels, order)
    ensures IsBuild(u) && UnitOk(UnitOf(u, labels, order), fr)
  {
    hide FrameFor, Compilable, IsBuild, InstOk, KeyOf, AllocatedOf, FrameOk, NamingOk, NamingOf, BlockLowered,
      BlockWellShaped, TerminatorOk, BlockEmittable, PhisOk,
      EntrySlots, PhisDiffer;
    FrameForBuild(u, fr);
    FrameForSlots(u, fr);
    FrameIsOk(u, fr);
    EntryHeld(u.w);
    AllocatedBlock(u, Entry(u.w.f));
    InstsAreOk(u, fr);
    forall b | b in order
      ensures b in u.w.f.blocks && u.w.f.blocks[b] != []
      ensures BlockEmittable(AllocatedOf(u), fr.slots, labels, b) && BlockWellShaped(fr, NamingOf(u), u.w.f.blocks[b])
      ensures BlockLowered(UnitOf(u, labels, order), b) && TerminatorOk(UnitOf(u, labels, order), fr, b)
    {
      UnitBlockIsOk(u, fr, labels, order, b);
    }
  }

  lemma FrameForSlots(u: Build, fr: Frame)
    requires FrameFor(u, fr)
    ensures IsBuild(u) && fr.slots == EntrySlots(u)
  {
  }

  // ---- Allocs come before their uses

  // The allocs that a block uses are in the set or earlier in the block.
  ghost predicate UsesOk(b: Block, known: set<nat>) {
    forall k, v {:trigger v in UsedBy(b[k])} :: 0 <= k < |b| && v in UsedBy(b[k]) && v.Alloc? ==>
      v.id in known || v.id in AllocIds(b[..k])
  }

  lemma UsesAppend(a: Block, b: Block, known: set<nat>)
    requires UsesOk(a, known) && UsesOk(b, known + AllocIds(a))
    ensures UsesOk(a + b, known)
  {
    var c := a + b;
    forall k, v | 0 <= k < |c| && v in UsedBy(c[k]) && v.Alloc?
      ensures v.id in known || v.id in AllocIds(c[..k])
    {
      if k < |a| {
        assert c[k] == a[k] && c[..k] == a[..k];
      } else {
        assert c[k] == b[k - |a|] && c[..k] == a + b[..k - |a|];
        AllocIdsAppend(a, b[..k - |a|]);
      }
    }
  }

  ghost predicate IsKnown(n: Naming, v: Value, known: set<nat>) {
    FinalValue(n, v).Alloc? ==> FinalValue(n, v).id in known
  }

  lemma UsesFinal(n: Naming, list: Block, known: set<nat>)
    requires forall k, v {:trigger v in UsedBy(list[k])} :: 0 <= k < |list| && v in UsedBy(list[k]) ==>
        IsKnown(n, v, known)
    ensures UsesOk(Final(n, list), known)
  {
    hide FinalValue;
    var r := Final(n, list);
    forall k, v | 0 <= k < |r| && v in UsedBy(r[k]) && v.Alloc?
      ensures v.id in known
    {
      assert r[k] == FinalInst(n, list[k]);
      UsedFinal(n, list[k], v, known);
    }
  }

  lemma UsedFinal(n: Naming, i: Inst, v: Value, known: set<nat>)
    requires v in UsedBy(FinalInst(n, i)) && v.Alloc? && forall u :: u in UsedBy(i) ==> IsKnown(n, u, known)
    ensures v.id in known
  {
    if i.BinaryInst? || i.CompareInst? {
      assert IsKnown(n, i.lhs, known) && IsKnown(n, i.rhs, known);
    } else if i.CondBranchInst? {
      assert IsKnown(n, i.cond, known);
    } else if i.MoveInst? {
      assert IsKnown(n, i.dstVal, known) && IsKnown(n, i.val, known);
    }
  }

  ghost function AllocSet(u: Build): set<nat> {
    set a | a in u.allocs
  }

  lemma OperandIsKnown(u: Build, fr: Frame, v: Value, known: set<nat>)
    requires FrameFor(u, fr) && IsOperand(fr, v) && AllocSet(u) <= known
    ensures IsBuild(u) && IsKnown(NamingOf(u), v, known)
  {
    hide EntrySlots, VarsOf, NamesOf, HomeOf, Compilable, A.IsAssignment;
    if v.Def? {
      assert IsHome(u, v.id, fr.homes[v.id]);
    }
  }

  // The register of a result.
  lemma NameIsKnown(u: Build, fr: Frame, p: Pos, known: set<nat>)
    requires FrameFor(u, fr) && Within(u.w.f, p) && DefinesValue(InstAt(u.w.f, p)) && AllocSet(u) <= known
    ensures IsBuild(u) && IsKnown(NamingOf(u), Virt(M.NameOf(InstAt(u.w.f, p))), known)
  {
    hide EntrySlots, VarsOf, NamesOf, HomeOf, Compilable, A.IsAssignment;
    ResultKnown(u.w, p);
    assert IsHome(u, InstAt(u.w.f, p).id, fr.homes[InstAt(u.w.f, p).id]);
  }

  lemma PhysIsKnown(n: Naming, r: nat, known: set<nat>)
    ensures IsKnown(n, Phys(r), known)
  {
  }

  // The variables declared before the instruction at k of the entry block.
  lemma VarIsKnown(u: Build, v: Value, p: Pos, known: set<nat>)
    requires IsBuild(u) && Within(u.w.f, p) && |u.w.f.order| > 0 && p.block == Entry(u.w.f) && IsVar(u.w.f, v, p)
    requires AllocIds(u.w.f.blocks[p.block][..p.index]) <= known
    ensures IsKnown(NamingOf(u), v, known)
  {
    hide Compilable, A.IsAssignment, NamesOf, IsBuild;
    var k: nat :| DeclaredAt(u.w.f, v.id, k) && k < p.index;
    assert u.w.f.blocks[p.block][..p.index][k] == AllocInst(v.id);
    assert v.id in AllocIds(u.w.f.blocks[p.block][..p.index]);
  }

  lemma LoweredUses(u: Build, fr: Frame, p: Pos, known: set<nat>)
    requires FrameFor(u, fr) && Within(u.w.f, p) && |u.w.f.order| > 0 && p.block == Entry(u.w.f)
    requires !IsTerminator(InstAt(u.w.f, p))
    requires AllocSet(u) <= known && AllocIds(u.w.f.blocks[p.block][..p.index]) <= known
    ensures IsBuild(u) && UsesOk(Final(NamingOf(u), M.LowerInst(u.w.base, InstAt(u.w.f, p))), known)
  {
    hide FrameFor, IsBuild, Compilable, NamingOf, IsKnown, IsOperand, IsVariable, AllocSet, Final, UsesOk;
    FrameForBuild(u, fr);
    SourceClass(u.w, p);
    InstIsOk(u, fr, p);
    var i, n := InstAt(u.w.f, p), NamingOf(u);
    PhysIsKnown(n, 0, known);
    PhysIsKnown(n, 1, known);
    if DefinesValue(i) {
      NameIsKnown(u, fr, p, known);
    }
    if i.BinaryInst? || i.CompareInst? {
      OperandIsKnown(u, fr, i.lhs, known);
      OperandIsKnown(u, fr, i.rhs, known);
    } else if i.LoadInst? {
      VarIsKnown(u, i.ptr, p, known);
    } else if i.StoreInst? {
      VarIsKnown(u, i.ptr, p, known);
      OperandIsKnown(u, fr, i.val, known);
    }
    UsesFinal(n, M.LowerInst(u.w.base, i), known);
  }

  lemma NoUses(known: set<nat>)
    ensures UsesOk([], known)
  {
  }

  lemma {:induction false} BodyUses(u: Build, fr: Frame, b: BlockId, m: nat)
    requires FrameFor(u, fr) && |u.w.f.order| > 0 && b == Entry(u.w.f) && b in u.w.f.blocks && m < |u.w.f.blocks[b]|
    ensures IsBuild(u) && UsesOk(Final(NamingOf(u), M.Body(u.w.base, u.w.f.blocks[b], m)), AllocSet(u))
  {
    hide FrameFor, IsBuild, Compilable, NamingOf, AllocSet, Final, UsesOk, M.LowerInst, AllocIds, AllocsDiffer;
    FrameForBuild(u, fr);
    var n, block := NamingOf(u), u.w.f.blocks[b];
    SourceBlock(u.w, b);
    if m == 0 {
      FinalNothing(n);
      NoUses(AllocSet(u));
    } else {
      BodyUses(u, fr, b, m - 1);
      var body, inst := M.Body(u.w.base, block, m - 1), M.LowerInst(u.w.base, block[m - 1]);
      AllocsOfBody(u.w.base, block, m - 1);
      AllocsFinal(n, body);
      LoweredUses(u, fr, Pos(b, m - 1), AllocSet(u) + AllocIds(block[..m - 1]));
      UsesAppend(Final(n, body), Final(n, inst), AllocSet(u));
      FinalAppend(n, body, inst);
    }
  }

  lemma {:induction false} CopiesUse(u: Build, fr: Frame, i: nat, m: nat, b: BlockId, known: set<nat>)
    requires FrameFor(u, fr) && M.Ordered(u.w.f) && i <= m <= |InstsOf(u.w.f)| && AllocSet(u) <= known
    ensures IsBuild(u) && UsesOk(Final(NamingOf(u), M.CopiesIn(InstsOf(u.w.f), i, m, b)), known)
    decreases m
  {
    hide FrameFor, IsBuild, Compilable, NamingOf, AllocSet, Final, UsesOk, M.PhiCopy, AllocIds, InstsUpTo;
    FrameForBuild(u, fr);
    var n, all := NamingOf(u), InstsOf(u.w.f);
    if m == i {
      FinalNothing(n);
      NoUses(known);
    } else {
      CopiesUse(u, fr, i, m - 1, b, known);
      var p := InstFrom(u.w.f, |u.w.f.order|, m - 1);
      CopyUses(u, fr, p, b, known);
      UsesBoth(Final(n, M.CopiesIn(all, i, m - 1, b)), Final(n, M.PhiCopy(all[m - 1], b)), known);
      FinalAppend(n, M.CopiesIn(all, i, m - 1, b), M.PhiCopy(all[m - 1], b));
    }
  }

  lemma UsesBoth(a: Block, b: Block, known: set<nat>)
    requires UsesOk(a, known) && UsesOk(b, known)
    ensures UsesOk(a + b, known)
  {
    hide UsesOk, AllocIds;
    MoreKnown(b, known, known + AllocIds(a));
    UsesAppend(a, b, known);
  }

  lemma MoreKnown(b: Block, known: set<nat>, more: set<nat>)
    requires UsesOk(b, known) && known <= more
    ensures UsesOk(b, more)
  {
  }

  lemma CopyUses(u: Build, fr: Frame, p: Pos, b: BlockId, known: set<nat>)
    requires FrameFor(u, fr) && Within(u.w.f, p) && AllocSet(u) <= known
    ensures IsBuild(u) && UsesOk(Final(NamingOf(u), M.PhiCopy(InstAt(u.w.f, p), b)), known)
  {
    hide FrameFor, IsBuild, Compilable, NamingOf, IsKnown, IsOperand, AllocSet, Final, UsesOk;
    FrameForBuild(u, fr);
    InstIsOk(u, fr, p);
    var i, n := InstAt(u.w.f, p), NamingOf(u);
    if IsCopy(i, b) {
      NameIsKnown(u, fr, p, known);
      OperandIsKnown(u, fr, i.incoming[b], known);
    }
    UsesFinal(n, M.PhiCopy(i, b), known);
  }

  lemma RegisterIsKnown(u: Build, name: VirtName, known: set<nat>)
    requires IsBuild(u) && A.Written(LoweredOf(u.w), name) && !name.RetReg? && AllocSet(u) <= known
    ensures IsKnown(NamingOf(u), Virt(name), known)
  {
    hide Compilable, LoweredOf, A.Written, A.IsAssignment;
    RegisterSlot(u, name);
  }

  lemma RetIsKnown(u: Build, b: BlockId, known: set<nat>)
    requires IsBuild(u) && b in u.w.f.blocks && u.w.f.blocks[b] != [] && LastOf(u.w.f.blocks[b]).RetInst?
    ensures IsKnown(NamingOf(u), Virt(RetReg(LastOf(u.w.f.blocks[b]).id)), known)
  {
    hide Compilable, IsBuild, NamingOf;
    RetLocation(u, b);
  }

  lemma LastUses(u: Build, fr: Frame, b: BlockId, known: set<nat>)
    requires FrameFor(u, fr) && b in u.w.f.blocks && u.w.f.blocks[b] != [] && AllocSet(u) <= known
    ensures IsBuild(u) && UsesOk(Final(NamingOf(u), FrontOf(u.w, b)), known)
    ensures UsesOk(Final(NamingOf(u), [ExitOf(u.w, b)]), known)
  {
    hide FrameFor, IsBuild, Compilable, NamingOf, IsKnown, IsOperand, AllocSet, Final, UsesOk, KeyOf, M.Front, M.Exit,
      A.Written, LoweredOf;
    FrameForBuild(u, fr);
    BlockHeld(u.w, b);
    var last, n := LastOf(u.w.f.blocks[b]), NamingOf(u);
    InstIsOk(u, fr, Pos(b, |u.w.f.blocks[b]| - 1));
    if last.CondBranchInst? {
      KeyWritten(u.w, b);
      RegisterIsKnown(u, Keyed(KeyOf(u.w, b)), known);
      OperandIsKnown(u, fr, last.cond, known);
    } else if last.RetInst? {
      RetIsKnown(u, b, known);
      OperandIsKnown(u, fr, last.retVal, known);
    }
    TerminatorUses(n, u.w.base, KeyOf(u.w, b), last, known);
  }

  lemma TerminatorUses(n: Naming, base: nat, key: Value, i: Inst, known: set<nat>)
    requires IsTerminator(i)
    requires i.CondBranchInst? ==> IsKnown(n, Virt(Keyed(key)), known) && IsKnown(n, i.cond, known)
    requires i.RetInst? ==> IsKnown(n, Virt(RetReg(i.id)), known) && IsKnown(n, i.retVal, known)
    ensures UsesOk(Final(n, M.Front(base, key, i)), known) && UsesOk(Final(n, [M.Exit(base, key, i)]), known)
  {
    hide IsKnown, Final, UsesOk;
    UsesFinal(n, M.Front(base, key, i), known);
    UsesFinal(n, [M.Exit(base, key, i)], known);
  }

  lemma RawUses(u: Build, fr: Frame, b: BlockId)
    requires FrameFor(u, fr) && |u.w.f.order| > 0 && b == Entry(u.w.f) && b in u.w.f.blocks && u.w.f.blocks[b] != []
    ensures IsBuild(u) && UsesOk(Final(NamingOf(u), RawOf(u.w, b)), AllocSet(u))
  {
    hide FrameFor, IsBuild, Compilable, NamingOf, AllocSet, Final, UsesOk, KeyOf, M.Body, FrontOf, ExitOf, M.CopiesIn,
      InstsOf, CutOf, AllocIds;
    FrameForBuild(u, fr);
    BlockHeld(u.w, b);
    var n, w, known := NamingOf(u), u.w, AllocSet(u);
    BodyUses(u, fr, b, |w.f.blocks[b]| - 1);
    CopiesUse(u, fr, 0, CutOf(w.f, b), b, known);
    CopiesUse(u, fr, CutOf(w.f, b), |InstsOf(w.f)|, b, known);
    LastUses(u, fr, b, known);
    RawParts(n, w, b);
    var e, f, l, z := Final(n, EarlyOf(w, b)), Final(n, FrontOf(w, b)), Final(n, LateOf(w, b)),
      Final(n, [ExitOf(w, b)]);
    UsesBoth(e, f, known);
    UsesBoth(e + f, l, known);
    UsesBoth(e + f + l, z, known);
    UsesBoth(Final(n, BodyOf(w, b)), e + f + l + z, known);
  }

  lemma AllocsUseNothing(allocs: seq<nat>)
    ensures UsesOk(A.AllocInsts(allocs), {})
  {
  }

  lemma EntryUses(u: Build, fr: Frame, b: Block)
    requires FrameFor(u, fr) && |u.w.f.order| > 0 && Entry(u.w.f) in AllocatedOf(u).blocks
    requires b == AllocatedOf(u).blocks[Entry(u.w.f)]
    ensures EntryAllocs(b)
  {
    hide FrameFor, IsBuild, Compilable, NamingOf, Final, KeyOf, AllocIds, AllocatedOf, RawOf, SlotsOf, VarsOf;
    FrameForBuild(u, fr);
    EntryHeld(u.w);
    var e := Entry(u.w.f);
    AllocatedBlock(u, e);
    RawUses(u, fr, e);
    AllocsUseNothing(u.allocs);
    FreshAllocSet(u);
    UsesAppend(A.AllocInsts(u.allocs), Final(NamingOf(u), RawOf(u.w, e)), {});
    EntryAllocIds(u, b);
    forall k, v | 0 <= k < |b| && v in UsedBy(b[k]) && v.Alloc?
      ensures v.id in SlotsOf(b, k)
    {
      SlotsShape(b, k);
    }
  }

  lemma FreshAllocSet(u: Build)
    requires IsBuild(u)
    ensures AllocSet(u) == {} + AllocIds(A.AllocInsts(u.allocs))
  {
    FreshAllocs(u.allocs, u.w.base);
  }

  lemma AllocsOnlyInEntry(u: Build, b: BlockId, k: nat)
    requires IsBuild(u) && b in AllocatedOf(u).blocks && k < |AllocatedOf(u).blocks[b]|
    requires AllocatedOf(u).blocks[b][k].AllocInst?
    ensures |u.w.f.order| > 0 && b == Entry(u.w.f)
  {
    hide IsBuild, Compilable, NamingOf, Final, KeyOf, AllocatedOf, RawOf, AllocsDiffer;
    BuildSource(u);
    EntryHeld(u.w);
    AllocatedBlock(u, Entry(u.w.f));
    if b != Entry(u.w.f) {
      AllocatedBlock(u, b);
      var raw := RawOf(u.w, b);
      AllocsOfRaw(u.w, b);
      AllocsFinal(NamingOf(u), raw);
      var block := AllocatedOf(u).blocks[b];
      assert block == Final(NamingOf(u), raw);
      assert block[k].id in AllocIds(block);
      VarsBelow(u.w, b, block[k].id);
    }
  }

  /** Allocs are where emission expects them. */
  lemma AllocsAreFirst(u: Build, fr: Frame)
    requires FrameFor(u, fr)
    ensures IsBuild(u) && |AllocatedOf(u).order| > 0 && AllocsFirst(AllocatedOf(u))
    ensures Entry(AllocatedOf(u)) == Entry(u.w.f)
  {
    hide FrameFor, IsBuild, Compilable, AllocatedOf, EntryAllocs;
    FrameForBuild(u, fr);
    EntryHeld(u.w);
    AllocatedBlock(u, Entry(u.w.f));
    EntryUses(u, fr, AllocatedOf(u).blocks[Entry(u.w.f)]);
    forall b, k | b in AllocatedOf(u).blocks && 0 <= k < |AllocatedOf(u).blocks[b]|
      && AllocatedOf(u).blocks[b][k].AllocInst?
      ensures b == Entry(u.w.f)
    {
      AllocsOnlyInEntry(u, b, k);
    }
  }

  // ---- The whole backend

  // The frame of a call in the given machine state.
  ghost function CallFrame(u: Build, m: Machine): Frame
    requires IsBuild(u)
  {
    Frame(EvalBinary(Sub, m.regs[RSP], 8), m.regs[RBP], Read64(m.mem, m.regs[RSP]), EntrySlots(u), HomesOf(u),
      VarsOf(u.w))
  }

  /** A call of the program returns v: rax holds v, rbp is the caller's, control goes to the
      return address, and rsp is just above where that was. */
  ghost predicate CallReturns(code: Program, m: Machine, v: Word) {
    exists k :: ReturnedAfter(code, m, v, k)
  }

  ghost predicate ReturnedAfter(code: Program, m: Machine, v: Word, k: nat) {
    var s := Steps(code, At(0, m), k);
    && s.Returned? && s.returnTo == Read64(m.mem, m.regs[RSP])
    && s.m.regs[RAX] == v && s.m.regs[RBP] == m.regs[RBP] && s.m.regs[RSP] == EvalBinary(Add, m.regs[RSP], 8)
  }

  // A call returns one value.
  lemma ReturnsOnce(code: Program, m: Machine, v: Word, w: Word)
    requires CallReturns(code, m, v) && CallReturns(code, m, w)
    ensures v == w
  {
    hide Steps;
    var j: nat :| ReturnedAfter(code, m, v, j);
    var k: nat :| ReturnedAfter(code, m, w, k);
    if j <= k {
      StaysReturned(code, At(0, m), j, k);
    } else {
      StaysReturned(code, At(0, m), k, j);
    }
  }

  lemma StaysReturned(code: Program, s: Status, j: nat, k: nat)
    requires j <= k && Steps(code, s, j).Returned?
    ensures Steps(code, s, k) == Steps(code, s, j)
  {
    StepsAppend(code, s, j, k - j);
  }

  lemma ReturnsToCaller(u: Build, m: Machine, v: Word, code: Program, k: nat)
    requires IsBuild(u) && ReturnsTo(CallFrame(u, m), v, Steps(code, At(0, m), k))
    ensures CallReturns(code, m, v)
  {
    hide IsBuild, EntrySlots, HomesOf, VarsOf, Steps;
    assert ReturnedAfter(code, m, v, k);
  }

  // Every run that returns and only compares small values is matched by a call that returns.
  ghost predicate KeepsMeaning(f: Function, code: Program) {
    forall mem: Memory, n: nat, m: Machine {:trigger SameResult(f, code, mem, n, m)} :: SameResult(f, code, mem, n, m)
  }

  ghost predicate SameResult(f: Function, code: Program, mem: Memory, n: nat, m: Machine) {
    |f.order| > 0 && SmallRun(f, CallStart(f, mem), n) && Run(f, CallStart(f, mem), n).Return? ==>
      CallReturns(code, m, Run(f, CallStart(f, mem), n).word)
  }

  // The same for runs in which phis are copies at the ends of the blocks they have values for.
  ghost predicate FollowsCopies(f: Function, code: Program) {
    forall mem: Memory, n: nat, m: Machine {:trigger SameAsCopies(f, code, mem, n, m)} ::
      SameAsCopies(f, code, mem, n, m)
  }

  ghost predicate SameAsCopies(f: Function, code: Program, mem: Memory, n: nat, m: Machine) {
    ValidFunction(f) && Shaped(f) && SmallCopyRun(f, CopyingFor(f), CallStart(f, mem), n)
      && RunCopies(f, CopyingFor(f), CallStart(f, mem), n).Return? ==>
      CallReturns(code, m, RunCopies(f, CopyingFor(f), CallStart(f, mem), n).word)
  }

  lemma OnlyVariables(w: Source)
    ensures NoMemory(w.f)
  {
    hide Compilable;
    EntryHeld(w);
    forall p | Within(w.f, p)
      ensures OnVariables(InstAt(w.f, p))
    {
      SourceClass(w, p);
    }
  }

  lemma CopiesFollowed(u: Build, labels: Labels, order: seq<BlockId>, code: Program, mem: Memory, n: nat, m: Machine)
    requires IsBuild(u) && OrderOk(u.w, order) && IsNumbering(labels, order) && 8 * |EntrySlots(u)| <= 0x8000_0000
    requires LayoutOk(UnitOf(u, labels, order).l) && code == CodeOf(UnitOf(u, labels, order).l)
    ensures SameAsCopies(u.w.f, code, mem, n, m)
  {
    hide IsBuild, Compilable, EntrySlots, HomesOf, VarsOf, UnitOk, LayoutOk, CodeOf, AllocatedOf, RunCopies,
      SmallCopyRun, NamingOf, KeyOf, ReturnsTo, CallReturns, CopyingFor, NoMemory, ValidFunction, Shaped;
    BuildSource(u);
    SourceShaped(u.w);
    EntryHeld(u.w);
    AllocatedBlock(u, Entry(u.w.f));
    var fr := CallFrame(u, m);
    assert FrameFor(u, fr);
    FrameSlots(u, fr);
    var unit := UnitOf(u, labels, order);
    UnitIsOk(u, fr, labels, order);
    OnlyVariables(u.w);
    assert FrameOf(fr, m);
    var c := CopyingFor(u.w.f);
    if SmallCopyRun(u.w.f, c, CallStart(u.w.f, mem), n) && RunCopies(u.w.f, c, CallStart(u.w.f, mem), n).Return? {
      var k := ProgramReturns(unit, fr, m, mem, n);
      ReturnsToCaller(u, m, RunCopies(u.w.f, c, CallStart(u.w.f, mem), n).word, code, k);
    }
  }

  /** Code that follows the copies keeps the meaning of a function in which these are right. */
  lemma MeaningKept(w: Source, code: Program)
    requires FollowsCopies(w.f, code) && ValidFunction(w.f) && Shaped(w.f) && CopiesHarmless(w.f)
    ensures KeepsMeaning(w.f, code)
  {
    hide Compilable, FollowsCopies, Run, SmallRun, RunCopies, SmallCopyRun, CopyingFor, CallReturns, CopiesHarmless,
      Served, KeepOf, ValidFunction, Shaped;
    EntryHeld(w);
    SourceValid(w);
    forall mem: Memory, n: nat, m: Machine
      ensures SameResult(w.f, code, mem, n, m)
    {
      if SmallRun(w.f, CallStart(w.f, mem), n) && Run(w.f, CallStart(w.f, mem), n).Return? {
        CopiesServe(w.f, w.at);
        EntryKept(w.f, w.at);
        var start := CallStart(w.f, mem);
        ReturnKept(w.f, CopyingFor(w.f), KeepOf(w.f, w.at), start, start, n);
        FollowedAt(w.f, code, mem, n, m);
      }
    }
  }

  lemma FollowedAt(f: Function, code: Program, mem: Memory, n: nat, m: Machine)
    requires FollowsCopies(f, code)
    ensures SameAsCopies(f, code, mem, n, m)
  {
  }

  // Whatever the machine holds and however long the code runs.
  ghost predicate KeepsFrames(code: Program, size: nat) {
    forall m: Machine, k: nat {:trigger CallSafe(code, size, m, k)} :: CallSafe(code, size, m, k)
  }

  // The code never comes back to its start.
  ghost predicate AlwaysInFrame(code: Program, size: nat) {
    forall m: Machine, k: nat {:trigger FrameSafe(code, size, m, k)} :: FrameSafe(code, size, m, k)
  }

  lemma FrameOfCall(u: Build, fr: Frame, m: Machine)
    requires IsBuild(u) && fr == CallFrame(u, m) && 8 * |EntrySlots(u)| <= 0x8000_0000
    ensures FrameFor(u, fr) && FrameOf(fr, m) && FrameFits(fr, 8 * |EntrySlots(u)|)
  {
    hide IsBuild, Compilable, EntrySlots, HomesOf, VarsOf, NamingOf, FrameOk, NamingOk;
    FrameSlots(u, fr);
    FrameIsOk(u, fr);
  }

  lemma OrderStarts(w: Source, order: seq<BlockId>)
    requires OrderOk(w, order)
    ensures |w.f.order| > 0 && order != [] && order[0] == Entry(w.f)
  {
  }

  lemma FramesKept(u: Build, labels: Labels, order: seq<BlockId>, code: Program, m: Machine, k: nat)
    requires IsBuild(u) && OrderOk(u.w, order) && IsNumbering(labels, order) && 8 * |EntrySlots(u)| <= 0x8000_0000
    requires LayoutOk(UnitOf(u, labels, order).l) && code == CodeOf(UnitOf(u, labels, order).l)
    ensures CallSafe(code, 8 * |EntrySlots(u)|, m, k)
    ensures ValidFunction(u.w.f) && EntryNotTarget(u.w.f) ==> FrameSafe(code, 8 * |EntrySlots(u)|, m, k)
  {
    hide IsBuild, Compilable, EntrySlots, HomesOf, VarsOf, UnitOk, LayoutOk, CodeOf, AllocatedOf, NamingOf, KeyOf,
      FrameSafe, CallSafe, FrameFits, FrameOf, IsNumbering, CallFrame, FrameFor, TargetsFrom, EntryNotTarget,
      ValidFunction, InstsOf, OrderOk;
    BuildSource(u);
    EntryHeld(u.w);
    AllocatedBlock(u, Entry(u.w.f));
    var fr := CallFrame(u, m);
    FrameOfCall(u, fr, m);
    UnitIsOk(u, fr, labels, order);
    OrderStarts(u.w, order);
    if ValidFunction(u.w.f) && EntryNotTarget(u.w.f) {
      TargetsLater(u, labels, order);
    }
    CodeIsFrameSafe(UnitOf(u, labels, order), fr, 8 * |EntrySlots(u)|, m, k);
  }

  lemma {:induction false} WalkStays(w: Source, p: seq<Vertex>, k: nat)
    requires IsWalk(CfgOf(w.f), p) && p[0] in w.f.blocks && k < |p|
    ensures p[k] in w.f.blocks
  {
    hide Compilable;
    EntryHeld(w);
    if k > 0 {
      assert HasEdge(CfgOf(w.f), p[k - 1], p[k - 1 + 1]);
      TargetOfLast(w, p[k - 1], p[k]);
    }
  }

  // Only blocks of the function can be run.
  lemma ReachableAreBlocks(w: Source, b: BlockId)
    ensures |w.f.order| > 0 && M.Ordered(w.f) && (Reachable(CfgOf(w.f), b) <==> CanRun(w.f, b))
    ensures CanRun(w.f, b) ==> b in w.f.blocks
  {
    hide Compilable;
    EntryHeld(w);
    if Reachable(CfgOf(w.f), b) {
      var p :| IsPath(CfgOf(w.f), p, b);
      WalkStays(w, p, |p| - 1);
    }
  }

  lemma EmissionReady(u: Build)
    requires IsBuild(u)
    ensures |AllocatedOf(u).order| > 0 && AllocsFirst(AllocatedOf(u)) && Entry(AllocatedOf(u)) == Entry(u.w.f)
    ensures EntrySlots(u) == SlotsOf(AllocatedOf(u).blocks[Entry(u.w.f)], |AllocatedOf(u).blocks[Entry(u.w.f)]|)
    ensures |u.w.f.order| > 0 && M.Ordered(u.w.f) && ReachableEmittable(AllocatedOf(u), EntrySlots(u), CfgOf(u.w.f))
  {
    hide IsBuild, Compilable, AllocatedOf, BlockEmittable, HomesOf, VarsOf, CanRun, LabelsServe;
    BuildSource(u);
    EntryHeld(u.w);
    var fr := Frame(0, 0, 0, EntrySlots(u), HomesOf(u), VarsOf(u.w));
    assert FrameFor(u, fr);
    AllocsAreFirst(u, fr);
    forall labels: Labels, b | (forall v :: v in labels <==> Reachable(CfgOf(u.w.f), v)) && b in labels
      ensures BlockEmittable(AllocatedOf(u), EntrySlots(u), labels, b)
    {
      forall v
        ensures (v in labels <==> CanRun(u.w.f, v)) && (v in labels ==> v in u.w.f.blocks)
      {
        ReachableAreBlocks(u.w, v);
      }
      RunLabels(u.w, labels, b);
      BlockIsEmittable(u, fr, labels, b);
    }
  }

  lemma OrderIsOk(w: Source, order: seq<BlockId>, post: seq<BlockId>)
    requires |w.f.order| > 0 && M.Ordered(w.f) && DepthFirstSearch.IsSearchOf(CfgOf(w.f), order, post)
    ensures OrderOk(w, order)
  {
    hide Compilable;
    EntryHeld(w);
    forall b
      ensures b in order <==> CanRun(w.f, b)
    {
      ReachableAreBlocks(w, b);
    }
  }

  // The emitted code is that of the layout, and keeps the meaning of the function.
  lemma CodeKeepsMeaning(u: Build, labels: Labels, order: seq<BlockId>, code: Program)
    requires IsBuild(u) && OrderOk(u.w, order) && IsNumbering(labels, order)
    requires |AllocatedOf(u).order| > 0
    requires forall b :: b in order ==> BlockEmittable(AllocatedOf(u), EntrySlots(u), labels, b)
    requires code == Code(AllocatedOf(u), EntrySlots(u), labels, order, |order|)
    ensures LabelsResolve(code)
    ensures 8 * |EntrySlots(u)| <= 0x8000_0000 ==> Faithful(u.w.f, code, 8 * |EntrySlots(u)|)
  {
    hide IsBuild, Compilable, AllocatedOf, EntrySlots, OrderOk, BlockEmittable, IsNumbering, SameAsCopies, FrameSafe,
      CallSafe, LabelsResolve, NamingOf, KeyOf, CopiesHarmless, KeepsMeaning, EntryNotTarget, ValidFunction, Shaped,
      CopyingFor;
    BuildSource(u);
    var l := UnitOf(u, labels, order).l;
    assert LayoutOk(l);
    AllLabelsResolve(l);
    if 8 * |EntrySlots(u)| <= 0x8000_0000 {
      forall mem: Memory, n: nat, m: Machine
        ensures SameAsCopies(u.w.f, code, mem, n, m)
      {
        CopiesFollowed(u, labels, order, code, mem, n, m);
      }
      forall m: Machine, k: nat
        ensures CallSafe(code, 8 * |EntrySlots(u)|, m, k)
        ensures ValidFunction(u.w.f) && EntryNotTarget(u.w.f) ==> FrameSafe(code, 8 * |EntrySlots(u)|, m, k)
      {
        FramesKept(u, labels, order, code, m, k);
      }
      SourceShaped(u.w);
      if CopiesHarmless(u.w.f) {
        MeaningKept(u.w, code);
      }
    }
  }

  /** What the code promises: its calls return what the function with copies for phis returns, and that is what the
      function returns where the copies are right; each call keeps to its frame for as long as control does not come
      back to the start, and returns into the caller exactly when it never has; and where no edge leads to the entry
      it never does. */
  ghost predicate Faithful(f: Function, code: Program, size: nat) {
    && FollowsCopies(f, code) && KeepsFrames(code, size)
    && (ValidFunction(f) && Shaped(f) && CopiesHarmless(f) ==> KeepsMeaning(f, code))
    && (ValidFunction(f) && EntryNotTarget(f) ==> AlwaysInFrame(code, size))
  }

  // ---- The size of the frame

  /** The instructions that may take a slot: variables, results, and conditions. */
  predicate TakesSlot(i: Inst) {
    i.AllocInst? || i.BinaryInst? || i.CompareInst? || i.LoadInst? || i.PhiInst? || i.CondBranchInst?
  }

  ghost function Takers(f: Function): set<Pos> {
    set b, k | b in f.blocks && 0 <= k < |f.blocks[b]| && TakesSlot(f.blocks[b][k]) :: Pos(b, k)
  }

  // The instruction at p is why the register is there.
  ghost predicate Names(w: Source, p: Pos, name: VirtName) {
    p in Takers(w.f) && Within(w.f, p)
      && (if InstAt(w.f, p).CondBranchInst? then name == Keyed(KeyOf(w, p.block))
          else DefinesValue(InstAt(w.f, p)) && name == M.NameOf(InstAt(w.f, p)))
  }

  lemma TakersAt(f: Function, p: Pos)
    requires Within(f, p) && TakesSlot(InstAt(f, p))
    ensures p in Takers(f)
  {
    assert p == Pos(p.block, p.index);
  }

  lemma WriteUnrenamed(s: Subst, b: Block, name: VirtName)
    requires HasWrite(RenameBlock(s, b), name) && MovesOk(b)
    ensures HasWrite(b, name)
  {
    var k :| 0 <= k < |b| && A.Writes(RenameBlock(s, b)[k], name);
    assert A.Writes(b[k], name);
  }

  lemma WriteSplit(a: Block, b: Block, name: VirtName)
    requires HasWrite(a + b, name)
    ensures HasWrite(a, name) || HasWrite(b, name)
  {
    var k :| 0 <= k < |a + b| && A.Writes((a + b)[k], name);
    if k < |a| {
      assert A.Writes(a[k], name);
    } else {
      assert A.Writes(b[k - |a|], name);
    }
  }

  lemma LoweredWritesOnly(w: Source, b: BlockId, k: nat, name: VirtName)
    requires b in w.f.blocks && k < |w.f.blocks[b]| - 1 && HasWrite(M.LowerInst(w.base, w.f.blocks[b][k]), name)
    ensures Names(w, Pos(b, k), name)
  {
    hide Compilable, KeyOf, Takers;
    EntryHeld(w);
    SourceBlock(w, b);
    BlockHeld(w, b);
    SourceClass(w, Pos(b, k));
    if TakesSlot(w.f.blocks[b][k]) {
      TakersAt(w.f, Pos(b, k));
    }
  }

  lemma {:induction false} BodyWritesOnly(w: Source, b: BlockId, m: nat, name: VirtName) returns (p: Pos)
    requires b in w.f.blocks && m < |w.f.blocks[b]| && HasWrite(M.Body(w.base, w.f.blocks[b], m), name)
    ensures Names(w, p, name)
    decreases m
  {
    hide Compilable, HasWrite, Names, M.LowerInst;
    if m == 0 {
      NothingWritten(name);
      assert false;
    }
    WriteSplit(M.Body(w.base, w.f.blocks[b], m - 1), M.LowerInst(w.base, w.f.blocks[b][m - 1]), name);
    if HasWrite(M.Body(w.base, w.f.blocks[b], m - 1), name) {
      p := BodyWritesOnly(w, b, m - 1, name);
    } else {
      LoweredWritesOnly(w, b, m - 1, name);
      p := Pos(b, m - 1);
    }
  }

  lemma NothingWritten(name: VirtName)
    ensures !HasWrite([], name)
  {
  }

  lemma {:induction false} CopiesWriteOnly(d: Block, i: nat, m: nat, b: BlockId, name: VirtName) returns (k: nat)
    requires i <= m <= |d| && HasWrite(M.CopiesIn(d, i, m, b), name)
    ensures k < |d| && d[k].PhiInst? && name == Keyed(Def(d[k].id))
    decreases m
  {
    hide HasWrite;
    if m == i {
      NothingWritten(name);
      assert false;
    }
    WriteSplit(M.CopiesIn(d, i, m - 1, b), M.PhiCopy(d[m - 1], b), name);
    if HasWrite(M.CopiesIn(d, i, m - 1, b), name) {
      k := CopiesWriteOnly(d, i, m - 1, b, name);
    } else {
      CopyWritesOnly(d[m - 1], b, name);
      k := m - 1;
    }
  }

  lemma CopyWritesOnly(i: Inst, b: BlockId, name: VirtName)
    requires HasWrite(M.PhiCopy(i, b), name)
    ensures i.PhiInst? && name == Keyed(Def(i.id))
  {
  }

  // Where an instruction of the listing stands.
  lemma {:induction false} InstPlace(f: Function, o: nat, j: nat) returns (p: Pos)
    requires o <= |f.order| && (forall c :: c in f.order ==> c in f.blocks) && j < |InstsUpTo(f, o)|
    ensures Within(f, p) && InstAt(f, p) == InstsUpTo(f, o)[j]
  {
    if j < |InstsUpTo(f, o - 1)| {
      p := InstPlace(f, o - 1, j);
    } else {
      p := Pos(f.order[o - 1], j - |InstsUpTo(f, o - 1)|);
    }
  }

  lemma CopiesName(w: Source, i: nat, m: nat, b: BlockId, name: VirtName) returns (p: Pos)
    requires M.Ordered(w.f) && i <= m <= |InstsOf(w.f)| && HasWrite(M.CopiesIn(InstsOf(w.f), i, m, b), name)
    ensures Names(w, p, name)
  {
    hide Compilable, HasWrite, KeyOf, InstsUpTo, Takers, M.CopiesIn;
    var k := CopiesWriteOnly(InstsOf(w.f), i, m, b, name);
    p := InstPlace(w.f, |w.f.order|, k);
    TakersAt(w.f, p);
  }

  lemma FrontName(w: Source, b: BlockId, s: Subst, name: VirtName) returns (p: Pos)
    requires b in w.f.blocks && HasWrite(RenameBlock(s, FrontOf(w, b)), name) && !name.RetReg?
    ensures Names(w, p, name)
  {
    hide Compilable, KeyOf, Takers;
    BlockHeld(w, b);
    var f := w.f.blocks[b];
    p := Pos(b, |f| - 1);
    TakersAt(w.f, p);
  }

  lemma ExitWritesNone(s: Subst, base: nat, key: Value, i: Inst, name: VirtName)
    requires IsTerminator(i)
    ensures !HasWrite([RenameInst(s, M.Exit(base, key, i))], name)
  {
  }

  lemma WrittenHere(g: Function, name: VirtName) returns (b: BlockId)
    requires A.Written(g, name)
    ensures b in g.blocks && HasWrite(g.blocks[b], name)
  {
    var p :| Within(g, p) && A.Writes(InstAt(g, p), name);
    b := p.block;
    assert A.Writes(g.blocks[b][p.index], name);
  }

  /** Every register but those of return values is there for a result or for the condition of a block. */
  lemma WrittenNames(w: Source, name: VirtName) returns (p: Pos)
    requires A.Written(LoweredOf(w), name) && !name.RetReg?
    ensures Names(w, p, name)
  {
    hide Compilable, HasWrite, LoweredOf, NamesOf, A.Written, Names, M.Body, M.CopiesIn, InstsOf, CutOf, MovesOk,
      FrontOf, KeyOf, RenameBlock, RenameInst, M.Exit;
    var b := WrittenHere(LoweredOf(w), name);
    LoweredKeys(w);
    RawPieces(w, b);
    BlockHeld(w, b);
    PartsFree(w, b);
    var s := NamesOf(w);
    var h, t, l := RenameBlock(s, HeadOf(w, b)), RenameBlock(s, FrontOf(w, b)), RenameBlock(s, LateOf(w, b));
    var z := [RenameInst(s, ExitOf(w, b))];
    ExitWritesNone(s, w.base, KeyOf(w, b), LastOf(w.f.blocks[b]), name);
    WriteSplit(h + t + l, z, name);
    WriteSplit(h + t, l, name);
    if HasWrite(l, name) {
      WriteUnrenamed(s, LateOf(w, b), name);
      p := CopiesName(w, CutOf(w.f, b), |InstsOf(w.f)|, b, name);
      return;
    }
    WriteSplit(h, t, name);
    if HasWrite(t, name) {
      p := FrontName(w, b, s, name);
      return;
    }
    WriteUnrenamed(s, HeadOf(w, b), name);
    p := HeadName(w, b, name);
  }

  lemma HeadName(w: Source, b: BlockId, name: VirtName) returns (p: Pos)
    requires b in w.f.blocks && HasWrite(HeadOf(w, b), name)
    ensures Names(w, p, name)
  {
    hide Compilable, HasWrite, Names, M.Body, M.CopiesIn, InstsOf, CutOf;
    BlockHeld(w, b);
    WriteSplit(BodyOf(w, b), EarlyOf(w, b), name);
    if HasWrite(BodyOf(w, b), name) {
      p := BodyWritesOnly(w, b, |w.f.blocks[b]| - 1, name);
    } else {
      p := CopiesName(w, 0, CutOf(w.f, b), b, name);
    }
  }

  // The slot an instruction takes.
  ghost function SlotTaken(u: Build, p: Pos): nat
    requires IsBuild(u) && p in Takers(u.w.f)
  {
    var i := InstAt(u.w.f, p);
    if i.AllocInst? then i.id
    else
      var name := if i.CondBranchInst? then Keyed(KeyOf(u.w, p.block)) else M.NameOf(i);
      if name in u.regs && u.regs[name].Alloc? then u.regs[name].id else 0
  }

  lemma SlotHasTaker(u: Build, a: nat) returns (p: Pos)
    requires IsBuild(u) && (a in u.allocs || a in VarsOf(u.w))
    ensures p in Takers(u.w.f) && SlotTaken(u, p) == a
  {
    hide Compilable, LoweredOf, KeyOf, A.Written, A.Constrained, A.SlotsDiffer, A.FreshSlots, Takers;
    EntryHeld(u.w);
    if a in VarsOf(u.w) {
      var e := Entry(u.w.f);
      var k :| 0 <= k < |u.w.f.blocks[e]| && u.w.f.blocks[e][k].AllocInst? && u.w.f.blocks[e][k].id == a;
      p := Pos(e, k);
      TakersAt(u.w.f, p);
    } else {
      assert A.HasRegister(u.regs, a);
      var name :| name in u.regs && u.regs[name] == Alloc(a);
      if name.RetReg? {
        RetWriteConstrained(u.w, name);
        assert false;
      }
      p := WrittenNames(u.w, name);
    }
  }

  // The register of a return value that is written is constrained.
  lemma RetWriteConstrained(w: Source, name: VirtName)
    requires A.Written(LoweredOf(w), name) && name.RetReg?
    ensures A.Constrained(LoweredOf(w), name)
  {
    hide Compilable, LoweredOf, HeadOf;
    var g := LoweredOf(w);
    var p :| Within(g, p) && A.Writes(InstAt(g, p), name);
    LoweredKeys(w);
    NotFreeAt(w, p.block, p.index);
    assert A.Constrains(InstAt(g, Pos(p.block, |HeadOf(w, p.block)|)), name);
  }

  lemma {:induction false} ValuesAtMost<T, U>(m: map<T, U>, r: set<U>)
    requires r <= m.Values
    ensures |r| <= |m|
    decreases |r|
  {
    if r != {} {
      var y :| y in r;
      var x :| x in m && m[x] == y;
      assert r - {y} <= (m - {x}).Values by {
        forall z | z in r - {y}
          ensures z in (m - {x}).Values
        {
          var v :| v in m && m[v] == z;
          assert v in m - {x};
        }
      }
      ValuesAtMost(m - {x}, r - {y});
      assert m.Keys == (m - {x}).Keys + {x};
    }
  }

  /** The frame has at most one slot for each instruction that may take one. */
  lemma FrameAtMost(u: Build)
    requires IsBuild(u)
    ensures |EntrySlots(u)| <= |Takers(u.w.f)|
  {
    hide IsBuild, EntrySlots, VarsOf, Takers, SlotTaken, HomesOf, SlotsOk;
    BuildSource(u);
    var fr := Frame(0, 0, 0, EntrySlots(u), HomesOf(u), VarsOf(u.w));
    assert FrameFor(u, fr);
    FrameSlots(u, fr);
    var m := map p | p in Takers(u.w.f) :: SlotTaken(u, p);
    forall a | a in EntrySlots(u)
      ensures a in m.Values
    {
      var p := SlotHasTaker(u, a);
      assert m[p] == a;
    }
    ValuesAtMost(m, EntrySlots(u).Keys);
    assert m.Keys == Takers(u.w.f);
  }

  lemma LoweringReady(w: Source)
    ensures M.IsTask(w) && M.Ordered(LoweredOf(w)) && A.ConstraintsFirst(LoweredOf(w)) && |LoweredOf(w).order| > 0
    ensures forall b :: b in LoweredOf(w).blocks ==> b in LoweredOf(w).order
  {
    hide Compilable, LoweredOf, A.ConstraintsFirst, M.IsTask;
    SourceIsTask(w);
    EntryHeld(w);
    LoweredKeys(w);
    LoweredConstraints(w);
    forall b | b in w.f.blocks
      ensures b in w.f.order
    {
      SourceBlock(w, b);
    }
  }

  /** The backend: every label resolves, and if the frame is in reach of its displacements then the emitted program
      is faithful to the function. */
  method RunOn(target: FunctionObject, cfg: GraphObject, ghost at: Places, base: nat) returns (t: InstTranslator)
    requires Compilable(target.fn, at, base) && cfg.Valid() && cfg.Model() == CfgOf(target.fn)
    modifies target
    ensures fresh(t) && LabelsResolve(t.insts)
    ensures t.frameSize <= 8 * |Takers(old(target.fn))|
    ensures t.frameSize <= 0x8000_0000 ==> Faithful(old(target.fn), t.insts, t.frameSize)
  {
    hide Compilable, IsBuild, AllocatedOf, EntrySlots, OrderOk, BlockEmittable, IsNumbering, LabelsResolve,
      Faithful, A.IsAssignment, LoweredOf, M.Lowered, A.Allocated, A.ConstraintsFirst, M.IsTask, AllocsFirst,
      ReachableEmittable, SlotsOf, Code, DepthFirstSearch.IsSearchOf, Takers;
    ghost var w: Source := M.Task(target.fn, at, base);
    LoweringReady(w);
    M.RunOn(target, base, w);
    LoweredIs(w);
    var s := A.RunOn(target, base);
    ghost var u := Build(w, s.regs, s.allocs);
    BuildOf(u, target.fn);
    FrameAtMost(u);
    EmissionReady(u);
    ghost var order, post;
    t, order, post := Backend.RunOn(target.fn, cfg, EntrySlots(u));
    OrderIsOk(w, order, post);
    CodeKeepsMeaning(u, t.blockMap, order, t.insts);
  }

  lemma LoweredIs(w: Source)
    ensures M.IsTask(w) && M.InRange(w.f, |w.f.order|, 0) && LoweredOf(w) == M.Lowered(w)
  {
    hide Compilable, M.IsTask;
    SourceIsTask(w);
    EntryHeld(w);
  }

  lemma BuildOf(u: Build, h: Function)
    requires Compilable(u.w.f, u.w.at, u.w.base) && A.IsAssignment(LoweredOf(u.w), u.regs, u.allocs, u.w.base)
    requires |LoweredOf(u.w).order| > 0 && h == A.Allocated(LoweredOf(u.w), u.regs, u.allocs)
    ensures IsBuild(u) && AllocatedOf(u) == h
  {
  }
}

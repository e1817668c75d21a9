/** Lowering to two-register form: results become virtual registers and phis become copies. */
module MoveInserter {
  import opened Words
  import opened Ir
  import opened Ssa
  import opened FunctionObject

  predicate IsInst(i: Inst, x: nat) {
    !i.MoveInst? && !i.ConstraintInst? && i.id == x
  }

  predicate NoInst(b: Block, x: nat) {
    forall k :: 0 <= k < |b| ==> !IsInst(b[k], x)
  }

  // BasicBlock::position_of: the length of the block if the instruction is not in it.
  function PositionOf(b: Block, x: nat): (k: nat)
    ensures k <= |b| && NoInst(b[..k], x) && (k < |b| ==> IsInst(b[k], x))
  {
    if b == [] || IsInst(b[0], x) then 0
    else
      var k := PositionOf(b[1..], x);
      assert b[..1 + k] == [b[0]] + b[1..][..k];
      1 + k
  }

  lemma PositionAt(a: Block, i: Inst, r: Block, x: nat)
    requires NoInst(a, x) && IsInst(i, x)
    ensures PositionOf(a + [i] + r, x) == |a|
  {
    var b := a + [i] + r;
    assert b[|a|] == i;
    assert forall k :: 0 <= k < |a| ==> b[k] == a[k];
    if |a| < PositionOf(b, x) {
      NotBefore(b, x, |a|);
    }
  }

  lemma NotBefore(b: Block, x: nat, k: nat)
    requires k < PositionOf(b, x)
    ensures !IsInst(b[k], x)
  {
    assert b[..PositionOf(b, x)][k] == b[k];
  }

  // ---- What each instruction becomes

  // The virtual register that takes the place of a result.
  function NameOf(i: Inst): VirtName
    requires DefinesValue(i)
  {
    if i.LoadInst? then LoadReg(i.id)
    else if i.PhiInst? then Keyed(Def(i.id))
    else NewDef(i.id)
  }

  // key is the value whose memoised register holds the condition; new instructions take the
  // identities from base on.
  function LowerRaw(base: nat, key: Value, i: Inst): Block {
    match i
    case AllocInst(_) => [i]
    case BinaryInst(id, op, lhs, rhs) =>
      [MoveInst(Phys(0), lhs), MoveInst(Phys(1), rhs), BinaryInst(base + id, op, Phys(0), Phys(1)),
       MoveInst(Virt(NewDef(id)), Phys(0))]
    case CompareInst(id, pred, lhs, rhs) =>
      [MoveInst(Phys(0), lhs), MoveInst(Phys(1), rhs), CompareInst(base + id, pred, Phys(0), Phys(1)),
       MoveInst(Virt(NewDef(id)), Phys(0))]
    case LoadInst(id, ptr) => [MoveInst(Virt(LoadReg(id)), ptr)]
    case StoreInst(_, ptr, val) => [MoveInst(ptr, val)]
    case PhiInst(_, _) => []
    case BranchInst(_, _) => [i]
    case CondBranchInst(id, cond, falseDst, trueDst) =>
      [MoveInst(Virt(Keyed(key)), cond), CondBranchInst(base + id, Virt(Keyed(key)), falseDst, trueDst)]
    case RetInst(id, retVal) =>
      [ConstraintInst(RetReg(id)), MoveInst(Virt(RetReg(id)), retVal), i]
    case MoveInst(_, _) => [i]
    case ConstraintInst(_) => [i]
  }

  function KeyNow(i: Inst): Value {
    if i.CondBranchInst? then i.cond else Const(0)
  }

  // What an instruction becomes with the operands it has when it is visited.
  function LowerInst(base: nat, i: Inst): Block {
    LowerRaw(base, KeyNow(i), i)
  }

  // The replacement made when an instruction is visited.
  function VisitSubst(i: Inst): Subst {
    if DefinesValue(i) then map[i.id := Virt(NameOf(i))] else map[]
  }

  // ---- Renaming and editing blocks

  lemma RenameAppend(s: Subst, a: Block, b: Block)
    ensures RenameBlock(s, a + b) == RenameBlock(s, a) + RenameBlock(s, b)
  {
  }

  lemma RenameSplit(s: Subst, a: Block, i: Inst, r: Block)
    ensures RenameBlock(s, a + [i] + r) == RenameBlock(s, a) + [RenameInst(s, i)] + RenameBlock(s, r)
  {
  }

  lemma RenameWithBlock(s: Subst, f: Function, b: BlockId, block: Block)
    ensures RenameFunction(s, WithBlock(f, b, block)) == WithBlock(RenameFunction(s, f), b, RenameBlock(s, block))
  {
  }

  lemma RenameKeepsIdentity(s: Subst, i: Inst, x: nat)
    ensures IsInst(RenameInst(s, i), x) <==> IsInst(i, x)
  {
  }

  lemma RenameKeepsNoInst(s: Subst, a: Block, x: nat)
    requires NoInst(a, x)
    ensures NoInst(RenameBlock(s, a), x)
  {
    forall k | 0 <= k < |a|
      ensures !IsInst(RenameBlock(s, a)[k], x)
    {
      RenameKeepsIdentity(s, a[k], x);
    }
  }

  // ---- The visitor

  // While an instruction i is visited, its block is a + [i] + r and the rest is as in f.
  ghost predicate Visiting(now: Function, f: Function, b: BlockId, x: nat, a: Block, i: Inst, r: Block) {
    b in f.blocks && now == WithBlock(f, b, a + [i] + r) && NoInst(a, x) && IsInst(i, x)
  }

  // Inserts before the instruction with identity x.
  method InsertBefore(target: FunctionObject, b: BlockId, x: nat, added: Inst,
                      ghost f: Function, ghost a: Block, ghost i: Inst, ghost r: Block)
    requires Visiting(target.fn, f, b, x, a, i, r) && !IsInst(added, x)
    modifies target
    ensures Visiting(target.fn, f, b, x, a + [added], i, r)
  {
    PositionAt(a, i, r, x);
    target.Insert(b, PositionOf(target.fn.blocks[b], x), added);
    assert InsertAt(a + [i] + r, |a|, added) == (a + [added]) + [i] + r;
  }

  method RemoveFrom(target: FunctionObject, b: BlockId, x: nat, ghost f: Function, ghost a: Block, ghost i: Inst,
      ghost r: Block)
    requires Visiting(target.fn, f, b, x, a, i, r)
    modifies target
    ensures target.fn == WithBlock(f, b, a + r)
  {
    PositionAt(a, i, r, x);
    target.Erase(b, PositionOf(target.fn.blocks[b], x));
    assert EraseAt(a + [i] + r, |a|) == a + r;
  }

  // Replaces all uses of a result, then removes its instruction.
  method ReplaceAndRemove(target: FunctionObject, b: BlockId, x: nat, v: Value,
                          ghost f: Function, ghost a: Block, ghost i: Inst, ghost r: Block)
    requires Visiting(target.fn, f, b, x, a, i, r)
    modifies target
    ensures target.fn == RenameFunction(map[x := v], WithBlock(f, b, a + r))
  {
    ghost var s := map[x := v];
    target.ReplaceAllUses(x, v);
    RenameSplit(s, a, i, r);
    RenameKeepsNoInst(s, a, x);
    RenameKeepsIdentity(s, i, x);
    RenameWithBlock(s, f, b, a + [i] + r);
    RemoveFrom(target, b, x, RenameFunction(s, f), RenameBlock(s, a), RenameInst(s, i), RenameBlock(s, r));
    RenameAppend(s, a, r);
    RenameWithBlock(s, f, b, a + r);
  }

  // What a visit leaves: the instruction lowered in place, and its result replaced everywhere.
  ghost function AfterVisit(f: Function, base: nat, b: BlockId, a: Block, i: Inst, r: Block): Function {
    RenameFunction(VisitSubst(i), WithBlock(f, b, a + LowerInst(base, i) + r))
  }

  ghost predicate VisitsAt(f: Function, b: BlockId, x: nat, a: Block, i: Inst, r: Block) {
    b in f.blocks && f.blocks[b] == a + [i] + r && NoInst(a, x) && IsInst(i, x)
  }

  lemma BeginVisit(f: Function, b: BlockId, x: nat, a: Block, i: Inst, r: Block)
    requires VisitsAt(f, b, x, a, i, r)
    ensures Visiting(f, f, b, x, a, i, r)
    ensures PositionOf(f.blocks[b], x) == |a| && f.blocks[b][|a|] == i
  {
    PositionAt(a, i, r, x);
    WithOwnBlock(f, b);
  }

  // Moves both operands to the physical registers, runs the operation there and moves its
  // result to a virtual register.
  method LowerOperation(target: FunctionObject, b: BlockId, x: nat, lhs: Value, rhs: Value, operation: Inst,
                        ghost f: Function, ghost a: Block, ghost i: Inst, ghost r: Block)
    requires Visiting(target.fn, f, b, x, a, i, r) && !IsInst(operation, x)
    modifies target
    ensures target.fn == RenameFunction(map[x := Virt(NewDef(x))], WithBlock(f, b,
              a + [MoveInst(Phys(0), lhs), MoveInst(Phys(1), rhs), operation, MoveInst(Virt(NewDef(x)), Phys(0))] + r))
  {
    hide *;
    var m1, m2, m3 := MoveInst(Phys(0), lhs), MoveInst(Phys(1), rhs), MoveInst(Virt(NewDef(x)), Phys(0));
    MoveIsNoInst(m1, x);
    MoveIsNoInst(m2, x);
    MoveIsNoInst(m3, x);
    InsertBefore(target, b, x, m1, f, a, i, r);
    InsertBefore(target, b, x, m2, f, a + [m1], i, r);
    InsertBefore(target, b, x, operation, f, a + [m1] + [m2], i, r);
    InsertBefore(target, b, x, m3, f, a + [m1] + [m2] + [operation], i, r);
    ReplaceAndRemove(target, b, x, Virt(NewDef(x)), f, a + [m1] + [m2] + [operation] + [m3], i, r);
    assert a + [m1] + [m2] + [operation] + [m3] == a + [m1, m2, operation, m3];
  }

  lemma MoveIsNoInst(i: Inst, x: nat)
    requires i.MoveInst? || i.ConstraintInst?
    ensures !IsInst(i, x)
  {
  }

  method VisitBinary(target: FunctionObject, b: BlockId, x: nat, base: nat, ghost a: Block, ghost i: Inst,
      ghost r: Block)
    requires VisitsAt(target.fn, b, x, a, i, r) && i.BinaryInst? && x < base
    modifies target
    ensures target.fn == AfterVisit(old(target.fn), base, b, a, i, r)
  {
    BeginVisit(target.fn, b, x, a, i, r);
    var binary := target.fn.blocks[b][PositionOf(target.fn.blocks[b], x)];
    var lowered := BinaryInst(base + x, binary.op, Phys(0), Phys(1));
    LowerOperation(target, b, x, binary.lhs, binary.rhs, lowered, target.fn, a, i, r);
  }

  method VisitCompare(target: FunctionObject, b: BlockId, x: nat, base: nat, ghost a: Block, ghost i: Inst,
      ghost r: Block)
    requires VisitsAt(target.fn, b, x, a, i, r) && i.CompareInst? && x < base
    modifies target
    ensures target.fn == AfterVisit(old(target.fn), base, b, a, i, r)
  {
    BeginVisit(target.fn, b, x, a, i, r);
    var compare := target.fn.blocks[b][PositionOf(target.fn.blocks[b], x)];
    var lowered := CompareInst(base + x, compare.pred, Phys(0), Phys(1));
    LowerOperation(target, b, x, compare.lhs, compare.rhs, lowered, target.fn, a, i, r);
  }

  method VisitLoad(target: FunctionObject, b: BlockId, x: nat, base: nat, ghost a: Block, ghost i: Inst, ghost r: Block)
    requires VisitsAt(target.fn, b, x, a, i, r) && i.LoadInst?
    modifies target
    ensures target.fn == AfterVisit(old(target.fn), base, b, a, i, r)
  {
    BeginVisit(target.fn, b, x, a, i, r);
    ghost var f := target.fn;
    var load := target.fn.blocks[b][PositionOf(target.fn.blocks[b], x)];
    var virt := Virt(LoadReg(x));
    InsertBefore(target, b, x, MoveInst(virt, load.ptr), f, a, i, r);
    ReplaceAndRemove(target, b, x, virt, f, a + [MoveInst(virt, load.ptr)], i, r);
  }

  method VisitStore(target: FunctionObject, b: BlockId, x: nat, base: nat, ghost a: Block, ghost i: Inst,
      ghost r: Block)
    requires VisitsAt(target.fn, b, x, a, i, r) && i.StoreInst?
    modifies target
    ensures target.fn == AfterVisit(old(target.fn), base, b, a, i, r)
  {
    BeginVisit(target.fn, b, x, a, i, r);
    ghost var f := target.fn;
    var store := target.fn.blocks[b][PositionOf(target.fn.blocks[b], x)];
    InsertBefore(target, b, x, MoveInst(store.ptr, store.val), f, a, i, r);
    RemoveFrom(target, b, x, f, a + [MoveInst(store.ptr, store.val)], i, r);
    RenameNothing(target.fn);
  }

  // Appends the new branch behind the old one, which is removed.
  method VisitCondBranch(target: FunctionObject, b: BlockId, x: nat, base: nat, ghost a: Block, ghost i: Inst)
    requires VisitsAt(target.fn, b, x, a, i, []) && i.CondBranchInst? && x < base
    modifies target
    ensures target.fn == AfterVisit(old(target.fn), base, b, a, i, [])
  {
    BeginVisit(target.fn, b, x, a, i, []);
    ghost var f := target.fn;
    var branch := target.fn.blocks[b][PositionOf(target.fn.blocks[b], x)];
    var virt := Virt(Keyed(branch.cond));
    var move := MoveInst(virt, branch.cond);
    InsertBefore(target, b, x, move, f, a, i, []);
    var lowered := CondBranchInst(base + x, virt, branch.falseDst, branch.trueDst);
    target.Insert(b, |target.fn.blocks[b]|, lowered);
    assert (a + [move]) + [i] + [lowered] == InsertAt((a + [move]) + [i] + [], |a| + 2, lowered);
    RemoveFrom(target, b, x, f, a + [move], i, [lowered]);
    assert a + [move] + [lowered] == a + LowerInst(base, i) + [];
    RenameNothing(target.fn);
  }

  method VisitRet(target: FunctionObject, b: BlockId, x: nat, base: nat, ghost a: Block, ghost i: Inst, ghost r: Block)
    requires VisitsAt(target.fn, b, x, a, i, r) && i.RetInst?
    modifies target
    ensures target.fn == AfterVisit(old(target.fn), base, b, a, i, r)
  {
    BeginVisit(target.fn, b, x, a, i, r);
    ghost var f := target.fn;
    var ret := target.fn.blocks[b][PositionOf(target.fn.blocks[b], x)];
    InsertBefore(target, b, x, ConstraintInst(RetReg(x)), f, a, i, r);
    InsertBefore(target, b, x, MoveInst(Virt(RetReg(x)), ret.retVal), f, a + [ConstraintInst(RetReg(x))], i, r);
    assert (a + [ConstraintInst(RetReg(x))] + [MoveInst(Virt(RetReg(x)), ret.retVal)]) + [i] + r
      == a + LowerInst(base, i) + r;
    RenameNothing(target.fn);
  }

  // ---- Phis

  function InsertLast(b: Block, i: Inst): Block
    requires b != []
  {
    InsertAt(b, |b| - 1, i)
  }

  // One copy in front of the terminator of each of the given predecessors.
  function WithCopies(f: Function, incoming: map<BlockId, Value>, preds: set<BlockId>, virt: Value): Function
    requires preds <= incoming.Keys
  {
    Function(f.order, map c | c in f.blocks ::
      if c in preds && f.blocks[c] != [] then InsertLast(f.blocks[c], MoveInst(virt, incoming[c])) else f.blocks[c])
  }

  lemma OneMoreCopy(f: Function, incoming: map<BlockId, Value>, preds: set<BlockId>, virt: Value, c: BlockId)
    requires preds + {c} <= incoming.Keys && c !in preds && c in f.blocks && f.blocks[c] != []
    ensures WithCopies(f, incoming, preds, virt).blocks[c] == f.blocks[c]
    ensures WithBlock(WithCopies(f, incoming, preds, virt), c, InsertLast(f.blocks[c], MoveInst(virt, incoming[c])))
         == WithCopies(f, incoming, preds + {c}, virt)
  {
  }

  lemma NoCopies(f: Function, incoming: map<BlockId, Value>, virt: Value)
    ensures WithCopies(f, incoming, {}, virt) == f
  {
  }

  method InsertCopies(target: FunctionObject, incoming: map<BlockId, Value>, virt: Value)
    requires forall c :: c in incoming ==> c in target.fn.blocks && target.fn.blocks[c] != []
    modifies target
    ensures target.fn == WithCopies(old(target.fn), incoming, incoming.Keys, virt)
  {
    ghost var f := target.fn;
    var todo := incoming.Keys;
    NoCopies(f, incoming, virt);
    assert incoming.Keys - todo == {};
    while todo != {}
      invariant todo <= incoming.Keys
      invariant target.fn == WithCopies(f, incoming, incoming.Keys - todo, virt)
    {
      var pred :| pred in todo;
      OneMoreCopy(f, incoming, incoming.Keys - todo, virt, pred);
      assert incoming.Keys - (todo - {pred}) == (incoming.Keys - todo) + {pred};
      target.Insert(pred, |target.fn.blocks[pred]| - 1, MoveInst(virt, incoming[pred]));
      todo := todo - {pred};
    }
    assert incoming.Keys - todo == incoming.Keys;
  }

  ghost function AfterPhi(f: Function, b: BlockId, a: Block, i: Inst, r: Block): Function
    requires i.PhiInst?
  {
    RenameFunction(VisitSubst(i),
      WithCopies(WithBlock(f, b, a + r), i.incoming, i.incoming.Keys, Virt(Keyed(Def(i.id)))))
  }

  // The copies of a phi of a block that precedes itself go behind the phi.
  lemma CopiesBesidePhi(f: Function, b: BlockId, a: Block, i: Inst, r: Block, virt: Value, r': Block)
    requires b in f.blocks && f.blocks[b] == a + [i] + r && i.PhiInst? && r != []
    requires r' == if b in i.incoming then InsertLast(r, MoveInst(virt, i.incoming[b])) else r
    ensures WithCopies(f, i.incoming, i.incoming.Keys, virt)
        == WithBlock(WithCopies(f, i.incoming, i.incoming.Keys, virt), b, a + [i] + r')
    ensures WithBlock(WithCopies(f, i.incoming, i.incoming.Keys, virt), b, a + r')
         == WithCopies(WithBlock(f, b, a + r), i.incoming, i.incoming.Keys, virt)
  {
    if b in i.incoming {
      var m := MoveInst(virt, i.incoming[b]);
      assert InsertLast(a + [i] + r, m) == a + [i] + r';
      assert InsertLast(a + r, m) == a + r';
    }
    assert WithCopies(f, i.incoming, i.incoming.Keys, virt).blocks[b] == a + [i] + r';
    WithOwnBlock(WithCopies(f, i.incoming, i.incoming.Keys, virt), b);
  }

  method VisitPhi(target: FunctionObject, b: BlockId, x: nat, ghost a: Block, ghost i: Inst, ghost r: Block)
    requires VisitsAt(target.fn, b, x, a, i, r) && i.PhiInst? && r != []
    requires forall c :: c in i.incoming ==> c in target.fn.blocks && target.fn.blocks[c] != []
    modifies target
    ensures target.fn == AfterPhi(old(target.fn), b, a, i, r)
  {
    BeginVisit(target.fn, b, x, a, i, r);
    ghost var f := target.fn;
    var phi := target.fn.blocks[b][PositionOf(target.fn.blocks[b], x)];
    var virt := Virt(Keyed(Def(x)));
    InsertCopies(target, phi.incoming, virt);
    ghost var r' := if b in i.incoming then InsertLast(r, MoveInst(virt, i.incoming[b])) else r;
    CopiesBesidePhi(f, b, a, i, r, virt, r');
    ReplaceAndRemove(target, b, x, virt, target.fn, a, i, r');
  }

  // ---- The function after some instructions have been visited

  // What the pass needs: blocks end at their only terminator, the instructions of a block have
  // different identities, and every block that a phi takes a value from is there.
  datatype Task = Task(f: Function, at: Places, base: nat)

  ghost predicate IsTask(w: Task) {
    && ValidFunction(w.f) && Located(w.f, w.at)
    && (forall b {:trigger w.f.blocks[b]} :: b in w.f.blocks ==> BlockOk(w.f.blocks[b], w.base))
    && (forall p {:trigger IsPhi(w.f, p)} :: IsPhi(w.f, p) ==> PhiOk(w.f, InstAt(w.f, p).incoming))
  }

  ghost predicate BlockOk(b: Block, base: nat) {
    && b != [] && IsTerminator(b[|b| - 1])
    && (forall k :: 0 <= k < |b| ==> !b[k].MoveInst? && !b[k].ConstraintInst? && b[k].id < base)
    && (forall k :: 0 <= k < |b| - 1 ==> !IsTerminator(b[k]))
    && (forall k, m :: 0 <= k < m < |b| ==> b[k].id != b[m].id)
  }

  ghost predicate PhiOk(f: Function, incoming: map<BlockId, Value>) {
    forall c :: c in incoming ==> c in f.blocks
  }

  type SoundTask = w: Task | IsTask(w) ghost witness TrivialTask()

  ghost function TrivialTask(): (w: Task)
    ensures IsTask(w)
  {
    ReturnZeroFacts();
    Task(ReturnZero(), map[], 1)
  }

  // How many instructions of block b have been visited when k have been in the o-th block.
  function Visited(f: Function, o: nat, k: nat, b: BlockId): (v: nat)
    requires b in f.blocks && o <= |f.order|
    requires o < |f.order| ==> f.order[o] in f.blocks && k <= |f.blocks[f.order[o]]|
    ensures v <= |f.blocks[b]|
  {
    if b in f.order[..o] then |f.blocks[b]| else if o < |f.order| && f.order[o] == b then k else 0
  }

  predicate InRange(f: Function, o: nat, k: nat) {
    o <= |f.order| && (if o < |f.order| then f.order[o] in f.blocks && k <= |f.blocks[f.order[o]]| else k == 0)
  }

  // The replacements made so far.
  ghost function SubstAt(w: SoundTask, o: nat, k: nat): Subst
    requires InRange(w.f, o, k)
  {
    map x | x in w.at && w.at[x].index < Visited(w.f, o, k, w.at[x].block) :: Virt(NameOf(InstAt(w.f, w.at[x])))
  }

  // The copies that the first k instructions of d put into block b.
  function CopiesFrom(d: Block, k: nat, b: BlockId): Block
    requires k <= |d|
  {
    if k == 0 then []
    else CopiesFrom(d, k - 1, b) + PhiCopy(d[k - 1], b)
  }

  // The copies of the phis from the i-th to the k-th instruction of d.
  function CopiesIn(d: Block, i: nat, k: nat, b: BlockId): Block
    requires i <= k <= |d|
    decreases k
  {
    if k == i then [] else CopiesIn(d, i, k - 1, b) + PhiCopy(d[k - 1], b)
  }

  lemma {:induction false} CopiesSplit(d: Block, i: nat, k: nat, b: BlockId)
    requires i <= k <= |d|
    ensures CopiesFrom(d, k, b) == CopiesFrom(d, i, b) + CopiesIn(d, i, k, b)
    decreases k
  {
    hide PhiCopy;
    if i < k {
      CopiesSplit(d, i, k - 1, b);
    }
  }

  function PhiCopy(i: Inst, b: BlockId): Block {
    if i.PhiInst? && b in i.incoming then [MoveInst(Virt(Keyed(Def(i.id))), i.incoming[b])] else []
  }

  // The copies put into block b so far.
  function Copies(f: Function, o: nat, k: nat, b: BlockId): Block
    requires InRange(f, o, k) && forall c :: c in f.order ==> c in f.blocks
    decreases o, 1
  {
    CopiesBefore(f, o, b) + (if o < |f.order| then CopiesFrom(f.blocks[f.order[o]], k, b) else [])
  }

  function CopiesBefore(f: Function, o: nat, b: BlockId): Block
    requires o <= |f.order| && forall c :: c in f.order ==> c in f.blocks
    decreases o, 0
  {
    if o == 0 then []
      else CopiesBefore(f, o - 1, b) + CopiesFrom(f.blocks[f.order[o - 1]], |f.blocks[f.order[o - 1]]|, b)
  }

  // The first m instructions of a block, lowered.
  function Body(base: nat, b: Block, m: nat): Block
    requires m <= |b|
  {
    if m == 0 then [] else Body(base, b, m - 1) + LowerInst(base, b[m - 1])
  }

  // A lowered terminator with the copies around it: those put there before it was visited, and those put in front of
  // what it ends in afterwards.
  function Ending(early: Block, lowered: Block, late: Block): Block
    requires lowered != []
  {
    early + lowered[..|lowered| - 1] + late + [lowered[|lowered| - 1]]
  }

  // The first e copies, or all if there are not so many.
  function Early(copies: Block, e: nat): Block {
    if e <= |copies| then copies[..e] else copies
  }

  function Late(copies: Block, e: nat): Block {
    if e <= |copies| then copies[e..] else []
  }

  lemma NeverEmpty(base: nat, key: Value, i: Inst)
    requires IsTerminator(i)
    ensures LowerRaw(base, key, i) != []
  {
  }

  // What a lowered terminator ends in, and what stands in front of that.
  function Exit(base: nat, key: Value, i: Inst): Inst
    requires IsTerminator(i)
  {
    NeverEmpty(base, key, i);
    LowerRaw(base, key, i)[|LowerRaw(base, key, i)| - 1]
  }

  function Front(base: nat, key: Value, i: Inst): Block
    requires IsTerminator(i)
  {
    NeverEmpty(base, key, i);
    LowerRaw(base, key, i)[..|LowerRaw(base, key, i)| - 1]
  }

  // A block whose first v instructions have been visited, before renaming; e copies are there when its terminator is.
  function RawBlock(base: nat, key: Value, b: Block, v: nat, copies: Block, e: nat): Block
    requires b != [] && v <= |b| && IsTerminator(b[|b| - 1])
  {
    var last := |b| - 1;
    if v <= last then Body(base, b, v) + b[v..last] + copies + [b[last]]
    else
      NeverEmpty(base, key, b[last]);
      Body(base, b, last) + Ending(Early(copies, e), LowerRaw(base, key, b[last]), Late(copies, e))
  }

  function IndexIn(order: seq<BlockId>, b: BlockId): (o: nat)
    requires b in order
    ensures o < |order| && order[o] == b
  {
    if order[0] == b then 0 else 1 + IndexIn(order[1..], b)
  }

  // The value whose register holds the condition of the branch at the end of b.
  ghost function KeyAt(w: SoundTask, b: BlockId): Value
    requires b in w.f.blocks
  {
    assert b in w.f.order;
    var last := |w.f.blocks[b]| - 1;
    KeyNow(RenameInst(SubstAt(w, IndexIn(w.f.order, b), last), w.f.blocks[b][last]))
  }

  // How many copies are in a block when its terminator is visited.
  function EarlyCount(f: Function, b: BlockId): nat
    requires b in f.order && f.blocks.Keys >= (set c | c in f.order) && f.blocks[b] != []
  {
    |Copies(f, IndexIn(f.order, b), |f.blocks[b]| - 1, b)|
  }

  lemma BlockHolds(w: SoundTask, b: BlockId)
    requires b in w.f.blocks
    ensures b in w.f.order && w.f.blocks.Keys >= (set c | c in w.f.order) && w.f.blocks[b] != []
    ensures IsTerminator(w.f.blocks[b][|w.f.blocks[b]| - 1])
  {
    assert BlockOk(w.f.blocks[b], w.base);
  }

  // A block of the function during the pass, before renaming.
  ghost function RawAt(w: SoundTask, b: BlockId, v: nat, copies: Block): Block
    requires b in w.f.blocks && v <= |w.f.blocks[b]|
  {
    BlockHolds(w, b);
    RawBlock(w.base, KeyAt(w, b), w.f.blocks[b], v, copies, EarlyCount(w.f, b))
  }

  ghost function RawFunction(w: SoundTask, o: nat, k: nat): Function
    requires InRange(w.f, o, k)
  {
    Function(w.f.order, map b | b in w.f.blocks :: RawAt(w, b, Visited(w.f, o, k, b), Copies(w.f, o, k, b)))
  }

  ghost function Mid(w: SoundTask, o: nat, k: nat): Function
    requires InRange(w.f, o, k)
  {
    RenameFunction(SubstAt(w, o, k), RawFunction(w, o, k))
  }

  /** The function when every instruction has been visited. */
  ghost function Lowered(w: SoundTask): Function {
    Mid(w, |w.f.order|, 0)
  }

  // ---- One visit at a time

  lemma RawBlockUnvisited(base: nat, key: Value, b: Block, e: nat)
    requires b != [] && IsTerminator(b[|b| - 1])
    ensures RawBlock(base, key, b, 0, [], e) == b
  {
    assert b == b[0..|b| - 1] + [b[|b| - 1]];
  }

  lemma BeginLowering(w: SoundTask)
    ensures Mid(w, 0, 0) == w.f
  {
    hide RawBlock, KeyAt, IsTask, RenameFunction, Copies, EarlyCount;
    TaskStart(w);
    assert SubstAt(w, 0, 0) == map[];
    forall b | b in w.f.blocks
      ensures RawFunction(w, 0, 0).blocks[b] == w.f.blocks[b]
    {
      UnvisitedAt(w, b);
      BlockHolds(w, b);
      RawBlockUnvisited(w.base, KeyAt(w, b), w.f.blocks[b], EarlyCount(w.f, b));
    }
    assert RawFunction(w, 0, 0).blocks == w.f.blocks;
    RenameNothing(w.f);
  }

  lemma TaskStart(w: SoundTask)
    ensures InRange(w.f, 0, 0)
  {
  }

  lemma UnvisitedAt(w: SoundTask, b: BlockId)
    requires b in w.f.blocks
    ensures InRange(w.f, 0, 0) && w.f.blocks[b] != [] && Visited(w.f, 0, 0, b) == 0 && Copies(w.f, 0, 0, b) == []
  {
  }

  ghost predicate Ordered(f: Function) {
    && (forall i, j :: 0 <= i < j < |f.order| ==> f.order[i] != f.order[j])
    && (forall c :: c in f.order ==> c in f.blocks)
  }

  lemma VisitedNextBlock(f: Function, o: nat, b: BlockId)
    requires Ordered(f) && o < |f.order| && b in f.blocks
    ensures var n := |f.blocks[f.order[o]]|;
      Visited(f, o, n, b) == Visited(f, o + 1, 0, b) && Copies(f, o, n, b) == Copies(f, o + 1, 0, b)
  {
    assert f.order[..o + 1] == f.order[..o] + [f.order[o]];
  }

  lemma NextBlock(w: SoundTask, o: nat)
    requires o < |w.f.order|
    ensures InRange(w.f, o, |w.f.blocks[w.f.order[o]]|) && InRange(w.f, o + 1, 0)
    ensures Mid(w, o, |w.f.blocks[w.f.order[o]]|) == Mid(w, o + 1, 0)
  {
    hide Visited, Copies, RawBlock, RawAt, KeyAt, IsTask;
    TaskOrdered(w, o);
    var f, n := w.f, |w.f.blocks[w.f.order[o]]|;
    forall b | b in f.blocks
      ensures Visited(f, o, n, b) == Visited(f, o + 1, 0, b) && Copies(f, o, n, b) == Copies(f, o + 1, 0, b)
    {
      VisitedNextBlock(f, o, b);
    }
    forall x | x in w.at
      ensures w.at[x].block in f.blocks
    {
      TaskPlaces(w, x);
    }
    assert SubstAt(w, o, n) == SubstAt(w, o + 1, 0);
    assert RawFunction(w, o, n) == RawFunction(w, o + 1, 0);
  }

  lemma TaskOrdered(w: SoundTask, o: nat)
    requires o < |w.f.order|
    ensures Ordered(w.f) && w.f.order[o] in w.f.blocks
  {
  }

  lemma TaskPlaces(w: SoundTask, x: nat)
    requires x in w.at
    ensures DefinesAt(w.f, x, w.at[x])
  {
  }

  lemma VisitedStep(f: Function, o: nat, k: nat, b: BlockId)
    requires Ordered(f) && o < |f.order| && k < |f.blocks[f.order[o]]| && b in f.blocks
    ensures Visited(f, o, k + 1, b) == Visited(f, o, k, b) + (if b == f.order[o] then 1 else 0)
    ensures b == f.order[o] ==> Visited(f, o, k, b) == k
  {
    assert f.order[o] !in f.order[..o];
  }

  lemma TaskDefines(w: SoundTask, p: Pos)
    requires Within(w.f, p) && DefinesValue(InstAt(w.f, p))
    ensures InstAt(w.f, p).id in w.at && w.at[InstAt(w.f, p).id] == p
  {
  }

  // A result has been replaced once its instruction has been visited.
  lemma InSubst(w: SoundTask, o: nat, k: nat, x: nat)
    requires o < |w.f.order| && w.f.order[o] in w.f.blocks && k < |w.f.blocks[w.f.order[o]]| && x in w.at
    ensures InRange(w.f, o, k) && InRange(w.f, o, k + 1)
    ensures x in SubstAt(w, o, k + 1) <==> x in SubstAt(w, o, k) || w.at[x] == Pos(w.f.order[o], k)
    ensures w.at[x] == Pos(w.f.order[o], k) ==> x !in SubstAt(w, o, k)
  {
    hide Visited, IsTask;
    TaskOrdered(w, o);
    TaskPlaces(w, x);
    VisitedStep(w.f, o, k, w.at[x].block);
  }

  // Visiting one more instruction adds its own replacement.
  lemma SubstStep(w: SoundTask, o: nat, k: nat, i: Inst)
    requires o < |w.f.order| && w.f.order[o] in w.f.blocks && k < |w.f.blocks[w.f.order[o]]|
    requires i == w.f.blocks[w.f.order[o]][k]
    ensures InRange(w.f, o, k) && InRange(w.f, o, k + 1)
    ensures SubstAt(w, o, k + 1)
        == (if DefinesValue(i) then Extend(SubstAt(w, o, k), i.id, Virt(NameOf(i))) else SubstAt(w, o, k))
    ensures DefinesValue(i) ==> i.id !in SubstAt(w, o, k)
  {
    hide Visited, IsTask;
    var p := Pos(w.f.order[o], k);
    forall x | x in w.at
      ensures x in SubstAt(w, o, k + 1) <==> x in SubstAt(w, o, k) || w.at[x] == p
      ensures w.at[x] == p ==> DefinesValue(i) && x == i.id && x !in SubstAt(w, o, k)
    {
      TaskPlaces(w, x);
      InSubst(w, o, k, x);
    }
    if DefinesValue(i) {
      TaskDefines(w, p);
    }
  }

  // Renaming again after a visit.
  lemma RenameVisited(w: SoundTask, o: nat, k: nat, g: Function)
    requires o < |w.f.order| && w.f.order[o] in w.f.blocks && k < |w.f.blocks[w.f.order[o]]|
    ensures InRange(w.f, o, k) && InRange(w.f, o, k + 1)
    ensures var s := SubstAt(w, o, k);
      RenameFunction(VisitSubst(RenameInst(s, w.f.blocks[w.f.order[o]][k])), RenameFunction(s, g))
        == RenameFunction(SubstAt(w, o, k + 1), g)
  {
    hide SubstAt, IsTask, RenameInst, RenameFunction;
    var s, i := SubstAt(w, o, k), w.f.blocks[w.f.order[o]][k];
    SubstStep(w, o, k, i);
    RenameKeepsName(s, i);
    if DefinesValue(i) {
      RenameExtend(s, i.id, Virt(NameOf(i)), g);
    } else {
      RenameNothing(RenameFunction(s, g));
    }
  }

  lemma RenameKeepsName(s: Subst, i: Inst)
    ensures VisitSubst(RenameInst(s, i)) == VisitSubst(i)
  {
  }

  lemma LowerRenamed(s: Subst, base: nat, i: Inst)
    ensures LowerInst(base, RenameInst(s, i)) == RenameBlock(s, LowerRaw(base, KeyNow(RenameInst(s, i)), i))
  {
    var l := LowerRaw(base, KeyNow(RenameInst(s, i)), i);
    var r := LowerInst(base, RenameInst(s, i));
    assert |l| == |r|;
    assert forall k :: 0 <= k < |l| ==> r[k] == RenameInst(s, l[k]);
  }

  // What stands before and after the next instruction to be visited, before renaming.
  function RawBefore(base: nat, b: Block, k: nat, copies: Block): Block
    requires k < |b|
  {
    if k == |b| - 1 then Body(base, b, k) + copies else Body(base, b, k)
  }

  function RawAfter(b: Block, k: nat, copies: Block): Block
    requires k < |b|
  {
    if k == |b| - 1 then [] else b[k + 1..|b| - 1] + copies + [b[|b| - 1]]
  }

  lemma RawBlockSplit(base: nat, key: Value, b: Block, k: nat, copies: Block, e: nat)
    requires k < |b| && IsTerminator(b[|b| - 1])
    ensures RawBlock(base, key, b, k, copies, e) == RawBefore(base, b, k, copies) + [b[k]] + RawAfter(b, k, copies)
  {
    hide Body;
    var last := |b| - 1;
    if k < last {
      assert b[k..last] == [b[k]] + b[k + 1..last];
    } else {
      assert b[k..last] == [];
    }
  }

  lemma KeyUnused(base: nat, key: Value, i: Inst)
    requires !i.CondBranchInst?
    ensures LowerRaw(base, key, i) == LowerInst(base, i)
  {
  }

  lemma BodyStep(base: nat, b: Block, k: nat)
    requires k < |b|
    ensures Body(base, b, k + 1) == Body(base, b, k) + LowerInst(base, b[k])
  {
  }

  lemma RawBlockVisited(base: nat, key: Value, b: Block, k: nat, copies: Block, e: nat)
    requires k < |b| && (k < |b| - 1 ==> !b[k].CondBranchInst?) && IsTerminator(b[|b| - 1])
    requires k == |b| - 1 ==> e == |copies|
    ensures RawBlock(base, key, b, k + 1, copies, e)
        == RawBefore(base, b, k, copies) + LowerRaw(base, key, b[k]) + RawAfter(b, k, copies)
  {
    hide LowerRaw, Body, LowerInst;
    var last := |b| - 1;
    if k < last {
      KeyUnused(base, key, b[k]);
      BodyStep(base, b, k);
    } else {
      NeverEmpty(base, key, b[last]);
      EndingPlain(copies, LowerRaw(base, key, b[last]));
    }
  }

  lemma EndingPlain(copies: Block, lowered: Block)
    requires lowered != []
    ensures Ending(copies, lowered, []) == copies + lowered
  {
  }

  // ---- Visiting an instruction that is not a phi

  // The pieces of the block around the instruction at k, as they stand when it is visited.
  datatype Piece = Piece(b: BlockId, before: Block, inst: Inst, after: Block)

  ghost function PieceAt(w: SoundTask, o: nat, k: nat): (p: Piece)
    requires o < |w.f.order| && w.f.order[o] in w.f.blocks && k < |w.f.blocks[w.f.order[o]]|
  {
    var b := w.f.order[o];
    var s := SubstAt(w, o, k);
    var copies := Copies(w.f, o, k, b);
    Piece(b, RenameBlock(s, RawBefore(w.base, w.f.blocks[b], k, copies)), RenameInst(s, w.f.blocks[b][k]),
          RenameBlock(s, RawAfter(w.f.blocks[b], k, copies)))
  }

  lemma RawPieces(w: SoundTask, o: nat, k: nat)
    requires o < |w.f.order| && w.f.order[o] in w.f.blocks && k < |w.f.blocks[w.f.order[o]]|
    ensures var b := w.f.order[o]; var copies := Copies(w.f, o, k, b);
      b in RawFunction(w, o, k).blocks
        && RawFunction(w, o, k).blocks[b]
        == RawBefore(w.base, w.f.blocks[b], k, copies) + [w.f.blocks[b][k]] + RawAfter(w.f.blocks[b], k, copies)
  {
    hide RawBlock, KeyAt, IsTask, RenameFunction, Copies, RawBefore, RawAfter, Visited, EarlyCount;
    var b := w.f.order[o];
    TaskOrdered(w, o);
    BlockHolds(w, b);
    VisitedStep(w.f, o, k, b);
    RawBlockSplit(w.base, KeyAt(w, b), w.f.blocks[b], k, Copies(w.f, o, k, b), EarlyCount(w.f, b));
  }

  // The block about to be edited, in pieces.
  lemma MidPiece(w: SoundTask, o: nat, k: nat)
    requires o < |w.f.order| && w.f.order[o] in w.f.blocks && k < |w.f.blocks[w.f.order[o]]|
    ensures var p := PieceAt(w, o, k);
      p.b in Mid(w, o, k).blocks && Mid(w, o, k).blocks[p.b] == p.before + [p.inst] + p.after
  {
    hide RawBlock, KeyAt, IsTask, Copies, RawBefore, RawAfter, Visited, RawFunction, SubstAt;
    var b := w.f.order[o];
    TaskOrdered(w, o);
    RawPieces(w, o, k);
    var copies := Copies(w.f, o, k, b);
    RenameSplit(SubstAt(w, o, k), RawBefore(w.base, w.f.blocks[b], k, copies), w.f.blocks[b][k],
      RawAfter(w.f.blocks[b], k, copies));
  }

  // No instruction before the one at k has its identity.
  lemma {:induction false} BodyNoInst(base: nat, b: Block, m: nat, k: nat)
    requires BlockOk(b, base) && m <= k < |b|
    ensures NoInst(Body(base, b, m), b[k].id)
  {
    if m > 0 {
      BodyNoInst(base, b, m - 1, k);
    }
  }

  lemma {:induction false} CopiesFromNoInst(d: Block, k: nat, b: BlockId, x: nat)
    requires k <= |d|
    ensures NoInst(CopiesFrom(d, k, b), x)
  {
    if k > 0 {
      CopiesFromNoInst(d, k - 1, b, x);
    }
  }

  lemma {:induction false} CopiesBeforeNoInst(f: Function, o: nat, b: BlockId, x: nat)
    requires o <= |f.order| && forall c :: c in f.order ==> c in f.blocks
    ensures NoInst(CopiesBefore(f, o, b), x)
  {
    if o > 0 {
      CopiesBeforeNoInst(f, o - 1, b, x);
      CopiesFromNoInst(f.blocks[f.order[o - 1]], |f.blocks[f.order[o - 1]]|, b, x);
    }
  }

  lemma BeforeNoInst(f: Function, base: nat, o: nat, k: nat, b: BlockId)
    requires Ordered(f) && o < |f.order| && b == f.order[o] && BlockOk(f.blocks[b], base) && k < |f.blocks[b]|
    ensures NoInst(RawBefore(base, f.blocks[b], k, Copies(f, o, k, b)), f.blocks[b][k].id)
  {
    var x := f.blocks[b][k].id;
    BodyNoInst(base, f.blocks[b], k, k);
    CopiesBeforeNoInst(f, o, b, x);
    CopiesFromNoInst(f.blocks[b], k, b, x);
  }

  lemma TaskBlock(w: SoundTask, o: nat)
    requires o < |w.f.order|
    ensures Ordered(w.f) && w.f.order[o] in w.f.blocks && BlockOk(w.f.blocks[w.f.order[o]], w.base)
  {
  }

  lemma TaskInst(w: SoundTask, o: nat, k: nat)
    requires o < |w.f.order| && w.f.order[o] in w.f.blocks && k < |w.f.blocks[w.f.order[o]]|
    ensures var i := w.f.blocks[w.f.order[o]][k]; !i.MoveInst? && !i.ConstraintInst? && i.id < w.base
  {
  }

  lemma VisitReady(w: SoundTask, o: nat, k: nat, x: nat)
    requires o < |w.f.order| && w.f.order[o] in w.f.blocks && k < |w.f.blocks[w.f.order[o]]|
    requires IsInst(w.f.blocks[w.f.order[o]][k], x)
    ensures var p := PieceAt(w, o, k); VisitsAt(Mid(w, o, k), p.b, x, p.before, p.inst, p.after)
    ensures x < w.base
  {
    hide IsTask, Copies, RawBefore, RawAfter, SubstAt, Mid, RenameInst, RenameBlock, NoInst;
    var b := w.f.order[o];
    TaskBlock(w, o);
    TaskInst(w, o, k);
    var i, s := w.f.blocks[b][k], SubstAt(w, o, k);
    RenameKeepsIdentity(s, i, x);
    BeforeNoInst(w.f, w.base, o, k, b);
    RenameKeepsNoInst(s, RawBefore(w.base, w.f.blocks[b], k, Copies(w.f, o, k, b)), x);
    MidPiece(w, o, k);
  }

  lemma KeyAtLast(w: SoundTask, o: nat, k: nat)
    requires o < |w.f.order| && w.f.order[o] in w.f.blocks && k == |w.f.blocks[w.f.order[o]]| - 1
    ensures KeyAt(w, w.f.order[o]) == KeyNow(PieceAt(w, o, k).inst)
  {
    hide SubstAt, IsTask;
    TaskOrdered(w, o);
    assert IndexIn(w.f.order, w.f.order[o]) == o;
  }

  lemma CountAtLast(w: SoundTask, o: nat)
    requires o < |w.f.order| && w.f.order[o] in w.f.blocks && w.f.blocks[w.f.order[o]] != []
    requires w.f.blocks.Keys >= (set c | c in w.f.order)
    ensures EarlyCount(w.f, w.f.order[o])
        == |Copies(w.f, o, |w.f.blocks[w.f.order[o]]| - 1, w.f.order[o])|
  {
    hide IsTask, Copies;
    TaskOrdered(w, o);
    assert IndexIn(w.f.order, w.f.order[o]) == o;
  }

  lemma CopiesStep(f: Function, o: nat, k: nat, c: BlockId)
    requires Ordered(f) && o < |f.order| && k < |f.blocks[f.order[o]]|
    ensures Copies(f, o, k + 1, c) == Copies(f, o, k, c) + PhiCopy(f.blocks[f.order[o]][k], c)
  {
  }

  // The lowered instruction with the key it had.
  lemma VisitedBlock(w: SoundTask, o: nat, k: nat)
    requires o < |w.f.order| && w.f.order[o] in w.f.blocks && k < |w.f.blocks[w.f.order[o]]|
    ensures w.f.blocks[w.f.order[o]] != []
    ensures var p := PieceAt(w, o, k);
      p.before + LowerInst(w.base, p.inst) + p.after
      == RenameBlock(SubstAt(w, o, k), RawAt(w, p.b, k + 1, Copies(w.f, o, k, p.b)))
  {
    hide SubstAt, IsTask, Copies, RawBlock, RawBefore, RawAfter, LowerRaw, LowerInst, KeyAt, RenameInst;
    BlockHolds(w, w.f.order[o]);
    var b := w.f.order[o];
    TaskBlock(w, o);
    var block, s, copies, i := w.f.blocks[b], SubstAt(w, o, k), Copies(w.f, o, k, b), w.f.blocks[b][k];
    LowerRenamed(s, w.base, i);
    if k == |block| - 1 {
      KeyAtLast(w, o, k);
      CountAtLast(w, o);
    } else {
      KeyUnused(w.base, KeyAt(w, b), i);
      KeyUnused(w.base, KeyNow(RenameInst(s, i)), i);
    }
    RawBlockVisited(w.base, KeyAt(w, b), block, k, copies, EarlyCount(w.f, b));
    RenameAppend(s, RawBefore(w.base, block, k, copies), LowerRaw(w.base, KeyAt(w, b), i));
    RenameAppend(s, RawBefore(w.base, block, k, copies) + LowerRaw(w.base, KeyAt(w, b), i), RawAfter(block, k, copies));
  }

  lemma RawStep(w: SoundTask, o: nat, k: nat)
    requires o < |w.f.order| && w.f.order[o] in w.f.blocks && k < |w.f.blocks[w.f.order[o]]|
    requires !w.f.blocks[w.f.order[o]][k].PhiInst?
    ensures w.f.blocks[w.f.order[o]] != []
    ensures var b := w.f.order[o];
      WithBlock(RawFunction(w, o, k), b, RawAt(w, b, k + 1, Copies(w.f, o, k, b))) == RawFunction(w, o, k + 1)
  {
    hide IsTask, Copies, RawAt, KeyAt, Visited;
    TaskBlock(w, o);
    forall c | c in w.f.blocks
      ensures Copies(w.f, o, k + 1, c) == Copies(w.f, o, k, c)
      ensures c != w.f.order[o] ==> Visited(w.f, o, k + 1, c) == Visited(w.f, o, k, c)
      ensures c == w.f.order[o] ==> Visited(w.f, o, k + 1, c) == k + 1
    {
      CopiesStep(w.f, o, k, c);
      VisitedStep(w.f, o, k, c);
    }
  }

  // A visit moves the whole function on to the next instruction.
  lemma StepPlain(w: SoundTask, o: nat, k: nat)
    requires o < |w.f.order| && w.f.order[o] in w.f.blocks && k < |w.f.blocks[w.f.order[o]]|
    requires !w.f.blocks[w.f.order[o]][k].PhiInst?
    ensures var p := PieceAt(w, o, k);
      AfterVisit(Mid(w, o, k), w.base, p.b, p.before, p.inst, p.after) == Mid(w, o, k + 1)
  {
    hide IsTask, Copies, RawAt, RawFunction, KeyAt, Visited, RenameInst, RenameFunction, RenameBlock, WithBlock,
      VisitSubst, SubstAt,
      RawBefore, RawAfter, LowerInst;
    var p := PieceAt(w, o, k);
    TaskBlock(w, o);
    var s, raw := SubstAt(w, o, k), RawFunction(w, o, k);
    var edited := RawAt(w, p.b, k + 1, Copies(w.f, o, k, p.b));
    VisitedBlock(w, o, k);
    RenameWithBlock(s, raw, p.b, edited);
    RawStep(w, o, k);
    RenameVisited(w, o, k, RawFunction(w, o, k + 1));
  }

  // ---- Visiting a phi

  // One more copy in front of what a block ends in.
  lemma RawBlockCopy(base: nat, key: Value, b: Block, v: nat, copies: Block, e: nat, m: Inst)
    requires b != [] && v <= |b| && IsTerminator(b[|b| - 1]) && (v == |b| ==> e <= |copies|)
    ensures RawBlock(base, key, b, v, copies, e) != []
    ensures InsertLast(RawBlock(base, key, b, v, copies, e), m) == RawBlock(base, key, b, v, copies + [m], e)
  {
    hide Body, LowerRaw;
    var last := |b| - 1;
    if v <= last {
      LastAssoc(Body(base, b, v) + b[v..last], copies, b[last], m);
    } else {
      NeverEmpty(base, key, b[last]);
      EndingCopy(Body(base, b, last), copies[..e], LowerRaw(base, key, b[last]), copies[e..], m);
      assert (copies + [m])[..e] == copies[..e] && (copies + [m])[e..] == copies[e..] + [m];
    }
  }

  lemma EndingCopy(body: Block, early: Block, lowered: Block, late: Block, m: Inst)
    requires lowered != []
    ensures InsertLast(body + Ending(early, lowered, late), m) == body + Ending(early, lowered, late + [m])
  {
    var front, last := lowered[..|lowered| - 1], lowered[|lowered| - 1];
    LastAssoc(body + early + front, late, last, m);
    assert body + Ending(early, lowered, late) == body + early + front + late + [last];
    assert body + Ending(early, lowered, late + [m]) == body + early + front + (late + [m]) + [last];
  }

  lemma LastAssoc(head: Block, copies: Block, last: Inst, m: Inst)
    ensures InsertLast(head + copies + [last], m) == head + (copies + [m]) + [last]
  {
  }

  lemma TaskPhi(w: SoundTask, o: nat, k: nat)
    requires o < |w.f.order| && w.f.order[o] in w.f.blocks && k < |w.f.blocks[w.f.order[o]]|
    requires w.f.blocks[w.f.order[o]][k].PhiInst?
    ensures PhiOk(w.f, w.f.blocks[w.f.order[o]][k].incoming) && k < |w.f.blocks[w.f.order[o]]| - 1
  {
    hide Located, BlockOk, PhiOk, ValidFunction;
    assert IsPhi(w.f, Pos(w.f.order[o], k));
    PhiNotLast(w.f.blocks[w.f.order[o]], w.base, k);
  }

  lemma PhiNotLast(b: Block, base: nat, k: nat)
    requires BlockOk(b, base) && k < |b| && b[k].PhiInst?
    ensures k < |b| - 1
  {
  }

  // Copies of renamed values, inserted into a renamed function.
  lemma CopiesRenamed(s: Subst, g: Function, incoming: map<BlockId, Value>, renamed: map<BlockId, Value>,
      name: VirtName)
    requires renamed.Keys == incoming.Keys && forall c :: c in incoming ==> renamed[c] == Apply(s, incoming[c])
    ensures WithCopies(RenameFunction(s, g), renamed, renamed.Keys, Virt(name))
         == RenameFunction(s, WithCopies(g, incoming, incoming.Keys, Virt(name)))
  {
    hide RenameBlock, RenameInst;
    forall c | c in g.blocks && c in incoming && g.blocks[c] != []
      ensures RenameBlock(s, g.blocks[c]) != []
      ensures InsertLast(RenameBlock(s, g.blocks[c]), MoveInst(Virt(name), renamed[c]))
           == RenameBlock(s, InsertLast(g.blocks[c], MoveInst(Virt(name), incoming[c])))
    {
      InsertRenamed(s, g.blocks[c], Virt(name), incoming[c]);
    }
  }

  lemma InsertRenamed(s: Subst, b: Block, virt: Value, v: Value)
    requires b != [] && virt.Virt?
    ensures RenameBlock(s, b) != []
    ensures InsertLast(RenameBlock(s, b), MoveInst(virt, Apply(s, v)))
        == RenameBlock(s, InsertLast(b, MoveInst(virt, v)))
  {
  }

  // The copies of a phi, and the phi gone from its block.
  lemma RawPhiStep(w: SoundTask, o: nat, k: nat, i: Inst)
    requires o < |w.f.order| && w.f.order[o] in w.f.blocks && k < |w.f.blocks[w.f.order[o]]|
    requires i == w.f.blocks[w.f.order[o]][k] && i.PhiInst?
    ensures w.f.blocks[w.f.order[o]] != []
    ensures var b := w.f.order[o];
      WithCopies(WithBlock(RawFunction(w, o, k), b, RawAt(w, b, k + 1, Copies(w.f, o, k, b))),
                 i.incoming, i.incoming.Keys, Virt(Keyed(Def(i.id)))) == RawFunction(w, o, k + 1)
  {
    hide IsTask, Copies, RawAt, KeyAt, Visited, RawFunction, InsertLast;
    TaskBlock(w, o);
    var b, virt := w.f.order[o], Virt(Keyed(Def(i.id)));
    var g := WithBlock(RawFunction(w, o, k), b, RawAt(w, b, k + 1, Copies(w.f, o, k, b)));
    RawKeys(w, o, k);
    RawKeys(w, o, k + 1);
    forall c | c in w.f.blocks
      ensures c in i.incoming ==> g.blocks[c] != []
      ensures RawFunction(w, o, k + 1).blocks[c]
          == (if c in i.incoming then InsertLast(g.blocks[c], MoveInst(virt, i.incoming[c])) else g.blocks[c])
    {
      RawPhiBlock(w, o, k, i, c);
    }
  }

  lemma RawKeys(w: SoundTask, o: nat, k: nat)
    requires InRange(w.f, o, k)
    ensures RawFunction(w, o, k).blocks.Keys == w.f.blocks.Keys && RawFunction(w, o, k).order == w.f.order
  {
    hide RawAt, IsTask;
  }

  lemma TaskNonEmpty(w: SoundTask, c: BlockId)
    requires c in w.f.blocks
    ensures w.f.blocks[c] != []
  {
    assert BlockOk(w.f.blocks[c], w.base);
  }

  lemma RawPhiBlock(w: SoundTask, o: nat, k: nat, i: Inst, c: BlockId)
    requires o < |w.f.order| && w.f.order[o] in w.f.blocks && k < |w.f.blocks[w.f.order[o]]| && c in w.f.blocks
    requires i == w.f.blocks[w.f.order[o]][k] && i.PhiInst?
    ensures w.f.blocks[c] != []
    ensures Visited(w.f, o, k + 1, c) == (if c == w.f.order[o] then k + 1 else Visited(w.f, o, k, c))
    ensures var block := RawAt(w, c, Visited(w.f, o, k + 1, c), Copies(w.f, o, k, c));
      if c in i.incoming
      then block != []
        && RawFunction(w, o, k + 1).blocks[c] == InsertLast(block, MoveInst(Virt(Keyed(Def(i.id))), i.incoming[c]))
      else RawFunction(w, o, k + 1).blocks[c] == block
    ensures RawFunction(w, o, k).blocks[c]
        == RawAt(w, c, Visited(w.f, o, k, c), Copies(w.f, o, k, c))
  {
    hide IsTask, Copies, RawBlock, KeyAt, Visited, InsertLast, EarlyCount;
    TaskBlock(w, o);
    TaskNonEmpty(w, c);
    BlockHolds(w, c);
    CopiesStep(w.f, o, k, c);
    VisitedStep(w.f, o, k, c);
    if c in i.incoming {
      TaskPhi(w, o, k);
      CopiesGrow(w, o, k, c);
      RawBlockCopy(w.base, KeyAt(w, c), w.f.blocks[c], Visited(w.f, o, k + 1, c), Copies(w.f, o, k, c),
        EarlyCount(w.f, c), MoveInst(Virt(Keyed(Def(i.id))), i.incoming[c]));
    } else {
      assert Copies(w.f, o, k, c) + [] == Copies(w.f, o, k, c);
    }
  }

  lemma {:induction false} FromGrows(d: Block, k: nat, n: nat, b: BlockId)
    requires k <= n <= |d|
    ensures |CopiesFrom(d, k, b)| <= |CopiesFrom(d, n, b)|
    decreases n
  {
    if k < n {
      FromGrows(d, k, n - 1, b);
    }
  }

  lemma {:induction false} BeforeGrows(f: Function, a: nat, o: nat, b: BlockId)
    requires a <= o <= |f.order| && forall c :: c in f.order ==> c in f.blocks
    ensures |CopiesBefore(f, a, b)| <= |CopiesBefore(f, o, b)|
    decreases o
  {
    hide CopiesFrom;
    if a < o {
      BeforeGrows(f, a, o - 1, b);
    }
  }

  // Once a block has been visited, all its early copies are there.
  lemma CopiesGrow(w: SoundTask, o: nat, k: nat, c: BlockId)
    requires o < |w.f.order| && w.f.order[o] in w.f.blocks && k < |w.f.blocks[w.f.order[o]]| - 1 && c in w.f.blocks
    requires c in w.f.order && w.f.blocks.Keys >= (set d | d in w.f.order) && w.f.blocks[c] != []
    ensures Visited(w.f, o, k + 1, c) == |w.f.blocks[c]| ==> EarlyCount(w.f, c) <= |Copies(w.f, o, k, c)|
  {
    hide IsTask, CopiesFrom;
    TaskOrdered(w, o);
    if Visited(w.f, o, k + 1, c) == |w.f.blocks[c]| {
      var a, last := IndexIn(w.f.order, c), |w.f.blocks[c]| - 1;
      FromGrows(w.f.blocks[c], last, last + 1, c);
      BeforeGrows(w.f, a + 1, o, c);
    }
  }

  lemma StepPhi(w: SoundTask, o: nat, k: nat)
    requires o < |w.f.order| && w.f.order[o] in w.f.blocks && k < |w.f.blocks[w.f.order[o]]|
    requires w.f.blocks[w.f.order[o]][k].PhiInst?
    ensures PieceAt(w, o, k).inst.PhiInst?
    ensures var p := PieceAt(w, o, k); AfterPhi(Mid(w, o, k), p.b, p.before, p.inst, p.after) == Mid(w, o, k + 1)
  {
    hide IsTask, Copies, RawAt, RawFunction, KeyAt, Visited, RenameInst, RenameFunction, RenameBlock, WithBlock,
      VisitSubst, SubstAt,
      RawBefore, RawAfter, LowerInst, WithCopies;
    var p := PieceAt(w, o, k);
    TaskBlock(w, o);
    var s, raw, i := SubstAt(w, o, k), RawFunction(w, o, k), w.f.blocks[p.b][k];
    var copies := Copies(w.f, o, k, p.b);
    RenamedPhi(s, w.base, i);
    var edited := RawAt(w, p.b, k + 1, copies);
    VisitedBlock(w, o, k);
    assert p.before + [] + p.after == p.before + p.after;
    RenameWithBlock(s, raw, p.b, edited);
    CopiesRenamed(s, WithBlock(raw, p.b, edited), i.incoming, p.inst.incoming, Keyed(Def(i.id)));
    RawPhiStep(w, o, k, i);
    RenameVisited(w, o, k, RawFunction(w, o, k + 1));
  }

  lemma RenamedPhi(s: Subst, base: nat, i: Inst)
    requires i.PhiInst?
    ensures RenameInst(s, i).PhiInst? && RenameInst(s, i).id == i.id && LowerInst(base, RenameInst(s, i)) == []
    ensures var r := RenameInst(s, i);
      r.incoming.Keys == i.incoming.Keys && forall c :: c in i.incoming ==> r.incoming[c] == Apply(s, i.incoming[c])
  {
  }

  // ---- The pass

  lemma AfterLast(w: SoundTask, o: nat, k: nat)
    requires o < |w.f.order| && w.f.order[o] in w.f.blocks && k < |w.f.blocks[w.f.order[o]]|
    ensures IsTerminator(w.f.blocks[w.f.order[o]][k]) ==> PieceAt(w, o, k).after == []
    ensures w.f.blocks[w.f.order[o]][k].PhiInst? ==> PieceAt(w, o, k).after != []
  {
    hide IsTask, Copies, SubstAt, RawBefore, RenameInst;
    TaskBlock(w, o);
  }

  lemma RawNonEmpty(w: SoundTask, c: BlockId, v: nat, copies: Block)
    requires c in w.f.blocks && v <= |w.f.blocks[c]|
    ensures RawAt(w, c, v, copies) != []
  {
    hide IsTask, KeyAt, Body, EarlyCount;
    BlockHolds(w, c);
  }

  // The values that a phi takes come from blocks that are still there and not empty.
  lemma IncomingNow(w: SoundTask, o: nat, k: nat, c: BlockId)
    requires o < |w.f.order| && w.f.order[o] in w.f.blocks && k < |w.f.blocks[w.f.order[o]]|
    requires w.f.blocks[w.f.order[o]][k].PhiInst? && c in w.f.blocks[w.f.order[o]][k].incoming
    ensures c in Mid(w, o, k).blocks && Mid(w, o, k).blocks[c] != []
  {
    hide IsTask, Copies, SubstAt, KeyAt, RawBlock, EarlyCount;
    TaskBlock(w, o);
    TaskPhi(w, o, k);
    RawNonEmpty(w, c, Visited(w.f, o, k, c), Copies(w.f, o, k, c));
  }

  lemma SameKind(s: Subst, i: Inst)
    ensures RenameInst(s, i).AllocInst? == i.AllocInst? && RenameInst(s, i).BinaryInst? == i.BinaryInst?
    ensures RenameInst(s, i).CompareInst? == i.CompareInst? && RenameInst(s, i).LoadInst? == i.LoadInst?
    ensures RenameInst(s, i).StoreInst? == i.StoreInst? && RenameInst(s, i).PhiInst? == i.PhiInst?
    ensures RenameInst(s, i).BranchInst? == i.BranchInst? && RenameInst(s, i).CondBranchInst? == i.CondBranchInst?
    ensures RenameInst(s, i).RetInst? == i.RetInst?
    ensures i.PhiInst? ==> RenameInst(s, i).incoming.Keys == i.incoming.Keys
  {
  }

  lemma NothingToDo(f: Function, base: nat, b: BlockId, x: nat, a: Block, i: Inst, r: Block)
    requires VisitsAt(f, b, x, a, i, r) && (i.AllocInst? || i.BranchInst?)
    ensures AfterVisit(f, base, b, a, i, r) == f
  {
    WithOwnBlock(f, b);
    RenameNothing(f);
  }

  // Dispatches on the kind of the instruction.
  method VisitInst(target: FunctionObject, base: nat, b: BlockId, inst: Inst, x: nat, ghost w: SoundTask, ghost o: nat,
      ghost k: nat)
    requires o < |w.f.order| && b == w.f.order[o] && b in w.f.blocks && k < |w.f.blocks[b]| && inst == w.f.blocks[b][k]
    requires IsInst(inst, x) && base == w.base && target.fn == Mid(w, o, k)
    modifies target
    ensures InRange(w.f, o, k + 1) && target.fn == Mid(w, o, k + 1)
  {
    hide IsTask, Copies, RawAt, RawFunction, KeyAt, Visited, RenameInst, RenameFunction, RenameBlock, WithBlock,
      SubstAt,
      RawBefore, RawAfter, LowerInst, WithCopies, VisitsAt, AfterVisit, AfterPhi, Mid;
    TaskBlock(w, o);
    ghost var p := PieceAt(w, o, k);
    VisitReady(w, o, k, x);
    AfterLast(w, o, k);
    SameKind(SubstAt(w, o, k), inst);
    if inst.PhiInst? {
      StepPhi(w, o, k);
      forall c | c in p.inst.incoming
        ensures c in target.fn.blocks && target.fn.blocks[c] != []
      {
        IncomingNow(w, o, k, c);
      }
      VisitPhi(target, b, x, p.before, p.inst, p.after);
    } else {
      StepPlain(w, o, k);
      if inst.BinaryInst? {
        VisitBinary(target, b, x, base, p.before, p.inst, p.after);
      } else if inst.CompareInst? {
        VisitCompare(target, b, x, base, p.before, p.inst, p.after);
      } else if inst.CondBranchInst? {
        VisitCondBranch(target, b, x, base, p.before, p.inst);
      } else if inst.LoadInst? {
        VisitLoad(target, b, x, base, p.before, p.inst, p.after);
      } else if inst.StoreInst? {
        VisitStore(target, b, x, base, p.before, p.inst, p.after);
      } else if inst.RetInst? {
        VisitRet(target, b, x, base, p.before, p.inst, p.after);
      } else {
        NothingToDo(target.fn, base, b, x, p.before, p.inst, p.after);
      }
    }
  }

  // Visits the instructions that one block held before the pass began.
  method VisitBlock(target: FunctionObject, base: nat, b: BlockId, insts: Block, ghost w: SoundTask, ghost o: nat)
    requires o < |w.f.order| && b == w.f.order[o] && b in w.f.blocks && insts == w.f.blocks[b]
    requires InRange(w.f, o, 0) && base == w.base && target.fn == Mid(w, o, 0)
    modifies target
    ensures InRange(w.f, o + 1, 0) && target.fn == Mid(w, o + 1, 0)
  {
    hide IsTask, Mid;
    TaskBlock(w, o);
    var k := 0;
    while k < |insts|
      invariant 0 <= k <= |insts| && InRange(w.f, o, k) && target.fn == Mid(w, o, k)
    {
      TaskInst(w, o, k);
      VisitInst(target, base, b, insts[k], insts[k].id, w, o, k);
      k := k + 1;
    }
    assert k == |w.f.blocks[w.f.order[o]]|;
    NextBlock(w, o);
  }

  /** Lowers the whole function; the work queue is what it held at the start. */
  method RunOn(target: FunctionObject, base: nat, ghost w: SoundTask)
    requires target.fn == w.f && base == w.base
    modifies target
    ensures InRange(w.f, |w.f.order|, 0) && target.fn == Lowered(w)
  {
    hide IsTask, Mid;
    TaskStart(w);
    BeginLowering(w);
    var workQueue := target.fn;
    var o := 0;
    while o < |workQueue.order|
      invariant 0 <= o <= |w.f.order| && InRange(w.f, o, 0) && target.fn == Mid(w, o, 0)
    {
      TaskBlock(w, o);
      VisitBlock(target, base, workQueue.order[o], workQueue.blocks[workQueue.order[o]], w, o);
      o := o + 1;
    }
  }
}

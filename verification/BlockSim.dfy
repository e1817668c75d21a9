/** The code of a lowered and allocated block does what the block does. */
module BlockSim {
  import opened Words
  import opened X86
  import opened Ir
  import opened Ssa
  import opened MachineRun
  import opened Backend
  import opened StackFrame
  import opened GroupSim
  import opened PhiCopies
  import M = MoveInserter
  import A = RegAllocator

  // ---- Emission of lists

  ghost predicate ListOk(slots: Slots, labels: Labels, list: Block) {
    forall j :: 0 <= j < |list| ==> CanEmit(slots, labels, list[j])
  }

  ghost function Emit(slots: Slots, labels: Labels, list: Block): Program
    requires ListOk(slots, labels, list)
  {
    EmitBlock(slots, labels, list, |list|)
  }

  lemma {:induction false} EmitPrefix(slots: Slots, labels: Labels, a: Block, b: Block, k: nat)
    requires ListOk(slots, labels, a) && k <= |a| && (forall j :: 0 <= j < k ==> CanEmit(slots, labels, (a + b)[j]))
    ensures EmitBlock(slots, labels, a + b, k) == EmitBlock(slots, labels, a, k)
  {
    if k > 0 {
      EmitPrefix(slots, labels, a, b, k - 1);
    }
  }

  lemma {:induction false} EmitAppend(slots: Slots, labels: Labels, a: Block, b: Block)
    requires ListOk(slots, labels, a) && ListOk(slots, labels, b)
    ensures ListOk(slots, labels, a + b)
    ensures Emit(slots, labels, a + b) == Emit(slots, labels, a) + Emit(slots, labels, b)
    decreases |b|
  {
    hide CanEmit, EmitInst;
    if b == [] {
      assert a + b == a;
    } else {
      var k := |b| - 1;
      var front := b[..k];
      EmitAppend(slots, labels, a, front);
      assert a + b == (a + front) + [b[k]] && b == front + [b[k]];
      EmitPrefix(slots, labels, a + front, [b[k]], |a + front|);
      EmitPrefix(slots, labels, front, [b[k]], |front|);
    }
  }

  lemma JoinExec(slots: Slots, labels: Labels, a: Block, b: Block, m: Machine, m1: Machine, m2: Machine)
    requires ListOk(slots, labels, a) && ListOk(slots, labels, b)
    requires ExecList(Emit(slots, labels, a), m) == Some(m1) && ExecList(Emit(slots, labels, b), m1) == Some(m2)
    ensures ListOk(slots, labels, a + b) && ExecList(Emit(slots, labels, a + b), m) == Some(m2)
  {
    hide ListOk, EmitBlock, ExecList;
    EmitAppend(slots, labels, a, b);
    ExecListAppend(Emit(slots, labels, a), Emit(slots, labels, b), m);
  }

  lemma EmitOne(slots: Slots, labels: Labels, i: Inst)
    requires CanEmit(slots, labels, i)
    ensures ListOk(slots, labels, [i]) && Emit(slots, labels, [i]) == EmitInst(slots, labels, i)
  {
    assert EmitBlock(slots, labels, [i], 0) == [];
  }

  // ---- After renaming and allocation

  // What renaming and allocation made of the uses of results, and where results live.
  datatype Naming = Naming(names: Subst, regs: A.Regs)

  ghost predicate NamingOk(fr: Frame, n: Naming) {
    forall x {:trigger fr.homes[x]} :: x in fr.homes ==>
      x in n.names && n.names[x].Virt? && n.names[x].name in n.regs && n.regs[n.names[x].name] == Alloc(fr.homes[x])
  }

  function FinalValue(n: Naming, v: Value): Value {
    A.ApplyReg(n.regs, Apply(n.names, v))
  }

  function Final(n: Naming, list: Block): Block {
    A.AssignBlock(n.regs, RenameBlock(n.names, list))
  }

  function FinalInst(n: Naming, i: Inst): Inst {
    A.AssignInst(n.regs, RenameInst(n.names, i))
  }

  lemma FinalAppend(n: Naming, a: Block, b: Block)
    ensures Final(n, a + b) == Final(n, a) + Final(n, b)
  {
  }

  lemma FinalOne(n: Naming, i: Inst)
    ensures Final(n, [i]) == [FinalInst(n, i)]
  {
  }

  lemma FinalMove(n: Naming, dst: Value, val: Value)
    ensures FinalInst(n, MoveInst(dst, val)) == MoveInst(FinalValue(n, dst), FinalValue(n, val))
  {
  }

  lemma FinalLoc(fr: Frame, n: Naming, v: Value)
    requires FrameOk(fr) && NamingOk(fr, n) && HasPlace(fr, v)
    ensures FinalValue(n, v) == Loc(fr, v)
  {
  }

  lemma FinalOfName(fr: Frame, n: Naming, x: nat, name: VirtName)
    requires FrameOk(fr) && NamingOk(fr, n) && x in fr.homes && x in n.names && n.names[x] == Virt(name)
    ensures FinalValue(n, Virt(name)) == Alloc(fr.homes[x]) && fr.homes[x] in fr.slots
  {
  }

  // An instruction of the class that is lowered faithfully.
  ghost predicate InstOk(fr: Frame, n: Naming, i: Inst) {
    && (DefinesValue(i) ==> i.id in fr.homes && i.id in n.names && n.names[i.id] == Virt(M.NameOf(i)))
    && match i
       case BinaryInst(_, op, lhs, rhs) => op != Shl && IsOperand(fr, lhs) && IsOperand(fr, rhs)
       case CompareInst(_, _, lhs, rhs) => IsOperand(fr, lhs) && IsOperand(fr, rhs)
       case LoadInst(_, ptr) => IsVariable(fr, ptr)
       case StoreInst(_, ptr, val) => IsVariable(fr, ptr) && IsOperand(fr, val)
       case PhiInst(_, incoming) => forall b :: b in incoming ==> IsOperand(fr, incoming[b])
       case CondBranchInst(_, cond, _, _) => IsOperand(fr, cond)
       case RetInst(_, retVal) => IsOperand(fr, retVal)
       case AllocInst(_) => true
       case BranchInst(_, _) => true
       case MoveInst(_, _) => false
       case ConstraintInst(_) => false
  }

  // Addresses of variables are only used to load and store.
  ghost predicate IsOperand(fr: Frame, v: Value) {
    HasPlace(fr, v) && !v.Alloc?
  }

  ghost predicate IsVariable(fr: Frame, v: Value) {
    v.Alloc? && v.id in fr.vars && v.id in fr.slots
  }

  ghost predicate InBody(i: Inst) {
    !IsTerminator(i)
  }

  ghost function Lowered(n: Naming, base: nat, i: Inst): Block {
    Final(n, M.LowerInst(base, i))
  }

  lemma {:induction false} OneMove(fr: Frame, n: Naming, labels: Labels, dst: Value, val: Value, a: nat)
    requires FrameOk(fr) && NamingOk(fr, n) && HasPlace(fr, val) && a in fr.slots && FinalValue(n, dst) == Alloc(a)
    ensures Final(n, [MoveInst(dst, val)]) == [MoveInst(Alloc(a), Loc(fr, val))]
    ensures CanEmitOp(fr.slots, Loc(fr, val)) && ListOk(fr.slots, labels, [MoveInst(Alloc(a), Loc(fr, val))])
    ensures Emit(fr.slots, labels, [MoveInst(Alloc(a), Loc(fr, val))]) == EmitMove(fr.slots, Alloc(a), Loc(fr, val))
  {
    hide FrameOk, NamingOk, EmitMove;
    FinalOne(n, MoveInst(dst, val));
    FinalMove(n, dst, val);
    FinalLoc(fr, n, val);
    LocPlace(fr, val);
    EmitOne(fr.slots, labels, MoveInst(Alloc(a), Loc(fr, val)));
  }

  // The four instructions of a lowered operation.
  lemma OperationEmitted(fr: Frame, n: Naming, labels: Labels, x: nat, lhs: Value, rhs: Value, operation: Inst)
    requires FrameOk(fr) && NamingOk(fr, n) && IsOperand(fr, lhs) && IsOperand(fr, rhs)
    requires x in fr.homes && x in n.names && n.names[x] == Virt(NewDef(x)) && fr.homes[x] in fr.slots
    requires CanEmit(fr.slots, labels, operation) && FinalInst(n, operation) == operation
    ensures var list := Final(n,
        [MoveInst(Phys(0), lhs), MoveInst(Phys(1), rhs), operation, MoveInst(Virt(NewDef(x)), Phys(0))]);
      ListOk(fr.slots, labels, list)
      && Emit(fr.slots, labels, list) == OperationGroup(fr, x, lhs, rhs, EmitInst(fr.slots, labels, operation))
  {
    hide FrameOk, NamingOk, EmitInst;
    var m1, m2, m3 := MoveInst(Phys(0), lhs), MoveInst(Phys(1), rhs), MoveInst(Virt(NewDef(x)), Phys(0));
    assert [m1, m2, operation, m3] == [m1] + [m2] + [operation] + [m3];
    FinalAppend(n, [m1] + [m2] + [operation], [m3]);
    FinalAppend(n, [m1] + [m2], [operation]);
    FinalAppend(n, [m1], [m2]);
    ScratchMove(fr, n, labels, 0, lhs);
    ScratchMove(fr, n, labels, 1, rhs);
    FinalOne(n, operation);
    EmitOne(fr.slots, labels, operation);
    ResultMove(fr, n, labels, x);
    EmitAppend(fr.slots, labels, Final(n, [m1]), Final(n, [m2]));
    EmitAppend(fr.slots, labels, Final(n, [m1]) + Final(n, [m2]), [operation]);
    EmitAppend(fr.slots, labels, Final(n, [m1]) + Final(n, [m2]) + [operation], Final(n, [m3]));
  }

  lemma ScratchMove(fr: Frame, n: Naming, labels: Labels, r: nat, v: Value)
    requires FrameOk(fr) && NamingOk(fr, n) && IsOperand(fr, v) && r < 2
    ensures ListOk(fr.slots, labels, Final(n, [MoveInst(Phys(r), v)]))
    ensures Emit(fr.slots, labels, Final(n, [MoveInst(Phys(r), v)])) == [Mov(Reg(r), Place(fr, v))]
  {
    hide FrameOk, NamingOk;
    FinalOne(n, MoveInst(Phys(r), v));
    FinalMove(n, Phys(r), v);
    FinalLoc(fr, n, v);
    LocPlace(fr, v);
    EmitOne(fr.slots, labels, MoveInst(Phys(r), Loc(fr, v)));
  }

  lemma ResultMove(fr: Frame, n: Naming, labels: Labels, x: nat)
    requires FrameOk(fr) && NamingOk(fr, n) && x in fr.homes && x in n.names && n.names[x] == Virt(NewDef(x))
    requires fr.homes[x] in fr.slots
    ensures ListOk(fr.slots, labels, Final(n, [MoveInst(Virt(NewDef(x)), Phys(0))]))
    ensures Emit(fr.slots, labels, Final(n, [MoveInst(Virt(NewDef(x)), Phys(0))]))
        == [Mov(SlotOperand(fr, fr.homes[x]), Reg(RAX))]
  {
    hide FrameOk, NamingOk;
    FinalOne(n, MoveInst(Virt(NewDef(x)), Phys(0)));
    FinalMove(n, Virt(NewDef(x)), Phys(0));
    FinalOfName(fr, n, x, NewDef(x));
    EmitOne(fr.slots, labels, MoveInst(Alloc(fr.homes[x]), Phys(0)));
  }

  // ---- One instruction of the body of a block

  // Everything that an instruction of the body becomes can be emitted.
  lemma BodyEmittable(fr: Frame, n: Naming, labels: Labels, base: nat, i: Inst)
    requires FrameOk(fr) && NamingOk(fr, n) && InstOk(fr, n, i) && InBody(i)
    ensures ListOk(fr.slots, labels, Lowered(n, base, i))
  {
    hide FrameOk, NamingOk;
    if i.BinaryInst? {
      FinalOfName(fr, n, i.id, NewDef(i.id));
      OperationEmitted(fr, n, labels, i.id, i.lhs, i.rhs, BinaryInst(base + i.id, i.op, Phys(0), Phys(1)));
    } else if i.CompareInst? {
      FinalOfName(fr, n, i.id, NewDef(i.id));
      OperationEmitted(fr, n, labels, i.id, i.lhs, i.rhs, CompareInst(base + i.id, i.pred, Phys(0), Phys(1)));
    } else if i.LoadInst? {
      FinalOfName(fr, n, i.id, LoadReg(i.id));
      OneMove(fr, n, labels, Virt(LoadReg(i.id)), i.ptr, fr.homes[i.id]);
    } else if i.StoreInst? {
      FinalLoc(fr, n, i.ptr);
      OneMove(fr, n, labels, i.ptr, i.val, i.ptr.id);
    } else if i.AllocInst? {
      FinalOne(n, i);
    }
  }

  // The left operand of a compare is below 256 when it runs.
  ghost predicate SmallCompare(i: Inst, st: State) {
    i.CompareInst? ==> forall l :: Eval(i.lhs, st.env) == Some(l) ==> l < 256
  }

  /** The code of an instruction of the body does what the instruction does. */
  lemma InstSim(fr: Frame, n: Naming, labels: Labels, base: nat, i: Inst, st: State, m: Machine) returns (m': Machine)
    requires FrameOk(fr) && NamingOk(fr, n) && InstOk(fr, n, i) && InBody(i) && Related(fr, st, m)
    requires ExecInst(i, st).Fell? && SmallCompare(i, st)
    ensures ListOk(fr.slots, labels, Lowered(n, base, i))
    ensures ExecList(Emit(fr.slots, labels, Lowered(n, base, i)), m) == Some(m')
    ensures Related(fr, ExecInst(i, st).st, m')
  {
    hide FrameOk, NamingOk, EnvHeld, CellsHeld, FrameKept, ExecData, OperationGroup, EmitMove, EvalBinary, EvalCompare,
      Read64, Write64;
    if i.BinaryInst? {
      FinalOfName(fr, n, i.id, NewDef(i.id));
      OperationEmitted(fr, n, labels, i.id, i.lhs, i.rhs, BinaryInst(base + i.id, i.op, Phys(0), Phys(1)));
      m' := BinarySim(fr, st, m, i.id, i.op, i.lhs, i.rhs);
    } else if i.CompareInst? {
      FinalOfName(fr, n, i.id, NewDef(i.id));
      OperationEmitted(fr, n, labels, i.id, i.lhs, i.rhs, CompareInst(base + i.id, i.pred, Phys(0), Phys(1)));
      m' := CompareSim(fr, st, m, i.id, i.pred, i.lhs, i.rhs);
    } else if i.LoadInst? {
      FinalOfName(fr, n, i.id, LoadReg(i.id));
      OneMove(fr, n, labels, Virt(LoadReg(i.id)), i.ptr, fr.homes[i.id]);
      m' := LoadSim(fr, st, m, i.id, i.ptr.id);
    } else if i.StoreInst? {
      FinalLoc(fr, n, i.ptr);
      OneMove(fr, n, labels, i.ptr, i.val, i.ptr.id);
      m' := StoreSim(fr, st, m, i.id, i.ptr.id, i.val);
    } else if i.AllocInst? {
      FinalOne(n, i);
      EmitOne(fr.slots, labels, i);
      m' := m;
    } else {
      m' := m;
    }
  }

  // ---- The body of a block

  ghost predicate BodyOk(fr: Frame, n: Naming, b: Block, k: nat)
    requires k <= |b|
  {
    forall j :: 0 <= j < k ==> InstOk(fr, n, b[j]) && InBody(b[j])
  }

  // The compares that run among the first k instructions are small.
  ghost predicate SmallCompares(b: Block, k: nat, st: State)
    requires k <= |b|
  {
    forall j :: 0 <= j < k && ExecInsts(b[..j], st).Fell? ==> SmallCompare(b[j], ExecInsts(b[..j], st).st)
  }

  lemma ExecPrefix(b: Block, k: nat, st: State)
    requires k < |b| && ExecInsts(b[..k + 1], st).Fell?
    ensures ExecInsts(b[..k], st).Fell? && ExecInsts(b[..k + 1], st) == ExecInst(b[k], ExecInsts(b[..k], st).st)
  {
    assert b[..k + 1] == b[..k] + [b[k]];
    ExecAppend(b[..k], [b[k]], st);
  }

  ghost function BodyCode(n: Naming, base: nat, b: Block, k: nat): Block
    requires k <= |b|
  {
    Final(n, M.Body(base, b, k))
  }

  lemma BodyCodeStep(n: Naming, base: nat, b: Block, k: nat)
    requires k < |b|
    ensures BodyCode(n, base, b, k + 1) == BodyCode(n, base, b, k) + Lowered(n, base, b[k])
  {
    FinalAppend(n, M.Body(base, b, k), M.LowerInst(base, b[k]));
  }

  lemma {:induction false} BodyListOk(fr: Frame, n: Naming, labels: Labels, base: nat, b: Block, k: nat)
    requires FrameOk(fr) && NamingOk(fr, n) && k <= |b| && BodyOk(fr, n, b, k)
    ensures ListOk(fr.slots, labels, BodyCode(n, base, b, k))
  {
    hide FrameOk, NamingOk, CanEmit, InstOk, Lowered, Final;
    if k == 0 {
      assert BodyCode(n, base, b, 0) == [] by { FinalNothing(n); }
    } else {
      BodyListOk(fr, n, labels, base, b, k - 1);
      BodyEmittable(fr, n, labels, base, b[k - 1]);
      BodyCodeStep(n, base, b, k - 1);
    }
  }

  lemma FinalNothing(n: Naming)
    ensures Final(n, []) == []
  {
  }

  /** Straight-line code of the first k instructions of a block. */
  lemma {:induction false} BodySim(fr: Frame, n: Naming, labels: Labels, base: nat, b: Block, k: nat, st: State,
      m: Machine) returns (m': Machine)
    requires FrameOk(fr) && NamingOk(fr, n) && k <= |b| && BodyOk(fr, n, b, k) && Related(fr, st, m)
    requires ExecInsts(b[..k], st).Fell? && SmallCompares(b, k, st)
    ensures ListOk(fr.slots, labels, BodyCode(n, base, b, k))
    ensures ExecList(Emit(fr.slots, labels, BodyCode(n, base, b, k)), m) == Some(m')
    ensures Related(fr, ExecInsts(b[..k], st).st, m')
  {
    hide FrameOk, NamingOk, CanEmit, InstOk, Lowered, Final, Related, ExecInst, SmallCompare, ExecData;
    BodyListOk(fr, n, labels, base, b, k);
    if k == 0 {
      FinalNothing(n);
      m' := m;
    } else {
      ExecPrefix(b, k - 1, st);
      var m1 := BodySim(fr, n, labels, base, b, k - 1, st, m);
      m' := InstSim(fr, n, labels, base, b[k - 1], ExecInsts(b[..k - 1], st).st, m1);
      BodyCodeStep(n, base, b, k - 1);
      JoinExec(fr.slots, labels, BodyCode(n, base, b, k - 1), Lowered(n, base, b[k - 1]), m, m1, m');
    }
  }

  // ---- The copies in front of a branch

  lemma CopyEmitted(fr: Frame, n: Naming, labels: Labels, i: Inst, b: BlockId)
    requires FrameOk(fr) && NamingOk(fr, n) && InstOk(fr, n, i) && IsCopy(i, b)
    ensures fr.homes[i.id] in fr.slots && CanEmitOp(fr.slots, Loc(fr, i.incoming[b]))
    ensures ListOk(fr.slots, labels, Final(n, M.PhiCopy(i, b)))
    ensures Emit(fr.slots, labels, Final(n, M.PhiCopy(i, b)))
        == EmitMove(fr.slots, Alloc(fr.homes[i.id]), Loc(fr, i.incoming[b]))
  {
    hide FrameOk, NamingOk;
    FinalOfName(fr, n, i.id, Keyed(Def(i.id)));
    OneMove(fr, n, labels, Virt(Keyed(Def(i.id))), i.incoming[b], fr.homes[i.id]);
  }

  lemma OneCopySim(fr: Frame, n: Naming, labels: Labels, i: Inst, b: BlockId, st: State, m: Machine)
      returns (m': Machine)
    requires FrameOk(fr) && NamingOk(fr, n) && InstOk(fr, n, i) && IsCopy(i, b) && Related(fr, st, m)
    ensures ListOk(fr.slots, labels, Final(n, M.PhiCopy(i, b)))
    ensures ExecList(Emit(fr.slots, labels, Final(n, M.PhiCopy(i, b))), m) == Some(m')
    ensures Related(fr, st.(env := Bind(st.env, i.id, Eval(i.incoming[b], st.env))), m')
    ensures SparesKept(fr, m, m') && m'.regs[RAX] == m.regs[RAX]
  {
    hide FrameOk, NamingOk, EnvHeld, CellsHeld, FrameKept, EmitMove, ExecData, Get, SparesKept;
    CopyEmitted(fr, n, labels, i, b);
    var v := i.incoming[b];
    PlaceHolds(fr, st, m, v);
    m' := CopySim(fr, st, m, i.id, v);
    FewerResults(fr, st.(env := st.env[i.id := Get(Place(fr, v), m)]), m', Bind(st.env, i.id, Eval(v, st.env)));
  }

  ghost predicate PhisOk(fr: Frame, n: Naming, d: Block) {
    forall j :: 0 <= j < |d| && d[j].PhiInst? ==> InstOk(fr, n, d[j])
  }

  lemma CopiesStep(n: Naming, d: Block, i: nat, k: nat, b: BlockId)
    requires i <= k < |d|
    ensures Final(n, M.CopiesIn(d, i, k + 1, b)) == Final(n, M.CopiesIn(d, i, k, b)) + Final(n, M.PhiCopy(d[k], b))
    ensures !IsCopy(d[k], b) ==> Final(n, M.CopiesIn(d, i, k + 1, b)) == Final(n, M.CopiesIn(d, i, k, b))
  {
    FinalAppend(n, M.CopiesIn(d, i, k, b), M.PhiCopy(d[k], b));
  }

  lemma NoCopies(fr: Frame, n: Naming, labels: Labels, d: Block, i: nat, b: BlockId, m: Machine)
    requires i <= |d|
    ensures ListOk(fr.slots, labels, Final(n, M.CopiesIn(d, i, i, b)))
    ensures ExecList(Emit(fr.slots, labels, Final(n, M.CopiesIn(d, i, i, b))), m) == Some(m)
  {
    FinalNothing(n);
  }

  lemma {:induction false} CopiesListOk(fr: Frame, n: Naming, labels: Labels, d: Block, i: nat, k: nat, b: BlockId)
    requires FrameOk(fr) && NamingOk(fr, n) && i <= k <= |d| && PhisOk(fr, n, d)
    ensures ListOk(fr.slots, labels, Final(n, M.CopiesIn(d, i, k, b)))
    decreases k
  {
    hide FrameOk, NamingOk, CanEmit, InstOk, Final, M.PhiCopy;
    if k == i {
      FinalNothing(n);
    } else {
      CopiesListOk(fr, n, labels, d, i, k - 1, b);
      CopiesStep(n, d, i, k - 1, b);
      if IsCopy(d[k - 1], b) {
        CopyEmitted(fr, n, labels, d[k - 1], b);
      }
    }
  }

  lemma NothingSpared(fr: Frame, m: Machine)
    ensures SparesKept(fr, m, m)
  {
  }

  lemma SparesStill(fr: Frame, m: Machine, m1: Machine, m2: Machine)
    requires SparesKept(fr, m, m1) && SparesKept(fr, m1, m2)
    ensures SparesKept(fr, m, m2)
  {
    hide SlotValue;
  }

  /** The copies for a stretch of phis, one after another. */
  lemma {:induction false} CopiesSim(fr: Frame, n: Naming, labels: Labels, d: Block, i: nat, k: nat, b: BlockId,
      st: State, m: Machine) returns (m': Machine)
    requires FrameOk(fr) && NamingOk(fr, n) && i <= k <= |d| && PhisOk(fr, n, d)
    requires Related(fr, st.(env := CopyInOrder(d, i, b, st.env)), m)
    ensures ListOk(fr.slots, labels, Final(n, M.CopiesIn(d, i, k, b)))
    ensures ExecList(Emit(fr.slots, labels, Final(n, M.CopiesIn(d, i, k, b))), m) == Some(m')
    ensures Related(fr, st.(env := CopyInOrder(d, k, b, st.env)), m')
    ensures SparesKept(fr, m, m') && m'.regs[RAX] == m.regs[RAX]
    decreases k
  {
    hide FrameOk, NamingOk, InstOk, Final, Related, ListOk, Emit, ExecList, M.PhiCopy, M.CopiesIn, Bind, SparesKept;
    if k == i {
      NoCopies(fr, n, labels, d, i, b, m);
      NothingSpared(fr, m);
      m' := m;
    } else {
      m' := CopiesSim(fr, n, labels, d, i, k - 1, b, st, m);
      CopiesStep(n, d, i, k - 1, b);
      if IsCopy(d[k - 1], b) {
        var m1 := m';
        m' := OneCopySim(fr, n, labels, d[k - 1], b, st.(env := CopyInOrder(d, k - 1, b, st.env)), m1);
        JoinExec(fr.slots, labels, Final(n, M.CopiesIn(d, i, k - 1, b)), Final(n, M.PhiCopy(d[k - 1], b)), m, m1, m');
        SparesStill(fr, m, m1, m');
      }
    }
  }

  // ---- Terminators

  // What is known about the register that holds the condition of a branch: it is that of a phi, or of no result.
  ghost predicate KeyOk(fr: Frame, n: Naming, key: Value, cond: Value, shared: bool) {
    var v := FinalValue(n, Virt(Keyed(key)));
    && v.Alloc? && v.id in fr.slots && v.id !in fr.vars
    && if shared then cond.Def? && cond.id in fr.homes && fr.homes[cond.id] == v.id else IsSpare(fr, v.id)
  }

  ghost function KeySlot(n: Naming, key: Value): nat
    requires FinalValue(n, Virt(Keyed(key))).Alloc?
  {
    FinalValue(n, Virt(Keyed(key))).id
  }

  ghost function JumpsCode(fr: Frame, labels: Labels, a: nat, falseDst: BlockId, trueDst: BlockId): Program
    requires a in fr.slots && falseDst in labels && trueDst in labels
  {
    [Machine64(OpCmp, [SlotOperand(fr, a), Imm(1)]), Machine64(OpJne, [Label(labels[falseDst])]),
     Machine64(OpJmp, [Label(labels[trueDst])])]
  }

  lemma CondBranchEmitted(fr: Frame, n: Naming, labels: Labels, base: nat, key: Value, i: Inst, shared: bool)
    requires FrameOk(fr) && NamingOk(fr, n) && InstOk(fr, n, i) && i.CondBranchInst?
    requires KeyOk(fr, n, key, i.cond, shared)
    requires i.falseDst in labels && i.trueDst in labels
    ensures var front, exit, a := Final(n, M.Front(base, key, i)), Final(n, [M.Exit(base, key, i)]), KeySlot(n, key);
      && ListOk(fr.slots, labels, front) && CanEmitOp(fr.slots, Loc(fr, i.cond))
      && Emit(fr.slots, labels, front) == EmitMove(fr.slots, Alloc(a), Loc(fr, i.cond))
      && ListOk(fr.slots, labels, exit)
           && Emit(fr.slots, labels, exit) == JumpsCode(fr, labels, a, i.falseDst, i.trueDst)
  {
    hide FrameOk, NamingOk, IsSpare;
    var virt := Virt(Keyed(key));
    var a := KeySlot(n, key);
    var branch := CondBranchInst(base + i.id, virt, i.falseDst, i.trueDst);
    assert M.Front(base, key, i) == [MoveInst(virt, i.cond)] && M.Exit(base, key, i) == branch;
    OneMove(fr, n, labels, virt, i.cond, a);
    FinalOne(n, branch);
    assert FinalInst(n, branch) == CondBranchInst(base + i.id, Alloc(a), i.falseDst, i.trueDst);
    EmitOne(fr.slots, labels, FinalInst(n, branch));
  }

  // The condition moved to its register; if that is its own, nothing changes.
  lemma KeySim(fr: Frame, n: Naming, st: State, m: Machine, key: Value, cond: Value, shared: bool)
      returns (m': Machine)
    requires FrameOk(fr) && NamingOk(fr, n) && KeyOk(fr, n, key, cond, shared) && IsOperand(fr, cond)
    requires Related(fr, st, m)
    ensures CanEmitOp(fr.slots, Loc(fr, cond))
    ensures ExecList(EmitMove(fr.slots, Alloc(KeySlot(n, key)), Loc(fr, cond)), m) == Some(m') && Related(fr, st, m')
    ensures Eval(cond, st.env).Some? ==> SlotValue(fr, m'.mem, KeySlot(n, key)) == Eval(cond, st.env).value
  {
    hide EnvHeld, CellsHeld, FrameKept, EmitMove, ExecData, ExecList, SlotAddr, SlotValue, FrameOk, Get, IsSpare;
    var a := KeySlot(n, key);
    PlaceHolds(fr, st, m, cond);
    MoveExec(fr, st, m, a, cond);
    var w := Get(Place(fr, cond), m);
    m' := Moved(fr, m, a, cond, w);
    var m1 := if cond.Const? then m else m.(regs := m.regs[RCX := w]);
    ScratchChanged(fr, st, m, m1);
    RelatedFits(fr, st, m);
    SlotWritten(fr, m1.mem, a, w, a);
    if shared {
      HomeRead(fr, st, m, cond.id);
      WriteSame(fr, st, m1, a, w);
    } else {
      SpareSlot(fr, a);
      WriteSpare(fr, st, m1, a, w);
    }
  }

  lemma HomeRead(fr: Frame, st: State, m: Machine, x: nat)
    requires FrameOk(fr) && Related(fr, st, m) && x in fr.homes && fr.homes[x] in fr.slots
    ensures Get(Place(fr, Def(x)), m) == SlotValue(fr, m.mem, fr.homes[x])
  {
    SlotAddressed(fr, m, fr.homes[x]);
  }

  lemma SpareSlot(fr: Frame, a: nat)
    requires IsSpare(fr, a)
    ensures forall x :: x in fr.homes ==> fr.homes[x] != a
  {
  }

  // After the copies behind it the register holds what the branch is to test.
  lemma KeyHolds(fr: Frame, n: Naming, key: Value, cond: Value, shared: bool, st: State, m: Machine, st': State,
      m': Machine, c: Word)
    requires FrameOk(fr) && KeyOk(fr, n, key, cond, shared) && Related(fr, st', m') && SparesKept(fr, m, m')
    requires Eval(cond, st.env).Some? ==> SlotValue(fr, m.mem, KeySlot(n, key)) == Eval(cond, st.env).value
    requires Eval(cond, if shared then st'.env else st.env) == Some(c)
    ensures SlotValue(fr, m'.mem, KeySlot(n, key)) == c
  {
    hide SlotValue, FrameKept, CellsHeld, FrameOk;
    if shared {
      assert cond.id in st'.env;
    }
  }

  // ---- Running a terminator

  // A program holds a piece of code at a position.
  ghost predicate HasCode(code: Program, pc: nat, part: Program) {
    pc + |part| <= |code| && code[pc..pc + |part|] == part
  }

  lemma HasParts(code: Program, pc: nat, a: Program, b: Program)
    requires HasCode(code, pc, a + b)
    ensures HasCode(code, pc, a) && HasCode(code, pc + |a|, b)
  {
    assert code[pc..pc + |a|] == (a + b)[..|a|];
    assert code[pc + |a|..pc + |a + b|] == (a + b)[|a|..];
  }

  lemma RunPart(code: Program, pc: nat, a: Program, m: Machine, m': Machine)
    requires HasCode(code, pc, a) && ExecList(a, m) == Some(m')
    ensures Steps(code, At(pc, m), |a|) == At(pc + |a|, m')
  {
    RunData(code, pc, a, m);
  }

  lemma StepOnce(code: Program, pc: nat, m: Machine)
    ensures Steps(code, At(pc, m), 1) == Step(code, pc, m)
  {
    assert Steps(code, Step(code, pc, m), 0) == Step(code, pc, m);
  }

  // A jump goes to its label, which does nothing.
  lemma JumpSim(code: Program, pc: nat, t: nat, m: Machine)
    requires HasCode(code, pc, [Machine64(OpJmp, [Label(t)])]) && FindLabel(code, t) < |code|
    ensures Steps(code, At(pc, m), 2) == At(FindLabel(code, t) + 1, m)
  {
    assert code[pc] == Machine64(OpJmp, [Label(t)]);
    JumpToLabel(code, code[pc], t, m);
    StepOnce(code, pc, m);
    StepsAppend(code, At(pc, m), 1, 1);
  }

  // Reaching a label by a jump or a taken conditional jump.
  lemma JumpToLabel(code: Program, i: MachineInst, t: nat, m: Machine)
    requires i.operands == [Label(t)] && FindLabel(code, t) < |code|
    ensures JumpTo(code, i, m) == At(FindLabel(code, t), m)
    ensures Steps(code, At(FindLabel(code, t), m), 1) == At(FindLabel(code, t) + 1, m)
  {
    StepOnce(code, FindLabel(code, t), m);
  }

  lemma CompareOne(fr: Frame, m: Machine, a: nat, c: Word)
    requires FrameOk(fr) && Fits(fr.slots) && a in fr.slots && m.regs[RBP] == fr.base && SlotValue(fr, m.mem, a) == c
    ensures ExecList([Machine64(OpCmp, [SlotOperand(fr, a), Imm(1)])], m) == Some(m.(flags := Some(CompareFlags(c, 1))))
    ensures Condition(OpJne, CompareFlags(c, 1)) <==> c != 1
  {
    hide FrameOk, Get, Set, Address, ExecData, CompareFlags, Condition, ExecList;
    SlotOperandSet(fr, m, a, c);
    ExecOne(Machine64(OpCmp, [SlotOperand(fr, a), Imm(1)]), m);
    CmpExec(SlotOperand(fr, a), 1, m);
    NotOne(c);
  }

  lemma CmpExec(op: Operand, w: Word, m: Machine)
    requires Readable(op)
    ensures ExecData(Machine64(OpCmp, [op, Imm(w)]), m) == Some(m.(flags := Some(CompareFlags(Get(op, m), w))))
  {
    hide CompareFlags;
  }

  lemma NotOne(c: Word)
    ensures Condition(OpJne, CompareFlags(c, 1)) <==> c != 1
  {
  }

  // The taken one of the two jumps.
  lemma JumpsSim(code: Program, pc: nat, f: nat, t: nat, m: Machine, c: Word)
    requires HasCode(code, pc, [Machine64(OpJne, [Label(f)]), Machine64(OpJmp, [Label(t)])])
    requires FindLabel(code, f) < |code| && FindLabel(code, t) < |code| && m.flags == Some(CompareFlags(c, 1))
    ensures c == 1 ==> Steps(code, At(pc, m), 3) == At(FindLabel(code, t) + 1, m)
    ensures c != 1 ==> Steps(code, At(pc, m), 2) == At(FindLabel(code, f) + 1, m)
  {
    assert code[pc] == Machine64(OpJne, [Label(f)]) && code[pc + 1] == Machine64(OpJmp, [Label(t)]);
    assert code[pc + 1..pc + 1 + 1] == [Machine64(OpJmp, [Label(t)])];
    StepOnce(code, pc, m);
    if c == 1 {
      JumpSim(code, pc + 1, t, m);
      StepsAppend(code, At(pc, m), 1, 2);
    } else {
      JumpToLabel(code, code[pc], f, m);
      StepsAppend(code, At(pc, m), 1, 1);
    }
  }

  /** A conditional branch reaches the label of the block that the tested value says. */
  lemma CondBranchSim(fr: Frame, labels: Labels, a: nat, falseDst: BlockId, trueDst: BlockId, code: Program, pc: nat,
      st: State, m: Machine, c: Word)
      returns (k: nat, m': Machine)
    requires FrameOk(fr) && Related(fr, st, m) && a in fr.slots && SlotValue(fr, m.mem, a) == c
    requires falseDst in labels && trueDst in labels && FindLabel(code, labels[falseDst]) < |code|
    requires FindLabel(code, labels[trueDst]) < |code|
    requires HasCode(code, pc, JumpsCode(fr, labels, a, falseDst, trueDst))
    ensures Related(fr, st, m')
    ensures Steps(code, At(pc, m), k)
        == At(FindLabel(code, labels[if c == 1 then trueDst else falseDst]) + 1, m')
  {
    hide FrameOk, EnvHeld, CellsHeld, ExecData, ExecList, Steps, HasCode, SlotValue, CompareFlags, FindLabel, Condition;
    var cmp := [Machine64(OpCmp, [SlotOperand(fr, a), Imm(1)])];
    var jumps := [Machine64(OpJne, [Label(labels[falseDst])]), Machine64(OpJmp, [Label(labels[trueDst])])];
    assert JumpsCode(fr, labels, a, falseDst, trueDst) == cmp + jumps;
    HasParts(code, pc, cmp, jumps);
    CompareOne(fr, m, a, c);
    m' := m.(flags := Some(CompareFlags(c, 1)));
    ScratchChanged(fr, st, m, m');
    RunPart(code, pc, cmp, m, m');
    JumpsSim(code, pc + |cmp|, labels[falseDst], labels[trueDst], m', c);
    k := 1 + if c == 1 then 3 else 2;
    StepsAppend(code, At(pc, m), 1, if c == 1 then 3 else 2);
  }

  // ---- Returning

  ghost function LeaveCode(): Program {
    [Machine64(OpPop, [Reg(RBP)])] + [Machine64(OpRet, [])]
  }

  lemma RetEmitted(fr: Frame, n: Naming, labels: Labels, base: nat, key: Value, i: Inst)
    requires FrameOk(fr) && NamingOk(fr, n) && InstOk(fr, n, i) && i.RetInst?
    requires FinalValue(n, Virt(RetReg(i.id))) == Phys(0)
    ensures var front, exit := Final(n, M.Front(base, key, i)), Final(n, [M.Exit(base, key, i)]);
      && ListOk(fr.slots, labels, front) && Emit(fr.slots, labels, front) == [Mov(Reg(RAX), Place(fr, i.retVal))]
      && ListOk(fr.slots, labels, exit) && Emit(fr.slots, labels, exit) == LeaveCode()
  {
    hide FrameOk, NamingOk, EmitBlock, ListOk, CanEmit, EmitInst, Loc, Place;
    var constraint, move := ConstraintInst(RetReg(i.id)), MoveInst(Virt(RetReg(i.id)), i.retVal);
    assert M.Front(base, key, i) == [constraint] + [move] && M.Exit(base, key, i) == i;
    FinalAppend(n, [constraint], [move]);
    FinalOne(n, constraint);
    FinalOne(n, move);
    FinalOne(n, i);
    FinalMove(n, Virt(RetReg(i.id)), i.retVal);
    FinalLoc(fr, n, i.retVal);
    RetPieces(fr, n, labels, i);
    EmitAppend(fr.slots, labels, [constraint], [MoveInst(Phys(0), Loc(fr, i.retVal))]);
    assert [] + [Mov(Reg(RAX), Place(fr, i.retVal))] == [Mov(Reg(RAX), Place(fr, i.retVal))];
  }

  lemma RetPieces(fr: Frame, n: Naming, labels: Labels, i: Inst)
    requires InstOk(fr, n, i) && i.RetInst?
    ensures FinalInst(n, ConstraintInst(RetReg(i.id))) == ConstraintInst(RetReg(i.id))
    ensures ListOk(fr.slots, labels, [ConstraintInst(RetReg(i.id))])
    ensures Emit(fr.slots, labels, [ConstraintInst(RetReg(i.id))]) == []
    ensures ListOk(fr.slots, labels, [MoveInst(Phys(0), Loc(fr, i.retVal))])
    ensures Emit(fr.slots, labels, [MoveInst(Phys(0), Loc(fr, i.retVal))]) == [Mov(Reg(RAX), Place(fr, i.retVal))]
    ensures ListOk(fr.slots, labels, [FinalInst(n, i)])
    ensures Emit(fr.slots, labels, [FinalInst(n, i)]) == LeaveCode()
  {
    LocPlace(fr, i.retVal);
    EmitOne(fr.slots, labels, ConstraintInst(RetReg(i.id)));
    EmitOne(fr.slots, labels, MoveInst(Phys(0), Loc(fr, i.retVal)));
    EmitOne(fr.slots, labels, FinalInst(n, i));
  }

  /** What the caller sees: the value in rax, its own rbp, and rsp above the return address. */
  ghost predicate ReturnsTo(fr: Frame, v: Word, s: Status) {
    && s.Returned? && s.returnTo == fr.returnTo
    && s.m.regs[RAX] == v && s.m.regs[RBP] == fr.savedRbp && s.m.regs[RSP] == Wrap(fr.base + 16)
  }

  lemma PopRet(fr: Frame, code: Program, pc: nat, m: Machine)
    requires HasCode(code, pc, [Machine64(OpPop, [Reg(RBP)])] + [Machine64(OpRet, [])]) && FrameKept(fr, m)
    ensures ReturnsTo(fr, m.regs[RAX], Steps(code, At(pc, m), 2))
  {
    var pop, ret := Machine64(OpPop, [Reg(RBP)]), Machine64(OpRet, []);
    assert code[pc] == ([pop] + [ret])[0] && code[pc + 1] == ([pop] + [ret])[1];
    var sp := Wrap(fr.base + 8);
    var m1 := m.(regs := m.regs[RSP := sp][RBP := fr.savedRbp]);
    PopExec(fr, m, m1);
    DataStep(code, pc, m);
    StepOnce(code, pc, m);
    StepOnce(code, pc + 1, m1);
    StepsAppend(code, At(pc, m), 1, 1);
    WrapTwice(fr.base);
  }

  lemma WrapTwice(x: Word)
    ensures Wrap(Wrap(x + 8) + 8) == Wrap(x + 16)
  {
  }

  lemma PopExec(fr: Frame, m: Machine, m1: Machine)
    requires FrameKept(fr, m) && m1 == m.(regs := m.regs[RSP := Wrap(fr.base + 8)][RBP := fr.savedRbp])
    ensures ExecData(Machine64(OpPop, [Reg(RBP)]), m) == Some(m1)
  {
  }

  // The returned value is put into rax.
  lemma ResultSim(fr: Frame, v: Value, st: State, m: Machine) returns (m': Machine)
    requires FrameOk(fr) && HasPlace(fr, v) && Related(fr, st, m)
    ensures ExecList([Mov(Reg(RAX), Place(fr, v))], m) == Some(m') && Related(fr, st, m')
    ensures Eval(v, st.env).Some? ==> m'.regs[RAX] == Eval(v, st.env).value
  {
    hide FrameOk, EnvHeld, CellsHeld, FrameKept, ExecData, ExecList, Get, Set, Place;
    PlaceHolds(fr, st, m, v);
    var w := Get(Place(fr, v), m);
    SetReg(RAX, w, m);
    MovExec(Reg(RAX), Place(fr, v), m);
    ExecOne(Mov(Reg(RAX), Place(fr, v)), m);
    m' := m.(regs := m.regs[RAX := w]);
    ScratchChanged(fr, st, m, m');
  }

  /** A return leaves the function with what rax holds and the caller's registers restored. */
  lemma RetSim(fr: Frame, code: Program, pc: nat, st: State, m: Machine)
    requires Related(fr, st, m) && HasCode(code, pc, LeaveCode())
    ensures ReturnsTo(fr, m.regs[RAX], Steps(code, At(pc, m), 2))
  {
    hide EnvHeld, CellsHeld, ExecData, Steps, HasCode, FrameKept;
    PopRet(fr, code, pc, m);
  }
}

/** The IR that stands for one machine instruction, and that it does what the instruction does. */
module FrontendCode {
  import opened Words
  import opened X86
  import opened Ir

  const OF: nat := 16
  const SF: nat := 17
  const ZF: nat := 18

  // ---- What is appended for operands and instructions; identities count up from id

  function LoadCode(op: Operand, id: nat): Block {
    match op
    case Imm(_) => []
    case Label(_) => []
    case MemBaseDisp(base, disp) =>
      [LoadInst(id, Global(base)), BinaryInst(id + 1, Add, Def(id), Const(Wrap(disp))), LoadInst(id + 2, Def(id + 1))]
    case Reg(r) => [LoadInst(id, Global(r))]
  }

  function LoadValue(op: Operand, id: nat): Value {
    match op
    case Imm(w) => Const(w)
    case Label(_) => Const(0)
    case MemBaseDisp(_, _) => Def(id + 2)
    case Reg(_) => Def(id)
  }

  function StoreCode(op: Operand, val: Value, id: nat): Block {
    match op
    case Imm(_) => []
    case Label(_) => []
    case MemBaseDisp(base, disp) =>
      [LoadInst(id, Global(base)), BinaryInst(id + 1, Add, Def(id), Const(Wrap(disp))),
        StoreInst(id + 2, Def(id + 1), val)]
    case Reg(r) => [StoreInst(id, Global(r), val)]
  }

  // dst := dst op src.
  function BinaryCode(op: BinaryOp, dst: Operand, src: Operand, id: nat): Block {
    var id1 := id + |LoadCode(dst, id)|;
    var id2 := id1 + |LoadCode(src, id1)|;
    LoadCode(dst, id) + LoadCode(src, id1) + [BinaryInst(id2, op, LoadValue(dst, id), LoadValue(src, id1))]
      + StoreCode(dst, Def(id2), id2 + 1)
  }

  // The difference of l and r, and the three flags.
  function FlagCode(l: Value, r: Value, id: nat): Block {
    [BinaryInst(id, Sub, l, r), BinaryInst(id + 1, Xor, l, r), BinaryInst(id + 2, Xor, l, Def(id)),
     BinaryInst(id + 3, And, Def(id + 1), Def(id + 2)), CompareInst(id + 4, Slt, Def(id + 3), Const(0)),
     StoreInst(id + 5, Global(OF), Def(id + 4)), CompareInst(id + 6, Slt, Def(id), Const(0)),
     StoreInst(id + 7, Global(SF), Def(id + 6)), CompareInst(id + 8, Eq, Def(id), Const(0)),
     StoreInst(id + 9, Global(ZF), Def(id + 8))]
  }

  function CmpCode(lhs: Operand, rhs: Operand, id: nat): Block {
    var id1 := id + |LoadCode(lhs, id)|;
    var id2 := id1 + |LoadCode(rhs, id1)|;
    LoadCode(lhs, id) + LoadCode(rhs, id1) + FlagCode(LoadValue(lhs, id), LoadValue(rhs, id1), id2)
  }

  function IncCode(r: nat, id: nat): Block {
    [LoadInst(id, Global(r)), BinaryInst(id + 1, Add, Def(id), Const(1)), StoreInst(id + 2, Global(r), Def(id + 1))]
  }

  function MovCode(dst: Operand, src: Operand, id: nat): Block {
    LoadCode(src, id) + StoreCode(dst, LoadValue(src, id), id + |LoadCode(src, id)|)
  }

  function PopCode(dst: Operand, id: nat): Block {
    var store := StoreCode(dst, Def(id + 1), id + 2);
    var id1 := id + 2 + |store|;
    [LoadInst(id, Global(RSP)), LoadInst(id + 1, Def(id))] + store
    + [BinaryInst(id1, Add, Def(id), Const(8)), StoreInst(id1 + 1, Global(RSP), Def(id1))]
  }

  function PushCode(src: Operand, id: nat): Block {
    var load := LoadCode(src, id + 2);
    var id1 := id + 2 + |load|;
    [LoadInst(id, Global(RSP)), BinaryInst(id + 1, Sub, Def(id), Const(8))] + load
    + [StoreInst(id1, Def(id + 1), LoadValue(src, id + 2)), StoreInst(id1 + 1, Global(RSP), Def(id + 1))]
  }

  function JgCode(falseDst: BlockId, trueDst: BlockId, id: nat): Block {
    [LoadInst(id, Global(OF)), LoadInst(id + 1, Global(SF)), LoadInst(id + 2, Global(ZF)),
      CompareInst(id + 3, Eq, Def(id), Def(id + 1)),
     CompareInst(id + 4, Eq, Def(id + 2), Const(0)), BinaryInst(id + 5, And, Def(id + 3), Def(id + 4)),
     CondBranchInst(id + 6, Def(id + 5), falseDst, trueDst)]
  }

  function JgeCode(falseDst: BlockId, trueDst: BlockId, id: nat): Block {
    [LoadInst(id, Global(OF)), LoadInst(id + 1, Global(SF)), CompareInst(id + 2, Eq, Def(id), Def(id + 1)),
     CondBranchInst(id + 3, Def(id + 2), falseDst, trueDst)]
  }

  function JleCode(falseDst: BlockId, trueDst: BlockId, id: nat): Block {
    [LoadInst(id, Global(OF)), LoadInst(id + 1, Global(SF)), LoadInst(id + 2, Global(ZF)),
      CompareInst(id + 3, Ne, Def(id), Def(id + 1)),
     BinaryInst(id + 4, Or, Def(id + 3), Def(id + 2)), CondBranchInst(id + 5, Def(id + 4), falseDst, trueDst)]
  }

  // ---- States of the function and of the machine

  function BitOf(b: bool): Word {
    if b then 1 else 0
  }

  ghost predicate FlagsMatch(cells: map<Value, Word>, flags: Option<Flags>) {
    flags.Some? ==>
      && Lookup(cells, Global(OF)) == Some(BitOf(flags.value.of))
           && Lookup(cells, Global(SF)) == Some(BitOf(flags.value.sf))
      && Lookup(cells, Global(ZF)) == Some(BitOf(flags.value.zf))
  }

  /** The register globals, the flag globals and the memory are those of the machine. */
  ghost predicate Matches(st: State, m: Machine) {
    && (forall r {:trigger m.regs[r]} {:trigger Global(r)} :: 0 <= r < 16 ==>
         Lookup(st.cells, Global(r)) == Some(m.regs[r]))
    && st.mem == m.mem && FlagsMatch(st.cells, m.flags)
  }

  // Only results from id on have changed.
  ghost predicate KeepsOld(env: Env, env': Env, id: nat) {
    forall x: nat {:trigger Lookup<nat, Word>(env', x)} :: x < id ==>
      Lookup<nat, Word>(env', x) == Lookup<nat, Word>(env, x)
  }

  predicate OlderThan(v: Value, id: nat) {
    v.Const? || (v.Def? && v.id < id)
  }

  lemma EvalKept(v: Value, env: Env, env': Env, id: nat)
    requires KeepsOld(env, env', id) && OlderThan(v, id)
    ensures Eval(v, env') == Eval(v, env)
  {
    if v.Def? {
      assert Lookup<nat, Word>(env', v.id) == Lookup<nat, Word>(env, v.id);
    }
  }

  lemma ExecOne(i: Inst, st: State)
    ensures ExecInsts([i], st) == ExecInst(i, st)
  {
    if ExecInst(i, st).Fell? {
      assert ExecInsts([i][1..], ExecInst(i, st).st) == Fell(ExecInst(i, st).st);
    }
  }

  lemma ExecCons(i: Inst, rest: Block, st: State)
    ensures ExecInsts([i] + rest, st) == (var o := ExecInst(i, st); if o.Fell? then ExecInsts(rest, o.st) else o)
  {
    assert ([i] + rest)[1..] == rest;
  }

  // A loaded operand has the value the machine reads.
  lemma LoadSim(op: Operand, id: nat, st: State, m: Machine) returns (st': State)
    requires Matches(st, m) && Readable(op)
    ensures ExecInsts(LoadCode(op, id), st) == Fell(st') && st' == st.(env := st'.env) && KeepsOld(st.env, st'.env, id)
    ensures Eval(LoadValue(op, id), st'.env) == Some(Get(op, m))
    ensures OlderThan(LoadValue(op, id), id + |LoadCode(op, id)|)
  {
    if op.MemBaseDisp? {
      var w := m.regs[op.base];
      assert Lookup(st.cells, Global(op.base)) == Some(w);
      var a := Address(op.base, op.disp, m);
      AddDisp(w, op.disp);
      var e1 := st.env[id := w];
      var e2 := e1[id + 1 := a];
      st' := st.(env := e2[id + 2 := Read64(st.mem, a)]);
      var code := LoadCode(op, id);
      assert code == [code[0]] + ([code[1]] + [code[2]]);
      ExecCons(code[0], [code[1]] + [code[2]], st);
      ExecCons(code[1], [code[2]], st.(env := e1));
      ExecOne(code[2], st.(env := e2));
    } else if op.Reg? {
      assert Lookup(st.cells, Global(op.reg)) == Some(m.regs[op.reg]);
      st' := st.(env := st.env[id := m.regs[op.reg]]);
      ExecOne(LoadInst(id, Global(op.reg)), st);
    } else {
      st' := st;
    }
  }

  lemma AddDisp(w: Word, disp: int)
    ensures EvalBinary(Add, w, Wrap(disp)) == Wrap(w + disp)
  {
  }

  // A store leaves what the machine writes.
  lemma StoreSim(op: Operand, val: Value, id: nat, st: State, m: Machine, w: Word) returns (st': State)
    requires Matches(st, m) && Writable(op) && Eval(val, st.env) == Some(w) && OlderThan(val, id)
    ensures ExecInsts(StoreCode(op, val, id), st) == Fell(st') && Matches(st', Set(op, w, m))
    ensures KeepsOld(st.env, st'.env, id)
  {
    if op.MemBaseDisp? {
      var b := m.regs[op.base];
      assert Lookup(st.cells, Global(op.base)) == Some(b);
      var a := Address(op.base, op.disp, m);
      AddDisp(b, op.disp);
      var e1 := st.env[id := b];
      var e2 := e1[id + 1 := a];
      st' := st.(env := e2, mem := Write64(st.mem, a, w));
      var code := StoreCode(op, val, id);
      assert code == [code[0]] + ([code[1]] + [code[2]]);
      ExecCons(code[0], [code[1]] + [code[2]], st);
      ExecCons(code[1], [code[2]], st.(env := e1));
      ExecOne(code[2], st.(env := e2));
    } else {
      st' := st.(cells := st.cells[Global(op.reg) := w]);
      ExecOne(StoreInst(id, Global(op.reg), val), st);
    }
  }

  // ---- Whole instructions

  lemma Then(a: Block, b: Block, st: State, st1: State)
    requires ExecInsts(a, st) == Fell(st1)
    ensures ExecInsts(a + b, st) == ExecInsts(b, st1)
  {
    ExecAppend(a, b, st);
  }

  lemma KeepsMore(a: Env, b: Env, c: Env, id: nat, id1: nat)
    requires KeepsOld(a, b, id) && KeepsOld(b, c, id1) && id <= id1
    ensures KeepsOld(a, c, id)
  {
    forall x: nat | x < id
      ensures Lookup<nat, Word>(c, x) == Lookup<nat, Word>(a, x)
    {
      assert Lookup<nat, Word>(b, x) == Lookup<nat, Word>(a, x);
    }
  }

  lemma SameCells(st: State, st': State, m: Machine)
    requires Matches(st, m) && st' == st.(env := st'.env)
    ensures Matches(st', m)
  {
  }

  // Both operands loaded.
  lemma LoadBoth(lhs: Operand, rhs: Operand, id: nat, st: State, m: Machine) returns (st': State)
    requires Matches(st, m) && Readable(lhs) && Readable(rhs)
    ensures var id1 := id + |LoadCode(lhs, id)|;
      ExecInsts(LoadCode(lhs, id) + LoadCode(rhs, id1), st) == Fell(st')
      && Eval(LoadValue(lhs, id), st'.env) == Some(Get(lhs, m))
           && Eval(LoadValue(rhs, id1), st'.env) == Some(Get(rhs, m))
      && OlderThan(LoadValue(lhs, id), id1) && OlderThan(LoadValue(rhs, id1), id1 + |LoadCode(rhs, id1)|)
    ensures st' == st.(env := st'.env) && Matches(st', m) && KeepsOld(st.env, st'.env, id)
  {
    hide LoadCode, LoadValue, Get, ExecInsts, Eval;
    var id1 := id + |LoadCode(lhs, id)|;
    var st1 := LoadSim(lhs, id, st, m);
    SameCells(st, st1, m);
    st' := LoadSim(rhs, id1, st1, m);
    SameCells(st1, st', m);
    EvalKept(LoadValue(lhs, id), st1.env, st'.env, id1);
    Then(LoadCode(lhs, id), LoadCode(rhs, id1), st, st1);
    KeepsMore(st.env, st1.env, st'.env, id, id1);
  }

  lemma BinaryStep(op: BinaryOp, x: nat, l: Value, r: Value, st: State, a: Word, b: Word)
    requires Eval(l, st.env) == Some(a) && Eval(r, st.env) == Some(b) && (op == Shl ==> b < 64)
    ensures ExecInsts([BinaryInst(x, op, l, r)], st) == Fell(st.(env := st.env[x := EvalBinary(op, a, b)]))
  {
    hide EvalBinary;
    ExecOne(BinaryInst(x, op, l, r), st);
  }

  lemma CompareStep(pred: ComparePred, x: nat, l: Value, r: Value, st: State, a: Word, b: Word)
    requires Eval(l, st.env) == Some(a) && Eval(r, st.env) == Some(b)
    ensures ExecInsts([CompareInst(x, pred, l, r)], st) == Fell(st.(env := st.env[x := EvalCompare(pred, a, b)]))
  {
    hide EvalCompare;
    ExecOne(CompareInst(x, pred, l, r), st);
  }

  lemma LoadCell(x: nat, cell: nat, st: State, w: Word)
    requires Lookup(st.cells, Global(cell)) == Some(w)
    ensures ExecInsts([LoadInst(x, Global(cell))], st) == Fell(st.(env := st.env[x := w]))
  {
    ExecOne(LoadInst(x, Global(cell)), st);
  }

  lemma EvalIs(env: Env, x: nat, w: Word)
    requires x in env && env[x] == w
    ensures Eval(Def(x), env) == Some(w)
  {
  }

  lemma BranchStep(id: nat, cond: Value, f: BlockId, t: BlockId, st: State, c: bool)
    requires Eval(cond, st.env) == Some(BitOf(c))
    ensures ExecInsts([CondBranchInst(id, cond, f, t)], st) == Jump(if c then t else f, st)
  {
    ExecOne(CondBranchInst(id, cond, f, t), st);
  }

  /** add and shl. */
  lemma BinarySim(op: BinaryOp, dst: Operand, src: Operand, id: nat, st: State, m: Machine) returns (st': State)
    requires Matches(st, m) && Writable(dst) && Readable(src) && (op == Shl ==> Get(src, m) < 64)
    ensures ExecInsts(BinaryCode(op, dst, src, id), st) == Fell(st')
    ensures Matches(st', Set(dst, EvalBinary(op, Get(dst, m), Get(src, m)), m).(flags := None))
  {
    hide LoadCode, LoadValue, StoreCode, Get, Set, ExecInsts, Eval, EvalBinary;
    var id1 := id + |LoadCode(dst, id)|;
    var id2 := id1 + |LoadCode(src, id1)|;
    var loads := LoadCode(dst, id) + LoadCode(src, id1);
    var a, b := Get(dst, m), Get(src, m);
    var w := EvalBinary(op, a, b);
    var st1 := LoadBoth(dst, src, id, st, m);
    EvalKept(LoadValue(dst, id), st1.env, st1.env, id2);
    BinaryStep(op, id2, LoadValue(dst, id), LoadValue(src, id1), st1, a, b);
    var st2 := st1.(env := st1.env[id2 := w]);
    SameCells(st1, st2, m);
    EvalNew(st2.env, id2);
    st' := StoreSim(dst, Def(id2), id2 + 1, st2, m, w);
    Then(loads, [BinaryInst(id2, op, LoadValue(dst, id), LoadValue(src, id1))], st, st1);
    Then(loads + [BinaryInst(id2, op, LoadValue(dst, id), LoadValue(src, id1))], StoreCode(dst, Def(id2), id2 + 1), st,
      st2);
    NoFlags(st', Set(dst, w, m));
  }

  lemma EvalNew(env: Env, x: nat)
    requires x in env
    ensures Eval(Def(x), env) == Some(env[x])
  {
  }

  lemma NoFlags(st: State, m: Machine)
    requires Matches(st, m)
    ensures Matches(st, m.(flags := None))
  {
  }

  lemma MovSim(dst: Operand, src: Operand, id: nat, st: State, m: Machine) returns (st': State)
    requires Matches(st, m) && Writable(dst) && Readable(src)
    ensures ExecInsts(MovCode(dst, src, id), st) == Fell(st') && Matches(st', Set(dst, Get(src, m), m))
  {
    hide LoadCode, LoadValue, StoreCode, Get, Set, ExecInsts, Eval;
    var st1 := LoadSim(src, id, st, m);
    SameCells(st, st1, m);
    st' := StoreSim(dst, LoadValue(src, id), id + |LoadCode(src, id)|, st1, m, Get(src, m));
    Then(LoadCode(src, id), StoreCode(dst, LoadValue(src, id), id + |LoadCode(src, id)|), st, st1);
  }

  lemma IncSim(r: nat, id: nat, st: State, m: Machine) returns (st': State)
    requires Matches(st, m) && r < 16
    ensures ExecInsts(IncCode(r, id), st) == Fell(st')
    ensures Matches(st', Set(Reg(r), EvalBinary(Add, Get(Reg(r), m), 1), m).(flags := None))
  {
    hide EvalBinary;
    var w := m.regs[r];
    assert Lookup(st.cells, Global(r)) == Some(w);
    var e1 := st.env[id := w];
    var e2 := e1[id + 1 := EvalBinary(Add, w, 1)];
    var code := IncCode(r, id);
    assert code == [code[0]] + ([code[1]] + [code[2]]);
    ExecCons(code[0], [code[1]] + [code[2]], st);
    ExecCons(code[1], [code[2]], st.(env := e1));
    ExecOne(code[2], st.(env := e2));
    st' := State(e2, st.cells[Global(r) := EvalBinary(Add, w, 1)], st.mem);
  }

  lemma PushSim(src: Operand, id: nat, st: State, m: Machine) returns (st': State)
    requires Matches(st, m) && Readable(src)
    ensures ExecInsts(PushCode(src, id), st) == Fell(st')
    ensures var sp := EvalBinary(Sub, m.regs[RSP], 8);
      Matches(st', m.(regs := m.regs[RSP := sp], mem := Write64(m.mem, sp, Get(src, m))))
  {
    hide LoadCode, LoadValue, Get, EvalBinary, Write64;
    var r, sp := m.regs[RSP], EvalBinary(Sub, m.regs[RSP], 8);
    assert Lookup(st.cells, Global(RSP)) == Some(r);
    var st1 := st.(env := st.env[id := r][id + 1 := sp]);
    var head := [LoadInst(id, Global(RSP))] + [BinaryInst(id + 1, Sub, Def(id), Const(8))];
    ExecCons(LoadInst(id, Global(RSP)), [BinaryInst(id + 1, Sub, Def(id), Const(8))], st);
    ExecOne(BinaryInst(id + 1, Sub, Def(id), Const(8)), st.(env := st.env[id := r]));
    SameCells(st, st1, m);
    var st2 := LoadSim(src, id + 2, st1, m);
    var id1 := id + 2 + |LoadCode(src, id + 2)|;
    assert Lookup<nat, Word>(st2.env, id + 1) == Lookup<nat, Word>(st1.env, id + 1);
    var store, sink := StoreInst(id1, Def(id + 1), LoadValue(src, id + 2)),
      StoreInst(id1 + 1, Global(RSP), Def(id + 1));
    var st3 := st2.(mem := Write64(st2.mem, sp, Get(src, m)));
    ExecCons(store, [sink], st2);
    ExecOne(sink, st3);
    st' := st3.(cells := st3.cells[Global(RSP) := sp]);
    Then(head, LoadCode(src, id + 2), st, st1);
    Then(head + LoadCode(src, id + 2), [store] + [sink], st, st2);
    assert PushCode(src, id) == head + LoadCode(src, id + 2) + ([store] + [sink]);
  }

  // ---- pop

  /** The destinations that the translation of pop serves: it addresses and writes the destination
      before it moves rsp, the machine afterwards. */
  predicate PopOk(dst: Operand) {
    !(dst.Reg? && dst.reg == RSP) && !(dst.MemBaseDisp? && dst.base == RSP)
  }

  function Popped(dst: Operand, m: Machine): Machine
    requires Writable(dst)
  {
    Set(dst, Read64(m.mem, m.regs[RSP]), m.(regs := m.regs[RSP := EvalBinary(Add, m.regs[RSP], 8)]))
  }

  lemma PopOrder(dst: Operand, m: Machine)
    requires Writable(dst) && PopOk(dst)
    ensures var w := Set(dst, Read64(m.mem, m.regs[RSP]), m);
      Popped(dst, m) == w.(regs := w.regs[RSP := EvalBinary(Add, m.regs[RSP], 8)])
  {
    hide Read64, Write64, EvalBinary;
  }

  lemma PopLoads(id: nat, st: State, m: Machine) returns (st1: State)
    requires Matches(st, m)
    ensures ExecInsts([LoadInst(id, Global(RSP)), LoadInst(id + 1, Def(id))], st) == Fell(st1)
    ensures st1 == st.(env := st1.env)
    ensures Eval(Def(id), st1.env) == Some(m.regs[RSP])
    ensures Eval(Def(id + 1), st1.env) == Some(Read64(m.mem, m.regs[RSP]))
  {
    hide Read64;
    var r := m.regs[RSP];
    assert Lookup(st.cells, Global(RSP)) == Some(r);
    st1 := st.(env := st.env[id := r][id + 1 := Read64(st.mem, r)]);
    ExecCons(LoadInst(id, Global(RSP)), [LoadInst(id + 1, Def(id))], st);
    ExecOne(LoadInst(id + 1, Def(id)), st.(env := st.env[id := r]));
  }

  lemma MoveStack(id1: nat, sp: Value, st: State, m: Machine, r: Word) returns (st': State)
    requires Matches(st, m) && Eval(sp, st.env) == Some(r)
    ensures ExecInsts([BinaryInst(id1, Add, sp, Const(8)), StoreInst(id1 + 1, Global(RSP), Def(id1))], st) == Fell(st')
    ensures Matches(st', m.(regs := m.regs[RSP := EvalBinary(Add, r, 8)]))
  {
    hide EvalBinary;
    var st1 := st.(env := st.env[id1 := EvalBinary(Add, r, 8)]);
    ExecCons(BinaryInst(id1, Add, sp, Const(8)), [StoreInst(id1 + 1, Global(RSP), Def(id1))], st);
    ExecOne(StoreInst(id1 + 1, Global(RSP), Def(id1)), st1);
    st' := st1.(cells := st1.cells[Global(RSP) := EvalBinary(Add, r, 8)]);
  }

  // What the translation of pop does, whatever its destination.
  lemma PopTranslated(dst: Operand, id: nat, st: State, m: Machine) returns (st': State)
    requires Matches(st, m) && Writable(dst)
    ensures ExecInsts(PopCode(dst, id), st) == Fell(st')
    ensures var w := Set(dst, Read64(m.mem, m.regs[RSP]), m);
      Matches(st', w.(regs := w.regs[RSP := EvalBinary(Add, m.regs[RSP], 8)]))
  {
    hide StoreCode, Set, ExecInsts, Eval, EvalBinary, Read64;
    var top := Read64(m.mem, m.regs[RSP]);
    var st1 := PopLoads(id, st, m);
    SameCells(st, st1, m);
    var st2 := StoreSim(dst, Def(id + 1), id + 2, st1, m, top);
    var id1 := id + 2 + |StoreCode(dst, Def(id + 1), id + 2)|;
    EvalKept(Def(id), st1.env, st2.env, id + 2);
    st' := MoveStack(id1, Def(id), st2, Set(dst, top, m), m.regs[RSP]);
    var head := [LoadInst(id, Global(RSP)), LoadInst(id + 1, Def(id))];
    Then(head, StoreCode(dst, Def(id + 1), id + 2), st, st1);
    Then(head + StoreCode(dst, Def(id + 1), id + 2),
      [BinaryInst(id1, Add, Def(id), Const(8)), StoreInst(id1 + 1, Global(RSP), Def(id1))], st, st2);
  }

  lemma PopSim(dst: Operand, id: nat, st: State, m: Machine) returns (st': State)
    requires Matches(st, m) && Writable(dst) && PopOk(dst)
    ensures ExecInsts(PopCode(dst, id), st) == Fell(st') && Matches(st', Popped(dst, m))
  {
    hide Set, ExecInsts, Read64, EvalBinary;
    st' := PopTranslated(dst, id, st, m);
    PopOrder(dst, m);
  }

  ghost predicate PopAgrees(dst: Operand, m: Machine)
    requires Writable(dst)
  {
    forall st, st', id: nat :: Matches(st, m) && ExecInsts(PopCode(dst, id), st) == Fell(st') ==>
      Matches(st', Popped(dst, m))
  }

  function CellsOf(m: Machine): map<Value, Word> {
    map r | 0 <= r < 16 :: Global(r) := m.regs[r]
  }

  lemma LowByte(mem: Memory, a: Word)
    ensures Read64(mem, a) % 256 == ByteAt(mem, a)
  {
    assert Read64(mem, a)
      == ByteAt(mem, a) + 256 * (ByteAt(mem, Above(a, 1)) + 0x100 * Read16(mem, Above(a, 2))
      + 0x100_0000 * Read32(mem, Above(a, 4)));
  }

  // A stack whose only nonzero byte is at address 0, where rsp points.
  function PopWitness(): Machine {
    Machine(seq(16, _ => 0), None, map[0 := 1])
  }

  lemma WitnessReads(a: Word)
    ensures Read64(PopWitness().mem, 0) == 1 && (a != 0 ==> Read64(PopWitness().mem, a) != 1)
  {
    LowByte(PopWitness().mem, a);
  }

  // Writing 1 eight bytes apart gives different memories.
  lemma WritesDiffer(disp: int)
    ensures Write64(PopWitness().mem, Wrap(disp), 1) != Write64(PopWitness().mem, Wrap(8 + disp), 1)
  {
    hide Read64, Write64, PopWitness, Apart;
    var mem, a, b := PopWitness().mem, Wrap(disp), Wrap(8 + disp);
    WitnessReads(a);
    WitnessReads(b);
    EightApart(disp);
    ReadOverWrite(mem, a, 1, b);
    ReadOverWrite(mem, b, 1, a);
  }

  lemma EightApart(disp: int)
    ensures Apart(Wrap(disp), Wrap(8 + disp), 8) && Apart(Wrap(8 + disp), Wrap(disp), 8)
    ensures Wrap(disp) == 0 ==> Wrap(8 + disp) == 8
  {
  }

  lemma WitnessAddresses(disp: int)
    ensures PopWitness().regs[RSP] == 0 && Address(RSP, disp, PopWitness()) == Wrap(disp)
    ensures var m := PopWitness();
      Address(RSP, disp, m.(regs := m.regs[RSP := EvalBinary(Add, m.regs[RSP], 8)])) == Wrap(8 + disp)
  {
  }

  lemma PopDiffers(dst: Operand, st: State)
    requires Writable(dst) && !PopOk(dst)
    requires var m := PopWitness(); var w := Set(dst, Read64(m.mem, m.regs[RSP]), m);
      Matches(st, w.(regs := w.regs[RSP := EvalBinary(Add, m.regs[RSP], 8)]))
    ensures !Matches(st, Popped(dst, PopWitness()))
  {
    hide Read64, Write64, PopWitness, Address, EvalBinary;
    var m := PopWitness();
    WitnessReads(0);
    if dst.Reg? {
      WitnessAddresses(0);
      assert EvalBinary(Add, 0, 8) == 8 by { EightIsEight(); }
      assert Lookup(st.cells, Global(RSP)) == Some(8) && Popped(dst, m).regs[RSP] == 1;
    } else {
      WitnessAddresses(dst.disp);
      WritesDiffer(dst.disp);
    }
  }

  lemma EightIsEight()
    ensures EvalBinary(Add, 0, 8) == 8
  {
  }

  /** The translation of pop agrees with the machine in every state exactly when its destination
      neither is rsp nor is addressed through rsp. */
  lemma PopExactly(dst: Operand)
    requires Writable(dst)
    ensures (forall m :: PopAgrees(dst, m)) <==> PopOk(dst)
  {
    if PopOk(dst) {
      forall m, st, st', id: nat | Matches(st, m) && ExecInsts(PopCode(dst, id), st) == Fell(st')
        ensures Matches(st', Popped(dst, m))
      {
        var r := PopSim(dst, id, st, m);
      }
    } else {
      var m := PopWitness();
      var st := State(map[], CellsOf(m), m.mem);
      assert Matches(st, m);
      var st' := PopTranslated(dst, 0, st, m);
      PopDiffers(dst, st');
      assert !PopAgrees(dst, m);
    }
  }

  // ---- cmp and the conditional jumps

  /** The sign of (l ^ r) & (l ^ (l - r)) is the overflow flag of l - r. */
  lemma OverflowFlag(l: Word, r: Word)
    ensures EvalCompare(Slt, EvalBinary(And, EvalBinary(Xor, l, r), EvalBinary(Xor, l, EvalBinary(Sub, l, r))), 0)
        == BitOf(CompareFlags(l, r).of)
  {
    hide Bitwise;
    var d := EvalBinary(Sub, l, r);
    var x, y := Bitwise(BitXor, l, r), Bitwise(BitXor, l, d);
    SignOfBitwise(BitXor, l, r);
    SignOfBitwise(BitXor, l, d);
    SignOfBitwise(BitAnd, x, y);
    assert d == if l >= r then l - r else l - r + TWO_TO_64;
  }

  lemma SignFlag(l: Word, r: Word)
    ensures EvalCompare(Slt, EvalBinary(Sub, l, r), 0) == BitOf(CompareFlags(l, r).sf)
  {
  }

  lemma ZeroFlag(l: Word, r: Word)
    ensures EvalCompare(Eq, EvalBinary(Sub, l, r), 0) == BitOf(CompareFlags(l, r).zf)
  {
    assert EvalBinary(Sub, l, r) == if l >= r then l - r else l - r + TWO_TO_64;
  }

  lemma DifferenceSim(l: Value, r: Value, id: nat, st: State, a: Word, b: Word) returns (st': State)
    requires Eval(l, st.env) == Some(a) && Eval(r, st.env) == Some(b) && OlderThan(l, id) && OlderThan(r, id)
    ensures ExecInsts(FlagCode(l, r, id)[..4], st) == Fell(st') && st' == st.(env := st'.env)
    ensures Eval(Def(id), st'.env) == Some(EvalBinary(Sub, a, b))
    ensures Eval(Def(id + 3), st'.env)
        == Some(EvalBinary(And, EvalBinary(Xor, a, b), EvalBinary(Xor, a, EvalBinary(Sub, a, b))))
  {
    hide EvalBinary, ExecInst, ExecInsts, Eval;
    var d := EvalBinary(Sub, a, b);
    var x, y := EvalBinary(Xor, a, b), EvalBinary(Xor, a, d);
    var s1 := st.(env := st.env[id := d]);
    var s2 := s1.(env := s1.env[id + 1 := x]);
    var s3 := s2.(env := s2.env[id + 2 := y]);
    st' := s3.(env := s3.env[id + 3 := EvalBinary(And, x, y)]);
    BinaryStep(Sub, id, l, r, st, a, b);
    EvalKept(l, st.env, s1.env, id);
    EvalKept(r, st.env, s1.env, id);
    BinaryStep(Xor, id + 1, l, r, s1, a, b);
    EvalKept(l, st.env, s2.env, id);
    EvalIs(s2.env, id, d);
    BinaryStep(Xor, id + 2, l, Def(id), s2, a, d);
    EvalIs(s3.env, id + 1, x);
    EvalIs(s3.env, id + 2, y);
    BinaryStep(And, id + 3, Def(id + 1), Def(id + 2), s3, x, y);
    EvalIs(st'.env, id, d);
    EvalIs(st'.env, id + 3, EvalBinary(And, x, y));
    var p, q, u, v := [BinaryInst(id, Sub, l, r)], [BinaryInst(id + 1, Xor, l, r)],
      [BinaryInst(id + 2, Xor, l, Def(id))], [BinaryInst(id + 3, And, Def(id + 1), Def(id + 2))];
    assert FlagCode(l, r, id)[..4] == p + (q + (u + v));
    Then(p, q + (u + v), st, s1);
    Then(q, u + v, s1, s2);
    Then(u, v, s2, s3);
  }

  // One flag is computed and stored.
  lemma FlagSim(pred: ComparePred, v: Value, id: nat, cell: nat, st: State, w: Word) returns (st': State)
    requires Eval(v, st.env) == Some(w) && OlderThan(v, id)
    ensures ExecInsts([CompareInst(id, pred, v, Const(0)), StoreInst(id + 1, Global(cell), Def(id))], st) == Fell(st')
    ensures st'.mem == st.mem && st'.cells == st.cells[Global(cell) := EvalCompare(pred, w, 0)]
    ensures forall u :: OlderThan(u, id) ==> Eval(u, st'.env) == Eval(u, st.env)
  {
    hide EvalCompare;
    var st1 := st.(env := st.env[id := EvalCompare(pred, w, 0)]);
    st' := st1.(cells := st1.cells[Global(cell) := EvalCompare(pred, w, 0)]);
    ExecCons(CompareInst(id, pred, v, Const(0)), [StoreInst(id + 1, Global(cell), Def(id))], st);
    ExecOne(StoreInst(id + 1, Global(cell), Def(id)), st1);
  }

  lemma FlagParts(l: Value, r: Value, id: nat)
    ensures FlagCode(l, r, id) == FlagCode(l, r, id)[..4]
      + ([CompareInst(id + 4, Slt, Def(id + 3), Const(0)), StoreInst(id + 5, Global(OF), Def(id + 4))]
      + ([CompareInst(id + 6, Slt, Def(id), Const(0)), StoreInst(id + 7, Global(SF), Def(id + 6))]
      + [CompareInst(id + 8, Eq, Def(id), Const(0)), StoreInst(id + 9, Global(ZF), Def(id + 8))]))
  {
  }

  lemma FlagsSim(l: Value, r: Value, id: nat, st: State, m: Machine, a: Word, b: Word) returns (st': State)
    requires Matches(st, m) && Eval(l, st.env) == Some(a) && Eval(r, st.env) == Some(b) && OlderThan(l, id)
    requires OlderThan(r, id)
    ensures ExecInsts(FlagCode(l, r, id), st) == Fell(st') && Matches(st', m.(flags := Some(CompareFlags(a, b))))
  {
    hide EvalBinary, EvalCompare, CompareFlags, ExecInsts, Eval, FlagCode;
    var d := EvalBinary(Sub, a, b);
    var z := EvalBinary(And, EvalBinary(Xor, a, b), EvalBinary(Xor, a, d));
    var st1 := DifferenceSim(l, r, id, st, a, b);
    var st2 := FlagSim(Slt, Def(id + 3), id + 4, OF, st1, z);
    assert OlderThan(Def(id), id + 4);
    var st3 := FlagSim(Slt, Def(id), id + 6, SF, st2, d);
    assert OlderThan(Def(id), id + 6);
    st' := FlagSim(Eq, Def(id), id + 8, ZF, st3, d);
    var x := [CompareInst(id + 4, Slt, Def(id + 3), Const(0)), StoreInst(id + 5, Global(OF), Def(id + 4))];
    var y := [CompareInst(id + 6, Slt, Def(id), Const(0)), StoreInst(id + 7, Global(SF), Def(id + 6))];
    var w := [CompareInst(id + 8, Eq, Def(id), Const(0)), StoreInst(id + 9, Global(ZF), Def(id + 8))];
    FlagParts(l, r, id);
    Then(FlagCode(l, r, id)[..4], x + (y + w), st, st1);
    Then(x, y + w, st1, st2);
    Then(y, w, st2, st3);
    OverflowFlag(a, b);
    SignFlag(a, b);
    ZeroFlag(a, b);
  }

  /** cmp. */
  lemma CmpSim(lhs: Operand, rhs: Operand, id: nat, st: State, m: Machine) returns (st': State)
    requires Matches(st, m) && Readable(lhs) && Readable(rhs)
    ensures ExecInsts(CmpCode(lhs, rhs, id), st) == Fell(st')
    ensures Matches(st', m.(flags := Some(CompareFlags(Get(lhs, m), Get(rhs, m)))))
  {
    hide LoadCode, LoadValue, FlagCode, Get, ExecInsts, Eval, CompareFlags;
    var id1 := id + |LoadCode(lhs, id)|;
    var id2 := id1 + |LoadCode(rhs, id1)|;
    var st1 := LoadBoth(lhs, rhs, id, st, m);
    st' := FlagsSim(LoadValue(lhs, id), LoadValue(rhs, id1), id2, st1, m, Get(lhs, m), Get(rhs, m));
    Then(LoadCode(lhs, id) + LoadCode(rhs, id1), FlagCode(LoadValue(lhs, id), LoadValue(rhs, id1), id2), st, st1);
  }

  /** After a cmp of a and b the three conditions are the signed comparisons of a and b. */
  lemma SignedMeaning(a: Word, b: Word)
    ensures Condition(OpJg, CompareFlags(a, b)) <==> Signed(a) > Signed(b)
    ensures Condition(OpJge, CompareFlags(a, b)) <==> Signed(a) >= Signed(b)
    ensures Condition(OpJle, CompareFlags(a, b)) <==> Signed(a) <= Signed(b)
  {
    assert Wrap(a - b) == if a >= b then a - b else a - b + TWO_TO_64;
  }

  lemma FlagCells(st: State, m: Machine)
    requires Matches(st, m) && m.flags.Some?
    ensures Lookup(st.cells, Global(OF)) == Some(BitOf(m.flags.value.of))
    ensures Lookup(st.cells, Global(SF)) == Some(BitOf(m.flags.value.sf))
    ensures Lookup(st.cells, Global(ZF)) == Some(BitOf(m.flags.value.zf))
  {
  }

  // The three flags loaded.
  lemma LoadFlags(id: nat, st: State, m: Machine) returns (st': State)
    requires Matches(st, m) && m.flags.Some?
    ensures ExecInsts([LoadInst(id, Global(OF)), LoadInst(id + 1, Global(SF)), LoadInst(id + 2, Global(ZF))], st)
        == Fell(st')
    ensures st' == st.(env := st.env[id := BitOf(m.flags.value.of)][id + 1 := BitOf(m.flags.value.sf)][id
        + 2 := BitOf(m.flags.value.zf)])
  {
    hide ExecInst, ExecInsts;
    FlagCells(st, m);
    var of, sf, zf := BitOf(m.flags.value.of), BitOf(m.flags.value.sf), BitOf(m.flags.value.zf);
    var s1 := st.(env := st.env[id := of]);
    var s2 := s1.(env := s1.env[id + 1 := sf]);
    st' := s2.(env := s2.env[id + 2 := zf]);
    LoadCell(id, OF, st, of);
    LoadCell(id + 1, SF, s1, sf);
    LoadCell(id + 2, ZF, s2, zf);
    var p, q, u := [LoadInst(id, Global(OF))], [LoadInst(id + 1, Global(SF))], [LoadInst(id + 2, Global(ZF))];
    assert [LoadInst(id, Global(OF)), LoadInst(id + 1, Global(SF)), LoadInst(id + 2, Global(ZF))] == p + (q + u);
    Then(p, q + u, st, s1);
    Then(q, u, s1, s2);
  }

  /** jg goes to its target exactly when its condition holds. */
  lemma JgSim(f: BlockId, t: BlockId, id: nat, st: State, m: Machine) returns (st': State)
    requires Matches(st, m) && m.flags.Some?
    ensures ExecInsts(JgCode(f, t, id), st) == Jump(if Condition(OpJg, m.flags.value) then t else f, st')
    ensures Matches(st', m)
  {
    hide EvalBinary, EvalCompare, ExecInst, ExecInsts, Eval, Condition, BitOf;
    var of, sf, zf := BitOf(m.flags.value.of), BitOf(m.flags.value.sf), BitOf(m.flags.value.zf);
    var s1 := LoadFlags(id, st, m);
    var p, q := EvalCompare(Eq, of, sf), EvalCompare(Eq, zf, 0);
    var s2 := s1.(env := s1.env[id + 3 := p]);
    var s3 := s2.(env := s2.env[id + 4 := q]);
    st' := s3.(env := s3.env[id + 5 := EvalBinary(And, p, q)]);
    SameCells(st, st', m);
    EvalIs(s1.env, id, of);
    EvalIs(s1.env, id + 1, sf);
    CompareStep(Eq, id + 3, Def(id), Def(id + 1), s1, of, sf);
    EvalIs(s2.env, id + 2, zf);
    EvalConst(0, s2.env);
    CompareStep(Eq, id + 4, Def(id + 2), Const(0), s2, zf, 0);
    EvalIs(s3.env, id + 3, p);
    EvalIs(s3.env, id + 4, q);
    BinaryStep(And, id + 5, Def(id + 3), Def(id + 4), s3, p, q);
    JgCondition(m.flags.value);
    EvalIs(st'.env, id + 5, EvalBinary(And, p, q));
    BranchStep(id + 6, Def(id + 5), f, t, st', Condition(OpJg, m.flags.value));
    var a := [LoadInst(id, Global(OF)), LoadInst(id + 1, Global(SF)), LoadInst(id + 2, Global(ZF))];
    var b, c := [CompareInst(id + 3, Eq, Def(id), Def(id + 1))], [CompareInst(id + 4, Eq, Def(id + 2), Const(0))];
    var d, e := [BinaryInst(id + 5, And, Def(id + 3), Def(id + 4))], [CondBranchInst(id + 6, Def(id + 5), f, t)];
    assert JgCode(f, t, id) == a + (b + (c + (d + e)));
    Then(a, b + (c + (d + e)), st, s1);
    Then(b, c + (d + e), s1, s2);
    Then(c, d + e, s2, s3);
    Then(d, e, s3, st');
  }

  lemma EvalConst(w: Word, env: Env)
    ensures Eval(Const(w), env) == Some(w)
  {
  }

  lemma JgCondition(f: Flags)
    ensures EvalBinary(And, EvalCompare(Eq, BitOf(f.of), BitOf(f.sf)), EvalCompare(Eq, BitOf(f.zf), 0))
        == BitOf(Condition(OpJg, f))
  {
    BitwiseOfTruthValues(BitAnd, EvalCompare(Eq, BitOf(f.of), BitOf(f.sf)), EvalCompare(Eq, BitOf(f.zf), 0));
  }

  lemma JgeSim(f: BlockId, t: BlockId, id: nat, st: State, m: Machine) returns (st': State)
    requires Matches(st, m) && m.flags.Some?
    ensures ExecInsts(JgeCode(f, t, id), st) == Jump(if Condition(OpJge, m.flags.value) then t else f, st')
    ensures Matches(st', m)
  {
    FlagCells(st, m);
    var of, sf := BitOf(m.flags.value.of), BitOf(m.flags.value.sf);
    var p := EvalCompare(Eq, of, sf);
    var e1 := st.env[id := of];
    var e2 := e1[id + 1 := sf];
    st' := st.(env := e2[id + 2 := p]);
    var c := JgeCode(f, t, id);
    assert c == [c[0]] + ([c[1]] + ([c[2]] + [c[3]]));
    ExecCons(c[0], [c[1]] + ([c[2]] + [c[3]]), st);
    ExecCons(c[1], [c[2]] + [c[3]], st.(env := e1));
    ExecCons(c[2], [c[3]], st.(env := e2));
    ExecOne(c[3], st');
  }

  lemma JleSim(f: BlockId, t: BlockId, id: nat, st: State, m: Machine) returns (st': State)
    requires Matches(st, m) && m.flags.Some?
    ensures ExecInsts(JleCode(f, t, id), st) == Jump(if Condition(OpJle, m.flags.value) then t else f, st')
    ensures Matches(st', m)
  {
    hide EvalBinary, EvalCompare, ExecInst, ExecInsts, Eval, Condition, BitOf;
    var of, sf, zf := BitOf(m.flags.value.of), BitOf(m.flags.value.sf), BitOf(m.flags.value.zf);
    var s1 := LoadFlags(id, st, m);
    var p := EvalCompare(Ne, of, sf);
    var s2 := s1.(env := s1.env[id + 3 := p]);
    st' := s2.(env := s2.env[id + 4 := EvalBinary(Or, p, zf)]);
    SameCells(st, st', m);
    EvalIs(s1.env, id, of);
    EvalIs(s1.env, id + 1, sf);
    CompareStep(Ne, id + 3, Def(id), Def(id + 1), s1, of, sf);
    EvalIs(s2.env, id + 3, p);
    EvalIs(s2.env, id + 2, zf);
    BinaryStep(Or, id + 4, Def(id + 3), Def(id + 2), s2, p, zf);
    JleCondition(m.flags.value);
    EvalIs(st'.env, id + 4, EvalBinary(Or, p, zf));
    BranchStep(id + 5, Def(id + 4), f, t, st', Condition(OpJle, m.flags.value));
    var a := [LoadInst(id, Global(OF)), LoadInst(id + 1, Global(SF)), LoadInst(id + 2, Global(ZF))];
    var b := [CompareInst(id + 3, Ne, Def(id), Def(id + 1))];
    var d, e := [BinaryInst(id + 4, Or, Def(id + 3), Def(id + 2))], [CondBranchInst(id + 5, Def(id + 4), f, t)];
    assert JleCode(f, t, id) == a + (b + (d + e));
    Then(a, b + (d + e), st, s1);
    Then(b, d + e, s1, s2);
    Then(d, e, s2, st');
  }

  lemma JleCondition(f: Flags)
    ensures EvalBinary(Or, EvalCompare(Ne, BitOf(f.of), BitOf(f.sf)), BitOf(f.zf)) == BitOf(Condition(OpJle, f))
  {
    BitwiseOfTruthValues(BitOr, EvalCompare(Ne, BitOf(f.of), BitOf(f.sf)), BitOf(f.zf));
  }
}

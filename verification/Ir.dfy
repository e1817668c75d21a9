/** The intermediate representation and what running it means. */
module Ir {
  import opened Words
  import opened Graph

  type BlockId = nat

  // The identity of a virtual register object, by the reason it was created.
  datatype VirtName =
    | Keyed(key: Value)     // the memoised register of a value
    | NewDef(id: nat)       // the result of a lowered binary or compare
    | LoadReg(id: nat)      // the result of a lowered load
    | RetReg(id: nat)       // the value of a return

  // Def is the result of an instruction; Alloc and Global are the addresses of cells.
  datatype Value =
    | Const(word: Word)
    | Def(id: nat)
    | Alloc(id: nat)
    | Global(g: nat)
    | Virt(name: VirtName)
    | Phys(r: nat)

  // Every instruction object has an identity. Moves and constraints only occur in the backend.
  datatype Inst =
    | AllocInst(id: nat)
    | BinaryInst(id: nat, op: BinaryOp, lhs: Value, rhs: Value)
    | CompareInst(id: nat, pred: ComparePred, lhs: Value, rhs: Value)
    | LoadInst(id: nat, ptr: Value)
    | StoreInst(id: nat, ptr: Value, val: Value)
    | PhiInst(id: nat, incoming: map<BlockId, Value>)
    | BranchInst(id: nat, dst: BlockId)
    | CondBranchInst(id: nat, cond: Value, falseDst: BlockId, trueDst: BlockId)
    | RetInst(id: nat, retVal: Value)
    | MoveInst(dstVal: Value, val: Value)
    | ConstraintInst(reg: VirtName)

  type Block = seq<Inst>

  // The blocks in the order the function holds them; the first one is the entry.
  datatype Function = Function(order: seq<BlockId>, blocks: map<BlockId, Block>)

  ghost predicate ValidFunction(f: Function) {
    && |f.order| > 0
    && (forall i, j :: 0 <= i < j < |f.order| ==> f.order[i] != f.order[j])
    && (forall b :: b in f.order <==> b in f.blocks)
    && (forall b, d :: b in f.blocks && d in BlockTargets(f.blocks[b]) ==> d in f.blocks)
  }

  function Entry(f: Function): BlockId
    requires |f.order| > 0
  {
    f.order[0]
  }

  predicate IsTerminator(i: Inst) {
    i.BranchInst? || i.CondBranchInst? || i.RetInst?
  }

  predicate NoPhis(b: Block) {
    forall k :: 0 <= k < |b| ==> !b[k].PhiInst?
  }

  // The results that other instructions can use.
  predicate DefinesValue(i: Inst) {
    i.BinaryInst? || i.CompareInst? || i.LoadInst? || i.PhiInst?
  }

  function InstTargets(i: Inst): seq<BlockId> {
    match i
    case BranchInst(_, dst) => [dst]
    case CondBranchInst(_, _, falseDst, trueDst) => [falseDst, trueDst]
    case _ => []
  }

  function BlockTargets(b: Block): (r: seq<BlockId>)
    ensures forall k, d :: 0 <= k < |b| && d in InstTargets(b[k]) ==> d in r
    ensures forall d :: d in r ==> exists k :: 0 <= k < |b| && d in InstTargets(b[k])
  {
    if b == [] then []
    else
      assert forall k :: 1 <= k < |b| ==> b[k] == b[1..][k - 1];
      InstTargets(b[0]) + BlockTargets(b[1..])
  }

  // The control flow edges, block by block.
  function BlockEdges(b: BlockId, targets: seq<BlockId>): (r: seq<Edge>)
    ensures |r| == |targets| && forall k :: 0 <= k < |r| ==> r[k] == Edge(b, targets[k])
  {
    seq(|targets|, k requires 0 <= k < |targets| => Edge(b, targets[k]))
  }

  function EdgesOf(f: Function, order: seq<BlockId>): seq<Edge>
    requires forall b :: b in order ==> b in f.blocks
  {
    if order == [] then [] else BlockEdges(order[0], BlockTargets(f.blocks[order[0]])) + EdgesOf(f, order[1..])
  }

  // ---- Meaning

  type Env = map<nat, Word>

  // The cells are the variables behind Alloc and Global; mem is the flat memory.
  datatype State = State(env: Env, cells: map<Value, Word>, mem: Memory)

  datatype Outcome =
    | Fell(st: State)
    | Jump(dst: BlockId, st: State)
    | Return(word: Word, st: State)
    | Stuck

  function Eval(v: Value, env: Env): Option<Word> {
    match v
    case Const(w) => Some(w)
    case Def(id) => Lookup(env, id)
    case _ => None
  }

  function Bind(env: Env, id: nat, w: Option<Word>): Env {
    if w.Some? then env[id := w.value] else env - {id}
  }

  // A conditional branch takes its true edge exactly when the condition equals 1.
  function ExecInst(i: Inst, st: State): Outcome {
    match i
    case AllocInst(_) => Fell(st)
    case BinaryInst(id, op, lhs, rhs) =>
      var l, r := Eval(lhs, st.env), Eval(rhs, st.env);
      if l.Some? && r.Some? && (op == Shl ==> r.value < 64)
      then Fell(st.(env := st.env[id := EvalBinary(op, l.value, r.value)])) else Stuck
    case CompareInst(id, pred, lhs, rhs) =>
      var l, r := Eval(lhs, st.env), Eval(rhs, st.env);
      if l.Some? && r.Some? then Fell(st.(env := st.env[id := EvalCompare(pred, l.value, r.value)])) else Stuck
    case LoadInst(id, ptr) =>
      if ptr.Alloc? || ptr.Global? then Fell(st.(env := Bind(st.env, id, Lookup(st.cells, ptr))))
      else
        var a := Eval(ptr, st.env);
        if a.Some? then Fell(st.(env := st.env[id := Read64(st.mem, a.value)])) else Stuck
    case StoreInst(_, ptr, val) =>
      var w := Eval(val, st.env);
      if w.None? then Stuck
      else if ptr.Alloc? || ptr.Global? then Fell(st.(cells := st.cells[ptr := w.value]))
      else
        var a := Eval(ptr, st.env);
        if a.Some? then Fell(st.(mem := Write64(st.mem, a.value, w.value))) else Stuck
    case PhiInst(_, _) => Fell(st)
    case BranchInst(_, dst) => Jump(dst, st)
    case CondBranchInst(_, cond, falseDst, trueDst) =>
      var c := Eval(cond, st.env);
      if c.Some? then Jump(if c.value == 1 then trueDst else falseDst, st) else Stuck
    case RetInst(_, retVal) =>
      var w := Eval(retVal, st.env);
      if w.Some? then Return(w.value, st) else Stuck
    case MoveInst(_, _) => Stuck
    case ConstraintInst(_) => Stuck
  }

  function ExecInsts(b: Block, st: State): Outcome {
    if b == [] then Fell(st)
    else
      var o := ExecInst(b[0], st);
      if o.Fell? then ExecInsts(b[1..], o.st) else o
  }

  // The phis of a block take their values together, on entry, from the state before it.
  function FindPhi(b: Block, id: nat): Option<map<BlockId, Value>> {
    if b == [] then None
    else if b[0].PhiInst? && b[0].id == id then Some(b[0].incoming)
    else FindPhi(b[1..], id)
  }

  function PhiIds(b: Block): (r: set<nat>)
    ensures forall k :: 0 <= k < |b| && b[k].PhiInst? ==> b[k].id in r
  {
    set k | 0 <= k < |b| && b[k].PhiInst? :: b[k].id
  }

  function EntryValue(b: Block, from: BlockId, env: Env, id: nat): Option<Word> {
    var phi := FindPhi(b, id);
    if phi.None? then Lookup(env, id)
    else if from in phi.value then Eval(phi.value[from], env)
    else None
  }

  function EnterEnv(b: Block, from: BlockId, env: Env): Env {
    map id | id in env.Keys + PhiIds(b) && EntryValue(b, from, env, id).Some? :: EntryValue(b, from, env, id).value
  }

  // One step runs a whole block and evaluates the phis of the block it jumps to.
  function StepBlock(f: Function, b: BlockId, st: State): Outcome {
    if b !in f.blocks then Stuck
    else
      var o := ExecInsts(f.blocks[b], st);
      if o.Jump? && o.dst in f.blocks then Jump(o.dst, o.st.(env := EnterEnv(f.blocks[o.dst], b, o.st.env)))
      else if o.Return? then o
      else Stuck
  }

  // Runs n more blocks, or fewer if the function returns or gets stuck.
  function Run(f: Function, o: Outcome, n: nat): Outcome
    decreases n
  {
    if n == 0 || !o.Jump? then o else Run(f, StepBlock(f, o.dst, o.st), n - 1)
  }

  // A run from the entry; the environment is empty at first.
  function RunFunction(f: Function, st: State, n: nat): Outcome
    requires |f.order| > 0
  {
    Run(f, Jump(Entry(f), st.(env := map[])), n)
  }

  lemma {:induction false} ExecAppend(a: Block, b: Block, st: State)
    ensures ExecInsts(a + b, st)
         == (var o := ExecInsts(a, st); if o.Fell? then ExecInsts(b, o.st) else o)
  {
    if a == [] {
      assert a + b == b;
    } else {
      assert (a + b)[1..] == a[1..] + b;
      var o := ExecInst(a[0], st);
      if o.Fell? {
        ExecAppend(a[1..], b, o.st);
      }
    }
  }

  // A run leaves a block for one of its destinations.
  lemma {:induction false} ExecTarget(b: Block, st: State)
    requires ExecInsts(b, st).Jump?
    ensures ExecInsts(b, st).dst in BlockTargets(b)
  {
    var o := ExecInst(b[0], st);
    if o.Fell? {
      ExecTarget(b[1..], o.st);
    } else {
      assert o.dst in InstTargets(b[0]);
    }
  }

  lemma {:induction false} FindPhiSome(b: Block, id: nat)
    ensures FindPhi(b, id).Some? <==> id in PhiIds(b)
    ensures FindPhi(b, id).Some? ==> exists k :: 0 <= k < |b| && b[k] == PhiInst(id, FindPhi(b, id).value)
  {
    if b != [] {
      FindPhiSome(b[1..], id);
      if id in PhiIds(b) && !(b[0].PhiInst? && b[0].id == id) {
        var k :| 0 <= k < |b| && b[k].PhiInst? && b[k].id == id;
        assert b[1..][k - 1] == b[k];
      }
      if id in PhiIds(b[1..]) {
        var k :| 0 <= k < |b[1..]| && b[1..][k].PhiInst? && b[1..][k].id == id;
        assert b[k + 1] == b[1..][k];
      }
      if FindPhi(b[1..], id).Some? {
        var k :| 0 <= k < |b[1..]| && b[1..][k] == PhiInst(id, FindPhi(b[1..], id).value);
        assert b[k + 1] == b[1..][k];
      }
    }
  }

  /** What a block finds in the environment when it is entered. */
  lemma EnterLookup(b: Block, from: BlockId, env: Env, id: nat)
    ensures Lookup(EnterEnv(b, from, env), id) == EntryValue(b, from, env, id)
  {
    FindPhiSome(b, id);
  }
}

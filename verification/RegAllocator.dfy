/** One location for each virtual register: rax for return values, a stack slot for the others. */
module RegAllocator {
  import opened Words
  import opened Ir
  import opened Ssa
  import opened FunctionObject
  import M = MoveInserter

  type Regs = map<VirtName, Value>

  function ApplyReg(regs: Regs, v: Value): Value {
    if v.Virt? && v.name in regs then regs[v.name] else v
  }

  function AssignInst(regs: Regs, i: Inst): Inst {
    match i
    case AllocInst(_) => i
    case BinaryInst(id, op, lhs, rhs) => BinaryInst(id, op, ApplyReg(regs, lhs), ApplyReg(regs, rhs))
    case CompareInst(id, pred, lhs, rhs) => CompareInst(id, pred, ApplyReg(regs, lhs), ApplyReg(regs, rhs))
    case LoadInst(id, ptr) => LoadInst(id, ApplyReg(regs, ptr))
    case StoreInst(id, ptr, val) => StoreInst(id, ApplyReg(regs, ptr), ApplyReg(regs, val))
    case PhiInst(id, incoming) => PhiInst(id, map b | b in incoming :: ApplyReg(regs, incoming[b]))
    case BranchInst(_, _) => i
    case CondBranchInst(id, cond, falseDst, trueDst) => CondBranchInst(id, ApplyReg(regs, cond), falseDst, trueDst)
    case RetInst(id, retVal) => RetInst(id, ApplyReg(regs, retVal))
    case MoveInst(dst, val) => MoveInst(ApplyReg(regs, dst), ApplyReg(regs, val))
    case ConstraintInst(_) => i
  }

  function AssignBlock(regs: Regs, b: Block): (r: Block)
    ensures |r| == |b| && forall k :: 0 <= k < |b| ==> r[k] == AssignInst(regs, b[k])
  {
    seq(|b|, k requires 0 <= k < |b| => AssignInst(regs, b[k]))
  }

  function AllocInsts(allocs: seq<nat>): (r: Block)
    ensures |r| == |allocs| && forall k :: 0 <= k < |allocs| ==> r[k] == AllocInst(allocs[k])
  {
    seq(|allocs|, k requires 0 <= k < |allocs| => AllocInst(allocs[k]))
  }

  /** The registers replaced by their locations, and the new slots in front of the entry block. */
  function Allocated(g: Function, regs: Regs, allocs: seq<nat>): Function
    requires |g.order| > 0
  {
    Function(g.order, map b | b in g.blocks ::
      (if b == Entry(g) then AllocInsts(allocs) else []) + AssignBlock(regs, g.blocks[b]))
  }

  // ---- Replacing one more register

  lemma AssignInstExtend(regs: Regs, name: VirtName, v: Value, i: Inst)
    requires name !in regs && forall n :: n in regs ==> !regs[n].Virt?
    ensures AssignInst(map[name := v], AssignInst(regs, i)) == AssignInst(regs[name := v], i)
  {
    forall u
      ensures ApplyReg(map[name := v], ApplyReg(regs, u)) == ApplyReg(regs[name := v], u)
    {
    }
  }

  lemma AssignBlockExtend(regs: Regs, name: VirtName, v: Value, b: Block)
    requires name !in regs && forall n :: n in regs ==> !regs[n].Virt?
    ensures AssignBlock(map[name := v], AssignBlock(regs, b)) == AssignBlock(regs[name := v], b)
  {
    forall k | 0 <= k < |b|
      ensures AssignInst(map[name := v], AssignInst(regs, b[k])) == AssignInst(regs[name := v], b[k])
    {
      AssignInstExtend(regs, name, v, b[k]);
    }
  }

  lemma AssignAllocs(regs: Regs, allocs: seq<nat>, b: Block)
    ensures AssignBlock(regs, AllocInsts(allocs) + b) == AllocInsts(allocs) + AssignBlock(regs, b)
  {
  }

  function AssignFunction(regs: Regs, f: Function): Function {
    Function(f.order, map b | b in f.blocks :: AssignBlock(regs, f.blocks[b]))
  }

  lemma AssignFunctionExtend(g: Function, regs: Regs, allocs: seq<nat>, name: VirtName, v: Value)
    requires |g.order| > 0 && name !in regs && forall n :: n in regs ==> !regs[n].Virt?
    ensures AssignFunction(map[name := v], Allocated(g, regs, allocs)) == Allocated(g, regs[name := v], allocs)
  {
    forall b | b in g.blocks
      ensures AssignBlock(map[name := v], Allocated(g, regs, allocs).blocks[b])
          == Allocated(g, regs[name := v], allocs).blocks[b]
    {
      AssignBlockExtend(regs, name, v, g.blocks[b]);
      AssignAllocs(map[name := v], allocs, AssignBlock(regs, g.blocks[b]));
      assert [] + AssignBlock(regs, g.blocks[b]) == AssignBlock(regs, g.blocks[b]);
    }
  }

  lemma OneMoreSlot(g: Function, regs: Regs, allocs: seq<nat>, a: nat)
    requires |g.order| > 0 && Entry(g) in g.blocks
    ensures WithBlock(Allocated(g, regs, allocs), Entry(g),
        InsertAt(Allocated(g, regs, allocs).blocks[Entry(g)], 0, AllocInst(a)))
         == Allocated(g, regs, [a] + allocs)
  {
    assert AllocInsts([a] + allocs) == [AllocInst(a)] + AllocInsts(allocs);
    assert InsertAt(AllocInsts(allocs) + AssignBlock(regs, g.blocks[Entry(g)]), 0, AllocInst(a))
        == [AllocInst(a)] + AllocInsts(allocs) + AssignBlock(regs, g.blocks[Entry(g)]);
  }

  // ---- What a correct assignment is

  predicate Writes(i: Inst, name: VirtName) {
    i.MoveInst? && i.dstVal == Virt(name)
  }

  predicate Constrains(i: Inst, name: VirtName) {
    i.ConstraintInst? && i.reg == name
  }

  // The first k instructions of the o-th block and all instructions of the blocks before it.
  predicate Seen(g: Function, o: nat, k: nat, p: Pos) {
    Within(g, p) && (p.block in g.order[..if o <= |g.order| then o else |g.order|]
      || (o < |g.order| && p.block == g.order[o] && p.index < k))
  }

  ghost predicate WrittenIn(g: Function, o: nat, k: nat, name: VirtName) {
    exists p {:trigger InstAt(g, p)} :: Seen(g, o, k, p) && Writes(InstAt(g, p), name)
  }

  ghost predicate ConstrainedIn(g: Function, o: nat, k: nat, name: VirtName) {
    exists p {:trigger InstAt(g, p)} :: Seen(g, o, k, p) && Constrains(InstAt(g, p), name)
  }

  ghost predicate Constrained(g: Function, name: VirtName) {
    exists p {:trigger InstAt(g, p)} :: Within(g, p) && Constrains(InstAt(g, p), name)
  }

  ghost predicate Written(g: Function, name: VirtName) {
    exists p {:trigger InstAt(g, p)} :: Within(g, p) && Writes(InstAt(g, p), name)
  }

  /** Every written register has a location; constrained ones have rax, the others a slot each. */
  ghost predicate IsAssignment(g: Function, regs: Regs, allocs: seq<nat>, base: nat) {
    && (forall name :: name in regs <==> Written(g, name))
    && (forall name :: name in regs ==>
         if Constrained(g, name) then regs[name] == Phys(0) else IsSlot(regs[name], allocs))
    && SlotsDiffer(regs) && FreshSlots(allocs, base) && SlotsUsed(regs, allocs)
  }

  predicate IsSlot(v: Value, allocs: seq<nat>) {
    v.Alloc? && v.id in allocs
  }

  ghost predicate SlotsDiffer(regs: Regs) {
    forall m, n :: m in regs && n in regs && regs[m] == regs[n] && regs[m].Alloc? ==> m == n
  }

  ghost predicate FreshSlots(allocs: seq<nat>, base: nat) {
    forall j :: 0 <= j < |allocs| ==> allocs[j] == base + |allocs| - 1 - j
  }

  // No slot is handed out without a register for it.
  ghost predicate SlotsUsed(regs: Regs, allocs: seq<nat>) {
    forall a :: a in allocs ==> HasRegister(regs, a)
  }

  ghost predicate HasRegister(regs: Regs, a: nat) {
    exists name :: name in regs && regs[name] == Alloc(a)
  }

  lemma OneMoreRegister(regs: Regs, allocs: seq<nat>, name: VirtName, v: Value)
    requires SlotsUsed(regs, allocs) && name !in regs
    ensures SlotsUsed(regs[name := v], allocs)
    ensures v.Alloc? ==> SlotsUsed(regs[name := v], [v.id] + allocs)
  {
    var now := regs[name := v];
    forall a | a in allocs
      ensures HasRegister(now, a)
    {
      var n :| n in regs && regs[n] == Alloc(a);
      assert n in now && now[n] == Alloc(a);
    }
    if v.Alloc? {
      assert now[name] == Alloc(v.id);
    }
  }

  /** Two registers share a location only if both are constrained to the return register. */
  lemma SharedLocation(g: Function, regs: Regs, allocs: seq<nat>, base: nat, m: VirtName, n: VirtName)
    requires IsAssignment(g, regs, allocs, base) && m in regs && n in regs && m != n
    ensures regs[m] == regs[n] <==> Constrained(g, m) && Constrained(g, n)
  {
    if Constrained(g, m) {
      assert regs[m] == Phys(0);
    }
  }

  // A constrained register is constrained once, directly before it is written.
  ghost predicate ConstraintsFirst(g: Function) {
    && (forall p, q {:trigger InstAt(g, p), InstAt(g, q)} ::
          Within(g, p) && Within(g, q) && InstAt(g, p).ConstraintInst? && InstAt(g, q) == InstAt(g, p) ==> p == q)
    && (forall p, name {:trigger Writes(InstAt(g, p), name)} ::
         Within(g, p) && Writes(InstAt(g, p), name) && Constrained(g, name) ==>
          p.index > 0 && Constrains(InstAt(g, Pos(p.block, p.index - 1)), name))
  }

  // What holds when k instructions of the o-th block have been seen.
  ghost predicate Assigning(g: Function, regs: Regs, constraints: set<VirtName>, allocs: seq<nat>, base: nat, o: nat,
      k: nat) {
    && (forall name :: name in regs <==> WrittenIn(g, o, k, name))
    && (forall name :: name in constraints <==> ConstrainedIn(g, o, k, name))
    && (forall name :: name in regs ==>
         if Constrained(g, name) then regs[name] == Phys(0) else IsSlot(regs[name], allocs))
    && SlotsDiffer(regs) && FreshSlots(allocs, base) && SlotsUsed(regs, allocs)
  }

  lemma SeenStep(g: Function, o: nat, k: nat, p: Pos)
    requires o < |g.order| && g.order[o] in g.blocks && k < |g.blocks[g.order[o]]| && M.Ordered(g)
    ensures Seen(g, o, k + 1, p) <==> Seen(g, o, k, p) || p == Pos(g.order[o], k)
    ensures k > 0 ==> Seen(g, o, k, Pos(g.order[o], k - 1))
    ensures !Seen(g, o, k, Pos(g.order[o], k))
  {
    assert g.order[o] !in g.order[..o];
  }

  lemma SeenNextBlock(g: Function, o: nat, p: Pos)
    requires o < |g.order| && g.order[o] in g.blocks
    ensures Seen(g, o, |g.blocks[g.order[o]]|, p) <==> Seen(g, o + 1, 0, p)
  {
    assert g.order[..o + 1] == g.order[..o] + [g.order[o]];
  }

  lemma WrittenStep(g: Function, o: nat, k: nat, name: VirtName)
    requires o < |g.order| && g.order[o] in g.blocks && k < |g.blocks[g.order[o]]| && M.Ordered(g)
    ensures WrittenIn(g, o, k + 1, name) <==> WrittenIn(g, o, k, name) || Writes(g.blocks[g.order[o]][k], name)
    ensures ConstrainedIn(g, o, k + 1, name) <==>
        ConstrainedIn(g, o, k, name) || Constrains(g.blocks[g.order[o]][k], name)
  {
    var q := Pos(g.order[o], k);
    assert InstAt(g, q) == g.blocks[g.order[o]][k];
    SeenStep(g, o, k, q);
    forall p
      ensures Seen(g, o, k + 1, p) <==> Seen(g, o, k, p) || p == q
    {
      SeenStep(g, o, k, p);
    }
    if WrittenIn(g, o, k, name) {
      var p :| Seen(g, o, k, p) && Writes(InstAt(g, p), name);
      assert Seen(g, o, k + 1, p);
    }
    if ConstrainedIn(g, o, k, name) {
      var p :| Seen(g, o, k, p) && Constrains(InstAt(g, p), name);
      assert Seen(g, o, k + 1, p);
    }
  }

  lemma WrittenNextBlock(g: Function, o: nat, name: VirtName)
    requires o < |g.order| && g.order[o] in g.blocks
    ensures WrittenIn(g, o, |g.blocks[g.order[o]]|, name) <==> WrittenIn(g, o + 1, 0, name)
    ensures ConstrainedIn(g, o, |g.blocks[g.order[o]]|, name) <==> ConstrainedIn(g, o + 1, 0, name)
  {
    hide Seen;
    forall p
      ensures Seen(g, o, |g.blocks[g.order[o]]|, p) <==> Seen(g, o + 1, 0, p)
    {
      SeenNextBlock(g, o, p);
    }
  }

  // ---- The pass

  // Value::replace_all_uses_with for a virtual register.
  method ReplaceAllUses(target: FunctionObject, name: VirtName, v: Value)
    modifies target
    ensures target.fn == AssignFunction(map[name := v], old(target.fn))
  {
    target.fn := AssignFunction(map[name := v], target.fn);
  }

  datatype Allocation = Allocation(regs: Regs, constraints: set<VirtName>, allocs: seq<nat>)

  // The target holds the function g with the locations given so far.
  ghost predicate Allocating(now: Function, g: Function, s: Allocation, base: nat, o: nat, k: nat) {
    |g.order| > 0 && now == Allocated(g, s.regs, s.allocs) && Assigning(g, s.regs, s.constraints, s.allocs, base, o, k)
  }

  lemma ConstraintStep(g: Function, s: Allocation, base: nat, o: nat, k: nat, name: VirtName)
    requires Assigning(g, s.regs, s.constraints, s.allocs, base, o, k) && M.Ordered(g)
    requires o < |g.order| && g.order[o] in g.blocks && k < |g.blocks[g.order[o]]|
    requires Constrains(g.blocks[g.order[o]][k], name) && ConstraintsFirst(g)
    ensures name !in s.constraints
    ensures Assigning(g, s.regs, s.constraints + {name}, s.allocs, base, o, k + 1)
  {
    hide Seen, WrittenIn, SlotsDiffer, FreshSlots, Constrained, IsSlot, ConstraintsFirst;
    forall n
      ensures WrittenIn(g, o, k + 1, n) <==> WrittenIn(g, o, k, n)
      ensures ConstrainedIn(g, o, k + 1, n) <==> ConstrainedIn(g, o, k, n) || n == name
    {
      WrittenStep(g, o, k, n);
    }
    NotConstrainedYet(g, o, k, name);
  }

  lemma NotConstrainedYet(g: Function, o: nat, k: nat, name: VirtName)
    requires o < |g.order| && g.order[o] in g.blocks && k < |g.blocks[g.order[o]]| && M.Ordered(g)
    requires Constrains(g.blocks[g.order[o]][k], name) && ConstraintsFirst(g)
    ensures !ConstrainedIn(g, o, k, name)
  {
    var q := Pos(g.order[o], k);
    forall p | Seen(g, o, k, p) && Constrains(InstAt(g, p), name)
      ensures false
    {
      SeenStep(g, o, k, q);
      var i, j := InstAt(g, p), InstAt(g, q);
    }
  }

  lemma OtherStep(g: Function, s: Allocation, base: nat, o: nat, k: nat)
    requires Assigning(g, s.regs, s.constraints, s.allocs, base, o, k) && M.Ordered(g)
    requires o < |g.order| && g.order[o] in g.blocks && k < |g.blocks[g.order[o]]|
    requires var i := g.blocks[g.order[o]][k];
      !i.ConstraintInst? && (i.MoveInst? && i.dstVal.Virt? ==> i.dstVal.name in s.regs)
    ensures Assigning(g, s.regs, s.constraints, s.allocs, base, o, k + 1)
  {
    hide Seen, WrittenIn, SlotsDiffer, FreshSlots, Constrained, IsSlot, ConstrainedIn;
    forall n
      ensures WrittenIn(g, o, k + 1, n) <==> WrittenIn(g, o, k, n)
      ensures ConstrainedIn(g, o, k + 1, n) <==> ConstrainedIn(g, o, k, n)
    {
      WrittenStep(g, o, k, n);
    }
  }

  // A constrained register has been seen to be constrained before it is written.
  lemma ConstraintSeen(g: Function, o: nat, k: nat, name: VirtName)
    requires o < |g.order| && g.order[o] in g.blocks && k < |g.blocks[g.order[o]]| && M.Ordered(g)
    requires Writes(g.blocks[g.order[o]][k], name) && ConstraintsFirst(g)
    ensures Constrained(g, name) <==> ConstrainedIn(g, o, k, name)
  {
    var p := Pos(g.order[o], k);
    assert Writes(InstAt(g, p), name);
    if Constrained(g, name) {
      SeenStep(g, o, k, p);
      assert Constrains(InstAt(g, Pos(p.block, p.index - 1)), name);
    }
  }

  // The location of a register that is written for the first time.
  lemma WriteStep(g: Function, s: Allocation, base: nat, o: nat, k: nat, name: VirtName)
    requires Assigning(g, s.regs, s.constraints, s.allocs, base, o, k) && M.Ordered(g) && ConstraintsFirst(g)
    requires o < |g.order| && g.order[o] in g.blocks && k < |g.blocks[g.order[o]]|
    requires Writes(g.blocks[g.order[o]][k], name) && name !in s.regs
    ensures name in s.constraints ==> Assigning(g, s.regs[name := Phys(0)], s.constraints, s.allocs, base, o, k + 1)
    ensures name !in s.constraints ==>
      var a := base + |s.allocs|; Assigning(g, s.regs[name := Alloc(a)], s.constraints, [a] + s.allocs, base, o, k + 1)
  {
    hide Seen, WrittenIn, ConstrainedIn, Constrained, ConstraintsFirst, SlotsUsed;
    OneMoreRegister(s.regs, s.allocs, name, if name in s.constraints then Phys(0) else Alloc(base + |s.allocs|));
    forall n
      ensures WrittenIn(g, o, k + 1, n) <==> WrittenIn(g, o, k, n) || n == name
      ensures ConstrainedIn(g, o, k + 1, n) <==> ConstrainedIn(g, o, k, n)
    {
      WrittenStep(g, o, k, n);
    }
    ConstraintSeen(g, o, k, name);
  }

  // Gives the written register a location if it has none, and puts it in its place everywhere.
  method Locate(target: FunctionObject, name: VirtName, s: Allocation, base: nat, ghost g: Function, ghost o: nat,
      ghost k: nat)
      returns (s': Allocation)
    requires Allocating(target.fn, g, s, base, o, k) && M.Ordered(g) && ConstraintsFirst(g)
    requires o < |g.order| && g.order[o] in g.blocks && k < |g.blocks[g.order[o]]|
    requires Writes(g.blocks[g.order[o]][k], name) && name !in s.regs
    modifies target
    ensures Allocating(target.fn, g, s', base, o, k + 1)
  {
    hide Assigning, ConstraintsFirst, Writes;
    WriteStep(g, s, base, o, k, name);
    LocationsAreReal(g, s, base, o, k);
    EntryHeld(g, target.fn, s);
    if name in s.constraints {
      s' := s.(regs := s.regs[name := Phys(0)]);
    } else {
      var alloc := base + |s.allocs|;
      OneMoreSlot(g, s.regs, s.allocs, alloc);
      target.Insert(Entry(target.fn), 0, AllocInst(alloc));
      s' := s.(regs := s.regs[name := Alloc(alloc)], allocs := [alloc] + s.allocs);
    }
    AssignFunctionExtend(g, s.regs, s'.allocs, name, s'.regs[name]);
    ReplaceAllUses(target, name, s'.regs[name]);
  }

  lemma LocationsAreReal(g: Function, s: Allocation, base: nat, o: nat, k: nat)
    requires Assigning(g, s.regs, s.constraints, s.allocs, base, o, k)
    ensures forall n :: n in s.regs ==> !s.regs[n].Virt?
  {
  }

  lemma EntryHeld(g: Function, now: Function, s: Allocation)
    requires M.Ordered(g) && |g.order| > 0 && now == Allocated(g, s.regs, s.allocs)
    ensures |now.order| > 0 && Entry(now) == Entry(g) && Entry(g) in now.blocks && Entry(g) in g.blocks
  {
  }

  // Where an instruction of g stands now.
  lemma CurrentInst(g: Function, now: Function, s: Allocation, b: BlockId, k: nat)
    requires M.Ordered(g) && |g.order| > 0 && now == Allocated(g, s.regs, s.allocs) && b in g.blocks
    requires k < |g.blocks[b]|
    ensures var shift := if b == Entry(g) then |s.allocs| else 0;
      b in now.blocks && k + shift < |now.blocks[b]| && now.blocks[b][k + shift] == AssignInst(s.regs, g.blocks[b][k])
  {
  }

  // The current form of a move has a register as destination only if that has no location yet.
  lemma AssignedMove(regs: Regs, i: Inst)
    requires forall n :: n in regs ==> !regs[n].Virt?
    ensures var c := AssignInst(regs, i);
      && c.ConstraintInst? == i.ConstraintInst? && (c.ConstraintInst? ==> c == i) && c.MoveInst? == i.MoveInst?
      && (c.MoveInst? && c.dstVal.Virt? <==> i.MoveInst? && i.dstVal.Virt? && i.dstVal.name !in regs)
      && (c.MoveInst? && c.dstVal.Virt? ==> c.dstVal == i.dstVal)
  {
  }

  method VisitInst(target: FunctionObject, b: BlockId, s: Allocation, base: nat, ghost g: Function, ghost o: nat,
      k: nat)
      returns (s': Allocation)
    requires Allocating(target.fn, g, s, base, o, k) && M.Ordered(g) && ConstraintsFirst(g)
    requires o < |g.order| && b == g.order[o] && b in g.blocks && k < |g.blocks[b]|
    modifies target
    ensures Allocating(target.fn, g, s', base, o, k + 1)
  {
    hide Assigning, ConstraintsFirst, AssignInst, Allocated;
    EntryHeld(g, target.fn, s);
    CurrentInst(g, target.fn, s, b, k);
    LocationsAreReal(g, s, base, o, k);
    AssignedMove(s.regs, g.blocks[b][k]);
    var inst := target.fn.blocks[b][k + if b == Entry(target.fn) then |s.allocs| else 0];
    if inst.ConstraintInst? {
      ConstraintStep(g, s, base, o, k, inst.reg);
      assert inst.reg !in s.constraints;
      s' := s.(constraints := s.constraints + {inst.reg});
      return;
    }
    if !inst.MoveInst? {
      OtherStep(g, s, base, o, k);
      s' := s;
      return;
    }
    if !inst.dstVal.Virt? {
      OtherStep(g, s, base, o, k);
      s' := s;
      return;
    }
    s' := Locate(target, inst.dstVal.name, s, base, g, o, k);
  }

  lemma AssigningNextBlock(g: Function, s: Allocation, base: nat, o: nat)
    requires o < |g.order| && g.order[o] in g.blocks
    requires Assigning(g, s.regs, s.constraints, s.allocs, base, o, |g.blocks[g.order[o]]|)
    ensures Assigning(g, s.regs, s.constraints, s.allocs, base, o + 1, 0)
  {
    hide WrittenIn, ConstrainedIn, SlotsDiffer, FreshSlots, Constrained;
    forall n
      ensures WrittenIn(g, o, |g.blocks[g.order[o]]|, n) <==> WrittenIn(g, o + 1, 0, n)
      ensures ConstrainedIn(g, o, |g.blocks[g.order[o]]|, n) <==> ConstrainedIn(g, o + 1, 0, n)
    {
      WrittenNextBlock(g, o, n);
    }
  }

  lemma AllSeen(g: Function, name: VirtName)
    requires forall b :: b in g.blocks ==> b in g.order
    ensures WrittenIn(g, |g.order|, 0, name) <==> Written(g, name)
  {
    assert g.order[..|g.order|] == g.order;
    if Written(g, name) {
      var p :| Within(g, p) && Writes(InstAt(g, p), name);
      assert Seen(g, |g.order|, 0, p);
    }
  }

  lemma FinishAllocation(g: Function, s: Allocation, base: nat)
    requires Assigning(g, s.regs, s.constraints, s.allocs, base, |g.order|, 0)
    requires forall b :: b in g.blocks ==> b in g.order
    ensures IsAssignment(g, s.regs, s.allocs, base)
  {
    hide WrittenIn, ConstrainedIn, SlotsDiffer, FreshSlots, Constrained, Written;
    forall n
      ensures WrittenIn(g, |g.order|, 0, n) <==> Written(g, n)
    {
      AllSeen(g, n);
    }
  }

  lemma BeginAllocation(g: Function, base: nat)
    requires |g.order| > 0
    ensures Allocating(g, g, Allocation(map[], {}, []), base, 0, 0)
  {
    assert g.order[..0] == [];
    forall b | b in g.blocks
      ensures Allocated(g, map[], []).blocks[b] == g.blocks[b]
    {
      forall k | 0 <= k < |g.blocks[b]|
        ensures AssignInst(map[], g.blocks[b][k]) == g.blocks[b][k]
      {
        AssignNothing(g.blocks[b][k]);
      }
    }
    assert Allocated(g, map[], []).blocks == g.blocks;
  }

  lemma AssignNothing(i: Inst)
    ensures AssignInst(map[], i) == i
  {
    if i.PhiInst? {
      assert AssignInst(map[], i).incoming == i.incoming;
    }
  }

  method VisitBlock(target: FunctionObject, b: BlockId, size: nat, s: Allocation, base: nat, ghost g: Function,
      ghost o: nat)
      returns (s': Allocation)
    requires Allocating(target.fn, g, s, base, o, 0) && M.Ordered(g) && ConstraintsFirst(g)
    requires o < |g.order| && b == g.order[o] && b in g.blocks && size == |g.blocks[b]|
    modifies target
    ensures Allocating(target.fn, g, s', base, o + 1, 0)
  {
    hide Assigning, ConstraintsFirst, Allocated;
    var k := 0;
    s' := s;
    while k < size
      invariant 0 <= k <= size && Allocating(target.fn, g, s', base, o, k)
    {
      s' := VisitInst(target, b, s', base, g, o, k);
      k := k + 1;
    }
    AssigningNextBlock(g, s', base, o);
  }

  /** Allocates every written register; the work queue is what the function held at the start. */
  method RunOn(target: FunctionObject, base: nat) returns (s: Allocation)
    requires M.Ordered(target.fn) && ConstraintsFirst(target.fn) && |target.fn.order| > 0
    requires forall b :: b in target.fn.blocks ==> b in target.fn.order
    modifies target
    ensures target.fn == Allocated(old(target.fn), s.regs, s.allocs)
    ensures IsAssignment(old(target.fn), s.regs, s.allocs, base)
  {
    hide Assigning, ConstraintsFirst, Allocated;
    var workQueue := target.fn;
    BeginAllocation(workQueue, base);
    s := Allocation(map[], {}, []);
    var o := 0;
    while o < |workQueue.order|
      invariant 0 <= o <= |workQueue.order| && Allocating(target.fn, workQueue, s, base, o, 0)
    {
      s := VisitBlock(target, workQueue.order[o], |workQueue.blocks[workQueue.order[o]]|, s, base, workQueue, o);
      o := o + 1;
    }
    FinishAllocation(workQueue, s, base);
  }
}

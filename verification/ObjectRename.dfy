/** The passes rename whole functions; the program redirects operand slots through user lists. Both do the same. */
module ObjectRename {
  import opened Ir
  import opened Ssa
  import opened FunctionObject
  import A = RegAllocator
  import U = UseLists

  // What an instruction holds: its operands, or for a phi its incoming values in the order of the blocks.
  function Held(i: Inst, blocks: seq<BlockId>): seq<Value> {
    if i.PhiInst? then IncomingValues(i.incoming, blocks) else Operands(i)
  }

  function IncomingValues(incoming: map<BlockId, Value>, blocks: seq<BlockId>): seq<Value> {
    if blocks == [] then []
    else (if blocks[0] in incoming then [incoming[blocks[0]]] else []) + IncomingValues(incoming, blocks[1..])
  }

  lemma IncomingAre(incoming: map<BlockId, Value>, blocks: seq<BlockId>, v: Value)
    requires forall b :: b in incoming ==> b in blocks
    ensures v in IncomingValues(incoming, blocks) <==> v in incoming.Values
  {
    IncomingIn(incoming, blocks, v);
  }

  lemma {:induction false} IncomingIn(incoming: map<BlockId, Value>, blocks: seq<BlockId>, v: Value)
    ensures v in IncomingValues(incoming, blocks) <==> exists b :: b in blocks && b in incoming && incoming[b] == v
  {
    if blocks != [] {
      IncomingIn(incoming, blocks[1..], v);
    }
  }

  // ---- Renaming replaces operands

  lemma {:induction false} IncomingRenamed(incoming: map<BlockId, Value>, renamed: map<BlockId, Value>,
      blocks: seq<BlockId>, x: Value, v: Value)
    requires renamed.Keys == incoming.Keys
    requires forall b :: b in incoming ==> renamed[b] == if incoming[b] == x then v else incoming[b]
    ensures IncomingValues(renamed, blocks) == U.Replaced(IncomingValues(incoming, blocks), x, v)
  {
    if blocks != [] {
      IncomingRenamed(incoming, renamed, blocks[1..], x, v);
    }
  }

  /** Renaming a result replaces it in the operands of an instruction. */
  lemma RenameReplaces(i: Inst, blocks: seq<BlockId>, x: nat, v: Value)
    ensures Held(RenameInst(map[x := v], i), blocks) == U.Replaced(Held(i, blocks), Def(x), v)
  {
    if i.PhiInst? {
      IncomingRenamed(i.incoming, RenameInst(map[x := v], i).incoming, blocks, Def(x), v);
    }
  }

  /** So does giving a virtual register its location. */
  lemma AssignReplaces(i: Inst, blocks: seq<BlockId>, name: VirtName, v: Value)
    ensures Held(A.AssignInst(map[name := v], i), blocks) == U.Replaced(Held(i, blocks), Virt(name), v)
  {
    if i.PhiInst? {
      IncomingRenamed(i.incoming, A.AssignInst(map[name := v], i).incoming, blocks, Virt(name), v);
    }
  }

  // ---- The objects behind a function

  // The object of every value and of every instruction.
  datatype Objects = Objects(blocks: seq<BlockId>, values: map<Value, U.Value>, insts: map<Pos, U.Value>)

  // The slots hold the objects of what the instruction holds.
  ghost predicate HoldsObjects(o: Objects, i: Inst, slots: seq<U.Value>) {
    var held := Held(i, o.blocks);
    && |slots| == |held|
    && forall k :: 0 <= k < |held| ==> held[k] in o.values && slots[k] == o.values[held[k]]
  }

  ghost predicate Distinct(o: Objects) {
    && (forall v, w {:trigger o.values[v], o.values[w]} :: v in o.values && w in o.values && v != w ==>
         o.values[v] != o.values[w])
    && (forall p, q {:trigger o.insts[p], o.insts[q]} :: p in o.insts && q in o.insts && p != q ==>
         o.insts[p] != o.insts[q])
  }

  // An instruction with a result is the object of that result.
  ghost predicate IsObjectOf(o: Objects, p: Pos, i: Inst) {
    && p in o.insts && (DefinesValue(i) && Def(i.id) in o.values ==> o.values[Def(i.id)] == o.insts[p])
    && (i.PhiInst? ==> forall b :: b in i.incoming ==> b in o.blocks)
  }

  ghost predicate Represents(o: Objects, f: Function, all: set<U.Value>)
    reads all
  {
    && Distinct(o) && (forall v {:trigger o.values[v]} :: v in o.values ==> o.values[v] in all)
    && (forall p {:trigger o.insts[p]} :: p in o.insts ==> o.insts[p] in all)
    && (forall p {:trigger InstAt(f, p)} :: Within(f, p) ==>
          IsObjectOf(o, p, InstAt(f, p)) && HoldsObjects(o, InstAt(f, p), o.insts[p].slots))
  }

  lemma ReplacedHolds(o: Objects, i: Inst, j: Inst, slots: seq<U.Value>, x: Value, v: Value)
    requires Distinct(o) && HoldsObjects(o, i, slots) && x in o.values && v in o.values
    requires Held(j, o.blocks) == U.Replaced(Held(i, o.blocks), x, v)
    ensures HoldsObjects(o, j, U.Replaced(slots, o.values[x], o.values[v]))
  {
    hide Held;
  }

  /** The user list of a value names exactly the instructions that the passes find as its users. */
  lemma UsersAreObjects(o: Objects, f: Function, all: set<U.Value>, v: Value, p: Pos)
    requires Represents(o, f, all) && U.Exact(all) && v in o.values && Within(f, p)
    ensures IsObjectOf(o, p, InstAt(f, p)) && (o.insts[p] in o.values[v].users <==> IsUser(f, v, p))
  {
    var i := InstAt(f, p);
    if i.PhiInst? {
      IncomingAre(i.incoming, o.blocks, v);
    }
    var value, inst := o.values[v], o.insts[p];
    assert U.Count(value.users, inst) == U.Count(inst.slots, value);
    assert value in inst.slots <==> v in Held(i, o.blocks);
  }

  // What renaming does to the instructions of a function.
  ghost predicate ReplacesIn(f: Function, g: Function, blocks: seq<BlockId>, x: Value, v: Value) {
    forall p {:trigger InstAt(g, p)} :: Within(g, p) ==>
      && Within(f, p) && SameShape(InstAt(f, p), InstAt(g, p))
      && Held(InstAt(g, p), blocks) == U.Replaced(Held(InstAt(f, p), blocks), x, v)
  }

  predicate SameShape(i: Inst, j: Inst) {
    && (DefinesValue(j) ==> DefinesValue(i) && i.id == j.id)
    && (j.PhiInst? ==> i.PhiInst? && j.incoming.Keys == i.incoming.Keys)
  }

  lemma FunctionRenamed(f: Function, blocks: seq<BlockId>, x: nat, v: Value)
    ensures ReplacesIn(f, RenameFunction(map[x := v], f), blocks, Def(x), v)
  {
    hide Held;
    var g := RenameFunction(map[x := v], f);
    forall p | Within(g, p)
      ensures Within(f, p) && Held(InstAt(g, p), blocks) == U.Replaced(Held(InstAt(f, p), blocks), Def(x), v)
      ensures SameShape(InstAt(f, p), InstAt(g, p))
    {
      assert InstAt(g, p) == RenameInst(map[x := v], InstAt(f, p));
      RenameReplaces(InstAt(f, p), blocks, x, v);
    }
  }

  lemma FunctionAssigned(f: Function, blocks: seq<BlockId>, name: VirtName, v: Value)
    ensures ReplacesIn(f, A.AssignFunction(map[name := v], f), blocks, Virt(name), v)
  {
    hide Held;
    var g := A.AssignFunction(map[name := v], f);
    forall p | Within(g, p)
      ensures Within(f, p) && Held(InstAt(g, p), blocks) == U.Replaced(Held(InstAt(f, p), blocks), Virt(name), v)
      ensures SameShape(InstAt(f, p), InstAt(g, p))
    {
      assert InstAt(g, p) == A.AssignInst(map[name := v], InstAt(f, p));
      AssignReplaces(InstAt(f, p), blocks, name, v);
    }
  }

  // Replacing all uses on the objects; g is the function they stand for afterwards.
  method ReplaceOnObjects(o: Objects, x: Value, v: Value, ghost f: Function, ghost g: Function, ghost all: set<U.Value>)
    requires Represents(o, f, all) && U.Exact(all) && x in o.values && v in o.values && x != v
    requires ReplacesIn(f, g, o.blocks, x, v)
    modifies all
    ensures Represents(o, g, all) && U.Exact(all)
  {
    hide U.Exact, U.Replaced, Held;
    var value := o.values[x];
    value.ReplaceAllUsesWith(o.values[v], all);
    forall p | Within(g, p)
      ensures IsObjectOf(o, p, InstAt(g, p)) && HoldsObjects(o, InstAt(g, p), o.insts[p].slots)
    {
      var j := InstAt(g, p);
      ReplacedHolds(o, InstAt(f, p), j, old(o.insts[p].slots), x, v);
    }
  }

  /** The renaming of a result by the folder, the promoter and the lowering pass is carried out by the user list
      of its object, and the lists stay exact. */
  method ReplaceResult(o: Objects, x: nat, v: Value, ghost f: Function, ghost all: set<U.Value>)
    requires Represents(o, f, all) && U.Exact(all) && Def(x) in o.values && v in o.values && v != Def(x)
    modifies all
    ensures Represents(o, RenameFunction(map[x := v], f), all) && U.Exact(all)
  {
    FunctionRenamed(f, o.blocks, x, v);
    ReplaceOnObjects(o, Def(x), v, f, RenameFunction(map[x := v], f), all);
  }

  /** The same for the allocator, which replaces a virtual register by its location. */
  method ReplaceRegister(o: Objects, name: VirtName, v: Value, ghost f: Function, ghost all: set<U.Value>)
    requires Represents(o, f, all) && U.Exact(all) && Virt(name) in o.values && v in o.values && v != Virt(name)
    modifies all
    ensures Represents(o, A.AssignFunction(map[name := v], f), all) && U.Exact(all)
  {
    FunctionAssigned(f, o.blocks, name, v);
    ReplaceOnObjects(o, Virt(name), v, f, A.AssignFunction(map[name := v], f), all);
  }
}

/** The function object a pass edits in place. */
module FunctionObject {
  import opened Words
  import opened Ir
  import opened Ssa

  // An instruction that takes v as an operand or an incoming value.
  predicate UsesValue(i: Inst, v: Value) {
    if i.PhiInst? then v in i.incoming.Values else v in Operands(i)
  }

  ghost predicate IsUser(f: Function, v: Value, p: Pos) {
    Within(f, p) && UsesValue(InstAt(f, p), v)
  }

  function UsersInBlock(b: BlockId, block: Block, k: nat, v: Value): (r: seq<Pos>)
    requires k <= |block|
    ensures forall p :: p in r <==> p.block == b && k <= p.index < |block| && UsesValue(block[p.index], v)
    decreases |block| - k
  {
    if k == |block| then []
    else (if UsesValue(block[k], v) then [Pos(b, k)] else []) + UsersInBlock(b, block, k + 1, v)
  }

  // The instructions that use a value.
  function Users(f: Function, order: seq<BlockId>, v: Value): (r: seq<Pos>)
    requires forall b :: b in order ==> b in f.blocks
    ensures forall p :: p in r <==> p.block in order && IsUser(f, v, p)
  {
    if order == [] then []
    else UsersInBlock(order[0], f.blocks[order[0]], 0, v) + Users(f, order[1..], v)
  }

  function PositionsInBlock(b: BlockId, n: nat, k: nat): (r: seq<Pos>)
    requires k <= n
    ensures forall p :: p in r <==> p.block == b && k <= p.index < n
    decreases n - k
  {
    if k == n then [] else [Pos(b, k)] + PositionsInBlock(b, n, k + 1)
  }

  // All instructions, block by block in function order.
  function Positions(f: Function, order: seq<BlockId>): (r: seq<Pos>)
    requires forall b :: b in order ==> b in f.blocks
    ensures forall p :: p in r <==> p.block in order && Within(f, p)
  {
    if order == [] then []
    else PositionsInBlock(order[0], |f.blocks[order[0]]|, 0) + Positions(f, order[1..])
  }

  // Without the result-producing instructions that have one of the given identities.
  function DropInsts(ids: set<nat>, b: Block): Block {
    if b == [] then []
    else (if DefinesValue(b[0]) && b[0].id in ids then [] else [b[0]]) + DropInsts(ids, b[1..])
  }

  function DropFrom(ids: set<nat>, f: Function): Function {
    Function(f.order, map b | b in f.blocks :: DropInsts(ids, f.blocks[b]))
  }

  lemma {:induction false} DropTwice(a: set<nat>, b: set<nat>, block: Block)
    ensures DropInsts(b, DropInsts(a, block)) == DropInsts(a + b, block)
  {
    if block != [] {
      DropTwice(a, b, block[1..]);
      if DefinesValue(block[0]) && block[0].id in a {
        assert DropInsts(a, block) == DropInsts(a, block[1..]);
      } else {
        assert DropInsts(a, block)[1..] == DropInsts(a, block[1..]);
      }
    }
  }

  lemma {:induction false} DropNothing(block: Block)
    ensures DropInsts({}, block) == block
  {
    if block != [] {
      DropNothing(block[1..]);
    }
  }

  function InsertAt(b: Block, k: nat, i: Inst): Block
    requires k <= |b|
  {
    b[..k] + [i] + b[k..]
  }

  function EraseAt(b: Block, k: nat): Block
    requires k < |b|
  {
    b[..k] + b[k + 1..]
  }

  function WithBlock(f: Function, b: BlockId, block: Block): Function {
    f.(blocks := f.blocks[b := block])
  }

  lemma WithOwnBlock(f: Function, b: BlockId)
    requires b in f.blocks
    ensures WithBlock(f, b, f.blocks[b]) == f
  {
  }

  class FunctionObject {
    var fn: Function

    constructor (f: Function)
      ensures fn == f
    {
      fn := f;
    }

    // What Value::replace_all_uses_with does through an exact use list.
    method ReplaceAllUses(x: nat, v: Value)
      modifies this
      ensures fn == RenameFunction(map[x := v], old(fn))
    {
      fn := RenameFunction(map[x := v], fn);
    }

    // Instruction::remove_from_parent.
    method RemoveInst(x: nat)
      modifies this
      ensures fn == DropFrom({x}, old(fn))
    {
      fn := DropFrom({x}, fn);
    }

    // BasicBlock::insert.
    method Insert(b: BlockId, k: nat, i: Inst)
      requires b in fn.blocks && k <= |fn.blocks[b]|
      modifies this
      ensures fn == WithBlock(old(fn), b, InsertAt(old(fn).blocks[b], k, i))
    {
      fn := WithBlock(fn, b, InsertAt(fn.blocks[b], k, i));
    }

    // An instruction changed in place.
    method SetInst(b: BlockId, k: nat, i: Inst)
      requires b in fn.blocks && k < |fn.blocks[b]|
      modifies this
      ensures fn == WithBlock(old(fn), b, old(fn).blocks[b][k := i])
    {
      fn := WithBlock(fn, b, fn.blocks[b][k := i]);
    }

    // BasicBlock::remove.
    method Erase(b: BlockId, k: nat)
      requires b in fn.blocks && k < |fn.blocks[b]|
      modifies this
      ensures fn == WithBlock(old(fn), b, EraseAt(old(fn).blocks[b], k))
    {
      fn := WithBlock(fn, b, EraseAt(fn.blocks[b], k));
    }
  }
}

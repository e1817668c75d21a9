/** Following blocks that only branch on, and redirecting branches. */
module CfgShape {
  import opened Words
  import opened Graph
  import opened Ir
  import opened Ssa

  predicate BranchOnly(b: Block) {
    |b| == 1 && b[0].BranchInst?
  }

  // A function next to the graph that was computed for it at first and is never computed again.
  datatype View = View(cfg: Digraph, fn: Function)

  // A block that branches are taken past.
  predicate Skips(w: View, b: BlockId) {
    b in w.fn.blocks && b != w.cfg.entry && Preds(w.cfg, b) != [] && BranchOnly(w.fn.blocks[b])
  }

  function Hop(w: View, b: BlockId): BlockId {
    if Skips(w, b) then w.fn.blocks[b][0].dst else b
  }

  function Hops(w: View, b: BlockId, k: nat): BlockId
    decreases k
  {
    if k == 0 then b else Hops(w, Hop(w, b), k - 1)
  }

  ghost predicate Leaves(w: View, b: BlockId, k: nat) {
    !Skips(w, Hops(w, b, k))
  }

  ghost predicate CanLeave(w: View, b: BlockId) {
    exists k: nat {:trigger Leaves(w, b, k)} :: Leaves(w, b, k)
  }

  /** No cycle consists of branch-only blocks. */
  ghost predicate NoCycle(w: View) {
    forall b {:trigger CanLeave(w, b)} :: b in w.fn.blocks ==> CanLeave(w, b)
  }

  ghost function Least(w: View, b: BlockId, k: nat): (r: nat)
    requires Leaves(w, b, k)
    ensures Leaves(w, b, r) && forall j: nat :: j < r ==> !Leaves(w, b, j)
    decreases k
  {
    if exists j: nat :: j < k && Leaves(w, b, j) then
      var j: nat :| j < k && Leaves(w, b, j);
      Least(w, b, j)
    else k
  }

  // The number of branch-only blocks on the way from b.
  ghost function HopCount(w: View, b: BlockId): (r: nat)
    ensures CanLeave(w, b) ==> Leaves(w, b, r) && forall j: nat :: j < r ==> !Leaves(w, b, j)
  {
    if CanLeave(w, b) then
      var k: nat :| Leaves(w, b, k);
      Least(w, b, k)
    else 0
  }

  // Where a branch to b ends up.
  ghost function Follow(w: View, b: BlockId): BlockId {
    Hops(w, b, HopCount(w, b))
  }

  lemma LeavesHop(w: View, b: BlockId, k: nat)
    ensures Leaves(w, b, k + 1) <==> Leaves(w, Hop(w, b), k)
  {
  }

  lemma FollowHop(w: View, b: BlockId)
    requires Skips(w, b) && CanLeave(w, b)
    ensures CanLeave(w, Hop(w, b)) && HopCount(w, b) == HopCount(w, Hop(w, b)) + 1
    ensures Follow(w, b) == Follow(w, Hop(w, b))
  {
    hide Least, HopCount, Skips, Hop, Leaves;
    var d := HopCount(w, b);
    NotHere(w, b);
    LeavesHop(w, b, d - 1);
    var e := HopCount(w, Hop(w, b));
    LeavesHop(w, b, e);
  }

  lemma NotHere(w: View, b: BlockId)
    requires Skips(w, b) && CanLeave(w, b)
    ensures HopCount(w, b) > 0
  {
    hide Least, HopCount, Skips;
    assert Hops(w, b, 0) == b;
  }

  lemma FollowHere(w: View, b: BlockId)
    requires !Skips(w, b)
    ensures HopCount(w, b) == 0 && Follow(w, b) == b && CanLeave(w, b)
  {
    hide Least, HopCount, Skips;
    assert Hops(w, b, 0) == b;
    assert Leaves(w, b, 0);
  }

  // Every destination of a branch had a predecessor when the graph was computed.
  ghost predicate StaleSafe(w: View) {
    forall b, d {:trigger d in BlockTargets(w.fn.blocks[b])} ::
      b in w.fn.blocks && d in BlockTargets(w.fn.blocks[b]) ==>
      Preds(w.cfg, d) != []
  }

  ghost predicate Servable(w: View) {
    ValidFunction(w.fn) && w.cfg.entry == Entry(w.fn) && NoCycle(w) && StaleSafe(w)
  }

  lemma HopTarget(w: View, b: BlockId)
    requires ValidFunction(w.fn) && StaleSafe(w) && Skips(w, b)
    ensures Hop(w, b) in w.fn.blocks && Preds(w.cfg, Hop(w, b)) != [] && Hop(w, b) in BlockTargets(w.fn.blocks[b])
  {
    hide Preds;
    var block := w.fn.blocks[b];
    assert Hop(w, b) in InstTargets(block[0]);
  }

  /** A branch is followed to a block that stays: one that is no branch-only block, and that had a
      predecessor if the branch's own destination had one. */
  lemma {:induction false} FollowEnds(w: View, b: BlockId)
    requires ValidFunction(w.fn) && StaleSafe(w) && NoCycle(w) && b in w.fn.blocks
    ensures Follow(w, b) in w.fn.blocks && !Skips(w, Follow(w, b))
    ensures Preds(w.cfg, b) != [] ==> Preds(w.cfg, Follow(w, b)) != []
    decreases HopCount(w, b)
  {
    hide Preds, Skips, HopCount, Hop, Follow, StaleSafe, ValidFunction;
    assert CanLeave(w, b);
    if Skips(w, b) {
      FollowHop(w, b);
      HopTarget(w, b);
      FollowEnds(w, Hop(w, b));
    } else {
      FollowHere(w, b);
    }
  }

  // ---- Redirecting branches

  type Redirect = map<BlockId, BlockId>

  function Dest(t: Redirect, d: BlockId): BlockId {
    if d in t then t[d] else d
  }

  function RetargetInst(t: Redirect, i: Inst): Inst {
    if i.BranchInst? then i.(dst := Dest(t, i.dst))
    else if i.CondBranchInst? then i.(falseDst := Dest(t, i.falseDst), trueDst := Dest(t, i.trueDst))
    else i
  }

  function RetargetBlock(t: Redirect, b: Block): (r: Block)
    ensures |r| == |b| && forall k :: 0 <= k < |b| ==> r[k] == RetargetInst(t, b[k])
  {
    seq(|b|, k requires 0 <= k < |b| => RetargetInst(t, b[k]))
  }

  function Retargeted(t: Redirect, f: Function): Function {
    Function(f.order, map b | b in f.blocks :: RetargetBlock(t, f.blocks[b]))
  }

  // t, and then y for x.
  function AndThen(t: Redirect, x: BlockId, y: BlockId): Redirect {
    map z | z in t :: if t[z] == x then y else t[z]
  }

  predicate Covers(t: Redirect, b: Block) {
    forall d :: d in BlockTargets(b) ==> d in t
  }

  lemma RetargetTwice(t: Redirect, x: BlockId, y: BlockId, b: Block)
    requires Covers(t, b)
    ensures RetargetBlock(map[x := y], RetargetBlock(t, b)) == RetargetBlock(AndThen(t, x, y), b)
  {
    forall k | 0 <= k < |b|
      ensures RetargetInst(map[x := y], RetargetInst(t, b[k])) == RetargetInst(AndThen(t, x, y), b[k])
    {
      forall d | d in InstTargets(b[k])
        ensures d in t
      {
        assert d in BlockTargets(b);
      }
      if b[k].BranchInst? {
        assert b[k].dst in InstTargets(b[k]);
      } else if b[k].CondBranchInst? {
        assert b[k].falseDst in InstTargets(b[k]) && b[k].trueDst in InstTargets(b[k]);
      }
    }
  }

  lemma RetargetedTwice(t: Redirect, x: BlockId, y: BlockId, f: Function)
    requires forall b :: b in f.blocks ==> Covers(t, f.blocks[b])
    ensures Retargeted(map[x := y], Retargeted(t, f)) == Retargeted(AndThen(t, x, y), f)
  {
    hide RetargetBlock, AndThen, Covers;
    forall b | b in f.blocks
      ensures RetargetBlock(map[x := y], RetargetBlock(t, f.blocks[b])) == RetargetBlock(AndThen(t, x, y), f.blocks[b])
    {
      RetargetTwice(t, x, y, f.blocks[b]);
    }
  }

  lemma RetargetTargets(t: Redirect, b: Block, d: BlockId)
    requires d in BlockTargets(RetargetBlock(t, b))
    ensures exists c :: c in BlockTargets(b) && d == Dest(t, c)
  {
    var r := RetargetBlock(t, b);
    var k :| 0 <= k < |r| && d in InstTargets(r[k]);
    assert forall c :: c in InstTargets(b[k]) ==> c in BlockTargets(b);
    if b[k].BranchInst? {
      assert b[k].dst in InstTargets(b[k]);
    } else if b[k].CondBranchInst? {
      assert b[k].falseDst in InstTargets(b[k]) && b[k].trueDst in InstTargets(b[k]);
    }
  }

  // ---- Removing blocks

  function Without(order: seq<BlockId>, gone: set<BlockId>): (r: seq<BlockId>)
    ensures forall b :: b in r <==> b in order && b !in gone
  {
    if order == [] then []
    else (if order[0] in gone then [] else [order[0]]) + Without(order[1..], gone)
  }

  function Drop(f: Function, gone: set<BlockId>): Function {
    Function(Without(f.order, gone), map b | b in f.blocks && b !in gone :: f.blocks[b])
  }

  lemma {:induction false} WithoutTwice(order: seq<BlockId>, a: set<BlockId>, b: set<BlockId>)
    ensures Without(Without(order, a), b) == Without(order, a + b)
  {
    if order != [] {
      WithoutTwice(order[1..], a, b);
      if order[0] in a {
        assert Without(order, a) == Without(order[1..], a);
      } else {
        assert Without(order, a)[1..] == Without(order[1..], a);
      }
    }
  }

  lemma DropMore(f: Function, a: set<BlockId>, b: set<BlockId>)
    ensures Drop(Drop(f, a), b) == Drop(f, a + b)
  {
    WithoutTwice(f.order, a, b);
  }

  lemma {:induction false} WithoutNone(order: seq<BlockId>, gone: set<BlockId>)
    requires forall b :: b in order ==> b !in gone
    ensures Without(order, gone) == order
  {
    if order != [] {
      WithoutNone(order[1..], gone);
    }
  }

  lemma DistinctCons(b: BlockId, s: seq<BlockId>)
    requires NoDup(s) && b !in s
    ensures NoDup([b] + s)
  {
  }

  lemma {:induction false} WithoutDistinct(order: seq<BlockId>, gone: set<BlockId>)
    requires NoDup(order)
    ensures NoDup(Without(order, gone))
  {
    if order != [] {
      WithoutDistinct(order[1..], gone);
      if order[0] !in gone {
        assert Without(order, gone) == [order[0]] + Without(order[1..], gone);
        DistinctCons(order[0], Without(order[1..], gone));
      }
    }
  }
}

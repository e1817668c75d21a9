/** Removing blocks without predecessors and blocks that only branch on, in phi-free functions. */
module CfgSimplifier {
  import opened Words
  import opened Graph
  import opened Ir
  import opened Ssa
  import opened FunctionObject
  import opened ControlFlow
  import opened CfgShape

  // A block that a run of the pass takes out.
  predicate Removed(w: View, b: BlockId) {
    b in w.fn.blocks && b != w.cfg.entry && (Preds(w.cfg, b) == [] || BranchOnly(w.fn.blocks[b]))
  }

  function AllRemoved(w: View): (r: set<BlockId>)
    ensures forall b {:trigger b in r} {:trigger Removed(w, b)} :: b in r <==> Removed(w, b)
  {
    set b | b in w.fn.blocks && Removed(w, b)
  }

  ghost function FollowAll(w: View): Redirect {
    map b | b in w.fn.blocks :: Follow(w, b)
  }

  /** What one run makes of a function: every branch is followed past the branch-only blocks, and
      those and the blocks without predecessors are gone. */
  ghost function Pruned(w: View): Function {
    Drop(Retargeted(FollowAll(w), w.fn), AllRemoved(w))
  }

  // ---- One run

  // A redirect that leads from every block to a block on its way.
  ghost predicate OnTheWay(w: View, t: Redirect) {
    t.Keys == w.fn.blocks.Keys &&
    forall z {:trigger t[z]} :: z in t ==> Ahead(w, z, t[z])
  }

  ghost predicate Ahead(w: View, z: BlockId, x: BlockId) {
    x in w.fn.blocks && Follow(w, x) == Follow(w, z) && HopCount(w, x) <= HopCount(w, z)
  }

  // A branch-only block among the first k.
  ghost predicate PassedBy(w: View, k: nat, b: BlockId) {
    Skips(w, b) && b in First(w.fn.order, k)
  }

  function First(order: seq<BlockId>, k: nat): seq<BlockId> {
    if k <= |order| then order[..k] else order
  }

  // No branch leads to one of those.
  ghost predicate Bypassed(w: View, t: Redirect, k: nat) {
    forall z {:trigger t[z]} :: z in t ==> !PassedBy(w, k, t[z])
  }

  ghost predicate Queued(w: View, k: nat, queue: seq<BlockId>) {
    && NoDup(queue)
    && forall b {:trigger b in queue} :: b in queue <==> Removed(w, b) && b in First(w.fn.order, k)
  }

  function Identity(f: Function): Redirect {
    map b | b in f.blocks :: b
  }

  lemma RetargetSame(f: Function, t: Redirect)
    requires forall b, d {:trigger d in BlockTargets(f.blocks[b])} ::
        b in f.blocks && d in BlockTargets(f.blocks[b]) ==> Dest(t, d) == d
    ensures Retargeted(t, f) == f
  {
    forall b | b in f.blocks
      ensures RetargetBlock(t, f.blocks[b]) == f.blocks[b]
    {
      var block := f.blocks[b];
      forall k | 0 <= k < |block|
        ensures RetargetInst(t, block[k]) == block[k]
      {
        SameInst(t, block, k);
      }
    }
  }

  lemma SameInst(t: Redirect, block: Block, k: nat)
    requires k < |block| && forall d :: d in BlockTargets(block) ==> Dest(t, d) == d
    ensures RetargetInst(t, block[k]) == block[k]
  {
    assert forall d :: d in InstTargets(block[k]) ==> d in BlockTargets(block);
    if block[k].BranchInst? {
      assert block[k].dst in InstTargets(block[k]);
    } else if block[k].CondBranchInst? {
      assert block[k].falseDst in InstTargets(block[k]) && block[k].trueDst in InstTargets(block[k]);
    }
  }

  lemma TargetIsBlock(f: Function, b: BlockId, d: BlockId)
    requires ValidFunction(f) && b in f.blocks && d in BlockTargets(f.blocks[b])
    ensures d in f.blocks
  {
  }

  lemma FirstMore(order: seq<BlockId>, k: nat)
    requires k < |order|
    ensures forall b {:trigger b in First(order, k + 1)} :: b in First(order, k + 1) <==>
        b in First(order, k) || b == order[k]
    ensures NoDup(order) ==> order[k] !in First(order, k)
  {
    assert order[..k + 1] == order[..k] + [order[k]];
  }

  lemma NextOnWay(w: View, t: Redirect, b: BlockId)
    requires Servable(w) && OnTheWay(w, t) && Skips(w, b)
    ensures Hop(w, b) in t && t[Hop(w, b)] in w.fn.blocks
    ensures Follow(w, t[Hop(w, b)]) == Follow(w, b) && HopCount(w, t[Hop(w, b)]) < HopCount(w, b)
  {
    hide Follow, HopCount, Preds, Hop, StaleSafe, BranchOnly;
    HopTarget(w, b);
    assert CanLeave(w, b);
    FollowHop(w, b);
  }

  lemma AheadOn(w: View, z: BlockId, x: BlockId, b: BlockId, y: BlockId)
    requires Ahead(w, z, x) && y in w.fn.blocks && Follow(w, y) == Follow(w, b) && HopCount(w, y) < HopCount(w, b)
    ensures x == b ==> Ahead(w, z, y)
  {
    hide Follow, HopCount;
  }

  lemma PastOneOnWay(w: View, t: Redirect, b: BlockId, y: BlockId)
    requires OnTheWay(w, t) && y in w.fn.blocks && Follow(w, y) == Follow(w, b) && HopCount(w, y) < HopCount(w, b)
    ensures OnTheWay(w, AndThen(t, b, y))
  {
    hide Ahead;
    var t' := AndThen(t, b, y);
    forall z {:trigger t'[z]} | z in t'
      ensures Ahead(w, z, t'[z])
    {
      assert Ahead(w, z, t[z]);
      AheadOn(w, z, t[z], b, y);
    }
  }

  lemma PastOneBypassed(w: View, t: Redirect, k: nat, y: BlockId)
    requires Bypassed(w, t, k) && k < |w.fn.order| && !PassedBy(w, k, y) && y != w.fn.order[k]
    ensures Bypassed(w, AndThen(t, w.fn.order[k], y), k + 1)
  {
    hide Skips, First;
    FirstMore(w.fn.order, k);
  }

  // The branch-only block b, whose branch now leads to y, is taken past.
  lemma PastOne(w: View, t: Redirect, k: nat, b: BlockId, y: BlockId)
    requires Servable(w) && OnTheWay(w, t) && Bypassed(w, t, k)
    requires k < |w.fn.order| && b == w.fn.order[k] && Skips(w, b) && y == Dest(t, Hop(w, b))
    ensures OnTheWay(w, AndThen(t, b, y)) && Bypassed(w, AndThen(t, b, y), k + 1)
  {
    hide Follow, HopCount, Preds, Skips, Hop, StaleSafe, ValidFunction, NoCycle, OnTheWay, AndThen, PassedBy;
    NextOnWay(w, t, b);
    PastOneOnWay(w, t, b, y);
    PastOneBypassed(w, t, k, y);
  }

  lemma BlockOnWay(w: View, t: Redirect, b: BlockId)
    requires b in w.fn.blocks && t.Keys == w.fn.blocks.Keys
    ensures var r := Retargeted(t, w.fn).blocks[b];
      BranchOnly(r) == BranchOnly(w.fn.blocks[b]) && (BranchOnly(r) ==> r[0].dst == Dest(t, w.fn.blocks[b][0].dst))
  {
    var r := RetargetBlock(t, w.fn.blocks[b]);
    assert |r| > 0 ==> r[0] == RetargetInst(t, w.fn.blocks[b][0]);
  }

  // What BasicBlock::replace_all_uses_with does: every branch to x is a branch to y.
  method ReplaceBlock(u: FunctionObject, x: BlockId, y: BlockId)
    modifies u
    ensures u.fn == Retargeted(map[x := y], old(u.fn))
  {
    u.fn := Retargeted(map[x := y], u.fn);
  }

  // Function::remove, of a block that no branch leads to.
  method RemoveBlock(u: FunctionObject, x: BlockId)
    requires forall b :: b in u.fn.blocks ==> x !in BlockTargets(u.fn.blocks[b])
    modifies u
    ensures u.fn == Drop(old(u.fn), {x})
  {
    u.fn := Drop(u.fn, {x});
  }

  ghost predicate Progress(w: View, fn: Function, t: Redirect, k: nat, queue: seq<BlockId>) {
    && k <= |w.fn.order| && OnTheWay(w, t) && Bypassed(w, t, k) && Queued(w, k, queue)
    && fn == Retargeted(t, w.fn)
  }

  lemma QueueMore(w: View, k: nat, queue: seq<BlockId>)
    requires ValidFunction(w.fn) && k < |w.fn.order| && Queued(w, k, queue)
    ensures var b := w.fn.order[k]; Queued(w, k + 1, if Removed(w, b) then queue + [b] else queue)
  {
    hide Removed, NoDup, First;
    var b := w.fn.order[k];
    OrderDistinct(w.fn);
    FirstMore(w.fn.order, k);
    if b !in queue {
      DistinctAppend(queue, b);
    }
  }

  lemma OrderDistinct(f: Function)
    requires ValidFunction(f)
    ensures NoDup(f.order)
  {
  }

  lemma DistinctAppend(s: seq<BlockId>, b: BlockId)
    requires NoDup(s) && b !in s
    ensures NoDup(s + [b])
  {
  }

  lemma DistinctLast(s: seq<BlockId>)
    requires NoDup(s) && |s| > 0
    ensures var last := s[|s| - 1]; var init := s[..|s| - 1];
      NoDup(init) && last !in init && forall b {:trigger b in s} {:trigger b in init} :: b in s <==>
        b in init || b == last
  {
    assert s == s[..|s| - 1] + [s[|s| - 1]];
  }

  // Leaves a block that is not a branch-only block with predecessors as it is.
  lemma PastNone(w: View, t: Redirect, k: nat)
    requires Bypassed(w, t, k) && k < |w.fn.order| && !Skips(w, w.fn.order[k])
    ensures Bypassed(w, t, k + 1)
  {
    hide Skips, First;
    FirstMore(w.fn.order, k);
  }

  method VisitBlock(u: FunctionObject, cfg: GraphObject, k: nat, queue: seq<BlockId>, ghost w: View, ghost t: Redirect)
      returns (queue': seq<BlockId>, ghost t': Redirect)
    requires Servable(w) && cfg.Valid() && cfg.Model() == w.cfg
    requires k < |w.fn.order| && Progress(w, u.fn, t, k, queue)
    modifies u
    ensures Progress(w, u.fn, t', k + 1, queue')
  {
    hide OnTheWay, Bypassed, Queued, Retargeted, Follow, HopCount, StaleSafe, NoCycle, BranchOnly;
    queue', t' := queue, t;
    Here(w, u.fn, t, k, queue);
    var b := u.fn.order[k];
    QueueMore(w, k, queue);
    if b == cfg.entry {
      PastNone(w, t, k);
      return;
    }
    var preds := cfg.PredsOf(b);
    if preds == [] {
      queue' := queue + [b];
      PastNone(w, t, k);
      return;
    }
    if BranchOnly(u.fn.blocks[b]) {
      var dst := BranchDst(u.fn.blocks[b]);
      PastOne(w, t, k, b, dst);
      Covered(w, t);
      RetargetedTwice(t, b, dst, w.fn);
      ReplaceBlock(u, b, dst);
      t' := AndThen(t, b, dst);
      queue' := queue + [b];
    } else {
      PastNone(w, t, k);
    }
  }

  function BranchDst(b: Block): BlockId
    requires BranchOnly(b)
  {
    b[0].dst
  }

  lemma Covered(w: View, t: Redirect)
    requires ValidFunction(w.fn) && OnTheWay(w, t)
    ensures forall b :: b in w.fn.blocks ==> Covers(t, w.fn.blocks[b])
  {
  }

  lemma Here(w: View, fn: Function, t: Redirect, k: nat, queue: seq<BlockId>)
    requires ValidFunction(w.fn) && k < |w.fn.order| && Progress(w, fn, t, k, queue)
    ensures fn.order == w.fn.order && fn.order[k] in fn.blocks && fn.order[k] in w.fn.blocks
    ensures var b := fn.order[k];
      BranchOnly(fn.blocks[b]) == BranchOnly(w.fn.blocks[b])
      && (BranchOnly(fn.blocks[b]) ==> BranchDst(fn.blocks[b]) == Dest(t, w.fn.blocks[b][0].dst))
  {
    BlockOnWay(w, t, fn.order[k]);
  }

  lemma FollowedAll(w: View, t: Redirect)
    requires Servable(w) && OnTheWay(w, t) && Bypassed(w, t, |w.fn.order|)
    ensures t == FollowAll(w)
  {
    hide Follow, HopCount, Preds, Skips, StaleSafe, ValidFunction, First, NoCycle;
    AllFirst(w.fn);
    forall z | z in t
      ensures t[z] == Follow(w, z)
    {
      assert t[z] in First(w.fn.order, |w.fn.order|);
      FollowHere(w, t[z]);
    }
  }

  // After all branches have been followed, none leads to a block that is removed.
  lemma StaysTarget(w: View, b: BlockId, d: BlockId)
    requires Servable(w) && b in w.fn.blocks && d in BlockTargets(Retargeted(FollowAll(w), w.fn).blocks[b])
    ensures d in w.fn.blocks && !Removed(w, d) && Preds(w.cfg, d) != []
  {
    hide Follow, HopCount, RetargetBlock, NoCycle;
    var t := FollowAll(w);
    RetargetTargets(t, w.fn.blocks[b], d);
    var c :| c in BlockTargets(w.fn.blocks[b]) && d == Dest(t, c);
    TargetIsBlock(w.fn, b, c);
    FollowEnds(w, c);
  }

  // Takes out what is queued.
  method RemoveQueued(u: FunctionObject, queue: seq<BlockId>, ghost w: View)
    requires Servable(w) && Queued(w, |w.fn.order|, queue) && u.fn == Retargeted(FollowAll(w), w.fn)
    modifies u
    ensures u.fn == Pruned(w)
  {
    hide Follow, FollowAll, Retargeted, Removed, NoDup, Drop, First;
    var rest := queue;
    ghost var all := Retargeted(FollowAll(w), w.fn);
    ghost var gone: set<BlockId> := {};
    NothingGone(w, all);
    while |rest| > 0
      invariant u.fn == Drop(all, gone) && NoDup(rest)
      invariant forall b {:trigger b in rest} {:trigger b in gone} :: Removed(w, b) <==> b in rest || b in gone
    {
      var x := rest[|rest| - 1];
      DistinctLast(rest);
      rest := rest[..|rest| - 1];
      NoBranchTo(w, gone, x);
      RemoveBlock(u, x);
      DropMore(all, gone, {x});
      gone := gone + {x};
    }
    assert gone == AllRemoved(w);
  }

  lemma AllFirst(f: Function)
    requires ValidFunction(f)
    ensures forall b {:trigger b in First(f.order, |f.order|)} :: b in First(f.order, |f.order|) <==> b in f.blocks
  {
    assert f.order[..|f.order|] == f.order;
  }

  lemma NothingGone(w: View, f: Function)
    requires f == Retargeted(FollowAll(w), w.fn) && ValidFunction(w.fn)
    ensures Drop(f, {}) == f
    ensures forall b :: Removed(w, b) ==> b in First(w.fn.order, |w.fn.order|)
  {
    hide Follow, FollowAll, RetargetBlock, Preds, BranchOnly;
    AllFirst(w.fn);
    WithoutNone(f.order, {});
  }

  lemma NoBranchTo(w: View, gone: set<BlockId>, x: BlockId)
    requires Servable(w) && Removed(w, x)
    ensures var f := Drop(Retargeted(FollowAll(w), w.fn), gone);
      forall b :: b in f.blocks ==> x !in BlockTargets(f.blocks[b])
  {
    hide Follow, FollowAll, RetargetBlock, Removed, NoCycle, StaleSafe;
    var f := Drop(Retargeted(FollowAll(w), w.fn), gone);
    forall b | b in f.blocks && x in BlockTargets(f.blocks[b])
      ensures false
    {
      StaysTarget(w, b, x);
    }
  }

  /** One run of the pass over a function, with the analysis it was given. */
  method Run(u: FunctionObject, cfg: GraphObject) returns (changed: bool)
    requires cfg.Valid() && Servable(View(cfg.Model(), u.fn))
    modifies u
    ensures u.fn == Pruned(View(cfg.Model(), old(u.fn)))
    ensures changed <==> AllRemoved(View(cfg.Model(), old(u.fn))) != {}
    ensures forall b :: b in u.fn.blocks <==>
        && b in old(u.fn).blocks
        && (b == cfg.entry
            || ((exists c :: HasEdge(cfg.Model(), c, b))
                && !(|old(u.fn).blocks[b]| == 1 && old(u.fn).blocks[b][0].BranchInst?)))
    ensures forall b :: b in u.fn.blocks ==>
        b == cfg.entry || !(|u.fn.blocks[b]| == 1 && u.fn.blocks[b][0].BranchInst?)
  {
    hide OnTheWay, Bypassed, Retargeted, Follow, HopCount, StaleSafe, NoCycle, Removed, NoDup, FollowAll, Pruned;
    ghost var w := View(cfg.Model(), u.fn);
    ghost var t := Identity(u.fn);
    var queue: seq<BlockId> := [];
    StartProgress(w);
    var k := 0;
    while k < |u.fn.order|
      invariant k <= |w.fn.order| == |u.fn.order| && Progress(w, u.fn, t, k, queue)
    {
      queue, t := VisitBlock(u, cfg, k, queue, w, t);
      k := k + 1;
      SameOrder(w, u.fn, t, k, queue);
    }
    FollowedAll(w, t);
    changed := queue != [];
    QueueIsAll(w, queue);
    RemoveQueued(u, queue, w);
    BlocksLeft(w);
  }

  /** The blocks that are left: the entry, and those with a predecessor that are no lone branch; none of them has become
      one. */
  lemma BlocksLeft(w: View)
    ensures forall b :: b in Pruned(w).blocks <==>
        && b in w.fn.blocks
        && (b == w.cfg.entry
            || ((exists c :: HasEdge(w.cfg, c, b)) && !(|w.fn.blocks[b]| == 1 && w.fn.blocks[b][0].BranchInst?)))
    ensures forall b :: b in Pruned(w).blocks ==>
        b == w.cfg.entry || !(|Pruned(w).blocks[b]| == 1 && Pruned(w).blocks[b][0].BranchInst?)
  {
    hide Follow, FollowAll, Retargeted, RetargetBlock;
    RetargetKeeps(w, FollowAll(w));
    forall b
      ensures Preds(w.cfg, b) != [] <==> exists c :: HasEdge(w.cfg, c, b)
    {
      assert Preds(w.cfg, b) != [] ==> Preds(w.cfg, b)[0] in Preds(w.cfg, b);
    }
    forall b | b in Pruned(w).blocks
      ensures BranchOnly(Pruned(w).blocks[b]) == BranchOnly(w.fn.blocks[b])
    {
      BranchOnlyStays(w, b);
    }
  }

  lemma SameOrder(w: View, fn: Function, t: Redirect, k: nat, queue: seq<BlockId>)
    requires Progress(w, fn, t, k, queue)
    ensures fn.order == w.fn.order
  {
  }

  lemma StartProgress(w: View)
    requires ValidFunction(w.fn)
    ensures Progress(w, w.fn, Identity(w.fn), 0, [])
  {
    hide Follow, HopCount;
    RetargetSame(w.fn, Identity(w.fn));
  }

  lemma QueueIsAll(w: View, queue: seq<BlockId>)
    requires ValidFunction(w.fn) && Queued(w, |w.fn.order|, queue)
    ensures queue == [] <==> AllRemoved(w) == {}
  {
    hide Preds, BranchOnly, First;
    AllFirst(w.fn);
    if queue != [] {
      assert queue[0] in queue && queue[0] in AllRemoved(w);
    }
    if AllRemoved(w) != {} {
      var b :| b in AllRemoved(w);
      assert b in queue;
    }
  }

  // ---- Running until nothing changes

  ghost function After(w: View): View {
    w.(fn := Pruned(w))
  }

  lemma EntryStays(w: View)
    requires Servable(w)
    ensures Pruned(w).order != [] && Entry(Pruned(w)) == Entry(w.fn)
  {
    hide Follow, RetargetBlock;
    assert Entry(w.fn) !in AllRemoved(w);
  }

  lemma PrunedTargets(w: View, b: BlockId, d: BlockId)
    requires Servable(w) && b in Pruned(w).blocks && d in BlockTargets(Pruned(w).blocks[b])
    ensures d in Pruned(w).blocks && Preds(w.cfg, d) != []
  {
    hide Follow, FollowAll, Preds, Retargeted, BranchOnly, Servable;
    RetargetKeeps(w, FollowAll(w));
    StaysTarget(w, b, d);
  }

  lemma PrunedOrder(w: View)
    requires Servable(w)
    ensures NoDup(Pruned(w).order) && forall b :: b in Pruned(w).order <==> b in Pruned(w).blocks
  {
    hide Follow, FollowAll, Preds, Retargeted, Removed;
    RetargetKeeps(w, FollowAll(w));
    OrderDistinct(w.fn);
    WithoutDistinct(w.fn.order, AllRemoved(w));
  }

  lemma PrunedIsDone(w: View, b: BlockId)
    requires Servable(w) && b in Pruned(w).blocks
    ensures !Removed(After(w), b) && CanLeave(After(w), b)
  {
    hide Follow, FollowAll, Preds, Retargeted, BranchOnly, Servable;
    RetargetKeeps(w, FollowAll(w));
    BranchOnlyStays(w, b);
    FollowHere(After(w), b);
  }

  /** The result is a function again, all its branch destinations are blocks it has, and the graph that
      is not computed again still shows a predecessor for each of them. */
  lemma PrunedIsServable(w: View)
    requires Servable(w)
    ensures Servable(After(w)) && AllRemoved(After(w)) == {}
  {
    hide Pruned, Preds, CanLeave, Removed;
    EntryStays(w);
    PrunedOrder(w);
    forall b, d {:trigger d in BlockTargets(Pruned(w).blocks[b])} | b in Pruned(w).blocks
      && d in BlockTargets(Pruned(w).blocks[b])
      ensures d in Pruned(w).blocks && Preds(w.cfg, d) != []
    {
      PrunedTargets(w, b, d);
    }
    forall b | b in Pruned(w).blocks
      ensures !Removed(After(w), b) && CanLeave(After(w), b)
    {
      PrunedIsDone(w, b);
    }
  }

  lemma RetargetKeeps(w: View, t: Redirect)
    ensures Retargeted(t, w.fn).order == w.fn.order && Retargeted(t, w.fn).blocks.Keys == w.fn.blocks.Keys
  {
  }

  lemma BranchOnlyStays(w: View, b: BlockId)
    requires b in Pruned(w).blocks
    ensures BranchOnly(Pruned(w).blocks[b]) == BranchOnly(w.fn.blocks[b])
  {
    hide Follow;
    BlockOnWay(w, FollowAll(w), b);
  }

  lemma NothingLeftToDo(w: View)
    requires Servable(w) && AllRemoved(w) == {}
    ensures Pruned(w) == w.fn
  {
    hide Follow, HopCount, Preds;
    var t := FollowAll(w);
    forall b, d {:trigger d in BlockTargets(w.fn.blocks[b])} | b in w.fn.blocks && d in BlockTargets(w.fn.blocks[b])
      ensures Dest(t, d) == d
    {
      TargetIsBlock(w.fn, b, d);
      assert d !in AllRemoved(w);
      FollowHere(w, d);
    }
    RetargetSame(w.fn, t);
    WithoutNone(w.fn.order, {});
  }

  /** Runs the pass until nothing changes, which takes at most two runs. */
  method RunOn(u: FunctionObject) returns (ghost runs: nat)
    requires ValidFunction(u.fn) && NoCycle(View(CfgOf(u.fn), u.fn))
    modifies u
    ensures u.fn == Pruned(View(CfgOf(old(u.fn)), old(u.fn))) && ValidFunction(u.fn) && runs <= 2
    ensures forall b :: b in u.fn.blocks <==>
        && b in old(u.fn).blocks
        && (b == Entry(old(u.fn))
            || ((exists c :: HasEdge(CfgOf(old(u.fn)), c, b))
                && !(|old(u.fn).blocks[b]| == 1 && old(u.fn).blocks[b][0].BranchInst?)))
    ensures forall b :: b in u.fn.blocks ==>
        b == Entry(old(u.fn)) || !(|u.fn.blocks[b]| == 1 && u.fn.blocks[b][0].BranchInst?)
  {
    hide Pruned, AllRemoved, NoCycle, Removed;
    ghost var w := View(CfgOf(u.fn), u.fn);
    FreshIsSafe(u.fn);
    var cfg := BuildCfg(u.fn);
    PrunedIsServable(w);
    NothingLeftToDo(After(w));
    BlocksLeft(w);
    var changed := Run(u, cfg);
    runs := 1;
    while changed
      invariant cfg.Valid() && cfg.Model() == w.cfg && u.fn == Pruned(w)
      invariant runs <= 2 && (changed ==> runs == 1)
      decreases changed
    {
      changed := Run(u, cfg);
      runs := runs + 1;
    }
  }

  /** At first every branch destination has a predecessor: the branch's own block. */
  lemma FreshIsSafe(f: Function)
    requires ValidFunction(f)
    ensures StaleSafe(View(CfgOf(f), f))
  {
    forall b, d {:trigger d in BlockTargets(f.blocks[b])} | b in f.blocks && d in BlockTargets(f.blocks[b])
      ensures Preds(CfgOf(f), d) != []
    {
      CfgEdges(f, b, d);
      assert b in Preds(CfgOf(f), d);
    }
  }
}

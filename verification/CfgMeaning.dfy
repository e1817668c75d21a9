/** A simplified function does the same work and returns the same value. */
module CfgMeaning {
  import opened Words
  import opened Graph
  import opened Ir
  import opened Ssa
  import opened CfgShape
  import opened CfgSimplifier

  ghost predicate PhiFree(f: Function) {
    forall b {:trigger f.blocks[b]} :: b in f.blocks ==> NoPhis(f.blocks[b])
  }

  // The instructions of a block that are executed from a state, without the branches.
  function Work(b: Block, st: State): seq<Inst> {
    if b == [] then []
    else
      var o := ExecInst(b[0], st);
      (if b[0].BranchInst? || b[0].CondBranchInst? then [] else [b[0]]) + (if o.Fell? then Work(b[1..], o.st) else [])
  }

  // Those of the next n blocks of a run.
  function Trace(f: Function, o: Outcome, n: nat): seq<Inst>
    decreases n
  {
    if n == 0 || !o.Jump? || o.dst !in f.blocks then []
    else Work(f.blocks[o.dst], o.st) + Trace(f, StepBlock(f, o.dst, o.st), n - 1)
  }

  function Redirected(t: Redirect, o: Outcome): Outcome {
    if o.Jump? then Jump(Dest(t, o.dst), o.st) else o
  }

  lemma RetargetOne(t: Redirect, i: Inst, st: State)
    ensures ExecInst(RetargetInst(t, i), st) == Redirected(t, ExecInst(i, st))
  {
  }

  lemma {:induction false} RetargetExec(t: Redirect, b: Block, st: State)
    ensures ExecInsts(RetargetBlock(t, b), st) == Redirected(t, ExecInsts(b, st))
    ensures Work(RetargetBlock(t, b), st) == Work(b, st)
  {
    hide ExecInst, RetargetInst;
    if b != [] {
      RetargetOne(t, b[0], st);
      KeepsKind(t, b[0]);
      assert RetargetBlock(t, b)[1..] == RetargetBlock(t, b[1..]);
      var o := ExecInst(b[0], st);
      if o.Fell? {
        RetargetExec(t, b[1..], o.st);
      }
    }
  }

  lemma KeepsKind(t: Redirect, i: Inst)
    ensures var r := RetargetInst(t, i);
      (r.BranchInst? || r.CondBranchInst? <==> i.BranchInst? || i.CondBranchInst?)
        && (i.BranchInst? || i.CondBranchInst? || r == i)
  {
  }

  lemma EnterSame(b: Block, from: BlockId, env: Env)
    requires NoPhis(b)
    ensures EnterEnv(b, from, env) == env
  {
    forall id
      ensures EntryValue(b, from, env, id) == Lookup(env, id)
    {
      FindPhiSome(b, id);
    }
  }

  ghost function Mapped(w: View, o: Outcome): Outcome {
    if o.Jump? then Jump(Follow(w, o.dst), o.st) else o
  }

  // A block that a run can be at.
  ghost predicate Live(w: View, b: BlockId) {
    b in w.fn.blocks && (b == w.cfg.entry || Preds(w.cfg, b) != [])
  }

  ghost predicate Simplifiable(w: View) {
    Servable(w) && PhiFree(w.fn)
  }

  lemma StaysAlive(w: View, b: BlockId)
    requires Servable(w) && Live(w, b)
    ensures Follow(w, b) in Pruned(w).blocks
  {
    hide Follow, HopCount, Preds, RetargetBlock, BranchOnly;
    FollowEnds(w, b);
    if b == w.cfg.entry {
      FollowHere(w, b);
    }
  }

  lemma StepPlain(w: View, b: BlockId, st: State)
    requires Simplifiable(w) && b in w.fn.blocks
    ensures var o := ExecInsts(w.fn.blocks[b], st); StepBlock(w.fn, b, st) == if o.Jump? || o.Return? then o else Stuck
    ensures StepBlock(w.fn, b, st).Jump? ==> Live(w, StepBlock(w.fn, b, st).dst)
  {
    hide ExecInsts, EnterEnv, NoPhis, Preds, NoCycle;
    var o := ExecInsts(w.fn.blocks[b], st);
    if o.Jump? {
      ExecTarget(w.fn.blocks[b], st);
      TargetIsBlock(w.fn, b, o.dst);
      EnterSame(w.fn.blocks[o.dst], b, o.st.env);
    }
  }

  // A branch-only block does no work.
  lemma StepPast(w: View, b: BlockId, st: State)
    requires Simplifiable(w) && Skips(w, b)
    ensures StepBlock(w.fn, b, st) == Jump(Hop(w, b), st) && Work(w.fn.blocks[b], st) == []
    ensures Live(w, Hop(w, b)) && Follow(w, Hop(w, b)) == Follow(w, b) && HopCount(w, Hop(w, b)) < HopCount(w, b)
  {
    hide Preds, HopCount, Follow, EnterEnv;
    StepPlain(w, b, st);
    assert CanLeave(w, b);
    FollowHop(w, b);
  }

  // A block that stays does the same, up to where it leads.
  lemma StepStays(w: View, b: BlockId, st: State)
    requires Simplifiable(w) && b in Pruned(w).blocks
    ensures StepBlock(Pruned(w), b, st) == Mapped(w, StepBlock(w.fn, b, st))
    ensures Work(Pruned(w).blocks[b], st) == Work(w.fn.blocks[b], st)
  {
    hide ExecInsts, EnterEnv, Preds, NoCycle, Follow, Work, AllRemoved, StaleSafe;
    var t := FollowAll(w);
    StepPlain(w, b, st);
    RetargetExec(t, w.fn.blocks[b], st);
    var o := ExecInsts(w.fn.blocks[b], st);
    if o.Jump? {
      var d := Follow(w, o.dst);
      StaysAlive(w, o.dst);
      assert Pruned(w).blocks[d] == RetargetBlock(t, w.fn.blocks[d]);
      EnterSame(Pruned(w).blocks[d], b, o.st.env);
    }
  }

  // One more block of a run.
  lemma RunStep(f: Function, b: BlockId, st: State, n: nat)
    requires b in f.blocks && n > 0
    ensures var o := StepBlock(f, b, st);
      Ir.Run(f, Jump(b, st), n) == Ir.Run(f, o, n - 1)
      && Trace(f, Jump(b, st), n) == Work(f.blocks[b], st) + Trace(f, o, n - 1)
  {
    hide StepBlock, Work;
  }

  lemma RunEnded(f: Function, o: Outcome, n: nat)
    requires !o.Jump?
    ensures Ir.Run(f, o, n) == o && Trace(f, o, n) == []
  {
  }

  lemma RunStart(f: Function, o: Outcome)
    ensures Ir.Run(f, o, 0) == o && Trace(f, o, 0) == []
  {
  }

  /** n blocks of the function are matched by at most n blocks of the simplified one. */
  lemma {:induction false} Forward(w: View, b: BlockId, st: State, n: nat) returns (n': nat)
    requires Simplifiable(w) && Live(w, b)
    ensures n' <= n
    ensures Ir.Run(Pruned(w), Jump(Follow(w, b), st), n') == Mapped(w, Ir.Run(w.fn, Jump(b, st), n))
    ensures Trace(Pruned(w), Jump(Follow(w, b), st), n') == Trace(w.fn, Jump(b, st), n)
    decreases n
  {
    hide Pruned, StepBlock, Work, Follow, HopCount, Simplifiable, Preds, Skips, Ir.Run, Trace;
    RunStart(w.fn, Jump(b, st));
    RunStart(Pruned(w), Jump(Follow(w, b), st));
    if n == 0 {
      return 0;
    }
    RunStep(w.fn, b, st, n);
    if Skips(w, b) {
      StepPast(w, b, st);
      n' := Forward(w, Hop(w, b), st, n - 1);
    } else {
      Staying(w, b, st);
      var o := StepBlock(w.fn, b, st);
      if o.Jump? {
        n' := Forward(w, o.dst, o.st, n - 1);
        n' := n' + 1;
      } else {
        RunEnded(w.fn, o, n - 1);
        RunEnded(Pruned(w), o, 0);
        n' := 1;
      }
      RunStep(Pruned(w), b, st, n');
    }
  }

  // At a block that stays the two runs step together.
  lemma Staying(w: View, b: BlockId, st: State)
    requires Simplifiable(w) && Live(w, b) && !Skips(w, b)
    ensures Follow(w, b) == b && b in Pruned(w).blocks
    ensures StepBlock(Pruned(w), b, st) == Mapped(w, StepBlock(w.fn, b, st))
    ensures Work(Pruned(w).blocks[b], st) == Work(w.fn.blocks[b], st)
    ensures StepBlock(w.fn, b, st).Jump? ==> Live(w, StepBlock(w.fn, b, st).dst)
  {
    hide Pruned, StepBlock, Work, Follow, HopCount, Preds, Skips, Servable, PhiFree;
    FollowHere(w, b);
    StaysAlive(w, b);
    StepStays(w, b, st);
    StepPlain(w, b, st);
  }

  /** And the other way around. */
  lemma {:induction false} Backward(w: View, b: BlockId, st: State, n': nat) returns (n: nat)
    requires Simplifiable(w) && Live(w, b)
    ensures n' <= n
    ensures Ir.Run(Pruned(w), Jump(Follow(w, b), st), n') == Mapped(w, Ir.Run(w.fn, Jump(b, st), n))
    ensures Trace(Pruned(w), Jump(Follow(w, b), st), n') == Trace(w.fn, Jump(b, st), n)
    decreases n', HopCount(w, b)
  {
    hide Pruned, StepBlock, Work, Follow, HopCount, Simplifiable, Preds, Skips, Ir.Run, Trace;
    RunStart(w.fn, Jump(b, st));
    RunStart(Pruned(w), Jump(Follow(w, b), st));
    if n' == 0 {
      return 0;
    }
    if Skips(w, b) {
      StepPast(w, b, st);
      n := Backward(w, Hop(w, b), st, n');
      n := n + 1;
    } else {
      Staying(w, b, st);
      var o := StepBlock(w.fn, b, st);
      RunStep(Pruned(w), b, st, n');
      if o.Jump? {
        n := Backward(w, o.dst, o.st, n' - 1);
        n := n + 1;
      } else {
        RunEnded(w.fn, o, n' - 1);
        RunEnded(Pruned(w), o, n' - 1);
        n := n';
      }
    }
    RunStep(w.fn, b, st, n);
  }

  // The same work, and the same result or the corresponding block in the same state.
  ghost predicate SameRun(f: Function, n: nat, f': Function, n': nat, st: State)
    requires |f.order| > 0 && |f'.order| > 0
  {
    var o, o' := RunFunction(f, st, n), RunFunction(f', st, n');
    && Trace(f', Jump(Entry(f'), st.(env := map[])), n') == Trace(f, Jump(Entry(f), st.(env := map[])), n)
    && (o.Jump? <==> o'.Jump?) && (o.Jump? ==> o'.st == o.st) && (!o.Jump? ==> o' == o)
  }

  /** Simplification keeps every run: what the function does in some number of blocks the simplified
      function does in no more of them, and the other way around. */
  lemma SimplificationKeepsRuns(f: Function, st: State, n: nat) returns (shorter: nat, longer: nat)
    requires ValidFunction(f) && NoCycle(View(CfgOf(f), f)) && PhiFree(f)
    ensures var f' := Pruned(View(CfgOf(f), f));
      |f'.order| > 0 && shorter <= n <= longer && SameRun(f, n, f', shorter, st) && SameRun(f, longer, f', n, st)
  {
    hide Pruned, Trace, Ir.Run, NoCycle;
    var w := View(CfgOf(f), f);
    FreshIsSafe(f);
    EntryStays(w);
    AtEntry(w);
    shorter := Forward(w, Entry(f), st.(env := map[]), n);
    longer := Backward(w, Entry(f), st.(env := map[]), n);
  }

  lemma AtEntry(w: View)
    requires |w.fn.order| > 0 && w.cfg.entry == Entry(w.fn)
    ensures Follow(w, Entry(w.fn)) == Entry(w.fn)
  {
    FollowHere(w, Entry(w.fn));
  }
}
